/**
 * The `namespaced_trigger` flow mutator. It validates its decorator
 * arguments, and before a flow is registered it rewrites the flow's list of
 * decorator records: it refuses a plain `@trigger`, resolves the project name,
 * overrides the `@project` record and appends a `@trigger` record whose event
 * names carry the project namespace.
 */
module NamespacedTrigger {
  import opened Wrappers
  import opened PyValues
  import opened EventNames

  /** One entry of a flow's decorator list: the decorator's name and its keyword arguments. */
  datatype DecoratorSpec = DecoratorSpec(name: string, kwargs: map<string, Value>)

  /** A named config object, as parsed from its JSON value. */
  type Config = map<string, Scalar>

  /** The exceptions the mutator raises. */
  datatype Error =
    | MissingEventArgument             // neither `event` nor `events` given
    | ConflictingTrigger               // a plain `@trigger` is present too
    | MissingProjectName(configName: string)
    | ProjectNameNotString             // `".".join` refuses a non-`str` project name

  /** The message written to standard error when no config object matches. */
  function MissingConfigWarning(configName: string): string {
    "No config object found for " + configName
  }

  /** `init`'s check: an empty `events` list needs a truthy `event`. */
  function CheckArguments(event: Option<string>, events: seq<string>): (r: Outcome<Error>)
    ensures r.Pass? || r == Fail(MissingEventArgument)
    ensures r.Fail? <==> |events| == 0 && (event == None || event == Some(""))
  {
    if |events| == 0 && !(event.Some? && Truthy(Str(event.value))) then Fail(MissingEventArgument) else Pass
  }

  /** The config object of the first entry named `name` (the `for ... else` scan of `pre_mutate`). */
  function LookupConfig(configs: seq<(string, Config)>, name: string): Option<Config> {
    if configs == [] then None
    else if configs[0].0 == name then Some(configs[0].1)
    else LookupConfig(configs[1..], name)
  }

  /** The lookup finds nothing exactly when no entry has the name, and otherwise finds the first one's value. */
  lemma {:induction false} LookupConfigFirst(configs: seq<(string, Config)>, name: string)
    ensures LookupConfig(configs, name).None? <==> forall k :: 0 <= k < |configs| ==> configs[k].0 != name
    ensures LookupConfig(configs, name).Some? ==>
              exists k :: 0 <= k < |configs| && configs[k] == (name, LookupConfig(configs, name).value)
                          && forall j :: 0 <= j < k ==> configs[j].0 != name
  {
    if configs != [] && configs[0].0 != name {
      LookupConfigFirst(configs[1..], name);
      assert forall k :: 1 <= k < |configs| ==> configs[k] == configs[1..][k - 1];
      if LookupConfig(configs, name).Some? {
        var k :| 0 <= k < |configs[1..]| && configs[1..][k] == (name, LookupConfig(configs, name).value)
                  && forall j :: 0 <= j < k ==> configs[1..][j].0 != name;
        assert configs[k + 1] == (name, LookupConfig(configs, name).value);
        assert forall j :: 0 <= j < k + 1 ==> configs[j].0 != name by {
          forall j | 0 <= j < k + 1 ensures configs[j].0 != name {
            if j > 0 { assert configs[j] == configs[1..][j - 1]; }
          }
        }
      }
    }
  }

  /** The scan over the configs, stopping at the first match. */
  method FindConfig(configs: seq<(string, Config)>, name: string) returns (r: Option<Config>)
    ensures r == LookupConfig(configs, name)
  {
    var k := 0;
    while k < |configs|
      invariant 0 <= k <= |configs|
      invariant LookupConfig(configs[k..], name) == LookupConfig(configs, name)
    {
      if configs[k].0 == name {
        return Some(configs[k].1);
      }
      assert configs[k..][1..] == configs[k + 1..];
      k := k + 1;
    }
    return None;
  }

  /** The keyword arguments of the first record named `name` (`_extract_project_decorator`, `_extract_trigger`). */
  function FirstKwargs(specs: seq<DecoratorSpec>, name: string): Option<map<string, Value>> {
    if specs == [] then None
    else if specs[0].name == name then Some(specs[0].kwargs)
    else FirstKwargs(specs[1..], name)
  }

  /** The scan finds nothing exactly when no record has the name, and otherwise finds the first one's arguments. */
  lemma {:induction false} FirstKwargsFirst(specs: seq<DecoratorSpec>, name: string)
    ensures FirstKwargs(specs, name).None? <==> forall k :: 0 <= k < |specs| ==> specs[k].name != name
    ensures FirstKwargs(specs, name).Some? ==>
              exists k :: 0 <= k < |specs| && specs[k] == DecoratorSpec(name, FirstKwargs(specs, name).value)
                          && forall j :: 0 <= j < k ==> specs[j].name != name
  {
    if specs != [] && specs[0].name != name {
      FirstKwargsFirst(specs[1..], name);
      assert forall k :: 1 <= k < |specs| ==> specs[k] == specs[1..][k - 1];
      if FirstKwargs(specs, name).Some? {
        var k :| 0 <= k < |specs[1..]| && specs[1..][k] == DecoratorSpec(name, FirstKwargs(specs, name).value)
                  && forall j :: 0 <= j < k ==> specs[1..][j].name != name;
        assert specs[k + 1] == DecoratorSpec(name, FirstKwargs(specs, name).value);
        assert forall j :: 0 <= j < k + 1 ==> specs[j].name != name by {
          forall j | 0 <= j < k + 1 ensures specs[j].name != name {
            if j > 0 { assert specs[j] == specs[1..][j - 1]; }
          }
        }
      }
    }
  }

  /** The scan over the decorator records, returning at the first match. */
  method FindKwargs(specs: seq<DecoratorSpec>, name: string) returns (r: Option<map<string, Value>>)
    ensures r == FirstKwargs(specs, name)
  {
    var k := 0;
    while k < |specs|
      invariant 0 <= k <= |specs|
      invariant FirstKwargs(specs[k..], name) == FirstKwargs(specs, name)
    {
      if specs[k].name == name {
        return Some(specs[k].kwargs);
      }
      assert specs[k..][1..] == specs[k + 1..];
      k := k + 1;
    }
    return None;
  }

  /** Appending a record changes a lookup only when nothing earlier matched. */
  lemma {:induction false} FirstKwargsAppend(specs: seq<DecoratorSpec>, d: DecoratorSpec, name: string)
    ensures FirstKwargs(specs + [d], name)
         == if FirstKwargs(specs, name).Some? then FirstKwargs(specs, name)
            else if d.name == name then Some(d.kwargs) else None
  {
    if specs != [] {
      assert (specs + [d])[1..] == specs[1..] + [d];
      FirstKwargsAppend(specs[1..], d, name);
    }
  }

  /** The records of `specs` not named `name`, in order. */
  function WithoutName(specs: seq<DecoratorSpec>, name: string): (r: seq<DecoratorSpec>)
    ensures |r| <= |specs|
    ensures forall k :: 0 <= k < |r| ==> r[k].name != name
  {
    if specs == [] then []
    else (if specs[0].name == name then [] else [specs[0]]) + WithoutName(specs[1..], name)
  }

  /** Removing a name nobody has changes nothing. */
  lemma {:induction false} WithoutAbsentName(specs: seq<DecoratorSpec>, name: string)
    requires forall k :: 0 <= k < |specs| ==> specs[k].name != name
    ensures WithoutName(specs, name) == specs
  {
    if specs != [] {
      WithoutAbsentName(specs[1..], name);
    }
  }

  /** Removing the records of one name does not change the lookup of another. */
  lemma {:induction false} FirstKwargsWithout(specs: seq<DecoratorSpec>, removed: string, name: string)
    requires removed != name
    ensures FirstKwargs(WithoutName(specs, removed), name) == FirstKwargs(specs, name)
  {
    if specs != [] {
      var rest := WithoutName(specs[1..], removed);
      FirstKwargsWithout(specs[1..], removed, name);
      if specs[0].name == removed {
        assert WithoutName(specs, removed) == rest;
      } else {
        assert WithoutName(specs, removed) == [specs[0]] + rest;
        assert ([specs[0]] + rest)[0] == specs[0];
        assert ([specs[0]] + rest)[1..] == rest;
      }
    }
  }

  /**
   * The host's `add_decorator(..., duplicates=OVERRIDE)`: the first record
   * of that name is replaced in place, later ones are dropped, and the record
   * is appended when none exists. Exactly one record of the name remains,
   * and the records of other names keep their order.
   */
  function Override(specs: seq<DecoratorSpec>, d: DecoratorSpec): (r: seq<DecoratorSpec>)
    ensures FirstKwargs(r, d.name) == Some(d.kwargs)
    ensures WithoutName(r, d.name) == WithoutName(specs, d.name)
    ensures |r| == |WithoutName(specs, d.name)| + 1
  {
    if specs == [] then [d]
    else if specs[0].name == d.name then
      var rest := WithoutName(specs[1..], d.name);
      WithoutAbsentName(rest, d.name);
      [d] + rest
    else
      [specs[0]] + Override(specs[1..], d)
  }

  /** Overriding one decorator leaves every other decorator's lookup as it was. */
  lemma {:induction false} OverrideOther(specs: seq<DecoratorSpec>, d: DecoratorSpec, name: string)
    requires name != d.name
    ensures FirstKwargs(Override(specs, d), name) == FirstKwargs(specs, name)
  {
    if specs != [] {
      if specs[0].name == d.name {
        FirstKwargsWithout(specs[1..], d.name, name);
      } else {
        OverrideOther(specs[1..], d, name);
      }
    }
  }

  /**
   * `project_kwargs.get("name", config_obj.get("name", None))`: the
   * `@project` decorator's `name` wins, the config's `name` comes next.
   */
  function ResolveProjectName(projectKwargs: map<string, Value>, config: Config): (v: Value)
    ensures "name" in projectKwargs ==> v == projectKwargs["name"]
    ensures "name" !in projectKwargs ==> v == Atom(Get(config, "name", Null))
  {
    if "name" in projectKwargs then projectKwargs["name"] else Atom(Get(config, "name", Null))
  }

  /** A list of strings as a keyword-argument value. */
  function StrList(items: seq<string>): Value {
    List(seq(|items|, k requires 0 <= k < |items| => Atom(Str(items[k]))))
  }

  /** The `@trigger` record `pre_mutate` adds. */
  function TriggerRecord(event: Option<string>, events: seq<string>, options: map<string, Value>): DecoratorSpec {
    DecoratorSpec("trigger", map[
      "event" := (if event.Some? then Atom(Str(event.value)) else Atom(Null)),
      "events" := StrList(events),
      "options" := Dict(options)])
  }

  /** The `@project` record `pre_mutate` writes over the flow's own. */
  function ProjectRecord(name: Value, branch: Scalar, production: Scalar): DecoratorSpec {
    DecoratorSpec("project", map["name" := name, "branch" := Atom(branch), "production" := Atom(production)])
  }

  /** `if _extract_trigger():` -- the first `@trigger` record has keyword arguments. */
  predicate HasPlainTrigger(specs: seq<DecoratorSpec>) {
    var plain := FirstKwargs(specs, "trigger");
    plain.Some? && plain.value != map[]
  }

  /** The conflict check holds exactly when the first `@trigger` record exists and has keyword arguments. */
  lemma HasPlainTriggerFirst(specs: seq<DecoratorSpec>)
    ensures HasPlainTrigger(specs) <==>
              exists k :: 0 <= k < |specs| && specs[k].name == "trigger" && specs[k].kwargs != map[]
                          && forall j :: 0 <= j < k ==> specs[j].name != "trigger"
  {
    FirstKwargsFirst(specs, "trigger");
    if exists k :: 0 <= k < |specs| && specs[k].name == "trigger" && specs[k].kwargs != map[]
                   && forall j :: 0 <= j < k ==> specs[j].name != "trigger" {
      var k :| 0 <= k < |specs| && specs[k].name == "trigger" && specs[k].kwargs != map[]
               && forall j :: 0 <= j < k ==> specs[j].name != "trigger";
      var m :| 0 <= m < |specs| && specs[m] == DecoratorSpec("trigger", FirstKwargs(specs, "trigger").value)
               && forall j :: 0 <= j < m ==> specs[j].name != "trigger";
      assert m == k;
    }
  }

  /** The config object `pre_mutate` reads: the first match, or an empty one. */
  function ConfigOf(configs: seq<(string, Config)>, configName: string): Config {
    LookupConfig(configs, configName).GetOr(map[])
  }

  /** The list comprehension formatting each of `events`. */
  function FormatAll(project: string, branch: Scalar, production: Scalar, user: string, events: seq<string>): seq<string> {
    seq(|events|, k requires 0 <= k < |events| => FormatEventName(project, branch, production, user, events[k]))
  }

  /** What one `pre_mutate` pass raises (or not) and the decorator list it leaves behind. */
  datatype Registration = Registration(outcome: Outcome<Error>, specs: seq<DecoratorSpec>)

  /**
   * The whole `pre_mutate` pass as a function of its inputs. Failures found
   * before the override leave the records as they were; a pass that
   * succeeds ends with the appended `@trigger` record carrying `options`.
   */
  function Register(event: Option<string>, events: seq<string>, options: map<string, Value>, configName: string,
                    configs: seq<(string, Config)>, specs: seq<DecoratorSpec>, user: string): (r: Registration)
    ensures r.outcome.Pass? || r.outcome.error in {ConflictingTrigger, MissingProjectName(configName), ProjectNameNotString}
    ensures r.outcome == Fail(ConflictingTrigger) || r.outcome == Fail(MissingProjectName(configName)) ==> r.specs == specs
    ensures r.outcome.Pass? ==> |r.specs| >= 1 && r.specs[|r.specs| - 1].name == "trigger"
                                && "options" in r.specs[|r.specs| - 1].kwargs && r.specs[|r.specs| - 1].kwargs["options"] == Dict(options)
  {
    var config := ConfigOf(configs, configName);
    var branch := Get(config, "branch", Null);
    var production := Get(config, "production", Bool(false));
    if HasPlainTrigger(specs) then Registration(Fail(ConflictingTrigger), specs)
    else match FirstKwargs(specs, "project")
      case None => Registration(Pass, specs + [TriggerRecord(event, events, options)])
      case Some(projectKwargs) =>
        var name := ResolveProjectName(projectKwargs, config);
        if name == Atom(Null) then Registration(Fail(MissingProjectName(configName)), specs)
        else
          var overridden := Override(specs, ProjectRecord(name, branch, production));
          var isStr := name.Atom? && name.scalar.Str?;
          // `".".join` sees the name only when an event name is formatted
          if !isStr && (event.Some? || |events| > 0) then Registration(Fail(ProjectNameNotString), overridden)
          else
            // with a name that is not a `str`, nothing below formats a name, so `project` is never read
            var project := if isStr then name.scalar.s else "";
            var namespaced := if event.None? then None
                              else Some(FormatEventName(project, branch, production, user, event.value));
            Registration(Pass, overridden + [TriggerRecord(namespaced, FormatAll(project, branch, production, user, events), options)])
  }

  /** A plain `@trigger` with arguments makes the pass raise, whatever the project or config, and nothing changes. */
  lemma RegisterRejectsPlainTrigger(event: Option<string>, events: seq<string>, options: map<string, Value>, configName: string,
                                    configs: seq<(string, Config)>, specs: seq<DecoratorSpec>, user: string)
    ensures var r := Register(event, events, options, configName, configs, specs, user);
            (r.outcome == Fail(ConflictingTrigger) <==> HasPlainTrigger(specs))
            && (HasPlainTrigger(specs) ==> r.specs == specs)
  {
  }

  /** Without a `@project` record the trigger is appended with the arguments verbatim and no project appears. */
  lemma RegisterWithoutProject(event: Option<string>, events: seq<string>, options: map<string, Value>, configName: string,
                               configs: seq<(string, Config)>, specs: seq<DecoratorSpec>, user: string)
    requires !HasPlainTrigger(specs)
    requires FirstKwargs(specs, "project") == None
    ensures var r := Register(event, events, options, configName, configs, specs, user);
            r.outcome == Pass
            && r.specs == specs + [TriggerRecord(event, events, options)]
            && FirstKwargs(r.specs, "project") == None
  {
    FirstKwargsAppend(specs, TriggerRecord(event, events, options), "project");
  }

  /** The pass fails for a missing project name exactly when the resolved name is `None`, changing nothing. */
  lemma RegisterMissingName(event: Option<string>, events: seq<string>, options: map<string, Value>, configName: string,
                            configs: seq<(string, Config)>, specs: seq<DecoratorSpec>, user: string)
    ensures var r := Register(event, events, options, configName, configs, specs, user);
            r.outcome == Fail(MissingProjectName(configName))
            <==> !HasPlainTrigger(specs) && FirstKwargs(specs, "project").Some?
                 && ResolveProjectName(FirstKwargs(specs, "project").value, ConfigOf(configs, configName)) == Atom(Null)
    ensures var r := Register(event, events, options, configName, configs, specs, user);
            r.outcome == Fail(MissingProjectName(configName)) ==> r.specs == specs
  {
  }

  /**
   * A project name that is not a `str` gets past the `None` check, and the
   * `@project` record is overridden with it. The pass then fails in
   * `".".join` exactly when an event name is formatted (`event` is not
   * `None` or `events` is non-empty), before any trigger is added; otherwise
   * a trigger with no event and no events is appended.
   */
  lemma RegisterNameNotString(event: Option<string>, events: seq<string>, options: map<string, Value>, configName: string,
                              configs: seq<(string, Config)>, specs: seq<DecoratorSpec>, user: string, projectKwargs: map<string, Value>)
    requires !HasPlainTrigger(specs)
    requires FirstKwargs(specs, "project") == Some(projectKwargs)
    requires var name := ResolveProjectName(projectKwargs, ConfigOf(configs, configName));
             name != Atom(Null) && !(name.Atom? && name.scalar.Str?)
    ensures var r := Register(event, events, options, configName, configs, specs, user);
            r.outcome == Fail(ProjectNameNotString) <==> event.Some? || |events| > 0
    ensures var r := Register(event, events, options, configName, configs, specs, user);
            var config := ConfigOf(configs, configName);
            FirstKwargs(r.specs, "project") == Some(map[
              "name" := ResolveProjectName(projectKwargs, config),
              "branch" := Atom(Get(config, "branch", Null)),
              "production" := Atom(Get(config, "production", Bool(false)))])
    ensures var r := Register(event, events, options, configName, configs, specs, user);
            r.outcome == Fail(ProjectNameNotString) ==> FirstKwargs(r.specs, "trigger") == FirstKwargs(specs, "trigger")
    ensures var r := Register(event, events, options, configName, configs, specs, user);
            r.outcome.Pass? ==> r.specs[|r.specs| - 1] == TriggerRecord(None, [], options)
  {
    var config := ConfigOf(configs, configName);
    var d := ProjectRecord(ResolveProjectName(projectKwargs, config), Get(config, "branch", Null), Get(config, "production", Bool(false)));
    OverrideOther(specs, d, "trigger");
    if event.None? && |events| == 0 {
      assert FormatAll("", Get(config, "branch", Null), Get(config, "production", Bool(false)), user, events) == [];
      FirstKwargsAppend(Override(specs, d), TriggerRecord(None, [], options), "project");
    }
  }

  /** The shape of a successful pass with a `@project` record: the override, then one appended trigger. */
  lemma RegisterNamespacedShape(event: Option<string>, events: seq<string>, options: map<string, Value>, configName: string,
                                configs: seq<(string, Config)>, specs: seq<DecoratorSpec>, user: string,
                                projectKwargs: map<string, Value>, project: string)
    requires !HasPlainTrigger(specs)
    requires FirstKwargs(specs, "project") == Some(projectKwargs)
    requires ResolveProjectName(projectKwargs, ConfigOf(configs, configName)) == Atom(Str(project))
    ensures var config := ConfigOf(configs, configName);
            var branch := Get(config, "branch", Null);
            var production := Get(config, "production", Bool(false));
            var namespaced := if event.None? then None
                              else Some(FormatEventName(project, branch, production, user, event.value));
            Register(event, events, options, configName, configs, specs, user)
            == Registration(Pass, Override(specs, ProjectRecord(Atom(Str(project)), branch, production))
                                  + [TriggerRecord(namespaced, FormatAll(project, branch, production, user, events), options)])
  {
  }

  /**
   * A successful pass with a `@project` record: the project record becomes
   * `{name, branch, production}` as resolved (branch defaulting to `None`,
   * production to `False`), the lookup of every other record except the
   * trigger is unchanged, and exactly one record is added besides.
   */
  lemma RegisterNamespacedProject(event: Option<string>, events: seq<string>, options: map<string, Value>, configName: string,
                                  configs: seq<(string, Config)>, specs: seq<DecoratorSpec>, user: string,
                                  projectKwargs: map<string, Value>, project: string)
    requires !HasPlainTrigger(specs)
    requires FirstKwargs(specs, "project") == Some(projectKwargs)
    requires ResolveProjectName(projectKwargs, ConfigOf(configs, configName)) == Atom(Str(project))
    ensures var r := Register(event, events, options, configName, configs, specs, user);
            var config := ConfigOf(configs, configName);
            && r.outcome == Pass
            && |r.specs| == |WithoutName(specs, "project")| + 2
            && FirstKwargs(r.specs, "project")
               == Some(map["name" := Atom(Str(project)),
                           "branch" := Atom(Get(config, "branch", Null)),
                           "production" := Atom(Get(config, "production", Bool(false)))])
            && (forall name :: name != "project" && name != "trigger" ==> FirstKwargs(r.specs, name) == FirstKwargs(specs, name))
  {
    RegisterNamespacedShape(event, events, options, configName, configs, specs, user, projectKwargs, project);
    var config := ConfigOf(configs, configName);
    var d := ProjectRecord(Atom(Str(project)), Get(config, "branch", Null), Get(config, "production", Bool(false)));
    var overridden := Override(specs, d);
    var r := Register(event, events, options, configName, configs, specs, user);
    var t := r.specs[|r.specs| - 1];
    assert r.specs == overridden + [t];
    FirstKwargsAppend(overridden, t, "project");
    forall name | name != "project" && name != "trigger"
      ensures FirstKwargs(r.specs, name) == FirstKwargs(specs, name)
    {
      FirstKwargsAppend(overridden, t, name);
      OverrideOther(specs, d, name);
    }
  }

  /**
   * The trigger a successful pass with a `@project` record appends: its
   * `event` is `None` exactly when the argument was and is otherwise the
   * formatted name; its `events` are the arguments formatted one by one, in
   * order and of the same number; its `options` are passed through.
   */
  lemma RegisterNamespacedTrigger(event: Option<string>, events: seq<string>, options: map<string, Value>, configName: string,
                                  configs: seq<(string, Config)>, specs: seq<DecoratorSpec>, user: string,
                                  projectKwargs: map<string, Value>, project: string)
    requires !HasPlainTrigger(specs)
    requires FirstKwargs(specs, "project") == Some(projectKwargs)
    requires ResolveProjectName(projectKwargs, ConfigOf(configs, configName)) == Atom(Str(project))
    ensures var r := Register(event, events, options, configName, configs, specs, user);
            var config := ConfigOf(configs, configName);
            var branch := Get(config, "branch", Null);
            var production := Get(config, "production", Bool(false));
            |r.specs| >= 1 &&
            var t := r.specs[|r.specs| - 1];
            && t.name == "trigger"
            && (t.kwargs["event"] == Atom(Null) <==> event.None?)
            && (event.Some? ==> t.kwargs["event"] == Atom(Str(FormatEventName(project, branch, production, user, event.value))))
            && t.kwargs["events"].List?
            && |t.kwargs["events"].items| == |events|
            && (forall k :: 0 <= k < |events| ==>
                  t.kwargs["events"].items[k] == Atom(Str(FormatEventName(project, branch, production, user, events[k]))))
            && t.kwargs["options"] == Dict(options)
  {
    RegisterNamespacedShape(event, events, options, configName, configs, specs, user, projectKwargs, project);
  }

  /** The flow as the host hands it to a mutator: its configs and its decorator records. */
  class MutableFlow {
    const configs: seq<(string, Config)>
    var decoratorSpecs: seq<DecoratorSpec>

    constructor (configs: seq<(string, Config)>, decoratorSpecs: seq<DecoratorSpec>)
      ensures this.configs == configs && this.decoratorSpecs == decoratorSpecs
    {
      this.configs := configs;
      this.decoratorSpecs := decoratorSpecs;
    }

    /** `add_decorator` with the default policy: the record is appended. */
    method AddDecorator(d: DecoratorSpec)
      modifies this
      ensures decoratorSpecs == old(decoratorSpecs) + [d]
    {
      decoratorSpecs := decoratorSpecs + [d];
    }

    /** `add_decorator(..., duplicates=OVERRIDE)`. */
    method OverrideDecorator(d: DecoratorSpec)
      modifies this
      ensures decoratorSpecs == Override(old(decoratorSpecs), d)
    {
      decoratorSpecs := Override(decoratorSpecs, d);
    }
  }

  /** The mutator object: the arguments `init` stores, and the warnings it has written. */
  class NamespacedTriggerMutator {
    var event: Option<string>
    var events: seq<string>
    var options: map<string, Value>
    var configName: string
    var showWarnings: bool
    ghost var warnings: seq<string>

    constructor ()
      ensures event == None && events == [] && options == map[]
      ensures configName == "project" && showWarnings && warnings == []
    {
      event, events, options := None, [], map[];
      configName, showWarnings := "project", true;
      warnings := [];
    }

    /** `init`: stores the arguments (with their defaults), then raises when no event is given. */
    method Init(event: Option<string> := None, events: seq<string> := [], options: map<string, Value> := map[],
                configName: string := "project", showWarnings: bool := true) returns (r: Outcome<Error>)
      modifies this
      ensures this.event == event && this.events == events && this.options == options
      ensures this.configName == configName && this.showWarnings == showWarnings
      ensures warnings == old(warnings)
      ensures r == CheckArguments(event, events)
    {
      this.event := event;
      this.events := events;
      this.options := options;
      this.configName := configName;
      this.showWarnings := showWarnings;
      if |events| == 0 && !(event.Some? && event.value != "") {
        return Fail(MissingEventArgument);
      }
      return Pass;
    }

    /** `_warn`: writes only when warnings are on. */
    method Warn(message: string)
      modifies this`warnings
      ensures warnings == old(warnings) + (if showWarnings then [message] else [])
    {
      if showWarnings {
        warnings := warnings + [message];
      }
    }

    /** `pre_mutate`, with `get_username()` passed in as `user`. */
    method PreMutate(flow: MutableFlow, user: string) returns (r: Outcome<Error>)
      modifies flow, this`warnings
      ensures var reg := Register(event, events, options, configName, flow.configs, old(flow.decoratorSpecs), user);
              r == reg.outcome && flow.decoratorSpecs == reg.specs
      ensures warnings == old(warnings) + (if showWarnings && LookupConfig(flow.configs, configName).None?
                                           then [MissingConfigWarning(configName)] else [])
    {
      ghost var specs := flow.decoratorSpecs;
      ghost var reg := Register(event, events, options, configName, flow.configs, specs, user);
      var found := FindConfig(flow.configs, configName);
      var config: Config := map[];
      if found.Some? {
        config := found.value;
      } else {
        Warn(MissingConfigWarning(configName));
      }
      assert config == ConfigOf(flow.configs, configName);
      var branch := Get(config, "branch", Null);
      var production := Get(config, "production", Bool(false));

      var plain := FindKwargs(flow.decoratorSpecs, "trigger");
      if plain.Some? && plain.value != map[] {
        assert reg == Registration(Fail(ConflictingTrigger), specs);
        return Fail(ConflictingTrigger);
      }
      assert !HasPlainTrigger(flow.decoratorSpecs);

      var projectKwargs := FindKwargs(flow.decoratorSpecs, "project");
      if projectKwargs.None? {
        assert reg == Registration(Pass, specs + [TriggerRecord(event, events, options)]);
        flow.AddDecorator(TriggerRecord(event, events, options));
        return Pass;
      }

      var name := ResolveProjectName(projectKwargs.value, config);
      if name == Atom(Null) {
        assert reg == Registration(Fail(MissingProjectName(configName)), specs);
        return Fail(MissingProjectName(configName));
      }
      flow.OverrideDecorator(ProjectRecord(name, branch, production));
      ghost var overridden := flow.decoratorSpecs;

      var isStr := name.Atom? && name.scalar.Str?;
      if !isStr && (event.Some? || |events| > 0) {
        assert reg == Registration(Fail(ProjectNameNotString), overridden);
        return Fail(ProjectNameNotString);
      }
      var project := if isStr then name.scalar.s else "";
      var namespaced := if event.None? then None
                        else Some(FormatEventName(project, branch, production, user, event.value));
      var all := FormatAll(project, branch, production, user, events);
      assert reg == Registration(Pass, overridden + [TriggerRecord(namespaced, all, options)]);
      flow.AddDecorator(TriggerRecord(namespaced, all, options));
      return Pass;
    }
  }
}
