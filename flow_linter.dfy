/**
 * The `flow_linter` flow mutator: for every step, every `@kubernetes`,
 * `@batch` or `@resources` decorator has each attribute that exceeds the
 * configured limit for its key lowered to that limit, with one warning and
 * one override of the decorator per lowered attribute.
 */
module FlowLinter {
  import opened Wrappers

  /** A decorator's attributes; a value is `None` or a number. */
  type Attributes = map<string, Option<int>>

  /** A step decorator record: its name and its attributes. */
  datatype DecoratorSpec = DecoratorSpec(name: string, attributes: Attributes)

  /** A step: its name and its decorator records. */
  datatype Step = Step(name: string, decorators: seq<DecoratorSpec>)

  /** What the linter emits: the printed warning, and the decorator override carrying the updated attributes. */
  datatype LintEvent =
    | Warned(step: string, decorator: string, key: string, value: int, limit: int)
    | Overridden(step: string, decorator: string, attributes: Attributes)

  /** `deco_name in ("kubernetes", "batch", "resources")` */
  predicate Examined(name: string) {
    name == "kubernetes" || name == "batch" || name == "resources"
  }

  /** `val and float(val) > limit` */
  predicate Exceeds(val: Option<int>, limit: int) {
    val.Some? && val.value != 0 && val.value > limit
  }

  /** The attribute `key` is absent, falsy or at most `limit`. */
  predicate Within(attrs: Attributes, key: string, limit: int) {
    key !in attrs || !Exceeds(attrs[key], limit)
  }

  /** Every limit is respected. */
  predicate WithinAll(attrs: Attributes, limits: seq<(string, int)>) {
    forall k :: 0 <= k < |limits| ==> Within(attrs, limits[k].0, limits[k].1)
  }

  /** `key` is one of the limited keys. */
  predicate Limited(limits: seq<(string, int)>, key: string) {
    exists k :: 0 <= k < |limits| && limits[k].0 == key
  }

  /** One iteration over the limits: `attributes[key] = limit` when the value exceeds it. */
  function ClampOne(attrs: Attributes, key: string, limit: int): Attributes {
    if key in attrs && Exceeds(attrs[key], limit) then attrs[key := Some(limit)] else attrs
  }

  /** The attributes after the loop over all limits, in order. */
  function ClampAll(attrs: Attributes, limits: seq<(string, int)>): (r: Attributes)
    ensures r.Keys == attrs.Keys
  {
    if limits == [] then attrs
    else ClampAll(ClampOne(attrs, limits[0].0, limits[0].1), limits[1..])
  }

  /** An attribute whose key has no limit keeps its value. */
  lemma {:induction false} ClampAllUnlimited(attrs: Attributes, limits: seq<(string, int)>, key: string)
    requires key in attrs && !Limited(limits, key)
    ensures ClampAll(attrs, limits)[key] == attrs[key]
  {
    if limits != [] {
      assert !Limited(limits[1..], key) by {
        forall k | 0 <= k < |limits[1..]| ensures limits[1..][k].0 != key {
          assert limits[1..][k] == limits[k + 1];
        }
      }
      assert limits[0].0 != key;
      ClampAllUnlimited(ClampOne(attrs, limits[0].0, limits[0].1), limits[1..], key);
    }
  }

  /** What one iteration over the limits emits: a warning and an override when it lowers the value, else nothing. */
  function ClampOneEvents(step: string, decorator: string, attrs: Attributes, key: string, limit: int): seq<LintEvent> {
    if key in attrs && Exceeds(attrs[key], limit)
    then [Warned(step, decorator, key, attrs[key].value, limit), Overridden(step, decorator, ClampOne(attrs, key, limit))]
    else []
  }

  /** The warnings and overrides the loop over all limits emits, in order. */
  function ClampEvents(step: string, decorator: string, attrs: Attributes, limits: seq<(string, int)>): seq<LintEvent> {
    if limits == [] then []
    else
      var key, limit := limits[0].0, limits[0].1;
      ClampOneEvents(step, decorator, attrs, key, limit) + ClampEvents(step, decorator, ClampOne(attrs, key, limit), limits[1..])
  }

  /** The loop over the limits for one decorator, returning its new attributes and what it emitted. */
  method ClampAttributes(step: string, decorator: string, attrs: Attributes, limits: seq<(string, int)>)
    returns (result: Attributes, events: seq<LintEvent>)
    ensures result == ClampAll(attrs, limits)
    ensures events == ClampEvents(step, decorator, attrs, limits)
  {
    result, events := attrs, [];
    var k := 0;
    while k < |limits|
      invariant 0 <= k <= |limits|
      invariant ClampAll(result, limits[k..]) == ClampAll(attrs, limits)
      invariant events + ClampEvents(step, decorator, result, limits[k..]) == ClampEvents(step, decorator, attrs, limits)
    {
      var key, limit := limits[k].0, limits[k].1;
      assert limits[k..][0] == (key, limit);
      assert limits[k..][1..] == limits[k + 1..];
      ghost var next := ClampOne(result, key, limit);
      ghost var emitted := ClampOneEvents(step, decorator, result, key, limit);
      ghost var rest := ClampEvents(step, decorator, next, limits[k + 1..]);
      assert ClampAll(result, limits[k..]) == ClampAll(next, limits[k + 1..]);
      assert ClampEvents(step, decorator, result, limits[k..]) == emitted + rest;
      ghost var before := events;
      if key in result && Exceeds(result[key], limit) {
        var val := result[key].value;
        events := events + [Warned(step, decorator, key, val, limit)];
        result := result[key := Some(limit)];
        events := events + [Overridden(step, decorator, result)];
      }
      assert result == next;
      assert events == before + emitted;
      assert events + rest == before + (emitted + rest);
      k := k + 1;
    }
  }

  /** Clamping never breaks a limit that already held. */
  lemma ClampOneKeepsWithin(attrs: Attributes, key: string, limit: int, key2: string, limit2: int)
    requires Within(attrs, key2, limit2)
    ensures Within(ClampOne(attrs, key, limit), key2, limit2)
  {
  }

  /** The remaining loop never breaks a limit that already held. */
  lemma {:induction false} ClampAllKeepsWithin(attrs: Attributes, limits: seq<(string, int)>, key: string, limit: int)
    requires Within(attrs, key, limit)
    ensures Within(ClampAll(attrs, limits), key, limit)
  {
    if limits != [] {
      ClampOneKeepsWithin(attrs, limits[0].0, limits[0].1, key, limit);
      ClampAllKeepsWithin(ClampOne(attrs, limits[0].0, limits[0].1), limits[1..], key, limit);
    }
  }

  /** After the loop every limited attribute is absent, falsy or at most its limit. */
  lemma {:induction false} ClampAllBounded(attrs: Attributes, limits: seq<(string, int)>)
    ensures WithinAll(ClampAll(attrs, limits), limits)
  {
    if limits != [] {
      var next := ClampOne(attrs, limits[0].0, limits[0].1);
      ClampAllBounded(next, limits[1..]);
      ClampAllKeepsWithin(next, limits[1..], limits[0].0, limits[0].1);
      forall k | 0 <= k < |limits| ensures Within(ClampAll(attrs, limits), limits[k].0, limits[k].1) {
        if k > 0 {
          assert limits[k] == limits[1..][k - 1];
        }
      }
    }
  }

  /** Attributes that already respect every limit are left as they are, and nothing is emitted. */
  lemma {:induction false} ClampAllFixed(step: string, decorator: string, attrs: Attributes, limits: seq<(string, int)>)
    requires WithinAll(attrs, limits)
    ensures ClampAll(attrs, limits) == attrs
    ensures ClampEvents(step, decorator, attrs, limits) == []
  {
    if limits != [] {
      assert Within(attrs, limits[0].0, limits[0].1);
      assert WithinAll(attrs, limits[1..]) by {
        forall k | 0 <= k < |limits[1..]| ensures Within(attrs, limits[1..][k].0, limits[1..][k].1) {
          assert limits[1..][k] == limits[k + 1];
        }
      }
      ClampAllFixed(step, decorator, attrs, limits[1..]);
    }
  }

  /** Running the loop a second time changes nothing and emits nothing. */
  lemma ClampAllIdempotent(step: string, decorator: string, attrs: Attributes, limits: seq<(string, int)>)
    ensures ClampAll(ClampAll(attrs, limits), limits) == ClampAll(attrs, limits)
    ensures ClampEvents(step, decorator, ClampAll(attrs, limits), limits) == []
  {
    ClampAllBounded(attrs, limits);
    ClampAllFixed(step, decorator, ClampAll(attrs, limits), limits);
  }

  /** With distinct keys (as in the limits dict), each limited attribute ends as exactly one clamp of its old value. */
  lemma {:induction false} ClampAllAt(attrs: Attributes, limits: seq<(string, int)>, i: nat)
    requires forall j, k :: 0 <= j < k < |limits| ==> limits[j].0 != limits[k].0
    requires i < |limits| && limits[i].0 in attrs
    ensures ClampAll(attrs, limits)[limits[i].0]
         == if Exceeds(attrs[limits[i].0], limits[i].1) then Some(limits[i].1) else attrs[limits[i].0]
  {
    var key := limits[i].0;
    var next := ClampOne(attrs, limits[0].0, limits[0].1);
    if i == 0 {
      assert !Limited(limits[1..], key) by {
        forall k | 0 <= k < |limits[1..]| ensures limits[1..][k].0 != key {
          assert limits[1..][k] == limits[k + 1];
        }
      }
      ClampAllUnlimited(next, limits[1..], key);
    } else {
      assert limits[1..][i - 1] == limits[i];
      ClampAllAt(next, limits[1..], i - 1);
    }
  }

  /** Values only ever go down: each attribute ends equal to its old value or strictly below it. */
  ghost predicate NotAbove(after: Attributes, before: Attributes) {
    forall key :: key in before && key in after ==>
      after[key] == before[key] || (before[key].Some? && after[key].Some? && after[key].value < before[key].value)
  }

  lemma {:induction false} ClampAllNotAbove(attrs: Attributes, limits: seq<(string, int)>)
    ensures NotAbove(ClampAll(attrs, limits), attrs)
  {
    if limits != [] {
      ClampAllNotAbove(ClampOne(attrs, limits[0].0, limits[0].1), limits[1..]);
    }
  }

  /** The loop emits nothing exactly when it changes nothing. */
  lemma {:induction false} ClampEventsIffChanged(step: string, decorator: string, attrs: Attributes, limits: seq<(string, int)>)
    ensures ClampEvents(step, decorator, attrs, limits) == [] <==> ClampAll(attrs, limits) == attrs
  {
    if limits != [] {
      var key, limit := limits[0].0, limits[0].1;
      var next := ClampOne(attrs, key, limit);
      if key in attrs && Exceeds(attrs[key], limit) {
        ClampAllNotAbove(next, limits[1..]);
        assert ClampAll(attrs, limits)[key] != attrs[key];
      } else {
        ClampEventsIffChanged(step, decorator, attrs, limits[1..]);
      }
    }
  }

  /**
   * The emitted events come in pairs: a warning about a value above its
   * limit, then the override of the same decorator whose attributes hold
   * that limit for the same key.
   */
  ghost predicate Paired(step: string, decorator: string, events: seq<LintEvent>)
    decreases |events|
  {
    events == []
    || (&& |events| >= 2
        && events[0].Warned? && events[1].Overridden?
        && events[0].step == step && events[0].decorator == decorator
        && events[1].step == step && events[1].decorator == decorator
        && events[0].value != 0 && events[0].value > events[0].limit
        && events[0].key in events[1].attributes
        && events[1].attributes[events[0].key] == Some(events[0].limit)
        && Paired(step, decorator, events[2..]))
  }

  lemma {:induction false} ClampEventsPaired(step: string, decorator: string, attrs: Attributes, limits: seq<(string, int)>)
    ensures Paired(step, decorator, ClampEvents(step, decorator, attrs, limits))
  {
    if limits != [] {
      var key, limit := limits[0].0, limits[0].1;
      var next := ClampOne(attrs, key, limit);
      var rest := ClampEvents(step, decorator, next, limits[1..]);
      ClampEventsPaired(step, decorator, next, limits[1..]);
      if key in attrs && Exceeds(attrs[key], limit) {
        var head := [Warned(step, decorator, key, attrs[key].value, limit), Overridden(step, decorator, next)];
        assert ClampEvents(step, decorator, attrs, limits) == head + rest;
        assert (head + rest)[2..] == rest;
      } else {
        assert ClampEvents(step, decorator, attrs, limits) == rest;
      }
    }
  }

  /** The loop over all limits, with one more limit at the end, is the loop followed by one more iteration. */
  lemma {:induction false} ClampAllSnoc(attrs: Attributes, limits: seq<(string, int)>, key: string, limit: int)
    ensures ClampAll(attrs, limits + [(key, limit)]) == ClampOne(ClampAll(attrs, limits), key, limit)
  {
    if limits != [] {
      assert (limits + [(key, limit)])[1..] == limits[1..] + [(key, limit)];
      ClampAllSnoc(ClampOne(attrs, limits[0].0, limits[0].1), limits[1..], key, limit);
    }
  }

  /** The events of one more limit at the end follow the events of the others. */
  lemma {:induction false} ClampEventsSnoc(step: string, decorator: string, attrs: Attributes, limits: seq<(string, int)>, key: string, limit: int)
    ensures ClampEvents(step, decorator, attrs, limits + [(key, limit)])
         == ClampEvents(step, decorator, attrs, limits) + ClampOneEvents(step, decorator, ClampAll(attrs, limits), key, limit)
  {
    if limits != [] {
      var next := ClampOne(attrs, limits[0].0, limits[0].1);
      assert (limits + [(key, limit)])[1..] == limits[1..] + [(key, limit)];
      ClampEventsSnoc(step, decorator, next, limits[1..], key, limit);
    }
  }

  /**
   * The events the first `n` limits should emit, read off the attributes as
   * they were before the loop: for each limit in order whose key holds a
   * value above it, a warning carrying that original value, then an override
   * carrying the whole attribute map as it is once this limit is applied.
   */
  function ExpectedEvents(step: string, decorator: string, attrs: Attributes, limits: seq<(string, int)>, n: nat): seq<LintEvent>
    requires n <= |limits|
  {
    if n == 0 then []
    else
      var key, limit := limits[n - 1].0, limits[n - 1].1;
      ExpectedEvents(step, decorator, attrs, limits, n - 1)
      + (if key in attrs && Exceeds(attrs[key], limit)
         then [Warned(step, decorator, key, attrs[key].value, limit), Overridden(step, decorator, ClampAll(attrs, limits[..n]))]
         else [])
  }

  /** How many of the first `n` limits find their key above the limit in the original attributes. */
  function ClampedCount(attrs: Attributes, limits: seq<(string, int)>, n: nat): nat
    requires n <= |limits|
  {
    if n == 0 then 0
    else ClampedCount(attrs, limits, n - 1) + (if limits[n - 1].0 in attrs && Exceeds(attrs[limits[n - 1].0], limits[n - 1].1) then 1 else 0)
  }

  lemma {:induction false} ExpectedEventsPrefix(step: string, decorator: string, attrs: Attributes, limits: seq<(string, int)>, n: nat)
    requires forall j, k :: 0 <= j < k < |limits| ==> limits[j].0 != limits[k].0
    requires n <= |limits|
    ensures ClampEvents(step, decorator, attrs, limits[..n]) == ExpectedEvents(step, decorator, attrs, limits, n)
    ensures |ExpectedEvents(step, decorator, attrs, limits, n)| == 2 * ClampedCount(attrs, limits, n)
  {
    if n > 0 {
      ExpectedEventsPrefix(step, decorator, attrs, limits, n - 1);
      var key, limit := limits[n - 1].0, limits[n - 1].1;
      var before := limits[..n - 1];
      assert limits[..n] == before + [(key, limit)];
      ClampEventsSnoc(step, decorator, attrs, before, key, limit);
      ClampAllSnoc(attrs, before, key, limit);
      if key in attrs {
        assert !Limited(before, key) by {
          forall k | 0 <= k < |before| ensures before[k].0 != key {
            assert before[k] == limits[k];
          }
        }
        ClampAllUnlimited(attrs, before, key);
      }
    }
  }

  /**
   * With distinct keys (as in the limits dict), the loop emits exactly one
   * warning and one override per lowered attribute, in the order of the
   * limits: the warning carries the value before the loop and the limit, the
   * override the whole attribute map right after that attribute is lowered.
   */
  lemma ClampEventsExact(step: string, decorator: string, attrs: Attributes, limits: seq<(string, int)>)
    requires forall j, k :: 0 <= j < k < |limits| ==> limits[j].0 != limits[k].0
    ensures ClampEvents(step, decorator, attrs, limits) == ExpectedEvents(step, decorator, attrs, limits, |limits|)
    ensures |ClampEvents(step, decorator, attrs, limits)| == 2 * ClampedCount(attrs, limits, |limits|)
  {
    ExpectedEventsPrefix(step, decorator, attrs, limits, |limits|);
    assert limits[..|limits|] == limits;
  }

  /** One decorator after the linter: examined decorators have their attributes clamped, others are untouched. */
  function LintDecorator(d: DecoratorSpec, limits: seq<(string, int)>): (r: DecoratorSpec)
    ensures r.name == d.name
    ensures !Examined(d.name) ==> r == d
  {
    if Examined(d.name) then d.(attributes := ClampAll(d.attributes, limits)) else d
  }

  /** What the linter emits for one decorator of the step named `step`. */
  function DecoratorEvents(step: string, d: DecoratorSpec, limits: seq<(string, int)>): seq<LintEvent> {
    if Examined(d.name) then ClampEvents(step, d.name, d.attributes, limits) else []
  }

  /** What the linter emits for a run of decorators of one step, in order. */
  function DecoratorsEvents(step: string, decorators: seq<DecoratorSpec>, limits: seq<(string, int)>): seq<LintEvent> {
    if decorators == [] then []
    else DecoratorsEvents(step, decorators[..|decorators| - 1], limits)
         + DecoratorEvents(step, decorators[|decorators| - 1], limits)
  }

  /** One step after the linter. */
  function LintStep(s: Step, limits: seq<(string, int)>): (r: Step)
    ensures r.name == s.name && |r.decorators| == |s.decorators|
  {
    s.(decorators := seq(|s.decorators|, j requires 0 <= j < |s.decorators| => LintDecorator(s.decorators[j], limits)))
  }

  /** What the linter emits for a run of steps, in order. */
  function StepsEvents(steps: seq<Step>, limits: seq<(string, int)>): seq<LintEvent> {
    if steps == [] then []
    else StepsEvents(steps[..|steps| - 1], limits)
         + DecoratorsEvents(steps[|steps| - 1].name, steps[|steps| - 1].decorators, limits)
  }

  /** All steps after the linter. */
  function Lint(steps: seq<Step>, limits: seq<(string, int)>): (r: seq<Step>)
    ensures |r| == |steps|
  {
    seq(|steps|, i requires 0 <= i < |steps| => LintStep(steps[i], limits))
  }

  /** The loop over one step's decorator records. */
  method LintStepDecorators(s: Step, limits: seq<(string, int)>) returns (result: Step, events: seq<LintEvent>)
    ensures result == LintStep(s, limits)
    ensures events == DecoratorsEvents(s.name, s.decorators, limits)
  {
    var decorators := s.decorators;
    events := [];
    var j := 0;
    while j < |decorators|
      invariant 0 <= j <= |decorators| && |decorators| == |s.decorators|
      invariant forall i :: 0 <= i < j ==> decorators[i] == LintDecorator(s.decorators[i], limits)
      invariant forall i :: j <= i < |decorators| ==> decorators[i] == s.decorators[i]
      invariant events == DecoratorsEvents(s.name, s.decorators[..j], limits)
    {
      var d := decorators[j];
      assert d == s.decorators[j];
      assert s.decorators[..j + 1][..j] == s.decorators[..j];
      assert DecoratorsEvents(s.name, s.decorators[..j + 1], limits)
          == DecoratorsEvents(s.name, s.decorators[..j], limits) + DecoratorEvents(s.name, d, limits);
      if Examined(d.name) {
        var attrs, emitted := ClampAttributes(s.name, d.name, d.attributes, limits);
        decorators := decorators[j := d.(attributes := attrs)];
        events := events + emitted;
      }
      j := j + 1;
    }
    assert s.decorators[..j] == s.decorators;
    result := s.(decorators := decorators);
  }

  /** The flow as the linter sees it: its configured limits, its steps, and what has been emitted. */
  class LinterFlow {
    const limits: seq<(string, int)>
    var steps: seq<Step>
    ghost var log: seq<LintEvent>

    constructor (limits: seq<(string, int)>, steps: seq<Step>)
      ensures this.limits == limits && this.steps == steps && log == []
    {
      this.limits := limits;
      this.steps := steps;
      log := [];
    }
  }

  /** `flow_linter.mutate`: the loop over the steps. */
  method Mutate(flow: LinterFlow)
    modifies flow
    ensures flow.steps == Lint(old(flow.steps), flow.limits)
    ensures flow.log == old(flow.log) + StepsEvents(old(flow.steps), flow.limits)
  {
    ghost var original := flow.steps;
    var i := 0;
    while i < |flow.steps|
      invariant 0 <= i <= |flow.steps| && |flow.steps| == |original|
      invariant forall k :: 0 <= k < i ==> flow.steps[k] == LintStep(original[k], flow.limits)
      invariant forall k :: i <= k < |flow.steps| ==> flow.steps[k] == original[k]
      invariant flow.log == old(flow.log) + StepsEvents(original[..i], flow.limits)
    {
      var s, emitted := LintStepDecorators(flow.steps[i], flow.limits);
      assert flow.steps[i] == original[i];
      assert original[..i + 1][..i] == original[..i];
      assert StepsEvents(original[..i + 1], flow.limits)
          == StepsEvents(original[..i], flow.limits) + DecoratorsEvents(original[i].name, original[i].decorators, flow.limits);
      flow.steps := flow.steps[i := s];
      flow.log := flow.log + emitted;
      i := i + 1;
    }
    assert original[..i] == original;
  }

  /** A linted list of decorators emits nothing when linted again. */
  lemma {:induction false} LintedDecoratorsSilent(step: string, decorators: seq<DecoratorSpec>, limits: seq<(string, int)>)
    requires forall j :: 0 <= j < |decorators| ==> Examined(decorators[j].name) ==> WithinAll(decorators[j].attributes, limits)
    ensures DecoratorsEvents(step, decorators, limits) == []
  {
    if decorators != [] {
      var last := decorators[|decorators| - 1];
      LintedDecoratorsSilent(step, decorators[..|decorators| - 1], limits);
      if Examined(last.name) {
        ClampAllFixed(step, last.name, last.attributes, limits);
      }
    }
  }

  /** Every examined decorator of a linted step respects every limit. */
  lemma LintStepBounded(s: Step, limits: seq<(string, int)>)
    ensures forall j :: 0 <= j < |s.decorators| && Examined(s.decorators[j].name)
              ==> WithinAll(LintStep(s, limits).decorators[j].attributes, limits)
  {
    forall j | 0 <= j < |s.decorators| && Examined(s.decorators[j].name)
      ensures WithinAll(LintStep(s, limits).decorators[j].attributes, limits)
    {
      ClampAllBounded(s.decorators[j].attributes, limits);
    }
  }

  /** Linting a linted flow changes no step and emits nothing. */
  lemma {:induction false} LintIdempotent(steps: seq<Step>, limits: seq<(string, int)>)
    ensures Lint(Lint(steps, limits), limits) == Lint(steps, limits)
    ensures StepsEvents(Lint(steps, limits), limits) == []
  {
    var once := Lint(steps, limits);
    forall i | 0 <= i < |steps| ensures LintStep(once[i], limits) == once[i] {
      LintStepBounded(steps[i], limits);
      var ds := once[i].decorators;
      forall j | 0 <= j < |ds| ensures LintDecorator(ds[j], limits) == ds[j] {
        if Examined(ds[j].name) {
          ClampAllFixed(once[i].name, ds[j].name, ds[j].attributes, limits);
        }
      }
    }
    if steps != [] {
      var init := steps[..|steps| - 1];
      LintIdempotent(init, limits);
      assert once[..|once| - 1] == Lint(init, limits);
      var last := once[|once| - 1];
      LintStepBounded(steps[|steps| - 1], limits);
      LintedDecoratorsSilent(last.name, last.decorators, limits);
    }
  }

  /** After the linter, every examined decorator of every step respects every limit. */
  lemma LintBounded(steps: seq<Step>, limits: seq<(string, int)>)
    ensures forall i, j :: 0 <= i < |steps| && 0 <= j < |steps[i].decorators| && Examined(steps[i].decorators[j].name)
              ==> WithinAll(Lint(steps, limits)[i].decorators[j].attributes, limits)
  {
    forall i | 0 <= i < |steps| {
      LintStepBounded(steps[i], limits);
    }
  }

  /**
   * The linter keeps the shape of the flow: the same steps with the same
   * names, each with the same decorators in the same order, and every
   * decorator other than `kubernetes`, `batch` or `resources` unchanged.
   */
  lemma LintKeepsShape(steps: seq<Step>, limits: seq<(string, int)>)
    ensures forall i :: 0 <= i < |steps| ==> Lint(steps, limits)[i].name == steps[i].name
    ensures forall i, j :: 0 <= i < |steps| && 0 <= j < |steps[i].decorators| ==>
              Lint(steps, limits)[i].decorators[j].name == steps[i].decorators[j].name
              && (!Examined(steps[i].decorators[j].name) ==> Lint(steps, limits)[i].decorators[j] == steps[i].decorators[j])
  {
  }
}
