# Namespaced event triggers and the flow linter, in Dafny

This project models two flow mutators from a collection of example
extensions for a workflow-orchestration framework (Metaflow).

* **`namespaced_trigger`** (`namespaced_events/namespaced_trigger.py`).
  `init` checks the decorator's arguments. `_format_event_name` builds a
  namespaced event name from the project name, the branch, the production
  flag, the user name and a short event name. `raise_event` derives the
  published name from the running flow's `project.branch.flow` path.
  `pre_mutate` rewrites the flow's decorator records before registration:
  it refuses a plain `@trigger`, resolves the project name, overrides the
  `@project` record and appends a `@trigger` record with namespaced names.
* **`flow_linter`** (`flow-linter/flow_linter.py`). For each step, every
  `@kubernetes`, `@batch` or `@resources` decorator has each attribute above
  the configured limit for its key lowered to that limit. Each lowering
  prints a warning and overrides the decorator.

Files:

* `wrappers.dfy`: `Option` and `Outcome`.
* `py_values.dfy`: the Python values involved (`None`, `bool`, `int`,
  `str`, lists, dicts), their truthiness, and `str()` of a scalar.
* `event_names.dfy`: the character filter `[a-zA-Z0-9_.-]`,
  `str.split(".")` and `".".join`, `_format_event_name` and the name
  derivation of `raise_event`.
* `namespaced_trigger.dfy`: decorator records, the host's flow as the
  class `MutableFlow`, and the mutator as the class
  `NamespacedTriggerMutator` (`Init`, `PreMutate`). `PreMutate` follows the
  source step by step and is proved equal to the pure function `Register`.
  The properties of the pass are lemmas about `Register`.
* `flow_linter.dfy`: the clamping as functions, the three nested loops as
  methods proved against them (`ClampAttributes`, `LintStepDecorators`,
  `Mutate`), and lemmas about the result.

Where the code does not do what a reader of its documentation might expect,
the model follows the code:

* `_format_event_name` sanitises only the user name. The project name, the
  branch and the short event name are joined as given. Only `raise_event`
  sanitises the whole name. `PublishedMatchesTrigger` shows the consequence:
  the published name and the trigger's name agree exactly when the
  formatted name already holds only allowed characters.
* The filter keeps `.`. So the user name `al.ice!` becomes `al.ice`, and the
  name is `foo.user.al.ice.food`, not `foo.user.alice.food`
  (`FormatUserExample`).
* The conflict check is `if _extract_trigger():`. That is the truthiness of
  the keyword arguments of the FIRST `@trigger` record, so a `@trigger`
  record without keyword arguments does not make the pass raise
  (`HasPlainTrigger`, `RegisterRejectsPlainTrigger`).
* A project name that is not a `str` (say `name=5`) is not rejected by the
  `None` check. `".".join` then raises `TypeError` as soon as an event name
  is formatted, after the `@project` record has already been overridden
  (`RegisterNameNotString`).

The user name (`get_username()`) and the running flow's path
(`current.project_flow_name`) are parameters. Standard-error warnings of
`pre_mutate` go to a ghost log `warnings`. The linter's printed warnings
and its decorator overrides go to a ghost log `log` of `LintEvent`s.

## Model

| member | source | states |
|---|---|---|
| `NamespacedTrigger.CheckArguments` | namespaced_events/namespaced_trigger.py:121-124 | construction fails, with the one error `MissingEventArgument`, exactly when `events` is empty and `event` is `None` or `""`; a non-empty `event` or a non-empty `events` is accepted |
| `NamespacedTrigger.NamespacedTriggerMutator.Init` | namespaced_events/namespaced_trigger.py:112-124 | stores `event`, `events`, `options`, `config_name`, `show_warnings` with their defaults (`None`, `[]`, `{}`, `"project"`, `True`), then fails exactly as `CheckArguments` says |
| `EventNames.Sanitize` | namespaced_events/namespaced_trigger.py:135 | the result holds only characters in `[a-zA-Z0-9_.-]` and is no longer than the input |
| `EventNames.SanitizeCount` | namespaced_events/namespaced_trigger.py:158 | every allowed character is kept exactly as often as it occurs, every other character is removed |
| `EventNames.SanitizeConcat` | namespaced_events/namespaced_trigger.py:135 | the filter distributes over concatenation, so the kept characters keep their order |
| `EventNames.SanitizeFixedPoint` | namespaced_events/namespaced_trigger.py:135 | a string is left unchanged if and only if all its characters are allowed |
| `EventNames.SanitizeIdempotent` | namespaced_events/namespaced_trigger.py:135 | filtering twice is filtering once |
| `EventNames.Split` | namespaced_events/namespaced_trigger.py:133 | `str.split(".")` yields at least one piece and no piece contains a dot |
| `EventNames.JoinSplit` | namespaced_events/namespaced_trigger.py:132-133 | `".".join(s.split("."))` is `s` |
| `EventNames.SplitJoin` | namespaced_events/namespaced_trigger.py:132-133 | splitting the join of one or more dot-free pieces gives back the pieces |
| `EventNames.Join` | namespaced_events/namespaced_trigger.py:132 | `".".join` starts with the first piece |
| `EventNames.JoinDots` | namespaced_events/namespaced_trigger.py:132 | joining dot-free pieces puts exactly one dot between each two of them |
| `EventNames.Segment` | namespaced_events/namespaced_trigger.py:150-158 | production gives a segment starting with `prod`, another named branch one starting with `test.`, and otherwise `user.` followed by the filtered user name; a named branch is rendered verbatim at the end; without a branch the segment holds only allowed characters |
| `PyValues.PyStr` | namespaced_events/namespaced_trigger.py:150-154 | `"%s" % x` is empty only for the empty string and starts with `-` only for a negative number |
| `PyValues.TruthyRendered` | namespaced_events/namespaced_trigger.py:150-155 | a scalar that is not a string is falsy exactly when it renders as `None`, `False` or `0` |
| `EventNames.FormatEventName` | namespaced_events/namespaced_trigger.py:146-159 | the name starts with the project name and a dot and ends with a dot and the short event name, both verbatim, around the branch segment |
| `EventNames.FormatBranchProduction` | namespaced_events/namespaced_trigger.py:150-152 | with a branch `b` and production: `project + ".prod." + b + "." + event` |
| `EventNames.FormatBranchTest` | namespaced_events/namespaced_trigger.py:150-154 | with a branch `b` and no production: `project + ".test." + b + "." + event` |
| `EventNames.FormatProduction` | namespaced_events/namespaced_trigger.py:155-156 | without a branch, production gives `project + ".prod." + event` |
| `EventNames.FormatUser` | namespaced_events/namespaced_trigger.py:157-159 | without a branch or production: `project + ".user." + sanitize(user) + "." + event`; only the user name is filtered |
| `EventNames.FormatUserExample` | namespaced_events/namespaced_trigger.py:157-159 | user `al.ice!` gives `foo.user.al.ice.food` |
| `EventNames.FormatClean` | namespaced_events/namespaced_trigger.py:158-159 | the name holds only allowed characters if and only if the project name, the branch segment and the short event name do |
| `EventNames.RaisedEventName` | namespaced_events/namespaced_trigger.py:131-135 | without a flow path the event name is used unchanged; with one, the published name holds only allowed characters |
| `EventNames.RaisedEventNameReplacesFlow` | namespaced_events/namespaced_trigger.py:131-135 | for a path `prefix.flow`, the published name is `sanitize(prefix + "." + event)`: the last piece is replaced by the event name |
| `EventNames.RaisedEventNameNoPrefix` | namespaced_events/namespaced_trigger.py:131-135 | for a path without a dot, the published name is the filtered event name |
| `EventNames.PublishedMatchesTrigger` | namespaced_events/namespaced_trigger.py:131-159 | an upstream flow whose path has the shape of a formatted name publishes the downstream trigger's name if and only if that name holds only allowed characters |
| `NamespacedTrigger.LookupConfigFirst` | namespaced_events/namespaced_trigger.py:169-175 | `None` exactly when no config has the name; otherwise the value of the first config with that name |
| `NamespacedTrigger.FindConfig` | namespaced_events/namespaced_trigger.py:169-175 | the `for ... break ... else` scan returns `LookupConfig`, the first match |
| `NamespacedTrigger.FirstKwargsFirst` | namespaced_events/namespaced_trigger.py:180-190 | `None` exactly when no record has the name; otherwise the keyword arguments of the first record with that name |
| `NamespacedTrigger.FindKwargs` | namespaced_events/namespaced_trigger.py:180-190 | the scans `_extract_project_decorator` and `_extract_trigger` return `FirstKwargs` |
| `NamespacedTrigger.FirstKwargsAppend` | namespaced_events/namespaced_trigger.py:192-193 | appending a record changes a lookup only when no earlier record had that name |
| `NamespacedTrigger.Override` | namespaced_events/namespaced_trigger.py:195-200 | after an override exactly one record has the name, it carries the new arguments, and the records of other names are unchanged and in order |
| `NamespacedTrigger.OverrideOther` | namespaced_events/namespaced_trigger.py:195-200 | an override leaves the lookup of every other name unchanged |
| `NamespacedTrigger.MutableFlow.AddDecorator` | namespaced_events/namespaced_trigger.py:192-193 | the record is appended to the flow's decorator list |
| `NamespacedTrigger.MutableFlow.OverrideDecorator` | namespaced_events/namespaced_trigger.py:195-200 | the flow's decorator list becomes `Override` of the old one |
| `NamespacedTrigger.HasPlainTriggerFirst` | namespaced_events/namespaced_trigger.py:186-205 | the conflict check holds exactly when the first `@trigger` record exists and has keyword arguments |
| `NamespacedTrigger.ResolveProjectName` | namespaced_events/namespaced_trigger.py:214 | the `@project` record's `name` wins; without one, the config's `name`; without either, `None` |
| `NamespacedTrigger.RegisterRejectsPlainTrigger` | namespaced_events/namespaced_trigger.py:202-205 | the pass fails with `ConflictingTrigger` if and only if the first `@trigger` record has keyword arguments, whatever the project or config; then the records are unchanged |
| `NamespacedTrigger.RegisterWithoutProject` | namespaced_events/namespaced_trigger.py:207-212 | without a `@project` record, a trigger with `event`, `events` and `options` verbatim is appended and still no project record exists |
| `NamespacedTrigger.RegisterMissingName` | namespaced_events/namespaced_trigger.py:214-220 | the pass fails with `MissingProjectName` if and only if there is no conflict, a `@project` record exists and the resolved name is `None`; then the records are unchanged |
| `NamespacedTrigger.RegisterNameNotString` | namespaced_events/namespaced_trigger.py:222-254 | with a resolved name that is not a `str`, the `@project` record is overridden with `{name, branch, production}`; the pass fails with `TypeError` exactly when an event name is formatted (`event` is not `None` or `events` is non-empty), before any trigger is added; otherwise a trigger with no event and no events is appended |
| `NamespacedTrigger.RegisterNamespacedProject` | namespaced_events/namespaced_trigger.py:214-230 | on success with a `@project` record, the project record becomes `{name, branch, production}` as resolved, with branch defaulting to `None` and production to `False`; the lookup of every record other than `@project` and `@trigger` is unchanged; the list holds the records of other names plus exactly two |
| `NamespacedTrigger.RegisterNamespacedTrigger` | namespaced_events/namespaced_trigger.py:232-254 | the appended trigger's `event` is `None` exactly when the argument was, and is otherwise the formatted name; its `events` are the arguments formatted one by one, same number and order; `options` pass through |
| `NamespacedTrigger.Register` | namespaced_events/namespaced_trigger.py:165-255 | the pass either succeeds or raises one of the three errors of `pre_mutate`; a conflicting trigger or a missing name leaves the records unchanged; a success ends with an appended `@trigger` record whose `options` are the mutator's |
| `NamespacedTrigger.NamespacedTriggerMutator.Warn` | namespaced_events/namespaced_trigger.py:161-163 | a warning is recorded only when warnings are on |
| `NamespacedTrigger.NamespacedTriggerMutator.PreMutate` | namespaced_events/namespaced_trigger.py:165-255 | the outcome and the new decorator list are those of `Register`; one warning is recorded exactly when warnings are on and no config matches |
| `FlowLinter.ClampAll` | flow-linter/flow_linter.py:10-17 | the set of attribute keys is unchanged |
| `FlowLinter.ClampAllUnlimited` | flow-linter/flow_linter.py:10-11 | an attribute whose key has no limit keeps its value |
| `FlowLinter.ClampAttributes` | flow-linter/flow_linter.py:10-22 | the loop over the limits returns `ClampAll` and emits `ClampEvents` |
| `FlowLinter.ClampAllAt` | flow-linter/flow_linter.py:10-17 | with distinct limit keys, a truthy value above its limit becomes the limit; a missing, falsy or at-or-below-limit value is unchanged |
| `FlowLinter.ClampAllBounded` | flow-linter/flow_linter.py:10-17 | afterwards every limited attribute is missing, falsy or at most its limit |
| `FlowLinter.ClampAllFixed` | flow-linter/flow_linter.py:10-12 | attributes that already respect every limit are unchanged and nothing is emitted |
| `FlowLinter.ClampAllIdempotent` | flow-linter/flow_linter.py:10-22 | a second pass over the limits changes nothing and emits nothing |
| `FlowLinter.ClampEventsIffChanged` | flow-linter/flow_linter.py:12-22 | nothing is emitted if and only if nothing changes |
| `FlowLinter.ClampEventsExact` | flow-linter/flow_linter.py:10-22 | with distinct limit keys, the emitted events are, in the order of the limits and for each attribute above its limit, a warning carrying the value before the loop and the limit, then an override carrying the whole attribute map right after that attribute is lowered; there are exactly twice as many events as lowered attributes |
| `FlowLinter.ClampEventsPaired` | flow-linter/flow_linter.py:12-22 | the events are pairs: a warning about a value above its limit, then an override of the same decorator whose attributes hold that limit for that key |
| `FlowLinter.LintDecorator` | flow-linter/flow_linter.py:8-17 | a decorator keeps its name; one not named `kubernetes`, `batch` or `resources` is unchanged |
| `FlowLinter.LintStep` | flow-linter/flow_linter.py:6-22 | a linted step keeps its name and its number of decorators |
| `FlowLinter.Lint` | flow-linter/flow_linter.py:5-22 | the linter keeps the number of steps |
| `FlowLinter.LintKeepsShape` | flow-linter/flow_linter.py:5-22 | every step keeps its name, every decorator its name and position, and a decorator other than `kubernetes`, `batch` or `resources` is unchanged |
| `FlowLinter.LintStepDecorators` | flow-linter/flow_linter.py:8-22 | the loop over one step's decorators returns `LintStep` and emits `DecoratorsEvents` |
| `FlowLinter.Mutate` | flow-linter/flow_linter.py:5-22 | the steps become `Lint` of the old steps and the log grows by `StepsEvents`, in order |
| `FlowLinter.LintBounded` | flow-linter/flow_linter.py:5-22 | after the linter every examined decorator of every step respects every limit |
| `FlowLinter.LintIdempotent` | flow-linter/flow_linter.py:5-22 | linting a linted flow changes no step and emits nothing |

## Left out

- Publishing in `raise_event` (`ArgoEvent(...).publish` / `safe_publish`, the payload): a network call. Only the derived name is modelled (`RaisedEventName`).
- `get_username()` and `current.project_flow_name`: external lookups, passed in as parameters (`Option` for the path, `None` when the flow has no project).
- The host framework's `add_decorator`: the default duplicate policy is modelled as an append, and `OVERRIDE` as "replace the first record of that name, drop later ones, append when none exists". The framework's own validation of the records is not modelled.
- The positional arguments and qualified names of decorator records: the mutators never read them.
- Config values under `branch`, `production` and `name` are scalars (`None`, `bool`, `int`, `str`). `str()` of a list or dict there is not modelled.
- Printing to standard error: recorded in ghost logs, not as text output.
- `flow_linter`: attribute values are `None` or integers. The `float(val)` conversion, float limits and string-valued attributes are not modelled.
- `flow_linter`: the override is modelled as writing the updated attributes back to the decorator being examined. Two decorators of the same name on one step are not modelled.
- The profilers, the memoizer, the dataset loader, the fallback and retry mutators, the AI debugger and the example flows: wrappers over timing, HTTP, DuckDB, the artifact store or the host's retry policy, with no logic of their own to state.
