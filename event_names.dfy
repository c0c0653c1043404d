/**
 * Event names of the namespaced trigger: the character filter applied with
 * `re.sub(r"[^a-zA-Z0-9_\-\.]", "", ...)`, Python's `str.split(".")` and
 * `".".join(...)`, the name built at registration time
 * (`_format_event_name`) and the name derived at publish time
 * (`raise_event`).
 */
module EventNames {
  import opened Wrappers
  import opened PyValues

  /** The characters the filter keeps: `[a-zA-Z0-9_.-]`. */
  predicate Allowed(c: char) {
    ('a' <= c <= 'z') || ('A' <= c <= 'Z') || ('0' <= c <= '9') || c == '_' || c == '-' || c == '.'
  }

  /** Every character of `s` is one the filter keeps. */
  predicate Clean(s: string) {
    forall k :: 0 <= k < |s| ==> Allowed(s[k])
  }

  /** Removes every character outside `[a-zA-Z0-9_.-]`. */
  function Sanitize(s: string): (r: string)
    ensures |r| <= |s|
    ensures Clean(r)
  {
    if s == [] then [] else (if Allowed(s[0]) then [s[0]] else []) + Sanitize(s[1..])
  }

  /** Sanitising distributes over concatenation, so the kept characters stay in order. */
  lemma {:induction false} SanitizeConcat(a: string, b: string)
    ensures Sanitize(a + b) == Sanitize(a) + Sanitize(b)
  {
    if a == [] {
      assert a + b == b;
    } else {
      assert (a + b)[0] == a[0];
      assert (a + b)[1..] == a[1..] + b;
      SanitizeConcat(a[1..], b);
    }
  }

  /** Each character is kept exactly as often as it occurs when allowed, and dropped otherwise. */
  lemma {:induction false} SanitizeCount(s: string, c: char)
    ensures multiset(Sanitize(s))[c] == if Allowed(c) then multiset(s)[c] else 0
  {
    if s != [] {
      SanitizeCount(s[1..], c);
      assert s == [s[0]] + s[1..];
      assert multiset(s) == multiset([s[0]]) + multiset(s[1..]);
    }
  }

  /** A string the filter keeps entirely is returned unchanged. */
  lemma {:induction false} SanitizeClean(s: string)
    requires Clean(s)
    ensures Sanitize(s) == s
  {
    if s != [] {
      SanitizeClean(s[1..]);
    }
  }

  /** The filter leaves `s` unchanged exactly when `s` has no character outside the set. */
  lemma SanitizeFixedPoint(s: string)
    ensures Sanitize(s) == s <==> Clean(s)
  {
    if Clean(s) {
      SanitizeClean(s);
    }
  }

  /** Sanitising twice is sanitising once. */
  lemma SanitizeIdempotent(s: string)
    ensures Sanitize(Sanitize(s)) == Sanitize(s)
  {
    SanitizeClean(Sanitize(s));
  }

  /** Python's `s.split(".")`: always at least one piece, none containing a dot. */
  function Split(s: string): (parts: seq<string>)
    ensures |parts| >= 1
    ensures forall k :: 0 <= k < |parts| ==> '.' !in parts[k]
  {
    if s == [] then [""]
    else if s[0] == '.' then [""] + Split(s[1..])
    else
      var rest := Split(s[1..]);
      [[s[0]] + rest[0]] + rest[1..]
  }

  /** Python's `".".join(parts)`: it starts with the first piece. */
  function Join(parts: seq<string>): (r: string)
    ensures |parts| >= 1 ==> |r| >= |parts[0]| && r[..|parts[0]|] == parts[0]
  {
    if |parts| == 0 then ""
    else if |parts| == 1 then parts[0]
    else parts[0] + "." + Join(parts[1..])
  }

  /** Joining dot-free pieces puts exactly one dot between each two of them. */
  lemma {:induction false} JoinDots(parts: seq<string>)
    requires forall k :: 0 <= k < |parts| ==> '.' !in parts[k]
    ensures multiset(Join(parts))['.'] == if parts == [] then 0 else |parts| - 1
  {
    if |parts| >= 2 {
      JoinDots(parts[1..]);
      assert multiset(Join(parts)) == multiset(parts[0]) + multiset(".") + multiset(Join(parts[1..]));
      assert multiset(parts[0])['.'] == 0;
    } else if |parts| == 1 {
      assert multiset(parts[0])['.'] == 0;
    }
  }

  /** Joining the pieces of a split gives back the string. */
  lemma {:induction false} JoinSplit(s: string)
    ensures Join(Split(s)) == s
  {
    if s != [] {
      JoinSplit(s[1..]);
      var rest := Split(s[1..]);
      if s[0] == '.' {
        assert Split(s) == [""] + rest;
        assert s == "." + s[1..];
      } else {
        if |rest| == 1 {
          assert Join(Split(s)) == [s[0]] + rest[0];
        } else {
          assert Join(Split(s)) == ([s[0]] + rest[0]) + "." + Join(rest[1..]);
          assert Join(rest) == rest[0] + "." + Join(rest[1..]);
        }
        assert s == [s[0]] + s[1..];
      }
    }
  }

  /** Splitting the join of dot-free pieces gives back the pieces. */
  lemma {:induction false} SplitJoin(parts: seq<string>)
    requires |parts| >= 1
    requires forall k :: 0 <= k < |parts| ==> '.' !in parts[k]
    ensures Split(Join(parts)) == parts
  {
    if |parts| == 1 {
      SplitNoDot(parts[0]);
    } else {
      SplitJoin(parts[1..]);
      SplitAround(parts[0], Join(parts[1..]));
      SplitNoDot(parts[0]);
      assert parts == [parts[0]] + parts[1..];
    }
  }

  /** A dot-free string splits into itself. */
  lemma {:induction false} SplitNoDot(s: string)
    requires '.' !in s
    ensures Split(s) == [s]
  {
    if s != [] {
      assert '.' !in s[1..] by {
        forall k | 0 <= k < |s[1..]| ensures s[1..][k] != '.' {
          assert s[1..][k] == s[k + 1];
        }
      }
      SplitNoDot(s[1..]);
      assert s == [s[0]] + s[1..];
    }
  }

  /** Splitting at a dot concatenates the pieces of either side. */
  lemma {:induction false} SplitAround(a: string, b: string)
    ensures Split(a + "." + b) == Split(a) + Split(b)
  {
    var s := a + "." + b;
    if a == [] {
      assert s == "." + b;
      assert s[1..] == b;
    } else {
      assert s[0] == a[0];
      assert s[1..] == a[1..] + "." + b;
      SplitAround(a[1..], b);
      var rest := Split(s[1..]);
      assert rest == Split(a[1..]) + Split(b);
      if a[0] != '.' {
        assert rest[0] == Split(a[1..])[0];
        assert rest[1..] == Split(a[1..])[1..] + Split(b);
      }
    }
  }

  /** Appending one piece to a non-empty join adds a dot and the piece. */
  lemma {:induction false} JoinSnoc(parts: seq<string>, last: string)
    requires |parts| >= 1
    ensures Join(parts + [last]) == Join(parts) + "." + last
  {
    if |parts| > 1 {
      JoinSnoc(parts[1..], last);
      assert (parts + [last])[1..] == parts[1..] + [last];
    }
  }

  /**
   * The branch segment of an event name (`branch` in `_format_event_name`):
   * production names live under `prod`, other named branches under `test.`,
   * and everything else under `user.` followed by the filtered user name. A
   * named branch is rendered verbatim at the end; without one the segment
   * holds only allowed characters.
   */
  function Segment(branch: Scalar, production: Scalar, user: string): (r: string)
    ensures Truthy(production) ==> |r| >= 4 && r[..4] == "prod"
    ensures Truthy(branch) && !Truthy(production) ==> |r| >= 5 && r[..5] == "test."
    ensures !Truthy(branch) && !Truthy(production) ==> |r| >= 5 && r[..5] == "user." && r[5..] == Sanitize(user)
    ensures Truthy(branch) ==> |r| > |PyStr(branch)| && r[|r| - |PyStr(branch)|..] == PyStr(branch)
    ensures !Truthy(branch) ==> Clean(r)
  {
    if Truthy(branch) then
      (if Truthy(production) then "prod." else "test.") + PyStr(branch)
    else if Truthy(production) then "prod"
    else "user." + Sanitize(user)
  }

  /**
   * `_format_event_name`: project name, branch segment and short event name
   * joined by dots. Only the user name is sanitised; the project name and
   * the short event name are copied verbatim to the two ends of the result.
   */
  function FormatEventName(project: string, branch: Scalar, production: Scalar, user: string, event: string): (r: string)
    ensures |r| == |project| + 1 + |Segment(branch, production, user)| + 1 + |event|
    ensures r[..|project| + 1] == project + "."
    ensures r[|r| - |event| - 1..] == "." + event
  {
    project + "." + Segment(branch, production, user) + "." + event
  }

  /** With a branch, production deployments use `prod.<branch>`. */
  lemma FormatBranchProduction(project: string, branch: string, production: Scalar, user: string, event: string)
    requires branch != "" && Truthy(production)
    ensures FormatEventName(project, Str(branch), production, user, event) == project + ".prod." + branch + "." + event
  {
  }

  /** With a branch, other deployments use `test.<branch>`. */
  lemma FormatBranchTest(project: string, branch: string, production: Scalar, user: string, event: string)
    requires branch != "" && !Truthy(production)
    ensures FormatEventName(project, Str(branch), production, user, event) == project + ".test." + branch + "." + event
  {
  }

  /** Without a branch, a production deployment uses plain `prod`. */
  lemma FormatProduction(project: string, branch: Scalar, production: Scalar, user: string, event: string)
    requires !Truthy(branch) && Truthy(production)
    ensures FormatEventName(project, branch, production, user, event) == project + ".prod." + event
  {
  }

  /** Without a branch, a non-production deployment uses `user.<sanitised user name>`. */
  lemma FormatUser(project: string, branch: Scalar, production: Scalar, user: string, event: string)
    requires !Truthy(branch) && !Truthy(production)
    ensures FormatEventName(project, branch, production, user, event) == project + ".user." + Sanitize(user) + "." + event
  {
  }

  /** The user name keeps its dots: "al.ice!" becomes "al.ice", not "alice". */
  lemma FormatUserExample()
    ensures FormatEventName("foo", Null, Bool(false), "al.ice!", "food") == "foo.user.al.ice.food"
  {
    assert Sanitize("!") == "";
    assert Sanitize("al.ice!") == "al.ice";
  }

  /**
   * `raise_event`'s name: when the running flow's `project.branch.flow`
   * path is known, its last dot-separated piece is replaced by the event
   * name and the whole is sanitised; otherwise the event name is used as given.
   */
  function RaisedEventName(flowPath: Option<string>, event: string): (r: string)
    ensures flowPath.None? ==> r == event
    ensures flowPath.Some? ==> Clean(r)
  {
    match flowPath
    case None => event
    case Some(path) =>
      var parts := Split(path);
      Sanitize(Join(parts[..|parts| - 1] + [event]))
  }

  /** The flow's own name, the last piece of the path, is what gets replaced. */
  lemma RaisedEventNameReplacesFlow(prefix: string, flow: string, event: string)
    requires '.' !in flow
    ensures RaisedEventName(Some(prefix + "." + flow), event) == Sanitize(prefix + "." + event)
  {
    SplitAround(prefix, flow);
    SplitNoDot(flow);
    var parts := Split(prefix + "." + flow);
    assert parts[..|parts| - 1] == Split(prefix);
    JoinSnoc(Split(prefix), event);
    JoinSplit(prefix);
  }

  /** A path without a dot leaves only the (sanitised) event name. */
  lemma RaisedEventNameNoPrefix(path: string, event: string)
    requires '.' !in path
    ensures RaisedEventName(Some(path), event) == Sanitize(event)
  {
    SplitNoDot(path);
  }

  /** An event name holds only allowed characters exactly when each joined piece does. */
  lemma FormatClean(project: string, branch: Scalar, production: Scalar, user: string, event: string)
    ensures Clean(FormatEventName(project, branch, production, user, event))
        <==> Clean(project) && Clean(Segment(branch, production, user)) && Clean(event)
  {
    var seg := Segment(branch, production, user);
    var r := FormatEventName(project, branch, production, user, event);
    if Clean(r) {
      forall k | 0 <= k < |project| ensures Allowed(project[k]) {
        assert project[k] == r[k];
      }
      forall k | 0 <= k < |seg| ensures Allowed(seg[k]) {
        assert seg[k] == r[|project| + 1 + k];
      }
      forall k | 0 <= k < |event| ensures Allowed(event[k]) {
        assert event[k] == r[|r| - |event| + k];
      }
    }
  }

  /**
   * An upstream flow whose path was built like an event name publishes the
   * name a downstream trigger listens for exactly when that name holds only
   * allowed characters: `_format_event_name` does not sanitise the project
   * name, a branch or the short event name, while `raise_event` does.
   */
  lemma PublishedMatchesTrigger(project: string, branch: Scalar, production: Scalar, user: string, flow: string, event: string)
    requires '.' !in flow
    ensures RaisedEventName(Some(FormatEventName(project, branch, production, user, flow)), event)
         == FormatEventName(project, branch, production, user, event)
        <==> Clean(FormatEventName(project, branch, production, user, event))
  {
    var prefix := project + "." + Segment(branch, production, user);
    assert FormatEventName(project, branch, production, user, flow) == prefix + "." + flow;
    assert FormatEventName(project, branch, production, user, event) == prefix + "." + event;
    RaisedEventNameReplacesFlow(prefix, flow, event);
    SanitizeFixedPoint(prefix + "." + event);
  }
}
