/** The handlers validate their input as an ordered list of checks and report
    only the first one that fails (a Go `switch` of `case cond:` arms or a run
    of `if cond { …; return }` blocks). */
module Checks {
  import opened Wrappers

  /** One validation rule: whether it passes, and the message shown when it does not. */
  datatype Check = Check(passes: bool, message: string)

  /** Check i is the first failing check of the list. */
  ghost predicate FailsFirst(checks: seq<Check>, i: int)
  {
    0 <= i < |checks| && !checks[i].passes &&
    forall j :: 0 <= j < i ==> checks[j].passes
  }

  /** The message of the first failing check, or None when every check passes. */
  function FirstError(checks: seq<Check>): (e: Option<string>)
    ensures e.None? <==> forall i :: 0 <= i < |checks| ==> checks[i].passes
    ensures forall i :: FailsFirst(checks, i) ==> e == Some(checks[i].message)
  {
    if checks == [] then None
    else if !checks[0].passes then Some(checks[0].message)
    else
      var rest := FirstError(checks[1..]);
      assert forall i :: 0 < i < |checks| ==> checks[i] == checks[1..][i - 1];
      assert forall i :: FailsFirst(checks, i) ==> i > 0 && FailsFirst(checks[1..], i - 1);
      rest
  }

  /** When some check fails, one of them fails first, and its message is the one reported. */
  lemma {:induction false} FirstErrorReportsFirstFailure(checks: seq<Check>)
    requires exists i :: 0 <= i < |checks| && !checks[i].passes
    ensures exists i :: FailsFirst(checks, i) && FirstError(checks) == Some(checks[i].message)
  {
    if checks[0].passes {
      var i :| 0 <= i < |checks| && !checks[i].passes;
      assert checks[1..][i - 1] == checks[i];
      FirstErrorReportsFirstFailure(checks[1..]);
      var k :| FailsFirst(checks[1..], k);
      assert forall j :: 0 < j <= k + 1 ==> checks[j] == checks[1..][j - 1];
      assert FailsFirst(checks, k + 1);
    } else {
      assert FailsFirst(checks, 0);
    }
  }

  /** For a run of five rules, the report is the first failing rule's
      message, tested in order. */
  lemma FirstOfFive(a: Check, b: Check, c: Check, d: Check, e: Check)
    ensures FirstError([a, b, c, d, e]) ==
      if !a.passes then Some(a.message)
      else if !b.passes then Some(b.message)
      else if !c.passes then Some(c.message)
      else if !d.passes then Some(d.message)
      else if !e.passes then Some(e.message)
      else None
  {
    var checks := [a, b, c, d, e];
    if !a.passes {
      assert FailsFirst(checks, 0);
    } else if !b.passes {
      assert FailsFirst(checks, 1);
    } else if !c.passes {
      assert FailsFirst(checks, 2);
    } else if !d.passes {
      assert FailsFirst(checks, 3);
    } else if !e.passes {
      assert FailsFirst(checks, 4);
    }
  }
}
