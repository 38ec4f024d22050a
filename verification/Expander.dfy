/** Flattening of sequence calls before a run: numbering of the top-level steps, inlining of
    the called sequences, and where every step ends up. */
module Expander {
  import opened Prelude
  import opened Digraph
  import opened ChainModels

  // ---- numbering the top-level steps ----

  ghost function UserNumbers(steps: seq<ChainStep>): set<int> {
    set i | 0 <= i < |steps| && steps[i].number > 0 :: steps[i].number
  }

  ghost predicate UserNumbersDistinct(steps: seq<ChainStep>) {
    forall i, j :: 0 <= i < j < |steps| && steps[i].number > 0 && steps[j].number > 0 ==>
      steps[i].number != steps[j].number
  }

  /** The numbers in use before position `i` is filled: the user's and those filled earlier. */
  ghost function InUse(before: seq<ChainStep>, after: seq<ChainStep>, i: nat): set<int>
    requires i <= |before| == |after|
  {
    UserNumbers(before) + (set j | 0 <= j < i && before[j].number <= 0 :: after[j].number)
  }

  /** Position `i` keeps a user's number and otherwise gets the least positive free one. */
  ghost predicate FilledAt(before: seq<ChainStep>, after: seq<ChainStep>, i: nat)
    requires i < |before| == |after|
  {
    && after[i] == before[i].(number := after[i].number)
    && (before[i].number > 0 ==> after[i].number == before[i].number)
    && (before[i].number <= 0 ==>
      && after[i].number > 0
      && after[i].number !in InUse(before, after, i)
      && forall k :: 1 <= k < after[i].number ==> k in InUse(before, after, i))
  }

  ghost predicate Filled(before: seq<ChainStep>, after: seq<ChainStep>) {
    |before| == |after| && forall i :: 0 <= i < |before| ==> FilledAt(before, after, i)
  }

  /** `_renumber_top_level`, in place: refuses duplicate user numbers before it changes
      anything. */
  method RenumberTopLevel(steps: array<ChainStep>) returns (ok: bool)
    modifies steps
    ensures ok <==> UserNumbersDistinct(old(steps[..]))
    ensures !ok ==> steps[..] == old(steps[..])
    ensures ok ==> Filled(old(steps[..]), steps[..])
  {
    hide UserNumbersDistinct, Filled;
    ghost var before := steps[..];
    NoUserNumbers(before);
    var seen: set<int> := {};
    for i := 0 to steps.Length
      invariant steps[..] == before
      invariant seen == UserNumbers(before[..i]) && UserNumbersDistinct(before[..i])
      modifies {}
    {
      UserNumbersSnoc(before, i);
      if steps[i].number > 0 {
        if steps[i].number in seen {
          return false;
        }
        seen := seen + {steps[i].number};
      }
    }
    assert before[..|before|] == before;
    FillZeros(steps, seen);
    return true;
  }

  lemma {:induction false} NoUserNumbers(steps: seq<ChainStep>)
    ensures UserNumbers(steps[..0]) == {} && UserNumbersDistinct(steps[..0])
  {
  }

  /** Its second pass. */
  method FillZeros(steps: array<ChainStep>, userNumbers: set<int>)
    requires userNumbers == UserNumbers(steps[..])
    modifies steps
    ensures Filled(old(steps[..]), steps[..])
  {
    hide UserNumbers, InUse, FilledAt, Filled, FilledUpTo, AllUsedBelow;
    ghost var before := steps[..];
    NothingFilled(before);
    var seen := userNumbers;
    var next := 1;
    for i := 0 to steps.Length
      invariant FilledUpTo(before, steps[..], i)
      invariant seen == InUse(before, steps[..], i)
      invariant next >= 1 && AllUsedBelow(seen, next)
    {
      ghost var soFar := steps[..];
      NotYetFilled(before, soFar, i);
      if steps[i].number <= 0 {
        while next in seen
          invariant next >= 1 && AllUsedBelow(seen, next)
          decreases |seen| + 1 - next
          modifies {}
        {
          LeastFreeBounded(seen, next);
          next := next + 1;
        }
        FillNext(before, soFar, i, next);
        steps[i] := steps[i].(number := next);
        assert steps[..] == soFar[i := soFar[i].(number := next)];
        seen := seen + {next};
        next := next + 1;
      }
    }
  }

  lemma {:induction false} UserNumbersSnoc(steps: seq<ChainStep>, i: nat)
    requires i < |steps|
    ensures UserNumbers(steps[..i + 1]) == UserNumbers(steps[..i]) + (if steps[i].number > 0 then {steps[i].number} else {})
    ensures UserNumbersDistinct(steps[..i + 1]) <==>
      UserNumbersDistinct(steps[..i]) && (steps[i].number > 0 ==> steps[i].number !in UserNumbers(steps[..i]))
    ensures UserNumbersDistinct(steps) ==> UserNumbersDistinct(steps[..i + 1])
  {
    var s, t := steps[..i], steps[..i + 1];
    assert t[i] == steps[i] && forall j :: 0 <= j < i ==> s[j] == t[j] == steps[j];
  }

  ghost predicate AllUsedBelow(seen: set<int>, next: int) {
    forall k :: 1 <= k < next ==> k in seen
  }

  /** The positions before `i` are filled, the others untouched. */
  ghost predicate FilledUpTo(before: seq<ChainStep>, after: seq<ChainStep>, i: nat)
    requires i <= |before|
  {
    && |after| == |before|
    && (forall j :: 0 <= j < i ==> FilledAt(before, after, j))
    && (forall j :: i <= j < |before| ==> after[j] == before[j])
  }

  lemma {:induction false} NothingFilled(before: seq<ChainStep>)
    ensures FilledUpTo(before, before, 0) && InUse(before, before, 0) == UserNumbers(before)
    ensures forall seen :: AllUsedBelow(seen, 1)
    ensures forall after :: FilledUpTo(before, after, |before|) ==> Filled(before, after)
  {
  }

  lemma {:induction false} NotYetFilled(before: seq<ChainStep>, soFar: seq<ChainStep>, i: nat)
    requires i < |before| && FilledUpTo(before, soFar, i)
    ensures soFar[i] == before[i]
    ensures before[i].number > 0 ==>
      FilledUpTo(before, soFar, i + 1) && InUse(before, soFar, i + 1) == InUse(before, soFar, i)
  {
    if before[i].number > 0 {
      assert FilledAt(before, soFar, i);
    }
  }

  /** Filling position `i` with the least free number disturbs no earlier position. */
  lemma {:induction false} FillNext(before: seq<ChainStep>, soFar: seq<ChainStep>, i: nat, next: int)
    requires i < |before| && FilledUpTo(before, soFar, i) && before[i].number <= 0
    requires next >= 1 && next !in InUse(before, soFar, i) && AllUsedBelow(InUse(before, soFar, i), next)
    ensures var after := soFar[i := soFar[i].(number := next)];
      && FilledUpTo(before, after, i + 1)
      && InUse(before, after, i + 1) == InUse(before, soFar, i) + {next}
    ensures AllUsedBelow(InUse(before, soFar, i) + {next}, next + 1)
  {
    var after := soFar[i := soFar[i].(number := next)];
    forall j | 0 <= j <= i
      ensures FilledAt(before, after, j) && InUse(before, after, j) == InUse(before, soFar, j)
    {
      assert InUse(before, soFar, j) == InUse(before, after, j);
      assert j < i ==> FilledAt(before, soFar, j);
    }
  }

  lemma {:induction false} LeastFreeBounded(seen: set<int>, next: int)
    requires next >= 1 && next in seen && AllUsedBelow(seen, next)
    ensures next <= |seen| && AllUsedBelow(seen, next + 1)
  {
    var used := seq(next, i => i + 1);
    forall i | 0 <= i < |used|
      ensures used[i] in seen
    {
    }
    DistinctLength(used, seen);
  }

  /** What the numbering is for: afterwards all numbers are positive and distinct. */
  lemma {:induction false} FilledDistinct(before: seq<ChainStep>, after: seq<ChainStep>)
    requires Filled(before, after) && UserNumbersDistinct(before)
    ensures forall i :: 0 <= i < |after| ==> after[i].number > 0
    ensures forall i, j :: 0 <= i < j < |after| ==> after[i].number != after[j].number
  {
    forall i | 0 <= i < |after|
      ensures after[i].number > 0
    {
      assert FilledAt(before, after, i);
    }
    forall i, j | 0 <= i < j < |after|
      ensures after[i].number != after[j].number
    {
      assert FilledAt(before, after, i) && FilledAt(before, after, j);
      if before[i].number <= 0 && before[j].number > 0 {
        assert before[j].number in UserNumbers(before);
      } else if before[j].number <= 0 {
        assert after[i].number in InUse(before, after, j) by {
          if before[i].number > 0 {
            assert before[i].number in UserNumbers(before);
          }
        }
      }
    }
  }

  /** The numbers of all positions but `i`. */
  ghost function OtherNumbers(steps: seq<ChainStep>, i: nat): set<int>
    requires i < |steps|
  {
    set j | 0 <= j < |steps| && j != i :: steps[j].number
  }

  lemma {:induction false} FewNumbers(steps: seq<ChainStep>)
    ensures |set j | 0 <= j < |steps| :: steps[j].number| <= |steps|
  {
    if steps != [] {
      var front, last := steps[..|steps| - 1], steps[|steps| - 1];
      FewNumbers(front);
      assert forall j :: 0 <= j < |front| ==> front[j] == steps[j];
      assert (set j | 0 <= j < |steps| :: steps[j].number) == (set j | 0 <= j < |front| :: front[j].number) + {last.number};
    }
  }

  lemma {:induction false} FewOthers(steps: seq<ChainStep>, i: nat)
    requires i < |steps|
    ensures |OtherNumbers(steps, i)| <= |steps| - 1
  {
    var others := steps[..i] + steps[i + 1..];
    FewNumbers(others);
    assert forall j :: 0 <= j < |others| ==> others[j] == steps[if j < i then j else j + 1];
    assert forall j :: 0 <= j < |steps| && j != i ==> others[if j < i then j else j - 1] == steps[j];
    assert OtherNumbers(steps, i) == set j | 0 <= j < |others| :: others[j].number;
  }

  /** A number that was filled in is at most the number of steps; so the numbers of at most 999
      steps stay in 1..999 when the user's do. */
  lemma {:induction false} FilledInRange(before: seq<ChainStep>, after: seq<ChainStep>)
    requires Filled(before, after)
    ensures forall i :: 0 <= i < |after| ==> after[i].number > 0
    ensures forall i :: 0 <= i < |after| && before[i].number <= 0 ==> after[i].number <= |after|
    ensures |after| <= 999 && (forall i :: 0 <= i < |before| ==> before[i].number <= 999) ==>
            forall i :: 0 <= i < |after| ==> 1 <= after[i].number <= 999
  {
    forall i: nat | i < |after|
      ensures after[i].number > 0
      ensures before[i].number > 0 ==> after[i].number == before[i].number
      ensures before[i].number <= 0 ==> after[i].number <= |after|
    {
      assert FilledAt(before, after, i);
      if before[i].number <= 0 {
        FilledIsSmall(before, after, i);
      }
    }
  }

  lemma {:induction false} FilledIsSmall(before: seq<ChainStep>, after: seq<ChainStep>, i: nat)
    requires Filled(before, after) && i < |after| && before[i].number <= 0
    ensures after[i].number <= |after|
  {
    assert FilledAt(before, after, i);
    forall n | n in InUse(before, after, i)
      ensures n in OtherNumbers(after, i)
    {
      if n in UserNumbers(before) {
        var j :| 0 <= j < |before| && before[j].number > 0 && before[j].number == n;
        assert FilledAt(before, after, j) && after[j].number == n;
      }
    }
    var used := seq(after[i].number - 1, k => k + 1);
    forall k | 0 <= k < |used|
      ensures used[k] in OtherNumbers(after, i)
    {
      assert k + 1 in InUse(before, after, i);
    }
    hide FilledAt, InUse, OtherNumbers;
    DistinctLength(used, OtherNumbers(after, i));
    FewOthers(after, i);
  }
}
