/** Memory records as Markdown files with a front matter between two fences. */
module MemoryFile {
  import opened Prelude

  const FENCE := "---\n"

  const CLOSING := "\n---\n"

  /** `serialize`, given the metadata text `fm`. */
  function Serialize(fm: string, body: string): string {
    FENCE + fm + FENCE + body
  }

  predicate IsAt(text: string, mark: string, i: nat) {
    i + |mark| <= |text| && text[i..i + |mark|] == mark
  }

  ghost predicate Contains(text: string, mark: string) {
    exists i: nat :: IsAt(text, mark, i)
  }

  /** `str.find`: the first position of `mark`, or nothing. */
  method Find(text: string, mark: string) returns (at: Option<nat>)
    ensures match at
            case None => !Contains(text, mark)
            case Some(i) => IsAt(text, mark, i) && forall j: nat :: j < i ==> !IsAt(text, mark, j)
  {
    var i := 0;
    while i + |mark| <= |text|
      invariant forall j: nat :: j < i ==> !IsAt(text, mark, j)
      decreases |text| - i
    {
      if text[i..i + |mark|] == mark {
        return Some(i);
      }
      i := i + 1;
    }
    return None;
  }

  datatype SplitError = NoOpeningFence | NoClosingFence

  datatype Parts = Parts(meta: string, body: string)

  predicate EndsWith(text: string, mark: string) {
    |mark| <= |text| && text[|text| - |mark|..] == mark
  }

  /** What the split of a file must be: the metadata runs to the first closing fence; a file
      that is front matter only may end in the fence itself. */
  ghost predicate IsSplit(text: string, r: Result<Parts, SplitError>) {
    if !(FENCE <= text) then r == Err(NoOpeningFence)
    else
      var rest := text[|FENCE|..];
      if Contains(rest, CLOSING) then
        exists i: nat :: IsAt(rest, CLOSING, i) && (forall j: nat :: j < i ==> !IsAt(rest, CLOSING, j))
                         && r == Ok(Parts(rest[..i + 1], rest[i + |CLOSING|..]))
      else if EndsWith(rest, FENCE) then r == Ok(Parts(rest[..|rest| - |FENCE|], ""))
      else r == Err(NoClosingFence)
  }

  /** The split of `parse`, before the YAML reader. */
  method Split(text: string) returns (r: Result<Parts, SplitError>)
    ensures IsSplit(text, r)
  {
    if !(FENCE <= text) {
      return Err(NoOpeningFence);
    }
    var rest := text[4..];
    var marker := Find(rest, CLOSING);
    if marker.None? {
      if EndsWith(rest, FENCE) {
        return Ok(Parts(rest[..|rest| - 4], ""));
      }
      return Err(NoClosingFence);
    }
    return Ok(Parts(rest[..marker.value + 1], rest[marker.value + 5..]));
  }

  // ---- the round trip ----

  /** The metadata text cannot be mistaken for its own end: it ends its last line, and no line
      of it after the first is a fence. */
  ghost predicate Fenceless(fm: string) {
    EndsWith(fm, "\n") && !Contains(fm, CLOSING)
  }

  /** A closing fence that starts before the last newline of the metadata ends within it. */
  lemma {:induction false} FenceInside(fm: string, tail: string, i: nat)
    requires EndsWith(fm, "\n") && i < |fm| - 1 && IsAt(fm + tail, CLOSING, i)
    ensures IsAt(fm, CLOSING, i)
  {
    var rest := fm + tail;
    assert fm[|fm| - 1..][0] == rest[|fm| - 1] == '\n';
    assert |fm| - 1 - i < 5 ==> rest[i..i + 5][|fm| - 1 - i] == rest[|fm| - 1];
    assert i + 5 <= |fm| ==> rest[i..i + 5] == fm[i..i + 5];
  }

  lemma {:induction false} WrittenFence(fm: string, body: string)
    requires EndsWith(fm, "\n")
    ensures IsAt(fm + FENCE + body, CLOSING, |fm| - 1)
  {
    var rest := fm + FENCE + body;
    assert fm[|fm| - 1..][0] == rest[|fm| - 1] == '\n';
    assert rest[|fm| - 1..|fm| + 4] == CLOSING;
  }

  lemma {:induction false} SerializedRest(fm: string, body: string)
    ensures FENCE <= Serialize(fm, body) && Serialize(fm, body)[|FENCE|..] == fm + FENCE + body
  {
  }

  /** The first closing fence of a written record is the one written, exactly when the metadata
      is fenceless. */
  lemma {:induction false} FirstFence(fm: string, body: string, i: nat)
    requires var rest := fm + FENCE + body; IsAt(rest, CLOSING, i) && forall j: nat :: j < i ==> !IsAt(rest, CLOSING, j)
    ensures i == |fm| - 1 <==> Fenceless(fm)
  {
    var rest := fm + FENCE + body;
    assert rest == fm + (FENCE + body);
    assert rest[i..i + 5][0] == rest[i];
    if EndsWith(fm, "\n") {
      WrittenFence(fm, body);
      if i < |fm| - 1 {
        FenceInside(fm, FENCE + body, i);
      } else if k: nat :| IsAt(fm, CLOSING, k) {
        assert rest[k..k + 5] == fm[k..k + 5];
        assert IsAt(rest, CLOSING, k);
      }
    } else {
      assert fm != "" ==> fm[|fm| - 1..] == [rest[|fm| - 1]];
    }
  }

  /** Splitting what was written gives back the same metadata text and the same body, whatever
      the body holds, exactly when the metadata is fenceless; a file that is front matter only
      is also read back when no closing fence can be found in it. */
  lemma {:induction false} RoundTripIff(fm: string, body: string, r: Result<Parts, SplitError>)
    requires IsSplit(Serialize(fm, body), r)
    ensures r == Ok(Parts(fm, body)) <==> Fenceless(fm) || (body == "" && !Contains(fm + FENCE, CLOSING))
  {
    var rest := fm + FENCE + body;
    SerializedRest(fm, body);
    if Fenceless(fm) {
      WrittenFence(fm, body);
    }
    hide Serialize, IsAt, Fenceless;
    if Contains(rest, CLOSING) {
      var i: nat :| IsAt(rest, CLOSING, i) && (forall j: nat :: j < i ==> !IsAt(rest, CLOSING, j))
                    && r == Ok(Parts(rest[..i + 1], rest[i + |CLOSING|..]));
      FirstFence(fm, body, i);
      InBounds(rest, i);
      assert body == "" ==> rest == fm + FENCE;
      SplitAt(fm, body, i);
    } else {
      assert body == "" ==> rest == fm + FENCE && rest[|rest| - |FENCE|..] == FENCE && rest[..|rest| - |FENCE|] == fm;
    }
  }

  lemma {:induction false} InBounds(rest: string, i: nat)
    requires IsAt(rest, CLOSING, i)
    ensures i + |CLOSING| <= |rest|
  {
  }

  lemma {:induction false} SplitAt(fm: string, body: string, i: nat)
    requires i + |CLOSING| <= |fm + FENCE + body|
    ensures var rest := fm + FENCE + body;
      (rest[..i + 1] == fm && rest[i + |CLOSING|..] == body) <==> i == |fm| - 1
  {
    var rest := fm + FENCE + body;
    if i == |fm| - 1 {
      assert rest[..i + 1] == fm && rest[i + 5..] == body;
    }
  }

  /** In particular a body with fence lines of its own survives. */
  lemma {:induction false} AnyBodySurvives(fm: string, body: string, r: Result<Parts, SplitError>)
    requires Fenceless(fm) && IsSplit(Serialize(fm, body), r)
    ensures r == Ok(Parts(fm, body))
  {
    RoundTripIff(fm, body, r);
  }
}
