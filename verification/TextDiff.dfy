/** Word-level proposals: tokens, hunks built from the opcodes of a sequence matcher, partial
    acceptance and the inline view. */
module TextDiff {
  import opened Prelude
  import Tokens

  function Concat(parts: seq<string>): string {
    if parts == [] then "" else parts[0] + Concat(parts[1..])
  }

  lemma {:induction false} ConcatAppend(a: seq<string>, b: seq<string>)
    ensures Concat(a + b) == Concat(a) + Concat(b)
  {
    if a == [] {
      assert a + b == b;
    } else {
      assert (a + b)[1..] == a[1..] + b;
      ConcatAppend(a[1..], b);
    }
  }

  // ---- tokens ----

  /** Length of the longest prefix of characters of the same class as the first. */
  function WordLength(text: string): (n: nat)
    requires text != ""
    ensures 0 < n <= |text|
    ensures forall i :: 0 <= i < n ==> (Tokens.IsSpace(text[i]) <==> Tokens.IsSpace(text[0]))
    ensures n < |text| ==> (Tokens.IsSpace(text[n]) <==> !Tokens.IsSpace(text[0]))
  {
    if |text| > 1 && Tokens.IsSpace(text[1]) == Tokens.IsSpace(text[0]) then
      var n := 1 + WordLength(text[1..]);
      assert forall i :: 1 <= i < n ==> text[i] == text[1..][i - 1];
      n
    else 1
  }

  /** `_tokens`: words and runs of white space, in order. */
  function Words(text: string): seq<string>
    decreases |text|
  {
    if text == "" then [] else var n := WordLength(text); [text[..n]] + Words(text[n..])
  }

  predicate OneClass(word: string) {
    word != "" && forall i :: 0 <= i < |word| ==> (Tokens.IsSpace(word[i]) <==> Tokens.IsSpace(word[0]))
  }

  /** A list of words as the tokenizer leaves it: none empty, none mixed, white space and text
      in turn. */
  predicate Alternating(words: seq<string>) {
    && (forall k :: 0 <= k < |words| ==> OneClass(words[k]))
    && (forall k :: 0 <= k < |words| - 1 ==> Tokens.IsSpace(words[k][0]) != Tokens.IsSpace(words[k + 1][0]))
  }

  /** Tokenizing loses nothing. */
  lemma {:induction false} WordsLossless(text: string)
    ensures Concat(Words(text)) == text && Alternating(Words(text))
    decreases |text|
  {
    if text != "" {
      var n := WordLength(text);
      WordsLossless(text[n..]);
      assert text == text[..n] + text[n..];
      if n < |text| {
        FirstWord(text[n..]);
      }
      assert Words(text) == [text[..n]] + Words(text[n..]);
      hide Words, WordLength, Alternating, Tokens.IsSpace;
      AlternatingCons(text[..n], Words(text[n..]));
    }
  }

  lemma {:induction false} FirstWord(text: string)
    requires text != ""
    ensures Words(text) != [] && Words(text)[0] != "" && Words(text)[0][0] == text[0]
  {
  }

  lemma {:induction false} AlternatingCons(word: string, rest: seq<string>)
    requires OneClass(word) && Alternating(rest)
    requires rest != [] ==> Tokens.IsSpace(word[0]) != Tokens.IsSpace(rest[0][0])
    ensures Alternating([word] + rest)
  {
    hide Tokens.IsSpace, OneClass;
  }

  /** And it splits as little as possible: such a list is what its text is split into. */
  lemma {:induction false} WordsUnique(words: seq<string>)
    requires Alternating(words)
    ensures Words(Concat(words)) == words
  {
    if words != [] {
      var text, word := Concat(words), words[0];
      assert OneClass(word);
      WordsUnique(words[1..]);
      assert text[..|word|] == word && text[|word|..] == Concat(words[1..]);
      assert |words| > 1 ==> OneClass(words[1]) && text[|word|] == words[1][0];
      hide Concat, Words, Tokens.IsSpace;
      LengthOfWord(text, |word|);
      assert Words(text) == [text[..|word|]] + Words(text[|word|..]) by {
        WordsCons(text);
      }
    }
  }

  lemma {:induction false} WordsCons(text: string)
    requires text != ""
    ensures Words(text) == [text[..WordLength(text)]] + Words(text[WordLength(text)..])
  {
  }

  lemma {:induction false} LengthOfWord(text: string, n: nat)
    requires 0 < n <= |text|
    requires forall i :: 0 <= i < n ==> (Tokens.IsSpace(text[i]) <==> Tokens.IsSpace(text[0]))
    requires n < |text| ==> Tokens.IsSpace(text[n]) != Tokens.IsSpace(text[0])
    ensures WordLength(text) == n
  {
    hide Tokens.IsSpace;
    var m := WordLength(text);
    assert m < |text| ==> Tokens.IsSpace(text[m]) != Tokens.IsSpace(text[0]);
  }

  // ---- hunks ----

  datatype Op = Equal | Insert | Delete | Replace

  datatype Opcode = Opcode(op: Op, i1: nat, i2: nat, j1: nat, j2: nat)

  datatype Hunk = Hunk(op: Op, before: string, after: string)

  /** One opcode of the matcher: it says how `a[i1..i2]` becomes `b[j1..j2]`. */
  predicate ValidOpcode(c: Opcode, a: seq<string>, b: seq<string>) {
    && c.i1 <= c.i2 <= |a| && c.j1 <= c.j2 <= |b|
    && (c.op == Equal ==> a[c.i1..c.i2] == b[c.j1..c.j2])
    && (c.op == Insert ==> c.i1 == c.i2)
    && (c.op == Delete ==> c.j1 == c.j2)
  }

  /** The contract of the matcher: the opcodes cover both lists from the first word to the last
      without gap or overlap. */
  predicate CoversFrom(ops: seq<Opcode>, a: seq<string>, b: seq<string>, i: nat, j: nat) {
    if ops == [] then i == |a| && j == |b|
    else
      && ValidOpcode(ops[0], a, b) && ops[0].i1 == i && ops[0].j1 == j
      && CoversFrom(ops[1..], a, b, ops[0].i2, ops[0].j2)
  }

  lemma {:induction false} EachValid(ops: seq<Opcode>, a: seq<string>, b: seq<string>, i: nat, j: nat)
    requires CoversFrom(ops, a, b, i, j)
    ensures forall k :: 0 <= k < |ops| ==> ValidOpcode(ops[k], a, b)
  {
    if ops != [] {
      EachValid(ops[1..], a, b, ops[0].i2, ops[0].j2);
    }
  }

  function HunkOf(c: Opcode, a: seq<string>, b: seq<string>): Hunk
    requires ValidOpcode(c, a, b)
  {
    Hunk(c.op, Concat(a[c.i1..c.i2]), Concat(b[c.j1..c.j2]))
  }

  function BeforeSides(hunks: seq<Hunk>): string {
    if hunks == [] then "" else hunks[0].before + BeforeSides(hunks[1..])
  }

  function AfterSides(hunks: seq<Hunk>): string {
    if hunks == [] then "" else hunks[0].after + AfterSides(hunks[1..])
  }

  /** What a hunk's kind says about its sides. */
  predicate Consistent(h: Hunk) {
    match h.op
    case Equal => h.before == h.after
    case Insert => h.before == ""
    case Delete => h.after == ""
    case Replace => true
  }

  /** The hunks made of some opcodes rebuild both word lists. */
  lemma {:induction false} SidesRebuild(ops: seq<Opcode>, a: seq<string>, b: seq<string>, i: nat, j: nat, hunks: seq<Hunk>)
    requires CoversFrom(ops, a, b, i, j) && i <= |a| && j <= |b| && |hunks| == |ops|
    requires forall k :: 0 <= k < |ops| ==> ValidOpcode(ops[k], a, b) && hunks[k] == HunkOf(ops[k], a, b)
    ensures BeforeSides(hunks) == Concat(a[i..]) && AfterSides(hunks) == Concat(b[j..])
  {
    if ops != [] {
      var c := ops[0];
      SidesRebuild(ops[1..], a, b, c.i2, c.j2, hunks[1..]);
      assert a[i..] == a[i..c.i2] + a[c.i2..] && b[j..] == b[j..c.j2] + b[c.j2..];
      ConcatAppend(a[i..c.i2], a[c.i2..]);
      ConcatAppend(b[j..c.j2], b[c.j2..]);
    }
  }

  lemma {:induction false} HunkIsConsistent(c: Opcode, a: seq<string>, b: seq<string>)
    requires ValidOpcode(c, a, b)
    ensures Consistent(HunkOf(c, a, b))
  {
  }

  /** Hunks between two texts: both can be read off them. */
  ghost predicate Between(hunks: seq<Hunk>, before: string, after: string) {
    && BeforeSides(hunks) == before && AfterSides(hunks) == after
    && forall k :: 0 <= k < |hunks| ==> Consistent(hunks[k])
  }

  /** One hunk for each opcode, with the words it covers on either side. */
  ghost predicate HunkPerOpcode(hunks: seq<Hunk>, ops: seq<Opcode>, a: seq<string>, b: seq<string>) {
    && |hunks| == |ops|
    && forall k :: 0 <= k < |ops| ==>
         && ops[k].i1 <= ops[k].i2 <= |a| && ops[k].j1 <= ops[k].j2 <= |b|
         && hunks[k].op == ops[k].op
         && hunks[k].before == Concat(a[ops[k].i1..ops[k].i2]) && hunks[k].after == Concat(b[ops[k].j1..ops[k].j2])
  }

  type Matcher = (seq<string>, seq<string>) -> seq<Opcode>

  /** `_build_hunks` */
  method BuildHunks(before: string, after: string, matcher: Matcher) returns (hunks: seq<Hunk>)
    requires CoversFrom(matcher(Words(before), Words(after)), Words(before), Words(after), 0, 0)
    ensures Between(hunks, before, after)
    ensures HunkPerOpcode(hunks, matcher(Words(before), Words(after)), Words(before), Words(after))
  {
    var a, b := Words(before), Words(after);
    var ops := matcher(a, b);
    EachValid(ops, a, b, 0, 0);
    hunks := [];
    for k := 0 to |ops|
      invariant |hunks| == k
      invariant forall m :: 0 <= m < k ==> hunks[m] == HunkOf(ops[m], a, b) && Consistent(hunks[m])
    {
      HunkIsConsistent(ops[k], a, b);
      hunks := hunks + [Hunk(ops[k].op, Concat(a[ops[k].i1..ops[k].i2]), Concat(b[ops[k].j1..ops[k].j2]))];
    }
    SidesRebuild(ops, a, b, 0, 0, hunks);
    assert a[0..] == a && b[0..] == b;
    WordsLossless(before);
    WordsLossless(after);
  }

  // ---- proposals ----

  datatype Proposal = Proposal(before: string, after: string, beforeHash: string, hunks: seq<Hunk>)

  ghost predicate ValidProposal(p: Proposal, hash: string -> string) {
    p.beforeHash == hash(p.before) && Between(p.hunks, p.before, p.after)
  }

  method MakeProposal(before: string, after: string, matcher: Matcher, hash: string -> string) returns (p: Proposal)
    requires CoversFrom(matcher(Words(before), Words(after)), Words(before), Words(after), 0, 0)
    ensures p.before == before && p.after == after && ValidProposal(p, hash)
    ensures HunkPerOpcode(p.hunks, matcher(Words(before), Words(after)), Words(before), Words(after))
  {
    var hunks := BuildHunks(before, after, matcher);
    p := Proposal(before, after, hash(before), hunks);
  }

  function Chosen(h: Hunk, accept: bool): string {
    if h.op == Equal || !accept then h.before else h.after
  }

  /** The text with the hunks in `accepted` taken, the first hunk having index `first`. */
  function Merge(hunks: seq<Hunk>, accepted: set<int>, first: nat): string {
    if hunks == [] then "" else Chosen(hunks[0], first in accepted) + Merge(hunks[1..], accepted, first + 1)
  }

  lemma {:induction false} MergeSnoc(front: seq<Hunk>, h: Hunk, accepted: set<int>, first: nat)
    ensures Merge(front + [h], accepted, first) == Merge(front, accepted, first) + Chosen(h, first + |front| in accepted)
  {
    if front == [] {
      assert front + [h] == [h];
    } else {
      assert (front + [h])[1..] == front[1..] + [h];
      MergeSnoc(front[1..], h, accepted, first + 1);
    }
  }

  datatype Applied = Text(text: string) | Conflict

  /** `apply_proposal`; `accept` is absent for a full accept, and indices that name no change
      are ignored. Drift is reported exactly when the hashes differ: an unchanged text is never
      refused, and a changed one passes only on a hash collision. */
  method ApplyProposal(current: string, p: Proposal, accept: Option<seq<int>>, force: bool, hash: string -> string)
    returns (r: Applied)
    ensures r.Conflict? <==> !force && hash(current) != p.beforeHash && current != p.before
    ensures ValidProposal(p, hash) ==> (r.Conflict? <==> !force && hash(current) != hash(p.before))
    ensures r.Text? && accept.None? ==> r.text == p.after
    ensures r.Text? && accept.Some? ==> r.text == Merge(p.hunks, set x | x in accept.value, 0)
  {
    if !force && hash(current) != p.beforeHash && current != p.before {
      return Conflict;
    }
    if accept.None? {
      return Text(p.after);
    }
    var accepted := set x | x in accept.value;
    var out := "";
    for k := 0 to |p.hunks|
      invariant out == Merge(p.hunks[..k], accepted, 0)
    {
      var h := p.hunks[k];
      assert p.hunks[..k + 1] == p.hunks[..k] + [h];
      MergeSnoc(p.hunks[..k], h, accepted, 0);
      if h.op == Equal {
        out := out + h.before;
      } else if k in accepted {
        out := out + h.after;
      } else {
        out := out + h.before;
      }
    }
    assert p.hunks[..|p.hunks|] == p.hunks;
    return Text(out);
  }

  lemma {:induction false} MergeNone(hunks: seq<Hunk>, accepted: set<int>, first: nat)
    requires forall k :: first <= k < first + |hunks| ==> k !in accepted
    ensures Merge(hunks, accepted, first) == BeforeSides(hunks)
  {
    if hunks != [] {
      MergeNone(hunks[1..], accepted, first + 1);
    }
  }

  lemma {:induction false} MergeAll(hunks: seq<Hunk>, accepted: set<int>, first: nat)
    requires forall k :: 0 <= k < |hunks| ==> Consistent(hunks[k])
    requires forall k :: 0 <= k < |hunks| && hunks[k].op != Equal ==> first + k in accepted
    ensures Merge(hunks, accepted, first) == AfterSides(hunks)
  {
    if hunks != [] {
      assert first + 0 == first;
      forall k | 0 <= k < |hunks[1..]| && hunks[1..][k].op != Equal
        ensures first + 1 + k in accepted
      {
        assert first + (k + 1) in accepted;
      }
      MergeAll(hunks[1..], accepted, first + 1);
    }
  }

  /** Accepting no change keeps the old text; accepting every change gives the new one. */
  lemma {:induction false} AcceptNoneOrAll(p: Proposal, hash: string -> string, accepted: set<int>)
    requires ValidProposal(p, hash)
    ensures (forall k :: 0 <= k < |p.hunks| ==> k !in accepted) ==> Merge(p.hunks, accepted, 0) == p.before
    ensures (forall k :: 0 <= k < |p.hunks| && p.hunks[k].op != Equal ==> k in accepted) ==>
            Merge(p.hunks, accepted, 0) == p.after
  {
    if forall k :: 0 <= k < |p.hunks| ==> k !in accepted {
      MergeNone(p.hunks, accepted, 0);
    }
    if forall k :: 0 <= k < |p.hunks| && p.hunks[k].op != Equal ==> k in accepted {
      MergeAll(p.hunks, accepted, 0);
    }
  }

  /** Accepting one more change replaces that hunk's text and no other: the two results agree
      before and behind it. */
  lemma {:induction false} AcceptOneMore(hunks: seq<Hunk>, accepted: set<int>, more: set<int>, k: nat, first: nat)
    returns (left: string, right: string)
    requires k < |hunks| && hunks[k].op != Equal && first + k !in accepted && more == accepted + {first + k}
    ensures Merge(hunks, accepted, first) == left + hunks[k].before + right
    ensures Merge(hunks, more, first) == left + hunks[k].after + right
  {
    var rest := hunks[1..];
    if k == 0 {
      left, right := "", Merge(rest, accepted, first + 1);
      MergeSame(rest, accepted, more, first + 1);
    } else {
      var l, r := AcceptOneMore(rest, accepted, more, k - 1, first + 1);
      var head := Chosen(hunks[0], first in accepted);
      left, right := head + l, r;
      assert head + (l + hunks[k].before + r) == left + hunks[k].before + right;
      assert head + (l + hunks[k].after + r) == left + hunks[k].after + right;
    }
  }

  lemma {:induction false} MergeSame(hunks: seq<Hunk>, a: set<int>, b: set<int>, first: nat)
    requires forall k :: first <= k < first + |hunks| ==> (k in a <==> k in b)
    ensures Merge(hunks, a, first) == Merge(hunks, b, first)
  {
    if hunks != [] {
      MergeSame(hunks[1..], a, b, first + 1);
    }
  }

  // ---- the inline view ----

  datatype SegmentKind = EqualText | InsertedText | DeletedText

  datatype Segment = Segment(kind: SegmentKind, text: string)

  function OneSegment(kind: SegmentKind, text: string): seq<Segment> {
    if text == "" then [] else [Segment(kind, text)]
  }

  function SegmentsOf(h: Hunk): seq<Segment> {
    match h.op
    case Equal => OneSegment(EqualText, h.before)
    case Insert => OneSegment(InsertedText, h.after)
    case Delete => OneSegment(DeletedText, h.before)
    case Replace => OneSegment(DeletedText, h.before) + OneSegment(InsertedText, h.after)
  }

  function Shown(hunks: seq<Hunk>): seq<Segment> {
    if hunks == [] then [] else Shown(hunks[..|hunks| - 1]) + SegmentsOf(hunks[|hunks| - 1])
  }

  /** The text a reader sees who skips segments of one kind. */
  function Without(segs: seq<Segment>, kind: SegmentKind): string {
    if segs == [] then ""
    else (if segs[0].kind == kind then "" else segs[0].text) + Without(segs[1..], kind)
  }

  lemma {:induction false} WithoutAppend(a: seq<Segment>, b: seq<Segment>, kind: SegmentKind)
    ensures Without(a + b, kind) == Without(a, kind) + Without(b, kind)
  {
    if a == [] {
      assert a + b == b;
    } else {
      assert (a + b)[1..] == a[1..] + b;
      WithoutAppend(a[1..], b, kind);
    }
  }

  lemma {:induction false} SidesSnoc(front: seq<Hunk>, h: Hunk)
    ensures BeforeSides(front + [h]) == BeforeSides(front) + h.before
    ensures AfterSides(front + [h]) == AfterSides(front) + h.after
  {
    if front == [] {
      assert front + [h] == [h];
    } else {
      assert (front + [h])[1..] == front[1..] + [h];
      SidesSnoc(front[1..], h);
    }
  }

  lemma {:induction false} HunkShown(h: Hunk)
    requires Consistent(h)
    ensures Without(SegmentsOf(h), InsertedText) == h.before && Without(SegmentsOf(h), DeletedText) == h.after
  {
    WithoutAppend(OneSegment(DeletedText, h.before), OneSegment(InsertedText, h.after), InsertedText);
    WithoutAppend(OneSegment(DeletedText, h.before), OneSegment(InsertedText, h.after), DeletedText);
  }

  lemma {:induction false} ShownReadsAsBoth(hunks: seq<Hunk>)
    requires forall k :: 0 <= k < |hunks| ==> Consistent(hunks[k])
    ensures Without(Shown(hunks), InsertedText) == BeforeSides(hunks)
    ensures Without(Shown(hunks), DeletedText) == AfterSides(hunks)
  {
    if hunks != [] {
      var front, h := hunks[..|hunks| - 1], hunks[|hunks| - 1];
      assert hunks == front + [h];
      ShownReadsAsBoth(front);
      SidesSnoc(front, h);
      HunkShown(h);
      WithoutAppend(Shown(front), SegmentsOf(h), InsertedText);
      WithoutAppend(Shown(front), SegmentsOf(h), DeletedText);
    }
  }

  /** Hunks are shown one after the other, each in the colour of its kind, the deletion of a
      replacement before its insertion; empty sides are not shown. */
  lemma {:induction false} ShownInOrder(a: seq<Hunk>, h: Hunk)
    ensures var more := Shown(a + [h])[|Shown(a)|..];
      && Shown(a) <= Shown(a + [h])
      && (h.op == Equal && h.before != "" ==> more == [Segment(EqualText, h.before)])
      && (h.op == Insert && h.after != "" ==> more == [Segment(InsertedText, h.after)])
      && ((h.op == Delete || (h.op == Replace && h.after == "")) && h.before != "" ==> more == [Segment(DeletedText, h.before)])
      && (h.op == Replace && h.before != "" && h.after != "" ==>
          more == [Segment(DeletedText, h.before), Segment(InsertedText, h.after)])
      && (h.op == Replace && h.before == "" && h.after != "" ==> more == [Segment(InsertedText, h.after)])
      && ((h.before == "" || h.op == Insert) && (h.after == "" || h.op == Equal || h.op == Delete) ==> more == [])
  {
    assert (a + [h])[..|a|] == a;
  }

  /** `render_inline`: without the insertions it reads as the old text, without the deletions
      as the new one, and no segment is empty. */
  method RenderInline(p: Proposal, ghost hash: string -> string) returns (segs: seq<Segment>)
    requires ValidProposal(p, hash)
    ensures segs == Shown(p.hunks)
    ensures Without(segs, InsertedText) == p.before && Without(segs, DeletedText) == p.after
    ensures forall k :: 0 <= k < |segs| ==> segs[k].text != ""
  {
    segs := [];
    for k := 0 to |p.hunks|
      invariant segs == Shown(p.hunks[..k])
      invariant forall m :: 0 <= m < |segs| ==> segs[m].text != ""
    {
      assert p.hunks[..k + 1] == p.hunks[..k] + [p.hunks[k]];
      var more := ShowHunk(p.hunks[k]);
      segs := segs + more;
    }
    assert p.hunks[..|p.hunks|] == p.hunks;
    ShownReadsAsBoth(p.hunks);
  }

  method ShowHunk(h: Hunk) returns (segs: seq<Segment>)
    ensures segs == SegmentsOf(h)
    ensures forall m :: 0 <= m < |segs| ==> segs[m].text != ""
  {
    segs := [];
    match h.op
    case Equal =>
      if h.before != "" {
        segs := [Segment(EqualText, h.before)];
      }
    case Insert =>
      if h.after != "" {
        segs := [Segment(InsertedText, h.after)];
      }
    case Delete =>
      if h.before != "" {
        segs := [Segment(DeletedText, h.before)];
      }
    case Replace =>
      if h.before != "" {
        segs := [Segment(DeletedText, h.before)];
      }
      if h.after != "" {
        segs := segs + [Segment(InsertedText, h.after)];
      }
  }
}
