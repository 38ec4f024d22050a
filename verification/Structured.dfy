/** Finding JSON in what a model wrote: the balanced span, the code fence and the candidates
    tried in order. */
module Structured {
  import opened Prelude
  import opened JsonText
  import Tokens

  // ---- the scanner ----

  datatype Kind = Braces | Brackets

  function Opener(k: Kind): char {
    if k == Braces then '{' else '['
  }

  function Closer(k: Kind): char {
    if k == Braces then '}' else ']'
  }

  /** Where the scanner is after some characters; `Closed` once the depth came back to zero. */
  datatype State = Open(depth: int, inString: bool, escaped: bool) | Closed

  const START := Open(0, false, false)

  function Next(k: Kind, s: State, c: char): State {
    if s.Closed? then Closed
    else if s.inString then
      if s.escaped then s.(escaped := false)
      else if c == '\\' then s.(escaped := true)
      else if c == '"' then s.(inString := false)
      else s
    else if c == '"' then s.(inString := true)
    else if c == Opener(k) then s.(depth := s.depth + 1)
    else if c == Closer(k) then (if s.depth == 1 then Closed else s.(depth := s.depth - 1))
    else s
  }

  function Run(k: Kind, s: State, text: string): State {
    if text == [] then s else Next(k, Run(k, s, text[..|text| - 1]), text[|text| - 1])
  }

  lemma {:induction false} RunAppend(k: Kind, s: State, a: string, b: string)
    ensures Run(k, s, a + b) == Run(k, Run(k, s, a), b)
  {
    if b == [] {
      assert a + b == a;
    } else {
      assert (a + b)[..|a + b| - 1] == a + b[..|b| - 1];
      RunAppend(k, s, a, b[..|b| - 1]);
    }
  }

  lemma {:induction false} ClosedStays(k: Kind, text: string)
    ensures Run(k, Closed, text) == Closed
  {
    if text != [] {
      ClosedStays(k, text[..|text| - 1]);
    }
  }

  predicate IsOpener(c: char) {
    c == '{' || c == '['
  }

  /** Position of the first opening brace or bracket, or the length. */
  function FirstOpener(text: string): (i: nat)
    ensures i <= |text|
    ensures i < |text| ==> IsOpener(text[i])
    ensures forall j :: 0 <= j < i ==> !IsOpener(text[j])
  {
    if text == [] || IsOpener(text[0]) then 0
    else
      assert forall j :: 1 <= j < |text| ==> text[j] == text[1..][j - 1];
      1 + FirstOpener(text[1..])
  }

  function KindAt(text: string, i: nat): Kind
    requires i < |text|
  {
    if text[i] == '{' then Braces else Brackets
  }

  ghost predicate ClosesAt(text: string, start: nat, end: nat)
    requires start < |text|
  {
    start <= end <= |text| && Run(KindAt(text, start), START, text[start..end]) == Closed
  }

  /** The result of the scan: the text from the first opening bracket of either kind up to the
      first place where brackets of that kind balance, strings skipped; nothing when there is
      no such place. */
  ghost predicate Extracts(text: string, r: Option<string>) {
    var start := FirstOpener(text);
    match r
    case None => start < |text| ==> forall end :: !ClosesAt(text, start, end)
    case Some(span) =>
      && start < |text|
      && ClosesAt(text, start, start + |span|) && span == text[start..start + |span|]
      && forall end: nat :: end < start + |span| ==> !ClosesAt(text, start, end)
  }

  ghost function LeastClose(text: string, start: nat, end: nat): (r: Option<string>)
    requires start < |text| && start <= end
    requires forall e: nat :: e < end ==> !ClosesAt(text, start, e)
    ensures r.None? ==> forall e: nat :: !ClosesAt(text, start, e)
    ensures r.Some? ==> ClosesAt(text, start, start + |r.value|) && r.value == text[start..start + |r.value|]
    ensures r.Some? ==> forall e: nat :: e < start + |r.value| ==> !ClosesAt(text, start, e)
    decreases |text| + 1 - end
  {
    if end > |text| then None
    else if ClosesAt(text, start, end) then Some(text[start..end])
    else LeastClose(text, start, end + 1)
  }

  /** The one result that is a result of the scan. */
  ghost function Extracted(text: string): (r: Option<string>)
    ensures Extracts(text, r)
    ensures forall other :: Extracts(text, other) ==> other == r
  {
    var start := FirstOpener(text);
    var r := if start == |text| then None else LeastClose(text, start, start);
    assert Extracts(text, r);
    OneExtract(text, r);
    r
  }

  lemma {:induction false} OneExtract(text: string, r: Option<string>)
    requires Extracts(text, r)
    ensures forall other :: Extracts(text, other) ==> other == r
  {
    forall other | Extracts(text, other)
      ensures other == r
    {
      var start := FirstOpener(text);
      if other.Some? && r.Some? {
        assert ClosesAt(text, start, start + |other.value|) && ClosesAt(text, start, start + |r.value|);
      }
    }
  }

  /** `_extract_balanced` */
  method ExtractBalanced(text: string) returns (r: Option<string>)
    ensures r == Extracted(text)
  {
    r := ScanBalanced(text);
    OneExtract(text, r);
  }

  lemma {:induction false} RunNothing(k: Kind, text: string, start: nat)
    requires start < |text|
    ensures Run(k, START, text[start..start]) == START
  {
  }

  lemma {:induction false} RunNext(k: Kind, text: string, start: nat, i: nat)
    requires start <= i < |text|
    ensures Run(k, START, text[start..i + 1]) == Next(k, Run(k, START, text[start..i]), text[i])
  {
    assert text[start..i + 1][..i - start] == text[start..i];
  }

  method ScanBalanced(text: string) returns (r: Option<string>)
    ensures Extracts(text, r)
  {
    var start := 0;
    while start < |text| && !IsOpener(text[start])
      invariant start <= |text|
      invariant forall j :: 0 <= j < start ==> !IsOpener(text[j])
    {
      start := start + 1;
    }
    assert start == FirstOpener(text);
    if start == |text| {
      return None;
    }
    var kind := KindAt(text, start);
    var depth, inStr, esc := 0, false, false;
    hide FirstOpener, Run;
    RunNothing(kind, text, start);
    for i := start to |text|
      invariant Run(kind, START, text[start..i]) == Open(depth, inStr, esc)
      invariant forall end: nat :: end <= i ==> !ClosesAt(text, start, end)
    {
      var ch := text[i];
      RunNext(kind, text, start, i);
      if inStr {
        if esc {
          esc := false;
        } else if ch == '\\' {
          esc := true;
        } else if ch == '"' {
          inStr := false;
        }
      } else if ch == '"' {
        inStr := true;
      } else if ch == Opener(kind) {
        depth := depth + 1;
      } else if ch == Closer(kind) {
        depth := depth - 1;
        if depth == 0 {
          return Some(text[start..i + 1]);
        }
      }
    }
    return None;
  }

  // ---- printed values pass through the scanner unchanged ----

  /** Inside an open bracket the scanner leaves such a text in the state it entered it. */
  ghost predicate Neutral(k: Kind, text: string) {
    forall d :: d >= 1 ==> Run(k, Open(d, false, false), text) == Open(d, false, false)
  }

  lemma {:induction false} NeutralAppend(k: Kind, a: string, b: string)
    requires Neutral(k, a) && Neutral(k, b)
    ensures Neutral(k, a + b)
  {
    forall d | d >= 1
      ensures Run(k, Open(d, false, false), a + b) == Open(d, false, false)
    {
      RunAppend(k, Open(d, false, false), a, b);
    }
  }

  predicate HasNoMark(text: string) {
    forall i :: 0 <= i < |text| ==> text[i] !in "\"{}[]"
  }

  lemma {:induction false} PlainIsNeutral(k: Kind, text: string)
    requires HasNoMark(text)
    ensures Neutral(k, text)
  {
    if text != [] {
      PlainIsNeutral(k, text[..|text| - 1]);
    }
  }

  lemma {:induction false} BlankIsNeutral(k: Kind, text: string)
    requires IsBlank(text)
    ensures Neutral(k, text)
  {
    PlainIsNeutral(k, text);
  }

  /** Text of characters other than the quote and the backslash stays inside its string. */
  lemma {:induction false} StaysInString(k: Kind, d: int, text: string)
    requires forall i :: 0 <= i < |text| ==> text[i] != '"' && text[i] != '\\'
    ensures Run(k, Open(d, true, false), text) == Open(d, true, false)
  {
    if text != [] {
      StaysInString(k, d, text[..|text| - 1]);
    }
  }

  lemma {:induction false} RunOne(k: Kind, s: State, c: char)
    ensures Run(k, s, [c]) == Next(k, s, c)
  {
    assert [c][..0] == [];
  }

  lemma {:induction false} ItemStaysInString(k: Kind, d: int, item: StringItem)
    requires ValidItem(item)
    ensures Run(k, Open(d, true, false), PrintItem(item)) == Open(d, true, false)
  {
    var s := Open(d, true, false);
    match item
    case Plain(c) => RunOne(k, s, c);
    case Escape(c) =>
      RunAppend(k, s, ['\\'], [c]);
      RunOne(k, s, '\\');
      RunOne(k, s.(escaped := true), c);
    case Unicode(hex) =>
      RunAppend(k, s, "\\u", hex);
      RunAppend(k, s, ['\\'], ['u']);
      RunOne(k, s, '\\');
      RunOne(k, s.(escaped := true), 'u');
      assert "\\u" == ['\\'] + ['u'];
      StaysInString(k, d, hex);
  }

  lemma {:induction false} ItemsStayInString(k: Kind, d: int, items: seq<StringItem>)
    requires ValidString(items)
    ensures Run(k, Open(d, true, false), PrintItems(items)) == Open(d, true, false)
  {
    if items != [] {
      ItemStaysInString(k, d, items[0]);
      ItemsStayInString(k, d, items[1..]);
      RunAppend(k, Open(d, true, false), PrintItem(items[0]), PrintItems(items[1..]));
    }
  }

  /** Brackets and escaped quotes inside strings do not count. */
  lemma {:induction false} StringIsNeutral(k: Kind, items: seq<StringItem>)
    requires ValidString(items)
    ensures Neutral(k, PrintString(items))
  {
    forall d | d >= 1
      ensures Run(k, Open(d, false, false), PrintString(items)) == Open(d, false, false)
    {
      var s := Open(d, false, false);
      RunAppend(k, s, "\"" + PrintItems(items), "\"");
      RunAppend(k, s, "\"", PrintItems(items));
      RunOne(k, s, '"');
      ItemsStayInString(k, d, items);
      RunOne(k, s.(inString := true), '"');
    }
  }

  /** A bracketed text whose inside is neutral is neutral, whichever bracket is counted. */
  lemma {:induction false} BracketedIsNeutral(k: Kind, inner: Kind, text: string)
    requires Neutral(k, text)
    ensures Neutral(k, [Opener(inner)] + text + [Closer(inner)])
  {
    forall d | d >= 1
      ensures Run(k, Open(d, false, false), [Opener(inner)] + text + [Closer(inner)]) == Open(d, false, false)
    {
      var s := Open(d, false, false);
      var e := if inner == k then d + 1 else d;
      RunAppend(k, s, [Opener(inner)] + text, [Closer(inner)]);
      RunAppend(k, s, [Opener(inner)], text);
      RunOne(k, s, Opener(inner));
      RunOne(k, Open(e, false, false), Closer(inner));
    }
  }

  lemma {:induction false} ValueIsNeutral(k: Kind, v: Value)
    requires Valid(v)
    ensures Neutral(k, Print(v))
    decreases v, 1
  {
    hide Neutral, Inside, Next;
    match v
    case Scalar(text) => PlainIsNeutral(k, text);
    case Quoted(items) => StringIsNeutral(k, items);
    case Array(_, _) =>
      InsideIsNeutral(k, v);
      BracketedIsNeutral(k, Brackets, Inside(v));
    case Object(_, _) =>
      InsideIsNeutral(k, v);
      BracketedIsNeutral(k, Braces, Inside(v));
  }

  lemma {:induction false} InsideIsNeutral(k: Kind, v: Value)
    requires Valid(v) && (v.Array? || v.Object?)
    ensures Neutral(k, Inside(v))
    decreases v, 0
  {
    match v
    case Array(elements, blank) =>
      BlankIsNeutral(k, blank);
      ElementsAreNeutral(k, elements);
    case Object(members, blank) =>
      BlankIsNeutral(k, blank);
      MembersAreNeutral(k, members);
  }

  lemma {:induction false} ElementIsNeutral(k: Kind, e: Element)
    requires ValidElement(e)
    ensures Neutral(k, PrintElement(e))
    decreases e
  {
    BlankIsNeutral(k, e.before);
    ValueIsNeutral(k, e.value);
    BlankIsNeutral(k, e.after);
    NeutralAppend(k, e.before, Print(e.value));
    NeutralAppend(k, e.before + Print(e.value), e.after);
  }

  lemma {:induction false} ElementsAreNeutral(k: Kind, elements: seq<Element>)
    requires forall i :: 0 <= i < |elements| ==> ValidElement(elements[i])
    ensures Neutral(k, PrintElements(elements))
    decreases elements
  {
    if elements != [] {
      ElementIsNeutral(k, elements[0]);
      ElementsAreNeutral(k, elements[1..]);
      PlainIsNeutral(k, ",");
      NeutralAppend(k, PrintElement(elements[0]), ",");
      NeutralAppend(k, PrintElement(elements[0]) + ",", PrintElements(elements[1..]));
    }
  }

  lemma {:induction false} MemberIsNeutral(k: Kind, m: Member)
    requires ValidMember(m)
    ensures Neutral(k, PrintMember(m))
    decreases m
  {
    BlankIsNeutral(k, m.before);
    StringIsNeutral(k, m.key);
    BlankIsNeutral(k, m.afterKey);
    PlainIsNeutral(k, ":");
    ElementIsNeutral(k, m.element);
    NeutralAppend(k, m.before, PrintString(m.key));
    NeutralAppend(k, m.before + PrintString(m.key), m.afterKey);
    NeutralAppend(k, m.before + PrintString(m.key) + m.afterKey, ":");
    NeutralAppend(k, m.before + PrintString(m.key) + m.afterKey + ":", PrintElement(m.element));
  }

  lemma {:induction false} MembersAreNeutral(k: Kind, members: seq<Member>)
    requires forall i :: 0 <= i < |members| ==> ValidMember(members[i])
    ensures Neutral(k, PrintMembers(members))
    decreases members
  {
    if members != [] {
      MemberIsNeutral(k, members[0]);
      MembersAreNeutral(k, members[1..]);
      PlainIsNeutral(k, ",");
      NeutralAppend(k, PrintMember(members[0]), ",");
      NeutralAppend(k, PrintMember(members[0]) + ",", PrintMembers(members[1..]));
    }
  }

  function KindOf(v: Value): Kind
    requires v.Array? || v.Object?
  {
    if v.Object? then Braces else Brackets
  }

  /** The bracket that opens a printed value is closed by its last character and by none
      before. */
  lemma {:induction false} ClosesAtTheEnd(v: Value, n: nat)
    requires Valid(v) && (v.Array? || v.Object?) && n <= |Print(v)|
    ensures Run(KindOf(v), START, Print(v)[..n]) == Closed <==> n == |Print(v)|
  {
    var k := KindOf(v);
    var text, body := Print(v), [Opener(k)] + Inside(v);
    assert text == body + [Closer(k)];
    assert Run(k, START, body) == Open(1, false, false) by {
      RunAppend(k, START, [Opener(k)], Inside(v));
      RunOne(k, START, Opener(k));
      InsideIsNeutral(k, v);
    }
    if n == |text| {
      assert text[..n] == text;
      RunAppend(k, START, body, [Closer(k)]);
      RunOne(k, Open(1, false, false), Closer(k));
    } else {
      assert body == text[..n] + body[n..];
      RunAppend(k, START, text[..n], body[n..]);
      ClosedStays(k, body[n..]);
    }
  }

  lemma {:induction false} PrintedEnds(v: Value)
    requires v.Array? || v.Object?
    ensures Print(v) != "" && Print(v)[0] == Opener(KindOf(v)) && Print(v)[|Print(v)| - 1] == Closer(KindOf(v))
  {
  }

  /** For any prefix without opening brackets, any printed object or array and any suffix, the
      scan returns exactly the printed value. */
  lemma {:induction false} ExtractsPrinted(before: string, v: Value, suffix: string)
    requires forall i :: 0 <= i < |before| ==> !IsOpener(before[i])
    requires Valid(v) && (v.Array? || v.Object?)
    ensures Extracted(before + Print(v) + suffix) == Some(Print(v))
  {
    var text := before + Print(v) + suffix;
    var start := |before|;
    PrintedEnds(v);
    assert text[start] == Print(v)[0];
    assert FirstOpener(text) == start && KindAt(text, start) == KindOf(v);
    hide Print, KindOf, FirstOpener, Extracted;
    forall end: nat | start <= end <= start + |Print(v)|
      ensures ClosesAt(text, start, end) <==> end == start + |Print(v)|
    {
      assert text[start..end] == Print(v)[..end - start];
      ClosesAtTheEnd(v, end - start);
    }
    hide ClosesAt;
    assert text[start..start + |Print(v)|] == Print(v);
    OneSpan(text, start, |Print(v)|);
  }

  lemma {:induction false} OneSpan(text: string, start: nat, length: nat)
    requires FirstOpener(text) == start < |text| && start + length <= |text|
    requires forall end: nat :: start <= end <= start + length ==> (ClosesAt(text, start, end) <==> end == start + length)
    ensures Extracted(text) == Some(text[start..start + length])
  {
    var r := Extracted(text);
    hide Extracted, Run, FirstOpener;
    assert ClosesAt(text, start, start + length);
    if r.Some? && |r.value| <= length {
      assert ClosesAt(text, start, start + |r.value|);
    }
  }

  /** Opening brackets minus closing ones, of one kind. */
  function Balance(open: char, close: char, text: string): int {
    if text == "" then 0
    else
      var c := text[|text| - 1];
      Balance(open, close, text[..|text| - 1]) + (if c == open then 1 else if c == close then -1 else 0)
  }

  /** The first prefix in which the brackets balance. */
  ghost predicate BalancesFirstAt(open: char, close: char, text: string, n: nat) {
    && 0 < n <= |text| && Balance(open, close, text[..n]) == 0
    && forall m :: 0 < m < n ==> Balance(open, close, text[..m]) != 0
  }

  lemma {:induction false} RunCounts(k: Kind, text: string, n: nat)
    requires '"' !in text && 0 < n <= |text| && text[0] == Opener(k)
    requires forall m :: 0 < m < n ==> Balance(Opener(k), Closer(k), text[..m]) != 0
    ensures var b := Balance(Opener(k), Closer(k), text[..n]);
      b >= 0 && Run(k, START, text[..n]) == if b == 0 then Closed else Open(b, false, false)
  {
    assert text[..n][..n - 1] == text[..n - 1] && text[n - 1] in text;
    if n > 1 {
      RunCounts(k, text, n - 1);
    } else {
      assert text[..0] == "";
    }
  }

  /** In a text without strings only the brackets of the first kind met count: the span is the
      first prefix in which they balance, whatever brackets of the other kind stand in it. */
  lemma {:induction false} ExtractsByCount(before: string, rest: string, open: char, close: char)
    requires forall i :: 0 <= i < |before| ==> before[i] != '{' && before[i] != '['
    requires rest != "" && rest[0] == open && '"' !in rest && ((open == '{' && close == '}') || (open == '[' && close == ']'))
    ensures forall n: nat :: BalancesFirstAt(open, close, rest, n) ==> Extracted(before + rest) == Some(rest[..n])
    ensures (forall n: nat :: !BalancesFirstAt(open, close, rest, n)) ==> Extracted(before + rest) == None
  {
    var text, start, k := before + rest, |before|, if open == '{' then Braces else Brackets;
    assert text[start] == open && open == Opener(k) && close == Closer(k);
    assert FirstOpener(text) == start && KindAt(text, start) == k;
    forall n: nat | BalancesFirstAt(open, close, rest, n)
      ensures Extracted(text) == Some(rest[..n])
    {
      CountedSpan(text, start, rest, k, n);
    }
    if forall n: nat :: !BalancesFirstAt(open, close, rest, n) {
      forall end: nat
        ensures !ClosesAt(text, start, end)
      {
        if start <= end <= |text| {
          NeverBalances(open, close, rest, end - start);
          ClosesByCount(text, start, rest, k, end - start);
        }
      }
      hide FirstOpener, ClosesAt;
      assert Extracts(text, None);
    }
  }

  lemma {:induction false} NeverBalances(open: char, close: char, rest: string, n: nat)
    requires forall m: nat :: !BalancesFirstAt(open, close, rest, m)
    ensures forall m :: 0 < m <= n && m <= |rest| ==> Balance(open, close, rest[..m]) != 0
  {
    if n > 0 {
      NeverBalances(open, close, rest, n - 1);
      assert !BalancesFirstAt(open, close, rest, n);
    }
  }

  lemma {:induction false} ClosesByCount(text: string, start: nat, rest: string, k: Kind, n: nat)
    requires start < |text| && text[start..] == rest && KindAt(text, start) == k && rest[0] == Opener(k) && '"' !in rest
    requires n <= |rest| && forall m :: 0 < m < n ==> Balance(Opener(k), Closer(k), rest[..m]) != 0
    ensures ClosesAt(text, start, start + n) <==> n > 0 && Balance(Opener(k), Closer(k), rest[..n]) == 0
  {
    assert text[start..start + n] == rest[..n];
    if n > 0 {
      RunCounts(k, rest, n);
    } else {
      RunNothing(k, text, start);
    }
    hide Run, Balance;
  }

  lemma {:induction false} CountedSpan(text: string, start: nat, rest: string, k: Kind, n: nat)
    requires start < |text| && text[start..] == rest && FirstOpener(text) == start && KindAt(text, start) == k
    requires rest[0] == Opener(k) && '"' !in rest && BalancesFirstAt(Opener(k), Closer(k), rest, n)
    ensures Extracted(text) == Some(rest[..n])
  {
    forall end: nat | start <= end <= start + n
      ensures ClosesAt(text, start, end) <==> end == start + n
    {
      ClosesByCount(text, start, rest, k, end - start);
    }
    hide ClosesAt, Extracted, FirstOpener;
    assert text[start..start + n] == rest[..n];
    OneSpan(text, start, n);
  }

  // ---- code fences ----

  predicate FenceAt(text: string, i: nat) {
    i + 3 <= |text| && text[i] == '`' && text[i + 1] == '`' && text[i + 2] == '`'
  }

  /** A fence is three back quotes; a tag is the word in small or in capital letters. */
  lemma {:induction false} FencesAndTags(text: string, a: string, mark: string, b: string)
    requires text == a + mark + b
    ensures mark == "```" ==> FenceAt(text, |a|)
    ensures |mark| == 3 && FenceAt(text, |a|) ==> mark == "```"
    ensures mark == "json" || mark == "JSON" ==> TagAt(text, |a|)
    ensures |mark| == 4 && TagAt(text, |a|) ==> mark == "json" || mark == "JSON"
  {
    assert text[|a|..|a| + |mark|] == mark;
    assert forall i :: 0 <= i < |mark| ==> text[|a| + i] == mark[i];
  }

  /** The first fence at or after `from`, or the length. */
  function FirstFence(text: string, from: nat): (i: nat)
    requires from <= |text|
    ensures from <= i <= |text|
    ensures i < |text| ==> FenceAt(text, i)
    ensures forall j :: from <= j < i ==> !FenceAt(text, j)
    decreases |text| - from
  {
    if from == |text| || FenceAt(text, from) then from else FirstFence(text, from + 1)
  }

  predicate TagAt(text: string, i: nat) {
    i + 4 <= |text| && (text[i..i + 4] == "json" || text[i..i + 4] == "JSON")
  }

  function SkipSpace(text: string, i: nat): (p: nat)
    requires i <= |text|
    ensures i <= p <= |text|
    ensures forall j :: i <= j < p ==> Tokens.IsSpace(text[j])
    decreases |text| - i
  {
    if i < |text| && Tokens.IsSpace(text[i]) then SkipSpace(text, i + 1) else i
  }

  /** Where the fenced text starts: after the fence, its tag and white space. */
  function AfterFence(text: string, i: nat): (p: nat)
    requires FenceAt(text, i)
    ensures i + 3 <= p <= |text|
    ensures forall j :: i + 3 <= j < p ==> text[j] != '`'
  {
    var q := if TagAt(text, i + 3) then i + 7 else i + 3;
    assert TagAt(text, i + 3) ==> forall j :: i + 3 <= j < i + 7 ==> text[j] == text[i + 3..i + 7][j - (i + 3)];
    SkipSpace(text, q)
  }

  /** `_strip_fences`. Only the first fence can open a match, as `FirstFenceDecides` shows. */
  function StripFences(text: string): string {
    var open := FirstFence(text, 0);
    if open == |text| then Tokens.Strip(text)
    else
      var from := AfterFence(text, open);
      var close := FirstFence(text, from);
      if close == |text| then Tokens.Strip(text) else Tokens.Strip(text[from..close])
  }

  /** When some fence is followed by a closing one, the first fence is. */
  lemma {:induction false} FirstFenceDecides(text: string, i: nat, close: nat)
    requires FenceAt(text, i) && FenceAt(text, close) && i + 3 <= close
    ensures var first := FirstFence(text, 0);
      first < |text| && FirstFence(text, AfterFence(text, first)) < |text|
  {
    var first := FirstFence(text, 0);
    assert first <= i;
    var from := AfterFence(text, first);
    assert !(first + 3 <= i < from) && !(first + 3 <= close < from);
  }

  lemma {:induction false} StripSkips(text: string, k: nat)
    requires k <= |text| && forall j :: 0 <= j < k ==> Tokens.IsSpace(text[j])
    ensures Tokens.Strip(text[k..]) == Tokens.Strip(text)
  {
    if k > 0 {
      assert text[1..][k - 1..] == text[k..];
      StripSkips(text[1..], k - 1);
    }
  }

  /** The text between two fences, tagged or not, is what remains of it. */
  lemma {:induction false} FencedText(before: string, tag: string, inside: string, after: string)
    requires tag == "" || tag == "json" || tag == "JSON"
    requires var text := before + "```" + tag + inside + "```" + after;
      && FirstFence(text, 0) == |before|
      && FirstFence(text, |before| + 3 + |tag|) == |before| + 3 + |tag| + |inside|
      && (tag == "" ==> !TagAt(text, |before| + 3))
    ensures StripFences(before + "```" + tag + inside + "```" + after) == Tokens.Strip(inside)
  {
    var text := before + "```" + tag + inside + "```" + after;
    var start, close := |before| + 3 + |tag|, |before| + 3 + |tag| + |inside|;
    assert text[|before| + 3..start] == tag && text[start..close] == inside && text[close] == '`';
    hide Tokens.Strip, StripFences, FirstFence;
    FencedSlice(text, |before|, start, close);
  }

  lemma {:induction false} FencedSlice(text: string, open: nat, start: nat, close: nat)
    requires open < |text| && FirstFence(text, 0) == open && FenceAt(text, open)
    requires start == if TagAt(text, open + 3) then open + 7 else open + 3
    requires start <= close < |text| && FirstFence(text, start) == close
    ensures StripFences(text) == Tokens.Strip(text[start..close])
  {
    hide *;
    var from := CloseIsKept(text, open, start, close);
    FencedMeans(text, open, from, close);
    var inside := text[start..close];
    assert inside[from - start..] == text[from..close];
    assert forall j :: 0 <= j < from - start ==> inside[j] == text[start + j];
    StripSkips(inside, from - start);
  }

  lemma {:induction false} CloseIsKept(text: string, open: nat, start: nat, close: nat) returns (from: nat)
    requires FenceAt(text, open) && start == if TagAt(text, open + 3) then open + 7 else open + 3
    requires start <= close < |text| && FirstFence(text, start) == close
    ensures from == AfterFence(text, open) && start <= from <= close && FirstFence(text, from) == close
    ensures forall j :: start <= j < from ==> Tokens.IsSpace(text[j])
  {
    hide FirstFence, Tokens.IsSpace;
    from := AfterFence(text, open);
    assert from == SkipSpace(text, start);
    hide SkipSpace, AfterFence, TagAt;
    assert text[close] == '`';
    assert !(start <= close < from);
    FirstFenceFrom(text, start, from);
  }

  lemma {:induction false} FencedMeans(text: string, open: nat, from: nat, close: nat)
    requires FenceAt(text, open) && FirstFence(text, 0) == open && from == AfterFence(text, open)
    requires from <= close < |text| && FirstFence(text, from) == close
    ensures StripFences(text) == Tokens.Strip(text[from..close])
  {
    hide FirstFence, AfterFence, Tokens.Strip;
  }

  lemma {:induction false} FirstFenceFrom(text: string, i: nat, j: nat)
    requires i <= |text| && i <= j <= FirstFence(text, i)
    ensures FirstFence(text, j) == FirstFence(text, i)
  {
  }

  // ---- the candidates ----

  /** What the JSON reader returns, as far as the shape check looks into it. */
  datatype Loaded =
    | Mapping(keys: set<string>, body: string)
    | Listing(body: string)
    | Other(body: string)

  datatype Shape = AnyShape | ObjectShape | ArrayShape

  datatype Schema = Schema(shape: Shape, required: seq<string>)

  datatype Failure =
    | EmptyOutput
    | NoJson
    | Unreadable(reason: string)
    | WrongShape
    | MissingKeys(keys: seq<string>)

  function Missing(required: seq<string>, keys: set<string>): seq<string> {
    if required == [] then []
    else (if required[0] in keys then [] else [required[0]]) + Missing(required[1..], keys)
  }

  /** `_validate` */
  function Validate(obj: Loaded, schema: Schema): Option<Failure> {
    if schema.shape == ObjectShape && !obj.Mapping? then Some(WrongShape)
    else if schema.shape == ArrayShape && !obj.Listing? then Some(WrongShape)
    else if schema.shape == ObjectShape && Missing(schema.required, obj.keys) != [] then
      Some(MissingKeys(Missing(schema.required, obj.keys)))
    else None
  }

  type Reader = string -> Result<Loaded, string>

  /** One candidate: read, then checked for its shape. */
  function Judge(loads: Reader, schema: Schema, cand: string): Result<Loaded, Failure> {
    match loads(cand)
    case Err(reason) => Err(Unreadable(reason))
    case Ok(obj) =>
      match Validate(obj, schema)
      case Some(e) => Err(e)
      case None => Ok(obj)
  }

  ghost function Candidates(raw: string): seq<string> {
    var stripped, fenced := Tokens.Strip(raw), StripFences(raw);
    var balanced := Extracted(if fenced != "" then fenced else stripped);
    [stripped] + (if fenced != "" && fenced != stripped then [fenced] else [])
    + (if balanced.Some? && balanced.value != "" then [balanced.value] else [])
  }

  /** The first candidate that can be read and has the right shape, or the complaint about
      the last one. */
  ghost predicate IsFirstAccepted(cands: seq<string>, loads: Reader, schema: Schema, r: Result<Loaded, Failure>) {
    if r.Ok? then
      exists k :: 0 <= k < |cands| && Judge(loads, schema, cands[k]) == r
                  && forall j :: 0 <= j < k ==> Judge(loads, schema, cands[j]).Err?
    else
      && (forall k :: 0 <= k < |cands| ==> Judge(loads, schema, cands[k]).Err?)
      && r == if cands != [] then Judge(loads, schema, cands[|cands| - 1]) else Err(NoJson)
  }

  ghost predicate IsParse(raw: string, loads: Reader, schema: Schema, r: Result<Loaded, Failure>) {
    if Tokens.Strip(raw) == "" then r == Err(EmptyOutput)
    else IsFirstAccepted(Candidates(raw), loads, schema, r)
  }

  /** `parse_json_output`. `NoJson` is never the answer: there is always a candidate. */
  method ParseJsonOutput(raw: string, loads: Reader, schema: Schema) returns (r: Result<Loaded, Failure>)
    ensures IsParse(raw, loads, schema, r)
  {
    var stripped := Tokens.Strip(raw);
    if stripped == "" {
      return Err(EmptyOutput);
    }
    var cands := [stripped];
    var fenced := StripFences(raw);
    if fenced != "" && fenced != stripped {
      cands := cands + [fenced];
    }
    var balanced := ExtractBalanced(if fenced != "" then fenced else stripped);
    if balanced.Some? && balanced.value != "" {
      cands := cands + [balanced.value];
    }
    assert cands == Candidates(raw);
    hide *;
    r := FirstAccepted(cands, loads, schema);
    ParseMeans(raw, loads, schema, r);
  }

  lemma {:induction false} ParseMeans(raw: string, loads: Reader, schema: Schema, r: Result<Loaded, Failure>)
    requires Tokens.Strip(raw) != "" && IsFirstAccepted(Candidates(raw), loads, schema, r)
    ensures IsParse(raw, loads, schema, r)
  {
  }

  /** The loop over the candidates. */
  method FirstAccepted(cands: seq<string>, loads: Reader, schema: Schema) returns (r: Result<Loaded, Failure>)
    ensures IsFirstAccepted(cands, loads, schema, r)
  {
    var lastErr := NoJson;
    hide Judge;
    for k := 0 to |cands|
      invariant forall j :: 0 <= j < k ==> Judge(loads, schema, cands[j]).Err?
      invariant Err(lastErr) == if k > 0 then Judge(loads, schema, cands[k - 1]) else Err(NoJson)
    {
      var judged := Try(loads, schema, cands[k]);
      if judged.Ok? {
        return judged;
      }
      lastErr := judged.error;
    }
    return Err(lastErr);
  }

  method Try(loads: Reader, schema: Schema, cand: string) returns (r: Result<Loaded, Failure>)
    ensures r == Judge(loads, schema, cand)
  {
    var loaded := loads(cand);
    if loaded.Err? {
      return Err(Unreadable(loaded.error));
    }
    var shapeErr := Validate(loaded.value, schema);
    if shapeErr.Some? {
      return Err(shapeErr.value);
    }
    return Ok(loaded.value);
  }

  // ---- what a caller gets ----

  lemma {:induction false} StripAround(before: string, core: string, suffix: string) returns (b: string, s: string)
    requires core != "" && !Tokens.IsSpace(core[0]) && !Tokens.IsSpace(core[|core| - 1])
    ensures Tokens.Strip(before + core + suffix) == b + core + s
    ensures forall i :: 0 <= i < |b| ==> b[i] in before
    decreases |before| + |suffix|
  {
    var text := before + core + suffix;
    b, s := before, suffix;
    if before != "" && Tokens.IsSpace(before[0]) {
      assert text[1..] == before[1..] + core + suffix;
      b, s := StripAround(before[1..], core, suffix);
    } else if suffix != "" && Tokens.IsSpace(suffix[|suffix| - 1]) {
      assert text[..|text| - 1] == before + core + suffix[..|suffix| - 1];
      assert text[0] == if before != "" then before[0] else core[0];
      b, s := StripAround(before, core, suffix[..|suffix| - 1]);
    } else {
      assert text[0] == if before != "" then before[0] else core[0];
      assert text[|text| - 1] == if suffix != "" then suffix[|suffix| - 1] else core[|core| - 1];
    }
  }

  /** A printed value inside the text that is searched is among the candidates. */
  lemma {:induction false} PrintedIsCandidate(raw: string, before: string, v: Value, suffix: string)
    requires StripFences(raw) == Tokens.Strip(before + Print(v) + suffix)
    requires forall i :: 0 <= i < |before| ==> !IsOpener(before[i])
    requires Valid(v) && (v.Array? || v.Object?)
    ensures Candidates(raw)[|Candidates(raw)| - 1] == Print(v)
  {
    PrintedEnds(v);
    var b, s := StripAround(before, Print(v), suffix);
    assert forall i :: 0 <= i < |b| ==> !IsOpener(b[i]);
    ExtractsPrinted(b, v, s);
  }

  /** A readable value wrapped in chatter is found, unless an earlier candidate was already
      acceptable. `FencedText` gives the first hypothesis for a fenced answer, `Unfenced` for
      one without fences. */
  lemma {:induction false} ChatterIsRecovered(raw: string, before: string, v: Value, suffix: string,
                                              loads: Reader, schema: Schema, r: Result<Loaded, Failure>)
    requires StripFences(raw) == Tokens.Strip(before + Print(v) + suffix) && Tokens.Strip(raw) != ""
    requires forall i :: 0 <= i < |before| ==> !IsOpener(before[i])
    requires Valid(v) && (v.Array? || v.Object?)
    requires Judge(loads, schema, Print(v)).Ok? && IsParse(raw, loads, schema, r)
    ensures r.Ok?
    ensures Judge(loads, schema, Tokens.Strip(raw)).Err? && Judge(loads, schema, StripFences(raw)).Err?
            ==> r == Judge(loads, schema, Print(v))
  {
    hide *;
    PrintedIsCandidate(raw, before, v, suffix);
    CandidateKinds(raw);
    ParseIsFirst(raw, loads, schema, r);
    LastAccepted(Candidates(raw), loads, schema, r, Tokens.Strip(raw), StripFences(raw), Print(v));
  }

  lemma {:induction false} ParseIsFirst(raw: string, loads: Reader, schema: Schema, r: Result<Loaded, Failure>)
    requires Tokens.Strip(raw) != "" && IsParse(raw, loads, schema, r)
    ensures IsFirstAccepted(Candidates(raw), loads, schema, r)
  {
  }

  lemma {:induction false} CandidateKinds(raw: string)
    ensures var cands := Candidates(raw);
      cands != [] && forall k :: 0 <= k < |cands| - 1 ==> cands[k] == Tokens.Strip(raw) || cands[k] == StripFences(raw)
  {
    hide StripFences, Tokens.Strip, Extracted;
  }

  lemma {:induction false} LastAccepted(cands: seq<string>, loads: Reader, schema: Schema, r: Result<Loaded, Failure>,
                                        a: string, b: string, last: string)
    requires cands != [] && cands[|cands| - 1] == last && Judge(loads, schema, last).Ok?
    requires forall k :: 0 <= k < |cands| - 1 ==> cands[k] == a || cands[k] == b
    requires IsFirstAccepted(cands, loads, schema, r)
    ensures r.Ok?
    ensures Judge(loads, schema, a).Err? && Judge(loads, schema, b).Err? ==> r == Judge(loads, schema, last)
  {
    hide Judge;
  }

  /** Without a fence that another one closes, the whole text remains. */
  lemma {:induction false} Unfenced(raw: string)
    requires forall i, j :: FenceAt(raw, i) && FenceAt(raw, j) ==> j < i + 3
    ensures StripFences(raw) == Tokens.Strip(raw)
  {
    var open := FirstFence(raw, 0);
    if open < |raw| {
      var from := AfterFence(raw, open);
      assert FenceAt(raw, open) && !FenceAt(raw, FirstFence(raw, from));
    }
    hide Tokens.Strip;
  }

  /** When a candidate is acceptable, and what is said about it when it is not: it cannot be read,
      it has the wrong shape, or an object lacks required keys. */
  lemma {:induction false} JudgedBy(loads: Reader, schema: Schema, cand: string)
    ensures var (read, r) := (loads(cand), Judge(loads, schema, cand));
      && (read.Err? ==> r == Err(Unreadable(read.error)))
      && (read.Ok? ==>
          var obj := read.value;
          var fits := (schema.shape == ObjectShape ==> obj.Mapping?) && (schema.shape == ArrayShape ==> obj.Listing?);
          && (!fits ==> r == Err(WrongShape))
          && (fits && schema.shape == ObjectShape && (exists key :: key in schema.required && key !in obj.keys) ==>
              r.Err? && r.error.MissingKeys? && forall key :: key in r.error.keys <==> key in schema.required && key !in obj.keys)
          && (fits && (schema.shape == ObjectShape ==> forall key :: key in schema.required ==> key in obj.keys) ==> r == Ok(obj)))
  {
    var read := loads(cand);
    if read.Ok? && read.value.Mapping? {
      MissingAre(schema.required, read.value.keys);
    }
    hide Missing;
  }

  lemma {:induction false} MissingAre(required: seq<string>, keys: set<string>)
    ensures forall key :: key in Missing(required, keys) <==> key in required && key !in keys
    ensures Missing(required, keys) != [] ==> Missing(required, keys)[0] in Missing(required, keys)
  {
    if required != [] {
      MissingAre(required[1..], keys);
      assert required == [required[0]] + required[1..];
    }
  }

  /** The order in which an answer is looked for: the stripped text, what is between the fences,
      the first balanced span of that; the last of these that there is gives the complaint. */
  lemma {:induction false} ParsesInOrder(raw: string, loads: Reader, schema: Schema, r: Result<Loaded, Failure>)
    requires IsParse(raw, loads, schema, r)
    ensures var (a, b) := (Tokens.Strip(raw), StripFences(raw));
      var span := Extracted(if b != "" then b else a);
      var (first, second) := (Judge(loads, schema, a), Judge(loads, schema, b));
      if a == "" then r == Err(EmptyOutput)
      else if first.Ok? then r == first
      else if b != "" && second.Ok? then r == second
      else if span.Some? then r == Judge(loads, schema, span.value)
      else if b != "" then r == second
      else r == first
  {
    var a, b := Tokens.Strip(raw), StripFences(raw);
    if a != "" {
      var span := Extracted(if b != "" then b else a);
      SpanNotEmpty(if b != "" then b else a);
      assert Candidates(raw) == [a] + (if b != "" && b != a then [b] else []) + (if span.Some? then [span.value] else []);
      hide *;
      ParseIsFirst(raw, loads, schema, r);
      InOrder(loads, schema, r, a, if b != "" && b != a then Some(b) else None, span);
    }
  }

  lemma {:induction false} SpanNotEmpty(text: string)
    ensures Extracted(text) != Some("")
  {
    var start := FirstOpener(text);
    if start < |text| {
      RunNothing(KindAt(text, start), text, start);
    }
    hide FirstOpener, Run;
  }

  lemma {:induction false} InOrder(loads: Reader, schema: Schema, r: Result<Loaded, Failure>, a: string, b: Option<string>,
                                   c: Option<string>)
    requires var cands := [a] + (if b.Some? then [b.value] else []) + (if c.Some? then [c.value] else []);
      IsFirstAccepted(cands, loads, schema, r)
    ensures if Judge(loads, schema, a).Ok? then r == Judge(loads, schema, a)
            else if b.Some? && Judge(loads, schema, b.value).Ok? then r == Judge(loads, schema, b.value)
            else if c.Some? then r == Judge(loads, schema, c.value)
            else if b.Some? then r == Judge(loads, schema, b.value)
            else r == Judge(loads, schema, a)
  {
    hide Judge;
    var cands := [a] + (if b.Some? then [b.value] else []) + (if c.Some? then [c.value] else []);
    assert cands[0] == a && (b.Some? ==> cands[1] == b.value) && (c.Some? ==> cands[|cands| - 1] == c.value);
    assert c.Some? ==> |cands| == (if b.Some? then 3 else 2);
  }
}
