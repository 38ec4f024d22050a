/** The two token forms of prompt texts, `{{ token }}` and `%%name%%`, as the regular
    expressions of the templating engine and of the migration match them. */
module Tokens {
  /** What `\s` and `str.strip` take for white space. */
  predicate IsSpace(c: char) {
    || '\U{0009}' <= c <= '\U{000D}' || '\U{001C}' <= c <= '\U{0020}' || c == '\U{0085}' || c == '\U{00A0}'
    || c == '\U{1680}' || '\U{2000}' <= c <= '\U{200A}' || c == '\U{2028}' || c == '\U{2029}'
    || c == '\U{202F}' || c == '\U{205F}' || c == '\U{3000}'
  }

  /** All of them, one by one. */
  const SPACES := "\U{0009}\U{000A}\U{000B}\U{000C}\U{000D}\U{001C}\U{001D}\U{001E}\U{001F}\U{0020}\U{0085}\U{00A0}\U{1680}"
    + "\U{2000}\U{2001}\U{2002}\U{2003}\U{2004}\U{2005}\U{2006}\U{2007}\U{2008}\U{2009}\U{200A}\U{2028}\U{2029}"
    + "\U{202F}\U{205F}\U{3000}"

  lemma {:induction false} SpacesAre(c: char)
    ensures IsSpace(c) <==> c in SPACES
  {
    assert |SPACES| == 29;
    if IsSpace(c) {
      var n := c as int;
      var k := if n <= 0x0D then n - 0x09 else if n <= 0x20 then n - 0x17 else if n == 0x85 then 10 else if n == 0xA0 then 11
               else if n == 0x1680 then 12 else if n <= 0x200A then n - 0x2000 + 13 else if n <= 0x2029 then n - 0x2028 + 24
               else if n == 0x202F then 26 else if n == 0x205F then 27 else 28;
      assert SPACES[k] == c;
    } else {
      assert forall k :: 0 <= k < 29 ==> IsSpace(SPACES[k]);
    }
  }

  function Strip(s: string): (r: string)
    ensures |r| <= |s|
    ensures forall c :: c in r ==> c in s
    decreases |s|
  {
    if s != [] && IsSpace(s[0]) then Strip(s[1..])
    else if s != [] && IsSpace(s[|s| - 1]) then Strip(s[..|s| - 1])
    else s
  }

  /** Length of the run of characters other than braces at `i`. */
  function BraceRun(text: string, i: nat): (k: nat)
    requires i <= |text|
    ensures i + k <= |text|
    ensures forall j :: i <= j < i + k ==> text[j] != '{' && text[j] != '}'
    ensures i + k < |text| ==> text[i + k] == '{' || text[i + k] == '}'
    decreases |text| - i
  {
    if i < |text| && text[i] != '{' && text[i] != '}' then 1 + BraceRun(text, i + 1) else 0
  }

  /** Length of the run of characters other than `%` and the newline at `i`. */
  function PercentRun(text: string, i: nat): (k: nat)
    requires i <= |text|
    ensures i + k <= |text|
    ensures forall j :: i <= j < i + k ==> text[j] != '%' && text[j] != '\n'
    ensures i + k < |text| ==> text[i + k] == '%' || text[i + k] == '\n'
    decreases |text| - i
  {
    if i < |text| && text[i] != '%' && text[i] != '\n' then 1 + PercentRun(text, i + 1) else 0
  }

  predicate PairAt(text: string, i: nat, c: char) {
    i + 1 < |text| && text[i] == c && text[i + 1] == c
  }

  /** A legacy token starts at `i`. The run before its closing pair cannot be shorter than the
      longest one, since no `%` occurs in it. */
  predicate LegacyAt(text: string, i: nat) {
    && PairAt(text, i, '%')
    && var k := PercentRun(text, i + 2); k > 0 && PairAt(text, i + 2 + k, '%')
  }

  function LegacyName(text: string, i: nat): string
    requires LegacyAt(text, i)
  {
    text[i + 2..i + 2 + PercentRun(text, i + 2)]
  }

  predicate BraceAt(text: string, i: nat) {
    && PairAt(text, i, '{')
    && var k := BraceRun(text, i + 2); k > 0 && PairAt(text, i + 2 + k, '}')
  }

  /** Group 1 of the brace token: the run without surrounding white space, or its last
      character when there is nothing else. */
  function BraceToken(text: string, i: nat): string
    requires BraceAt(text, i)
  {
    var run := text[i + 2..i + 2 + BraceRun(text, i + 2)];
    var inner := Strip(run);
    if inner == "" then run[|run| - 1..] else inner
  }

  datatype Match =
    | NoMatch
    | Brace(length: nat, token: string)
    | Legacy(length: nat, name: string)

  /** The match of the combined expression that starts at `i`, if any. */
  function MatchAt(text: string, i: nat): (m: Match)
    requires i < |text|
    ensures !m.NoMatch? ==> 4 < m.length && i + m.length <= |text|
  {
    if BraceAt(text, i) then Brace(BraceRun(text, i + 2) + 4, BraceToken(text, i))
    else if LegacyAt(text, i) then Legacy(PercentRun(text, i + 2) + 4, LegacyName(text, i))
    else NoMatch
  }
}
