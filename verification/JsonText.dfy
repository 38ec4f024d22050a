/** Texts of JSON values by sections 2 to 7 of RFC 8259, white space included: a value here
    is a parse tree, and `Print` gives the text it was read from. */
module JsonText {
  import opened Prelude

  datatype StringItem =
    | Plain(c: char)
    | Escape(c: char)
    | Unicode(hex: string)

  datatype Value =
    | Scalar(text: string)
    | Quoted(items: seq<StringItem>)
    | Array(elements: seq<Element>, blank: string)
    | Object(members: seq<Member>, blank: string)

  datatype Element = Element(before: string, value: Value, after: string)

  datatype Member = Member(before: string, key: seq<StringItem>, afterKey: string, element: Element)

  // ---- the grammar ----

  predicate IsBlank(s: string) {
    forall i :: 0 <= i < |s| ==> s[i] == ' ' || s[i] == '\t' || s[i] == '\n' || s[i] == '\r'
  }

  predicate ValidItem(item: StringItem) {
    match item
    case Plain(c) => c >= ' ' && c != '"' && c != '\\'
    case Escape(c) => c in "\"\\/bfnrt"
    case Unicode(hex) => |hex| == 4 && forall i :: 0 <= i < 4 ==> IsHexDigit(hex[i])
  }

  predicate ValidString(items: seq<StringItem>) {
    forall i :: 0 <= i < |items| ==> ValidItem(items[i])
  }

  /** The three literals and every text of number characters: all numbers of section 6 are
      among them. */
  predicate ValidScalar(text: string) {
    text == "null" || text == "true" || text == "false"
    || (text != "" && forall i :: 0 <= i < |text| ==> '0' <= text[i] <= '9' || text[i] in "+-.eE")
  }

  predicate Valid(v: Value) {
    match v
    case Scalar(text) => ValidScalar(text)
    case Quoted(items) => ValidString(items)
    case Array(elements, blank) => IsBlank(blank) && forall i :: 0 <= i < |elements| ==> ValidElement(elements[i])
    case Object(members, blank) => IsBlank(blank) && forall i :: 0 <= i < |members| ==> ValidMember(members[i])
  }

  predicate ValidElement(e: Element) {
    IsBlank(e.before) && Valid(e.value) && IsBlank(e.after)
  }

  predicate ValidMember(m: Member) {
    IsBlank(m.before) && ValidString(m.key) && IsBlank(m.afterKey) && ValidElement(m.element)
  }

  // ---- the text ----

  function PrintItem(item: StringItem): string {
    match item
    case Plain(c) => [c]
    case Escape(c) => ['\\', c]
    case Unicode(hex) => "\\u" + hex
  }

  function PrintItems(items: seq<StringItem>): string {
    if items == [] then "" else PrintItem(items[0]) + PrintItems(items[1..])
  }

  function PrintString(items: seq<StringItem>): string {
    "\"" + PrintItems(items) + "\""
  }

  function Print(v: Value): string
    decreases v, 1
  {
    match v
    case Scalar(text) => text
    case Quoted(items) => PrintString(items)
    case Array(elements, blank) => "[" + Inside(v) + "]"
    case Object(members, blank) => "{" + Inside(v) + "}"
  }

  /** What stands between the brackets of an array or object. */
  function Inside(v: Value): string
    requires v.Array? || v.Object?
    decreases v, 0
  {
    match v
    case Array(elements, blank) => if elements == [] then blank else PrintElements(elements)
    case Object(members, blank) => if members == [] then blank else PrintMembers(members)
  }

  function PrintElement(e: Element): string {
    e.before + Print(e.value) + e.after
  }

  function PrintElements(elements: seq<Element>): string {
    if elements == [] then ""
    else if |elements| == 1 then PrintElement(elements[0])
    else PrintElement(elements[0]) + "," + PrintElements(elements[1..])
  }

  function PrintMember(m: Member): string {
    m.before + PrintString(m.key) + m.afterKey + ":" + PrintElement(m.element)
  }

  function PrintMembers(members: seq<Member>): string {
    if members == [] then ""
    else if |members| == 1 then PrintMember(members[0])
    else PrintMember(members[0]) + "," + PrintMembers(members[1..])
  }
}
