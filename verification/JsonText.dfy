/** JSON texts as section 2 to section 7 of RFC 8259 define them, with all their white space. */
module JsonText {

  /** One character of a string literal: itself, a two-character escape, or four hex digits. */
  datatype StringChar = Plain(c: char) | Escaped(c: char) | Unicode(h0: char, h1: char, h2: char, h3: char)

  datatype Number = Number(negative: bool, integer: string, fraction: string, exponent: string)

  datatype Value =
    | True | False | Null
    | Numeral(number: Number)
    | Text(chars: seq<StringChar>)
    | Array(lead: string, items: seq<Item>)
    | Object(lead: string, members: seq<Member>)

  datatype Item = Item(before: string, value: Value, after: string)

  datatype Member = Member(before: string, key: seq<StringChar>, gap: string, pad: string, value: Value, after: string)

  // ---------------------------------------------------------------- validity

  predicate IsWs(s: string) {
    forall i :: 0 <= i < |s| ==> s[i] == ' ' || s[i] == '\t' || s[i] == '\n' || s[i] == '\r'
  }

  predicate IsDigit(c: char) {
    '0' <= c <= '9'
  }

  predicate IsHex(c: char) {
    IsDigit(c) || 'a' <= c <= 'f' || 'A' <= c <= 'F'
  }

  predicate Digits(s: string) {
    s != [] && forall i :: 0 <= i < |s| ==> IsDigit(s[i])
  }

  predicate ValidChar(c: StringChar) {
    match c
    case Plain(c) => c >= ' ' && c != '"' && c != '\\'
    case Escaped(c) => c in ['"', '\\', '/', 'b', 'f', 'n', 'r', 't']
    case Unicode(h0, h1, h2, h3) => IsHex(h0) && IsHex(h1) && IsHex(h2) && IsHex(h3)
  }

  predicate ValidString(chars: seq<StringChar>) {
    forall i :: 0 <= i < |chars| ==> ValidChar(chars[i])
  }

  /** No leading zero; a fraction is a point and digits, an exponent an `e`, a sign and digits. */
  predicate ValidNumber(n: Number) {
    && Digits(n.integer) && (|n.integer| > 1 ==> n.integer[0] != '0')
    && (n.fraction == [] || (n.fraction[0] == '.' && Digits(n.fraction[1..])))
    && (n.exponent == []
        || (|n.exponent| >= 2 && n.exponent[0] in ['e', 'E']
            && (if n.exponent[1] in ['+', '-'] then Digits(n.exponent[2..]) else Digits(n.exponent[1..]))))
  }

  predicate Valid(v: Value)
    decreases v
  {
    match v
    case True => true
    case False => true
    case Null => true
    case Numeral(n) => ValidNumber(n)
    case Text(chars) => ValidString(chars)
    case Array(lead, items) => IsWs(lead) && forall i :: 0 <= i < |items| ==> ValidItem(items[i])
    case Object(lead, members) => IsWs(lead) && forall i :: 0 <= i < |members| ==> ValidMember(members[i])
  }

  predicate ValidItem(item: Item)
    decreases item
  {
    IsWs(item.before) && Valid(item.value) && IsWs(item.after)
  }

  predicate ValidMember(m: Member)
    decreases m
  {
    IsWs(m.before) && ValidString(m.key) && IsWs(m.gap) && IsWs(m.pad) && Valid(m.value) && IsWs(m.after)
  }

  // ---------------------------------------------------------------- text

  function CharText(c: StringChar): string {
    match c
    case Plain(c) => [c]
    case Escaped(c) => ['\\', c]
    case Unicode(h0, h1, h2, h3) => ['\\', 'u', h0, h1, h2, h3]
  }

  function CharsText(chars: seq<StringChar>): string {
    if chars == [] then [] else CharText(chars[0]) + CharsText(chars[1..])
  }

  function StringText(chars: seq<StringChar>): string {
    ['"'] + CharsText(chars) + ['"']
  }

  function NumberText(n: Number): string {
    (if n.negative then ['-'] else []) + n.integer + n.fraction + n.exponent
  }

  function TextOf(v: Value): string
    decreases v
  {
    match v
    case True => "true"
    case False => "false"
    case Null => "null"
    case Numeral(n) => NumberText(n)
    case Text(chars) => StringText(chars)
    case Array(lead, items) => ['['] + (lead + ItemsText(items)) + [']']
    case Object(lead, members) => ['{'] + (lead + MembersText(members)) + ['}']
  }

  function ItemText(item: Item): string
    decreases item
  {
    item.before + TextOf(item.value) + item.after
  }

  function ItemsText(items: seq<Item>): string
    decreases items
  {
    if items == [] then []
    else if |items| == 1 then ItemText(items[0])
    else ItemText(items[0]) + ([','] + ItemsText(items[1..]))
  }

  function MemberText(m: Member): string
    decreases m
  {
    m.before + StringText(m.key) + m.gap + [':'] + m.pad + TextOf(m.value) + m.after
  }

  function MembersText(members: seq<Member>): string
    decreases members
  {
    if members == [] then []
    else if |members| == 1 then MemberText(members[0])
    else MemberText(members[0]) + ([','] + MembersText(members[1..]))
  }
}
