/**
  JSON texts as sections 2 to 7 of RFC 8259 define them, written down without
  reference to any reader: a document is a tree that records its spelling (its
  white space and its escapes), it prints to one text, and it means one value.
*/
module JsonSyntax {
  import opened Utf8

  /** A UTF-16 code unit: what one \uXXXX escape denotes. */
  type Unit = u: int | 0 <= u < 0x10000

  type Units = seq<Unit>

  datatype Field = Field(key: Units, value: Json)

  /** A JSON value. Numbers stay as their spelling; the members of an object
      stay in the order they were read. */
  datatype Json =
    | Null
    | Bool(b: bool)
    | Number(token: Text)
    | String(units: Units)
    | Array(items: seq<Json>)
    | Object(fields: seq<Field>)

  // ----- strings

  /** One character of a string body, as it is spelled. */
  datatype Piece = Raw(c: char) | Short(e: char) | Hex(digits: Text)

  const QUOTE := '\"'
  const BACKSLASH := '\\'
  const SHORT_ESCAPES: Text := "\"\\/bfnrt"

  predicate IsHex(c: char) {
    '0' <= c <= '9' || 'a' <= c <= 'f' || 'A' <= c <= 'F'
  }

  predicate PieceOk(p: Piece) {
    match p
    case Raw(c) => c != QUOTE && c != BACKSLASH && ' ' <= c
    case Short(e) => e in SHORT_ESCAPES
    case Hex(d) => |d| == 4 && forall i | 0 <= i < 4 :: IsHex(d[i])
  }

  predicate PiecesOk(ps: seq<Piece>) {
    forall i | 0 <= i < |ps| :: PieceOk(ps[i])
  }

  function PieceSource(p: Piece): Text {
    match p
    case Raw(c) => [c]
    case Short(e) => [BACKSLASH, e]
    case Hex(d) => [BACKSLASH, 'u'] + d
  }

  /** The source text of a string body. */
  function Source(ps: seq<Piece>): Text {
    if ps == [] then [] else PieceSource(ps[0]) + Source(ps[1..])
  }

  /** How many characters of the body are spelled without an escape. */
  function RunLength(ps: seq<Piece>): nat {
    if ps == [] then 0 else (if ps[0].Raw? then 1 else 0) + RunLength(ps[1..])
  }

  function Utf16(c: char): Units {
    var v := c as int;
    if v < 0x10000 then [v] else [0xD800 + (v - 0x10000) / 1024, 0xDC00 + (v - 0x10000) % 1024]
  }

  function HexValue(c: char): (v: nat)
    ensures v < 16
  {
    if '0' <= c <= '9' then c as int - '0' as int
    else if 'a' <= c <= 'f' then c as int - 'a' as int + 10
    else if 'A' <= c <= 'F' then c as int - 'A' as int + 10
    else 0
  }

  function HexUnit(d: Text): Unit
    requires |d| == 4
  {
    HexValue(d[0]) * 4096 + HexValue(d[1]) * 256 + HexValue(d[2]) * 16 + HexValue(d[3])
  }

  function ShortUnit(e: char): Unit {
    match e
    case 'b' => 8
    case 't' => 9
    case 'n' => 10
    case 'f' => 12
    case 'r' => 13
    case _ => if (e as int) < 0x10000 then e as int else 0
  }

  function PieceMeaning(p: Piece): Units {
    match p
    case Raw(c) => Utf16(c)
    case Short(e) => [ShortUnit(e)]
    case Hex(d) => if |d| == 4 then [HexUnit(d)] else []
  }

  function Meaning(ps: seq<Piece>): Units {
    if ps == [] then [] else PieceMeaning(ps[0]) + Meaning(ps[1..])
  }

  // ----- numbers

  /** A number as section 6 of RFC 8259 builds it. */
  datatype NumberParts = NumberParts(minus: bool, whole: Text, fraction: Text, exponent: Exponent)
  datatype Exponent = NoExponent | Exponent(e: char, sign: Text, digits: Text)

  predicate IsDigit(c: char) {
    '0' <= c <= '9'
  }

  predicate AllDigits(s: Text) {
    forall i | 0 <= i < |s| :: IsDigit(s[i])
  }

  predicate WholeOk(s: Text) {
    s != [] && AllDigits(s) && (s[0] == '0' ==> |s| == 1)
  }

  predicate ExponentOk(e: Exponent) {
    e.Exponent? ==> e.e in "eE" && e.sign in {"", "+", "-"} && e.digits != [] && AllDigits(e.digits)
  }

  /** An absent fraction is the empty text. */
  predicate NumberOk(n: NumberParts) {
    WholeOk(n.whole) && AllDigits(n.fraction) && ExponentOk(n.exponent)
  }

  function PrintExponent(e: Exponent): Text {
    match e
    case NoExponent => []
    case Exponent(e, sign, digits) => [e] + sign + digits
  }

  function PrintFraction(n: NumberParts): Text {
    (if n.fraction == [] then [] else ['.'] + n.fraction) + PrintExponent(n.exponent)
  }

  function PrintNumber(n: NumberParts): Text {
    if n.minus then ['-'] + (n.whole + PrintFraction(n)) else n.whole + PrintFraction(n)
  }

  // ----- documents

  /** A value with the white space in front of it. */
  datatype Doc = Doc(space: Text, core: Core)
  datatype Core =
    | Word(token: Text)
    | Quoted(body: seq<Piece>)
    | EmptyArray(space: Text)
    | NonEmptyArray(items: Items)
    | EmptyObject(space: Text)
    | NonEmptyObject(members: Members)
  /** Each item and member carries the white space behind it. */
  datatype Items = LastItem(item: Doc, after: Text) | MoreItems(item: Doc, after: Text, tail: Items)
  datatype Members = LastMember(m: Member, after: Text) | MoreMembers(m: Member, after: Text, tail: Members)
  datatype Member = Member(before: Text, key: seq<Piece>, mid: Text, value: Doc)

  const SPACES: Text := " \r\n\t"

  predicate IsSpace(s: Text) {
    forall i | 0 <= i < |s| :: s[i] in SPACES
  }

  /** The text of a document followed by `rest`. */
  function Print(d: Doc, rest: Text): Text {
    d.space + PrintCore(d.core, rest)
  }

  function PrintCore(c: Core, rest: Text): Text {
    match c
    case Word(token) => token + rest
    case Quoted(body) => PrintString(body, rest)
    case EmptyArray(space) => ['['] + (space + ([']'] + rest))
    case NonEmptyArray(items) => ['['] + PrintItems(items, rest)
    case EmptyObject(space) => ['{'] + (space + (['}'] + rest))
    case NonEmptyObject(members) => ['{'] + PrintMembers(members, rest)
  }

  function PrintString(body: seq<Piece>, rest: Text): Text {
    [QUOTE] + (Source(body) + ([QUOTE] + rest))
  }

  function PrintItems(items: Items, rest: Text): Text {
    match items
    case LastItem(item, after) => Print(item, after + ([']'] + rest))
    case MoreItems(item, after, tail) => Print(item, after + ([','] + PrintItems(tail, rest)))
  }

  function PrintMember(m: Member, rest: Text): Text {
    m.before + PrintString(m.key, m.mid + ([':'] + Print(m.value, rest)))
  }

  function PrintMembers(members: Members, rest: Text): Text {
    match members
    case LastMember(m, after) => PrintMember(m, after + (['}'] + rest))
    case MoreMembers(m, after, tail) => PrintMember(m, after + ([','] + PrintMembers(tail, rest)))
  }

  // ----- what a spelling may be

  const WORDS: set<Text> := {"true", "false", "null"}

  ghost predicate WordOk(token: Text) {
    token in WORDS || exists n :: NumberOk(n) && PrintNumber(n) == token
  }

  ghost predicate SpelledOk(d: Doc) {
    IsSpace(d.space) && CoreSpelledOk(d.core)
  }

  ghost predicate CoreSpelledOk(c: Core) {
    match c
    case Word(token) => WordOk(token)
    case Quoted(body) => PiecesOk(body)
    case EmptyArray(space) => IsSpace(space)
    case NonEmptyArray(items) => ItemsSpelledOk(items)
    case EmptyObject(space) => IsSpace(space)
    case NonEmptyObject(members) => MembersSpelledOk(members)
  }

  ghost predicate ItemsSpelledOk(items: Items) {
    match items
    case LastItem(item, after) => SpelledOk(item) && IsSpace(after)
    case MoreItems(item, after, tail) => SpelledOk(item) && IsSpace(after) && ItemsSpelledOk(tail)
  }

  ghost predicate MemberSpelledOk(m: Member) {
    IsSpace(m.before) && PiecesOk(m.key) && IsSpace(m.mid) && SpelledOk(m.value)
  }

  ghost predicate MembersSpelledOk(members: Members) {
    match members
    case LastMember(m, after) => MemberSpelledOk(m) && IsSpace(after)
    case MoreMembers(m, after, tail) => MemberSpelledOk(m) && IsSpace(after) && MembersSpelledOk(tail)
  }

  // ----- what a document means

  function WordMeaning(token: Text): Json {
    if token == "null" then Null
    else if token == "true" then Bool(true)
    else if token == "false" then Bool(false)
    else Number(token)
  }

  function Denote(d: Doc): Json {
    DenoteCore(d.core)
  }

  function DenoteCore(c: Core): Json {
    match c
    case Word(token) => WordMeaning(token)
    case Quoted(body) => String(Meaning(body))
    case EmptyArray(_) => Array([])
    case NonEmptyArray(items) => Array(DenoteItems(items))
    case EmptyObject(_) => Object([])
    case NonEmptyObject(members) => Object(DenoteMembers(members))
  }

  function DenoteItems(items: Items): seq<Json> {
    match items
    case LastItem(item, _) => [Denote(item)]
    case MoreItems(item, _, tail) => [Denote(item)] + DenoteItems(tail)
  }

  function DenoteMembers(members: Members): seq<Field> {
    match members
    case LastMember(m, _) => [Field(Meaning(m.key), Denote(m.value))]
    case MoreMembers(m, _, tail) => [Field(Meaning(m.key), Denote(m.value))] + DenoteMembers(tail)
  }
}
