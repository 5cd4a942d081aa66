/**
  What the plan reader computes on the whole text at once: the parser it is
  proved against, one character at a time, with every bound it enforces.
*/
module PlanParsing {
  import opened Wrappers
  import opened Utf8
  import opened JsonSyntax

  const MAX_NODES := 200000
  const MAX_KEYS := 200000
  const MAX_ITEMS := 200000
  const MAX_DEPTH := 64
  const MAX_SCALAR := 128
  const MAX_STRING := 16 * 1024 * 1024

  /** Why a reading stops. A run of plain characters that breaks the string bound
      and the retained bound at once is reported under one or the other name
      depending on where the reads cut it; RetentionBound stands for both. */
  datatype Error =
    | NodeBound | DepthBound | Syntax | KeyBound | ArrayBound | RetentionBound
    | Unterminated | UnescapedControl | InvalidEscape
    | ScalarBound | InvalidScalar | NonFinite
    | ByteBound | Encoding
    | Trailing | Changed | ObjectRequired | Oversized | Contract

  /** Which parts of a value are kept: nothing, everything, some keys of an
      object, or the same part of every item of an array. */
  datatype Selector = Skip | Keep | Keys(m: map<Units, Selector>) | Each(item: Selector)

  function KeySelector(s: Selector, key: Units): Selector {
    match s
    case Keep => Keep
    case Keys(m) => if key in m then m[key] else Skip
    case _ => Skip
  }

  function ItemSelector(s: Selector): Selector {
    match s
    case Keep => Keep
    case Each(item) => item
    case _ => Skip
  }

  /** What has been kept so far: characters of source text, and nodes. */
  datatype Tally = Tally(retained: nat, nodes: nat)

  datatype Parsed<+T> = Ok(value: T, rest: Text, tally: Tally) | Err(error: Error) {
    predicate IsFailure() { Err? }
    function PropagateFailure<U>(): Parsed<U>
      requires Err?
    {
      Err(error)
    }
    function Extract(): (T, Text, Tally)
      requires Ok?
    {
      (value, rest, tally)
    }
  }

  // ----- white space, escapes and strings

  predicate StartsWith(t: Text, c: char) {
    t != [] && t[0] == c
  }

  function SkipSpace(t: Text): (r: Text)
    ensures |r| <= |t|
    ensures r != [] ==> r[0] !in SPACES
  {
    if t != [] && t[0] in SPACES then SkipSpace(t[1..]) else t
  }

  function LeadingHex(t: Text): (n: nat)
    ensures n <= |t|
  {
    if t != [] && IsHex(t[0]) then 1 + LeadingHex(t[1..]) else 0
  }

  /** How many characters the escape after a backslash takes; 0 if it is none. */
  function EscapeLength(t: Text): (n: nat)
    ensures n <= |t|
  {
    if t == [] then 0
    else if t[0] in SHORT_ESCAPES then 1
    else if t[0] == 'u' && LeadingHex(t[1..]) >= 4 then 5
    else 0
  }

  predicate IsPlain(c: char) {
    c != QUOTE && c != BACKSLASH && ' ' <= c
  }

  /** What a string body starts with: its closing quote, a mistake, or a plain
      or escaped character and how long that is in the source. */
  datatype Step = Close | Wrong(error: Error) | Take(length: nat, plain: bool)

  function NextStep(t: Text): (step: Step)
    ensures step.Take? ==> 1 <= step.length <= |t|
    ensures step.Close? ==> t != []
  {
    if t == [] then Wrong(Unterminated)
    else if t[0] == QUOTE then Close
    else if t[0] == BACKSLASH then
      var n := EscapeLength(t[1..]);
      if n == 0 then Wrong(InvalidEscape) else Take(1 + n, false)
    else if t[0] < ' ' then Wrong(UnescapedControl)
    else Take(1, true)
  }

  /** A string body, from behind its opening quote to behind its closing one,
      given the plain characters and the kept source read so far. */
  function Body(t: Text, keep: bool, limit: nat, run: nat, tally: Tally, raw: Text): (r: Parsed<Text>)
    ensures r.Ok? ==> |r.rest| < |t|
    decreases |t|
  {
    match NextStep(t)
    case Wrong(e) => Err(e)
    case Close => Ok(raw, t[1..], tally)
    case Take(n, plain) =>
      var run' := if plain then run + 1 else run;
      if !keep then Body(t[n..], keep, limit, run', tally, raw)
      else if run' > MAX_STRING || tally.retained + n > limit then Err(RetentionBound)
      else Body(t[n..], keep, limit, run', tally.(retained := tally.retained + n), raw + t[..n])
  }

  /** The characters a kept string body stands for: what the JSON library makes of it. */
  function Unescape(raw: Text): Units
    decreases |raw|
  {
    if raw == [] then []
    else if raw[0] != BACKSLASH then Utf16(raw[0]) + Unescape(raw[1..])
    else if |raw| < 2 then []
    else if raw[1] == 'u' && |raw| >= 6 then [HexUnit(raw[2..6])] + Unescape(raw[6..])
    else [ShortUnit(raw[1])] + Unescape(raw[2..])
  }

  function StringAt(t: Text, keep: bool, limit: nat, tally: Tally): (r: Parsed<Units>)
    ensures r.Ok? ==> |r.rest| < |t|
  {
    if !StartsWith(t, QUOTE) then Err(Syntax)
    else
      var (raw, rest, after) :- Body(t[1..], keep, limit, 0, tally, []);
      Ok(if keep then Unescape(raw) else [], rest, after)
  }

  // ----- scalars

  const DELIMITERS: Text := " \r\n\t,]}"

  function TokenLength(t: Text): (n: nat)
    ensures n <= |t|
  {
    if t == [] || t[0] in DELIMITERS then 0 else 1 + TokenLength(t[1..])
  }

  function Digits(s: Text): (n: nat)
    ensures n <= |s|
    ensures AllDigits(s[..n])
    ensures n < |s| ==> !IsDigit(s[n])
  {
    if s != [] && IsDigit(s[0]) then 1 + Digits(s[1..]) else 0
  }

  function ParseExponent(s: Text): Option<Exponent> {
    if s == [] then Some(NoExponent)
    else if s[0] !in "eE" then None
    else
      var signed := |s| > 1 && s[1] in "+-";
      var digits := if signed then s[2..] else s[1..];
      if digits != [] && Digits(digits) == |digits| then
        Some(Exponent(s[0], if signed then [s[1]] else "", digits))
      else None
  }

  function ParseFraction(minus: bool, whole: Text, s: Text): Option<NumberParts> {
    var point := s != [] && s[0] == '.';
    var n := if point then Digits(s[1..]) else 0;
    if point && n == 0 then None
    else
      match ParseExponent(if point then s[1 + n..] else s)
      case None => None
      case Some(e) => Some(NumberParts(minus, whole, if point then s[1..1 + n] else [], e))
  }

  function WholeLength(s: Text): (n: nat)
    ensures n <= |s|
  {
    if s != [] && s[0] == '0' then 1 else Digits(s)
  }

  function ParseWhole(minus: bool, s: Text): Option<NumberParts> {
    var n := WholeLength(s);
    if n == 0 then None else ParseFraction(minus, s[..n], s[n..])
  }

  /** The number pattern, matched against a whole token. */
  function ParseNumber(s: Text): Option<NumberParts> {
    if s != [] && s[0] == '-' then ParseWhole(true, s[1..]) else ParseWhole(false, s)
  }

  function Signed(e: Exponent): int {
    match e
    case NoExponent => 0
    case Exponent(_, sign, digits) => (if sign == "-" then -1 else 1) * Natural(digits)
  }

  function Natural(s: Text): nat {
    if s == [] then 0
    else
      var low := s[|s| - 1];
      Natural(s[..|s| - 1]) * 10 + (if IsDigit(low) then low as int - '0' as int else 0)
  }

  function Power(base: nat, n: nat): nat {
    if n == 0 then 1 else base * Power(base, n - 1)
  }

  /** The least magnitude that rounds to infinity in binary64: half a unit in the
      last place above the largest finite value. */
  function BinaryLimit(): int {
    Power(2, 1024) - Power(2, 970)
  }

  /** A number with a fraction or an exponent is a binary64 value, and this one
      is too large to be finite. Whole numbers have no bound. */
  predicate Infinite(n: NumberParts) {
    && (n.fraction != [] || n.exponent.Exponent?)
    && var scale := Signed(n.exponent) - |n.fraction|;
       var digits := Natural(n.whole + n.fraction);
       if scale >= 0 then digits * Power(10, scale) >= BinaryLimit()
       else digits >= BinaryLimit() * Power(10, -scale)
  }

  function ScalarError(token: Text): Option<Error> {
    if |token| > MAX_SCALAR then Some(ScalarBound)
    else if token in WORDS then None
    else
      match ParseNumber(token)
      case None => Some(InvalidScalar)
      case Some(n) => if Infinite(n) then Some(NonFinite) else None
  }

  function ScalarAt(t: Text, keep: bool, tally: Tally): (r: Parsed<Json>)
    ensures r.Ok? ==> |r.rest| <= |t|
  {
    var n := TokenLength(t);
    match ScalarError(t[..n])
    case Some(e) => Err(e)
    case None => Ok(if keep then WordMeaning(t[..n]) else Null, t[n..], tally)
  }

  // ----- values

  /** What follows an item or a member: the closing character, a comma, or neither. */
  datatype Separator = Last(rest: Text) | Next(rest: Text) | Neither

  function SeparatorAt(t: Text, close: char): (r: Separator)
    ensures !r.Neither? ==> |r.rest| < |t|
  {
    var u := SkipSpace(t);
    if StartsWith(u, close) then Last(u[1..])
    else if StartsWith(u, ',') then Next(u[1..])
    else Neither
  }

  function Kept(s: Selector, v: Json): Json {
    if s == Skip then Null else v
  }

  function Value(t: Text, s: Selector, depth: nat, limit: nat, tally: Tally): (r: Parsed<Json>)
    ensures r.Ok? ==> |r.rest| <= |t|
    decreases |t|, 1
  {
    var tally := if s == Skip then tally else tally.(nodes := tally.nodes + 1);
    if s != Skip && tally.nodes > MAX_NODES then Err(NodeBound)
    else if depth > MAX_DEPTH then Err(DepthBound)
    else CoreAt(SkipSpace(t), s, depth, limit, tally)
  }

  /** A value with no white space in front. */
  function CoreAt(t: Text, s: Selector, depth: nat, limit: nat, tally: Tally): (r: Parsed<Json>)
    ensures r.Ok? ==> |r.rest| <= |t|
    decreases |t|, 0
  {
    if StartsWith(t, '{') then
      var u := SkipSpace(t[1..]);
      if StartsWith(u, '}') then Ok(Kept(s, Object([])), u[1..], tally)
      else MembersAt(u, s, depth, limit, tally, {}, [])
    else if StartsWith(t, '[') then
      var u := SkipSpace(t[1..]);
      if StartsWith(u, ']') then Ok(Kept(s, Array([])), u[1..], tally)
      else ItemsAt(u, s, depth, limit, tally, 0, [])
    else if StartsWith(t, QUOTE) then
      var (units, rest, after) :- StringAt(t, s != Skip, limit, tally);
      Ok(Kept(s, String(units)), rest, after)
    else ScalarAt(t, s != Skip, tally)
  }

  /** A key, a colon and a value, given the keys already seen in the object. */
  function MemberAt(t: Text, s: Selector, depth: nat, limit: nat, tally: Tally, keys: set<Units>): (r: Parsed<Field>)
    ensures r.Ok? ==> |r.rest| < |t|
    decreases |t|, 2
  {
    var (key, t1, tally1) :- StringAt(SkipSpace(t), true, limit, tally);
    if key in keys || |keys| >= MAX_KEYS then Err(KeyBound)
    else
      var t2 := SkipSpace(t1);
      if !StartsWith(t2, ':') then Err(Syntax)
      else
        var (value, t3, tally3) :- Value(t2[1..], KeySelector(s, key), depth + 1, limit, tally1);
        Ok(Field(key, value), t3, tally3)
  }

  function AddField(s: Selector, kept: seq<Field>, f: Field): seq<Field> {
    if KeySelector(s, f.key) == Skip then kept else kept + [f]
  }

  function AddItem(s: Selector, kept: seq<Json>, v: Json): seq<Json> {
    if ItemSelector(s) == Skip then kept else kept + [v]
  }

  /** The members of an object, from the first key on, given the keys already
      seen and the fields already kept. */
  function MembersAt(t: Text, s: Selector, depth: nat, limit: nat, tally: Tally,
                     keys: set<Units>, kept: seq<Field>): (r: Parsed<Json>)
    ensures r.Ok? ==> |r.rest| < |t|
    decreases |t|, 3
  {
    var (f, t1, tally1) :- MemberAt(t, s, depth, limit, tally, keys);
    var kept' := AddField(s, kept, f);
    match SeparatorAt(t1, '}')
    case Neither => Err(Syntax)
    case Last(t2) => Ok(Kept(s, Object(kept')), t2, tally1)
    case Next(t2) => MembersAt(t2, s, depth, limit, tally1, keys + {f.key}, kept')
  }

  function ItemsAt(t: Text, s: Selector, depth: nat, limit: nat, tally: Tally,
                   count: nat, kept: seq<Json>): (r: Parsed<Json>)
    ensures r.Ok? ==> |r.rest| < |t|
    decreases |t|, 2
  {
    if count + 1 > MAX_ITEMS then Err(ArrayBound)
    else
      var (value, t1, tally1) :- Value(t, ItemSelector(s), depth + 1, limit, tally);
      var kept' := AddItem(s, kept, value);
      match SeparatorAt(t1, ']')
      case Neither => Err(Syntax)
      case Last(t2) => Ok(Kept(s, Array(kept')), t2, tally1)
      case Next(t2) => ItemsAt(t2, s, depth, limit, tally1, count + 1, kept')
  }

  /** A whole text: one value, white space, nothing else. */
  function Document(t: Text, s: Selector, limit: nat): Parsed<Json> {
    var (v, rest, tally) :- Value(t, s, 0, limit, Tally(0, 0));
    if SkipSpace(rest) != [] then Err(Trailing) else Ok(v, [], tally)
  }
}
