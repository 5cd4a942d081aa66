/**
  Every JSON value has a spelling, so that reading back printed documents is a
  statement about every value within the bounds.
*/
module PlanSpelling {
  import opened Wrappers
  import opened Utf8
  import opened JsonSyntax
  import opened PlanParsing
  import opened PlanProjection
  import opened PlanTheorems
  import opened PlanReading
  import PlanSoundness

  function HexDigit(v: nat): char
    requires v < 16
  {
    (if v < 10 then '0' as int + v else 'a' as int + (v - 10)) as char
  }

  function SpellUnit(u: Unit): Piece {
    var a, b := u / 256, u % 256;
    Hex([HexDigit(a / 16), HexDigit(a % 16), HexDigit(b / 16), HexDigit(b % 16)])
  }

  function SpellUnits(us: Units): seq<Piece> {
    if us == [] then [] else [SpellUnit(us[0])] + SpellUnits(us[1..])
  }

  function Spell(v: Json): Doc
    decreases v, 1
  {
    Doc([],
        match v
        case Null => Word("null")
        case Bool(b) => Word(if b then "true" else "false")
        case Number(token) => Word(token)
        case String(units) => Quoted(SpellUnits(units))
        case Array(items) => if items == [] then EmptyArray([]) else NonEmptyArray(SpellItems(items))
        case Object(fields) => if fields == [] then EmptyObject([]) else NonEmptyObject(SpellFields(fields)))
  }

  function SpellItems(items: seq<Json>): Items
    requires items != []
    decreases items, 0
  {
    if |items| == 1 then LastItem(Spell(items[0]), [])
    else MoreItems(Spell(items[0]), [], SpellItems(items[1..]))
  }

  function SpellFields(fields: seq<Field>): Members
    requires fields != []
    decreases fields, 0
  {
    var m := Member([], SpellUnits(fields[0].key), [], Spell(fields[0].value));
    if |fields| == 1 then LastMember(m, []) else MoreMembers(m, [], SpellFields(fields[1..]))
  }

  /** The value itself is within the structural bounds: finite numbers, distinct
      keys, limited sizes and depth. */
  predicate Within(v: Json, depth: nat)
    decreases v, 1
  {
    depth <= MAX_DEPTH &&
    match v
    case Number(token) => token !in WORDS && ScalarError(token) == None
    case Array(items) => |items| <= MAX_ITEMS && AllWithin(items, depth + 1)
    case Object(fields) => |fields| <= MAX_KEYS && Distinct(KeysOf(fields)) && FieldsWithin(fields, depth + 1)
    case _ => true
  }

  predicate AllWithin(items: seq<Json>, depth: nat)
    decreases items, 0
  {
    items == [] || (Within(items[0], depth) && AllWithin(items[1..], depth))
  }

  predicate FieldsWithin(fields: seq<Field>, depth: nat)
    decreases fields, 0
  {
    fields == [] || (Within(fields[0].value, depth) && FieldsWithin(fields[1..], depth))
  }

  function KeysOf(fields: seq<Field>): seq<Units> {
    if fields == [] then [] else [fields[0].key] + KeysOf(fields[1..])
  }

  lemma HexDigitValue(v: nat)
    requires v < 16
    ensures HexValue(HexDigit(v)) == v && IsHex(HexDigit(v))
  {
  }

  lemma HexPiece(w: nat, x: nat, y: nat, z: nat)
    requires w < 16 && x < 16 && y < 16 && z < 16
    ensures var p := Hex([HexDigit(w), HexDigit(x), HexDigit(y), HexDigit(z)]);
            PieceOk(p) && PieceMeaning(p) == [w * 4096 + x * 256 + y * 16 + z]
  {
    HexDigitValue(w);
    HexDigitValue(x);
    HexDigitValue(y);
    HexDigitValue(z);
    hide HexValue, HexDigit;
  }

  lemma Nibbles(u: Unit)
    ensures u == u / 256 / 16 * 4096 + u / 256 % 16 * 256 + u % 256 / 16 * 16 + u % 256 % 16
    ensures u / 256 / 16 < 16 && u % 256 / 16 < 16
  {
    assert u == u / 256 * 256 + u % 256;
    assert u / 256 == u / 256 / 16 * 16 + u / 256 % 16;
    assert u % 256 == u % 256 / 16 * 16 + u % 256 % 16;
  }

  lemma UnitSpelling(u: Unit)
    ensures PieceOk(SpellUnit(u)) && PieceMeaning(SpellUnit(u)) == [u]
  {
    hide PieceOk, PieceMeaning, HexDigit;
    Nibbles(u);
    HexPiece(u / 256 / 16, u / 256 % 16, u % 256 / 16, u % 256 % 16);
  }

  lemma PrependPiece(p: Piece, ps: seq<Piece>)
    requires PieceOk(p) && PiecesOk(ps)
    ensures PiecesOk([p] + ps) && Meaning([p] + ps) == PieceMeaning(p) + Meaning(ps)
  {
    hide PieceOk, PieceMeaning;
    assert ([p] + ps)[1..] == ps;
  }

  lemma {:induction false} UnitsSpelling(us: Units)
    ensures PiecesOk(SpellUnits(us)) && Meaning(SpellUnits(us)) == us
  {
    if us != [] {
      UnitSpelling(us[0]);
      hide SpellUnit, PieceOk, PieceMeaning;
      UnitsSpelling(us[1..]);
      PrependPiece(SpellUnit(us[0]), SpellUnits(us[1..]));
      hide PiecesOk, Meaning;
      assert us == [us[0]] + us[1..];
    }
  }

  /** The spelling of a value is a legal one, means the value, and is within the
      structural bounds because the value is. */
  lemma {:induction false} SpellingMeans(v: Json, depth: nat)
    requires Within(v, depth)
    ensures SpelledOk(Spell(v)) && Denote(Spell(v)) == v && Structured(Spell(v), depth)
    decreases v, 1
  {
    hide SpellItems, SpellFields, DenoteItems, DenoteMembers, ItemsStructured, MembersStructured, SpellUnits, Meaning, PiecesOk;
    match v
    case Number(token) => PlanSoundness.WordAccepted(token);
    case String(units) => UnitsSpelling(units);
    case Array(items) => if items != [] { ItemsSpelling(items, depth); }
    case Object(fields) => if fields != [] { FieldsSpelling(fields, depth); }
    case _ =>
  }

  lemma {:induction false} ItemsSpelling(items: seq<Json>, depth: nat)
    requires items != [] && AllWithin(items, depth + 1)
    ensures var s := SpellItems(items);
            ItemsSpelledOk(s) && DenoteItems(s) == items && ItemsStructured(s, depth) && ItemCount(s) == |items|
    decreases items, 0
  {
    SpellingMeans(items[0], depth + 1);
    hide Spell, Denote, SpelledOk, Structured, Within;
    if |items| > 1 {
      ItemsSpelling(items[1..], depth);
      assert items == [items[0]] + items[1..];
    }
  }

  lemma {:induction false} FieldsSpelling(fields: seq<Field>, depth: nat)
    requires fields != [] && FieldsWithin(fields, depth + 1)
    ensures var s := SpellFields(fields);
            && MembersSpelledOk(s) && DenoteMembers(s) == fields && MembersStructured(s, depth)
            && MemberKeys(s) == KeysOf(fields) && |KeysOf(fields)| == |fields|
    decreases fields, 0
  {
    SpellingMeans(fields[0].value, depth + 1);
    UnitsSpelling(fields[0].key);
    hide Spell, Denote, SpelledOk, Structured, Within, SpellUnits, Meaning, PiecesOk;
    if |fields| > 1 {
      FieldsSpelling(fields[1..], depth);
      assert fields == [fields[0]] + fields[1..];
    } else {
      assert KeysOf(fields[1..]) == [];
    }
  }

  /** Printing a value and reading it back is the identity, within the bounds. */
  lemma ValueReadsBack(v: Json, limit: nat)
    requires Within(v, 0) && Affordable(START, Needs(Spell(v), Keep), limit)
    ensures var r := Document(Print(Spell(v), []), Keep, limit); r.Ok? && r.value == v
  {
    SpellingMeans(v, 0);
    PrintedReadsBack(Spell(v), [], limit);
  }
}
