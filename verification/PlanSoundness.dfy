/**
  Conversely, whatever the parser accepts is a printed document: no text
  outside RFC 8259 gets through, kept or skipped.
*/
module PlanSoundness {
  import opened Wrappers
  import opened Utf8
  import opened JsonSyntax
  import opened PlanParsing
  import opened PlanNumbers
  import opened PlanTheorems

  lemma {:induction false} SpaceOf(t: Text) returns (space: Text)
    ensures IsSpace(space) && t == space + SkipSpace(t)
  {
    if t != [] && t[0] in SPACES {
      var more := SpaceOf(t[1..]);
      space := [t[0]] + more;
    } else {
      space := [];
    }
  }

  /** White space in front of a character. */
  lemma SpaceBefore(t: Text, c: char) returns (space: Text)
    requires StartsWith(SkipSpace(t), c)
    ensures IsSpace(space) && t == space + ([c] + SkipSpace(t)[1..])
  {
    space := SpaceOf(t);
    assert SkipSpace(t) == [c] + SkipSpace(t)[1..];
  }

  lemma PieceOf(t: Text) returns (p: Piece)
    requires NextStep(t).Take?
    ensures PieceOk(p) && t == PieceSource(p) + t[NextStep(t).length..]
  {
    var n := NextStep(t).length;
    if t[0] != BACKSLASH {
      p := Raw(t[0]);
    } else if t[1..][0] in SHORT_ESCAPES {
      p := Short(t[1]);
    } else {
      p := Hex(t[2..6]);
      HexRead(t[1..][1..]);
      assert t[1..][1..][..4] == t[2..6];
      assert t[..6] == [BACKSLASH, 'u'] + t[2..6];
    }
  }

  lemma {:induction false} HexRead(t: Text)
    ensures forall i | 0 <= i < LeadingHex(t) :: IsHex(t[i])
  {
    if t != [] && IsHex(t[0]) {
      HexRead(t[1..]);
      forall i | 0 < i < LeadingHex(t)
        ensures IsHex(t[i])
      {
        assert t[i] == t[1..][i - 1];
      }
    }
  }

  lemma {:induction false} BodyParsed(t: Text, keep: bool, limit: nat, run: nat, tally: Tally, raw: Text)
    returns (ps: seq<Piece>)
    requires Body(t, keep, limit, run, tally, raw).Ok?
    ensures PiecesOk(ps) && t == Source(ps) + ([QUOTE] + Body(t, keep, limit, run, tally, raw).rest)
    decreases |t|
  {
    var step := NextStep(t);
    if step.Close? {
      ps := [];
      assert t == [QUOTE] + t[1..];
    } else {
      hide NextStep, PieceSource;
      var n := step.length;
      var run' := if step.plain then run + 1 else run;
      var p := PieceOf(t);
      var more := BodyParsed(t[n..], keep, limit, run',
                             if keep then tally.(retained := tally.retained + n) else tally,
                             if keep then raw + t[..n] else raw);
      ps := [p] + more;
      assert ps[1..] == more;
      Assoc(PieceSource(p), Source(more), [QUOTE] + Body(t, keep, limit, run, tally, raw).rest);
    }
  }

  lemma StringParsed(t: Text, keep: bool, limit: nat, tally: Tally) returns (ps: seq<Piece>)
    requires StringAt(t, keep, limit, tally).Ok?
    ensures PiecesOk(ps) && t == PrintString(ps, StringAt(t, keep, limit, tally).rest)
  {
    ps := BodyParsed(t[1..], keep, limit, 0, tally, []);
    assert t == [QUOTE] + t[1..];
  }

  lemma {:induction false} TokenEnds(t: Text)
    ensures Separated(t[TokenLength(t)..])
  {
    if t != [] && t[0] !in DELIMITERS {
      TokenEnds(t[1..]);
      assert t[1..][TokenLength(t[1..])..] == t[TokenLength(t)..];
    }
  }

  lemma WordAccepted(token: Text)
    requires ScalarError(token) == None
    ensures WordOk(token)
  {
    hide ParseNumber, Infinite, NumberOk, PrintNumber;
    NumberPattern(token);
  }

  lemma ScalarParsed(t: Text, keep: bool, tally: Tally)
    requires ScalarAt(t, keep, tally).Ok?
    ensures var n := TokenLength(t); var rest := ScalarAt(t, keep, tally).rest;
            WordOk(t[..n]) && Separated(rest) && t == t[..n] + rest
  {
    hide ScalarError, WordOk, TokenLength;
    WordAccepted(t[..TokenLength(t)]);
    TokenEnds(t);
  }

  /** An accepted text is a printed document followed by the rest. */
  lemma {:induction false} ValueParsed(t: Text, s: Selector, depth: nat, limit: nat, tally: Tally) returns (d: Doc)
    requires Value(t, s, depth, limit, tally).Ok?
    ensures SpelledOk(d) && t == Print(d, Value(t, s, depth, limit, tally).rest)
    ensures d.core.Word? ==> Separated(Value(t, s, depth, limit, tally).rest)
    decreases |t|, 1
  {
    hide CoreAt;
    var space := SpaceOf(t);
    var tally' := if s == Skip then tally else tally.(nodes := tally.nodes + 1);
    var core := CoreParsed(SkipSpace(t), s, depth, limit, tally');
    d := Doc(space, core);
  }

  lemma {:induction false} CoreParsed(t: Text, s: Selector, depth: nat, limit: nat, tally: Tally) returns (c: Core)
    requires CoreAt(t, s, depth, limit, tally).Ok?
    ensures CoreSpelledOk(c) && t == PrintCore(c, CoreAt(t, s, depth, limit, tally).rest)
    ensures c.Word? ==> Separated(CoreAt(t, s, depth, limit, tally).rest)
    decreases |t|, 0
  {
    hide MembersAt, ItemsAt, StringAt, ScalarAt, PrintItems, PrintMembers, PrintString, SkipSpace;
    if StartsWith(t, '{') {
      assert t == ['{'] + t[1..];
      if StartsWith(SkipSpace(t[1..]), '}') {
        var space := SpaceBefore(t[1..], '}');
        c := EmptyObject(space);
      } else {
        MembersSkip(t[1..], s, depth, limit, tally, {}, []);
        var members := MembersParsed(t[1..], s, depth, limit, tally, {}, []);
        c := NonEmptyObject(members);
      }
    } else if StartsWith(t, '[') {
      assert t == ['['] + t[1..];
      if StartsWith(SkipSpace(t[1..]), ']') {
        var space := SpaceBefore(t[1..], ']');
        c := EmptyArray(space);
      } else {
        ItemsSkip(t[1..], s, depth, limit, tally, 0, []);
        var items := ItemsParsed(t[1..], s, depth, limit, tally, 0, []);
        c := NonEmptyArray(items);
      }
    } else if StartsWith(t, QUOTE) {
      var body := StringParsed(t, s != Skip, limit, tally);
      c := Quoted(body);
    } else {
      ScalarParsed(t, s != Skip, tally);
      c := Word(t[..TokenLength(t)]);
    }
  }

  lemma {:induction false} MemberParsed(t: Text, s: Selector, depth: nat, limit: nat, tally: Tally, keys: set<Units>)
    returns (m: Member)
    requires MemberAt(t, s, depth, limit, tally, keys).Ok?
    ensures MemberSpelledOk(m) && t == PrintMember(m, MemberAt(t, s, depth, limit, tally, keys).rest)
    decreases |t|, 2
  {
    hide StringAt, Value, SkipSpace, Print, PrintString, SpelledOk;
    var before := SpaceOf(t);
    var r1 := StringAt(SkipSpace(t), true, limit, tally);
    var key := StringParsed(SkipSpace(t), true, limit, tally);
    var mid := SpaceBefore(r1.rest, ':');
    var value := ValueParsed(SkipSpace(r1.rest)[1..], KeySelector(s, r1.value), depth + 1, limit, r1.tally);
    m := Member(before, key, mid, value);
  }

  lemma SeparatorParsed(t: Text, close: char) returns (after: Text)
    requires !SeparatorAt(t, close).Neither?
    ensures IsSpace(after)
    ensures var sep := SeparatorAt(t, close);
            t == after + ([if sep.Last? then close else ','] + sep.rest)
  {
    after := SpaceBefore(t, if SeparatorAt(t, close).Last? then close else ',');
  }

  lemma {:induction false} MembersParsed(t: Text, s: Selector, depth: nat, limit: nat, tally: Tally,
                                         keys: set<Units>, kept: seq<Field>) returns (members: Members)
    requires MembersAt(t, s, depth, limit, tally, keys, kept).Ok?
    ensures MembersSpelledOk(members) && t == PrintMembers(members, MembersAt(t, s, depth, limit, tally, keys, kept).rest)
    decreases |t|, 3
  {
    hide MemberAt, MembersAt, SeparatorAt, PrintMember, MemberSpelledOk, AddField;
    MembersStep(t, s, depth, limit, tally, keys, kept);
    var m := MemberParsed(t, s, depth, limit, tally, keys);
    var r := MemberAt(t, s, depth, limit, tally, keys);
    var after := SeparatorParsed(r.rest, '}');
    match SeparatorAt(r.rest, '}')
    case Last(u) => members := LastMember(m, after);
    case Next(u) =>
      var tail := MembersParsed(u, s, depth, limit, r.tally, keys + {r.value.key}, AddField(s, kept, r.value));
      members := MoreMembers(m, after, tail);
  }

  lemma {:induction false} ItemsParsed(t: Text, s: Selector, depth: nat, limit: nat, tally: Tally,
                                       count: nat, kept: seq<Json>) returns (items: Items)
    requires ItemsAt(t, s, depth, limit, tally, count, kept).Ok?
    ensures ItemsSpelledOk(items) && t == PrintItems(items, ItemsAt(t, s, depth, limit, tally, count, kept).rest)
    decreases |t|, 2
  {
    assert count < MAX_ITEMS;
    hide Value, ItemsAt, SeparatorAt, Print, SpelledOk, AddItem;
    ItemsStep(t, s, depth, limit, tally, count, kept);
    var r := Value(t, ItemSelector(s), depth + 1, limit, tally);
    var item := ValueParsed(t, ItemSelector(s), depth + 1, limit, tally);
    var after := SeparatorParsed(r.rest, ']');
    match SeparatorAt(r.rest, ']')
    case Last(u) => items := LastItem(item, after);
    case Next(u) =>
      var tail := ItemsParsed(u, s, depth, limit, r.tally, count + 1, AddItem(s, kept, r.value));
      items := MoreItems(item, after, tail);
  }
}
