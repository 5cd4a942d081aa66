/**
  The parser reads exactly the structured documents it can afford, and keeps
  exactly what the selector selects of them.
*/
module PlanTheorems {
  import opened Utf8
  import opened JsonSyntax
  import opened PlanParsing
  import opened PlanNumbers
  import opened PlanProjection

  // ----- white space and strings

  lemma {:induction false} SkipPrinted(space: Text, t: Text)
    requires IsSpace(space)
    ensures SkipSpace(space + t) == SkipSpace(t)
  {
    if space == [] {
      assert space + t == t;
    } else {
      assert (space + t)[1..] == space[1..] + t;
      SkipPrinted(space[1..], t);
    }
  }

  lemma HexPrinted(d: Text, t: Text)
    requires |d| == 4 && forall i | 0 <= i < 4 :: IsHex(d[i])
    ensures LeadingHex(d + t) >= 4
  {
    var s := d + t;
    assert s[1..][0] == d[1] && s[2..][0] == d[2] && s[3..][0] == d[3];
    assert s[1..][1..] == s[2..] && s[2..][1..] == s[3..];
    assert LeadingHex(s[3..]) >= 1;
    assert LeadingHex(s[2..]) >= 2;
    assert LeadingHex(s[1..]) >= 3;
  }

  lemma EscapePrinted(p: Piece, t: Text)
    requires PieceOk(p) && !p.Raw?
    ensures StartsWith(PieceSource(p) + t, BACKSLASH)
    ensures EscapeLength((PieceSource(p) + t)[1..]) == |PieceSource(p)| - 1
  {
    hide LeadingHex;
    match p
    case Short(e) =>
      assert ([BACKSLASH, e] + t)[1..] == [e] + t;
    case Hex(d) =>
      assert (([BACKSLASH, 'u'] + d) + t)[1..] == ['u'] + (d + t);
      assert (['u'] + (d + t))[1..] == d + t;
      HexPrinted(d, t);
  }

  /** A spelled piece is recognised, whatever comes behind it. */
  lemma PiecePrinted(p: Piece, t: Text)
    requires PieceOk(p)
    ensures var s, n := PieceSource(p) + t, |PieceSource(p)|;
            NextStep(s) == Take(n, p.Raw?) && s[..n] == PieceSource(p) && s[n..] == t
  {
    if !p.Raw? {
      EscapePrinted(p, t);
    }
    hide EscapeLength;
  }

  lemma Assoc(a: Text, b: Text, c: Text)
    ensures a + (b + c) == (a + b) + c
  {
  }

  lemma {:induction false} BodySkipped(ps: seq<Piece>, rest: Text, limit: nat, run: nat, tally: Tally, raw: Text)
    requires PiecesOk(ps)
    ensures Body(Source(ps) + ([QUOTE] + rest), false, limit, run, tally, raw) == Ok(raw, rest, tally)
    decreases |ps|
  {
    var end := [QUOTE] + rest;
    if ps == [] {
      assert Source(ps) + end == end && end[1..] == rest;
    } else {
      Assoc(PieceSource(ps[0]), Source(ps[1..]), end);
      PiecePrinted(ps[0], Source(ps[1..]) + end);
      BodySkipped(ps[1..], rest, limit, if ps[0].Raw? then run + 1 else run, tally, raw);
    }
  }

  /** What becomes of a kept, spelled string body. */
  function KeptBody(ps: seq<Piece>, rest: Text, limit: nat, run: nat, tally: Tally, raw: Text): Parsed<Text> {
    if tally.retained + |Source(ps)| <= limit && run + RunLength(ps) <= MAX_STRING then
      Ok(raw + Source(ps), rest, tally.(retained := tally.retained + |Source(ps)|))
    else Err(RetentionBound)
  }

  lemma KeptBodyStep(ps: seq<Piece>, rest: Text, limit: nat, run: nat, tally: Tally, raw: Text)
    requires ps != []
    ensures var p, n := ps[0], |PieceSource(ps[0])|;
            var run' := if p.Raw? then run + 1 else run;
            KeptBody(ps, rest, limit, run, tally, raw)
            == if run' > MAX_STRING || tally.retained + n > limit then Err(RetentionBound)
               else KeptBody(ps[1..], rest, limit, run', tally.(retained := tally.retained + n), raw + PieceSource(p))
  {
    hide PieceSource;
    Assoc(raw, PieceSource(ps[0]), Source(ps[1..]));
  }

  lemma BodyStep(p: Piece, u: Text, limit: nat, run: nat, tally: Tally, raw: Text)
    requires PieceOk(p)
    ensures var n, run' := |PieceSource(p)|, if p.Raw? then run + 1 else run;
            Body(PieceSource(p) + u, true, limit, run, tally, raw)
            == if run' > MAX_STRING || tally.retained + n > limit then Err(RetentionBound)
               else Body(u, true, limit, run', tally.(retained := tally.retained + n), raw + PieceSource(p))
  {
    PiecePrinted(p, u);
    hide NextStep, PieceSource;
  }

  lemma BodyEnd(rest: Text, keep: bool, limit: nat, run: nat, tally: Tally, raw: Text)
    ensures Body([QUOTE] + rest, keep, limit, run, tally, raw) == Ok(raw, rest, tally)
  {
    assert ([QUOTE] + rest)[1..] == rest;
  }

  /** Scanning a kept, spelled string body succeeds exactly when it is affordable. */
  lemma {:induction false} BodyKept(ps: seq<Piece>, rest: Text, limit: nat, run: nat, tally: Tally, raw: Text)
    requires PiecesOk(ps)
    requires tally.retained <= limit && run <= MAX_STRING
    ensures Body(Source(ps) + ([QUOTE] + rest), true, limit, run, tally, raw)
            == KeptBody(ps, rest, limit, run, tally, raw)
    decreases |ps|
  {
    hide Body;
    var end := [QUOTE] + rest;
    if ps == [] {
      assert Source(ps) + end == end;
      BodyEnd(rest, true, limit, run, tally, raw);
      assert raw + [] == raw;
    } else {
      hide KeptBody, PieceSource;
      var p, n := ps[0], |PieceSource(ps[0])|;
      var run' := if p.Raw? then run + 1 else run;
      Assoc(PieceSource(p), Source(ps[1..]), end);
      BodyStep(p, Source(ps[1..]) + end, limit, run, tally, raw);
      KeptBodyStep(ps, rest, limit, run, tally, raw);
      if tally.retained + n <= limit && run' <= MAX_STRING {
        BodyKept(ps[1..], rest, limit, run', tally.(retained := tally.retained + n), raw + PieceSource(p));
      }
    }
  }

  /** The string library turns a spelled body into what it means. */
  lemma {:induction false} UnescapeSource(ps: seq<Piece>)
    requires PiecesOk(ps)
    ensures Unescape(Source(ps)) == Meaning(ps)
  {
    if ps != [] {
      var p, u, s := ps[0], Source(ps[1..]), Source(ps);
      UnescapeSource(ps[1..]);
      match p
      case Raw(c) => assert s[1..] == u;
      case Short(e) => assert s[1] == e && s[2..] == u;
      case Hex(d) => assert s[1] == 'u' && s[2..6] == d && s[6..] == u;
    }
  }

  lemma StringPrinted(ps: seq<Piece>, rest: Text, keep: bool, limit: nat, tally: Tally)
    requires PiecesOk(ps)
    requires tally.retained <= limit && tally.nodes <= MAX_NODES
    ensures var r := StringAt(PrintString(ps, rest), keep, limit, tally);
            if !keep then r == Ok([], rest, tally)
            else
              && (r.Ok? <==> Affordable(tally, StringDemand(ps), limit))
              && (r.Ok? ==> r == Ok(Meaning(ps), rest, Charge(tally, StringDemand(ps))))
  {
    assert PrintString(ps, rest)[1..] == Source(ps) + ([QUOTE] + rest);
    if keep {
      BodyKept(ps, rest, limit, 0, tally, []);
    } else {
      BodySkipped(ps, rest, limit, 0, tally, []);
    }
    UnescapeSource(ps);
    assert [] + Source(ps) == Source(ps);
  }

  // ----- words

  /** What may follow a word: a delimiter, or the end. */
  predicate Separated(rest: Text) {
    rest == [] || rest[0] in DELIMITERS
  }

  lemma {:induction false} TokenPrinted(token: Text, rest: Text)
    requires forall i | 0 <= i < |token| :: token[i] !in DELIMITERS
    requires Separated(rest)
    ensures TokenLength(token + rest) == |token|
  {
    if token == [] {
      assert token + rest == rest;
    } else {
      assert (token + rest)[1..] == token[1..] + rest;
      TokenPrinted(token[1..], rest);
    }
  }

  lemma WordPrinted(token: Text, rest: Text, keep: bool, tally: Tally)
    requires WordOk(token) && Separated(rest)
    ensures ScalarAt(token + rest, keep, tally)
            == match ScalarError(token)
               case Some(e) => Err(e)
               case None => Ok(if keep then WordMeaning(token) else Null, rest, tally)
  {
    WordIsWordLike(token);
    TokenPrinted(token, rest);
    assert (token + rest)[..|token|] == token && (token + rest)[|token|..] == rest;
  }

  // ----- values

  lemma CoreStart(c: Core, rest: Text)
    requires CoreSpelledOk(c)
    ensures PrintCore(c, rest) != [] && PrintCore(c, rest)[0] !in DELIMITERS
  {
    if c.Word? {
      WordIsWordLike(c.token);
    }
  }

  lemma SkipToCore(d: Doc, rest: Text)
    requires SpelledOk(d)
    ensures SkipSpace(Print(d, rest)) == PrintCore(d.core, rest)
  {
    CoreStart(d.core, rest);
    SkipPrinted(d.space, PrintCore(d.core, rest));
  }

  lemma SkipTo(space: Text, c: char, rest: Text)
    requires IsSpace(space) && c !in SPACES
    ensures var t := SkipSpace(space + ([c] + rest)); StartsWith(t, c) && t[1..] == rest
  {
    SkipPrinted(space, [c] + rest);
    assert ([c] + rest)[1..] == rest;
  }

  /** Leading white space makes no difference to items and members. */
  lemma ItemsSkip(t: Text, s: Selector, depth: nat, limit: nat, tally: Tally, count: nat, kept: seq<Json>)
    ensures ItemsAt(SkipSpace(t), s, depth, limit, tally, count, kept) == ItemsAt(t, s, depth, limit, tally, count, kept)
  {
    hide CoreAt;
    assert SkipSpace(SkipSpace(t)) == SkipSpace(t);
    assert Value(SkipSpace(t), ItemSelector(s), depth + 1, limit, tally) == Value(t, ItemSelector(s), depth + 1, limit, tally);
  }

  lemma MembersSkip(t: Text, s: Selector, depth: nat, limit: nat, tally: Tally, keys: set<Units>, kept: seq<Field>)
    ensures MembersAt(SkipSpace(t), s, depth, limit, tally, keys, kept) == MembersAt(t, s, depth, limit, tally, keys, kept)
  {
    hide Value, StringAt;
    assert SkipSpace(SkipSpace(t)) == SkipSpace(t);
    assert MemberAt(SkipSpace(t), s, depth, limit, tally, keys) == MemberAt(t, s, depth, limit, tally, keys);
  }

  lemma ItemsStart(items: Items, rest: Text)
    requires ItemsSpelledOk(items)
    ensures !StartsWith(SkipSpace(PrintItems(items, rest)), ']')
  {
    match items
    case LastItem(item, after) => SkipToCore(item, after + ([']'] + rest)); CoreStart(item.core, after + ([']'] + rest));
    case MoreItems(item, after, tail) =>
      SkipToCore(item, after + ([','] + PrintItems(tail, rest)));
      CoreStart(item.core, after + ([','] + PrintItems(tail, rest)));
  }

  lemma MemberStart(m: Member, rest: Text)
    requires MemberSpelledOk(m)
    ensures SkipSpace(PrintMember(m, rest)) == PrintString(m.key, m.mid + ([':'] + Print(m.value, rest)))
  {
    SkipPrinted(m.before, PrintString(m.key, m.mid + ([':'] + Print(m.value, rest))));
  }

  lemma MembersStart(members: Members, rest: Text)
    requires MembersSpelledOk(members)
    ensures StartsWith(SkipSpace(PrintMembers(members, rest)), QUOTE)
  {
    match members
    case LastMember(m, after) => MemberStart(m, after + (['}'] + rest));
    case MoreMembers(m, after, tail) => MemberStart(m, after + ([','] + PrintMembers(tail, rest)));
  }

  /** A reading succeeds exactly when `ok`, and then yields this. */
  predicate Reads<T(==)>(r: Parsed<T>, ok: bool, value: T, rest: Text, tally: Tally) {
    (r.Ok? <==> ok) && (r.Ok? ==> r == Ok(value, rest, tally))
  }

  predicate Room(tally: Tally, limit: nat) {
    tally.retained <= limit && tally.nodes <= MAX_NODES
  }

  /** The parser reads a printed document exactly when it is structured and
      affordable, and keeps the selected part of what the document means. */
  lemma {:induction false} ValuePrinted(d: Doc, rest: Text, s: Selector, depth: nat, limit: nat, tally: Tally)
    requires SpelledOk(d) && (d.core.Word? ==> Separated(rest)) && Room(tally, limit)
    ensures ReadsValue(d, rest, s, depth, limit, tally)
    decreases d, 1
  {
    hide CoreAt, Print, SkipSpace, CoreNeeds, CoreStructured, DenoteCore, Project, CoreSpelledOk;
    SkipToCore(d, rest);
    var tally' := if s == Skip then tally else tally.(nodes := tally.nodes + 1);
    if Room(tally', limit) {
      CorePrinted(d.core, rest, s, depth, limit, tally');
    }
  }

  ghost predicate ReadsCore(c: Core, rest: Text, s: Selector, depth: nat, limit: nat, tally: Tally) {
    Reads(CoreAt(PrintCore(c, rest), s, depth, limit, tally),
          CoreStructured(c, depth) && Affordable(tally, CoreNeeds(c, s), limit),
          Project(DenoteCore(c), s), rest, Charge(tally, CoreNeeds(c, s)))
  }

  lemma ArrayReads(items: Items, rest: Text, s: Selector, depth: nat, limit: nat, tally: Tally)
    requires ItemsSpelledOk(items) && ReadsItems(items, rest, s, depth, limit, tally, 0, [])
    ensures ReadsCore(NonEmptyArray(items), rest, s, depth, limit, tally)
  {
    hide ItemsAt, PrintItems, SkipSpace, ItemsNeed, ItemsStructured;
    var t := PrintCore(NonEmptyArray(items), rest);
    assert t[1..] == PrintItems(items, rest);
    ItemsStart(items, rest);
    ItemsSkip(t[1..], s, depth, limit, tally, 0, []);
    var found := ProjectItems(DenoteItems(items), ItemSelector(s));
    assert [] + found == found;
  }

  lemma ObjectReads(members: Members, rest: Text, s: Selector, depth: nat, limit: nat, tally: Tally)
    requires MembersSpelledOk(members) && ReadsMembers(members, rest, s, depth, limit, tally, {}, [])
    ensures ReadsCore(NonEmptyObject(members), rest, s, depth, limit, tally)
  {
    hide MembersAt, PrintMembers, SkipSpace, MembersNeed, MembersStructured;
    var t := PrintCore(NonEmptyObject(members), rest);
    assert t[1..] == PrintMembers(members, rest);
    MembersStart(members, rest);
    MembersSkip(t[1..], s, depth, limit, tally, {}, []);
    var found := ProjectFields(DenoteMembers(members), s);
    assert [] + found == found;
  }

  lemma WordReads(token: Text, rest: Text, s: Selector, depth: nat, limit: nat, tally: Tally)
    requires CoreSpelledOk(Word(token)) && Separated(rest) && Room(tally, limit)
    ensures ReadsCore(Word(token), rest, s, depth, limit, tally)
  {
    hide StringAt, ScalarAt;
    WordIsWordLike(token);
    assert PrintCore(Word(token), rest)[0] == token[0];
    WordPrinted(token, rest, s != Skip, tally);
  }

  lemma QuotedReads(body: seq<Piece>, rest: Text, s: Selector, depth: nat, limit: nat, tally: Tally)
    requires CoreSpelledOk(Quoted(body)) && Room(tally, limit)
    ensures ReadsCore(Quoted(body), rest, s, depth, limit, tally)
  {
    hide StringAt, ScalarAt;
    StringPrinted(body, rest, s != Skip, limit, tally);
  }

  lemma EmptiesRead(space: Text, rest: Text, s: Selector, depth: nat, limit: nat, tally: Tally)
    requires IsSpace(space) && Room(tally, limit)
    ensures ReadsCore(EmptyArray(space), rest, s, depth, limit, tally)
    ensures ReadsCore(EmptyObject(space), rest, s, depth, limit, tally)
  {
    hide ItemsAt, MembersAt, StringAt, ScalarAt, SkipSpace;
    assert PrintCore(EmptyArray(space), rest)[1..] == space + ([']'] + rest);
    assert PrintCore(EmptyObject(space), rest)[1..] == space + (['}'] + rest);
    SkipTo(space, ']', rest);
    SkipTo(space, '}', rest);
  }

  lemma {:induction false} CorePrinted(c: Core, rest: Text, s: Selector, depth: nat, limit: nat, tally: Tally)
    requires CoreSpelledOk(c) && (c.Word? ==> Separated(rest)) && Room(tally, limit)
    ensures ReadsCore(c, rest, s, depth, limit, tally)
    decreases c, 0
  {
    hide ReadsCore, ReadsItems, ReadsMembers;
    match c
    case Word(token) => WordReads(token, rest, s, depth, limit, tally);
    case Quoted(body) => QuotedReads(body, rest, s, depth, limit, tally);
    case EmptyArray(space) => EmptiesRead(space, rest, s, depth, limit, tally);
    case NonEmptyArray(items) =>
      ItemsPrinted(items, rest, s, depth, limit, tally, 0, []);
      ArrayReads(items, rest, s, depth, limit, tally);
    case EmptyObject(space) => EmptiesRead(space, rest, s, depth, limit, tally);
    case NonEmptyObject(members) =>
      MembersPrinted(members, rest, s, depth, limit, tally, {}, []);
      ObjectReads(members, rest, s, depth, limit, tally);
  }

  lemma ItemsStep(t: Text, s: Selector, depth: nat, limit: nat, tally: Tally, count: nat, kept: seq<Json>)
    requires count < MAX_ITEMS
    ensures var r := Value(t, ItemSelector(s), depth + 1, limit, tally);
            ItemsAt(t, s, depth, limit, tally, count, kept)
            == if r.Err? then Err(r.error)
               else
                 match SeparatorAt(r.rest, ']')
                 case Neither => Err(Syntax)
                 case Last(u) => Ok(Kept(s, Array(AddItem(s, kept, r.value))), u, r.tally)
                 case Next(u) => ItemsAt(u, s, depth, limit, r.tally, count + 1, AddItem(s, kept, r.value))
  {
    hide Value, SeparatorAt, AddItem;
  }

  /** What reading a printed list of items comes to. */
  ghost predicate ReadsItems(items: Items, rest: Text, s: Selector, depth: nat, limit: nat, tally: Tally,
                             count: nat, kept: seq<Json>) {
    Reads(ItemsAt(PrintItems(items, rest), s, depth, limit, tally, count, kept),
          count + ItemCount(items) <= MAX_ITEMS && ItemsStructured(items, depth)
          && Affordable(tally, ItemsNeed(items, ItemSelector(s)), limit),
          Kept(s, Array(kept + ProjectItems(DenoteItems(items), ItemSelector(s)))), rest,
          Charge(tally, ItemsNeed(items, ItemSelector(s))))
  }

  lemma {:induction false} ItemsPrinted(items: Items, rest: Text, s: Selector, depth: nat, limit: nat, tally: Tally,
                                        count: nat, kept: seq<Json>)
    requires ItemsSpelledOk(items) && Room(tally, limit)
    ensures ReadsItems(items, rest, s, depth, limit, tally, count, kept)
    decreases items, 2
  {
    if count < MAX_ITEMS {
      hide Value, Print, Project, Denote, Needs, Structured, SpelledOk, ItemsAt, AddItem, ReadsItems;
      var sub, item := ItemSelector(s), items.item;
      match items
      case LastItem(item, after) =>
        ValuePrinted(item, after + ([']'] + rest), sub, depth + 1, limit, tally);
        LastItemReads(item, after, rest, s, depth, limit, tally, count, kept);
      case MoreItems(item, after, tail) =>
        ValuePrinted(item, after + ([','] + PrintItems(tail, rest)), sub, depth + 1, limit, tally);
        var tally' := Charge(tally, Needs(item, sub));
        if Room(tally', limit) {
          ItemsPrinted(tail, rest, s, depth, limit, tally', count + 1, AddItem(s, kept, Project(Denote(item), sub)));
        }
        MoreItemsRead(item, after, tail, rest, s, depth, limit, tally, count, kept);
    }
  }

  /** What reading a printed value comes to. */
  ghost predicate ReadsValue(d: Doc, rest: Text, s: Selector, depth: nat, limit: nat, tally: Tally) {
    Reads(Value(Print(d, rest), s, depth, limit, tally),
          Structured(d, depth) && Affordable(tally, Needs(d, s), limit),
          Project(Denote(d), s), rest, Charge(tally, Needs(d, s)))
  }

  lemma LastItemReads(item: Doc, after: Text, rest: Text, s: Selector, depth: nat, limit: nat, tally: Tally,
                      count: nat, kept: seq<Json>)
    requires IsSpace(after) && count < MAX_ITEMS
    requires ReadsValue(item, after + ([']'] + rest), ItemSelector(s), depth + 1, limit, tally)
    ensures ReadsItems(LastItem(item, after), rest, s, depth, limit, tally, count, kept)
  {
    hide Value, Print, Project, Denote, Needs, Structured, SpelledOk, ItemsAt, AddItem;
    ItemsStep(PrintItems(LastItem(item, after), rest), s, depth, limit, tally, count, kept);
    SkipTo(after, ']', rest);
    assert DenoteItems(LastItem(item, after)) == [Denote(item)] + [];
    ProjectItemsStep(s, kept, Denote(item), []);
    var v := Project(Denote(item), ItemSelector(s));
    assert AddItem(s, kept, v) + [] == AddItem(s, kept, v);
  }

  lemma MoreItemsRead(item: Doc, after: Text, tail: Items, rest: Text, s: Selector, depth: nat, limit: nat, tally: Tally,
                      count: nat, kept: seq<Json>)
    requires IsSpace(after) && count < MAX_ITEMS
    requires ReadsValue(item, after + ([','] + PrintItems(tail, rest)), ItemSelector(s), depth + 1, limit, tally)
    requires var tally' := Charge(tally, Needs(item, ItemSelector(s)));
             Room(tally', limit) ==>
               ReadsItems(tail, rest, s, depth, limit, tally', count + 1,
                          AddItem(s, kept, Project(Denote(item), ItemSelector(s))))
    ensures ReadsItems(MoreItems(item, after, tail), rest, s, depth, limit, tally, count, kept)
  {
    hide Value, Print, Project, Denote, Needs, Structured, SpelledOk, ItemsAt, AddItem;
    ItemsStep(PrintItems(MoreItems(item, after, tail), rest), s, depth, limit, tally, count, kept);
    SkipTo(after, ',', PrintItems(tail, rest));
    ProjectItemsStep(s, kept, Denote(item), DenoteItems(tail));
  }

  lemma ProjectItemsStep(s: Selector, kept: seq<Json>, v: Json, tail: seq<Json>)
    ensures kept + ProjectItems([v] + tail, ItemSelector(s))
            == AddItem(s, kept, Project(v, ItemSelector(s))) + ProjectItems(tail, ItemSelector(s))
  {
    assert ([v] + tail)[1..] == tail;
    hide Project;
  }

  lemma ProjectFieldsStep(s: Selector, kept: seq<Field>, f: Field, tail: seq<Field>)
    ensures kept + ProjectFields([f] + tail, s)
            == AddField(s, kept, Field(f.key, Project(f.value, KeySelector(s, f.key)))) + ProjectFields(tail, s)
  {
    assert ([f] + tail)[1..] == tail;
    hide Project, KeySelector;
  }

  lemma {:induction false} MemberPrinted(m: Member, rest: Text, s: Selector, depth: nat, limit: nat, tally: Tally,
                                         keys: set<Units>)
    requires MemberSpelledOk(m) && Separated(rest) && Room(tally, limit)
    ensures ReadsMember(m, rest, s, depth, limit, tally, keys)
    decreases m, 2
  {
    hide Value, Print, Project, Denote, Needs, Structured, SpelledOk, StringAt, PrintString;
    var key, behind := Meaning(m.key), Print(m.value, rest);
    MemberStart(m, rest);
    StringPrinted(m.key, m.mid + ([':'] + behind), true, limit, tally);
    SkipTo(m.mid, ':', behind);
    var tally' := Charge(tally, StringDemand(m.key));
    if Room(tally', limit) {
      ValuePrinted(m.value, rest, KeySelector(s, key), depth + 1, limit, tally');
    }
  }

  /** The keys to come are new, and new among themselves. */
  predicate Fresh(keys: set<Units>, more: seq<Units>) {
    |keys| + |more| <= MAX_KEYS && Distinct(more) && forall i | 0 <= i < |more| :: more[i] !in keys
  }

  lemma FreshStep(keys: set<Units>, key: Units, more: seq<Units>)
    ensures Fresh(keys, [key] + more) <==> key !in keys && |keys| < MAX_KEYS && Fresh(keys + {key}, more)
  {
    var all := [key] + more;
    if Fresh(keys, all) {
      assert all[0] == key;
      forall i | 0 <= i < |more|
        ensures more[i] !in keys + {key}
      {
        assert all[i + 1] == more[i];
      }
      forall i, j | 0 <= i < j < |more|
        ensures more[i] != more[j]
      {
        assert all[i + 1] == more[i] && all[j + 1] == more[j];
      }
    }
    if key !in keys && |keys| < MAX_KEYS && Fresh(keys + {key}, more) {
      assert Fresh(keys, all);
    }
  }

  lemma FreshOne(keys: set<Units>, key: Units)
    ensures Fresh(keys, [key]) <==> key !in keys && |keys| < MAX_KEYS
  {
    assert [key][0] == key;
  }

  lemma MembersStep(t: Text, s: Selector, depth: nat, limit: nat, tally: Tally, keys: set<Units>, kept: seq<Field>)
    ensures var r := MemberAt(t, s, depth, limit, tally, keys);
            MembersAt(t, s, depth, limit, tally, keys, kept)
            == if r.Err? then Err(r.error)
               else
                 match SeparatorAt(r.rest, '}')
                 case Neither => Err(Syntax)
                 case Last(u) => Ok(Kept(s, Object(AddField(s, kept, r.value))), u, r.tally)
                 case Next(u) => MembersAt(u, s, depth, limit, r.tally, keys + {r.value.key}, AddField(s, kept, r.value))
  {
    hide MemberAt, SeparatorAt, AddField;
  }

  /** What reading a printed list of members comes to. */
  ghost predicate ReadsMembers(members: Members, rest: Text, s: Selector, depth: nat, limit: nat, tally: Tally,
                               keys: set<Units>, kept: seq<Field>) {
    Reads(MembersAt(PrintMembers(members, rest), s, depth, limit, tally, keys, kept),
          Fresh(keys, MemberKeys(members)) && MembersStructured(members, depth)
          && Affordable(tally, MembersNeed(members, s), limit),
          Kept(s, Object(kept + ProjectFields(DenoteMembers(members), s))), rest,
          Charge(tally, MembersNeed(members, s)))
  }

  ghost predicate ReadsMember(m: Member, rest: Text, s: Selector, depth: nat, limit: nat, tally: Tally, keys: set<Units>) {
    var key := Meaning(m.key);
    Reads(MemberAt(PrintMember(m, rest), s, depth, limit, tally, keys),
          key !in keys && |keys| < MAX_KEYS && Structured(m.value, depth + 1)
          && Affordable(tally, MemberNeeds(m, s), limit),
          Field(key, Project(Denote(m.value), KeySelector(s, key))), rest,
          Charge(tally, MemberNeeds(m, s)))
  }

  lemma {:induction false} MembersPrinted(members: Members, rest: Text, s: Selector, depth: nat, limit: nat, tally: Tally,
                                          keys: set<Units>, kept: seq<Field>)
    requires MembersSpelledOk(members) && Room(tally, limit)
    ensures ReadsMembers(members, rest, s, depth, limit, tally, keys, kept)
    decreases members, 3
  {
    hide MemberAt, MembersAt, PrintMember, Project, Denote, MemberNeeds, MemberSpelledOk, AddField,
         ReadsMember, ReadsMembers;
    match members
    case LastMember(m, after) =>
      MemberPrinted(m, after + (['}'] + rest), s, depth, limit, tally, keys);
      LastMemberReads(m, after, rest, s, depth, limit, tally, keys, kept);
    case MoreMembers(m, after, tail) =>
      var key := Meaning(m.key);
      MemberPrinted(m, after + ([','] + PrintMembers(tail, rest)), s, depth, limit, tally, keys);
      var tally' := Charge(tally, MemberNeeds(m, s));
      if Room(tally', limit) {
        MembersPrinted(tail, rest, s, depth, limit, tally', keys + {key},
                       AddField(s, kept, Field(key, Project(Denote(m.value), KeySelector(s, key)))));
      }
      MoreMembersRead(m, after, tail, rest, s, depth, limit, tally, keys, kept);
  }

  lemma LastMemberReads(m: Member, after: Text, rest: Text, s: Selector, depth: nat, limit: nat, tally: Tally,
                        keys: set<Units>, kept: seq<Field>)
    requires IsSpace(after)
    requires ReadsMember(m, after + (['}'] + rest), s, depth, limit, tally, keys)
    ensures ReadsMembers(LastMember(m, after), rest, s, depth, limit, tally, keys, kept)
  {
    hide MemberAt, MembersAt, PrintMember, Project, Denote, MemberNeeds, Structured, Fresh, AddField;
    var members, f := LastMember(m, after), Field(Meaning(m.key), Denote(m.value));
    MembersStep(PrintMembers(members, rest), s, depth, limit, tally, keys, kept);
    SkipTo(after, '}', rest);
    FreshOne(keys, f.key);
    assert MemberKeys(members) == [f.key];
    assert DenoteMembers(members) == [f] + [];
    ProjectFieldsStep(s, kept, f, []);
    var f' := Field(f.key, Project(f.value, KeySelector(s, f.key)));
    assert AddField(s, kept, f') + [] == AddField(s, kept, f');
  }

  lemma MoreMembersRead(m: Member, after: Text, tail: Members, rest: Text, s: Selector, depth: nat, limit: nat, tally: Tally,
                        keys: set<Units>, kept: seq<Field>)
    requires IsSpace(after)
    requires ReadsMember(m, after + ([','] + PrintMembers(tail, rest)), s, depth, limit, tally, keys)
    requires var tally', key := Charge(tally, MemberNeeds(m, s)), Meaning(m.key);
             Room(tally', limit) ==>
               ReadsMembers(tail, rest, s, depth, limit, tally', keys + {key},
                            AddField(s, kept, Field(key, Project(Denote(m.value), KeySelector(s, key)))))
    ensures ReadsMembers(MoreMembers(m, after, tail), rest, s, depth, limit, tally, keys, kept)
  {
    hide MemberAt, MembersAt, PrintMember, Project, Denote, MemberNeeds, Structured, Fresh, AddField;
    var members, f := MoreMembers(m, after, tail), Field(Meaning(m.key), Denote(m.value));
    MembersStep(PrintMembers(members, rest), s, depth, limit, tally, keys, kept);
    SkipTo(after, ',', PrintMembers(tail, rest));
    FreshStep(keys, f.key, MemberKeys(tail));
    ProjectFieldsStep(s, kept, f, DenoteMembers(tail));
  }
}
