/**
  The restart-safe monitor: one record holds the window of recent terminal attempts,
  the current alerts, and how they changed. Every sample merges what it saw into
  that record.
*/
module MonitorWindow {

  /** A monitored attempt. `start` is the place of its start time in their order. */
  datatype Record = Record(id: string, start: nat, terminal: bool, natural: bool, workerOk: bool, publicationOk: bool,
                           readback: bool, pressureFree: bool, held: bool, deadlineStop: bool,
                           approved: bool, sources: nat, peak: nat, downshift: bool)

  /** Different records are of different attempts that started at different times. */
  ghost predicate Distinct(records: set<Record>) {
    forall a, b | a in records && b in records && (a.id == b.id || a.start == b.start) :: a == b
  }

  predicate Ascending(s: seq<Record>) {
    forall i, j | 0 <= i < j < |s| :: s[i].start < s[j].start
  }

  function Elements(s: seq<Record>): set<Record> {
    set r | r in s
  }

  /** A dictionary by id, in insertion order: an id that is there keeps its place. */
  function Update(dictionary: seq<Record>, r: Record): seq<Record> {
    if dictionary == [] then [r]
    else if dictionary[0].id == r.id then [r] + dictionary[1..]
    else [dictionary[0]] + Update(dictionary[1..], r)
  }

  /** Stable insertion by start time. */
  function Place(s: seq<Record>, r: Record): seq<Record> {
    if s == [] || s[|s| - 1].start <= r.start then s + [r]
    else Place(s[..|s| - 1], r) + [s[|s| - 1]]
  }

  function Sorted(s: seq<Record>): seq<Record> {
    if s == [] then [] else Place(Sorted(s[..|s| - 1]), s[|s| - 1])
  }

  /** The last n elements. */
  function Last(s: seq<Record>, n: nat): seq<Record> {
    if |s| <= n then s else s[|s| - n..]
  }

  /** What the slice [-n:] yields: with n of 0 it is everything. */
  function Kept(s: seq<Record>, n: nat): seq<Record> {
    if n == 0 then s else Last(s, n)
  }

  /** Without the record of one id. */
  function Drop(s: seq<Record>, id: string): seq<Record> {
    if s == [] then []
    else if s[|s| - 1].id == id then Drop(s[..|s| - 1], id)
    else Drop(s[..|s| - 1], id) + [s[|s| - 1]]
  }

  /** Replace the record of an id in an ascending sequence, or add it. */
  function Put(s: seq<Record>, r: Record): seq<Record> {
    if s == [] || s[|s| - 1].id == r.id || s[|s| - 1].start < r.start then Drop(s, r.id) + [r]
    else Put(s[..|s| - 1], r) + [s[|s| - 1]]
  }

  function PutAll(s: seq<Record>, records: seq<Record>): seq<Record> {
    if records == [] then s else Put(PutAll(s, records[..|records| - 1]), records[|records| - 1])
  }

  function Without(records: set<Record>, id: string): set<Record> {
    set r | r in records && r.id != id
  }

  /** The latest record of each id, when records are observed one after the other. */
  function LatestFrom(known: set<Record>, records: seq<Record>): set<Record> {
    if records == [] then known
    else
      var r := records[|records| - 1];
      Without(LatestFrom(known, records[..|records| - 1]), r.id) + {r}
  }

  /** A record that starts at no other attempt's time, and not earlier than its own
      attempt was said to start before. */
  ghost predicate OrderlyWith(known: set<Record>, r: Record) {
    forall x | x in known :: if x.id == r.id then x.start <= r.start else x.start != r.start
  }

  ghost predicate OrderlyFrom(known: set<Record>, records: seq<Record>) {
    records == [] ||
      (OrderlyFrom(known, records[..|records| - 1])
       && OrderlyWith(LatestFrom(known, records[..|records| - 1]), records[|records| - 1]))
  }

  lemma {:induction false} LatestOn(known: set<Record>, a: seq<Record>, b: seq<Record>)
    ensures LatestFrom(known, a + b) == LatestFrom(LatestFrom(known, a), b)
    ensures OrderlyFrom(known, a + b) <==> OrderlyFrom(known, a) && OrderlyFrom(LatestFrom(known, a), b)
  {
    if b == [] {
      assert a + b == a;
    } else {
      assert (a + b)[..|a + b| - 1] == a + b[..|b| - 1];
      LatestOn(known, a, b[..|b| - 1]);
    }
  }

  /** Observations in which each attempt has one start time, and no two the same, are
      orderly, whatever else changes from one observation to the next. */
  lemma {:induction false} FixedStartsAreOrderly(records: seq<Record>)
    requires forall a, b | a in records && b in records :: a.id == b.id <==> a.start == b.start
    ensures OrderlyFrom({}, records) && LatestFrom({}, records) <= Elements(records)
  {
    if records != [] {
      var init := records[..|records| - 1];
      FixedStartsAreOrderly(init);
      assert forall x | x in LatestFrom({}, init) :: x in init && x in records;
    }
  }

  lemma Snoc(s: seq<Record>, r: Record)
    ensures Elements(s + [r]) == Elements(s) + {r}
    ensures Ascending(s) && (forall x | x in s :: x.start < r.start) ==> Ascending(s + [r])
    ensures Ascending(s + [r]) ==> Ascending(s) && forall x | x in s :: x.start < r.start
  {
    if Ascending(s + [r]) {
      assert (s + [r])[|s|] == r && s == (s + [r])[..|s|];
    }
  }

  lemma {:induction false} DropAscending(s: seq<Record>, id: string)
    requires Ascending(s)
    ensures Ascending(Drop(s, id)) && Elements(Drop(s, id)) == Without(Elements(s), id)
    ensures forall x | x in Drop(s, id) :: x in s
  {
    NoElements(s);
    if s == [] {
      NoElements(Drop(s, id));
    } else {
      hide Ascending, Elements;
      var init, last := s[..|s| - 1], s[|s| - 1];
      assert s == init + [last];
      Snoc(init, last);
      DropAscending(init, id);
      Snoc(Drop(init, id), last);
    }
  }

  /** Replacing keeps the order when the record is orderly. */
  lemma {:induction false} PutAscending(s: seq<Record>, r: Record)
    requires Ascending(s) && OrderlyWith(Elements(s), r)
    ensures Ascending(Put(s, r)) && Elements(Put(s, r)) == Without(Elements(s), r.id) + {r}
  {
    hide Ascending, Elements;
    DropAscending(s, r.id);
    if s == [] {
      Snoc(Drop(s, r.id), r);
    } else {
      var init, last := s[..|s| - 1], s[|s| - 1];
      assert s == init + [last];
      Snoc(init, last);
      assert last in Elements(s);
      if last.id == r.id || last.start < r.start {
        DroppedBefore(s, r);
        Snoc(Drop(s, r.id), r);
      } else {
        PutAscending(init, r);
        PutBefore(init, r, last);
        Snoc(Put(init, r), last);
      }
    }
  }

  /** What remains started before the record that replaces the last or comes after it. */
  lemma DroppedBefore(s: seq<Record>, r: Record)
    requires Ascending(s) && OrderlyWith(Elements(s), r) && s != []
    requires s[|s| - 1].id == r.id || s[|s| - 1].start < r.start
    ensures forall x | x in Drop(s, r.id) :: x.start < r.start
  {
    DropAscending(s, r.id);
    var last := s[|s| - 1];
    assert last in Elements(s);
    forall x | x in Drop(s, r.id) ensures x.start < r.start {
      assert x in Elements(Drop(s, r.id));
      var i :| 0 <= i < |s| && s[i] == x;
    }
  }

  lemma PutBefore(s: seq<Record>, r: Record, last: Record)
    requires Elements(Put(s, r)) == Without(Elements(s), r.id) + {r} && r.start < last.start
    requires forall x | x in s :: x.start < last.start
    ensures forall x | x in Put(s, r) :: x.start < last.start
  {
    forall x | x in Put(s, r) ensures x.start < last.start {
      assert x in Elements(Put(s, r));
    }
  }

  lemma Fewer(a: set<Record>, b: set<Record>)
    requires a <= b && Distinct(b)
    ensures Distinct(a)
  {
  }

  lemma ReplaceDistinct(known: set<Record>, r: Record)
    requires Distinct(known) && OrderlyWith(known, r)
    ensures Distinct(Without(known, r.id) + {r})
  {
  }

  lemma {:induction false} PutAllAscending(s: seq<Record>, records: seq<Record>)
    requires Ascending(s) && Distinct(Elements(s)) && OrderlyFrom(Elements(s), records)
    ensures Ascending(PutAll(s, records)) && Elements(PutAll(s, records)) == LatestFrom(Elements(s), records)
    ensures Distinct(Elements(PutAll(s, records)))
  {
    hide Ascending, Elements, Put, Distinct, OrderlyWith, Without;
    if records != [] {
      var init, r := records[..|records| - 1], records[|records| - 1];
      PutAllAscending(s, init);
      PutAscending(PutAll(s, init), r);
      ReplaceDistinct(Elements(PutAll(s, init)), r);
    }
  }

  /** What is orderly for more records is orderly for fewer. */
  lemma {:induction false} OrderlyFewer(few: set<Record>, known: set<Record>, records: seq<Record>)
    requires few <= known && OrderlyFrom(known, records)
    ensures OrderlyFrom(few, records) && LatestFrom(few, records) <= LatestFrom(known, records)
  {
    if records != [] {
      OrderlyFewer(few, known, records[..|records| - 1]);
    }
  }

  lemma LastSnoc(s: seq<Record>, r: Record, n: nat)
    requires n > 0
    ensures Last(s + [r], n) == Last(s, n - 1) + [r]
    ensures Last(s, n - 1) == Last(Last(s, n), n - 1)
  {
  }

  predicate UniqueIds(s: seq<Record>) {
    forall i, j | 0 <= i < j < |s| :: s[i].id != s[j].id
  }

  lemma UniqueSnoc(s: seq<Record>, r: Record)
    requires UniqueIds(s + [r])
    ensures UniqueIds(s) && forall x | x in s :: x.id != r.id
  {
    assert (s + [r])[|s|] == r && forall i | 0 <= i < |s| :: (s + [r])[i] == s[i];
  }

  lemma {:induction false} DropNone(s: seq<Record>, id: string)
    requires forall x | x in s :: x.id != id
    ensures Drop(s, id) == s
  {
    if s != [] {
      DropNone(s[..|s| - 1], id);
    }
  }

  lemma DropSnoc(s: seq<Record>, r: Record, id: string)
    ensures Drop(s + [r], id) == if r.id == id then Drop(s, id) else Drop(s, id) + [r]
  {
    assert (s + [r])[..|s|] == s;
  }

  /** What is latest without one id, one record fewer, depends only on the latest. */
  lemma {:induction false} DropLast(x: seq<Record>, y: seq<Record>, id: string, n: nat)
    requires n > 0 && Last(x, n) == Last(y, n) && UniqueIds(x) && UniqueIds(y)
    ensures Last(Drop(x, id), n - 1) == Last(Drop(y, id), n - 1)
    decreases n
  {
    hide Last, Drop, UniqueIds;
    LastOfNone(x, n);
    LastOfNone(y, n);
    if x != [] && y != [] {
      var x', a, y', b := x[..|x| - 1], x[|x| - 1], y[..|y| - 1], y[|y| - 1];
      assert x == x' + [a] && y == y' + [b];
      LastSnoc(x', a, n);
      LastSnoc(y', b, n);
      SameEnds(Last(x', n - 1), a, Last(y', n - 1), b);
      UniqueSnoc(x', a);
      UniqueSnoc(y', b);
      DropSnoc(x', a, id);
      DropSnoc(y', b, id);
      if a.id == id {
        DropNone(x', id);
        DropNone(y', id);
      } else if n > 1 {
        DropLast(x', y', id, n - 1);
        LastSnoc(Drop(x', id), a, n - 1);
        LastSnoc(Drop(y', id), b, n - 1);
      } else {
        LastOfNone(Drop(x, id), 0);
        LastOfNone(Drop(y, id), 0);
      }
    }
  }

  lemma PutSnoc(s: seq<Record>, a: Record, r: Record)
    ensures Put(s + [a], r) == if a.id == r.id || a.start < r.start then Drop(s + [a], r.id) + [r] else Put(s, r) + [a]
  {
    assert (s + [a])[..|s|] == s;
  }

  /** The latest n after a record is put depend only on the latest n before. */
  lemma {:induction false} PutLast(x: seq<Record>, y: seq<Record>, r: Record, n: nat)
    requires Last(x, n) == Last(y, n) && UniqueIds(x) && UniqueIds(y)
    ensures Last(Put(x, r), n) == Last(Put(y, r), n)
    decreases n
  {
    hide Last, UniqueIds, Put, Drop;
    LastOfNone(x, n);
    LastOfNone(y, n);
    if n == 0 {
      LastOfNone(Put(x, r), n);
      LastOfNone(Put(y, r), n);
    } else if x == [] || y == [] {
      assert x == y;
    } else {
      var x', a, y', b := x[..|x| - 1], x[|x| - 1], y[..|y| - 1], y[|y| - 1];
      assert x == x' + [a] && y == y' + [b];
      LastSnoc(x', a, n);
      LastSnoc(y', b, n);
      SameEnds(Last(x', n - 1), a, Last(y', n - 1), b);
      PutSnoc(x', a, r);
      PutSnoc(y', b, r);
      if a.id == r.id || a.start < r.start {
        DropLast(x, y, r.id, n);
        LastSnoc(Drop(x, r.id), r, n);
        LastSnoc(Drop(y, r.id), r, n);
      } else {
        UniqueSnoc(x', a);
        UniqueSnoc(y', b);
        PutLast(x', y', r, n - 1);
        LastSnoc(Put(x', r), a, n);
        LastSnoc(Put(y', r), b, n);
      }
    }
  }

  lemma LastOfNone(s: seq<Record>, n: nat)
    ensures Last(s, n) == [] <==> n == 0 || s == []
  {
  }

  lemma SameEnds(s: seq<Record>, a: Record, t: seq<Record>, b: Record)
    requires s + [a] == t + [b]
    ensures s == t && a == b
  {
    assert (s + [a])[..|s|] == s && (t + [b])[..|t|] == t;
    assert (s + [a])[|s|] == a && (t + [b])[|t|] == b;
  }

  lemma IdsUnique(s: seq<Record>)
    requires Ascending(s) && Distinct(Elements(s))
    ensures UniqueIds(s)
  {
    forall i, j | 0 <= i < j < |s| ensures s[i].id != s[j].id {
      assert s[i] in Elements(s) && s[j] in Elements(s);
    }
  }

  lemma {:induction false} PutAllLast(x: seq<Record>, y: seq<Record>, records: seq<Record>, n: nat)
    requires Last(x, n) == Last(y, n)
    requires Ascending(x) && Distinct(Elements(x)) && OrderlyFrom(Elements(x), records)
    requires Ascending(y) && Distinct(Elements(y)) && OrderlyFrom(Elements(y), records)
    ensures Last(PutAll(x, records), n) == Last(PutAll(y, records), n)
  {
    hide Last, Put, Ascending, Elements, Distinct, OrderlyWith, LatestFrom;
    if records != [] {
      var init := records[..|records| - 1];
      PutAllLast(x, y, init, n);
      PutAllAscending(x, init);
      PutAllAscending(y, init);
      IdsUnique(PutAll(x, init));
      IdsUnique(PutAll(y, init));
      PutLast(PutAll(x, init), PutAll(y, init), records[|records| - 1], n);
    }
  }

  lemma NoElements(s: seq<Record>)
    ensures Elements(s) == {} <==> s == []
  {
    assert s != [] ==> s[0] in Elements(s);
  }

  /** There is one way to arrange records by distinct start times. */
  lemma {:induction false} OneArrangement(x: seq<Record>, y: seq<Record>)
    requires Ascending(x) && Ascending(y) && Elements(x) == Elements(y)
    ensures x == y
  {
    NoElements(x);
    NoElements(y);
    if x != [] && y != [] {
      var a, b := |x| - 1, |y| - 1;
      assert x[a] in Elements(y) && y[b] in Elements(x);
      assert x[a] == y[b];
      assert Elements(x[..a]) == Elements(x) - {x[a]};
      assert Elements(y[..b]) == Elements(y) - {y[b]};
      OneArrangement(x[..a], y[..b]);
      assert x == x[..a] + [x[a]] && y == y[..b] + [y[b]];
    }
  }

  lemma Cons(r: Record, s: seq<Record>)
    ensures Elements([r] + s) == {r} + Elements(s)
    ensures UniqueIds([r] + s) <==> (forall x | x in Elements(s) :: x.id != r.id) && UniqueIds(s)
  {
    assert ([r] + s)[0] == r && forall i | 0 <= i < |s| :: ([r] + s)[i + 1] == s[i];
  }

  /** Updating a dictionary replaces the record of one id. */
  lemma {:induction false} UpdateReplaces(s: seq<Record>, r: Record)
    requires UniqueIds(s)
    ensures UniqueIds(Update(s, r)) && Elements(Update(s, r)) == Without(Elements(s), r.id) + {r}
  {
    hide UniqueIds, Elements;
    NoElements([]);
    Cons(r, []);
    if s == [] {
      assert [r] + [] == [r];
      Single(r);
    } else {
      var first, rest := s[0], s[1..];
      assert s == [first] + rest;
      Cons(first, rest);
      if first.id == r.id {
        Cons(r, rest);
      } else {
        UpdateReplaces(rest, r);
        Cons(first, Update(rest, r));
      }
    }
  }

  lemma Single(r: Record)
    ensures UniqueIds([r])
  {
  }

  lemma {:induction false} PlaceAscending(s: seq<Record>, r: Record)
    requires Ascending(s) && forall x | x in s :: x.start != r.start
    ensures Ascending(Place(s, r)) && Elements(Place(s, r)) == Elements(s) + {r}
  {
    hide Ascending, Elements;
    if s == [] {
      Snoc(s, r);
    } else {
      var init, last := s[..|s| - 1], s[|s| - 1];
      assert s == init + [last];
      Snoc(init, last);
      if last.start <= r.start {
        Snoc(s, r);
      } else {
        PlaceAscending(init, r);
        PlaceAll(init, r);
        Snoc(Place(init, r), last);
      }
    }
  }

  /** Sorting a dictionary of distinct attempts puts them in ascending order. */
  lemma {:induction false} SortedAscending(s: seq<Record>)
    requires UniqueIds(s) && Distinct(Elements(s))
    ensures Ascending(Sorted(s)) && Elements(Sorted(s)) == Elements(s)
  {
    if s != [] {
      hide Ascending, Elements, Place;
      var init, r := s[..|s| - 1], s[|s| - 1];
      assert s == init + [r];
      Snoc(init, r);
      assert Elements(init) + {r} == Elements(s);
      Fewer(Elements(init), Elements(s));
      SortedAscending(init);
      Apart(init, r);
      PlaceAscending(Sorted(init), r);
    }
  }

  lemma Apart(s: seq<Record>, r: Record)
    requires UniqueIds(s + [r]) && Distinct(Elements(s) + {r}) && Elements(Sorted(s)) == Elements(s)
    ensures forall x | x in Sorted(s) :: x.start != r.start
  {
    forall x | x in Sorted(s) ensures x.start != r.start {
      assert x in Elements(Sorted(s));
      var i :| 0 <= i < |s| && s[i] == x;
      assert (s + [r])[i] == x && (s + [r])[|s|] == r;
    }
  }

  /** A record is among the latest n exactly when fewer than n started after it. */
  lemma LatestByRank(s: seq<Record>, n: nat, i: nat)
    requires Ascending(s) && i < |s|
    ensures s[i] in Last(s, n) <==> |set r | r in s && r.start > s[i].start| < n
  {
    var later := set r | r in s && r.start > s[i].start;
    assert later == Elements(s[i + 1..]) by {
      forall r | r in later ensures r in s[i + 1..] {
        var k :| 0 <= k < |s| && s[k] == r;
        assert k > i && s[i + 1..][k - i - 1] == r;
      }
    }
    CountAscending(s[i + 1..]);
    if n < |s| {
      if i >= |s| - n {
        assert Last(s, n)[i - (|s| - n)] == s[i];
      } else {
        forall x | x in Last(s, n) ensures x.start > s[i].start {
          var k :| 0 <= k < n && Last(s, n)[k] == x;
          assert s[|s| - n + k] == x;
        }
      }
    }
  }

  lemma {:induction false} CountAscending(s: seq<Record>)
    requires Ascending(s)
    ensures |Elements(s)| == |s|
  {
    if s != [] {
      var init, r := s[..|s| - 1], s[|s| - 1];
      CountAscending(init);
      assert Elements(s) == Elements(init) + {r};
      assert r !in Elements(init);
    }
  }

  /** The slice keeps the latest n for every n but 0, for which it keeps everything. */
  lemma KeptIsLast(s: seq<Record>, n: nat)
    ensures Kept(s, n) == Last(s, n) <==> n > 0 || s == []
  {
  }

  predicate Success(r: Record) {
    r.natural && r.workerOk && r.publicationOk && r.readback && r.pressureFree && !r.held && !r.deadlineStop
  }

  function Streak(s: seq<Record>): nat {
    if s == [] || !Success(s[|s| - 1]) then 0 else Streak(s[..|s| - 1]) + 1
  }

  /** The streak is the length of the longest successful suffix. */
  lemma {:induction false} StreakIsMaximal(s: seq<Record>, n: nat)
    requires n <= |s|
    ensures Streak(s) <= |s|
    ensures n <= Streak(s) <==> forall r | r in Last(s, n) :: Success(r)
  {
    if s != [] {
      var init, r := s[..|s| - 1], s[|s| - 1];
      assert s == init + [r];
      if n == 0 {
        StreakIsMaximal(init, 0);
      } else {
        LastSnoc(init, r, n);
        StreakIsMaximal(init, n - 1);
      }
    }
  }

  lemma StreakSnoc(s: seq<Record>, r: Record)
    ensures Streak(s + [r]) == if Success(r) then Streak(s) + 1 else 0
  {
    assert (s + [r])[..|s|] == s;
  }

  /** Over the window the streak is that of the whole history, up to the window. */
  lemma {:induction false} StreakOfWindow(s: seq<Record>, n: nat)
    ensures Streak(Last(s, n)) == if Streak(s) <= n then Streak(s) else n
  {
    LastOfNone(s, n);
    if s != [] && n > 0 {
      hide Last, Streak, Success;
      var init, r := s[..|s| - 1], s[|s| - 1];
      assert s == init + [r];
      LastSnoc(init, r, n);
      StreakSnoc(init, r);
      StreakSnoc(Last(init, n - 1), r);
      StreakOfWindow(init, n - 1);
    }
  }

  datatype Readiness = Readiness(streak: nat, overlap: bool, downshift: bool, ready: bool)

  predicate Overlaps(r: Record) {
    Success(r) && r.approved && r.sources >= 2 && r.peak >= 2
  }

  /** Three natural successes in a row, an approved overlap and a safe downshift. */
  method A8Readiness(ordered: seq<Record>) returns (r: Readiness)
    requires forall x | x in ordered :: x.terminal
    ensures r.streak == Streak(ordered)
    ensures r.overlap <==> exists x | x in ordered :: Overlaps(x)
    ensures r.downshift <==> exists x | x in ordered :: x.downshift
    ensures r.ready <==> r.streak >= 3 && r.overlap && r.downshift
  {
    var streak, overlap, downshift := 0, false, false;
    for i := 0 to |ordered|
      invariant streak == Streak(ordered[..i])
      invariant overlap <==> exists x | x in ordered[..i] :: Overlaps(x)
      invariant downshift <==> exists x | x in ordered[..i] :: x.downshift
    {
      var record := ordered[i];
      assert ordered[..i + 1] == ordered[..i] + [record];
      assert ordered[..i + 1][..i] == ordered[..i];
      var success := Success(record);
      assert Overlaps(record) == (success && record.approved && record.sources >= 2 && record.peak >= 2);
      streak := if success then streak + 1 else 0;
      overlap := overlap || (success && record.approved && record.sources >= 2 && record.peak >= 2);
      downshift := downshift || record.downshift;
    }
    assert ordered[..|ordered|] == ordered;
    r := Readiness(streak, overlap, downshift, streak >= 3 && overlap && downshift);
  }

  /** Opened (here: begun) and resolved alerts of one sample. */
  datatype Changes = Changes(begun: set<string>, resolved: set<string>)

  /** The alerts that a history of changes leaves open. */
  function Folded(history: seq<Changes>): set<string> {
    if history == [] then {}
    else Folded(history[..|history| - 1]) - history[|history| - 1].resolved + history[|history| - 1].begun
  }

  /** The changes of a sample turn the alerts before into those of the sample. */
  lemma FoldNext(history: seq<Changes>, current: set<string>)
    ensures var alerts := Folded(history);
            Folded(history + [Changes(current - alerts, alerts - current)]) == current
  {
    var change := Changes(current - Folded(history), Folded(history) - current);
    assert (history + [change])[..|history|] == history;
  }

  function Terminal(records: seq<Record>): seq<Record> {
    if records == [] then []
    else Terminal(records[..|records| - 1]) + (if records[|records| - 1].terminal then [records[|records| - 1]] else [])
  }

  /** Merge the terminal attempts of a sample into the dictionary of the window. */
  method Collect(cycles: seq<Record>, records: seq<Record>) returns (completed: seq<Record>)
    requires forall r | r in cycles :: r.terminal
    ensures forall r | r in completed :: r.terminal
    ensures UniqueIds(cycles) ==>
              UniqueIds(completed) && Elements(completed) == LatestFrom(Elements(cycles), Terminal(records))
  {
    hide *;
    completed := cycles;
    assert records[..0] == [];
    NoneTerminal(Elements(cycles));
    for i := 0 to |records|
      invariant forall r | r in completed :: r.terminal
      invariant UniqueIds(cycles) ==>
                  UniqueIds(completed) && Elements(completed) == LatestFrom(Elements(cycles), Terminal(records[..i]))
    {
      TerminalNext(Elements(cycles), records, i);
      if records[i].terminal {
        UpdateTerminal(completed, records[i]);
        if UniqueIds(cycles) {
          UpdateReplaces(completed, records[i]);
        }
        completed := Update(completed, records[i]);
      }
    }
    assert records[..|records|] == records;
  }

  lemma NoneTerminal(known: set<Record>)
    ensures LatestFrom(known, Terminal([])) == known
  {
  }

  lemma TerminalNext(known: set<Record>, records: seq<Record>, i: nat)
    requires i < |records|
    ensures var before, after := Terminal(records[..i]), Terminal(records[..i + 1]);
            LatestFrom(known, after) ==
              if records[i].terminal then Without(LatestFrom(known, before), records[i].id) + {records[i]}
              else LatestFrom(known, before)
  {
    assert records[..i + 1][..i] == records[..i];
    var before := Terminal(records[..i]);
    assert (before + [records[i]])[..|before|] == before;
    assert before + [] == before;
  }

  /** The window that a sample computes is the window of the whole history, put
      together from the same records. */
  lemma WindowOfHistory(history: seq<Record>, cycles: seq<Record>, completed: seq<Record>, records: seq<Record>, n: nat)
    requires Ascending(history) && Distinct(Elements(history)) && OrderlyFrom(Elements(history), records)
    requires cycles == Kept(history, n)
    requires UniqueIds(completed) && Elements(completed) == LatestFrom(Elements(cycles), records)
    ensures Kept(Sorted(completed), n) == Kept(PutAll(history, records), n)
  {
    KeptPart(history, n);
    hide Ascending, Elements, Distinct, OrderlyFrom, UniqueIds, PutAll, Sorted, LatestFrom;
    Fewer(Elements(cycles), Elements(history));
    OrderlyFewer(Elements(cycles), Elements(history), records);
    PutAllAscending(cycles, records);
    SortedAscending(completed);
    OneArrangement(Sorted(completed), PutAll(cycles, records));
    LastOfLast(history, n);
    PutAllLast(cycles, history, records, n);
  }

  lemma LastOfLast(s: seq<Record>, n: nat)
    ensures Last(Kept(s, n), n) == Last(s, n)
  {
  }

  /** A record put behind all that started earlier leaves those as they are. */
  lemma {:induction false} PutBehind(f: seq<Record>, g: seq<Record>, r: Record)
    requires (forall x | x in f + g :: x.id != r.id) && forall x | x in f :: x.start < r.start
    ensures Put(f + g, r) == f + Put(g, r)
    decreases |g|
  {
    hide Put, Drop;
    if g == [] {
      assert f + g == f;
      PutLatest(f, r);
      PutLatest(g, r);
    } else {
      var init, last := g[..|g| - 1], g[|g| - 1];
      assert g == init + [last] && f + g == f + init + [last];
      assert last in f + g && forall x | x in f + init :: x in f + g;
      PutSnoc(f + init, last, r);
      PutSnoc(init, last, r);
      if last.start < r.start {
        DropNone(f + g, r.id);
        DropNone(g, r.id);
        assert f + g + [r] == f + (g + [r]);
      } else {
        PutBehind(f, init, r);
        assert f + Put(init, r) + [last] == f + (Put(init, r) + [last]);
      }
    }
  }

  lemma PutLatest(s: seq<Record>, r: Record)
    requires forall x | x in s :: x.id != r.id && x.start < r.start
    ensures Put(s, r) == s + [r]
  {
    DropNone(s, r.id);
  }

  /** A record put before all that started later leaves those as they are. */
  lemma {:induction false} PutAhead(f: seq<Record>, g: seq<Record>, r: Record)
    requires forall x | x in g :: x.id != r.id && r.start < x.start
    ensures Put(f + g, r) == Put(f, r) + g
    decreases |g|
  {
    hide Put;
    if g == [] {
      assert f + g == f && Put(f, r) + g == Put(f, r);
    } else {
      var init, last := g[..|g| - 1], g[|g| - 1];
      assert g == init + [last] && f + g == f + init + [last];
      PutSnoc(f + init, last, r);
      PutAhead(f, init, r);
      assert Put(f, r) + init + [last] == Put(f, r) + g;
    }
  }

  lemma {:induction false} DropConcat(f: seq<Record>, g: seq<Record>, id: string)
    ensures Drop(f + g, id) == Drop(f, id) + Drop(g, id)
    decreases |g|
  {
    if g == [] {
      assert f + g == f;
    } else {
      var init, last := g[..|g| - 1], g[|g| - 1];
      assert f + g == f + init + [last] && g == init + [last];
      DropConcat(f, init, id);
      DropSnoc(f + init, last, id);
      DropSnoc(init, last, id);
    }
  }

  /** Where a record belongs that starts at no other attempt's time, whatever its own
      attempt was said before: update and sort put it there. */
  lemma UpdatedSorted(s: seq<Record>, r: Record)
    requires Ascending(s) && Distinct(Elements(s)) && forall x | x in s && x.id != r.id :: x.start != r.start
    ensures Sorted(Update(s, r)) == Put(Drop(s, r.id), r)
  {
    hide Ascending, Update, Sorted, Put, Drop, UniqueIds;
    IdsUnique(s);
    UpdateReplaces(s, r);
    DropAscending(s, r.id);
    var rest := Drop(s, r.id);
    assert Elements(rest) == Without(Elements(s), r.id);
    assert forall x | x in Elements(rest) :: x in Elements(s) && x in s && x.id != r.id;
    PutAscending(rest, r);
    assert Without(Elements(rest), r.id) == Elements(rest);
    SortedAscending(Update(s, r));
    OneArrangement(Sorted(Update(s, r)), Put(rest, r));
  }

  lemma WindowPart(history: seq<Record>, w: seq<Record>)
    requires Ascending(history) && Distinct(Elements(history)) && |w| <= |history| && w == history[|history| - |w|..]
    ensures Ascending(w) && Distinct(Elements(w)) && forall x | x in w :: x in history
  {
    forall i, j | 0 <= i < j < |w| ensures w[i].start < w[j].start {
      assert w[i] == history[|history| - |w| + i] && w[j] == history[|history| - |w| + j];
    }
    Fewer(Elements(w), Elements(history));
  }

  /** An attempt that is not in the window enters both windows alike. */
  lemma Outside(f: seq<Record>, w: seq<Record>, r: Record, n: nat)
    requires |w| == n && UniqueIds(w) && UniqueIds(Drop(f, r.id) + Drop(w, r.id)) && forall x | x in w :: x.id != r.id
    ensures Last(Put(Drop(w, r.id), r), n) == Last(Put(Drop(f, r.id) + Drop(w, r.id), r), n)
  {
    hide Drop, Put, UniqueIds;
    DropNone(w, r.id);
    assert (Drop(f, r.id) + w)[|Drop(f, r.id)|..] == w;
    PutLast(w, Drop(f, r.id) + w, r, n);
  }

  /** One that still starts after all that came before enters both windows alike. */
  lemma StillLater(f: seq<Record>, g: seq<Record>, r: Record, n: nat)
    requires |g| + 1 == n && (forall x | x in f + g :: x.id != r.id) && forall x | x in f :: x.start < r.start
    ensures Last(Put(f + g, r), n) == Last(Put(g, r), n)
  {
    hide Put;
    PutBehind(f, g, r);
    assert forall x | x in g :: x in f + g;
    PutLength(g, r);
    assert (f + Put(g, r))[|f|..] == Put(g, r);
  }

  /** One that now starts before the latest of those takes its place. */
  lemma NowEarlier(init: seq<Record>, last: Record, g: seq<Record>, r: Record, n: nat)
    requires |g| + 1 == n && last.id != r.id && r.start < last.start
    requires forall x | x in g :: x.id != r.id && r.start < x.start
    ensures Last(Put(init + [last] + g, r), n) == [last] + g != [r] + g == Last(Put(g, r), n)
  {
    hide Put;
    PutAhead(init + [last], g, r);
    PutSnoc(init, last, r);
    PutAhead([], g, r);
    PutLatest([], r);
    assert [] + g == g && [] + [r] == [r];
    var all := Put(init, r) + [last] + g;
    assert all[|Put(init, r)|..] == [last] + g;
    assert ([r] + g)[0] == r && ([last] + g)[0] == last;
  }

  /** One that is there keeps its place in both exactly when it is still the later. */
  lemma Inside(f: seq<Record>, w: seq<Record>, r: Record, n: nat)
    requires |w| == n && UniqueIds(f + w) && Ascending(f + w) && f != [] && exists x | x in w :: x.id == r.id
    requires forall x | x in f :: x.start != r.start
    ensures Last(Put(Drop(w, r.id), r), n) == Last(Put(Drop(f, r.id) + Drop(w, r.id), r), n)
            <==> forall x | x in f :: x.start < r.start
  {
    hide *;
    ApartFrom(f, w, r.id);
    var g := Drop(w, r.id);
    assert forall x | x in f + g :: x.id != r.id;
    assert (forall x | x in f :: x in f + g) && forall x | x in g :: x in f + g;
    DropNone(f, r.id);
    if forall x | x in f :: x.start < r.start {
      StillLater(f, g, r, n);
    } else {
      var init, last := f[..|f| - 1], f[|f| - 1];
      assert f == init + [last] && last in f;
      NowEarlier(init, last, g, r, n);
    }
  }

  lemma {:induction false} PutLength(s: seq<Record>, r: Record)
    requires forall x | x in s :: x.id != r.id
    ensures |Put(s, r)| == |s| + 1
  {
    DropNone(s, r.id);
    if s != [] && s[|s| - 1].start >= r.start {
      PutLength(s[..|s| - 1], r);
    }
  }

  /** What came before an attempt of the window, and what is in it besides. */
  lemma ApartFrom(f: seq<Record>, w: seq<Record>, id: string)
    requires UniqueIds(f + w) && Ascending(f + w) && exists x | x in w :: x.id == id
    ensures forall x | x in f + Drop(w, id) :: x.id != id
    ensures |Drop(w, id)| == |w| - 1
    ensures forall x, y | x in f && y in Drop(w, id) :: x.start < y.start
    ensures f != [] ==> forall x | x in f :: x.start <= f[|f| - 1].start
  {
    var k :| 0 <= k < |w| && w[k].id == id;
    assert (f + w)[|f| + k] == w[k];
    forall x | x in f ensures x.id != id && forall y | y in w :: x.start < y.start {
      var i :| 0 <= i < |f| && f[i] == x;
      assert (f + w)[i] == x;
      forall y | y in w ensures x.start < y.start {
        var j :| 0 <= j < |w| && w[j] == y;
        assert (f + w)[|f| + j] == y;
      }
    }
    forall i, j | 0 <= i < j < |w| ensures w[i].id != w[j].id {
      assert (f + w)[|f| + i] == w[i] && (f + w)[|f| + j] == w[j];
    }
    DropOne(w, k);
    forall x | x in f ensures x.start <= f[|f| - 1].start {
      var i :| 0 <= i < |f| && f[i] == x;
      assert (f + w)[i] == x && (f + w)[|f| - 1] == f[|f| - 1];
    }
  }

  lemma {:induction false} DropOne(s: seq<Record>, k: nat)
    requires UniqueIds(s) && k < |s|
    ensures |Drop(s, s[k].id)| == |s| - 1 && forall x | x in Drop(s, s[k].id) :: x in s && x.id != s[k].id
  {
    var init, last := s[..|s| - 1], s[|s| - 1];
    if k == |s| - 1 {
      DropNone(init, last.id);
    } else {
      DropOne(init, k);
    }
  }

  /** One more observation, which may also say that its attempt started earlier than it
      was said before: the window stays the latest part of the whole history exactly when
      the attempt was not in the window, or the record still starts after every forgotten one. */
  lemma ObservedRight(history: seq<Record>, r: Record, n: nat)
    requires n > 0 && Ascending(history) && Distinct(Elements(history))
    requires forall x | x in history && x.id != r.id :: x.start != r.start
    ensures var forgotten := if |history| <= n then [] else history[..|history| - n];
            Kept(Sorted(Update(Kept(history, n), r)), n) == Kept(Sorted(Update(history, r)), n)
            <==> (forall x | x in Kept(history, n) :: x.id != r.id) || (forall x | x in forgotten :: x.start < r.start)
  {
    if |history| <= n {
      KeptWhole(history, n);
    } else {
      hide *;
      var f, w := history[..|history| - n], history[|history| - n..];
      assert history == f + w;
      KeptParts(f, w, n);
      WindowPart(history, w);
      UpdatedSorted(history, r);
      UpdatedSorted(w, r);
      KeptIsLast(Sorted(Update(history, r)), n);
      KeptIsLast(Sorted(Update(w, r)), n);
      DropConcat(f, w, r.id);
      IdsUnique(history);
      IdsUnique(w);
      DropAscending(history, r.id);
      DropDistinct(history, r.id);
      if forall x | x in w :: x.id != r.id {
        Outside(f, w, r, n);
      } else {
        OthersApart(f, w, r);
        Inside(f, w, r, n);
      }
    }
  }

  lemma KeptWhole(s: seq<Record>, n: nat)
    requires |s| <= n
    ensures Kept(s, n) == s
  {
  }

  lemma KeptParts(f: seq<Record>, w: seq<Record>, n: nat)
    requires |w| == n > 0
    ensures Kept(f + w, n) == w
  {
  }

  lemma DropDistinct(s: seq<Record>, id: string)
    requires Ascending(s) && Distinct(Elements(s))
    ensures UniqueIds(Drop(s, id))
  {
    hide Ascending, UniqueIds, Drop;
    DropAscending(s, id);
    IdsUnique(Drop(s, id));
  }

  lemma OthersApart(f: seq<Record>, w: seq<Record>, r: Record)
    requires UniqueIds(f + w) && (exists x | x in w :: x.id == r.id)
    requires forall x | x in f + w && x.id != r.id :: x.start != r.start
    ensures forall x | x in f :: x.start != r.start
  {
    var k :| 0 <= k < |w| && w[k].id == r.id;
    forall x | x in f ensures x.start != r.start {
      var i :| 0 <= i < |f| && f[i] == x;
      assert (f + w)[i] == x && (f + w)[|f| + k] == w[k];
    }
  }

  /** Why starts must not move back: an attempt in the window that is then said to have
      started before one already forgotten keeps its place. */
  lemma MovedBack(a: Record, b: Record, b': Record)
    requires a.id != b.id == b'.id && b'.start < a.start < b.start
    ensures Kept(Sorted([a, b]), 1) == [b]
    ensures Kept(Sorted(Update([b], b')), 1) == [b'] && Kept(Sorted(Update([a, b], b')), 1) == [a]
  {
    assert [a, b][..1] == [a] && [b'][..0] == [] && [a][..0] == [] && [a, b'][..1] == [a];
    assert Update([a, b], b') == [a] + Update([b], b') == [a, b'];
    assert Sorted([a]) == [a] && Sorted([b']) == [b'];
    assert Sorted([a, b']) == Place([a], b') == Place([], b') + [a] by {
      assert [a][..0] == [];
    }
  }

  /** The monitor's own record, which every sample replaces in one write. */
  class Monitor {
    const maxAttempts: nat
    var cycles: seq<Record>
    var alerts: set<string>
    /** Every terminal record ever observed, one after the other; the latest record of
        each attempt, in order of start; and all changes of alerts. */
    ghost var observed: seq<Record>
    ghost var history: seq<Record>
    ghost var changes: seq<Changes>

    /** While observations are orderly, the window is the latest part of the history. */
    ghost predicate Valid()
      reads this
    {
      && alerts == Folded(changes)
      && (forall r | r in cycles :: r.terminal)
      && (OrderlyFrom({}, observed) ==>
            && Ascending(history) && Elements(history) == LatestFrom({}, observed) && Distinct(Elements(history))
            && cycles == Kept(history, maxAttempts))
    }

    constructor (maxAttempts: nat)
      ensures Valid() && this.maxAttempts == maxAttempts && observed == [] && history == [] && changes == []
    {
      this.maxAttempts := maxAttempts;
      cycles, alerts, observed, history, changes := [], {}, [], [], [];
    }

    /** One sample: merge the terminal attempts into the window, replace the alerts and
        record how they changed. */
    method Sample(records: seq<Record>, current: set<string>, incomplete: bool) returns (report: Readiness, change: Changes)
      requires Valid()
      modifies this
      ensures Valid()
      ensures observed == old(observed) + Terminal(records)
      ensures alerts == current && changes == old(changes) + [change]
      ensures change.begun == current - old(alerts) && change.resolved == old(alerts) - current
      ensures OrderlyFrom({}, observed) && maxAttempts > 0 ==>
              report.streak == if Streak(history) <= maxAttempts then Streak(history) else maxAttempts
      ensures report.streak == Streak(cycles)
      ensures report.overlap <==> exists x | x in cycles :: Overlaps(x)
      ensures report.downshift <==> exists x | x in cycles :: x.downshift
      ensures report.ready <==> !incomplete && report.streak >= 3 && report.overlap && report.downshift
    {
      hide Ascending, Elements, Distinct, Last, PutAll, Sorted, UniqueIds, Streak, Overlaps, Terminal, Folded, Kept,
           OrderlyFrom, LatestFrom;
      var completed := Collect(cycles, records);
      var ordered := Kept(Sorted(completed), maxAttempts);
      change := Changes(current - alerts, alerts - current);
      Window(completed, records);
      AllTerminal(completed, maxAttempts);
      report := A8Readiness(ordered);
      if incomplete {
        report := report.(ready := false);
      }
      FoldNext(changes, current);
      KeptWindow(PutAll(history, Terminal(records)), maxAttempts);
      StreakOfWindow(PutAll(history, Terminal(records)), maxAttempts);
      cycles, alerts := ordered, current;
      observed, history, changes := observed + Terminal(records), PutAll(history, Terminal(records)), changes + [change];
    }

    lemma Window(completed: seq<Record>, records: seq<Record>)
      requires Valid()
      requires UniqueIds(cycles) ==>
                 UniqueIds(completed) && Elements(completed) == LatestFrom(Elements(cycles), Terminal(records))
      ensures OrderlyFrom({}, observed + Terminal(records)) ==>
                var merged := PutAll(history, Terminal(records));
                && Ascending(merged) && Elements(merged) == LatestFrom({}, observed + Terminal(records))
                && Distinct(Elements(merged)) && Kept(Sorted(completed), maxAttempts) == Kept(merged, maxAttempts)
    {
      var new' := Terminal(records);
      hide Ascending, Elements, Distinct, UniqueIds, PutAll, Sorted, Terminal, OrderlyFrom, LatestFrom, Kept;
      LatestOn({}, observed, new');
      if OrderlyFrom({}, observed + new') {
        PutAllAscending(history, new');
        IdsUnique(history);
        KeptIds(history, maxAttempts);
        WindowOfHistory(history, cycles, completed, new', maxAttempts);
      }
    }
  }

  lemma KeptIds(s: seq<Record>, n: nat)
    requires UniqueIds(s)
    ensures UniqueIds(Kept(s, n))
  {
  }

  lemma KeptWindow(s: seq<Record>, n: nat)
    ensures n > 0 ==> Kept(s, n) == Last(s, n)
  {
  }

  lemma KeptPart(s: seq<Record>, n: nat)
    requires Ascending(s)
    ensures Ascending(Kept(s, n)) && Elements(Kept(s, n)) <= Elements(s)
  {
  }

  lemma {:induction false} UpdateTerminal(s: seq<Record>, r: Record)
    requires r.terminal && forall x | x in s :: x.terminal
    ensures forall x | x in Update(s, r) :: x.terminal
  {
    if s != [] {
      UpdateTerminal(s[1..], r);
    }
  }

  lemma {:induction false} PlaceAll(s: seq<Record>, r: Record)
    ensures forall x | x in Place(s, r) :: x in s || x == r
  {
    if s != [] {
      PlaceAll(s[..|s| - 1], r);
    }
  }

  lemma {:induction false} AllTerminal(s: seq<Record>, n: nat)
    requires forall r | r in s :: r.terminal
    ensures forall r | r in Kept(Sorted(s), n) :: r.terminal
  {
    if s != [] {
      AllTerminal(s[..|s| - 1], 0);
      PlaceAll(Sorted(s[..|s| - 1]), s[|s| - 1]);
    }
  }
}
