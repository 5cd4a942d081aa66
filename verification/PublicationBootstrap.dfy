/**
  Paged export bootstrap: a checkpoint is saved after every database, under a budget
  for the bytes of all exports together. The exporter and the publication fence act
  as their contracts say; the process may stop at every point, and files and
  databases may change between steps.
*/
module PublicationBootstrap {
  import opened Wrappers

  type Path = string

  datatype Receipt = Receipt(sha: nat, size: nat)

  /** A destination database, with its mutation clock. */
  datatype Store = Store(path: string, clock: nat)

  /** `paths[i]` are the exports of `stores[i]`. */
  datatype Contract = Contract(stores: seq<Store>, paths: seq<seq<Path>>, maxExport: int, maxTotal: int)

  datatype Boundary = Boundary(stores: seq<Store>, exports: map<Path, Receipt>)

  datatype Value = Value(contract: Contract, after: nat, exports: map<Path, Receipt>, pages: seq<Boundary>,
                         boundary: Option<Boundary>)
  {
    predicate Complete() { boundary.Some? }
  }

  datatype Error = Interrupted | InvalidLimit | InvalidLimits | ContractChanged | DestinationChanged | CheckpointIncomplete
                 | CheckpointScopeChanged | PriorPageChanged | ReceiptChanged | CompletedChanged
                 | TotalByteLimit | ExportTooLarge | Unproven

  type Outcome<+T> = Result<T, Error>

  /** The exports a database may have: current and history, as JSON and as CSV. */
  const EXPORTS := 4

  /** What publication_scope yields: each database has its four exports, and no path
      occurs twice. */
  ghost predicate Scoped(c: Contract) {
    && |c.paths| == |c.stores| > 0
    && (forall i | 0 <= i < |c.paths| :: |c.paths[i]| == EXPORTS)
    && (forall i, a, b | 0 <= i < |c.paths| && 0 <= a < b < |c.paths[i]| :: c.paths[i][a] != c.paths[i][b])
    && (forall i, j, p | 0 <= i < j < |c.paths| && p in c.paths[i] :: p !in c.paths[j])
  }

  function SetOf(paths: seq<Path>): set<Path> {
    set p | p in paths
  }

  lemma {:induction false} AtMost(paths: seq<Path>)
    ensures |SetOf(paths)| <= |paths|
  {
    if paths != [] {
      AtMost(paths[1..]);
      assert SetOf(paths) == SetOf(paths[1..]) + {paths[0]};
    }
  }

  /** The exports of the first n databases. */
  function PathsOf(c: Contract, n: nat): set<Path>
    requires n <= |c.paths|
  {
    if n == 0 then {} else PathsOf(c, n - 1) + SetOf(c.paths[n - 1])
  }

  lemma {:induction false} PathsOfIn(c: Contract, n: nat, p: Path)
    requires n <= |c.paths|
    ensures p in PathsOf(c, n) <==> exists i | 0 <= i < n :: p in c.paths[i]
  {
    if n > 0 {
      PathsOfIn(c, n - 1, p);
    }
  }

  function Restricted(exports: map<Path, Receipt>, paths: seq<Path>): map<Path, Receipt> {
    map p | p in paths && p in exports :: exports[p]
  }

  ghost function Total(exports: map<Path, Receipt>): nat
    decreases |exports|
  {
    if exports == map[] then 0
    else
      var p :| p in exports;
      Total(exports - {p}) + exports[p].size
  }

  lemma {:induction false} TotalFrom(exports: map<Path, Receipt>, p: Path)
    requires p in exports
    ensures Total(exports) == Total(exports - {p}) + exports[p].size
    decreases |exports|
  {
    var first :| first in exports && Total(exports) == Total(exports - {first}) + exports[first].size;
    if first != p {
      assert exports - {first} - {p} == exports - {p} - {first};
      TotalFrom(exports - {first}, p);
      TotalFrom(exports - {p}, first);
    }
  }

  /** n times x, as a sum. */
  function Times(n: nat, x: nat): nat {
    if n == 0 then 0 else Times(n - 1, x) + x
  }

  lemma {:induction false} TimesSteps(n: nat, m: nat, x: nat, y: nat)
    requires n <= m && x <= y
    ensures Times(n, x) <= Times(m, y)
  {
    if n < m {
      TimesSteps(n, m - 1, x, y);
    } else if n > 0 {
      TimesSteps(n - 1, m - 1, x, y);
    }
  }

  lemma OneByOne(exports: map<Path, Receipt>, more: map<Path, Receipt>, p: Path)
    requires exports.Keys !! more.Keys && p in more
    ensures exports[p := more[p]] - {p} == exports
    ensures exports + more == exports[p := more[p]] + (more - {p})
  {
  }

  lemma OneFewer(more: map<Path, Receipt>, p: Path)
    requires p in more
    ensures |more| == |more - {p}| + 1
  {
    assert (more - {p}).Keys == more.Keys - {p};
  }

  /** New exports add at most their number times the largest. */
  lemma {:induction false} TotalGrows(exports: map<Path, Receipt>, more: map<Path, Receipt>, largest: nat)
    requires exports.Keys !! more.Keys && forall p | p in more :: more[p].size <= largest
    ensures Total(exports) <= Total(exports + more) <= Total(exports) + Times(|more|, largest)
    decreases |more|
  {
    hide Total;
    if more == map[] {
      assert exports + more == exports;
    } else {
      var p :| p in more;
      OneByOne(exports, more, p);
      OneFewer(more, p);
      TotalFrom(exports[p := more[p]], p);
      TotalGrows(exports[p := more[p]], more - {p}, largest);
    }
  }

  /** Each page boundary is for one database, with its exports as recorded. */
  predicate Sealed(c: Contract, exports: map<Path, Receipt>, pages: seq<Boundary>) {
    && |pages| <= |c.stores| && |pages| <= |c.paths|
    && forall i | 0 <= i < |pages| :: pages[i] == Boundary([c.stores[i]], Restricted(exports, c.paths[i]))
  }

  /** A saved value is the checkpoint of its first `after` databases: one boundary for
      each, exports for exactly those, within the budget; and a certificate, if there
      is one, is for the whole scope. */
  ghost predicate Checkpoint(v: Value) {
    var c := v.contract;
    && Scoped(c) && c.maxExport > 0 && c.maxTotal > 0
    && v.after == |v.pages| <= |c.stores|
    && v.exports.Keys == PathsOf(c, v.after)
    && Sealed(c, v.exports, v.pages)
    && Total(v.exports) <= c.maxTotal
    && (v.Complete() ==> v.after == |c.stores| && v.boundary == Some(Boundary(c.stores, v.exports)))
  }

  /** The certificate of a complete checkpoint names every export of every database. */
  lemma CompleteCoversScope(v: Value, i: nat, p: Path)
    requires Checkpoint(v) && v.Complete() && i < |v.contract.paths| && p in v.contract.paths[i]
    ensures p in v.boundary.value.exports && v.boundary.value.stores == v.contract.stores
  {
    PathsOfIn(v.contract, v.after, p);
  }

  /** What the next database's exports may weigh, each. */
  function Maximum(c: Contract, exports: nat): int {
    var share := (c.maxTotal - exports) / EXPORTS;
    if c.maxExport <= share then c.maxExport else share
  }

  lemma Share(c: Contract, exports: nat, count: nat, largest: nat)
    requires count <= EXPORTS && largest <= Maximum(c, exports)
    ensures exports + Times(count, largest) <= c.maxTotal
  {
    TimesSteps(count, EXPORTS, largest, largest);
    assert Times(1, largest) == largest;
    assert Times(2, largest) == 2 * largest;
    assert Times(3, largest) == 3 * largest;
    assert Times(4, largest) == 4 * largest;
    var share := (c.maxTotal - exports) / EXPORTS;
    assert largest <= share && share * 4 <= c.maxTotal - exports;
  }

  /** New exports of the next database leave the earlier pages as they were. */
  lemma PagesKept(c: Contract, n: nat, exports: map<Path, Receipt>, pages: seq<Boundary>, receipts: map<Path, Receipt>)
    requires Scoped(c) && n < |c.paths| && exports.Keys == PathsOf(c, n) && receipts.Keys == SetOf(c.paths[n])
    requires Sealed(c, exports, pages) && |pages| == n
    ensures exports.Keys !! receipts.Keys && (exports + receipts).Keys == PathsOf(c, n + 1)
    ensures Sealed(c, exports + receipts, pages + [Boundary([c.stores[n]], receipts)])
  {
    hide PathsOf;
    forall p | p in exports ensures p !in receipts {
      PathsOfIn(c, n, p);
    }
    PathsNext(c, n);
    forall i | 0 <= i < n ensures Restricted(exports + receipts, c.paths[i]) == Restricted(exports, c.paths[i]) {
      forall p | p in c.paths[i] ensures p in exports && p !in receipts {
        PathsOfIn(c, n, p);
      }
    }
    assert Restricted(exports + receipts, c.paths[n]) == receipts;
  }

  lemma PathsNext(c: Contract, n: nat)
    requires n < |c.paths|
    ensures PathsOf(c, n + 1) == PathsOf(c, n) + SetOf(c.paths[n])
  {
  }

  /** One more database, exported within its share, makes the next checkpoint. */
  lemma NextCheckpoint(v: Value, receipts: map<Path, Receipt>)
    requires Checkpoint(v) && v.after < |v.contract.stores| && receipts.Keys == SetOf(v.contract.paths[v.after])
    requires Maximum(v.contract, Total(v.exports)) > 0
    requires forall p | p in receipts :: receipts[p].size <= Maximum(v.contract, Total(v.exports))
    ensures v.exports.Keys !! receipts.Keys
    ensures var c := v.contract;
            Checkpoint(Value(c, v.after + 1, v.exports + receipts, v.pages + [Boundary([c.stores[v.after]], receipts)], None))
  {
    var c, n := v.contract, v.after;
    hide Total, PathsOf, Restricted, SetOf, Maximum, Times, Scoped, Sealed;
    FourEach(c, n);
    PagesKept(c, n, v.exports, v.pages, receipts);
    AtMost(c.paths[n]);
    var largest := Maximum(c, Total(v.exports));
    assert |receipts.Keys| == |receipts|;
    TotalGrows(v.exports, receipts, largest);
    Share(c, Total(v.exports), |receipts|, largest);
  }

  lemma FourEach(c: Contract, n: nat)
    requires Scoped(c) && n < |c.stores|
    ensures n < |c.paths| && |c.paths[n]| == EXPORTS && |c.stores| == |c.paths|
  {
  }

  /** What is certified is what is on disk. */
  predicate Intact(exports: map<Path, Receipt>, disk: map<Path, Receipt>) {
    forall p | p in exports :: p in disk && disk[p] == exports[p]
  }

  /** No destination has changed since the contract. */
  predicate Fenced(stores: seq<Store>, clocks: map<string, nat>) {
    forall i | 0 <= i < |stores| :: stores[i].path in clocks && clocks[stores[i].path] == stores[i].clock
  }

  /** The later value continues the earlier one. */
  ghost predicate Continues(v: Value, v': Value) {
    && v'.contract == v.contract && v.pages <= v'.pages
    && (forall p | p in v.exports :: p in v'.exports && v'.exports[p] == v.exports[p])
    && (v.Complete() ==> v' == v)
  }

  lemma ContinuesOn(v: Value, v': Value, v'': Value)
    requires Continues(v, v') && Continues(v', v'')
    ensures Continues(v, v'')
  {
  }

  /** The page boundaries of a checkpoint stand exactly when its exports are intact and
      its finished databases unchanged. */
  lemma PagesStand(v: Value, disk: map<Path, Receipt>, clocks: map<string, nat>)
    requires Checkpoint(v)
    ensures Intact(v.exports, disk) && Fenced(v.contract.stores, clocks)
            ==> forall i | 0 <= i < |v.pages| :: Intact(v.pages[i].exports, disk) && Fenced(v.pages[i].stores, clocks)
    ensures (forall i | 0 <= i < |v.pages| :: Intact(v.pages[i].exports, disk)) ==> Intact(v.exports, disk)
    ensures forall i | 0 <= i < |v.pages| :: Intact(v.pages[i].exports, v.exports)
  {
    if forall i | 0 <= i < |v.pages| :: Intact(v.pages[i].exports, disk) {
      forall p | p in v.exports ensures p in disk && disk[p] == v.exports[p] {
        PathsOfIn(v.contract, v.after, p);
        var i :| 0 <= i < v.after && p in v.contract.paths[i];
        assert Intact(v.pages[i].exports, disk) && p in v.pages[i].exports;
      }
    }
  }

  class Bootstrap {
    var saved: Option<Value>
    /** The export files as they are now, and the clocks of the databases. */
    var disk: map<Path, Receipt>
    var clocks: map<string, nat>

    ghost predicate Valid()
      reads `saved
    {
      saved.Some? ==> Checkpoint(saved.value)
    }

    constructor (disk: map<Path, Receipt>, clocks: map<string, nat>)
      ensures Valid() && saved == None && this.disk == disk && this.clocks == clocks
    {
      saved, this.disk, this.clocks := None, disk, clocks;
    }

    /** Start a bootstrap, or resume the one that was started with the same contract. */
    method Prepare(c: Contract) returns (r: Outcome<Value>)
      requires Valid() && Scoped(c)
      modifies `saved
      ensures Valid()
      ensures r.Raised? ==> saved == old(saved)
      ensures r.Raised? <==> c.maxExport <= 0 || c.maxTotal <= 0 || (old(saved).Some? && old(saved).value.contract != c)
      ensures r.Done? ==> saved == Some(r.value) && r.value.contract == c
      ensures r.Done? && old(saved).Some? ==> saved == old(saved)
      ensures r.Done? && old(saved).None? ==> r.value.after == 0 && !r.value.Complete()
    {
      if c.maxExport <= 0 || c.maxTotal <= 0 {
        return Raised(InvalidLimits);
      }
      if saved.Some? {
        r := if saved.value.contract != c then Raised(ContractChanged) else Done(saved.value);
      } else {
        saved := Some(Value(c, 0, map[], [], None));
        r := Done(saved.value);
      }
    }

    method Point(calm: bool) returns (r: Outcome<()>)
      ensures calm ==> r.Done?
      ensures r.Raised? ==> r.error == Interrupted
    {
      var luck: bool := *;
      r := if calm || luck then Done(()) else Raised(Interrupted);
    }

    /** Export files one after the other, none larger than `maximum`. It can stop after
        any of them, by an error or (None) at its own deadline. */
    method Publish(paths: seq<Path>, maximum: int, produce: Path -> Receipt, calm: bool)
      returns (r: Outcome<Option<map<Path, Receipt>>>)
      modifies `disk
      ensures forall p | p !in paths :: (p in disk <==> p in old(disk)) && (p in disk ==> disk[p] == old(disk)[p])
      ensures calm ==> r != Done(None)
      ensures r.Raised? ==> (r.error == Interrupted && !calm) || (r.error == ExportTooLarge && exists p :: p in paths && produce(p).size > maximum)
      ensures r.Done? && r.value.Some? ==>
              && r.value.value.Keys == SetOf(paths) && Intact(r.value.value, disk)
              && forall p | p in paths :: r.value.value[p] == produce(p) && produce(p).size <= maximum
    {
      var receipts := map[];
      for i := 0 to |paths|
        invariant forall p | p !in paths :: (p in disk <==> p in old(disk)) && (p in disk ==> disk[p] == old(disk)[p])
        invariant receipts.Keys == SetOf(paths[..i]) && Intact(receipts, disk)
        invariant forall p | p in paths[..i] :: receipts[p] == produce(p) && produce(p).size <= maximum
      {
        var _ :- Point(calm);
        var more: bool := *;
        if !calm && !more {
          return Done(None);
        }
        var receipt := produce(paths[i]);
        if receipt.size > maximum {
          return Raised(ExportTooLarge);
        }
        assert paths[..i + 1] == paths[..i] + [paths[i]];
        disk := disk[paths[i] := receipt];
        receipts := receipts[paths[i] := receipt];
      }
      assert paths[..|paths|] == paths;
      r := Done(Some(receipts));
    }

    /** Seal a boundary: the stores must be unchanged and the files there. */
    method Seal(stores: seq<Store>, exports: map<Path, Receipt>) returns (r: Option<Boundary>)
      ensures stores != [] && Fenced(stores, clocks) && Intact(exports, disk) ==> r == Some(Boundary(stores, exports))
      ensures r.Some? ==> Fenced(stores, clocks)
    {
      if stores == [] || !Fenced(stores, clocks) || exists p | p in exports :: p !in disk {
        return None;
      }
      r := Some(Boundary(stores, map p | p in exports :: Receipt(exports[p].sha, disk[p].size)));
      assert Intact(exports, disk) ==> r.value.exports == exports;
    }

    /** Check everything the saved value claims against what is there now. */
    method Recheck(v: Value) returns (r: Outcome<()>)
      requires Checkpoint(v)
      ensures r.Done? <==> Intact(v.exports, disk) && Fenced(v.contract.stores, clocks)
      ensures r.Raised? ==> r.error in {DestinationChanged, PriorPageChanged}
    {
      PagesStand(v, disk, clocks);
      if !Fenced(v.contract.stores, clocks) {
        return Raised(DestinationChanged);
      }
      if |v.pages| != v.after {
        return Raised(CheckpointIncomplete);
      }
      if v.exports.Keys != PathsOf(v.contract, v.after) {
        return Raised(CheckpointScopeChanged);
      }
      for i := 0 to |v.pages|
        invariant forall k | 0 <= k < i :: Intact(v.pages[k].exports, disk)
      {
        if !Intact(v.pages[i].exports, disk) || !Fenced(v.pages[i].stores, clocks) {
          return Raised(PriorPageChanged);
        }
        if !Intact(v.pages[i].exports, v.exports) {
          return Raised(ReceiptChanged);
        }
      }
      if v.Complete() && !(Intact(v.boundary.value.exports, disk) && Fenced(v.boundary.value.stores, clocks)) {
        return Raised(CompletedChanged);
      }
      r := Done(());
    }

    /** The bytes of all recorded exports. */
    method Sum(exports: map<Path, Receipt>) returns (n: nat)
      ensures n == Total(exports)
    {
      var rest := exports;
      n := 0;
      while rest != map[]
        invariant n + Total(rest) == Total(exports)
        decreases |rest|
      {
        var p :| p in rest;
        TotalFrom(rest, p);
        OneFewer(rest, p);
        n, rest := n + rest[p].size, rest - {p};
      }
    }

    /** Export the next database and save its checkpoint; false when the exporter
        stopped at its deadline. */
    method ExportPage(produce: Path -> Receipt, calm: bool) returns (r: Outcome<bool>)
      requires Valid() && saved.Some? && saved.value.after < |saved.value.contract.stores|
      requires Intact(saved.value.exports, disk) && Fenced(saved.value.contract.stores, clocks)
      modifies `saved, `disk
      ensures Valid() && saved.Some? && Continues(old(saved).value, saved.value)
      ensures Intact(saved.value.exports, disk)
      ensures r != Done(true) ==> saved == old(saved)
      ensures calm ==> r != Done(false)
      ensures r == Done(true) ==>
              && saved.value.after == old(saved).value.after + 1 && !saved.value.Complete()
              && forall p | p in saved.value.exports :: p !in old(saved).value.exports ==> saved.value.exports[p] == produce(p)
      ensures r.Raised? ==>
              var v := old(saved).value; var maximum := Maximum(v.contract, Total(v.exports));
              || (r.error == Interrupted && !calm)
              || (r.error == TotalByteLimit && maximum <= 0)
              || (r.error == ExportTooLarge && maximum > 0 && exists p :: p in v.contract.paths[v.after] && produce(p).size > maximum)
    {
      hide Total, PathsOf, Sealed, Scoped;
      var v := saved.value;
      var _ :- Point(calm);
      var used := Sum(v.exports);
      var maximum := Maximum(v.contract, used);
      if maximum <= 0 {
        return Raised(TotalByteLimit);
      }
      Paths(v);
      var paths := v.contract.paths[v.after];
      var published := Publish(paths, maximum, produce, calm);
      if published.Raised? {
        return Raised(published.error);
      }
      if published.value.None? {
        return Done(false);
      }
      var receipts := published.value.value;
      NextCheckpoint(v, receipts);
      var store := v.contract.stores[v.after];
      var boundary := Seal([store], receipts);
      assert boundary == Some(Boundary([store], receipts));
      saved := Some(Value(v.contract, v.after + 1, v.exports + receipts, v.pages + [boundary.value], None));
      r := Done(true);
    }

    lemma Paths(v: Value)
      requires Checkpoint(v) && v.after < |v.contract.stores|
      ensures v.after < |v.contract.paths| && forall p | p in v.contract.paths[v.after] :: p !in v.exports
      ensures !v.Complete()
    {
      forall p | p in v.contract.paths[v.after] ensures p !in v.exports {
        PathsOfIn(v.contract, v.after, p);
      }
    }

    /** One step: check what is saved, then export and checkpoint up to `limit` further
        databases; after the last one, certify the whole scope. */
    method Step(limit: int, produce: Path -> Receipt, calm: bool) returns (r: Outcome<Value>)
      requires Valid() && saved.Some?
      modifies `saved, `disk
      ensures Valid() && saved.Some? && Continues(old(saved).value, saved.value)
      ensures Intact(old(saved).value.exports, old(disk)) ==> Intact(saved.value.exports, disk)
      ensures r.Raised? && r.error == InvalidLimit <==> limit <= 0
      ensures r.Raised? && r.error in {DestinationChanged, PriorPageChanged} ==>
              && saved == old(saved) && disk == old(disk)
              && !(Intact(saved.value.exports, disk) && Fenced(saved.value.contract.stores, clocks))
      ensures r.Done? ==>
              && saved == Some(r.value) && Intact(r.value.exports, disk) && Fenced(r.value.contract.stores, clocks)
              && (r.value.Complete() <==> r.value.after == |r.value.contract.stores|)
              && (calm && !r.value.Complete() ==> r.value.after == old(saved).value.after + limit)
      ensures r.Raised? && calm ==>
              || r.error in {InvalidLimit, DestinationChanged, PriorPageChanged}
              || (r.error == TotalByteLimit && Spent(saved.value))
              || (r.error == ExportTooLarge && Tight(saved.value, produce))
      ensures calm ==> forall p | p in saved.value.exports ::
                p !in old(saved).value.exports ==> saved.value.exports[p] == produce(p)
    {
      if limit <= 0 {
        return Raised(InvalidLimit);
      }
      var recheck := Recheck(saved.value);
      if recheck.Raised? {
        return Raised(recheck.error);
      }
      hide Checkpoint, Total, PathsOf, Sealed, Maximum;
      Bounds(saved.value);
      if saved.value.Complete() {
        return Done(saved.value);
      }
      var start := saved.value.after;
      var n := |saved.value.contract.stores|;
      var end := if start + limit <= n then start + limit else n;
      for index := start to end
        invariant Valid() && saved.Some? && Continues(old(saved).value, saved.value)
        invariant saved.value.after == index && !saved.value.Complete()
        invariant Intact(saved.value.exports, disk) && Fenced(saved.value.contract.stores, clocks)
        invariant forall p | p in saved.value.exports ::
                    p !in old(saved).value.exports ==> saved.value.exports[p] == produce(p)
      {
        ghost var before := saved.value;
        Bounds(before);
        var page := ExportPage(produce, calm);
        if page.Raised? {
          return Raised(page.error);
        }
        if !page.value {
          return Done(saved.value);
        }
        ContinuesOn(old(saved).value, before, saved.value);
      }
      if end == n {
        var _ :- Point(calm);
        var v := saved.value;
        Certify(v);
        var boundary := Seal(v.contract.stores, v.exports);
        if boundary.None? {
          return Raised(Unproven);
        }
        saved := Some(v.(boundary := boundary));
      }
      r := Done(saved.value);
    }

    lemma Bounds(v: Value)
      requires Checkpoint(v)
      ensures v.after <= |v.contract.stores| && 0 < |v.contract.stores| == |v.contract.paths|
      ensures v.Complete() ==> v.after == |v.contract.stores|
    {
    }

    lemma Certify(v: Value)
      requires Checkpoint(v) && v.after == |v.contract.stores|
      ensures v.contract.stores != [] && Checkpoint(v.(boundary := Some(Boundary(v.contract.stores, v.exports))))
    {
      hide Total, PathsOf, Sealed;
    }
  }

  /** A database is left, and not a byte for each of its exports. */
  ghost predicate Spent(v: Value) {
    v.after < |v.contract.stores| && Maximum(v.contract, Total(v.exports)) <= 0
  }

  /** The next database has an export that is larger than its share. */
  ghost predicate Tight(v: Value, produce: Path -> Receipt) {
    && v.after < |v.contract.paths|
    && exists p :: p in v.contract.paths[v.after] && produce(p).size > Maximum(v.contract, Total(v.exports))
  }

  lemma {:induction false} CountPaths(c: Contract, n: nat)
    requires Scoped(c) && n <= |c.paths|
    ensures |PathsOf(c, n)| <= EXPORTS * n
  {
    if n > 0 {
      hide PathsOf;
      PathsNext(c, n - 1);
      CountPaths(c, n - 1);
      AtMost(c.paths[n - 1]);
      hide SetOf;
      UnionSize(PathsOf(c, n - 1), SetOf(c.paths[n - 1]));
    }
  }

  lemma UnionSize(a: set<Path>, b: set<Path>)
    ensures |a + b| <= |a| + |b|
  {
    assert a + b == a + (b - a);
  }

  lemma {:induction false} TimesIs(n: nat, x: nat)
    ensures Times(n, x) == n * x
  {
    if n > 0 {
      TimesIs(n - 1, x);
      assert n * x == (n - 1) * x + x;
    }
  }

  /** When all exports are at most `largest` and the budget covers that for the whole
      scope, the next database's share is at least `largest`. */
  lemma RoomForNext(v: Value, largest: nat)
    requires Checkpoint(v) && v.after < |v.contract.stores|
    requires forall p | p in v.exports :: v.exports[p].size <= largest
    requires largest <= v.contract.maxExport && EXPORTS * |v.contract.stores| * largest <= v.contract.maxTotal
    ensures largest <= Maximum(v.contract, Total(v.exports))
  {
    var c, n := v.contract, v.after;
    Counted(v, largest);
    TimesSteps(EXPORTS * (n + 1), EXPORTS * |c.stores|, largest, largest);
    TimesIs(EXPORTS * |c.stores|, largest);
    TimesIs(EXPORTS * n, largest);
    TimesIs(EXPORTS * (n + 1), largest);
    Spread(n, largest);
    hide Checkpoint, Total, Times;
    assert EXPORTS * largest <= c.maxTotal - Total(v.exports);
    Quarter(largest, c.maxTotal - Total(v.exports));
  }

  lemma Quarter(x: nat, y: int)
    requires EXPORTS * x <= y
    ensures x <= y / EXPORTS
  {
  }

  /** The recorded bytes are at most four times the largest for each finished database. */
  lemma Counted(v: Value, largest: nat)
    requires Checkpoint(v) && forall p | p in v.exports :: v.exports[p].size <= largest
    ensures Total(v.exports) <= Times(EXPORTS * v.after, largest)
  {
    CountPaths(v.contract, v.after);
    assert |v.exports| == |v.exports.Keys|;
    assert map[] + v.exports == v.exports;
    TotalGrows(map[], v.exports, largest);
    hide Total, Times, PathsOf, Sealed, Scoped;
    TimesSteps(|v.exports|, EXPORTS * v.after, largest, largest);
    NoBytes();
  }

  lemma NoBytes()
    ensures Total(map[]) == 0
  {
  }

  lemma Spread(n: nat, x: nat)
    ensures EXPORTS * (n + 1) * x == EXPORTS * n * x + EXPORTS * x
  {
  }

  /** From whatever checkpoint crashes left, undisturbed steps finish: the whole scope
      is certified, with everything that was already recorded. */
  method FollowSteps(bootstrap: Bootstrap, limit: int, produce: Path -> Receipt, largest: nat)
    requires bootstrap.Valid() && bootstrap.saved.Some? && limit > 0
    requires var v := bootstrap.saved.value;
             && Intact(v.exports, bootstrap.disk) && Fenced(v.contract.stores, bootstrap.clocks)
             && (forall p | p in v.exports :: v.exports[p].size <= largest)
             && (forall p :: produce(p).size <= largest)
             && 0 < largest <= v.contract.maxExport && EXPORTS * |v.contract.stores| * largest <= v.contract.maxTotal
    modifies bootstrap
    ensures bootstrap.Valid() && bootstrap.saved.Some? && bootstrap.saved.value.Complete()
    ensures Continues(old(bootstrap.saved).value, bootstrap.saved.value)
    ensures Intact(bootstrap.saved.value.exports, bootstrap.disk)
  {
    hide Checkpoint, Total, Maximum;
    ghost var first := bootstrap.saved.value;
    var complete := false;
    while !complete
      invariant bootstrap.Valid() && bootstrap.saved.Some? && Continues(first, bootstrap.saved.value)
      invariant Intact(bootstrap.saved.value.exports, bootstrap.disk) && Fenced(first.contract.stores, bootstrap.clocks)
      invariant forall p | p in bootstrap.saved.value.exports :: bootstrap.saved.value.exports[p].size <= largest
      invariant complete ==> bootstrap.saved.value.Complete()
      decreases !complete, |first.contract.stores| - bootstrap.saved.value.after
    {
      ghost var before := bootstrap.saved.value;
      var step := bootstrap.Step(limit, produce, true);
      ghost var now := bootstrap.saved.value;
      ContinuesOn(first, before, now);
      bootstrap.Bounds(before);
      bootstrap.Bounds(now);
      forall p | p in now.exports ensures now.exports[p].size <= largest {
        if p in before.exports {
          assert now.exports[p] == before.exports[p];
        }
      }
      if now.after < |now.contract.stores| {
        RoomForNext(now, largest);
      }
      complete := step.value.Complete();
    }
  }
}
