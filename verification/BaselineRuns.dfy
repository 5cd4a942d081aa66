/**
  Runs of several baseline batches: the same batch again, and following the cursor over
  the whole live inventory.
*/
module BaselineRuns {
  import opened Wrappers
  import opened BaselineBatch
  import opened BaselineInventory

  lemma {:induction false} NoneWritten(lens: Lens, changes: seq<Change>)
    ensures Written(changes) == 0 <==> forall i | 0 <= i < |changes| :: !Writes(changes[i])
    ensures Written(changes) == 0 ==> Stored(changes) == map[] && Linked(lens, changes) == map[]
  {
    if changes != [] {
      NoneWritten(lens, changes[..|changes| - 1]);
      assert forall i | 0 <= i < |changes| - 1 :: changes[i] == changes[..|changes| - 1][i];
    }
  }

  lemma NothingStored(lens: Lens, live: Live, t: Tables, t': Tables, fill: bool, rows: seq<LiveRow>, changes: seq<Change>)
    requires Imported(lens, live, t, t', fill, rows, changes) && Written(changes) == 0
    ensures t'.jobs == t.jobs && t'.links == t.links && t'.observed == t.observed
  {
    NoneWritten(lens, changes);
    assert t.jobs + map[] == t.jobs && t.links + map[] == t.links;
  }

  /** A change of a prepared batch writes exactly when its row calls for it. */
  lemma WritesAt(lens: Lens, live: Live, t: Tables, fill: bool, rest: seq<LiveRow>, bounds: Bounds, batch: Batch, i: nat)
    requires Honest(lens, live, t, fill, rest, bounds, batch) && i < |batch.changes|
    ensures i < |rest| && (Writes(batch.changes[i]) <==> Writing(Dispose(lens, live, t, rest[i].record, fill).disposition))
  {
    hide Dispose, AllGenuine, AllJudged, Size;
    assert Describes(lens, live, t, fill, rest[i], batch.changes[i]);
    RowOf(lens, live, t, fill, rest[i], batch.changes[i]);
    WritingMeans(lens, live, t, fill, batch.changes[i]);
  }

  /** The budgets let a batch of these rows reach one from n on that calls for writing. */
  predicate ReachesWrite(lens: Lens, live: Live, t: Tables, fill: bool, rest: seq<LiveRow>, bounds: Bounds, n: nat) {
    exists m, i | 0 <= m <= Least(bounds.jobs, |rest|) && n <= i < m ::
      && Fits(lens, live, t, fill, rest, bounds, m)
      && Writing(Dispose(lens, live, t, rest[i].record, fill).disposition)
  }

  /** The second run of a batch, told from what is known before it: `between` is what
      the first run left, and n how many rows it committed. */
  lemma SecondIsSettled(lens: Lens, live: Live, t: Tables, between: Tables, fill: bool, after: nat, bounds: Bounds, first: Batch, second: Batch)
    requires var rest := After(live.rows, after);
             && Prepared(lens, live, t, fill, rest, bounds, first)
             && Imported(lens, live, t, between, fill, rest, first.changes)
             && Prepared(lens, live, between, fill, rest, bounds, second)
             && Honest(lens, live, between, fill, rest, bounds, second)
    ensures var n, changes, rest := |first.changes|, second.changes, After(live.rows, after);
            && (forall i | 0 <= i < n && i < |changes| :: !Writes(changes[i]))
            && (Written(changes) > 0 <==> ReachesWrite(lens, live, between, fill, rest, bounds, n))
            && (n == Least(bounds.jobs, |rest|) ==> Written(changes) == 0)
  {
    hide Dispose, After, Imported, Describes, Writes, Drafted, Weight, Malformed, Honest;
    var rest := After(live.rows, after);
    var n, changes := |first.changes|, second.changes;
    forall i | 0 <= i < n && i < |changes| ensures !Writes(changes[i]) {
      Settled(lens, live, t, between, fill, rest, first.changes, i);
      WritesAt(lens, live, between, fill, rest, bounds, second, i);
    }
    NoneWritten(lens, changes);
    if Written(changes) > 0 {
      var i :| 0 <= i < |changes| && Writes(changes[i]);
      WritesAt(lens, live, between, fill, rest, bounds, second, i);
      assert Fits(lens, live, between, fill, rest, bounds, |changes|);
    }
    if ReachesWrite(lens, live, between, fill, rest, bounds, n) {
      var m: nat, i: nat :| m <= Least(bounds.jobs, |rest|) && n <= i < m && Fits(lens, live, between, fill, rest, bounds, m)
                            && Writing(Dispose(lens, live, between, rest[i].record, fill).disposition);
      if |changes| < m {
        FitsFewer(lens, live, between, fill, rest, bounds, |changes| + 1, m);
      }
      WritesAt(lens, live, between, fill, rest, bounds, second, i);
    }
  }

  /** The same batch again, over unchanged live data. It writes nothing for the rows that
      the first run committed; it writes at all exactly when the budgets now reach a
      further row that calls for it, which they never do when it was not the metadata
      budget that ended the first run. */
  method Reexecute(worker: Worker, lens: Lens, live: Live, fill: bool, after: nat, bounds: Bounds, calm: bool)
    returns (first: Outcome<Batch>, second: Outcome<Batch>, ghost between: Tables)
    requires Sorted(live.rows) && Sound(lens, worker.tables)
    modifies worker
    ensures var rest := After(live.rows, after);
            && (calm && BoundsOk(bounds) && Clear(lens, live, old(worker.tables)) ==>
                  && (first.Done? <==> Preparable(lens, live, old(worker.tables), fill, rest, bounds)
                                       && Importable(lens, live, old(worker.tables), fill, rest, bounds))
                  && (second.Done? <==> Preparable(lens, live, between, fill, rest, bounds)
                                        && Importable(lens, live, between, fill, rest, bounds)))
            && (first.Done? ==> Imported(lens, live, old(worker.tables), between, fill, rest, first.value.changes)
                                && Prepared(lens, live, old(worker.tables), fill, rest, bounds, first.value))
    ensures first.Done? && second.Done? ==>
            var n, changes, rest := |first.value.changes|, second.value.changes, After(live.rows, after);
            && (forall i | 0 <= i < n && i < |changes| :: !Writes(changes[i]))
            && (Written(changes) > 0 <==> ReachesWrite(lens, live, between, fill, rest, bounds, n))
            && (n == Least(bounds.jobs, |rest|) ==> Written(changes) == 0)
            && (Written(changes) == 0 ==> worker.tables.jobs == between.jobs && worker.tables.links == between.links)
    ensures Keeps(old(worker.tables), between) && Keeps(between, worker.tables)
  {
    hide *;
    first := worker.Reconcile(lens, live, fill, after, bounds, None, true, calm);
    between := worker.tables;
    second := worker.Reconcile(lens, live, fill, after, bounds, None, true, calm);
    if first.Done? && second.Done? {
      var rest := After(live.rows, after);
      SecondIsSettled(lens, live, old(worker.tables), between, fill, after, bounds, first.value, second.value);
      if Written(second.value.changes) == 0 {
        NothingStored(lens, live, between, worker.tables, fill, rest, second.value.changes);
      }
    }
  }

  // ----- a second run that reaches further

  const SOME_RAW := Raw(None, false, 0)

  /** A worker row without a description, and its live row, which has one. */
  function StubJob(name: string): Job {
    Job("s", Some(name), "T", None, {"u"}, Some(SOME_RAW), true, false)
  }

  function FullRow(key: nat, name: string): LiveRow {
    LiveRow(Record(key, StubJob(name).(description := Some("D"))), [], [])
  }

  function TwoRows(): Live {
    Live([FullRow(1, "1"), FullRow(2, "2")], map[], map["s" := true])
  }

  function Heft(job: Job): nat {
    1 + |Text(job.description)|
  }

  /** A lens under which a serialised change is its live row, its before image and the
      row to store, as in the source. */
  function Plain(): Lens {
    Lens(content => seq(|content|, i requires 0 <= i < |content| => content[i] as char),
         text => text,
         (source: string, external: string) => source + ":" + external,
         text => text,
         (record: Record) => record.job.description.Some?,
         (record: Record, aliases: seq<nat>) => record.job.source + ":" + Text(record.job.external) + ":" + Text(record.job.description),
         (c: Change) => Heft(c.row.record.job)
                        + (if c.verdict.before.Some? then Heft(c.verdict.before.value) else 0)
                        + (if c.operational.Some? then Heft(c.operational.value) else 0))
  }

  function Stubs(): Tables {
    Tables(map["s:1" := StubJob("1"), "s:2" := StubJob("2")], {}, map[], map[], {}, map[], map[])
  }

  const NINE := Bounds(5, 0, 9)

  lemma FoundByKey(lens: Lens, jobs: map<Key, Job>, key: Key, job: Job)
    requires key == lens.identity(job.source, Text(job.external)) && key in jobs
    requires forall k | k in jobs :: jobs[k].external == job.external ==> k == key
    requires jobs[key].source == job.source && jobs[key].external == job.external
    ensures Current(lens, jobs, job) == Found(key)
  {
    assert Matches(jobs, job) == {key};
  }

  /** A stub of the worker is filled from its live row. */
  lemma StubIsFilled(t: Tables, key: nat, name: string)
    requires t.observed == {} && name != "" && "s:" + name in t.jobs && t.jobs["s:" + name] == StubJob(name)
    requires forall k | k in t.jobs :: t.jobs[k].external == Some(name) ==> k == "s:" + name
    requires !Duplicated(TwoRows(), StubJob(name))
    ensures Dispose(Plain(), TwoRows(), t, FullRow(key, name).record, true)
            == Verdict(FillStub, Some("s:" + name), Some(StubJob(name)))
  {
    var job := FullRow(key, name).record.job;
    assert "s" + ":" + name == "s:" + name;
    FoundByKey(Plain(), t.jobs, "s:" + name, job);
    assert {"u"} * {"u"} == {"u"};
    assert Duplicated(TwoRows(), job) == Duplicated(TwoRows(), StubJob(name));
    hide Current, Duplicated;
  }

  lemma StubsAreFilled()
    ensures Dispose(Plain(), TwoRows(), Stubs(), FullRow(1, "1").record, true) == Verdict(FillStub, Some("s:1"), Some(StubJob("1")))
    ensures Dispose(Plain(), TwoRows(), Stubs(), FullRow(2, "2").record, true) == Verdict(FillStub, Some("s:2"), Some(StubJob("2")))
  {
    assert !Duplicated(TwoRows(), StubJob("1")) && !Duplicated(TwoRows(), StubJob("2"));
    assert "s:" + "1" == "s:1" && "s:" + "2" == "s:2";
    StubIsFilled(Stubs(), 1, "1");
    StubIsFilled(Stubs(), 2, "2");
  }

  /** The first row's change, before and after the first run. */
  lemma DraftsWeigh(t: Tables)
    ensures var rest := TwoRows().rows;
            var c, d := ChangeOf(Plain(), TwoRows(), t, true, rest[0], []), ChangeOf(Plain(), TwoRows(), t, true, rest[1], []);
            && Drafted(Plain(), TwoRows(), t, true, rest[..1], 0) == Draft([c], map[], 0)
            && Drafted(Plain(), TwoRows(), t, true, rest[..2], 0) == Draft([c, d], map[], 0)
            && Weight(Plain(), [c]) == Plain().weigh(c) && Weight(Plain(), [c, d]) == Plain().weigh(c) + Plain().weigh(d)
  {
    hide ChangeOf, Plain;
    var rest := TwoRows().rows;
    NothingDrafted(Plain(), TwoRows(), t, true, rest, 0);
    DraftedOneMore(Plain(), TwoRows(), t, true, rest, 0, 0);
    DraftedOneMore(Plain(), TwoRows(), t, true, rest, 0, 1);
  }

  /** What filling a stub makes of it, and the change that does. */
  function Filled(name: string): Job {
    StubJob(name).(description := Some("D"), raw := Some(SOME_RAW.(marker := Some("s:" + name + ":D"))))
  }

  function FillChange(key: nat, name: string): Change {
    Change("s:" + name + ":D", FullRow(key, name), Verdict(FillStub, Some("s:" + name), Some(StubJob(name))), [], Some(Filled(name)))
  }

  lemma FillIs(t: Tables, key: nat, name: string)
    requires Dispose(Plain(), TwoRows(), t, FullRow(key, name).record, true) == Verdict(FillStub, Some("s:" + name), Some(StubJob(name)))
    ensures ChangeOf(Plain(), TwoRows(), t, true, FullRow(key, name), []) == FillChange(key, name)
    ensures !Malformed(Plain(), TwoRows(), t, true, FullRow(key, name))
    ensures Plain().weigh(FillChange(key, name)) == 5
  {
    hide Dispose;
    assert "s" + ":" + name + ":" + "D" == "s:" + name + ":D";
  }

  /** The first run takes the first row alone. */
  lemma FirstRun()
    ensures var lens, live, t, rest := Plain(), TwoRows(), Stubs(), TwoRows().rows;
            && Preparable(lens, live, t, true, rest, NINE) && Importable(lens, live, t, true, rest, NINE)
            && !Fits(lens, live, t, true, rest, NINE, 2)
            && Drafted(lens, live, t, true, rest[..1], 0).changes == [FillChange(1, "1")]
  {
    StubsAreFilled();
    DraftsWeigh(Stubs());
    assert "s:" + "1" == "s:1" && "s:" + "2" == "s:2";
    FillIs(Stubs(), 1, "1");
    FillIs(Stubs(), 2, "2");
    NothingDrafted(Plain(), TwoRows(), Stubs(), true, TwoRows().rows, 0);
    hide Dispose, Drafted, Weight, Plain, ChangeOf, Malformed, FillChange, Stubs, Importable;
    var rest := TwoRows().rows;
    assert rest == [FullRow(1, "1"), FullRow(2, "2")];
    hide TwoRows, FullRow;
    OnlyOneFits(Stubs());
  }

  lemma IdsDiffer()
    ensures IdOf(Plain(), FullRow(1, "1")) != IdOf(Plain(), FullRow(2, "2"))
  {
    assert IdOf(Plain(), FullRow(1, "1"))[2] == '1' && IdOf(Plain(), FullRow(2, "2"))[2] == '2';
  }

  lemma StubsAreClear()
    ensures Sound(Plain(), Stubs()) && Clear(Plain(), TwoRows(), Stubs()) && Sorted(TwoRows().rows)
  {
    IdsDiffer();
    hide Plain, IdOf, StubJob;
    forall a, b | a in TwoRows().rows && b in TwoRows().rows && IdOf(Plain(), a) == IdOf(Plain(), b) ensures a == b {
      assert a in [FullRow(1, "1"), FullRow(2, "2")] && b in [FullRow(1, "1"), FullRow(2, "2")];
    }
    assert TwoRows().rows[0].record.key == 1 && TwoRows().rows[1].record.key == 2;
  }

  lemma OnlyOneFits(t: Tables)
    requires var rest := TwoRows().rows; !Fits(Plain(), TwoRows(), t, true, rest, NINE, 2)
    ensures Importable(Plain(), TwoRows(), t, true, TwoRows().rows, NINE)
  {
    forall m: nat | m <= 2 && Fits(Plain(), TwoRows(), t, true, TwoRows().rows, NINE, m)
      ensures KeysDistinct(Drafted(Plain(), TwoRows(), t, true, TwoRows().rows[..m], NINE.bytes).changes)
    {
    }
  }
  /** What the first run leaves: the first row filled, and what the second run makes of
      both rows. */
  lemma BetweenRuns(between: Tables, changes: seq<Change>)
    requires changes == [FillChange(1, "1")]
    requires Imported(Plain(), TwoRows(), Stubs(), between, true, TwoRows().rows, changes)
    ensures between.observed == {} && between.jobs == map["s:1" := Filled("1"), "s:2" := StubJob("2")]
    ensures !Writing(Dispose(Plain(), TwoRows(), between, FullRow(1, "1").record, true).disposition)
  {
    assert FullRow(1, "1") == TwoRows().rows[0];
    hide Imported, Dispose, Plain, Stubs, TwoRows, FullRow, FillChange;
    ImportedJobs(Plain(), TwoRows(), Stubs(), between, true, TwoRows().rows, changes);
    Settled(Plain(), TwoRows(), Stubs(), between, true, TwoRows().rows, changes, 0);
    OneStored(changes);
  }

  lemma ImportedJobs(lens: Lens, live: Live, t: Tables, t': Tables, fill: bool, rows: seq<LiveRow>, changes: seq<Change>)
    requires Imported(lens, live, t, t', fill, rows, changes)
    ensures t'.jobs == t.jobs + Stored(changes) && t'.observed == t.observed && |changes| <= |rows|
  {
    hide Stored, Linked, Describes, Writes;
  }

  lemma OneStored(changes: seq<Change>)
    requires changes == [FillChange(1, "1")]
    ensures Stubs().jobs + Stored(changes) == map["s:1" := Filled("1"), "s:2" := StubJob("2")] && Stubs().observed == {}
  {
    assert "s:" + "1" == "s:1" && changes[..0] == [];
    assert Stored(changes) == map[] + StoredBy(changes[0]);
    hide StubJob;
    assert StoredBy(changes[0]) == map["s:1" := Filled("1")];
  }

  lemma SecondRowWaits(between: Tables)
    requires between.observed == {} && between.jobs == map["s:1" := Filled("1"), "s:2" := StubJob("2")]
    ensures Dispose(Plain(), TwoRows(), between, FullRow(2, "2").record, true) == Verdict(FillStub, Some("s:2"), Some(StubJob("2")))
  {
    assert "s:" + "2" == "s:2";
    assert !Duplicated(TwoRows(), StubJob("2"));
    StubIsFilled(between, 2, "2");
  }

  /** The second row still waits, and now both fit. */
  lemma SecondRun(between: Tables)
    requires between.observed == {} && between.jobs == map["s:1" := Filled("1"), "s:2" := StubJob("2")]
    requires !Writing(Dispose(Plain(), TwoRows(), between, FullRow(1, "1").record, true).disposition)
    ensures var lens, live, rest := Plain(), TwoRows(), TwoRows().rows;
            && Preparable(lens, live, between, true, rest, NINE) && Importable(lens, live, between, true, rest, NINE)
            && ReachesWrite(lens, live, between, true, rest, NINE, 1)
  {
    assert "s:" + "2" == "s:2";
    SecondRowWaits(between);
    FillIs(between, 2, "2");
    LeftAlone(between);
    DraftsWeigh(between);
    NothingDrafted(Plain(), TwoRows(), between, true, TwoRows().rows, 0);
    BothFit(Plain(), TwoRows(), between, TwoRows().rows, ChangeOf(Plain(), TwoRows(), between, true, FullRow(1, "1"), []), FillChange(2, "2"));
  }

  lemma BothFit(lens: Lens, live: Live, t: Tables, rest: seq<LiveRow>, c: Change, d: Change)
    requires |rest| == 2 && !Malformed(lens, live, t, true, rest[0]) && !Malformed(lens, live, t, true, rest[1])
    requires Drafted(lens, live, t, true, rest[..0], 0).changes == []
    requires Drafted(lens, live, t, true, rest[..1], 0).changes == [c] && Drafted(lens, live, t, true, rest[..2], 0).changes == [c, d]
    requires Weight(lens, [c]) <= 9 && Weight(lens, [c, d]) <= 9
    requires !Writes(c) && Writing(Dispose(lens, live, t, rest[1].record, true).disposition)
    ensures Preparable(lens, live, t, true, rest, NINE) && Importable(lens, live, t, true, rest, NINE)
    ensures ReachesWrite(lens, live, t, true, rest, NINE, 1)
  {
    hide Dispose, Drafted, Weight, Malformed;
    assert Fits(lens, live, t, true, rest, NINE, 2);
    assert Fits(lens, live, t, true, rest, NINE, 1);
    forall m: nat | m <= 2 ensures KeysDistinct(Drafted(lens, live, t, true, rest[..m], 0).changes) {
      assert m == 0 || m == 1 || m == 2;
    }
  }

  /** The first row's change is lighter now: nothing is stored. */
  lemma LeftAlone(between: Tables)
    requires between.jobs == map["s:1" := Filled("1"), "s:2" := StubJob("2")]
    requires !Writing(Dispose(Plain(), TwoRows(), between, FullRow(1, "1").record, true).disposition)
    ensures var c := ChangeOf(Plain(), TwoRows(), between, true, FullRow(1, "1"), []);
            Plain().weigh(c) <= 4 && !Writes(c) && !Malformed(Plain(), TwoRows(), between, true, FullRow(1, "1"))
  {
    var v := Dispose(Plain(), TwoRows(), between, FullRow(1, "1").record, true);
    BeforeHeld(Plain(), TwoRows(), between, FullRow(1, "1").record, true);
    hide Dispose;
  }

  lemma BeforeHeld(lens: Lens, live: Live, t: Tables, record: Record, fill: bool)
    ensures var v := Dispose(lens, live, t, record, fill);
            v.before.Some? ==> v.key.Some? && v.key.value in t.jobs && v.before.value == t.jobs[v.key.value]
  {
    hide Current, Duplicated, Blank;
  }
  /** Why the second run can reach further: the change of a filled row is lighter when
      nothing is stored, so the same metadata budget takes one more row, and writes it. */
  method RerunReachesFurther() returns (first: Batch, second: Batch)
    ensures first.changes == [FillChange(1, "1")] && first.more
    ensures |second.changes| > |first.changes| && Written(second.changes) > 0
  {
    hide *;
    var lens, live := Plain(), TwoRows();
    var worker := new Worker(Stubs());
    StubsAreClear();
    FirstRun();
    BothVisited();
    var one, two, between := Reexecute(worker, lens, live, true, 0, NINE, true);
    first := one.value;
    OneChange(first);
    BetweenRuns(between, first.changes);
    SecondRun(between);
    second := two.value;
    NoneWritten(lens, second.changes);
  }

  lemma BothVisited()
    ensures After(TwoRows().rows, 0) == TwoRows().rows && BoundsOk(NINE)
  {
    AfterAll(TwoRows().rows, 0);
  }

  lemma OneChange(batch: Batch)
    requires var lens, live, rest := Plain(), TwoRows(), TwoRows().rows;
             && Prepared(lens, live, Stubs(), true, rest, NINE, batch) && !Fits(lens, live, Stubs(), true, rest, NINE, 2)
             && Drafted(lens, live, Stubs(), true, rest[..1], 0).changes == [FillChange(1, "1")]
    ensures batch.changes == [FillChange(1, "1")] && batch.more
  {
    hide Drafted, Weight, Malformed, FillChange, Plain, Stubs;
    var n := |batch.changes|;
    assert |TwoRows().rows| == 2;
    hide TwoRows;
    assert n == 1;
  }

  // ----- the whole inventory

  function RowsOf(changes: seq<Change>): seq<LiveRow> {
    seq(|changes|, i requires 0 <= i < |changes| => changes[i].row)
  }

  /** A live row is archived, together with its aliases. */
  predicate IsArchived(lens: Lens, t: Tables, row: LiveRow) {
    var id := lens.baseline(row.record, row.aliases);
    id in t.archive && t.archive[id] == Archived(row.record, row.aliases)
  }

  /** A live row calls for no writing. */
  predicate Quiet(lens: Lens, live: Live, t: Tables, fill: bool, row: LiveRow) {
    !Writing(Dispose(lens, live, t, row.record, fill).disposition)
  }

  /** What inserting a live row stores. */
  function Inserted(lens: Lens, row: LiveRow): Job {
    var job := row.record.job;
    job.(raw := Some(Raw(Some(IdOf(lens, row)), false, if job.raw.Some? then job.raw.value.other else 0)), listed := false, ready := false)
  }

  /** What giving a worker row the body of a live row makes of it. */
  function Rewritten(lens: Lens, job: Job, row: LiveRow, ready: bool): Job {
    job.(description := row.record.job.description, ready := ready,
         raw := if job.raw.Some? then Some(job.raw.value.(marker := Some(IdOf(lens, row)))) else None)
  }

  ghost function Bases(lens: Lens, live: Live, t: Tables): set<Job> {
    t.jobs.Values + set row | row in live.rows :: Inserted(lens, row)
  }

  /** Every row that the worker can come to hold by importing the live rows. */
  ghost function Held(lens: Lens, live: Live, t: Tables): set<Job> {
    Bases(lens, live, t)
    + set job, row, ready | job in Bases(lens, live, t) && row in live.rows && ready in {false, true} :: Rewritten(lens, job, row, ready)
  }

  /** Every key it can come to hold them under. */
  ghost function HeldKeys(lens: Lens, live: Live, t: Tables): set<Key> {
    t.jobs.Keys + set row | row in live.rows :: lens.identity(row.record.job.source, Text(row.record.job.external))
  }

  /** A change that some batch may draft, now or after any imports of the live rows. */
  ghost predicate Draftable(lens: Lens, live: Live, t: Tables, c: Change) {
    && c.row in live.rows && c.id == IdOf(lens, c.row)
    && (c.verdict.key.Some? ==> c.verdict.key.value in HeldKeys(lens, live, t))
    && (c.verdict.before.Some? ==> c.verdict.before.value in Held(lens, live, t))
    && (c.operational.Some? ==> c.operational.value in Held(lens, live, t))
    && |c.items| == |c.row.associations|
    && forall i | 0 <= i < |c.items| :: c.items[i].association == c.row.associations[i]
  }

  /** What lets every batch of an inventory succeed, whatever was imported by then: no
      hash is ambiguous, all metadata is well formed, every change that may come up fits
      the metadata budget, and no two native identities have one worker key. */
  ghost predicate Smooth(lens: Lens, live: Live, t: Tables, bounds: Bounds) {
    Regular(lens, live, t) && forall c: Change | Draftable(lens, live, t, c) :: lens.weigh(c) <= bounds.metadata
  }

  ghost predicate Regular(lens: Lens, live: Live, t: Tables) {
    && Clear(lens, live, t)
    && (forall row | row in live.rows :: row.record.job.raw.Some?)
    && (forall key | key in t.jobs :: t.jobs[key].raw.Some?)
    && KeysTell(lens, live)
  }

  lemma RewrittenIsHeld(lens: Lens, live: Live, t: Tables, job: Job, row: LiveRow, ready: bool)
    requires job in Held(lens, live, t) && row in live.rows
    ensures Rewritten(lens, job, row, ready) in Held(lens, live, t)
  {
    hide IdOf;
    if job !in Bases(lens, live, t) {
      var base, r, was :| base in Bases(lens, live, t) && r in live.rows && job == Rewritten(lens, base, r, was);
      assert Rewritten(lens, job, row, ready) == Rewritten(lens, base, row, ready);
    }
  }

  lemma StoredIsHeld(lens: Lens, live: Live, t: Tables, row: LiveRow, v: Verdict)
    requires row in live.rows && (v.before.Some? ==> v.before.value in Held(lens, live, t))
    requires Operational(row.record, IdOf(lens, row), v).Some?
    ensures Operational(row.record, IdOf(lens, row), v).value in Held(lens, live, t)
  {
    hide IdOf;
    var job := Operational(row.record, IdOf(lens, row), v).value;
    if v.before.None? {
      assert job == Inserted(lens, row);
    } else {
      assert job == Rewritten(lens, v.before.value, row, job.ready);
      RewrittenIsHeld(lens, live, t, v.before.value, row, job.ready);
    }
  }

  lemma JobIsHeld(lens: Lens, live: Live, t: Tables, key: Key)
    requires key in t.jobs
    ensures t.jobs[key] in Held(lens, live, t) && key in HeldKeys(lens, live, t)
  {
  }

  /** Whatever a worker came to hold in this way, it cannot come to hold more. */
  lemma HeldShrinks(lens: Lens, live: Live, t: Tables, t': Tables)
    requires forall key | key in t'.jobs :: t'.jobs[key] in Held(lens, live, t) && key in HeldKeys(lens, live, t)
    ensures Held(lens, live, t') <= Held(lens, live, t) && HeldKeys(lens, live, t') <= HeldKeys(lens, live, t)
  {
    hide Rewritten, Inserted, IdOf;
    forall job | job in Held(lens, live, t') ensures job in Held(lens, live, t) {
      BaseIsHeld(lens, live, t, t');
      if job !in Bases(lens, live, t') {
        var base, row, ready :| base in Bases(lens, live, t') && row in live.rows && job == Rewritten(lens, base, row, ready);
        RewrittenIsHeld(lens, live, t, base, row, ready);
      }
    }
  }

  lemma BaseIsHeld(lens: Lens, live: Live, t: Tables, t': Tables)
    requires forall key | key in t'.jobs :: t'.jobs[key] in Held(lens, live, t)
    ensures Bases(lens, live, t') <= Held(lens, live, t)
  {
    hide Rewritten, Inserted, IdOf;
  }

  /** A row's change may come up. */
  lemma ChangeIsDraftable(lens: Lens, live: Live, t: Tables, fill: bool, row: LiveRow, items: seq<Item>)
    requires row in live.rows && |items| == |row.associations|
    requires forall i | 0 <= i < |items| :: items[i].association == row.associations[i]
    ensures Draftable(lens, live, t, ChangeOf(lens, live, t, fill, row, items))
  {
    var v := Dispose(lens, live, t, row.record, fill);
    BeforeHeld(lens, live, t, row.record, fill);
    KeyHeld(lens, live, t, row, fill);
    hide Dispose, Held, HeldKeys;
    if v.before.Some? {
      JobIsHeld(lens, live, t, v.key.value);
    }
    if Operational(row.record, IdOf(lens, row), v).Some? {
      StoredIsHeld(lens, live, t, row, v);
    }
  }

  lemma KeyHeld(lens: Lens, live: Live, t: Tables, row: LiveRow, fill: bool)
    requires row in live.rows
    ensures var v := Dispose(lens, live, t, row.record, fill); v.key.Some? ==> v.key.value in HeldKeys(lens, live, t)
  {
    hide Duplicated, Blank;
  }

  /** Worker keys tell native identities apart. */
  ghost predicate KeysTell(lens: Lens, live: Live) {
    forall a, b | a in live.rows && b in live.rows && !Blank(lens, a.record.job.external) && !Blank(lens, b.record.job.external)
      && lens.identity(a.record.job.source, Text(a.record.job.external)) == lens.identity(b.record.job.source, Text(b.record.job.external)) ::
      SameIdentity(a.record.job, b.record.job)
  }

  lemma SmoothRow(lens: Lens, live: Live, t: Tables, bounds: Bounds, fill: bool, row: LiveRow)
    requires Smooth(lens, live, t, bounds) && row in live.rows
    ensures !Malformed(lens, live, t, fill, row)
  {
    hide Clear, KeysTell, Current, Duplicated, Draftable;
  }

  lemma TwoKeys(lens: Lens, live: Live, t: Tables, fill: bool, rows: seq<LiveRow>, changes: seq<Change>, i: nat, j: nat)
    requires KeysTell(lens, live) && FromLive(live, rows) && Covers(lens, live, t, fill, rows, changes)
    requires i < j < |changes| && Writes(changes[i]) && Writes(changes[j])
    ensures changes[i].verdict.key != changes[j].verdict.key
  {
    if changes[j].verdict.before.Some? {
      UpdateIsAlone(lens, live, t, fill, rows, changes, i, j);
    } else {
      hide Describes, Duplicated, Blank, KeysTell;
      var a, b := changes[i], changes[j];
      assert Describes(lens, live, t, fill, rows[i], a) && Describes(lens, live, t, fill, rows[j], b);
      RowOf(lens, live, t, fill, rows[i], a);
      RowOf(lens, live, t, fill, rows[j], b);
      WritingMeans(lens, live, t, fill, a);
      WritingMeans(lens, live, t, fill, b);
      Rivals(lens, live, t, fill, a.row, b.row);
      Told(lens, live, a.row, b.row);
    }
  }

  lemma Told(lens: Lens, live: Live, a: LiveRow, b: LiveRow)
    requires KeysTell(lens, live) && a in live.rows && b in live.rows
    requires !Blank(lens, a.record.job.external) && !Blank(lens, b.record.job.external) && !SameIdentity(a.record.job, b.record.job)
    ensures lens.identity(a.record.job.source, Text(a.record.job.external))
            != lens.identity(b.record.job.source, Text(b.record.job.external))
  {
  }

  /** A smooth inventory lets every batch be prepared and imported. */
  lemma SmoothSucceeds(lens: Lens, live: Live, t: Tables, fill: bool, rest: seq<LiveRow>, bounds: Bounds)
    requires Smooth(lens, live, t, bounds) && FromLive(live, rest)
    ensures Preparable(lens, live, t, fill, rest, bounds) && Importable(lens, live, t, fill, rest, bounds)
  {
    hide Malformed, Drafted, Weight, JudgeAll, ChangeOf, Covers, KeysTell, Writes;
    forall row | row in rest ensures !Malformed(lens, live, t, fill, row) {
      SmoothRow(lens, live, t, bounds, fill, row);
    }
    if rest != [] {
      DraftedOneMore(lens, live, t, fill, rest, bounds.bytes, 0);
      NothingDrafted(lens, live, t, fill, rest, bounds.bytes);
      NoBlobs(lens, live);
      NoItems(lens, live, map[], bounds.bytes);
      AllJudgedTruly(lens, live, rest[0].associations, map[], bounds.bytes, []);
      ChangeIsDraftable(lens, live, t, fill, rest[0], JudgeAll(lens, live, rest[0].associations, map[], bounds.bytes).items);
    }
    forall m: nat | m <= Least(bounds.jobs, |rest|) && Fits(lens, live, t, fill, rest, bounds, m)
      ensures KeysDistinct(Drafted(lens, live, t, fill, rest[..m], bounds.bytes).changes)
    {
      var changes := Drafted(lens, live, t, fill, rest[..m], bounds.bytes).changes;
      DraftIsHonest(lens, live, t, fill, rest[..m], bounds.bytes);
      FirstFromLive(live, rest, m);
      forall i, j | 0 <= i < j < |changes| && Writes(changes[i]) && Writes(changes[j])
        ensures changes[i].verdict.key != changes[j].verdict.key
      {
        TwoKeys(lens, live, t, fill, rest[..m], changes, i, j);
      }
    }
  }

  lemma FirstFromLive(live: Live, rows: seq<LiveRow>, m: nat)
    requires FromLive(live, rows) && m <= |rows|
    ensures FromLive(live, rows[..m])
  {
  }

  lemma SmoothOn(lens: Lens, live: Live, t: Tables, t': Tables, fill: bool, rows: seq<LiveRow>, changes: seq<Change>, bounds: Bounds)
    requires Smooth(lens, live, t, bounds) && Clear(lens, live, t') && Imported(lens, live, t, t', fill, rows, changes)
    ensures Smooth(lens, live, t', bounds)
  {
    hide Clear, KeysTell, Imported, Dispose, Held, HeldKeys, Operational;
    forall key | key in t'.jobs
      ensures t'.jobs[key].raw.Some? && t'.jobs[key] in Held(lens, live, t) && key in HeldKeys(lens, live, t)
    {
      KeyStaysHeld(lens, live, t, t', fill, rows, changes, key);
    }
    HeldShrinks(lens, live, t, t');
    forall c: Change | Draftable(lens, live, t', c) ensures lens.weigh(c) <= bounds.metadata {
      assert Draftable(lens, live, t, c);
    }
  }

  lemma KeyStaysHeld(lens: Lens, live: Live, t: Tables, t': Tables, fill: bool, rows: seq<LiveRow>, changes: seq<Change>, key: Key)
    requires Imported(lens, live, t, t', fill, rows, changes) && key in t'.jobs
    requires forall k | k in t.jobs :: t.jobs[k].raw.Some?
    ensures t'.jobs[key].raw.Some? && t'.jobs[key] in Held(lens, live, t) && key in HeldKeys(lens, live, t)
  {
    hide Imported, Dispose, Held, HeldKeys;
    var i := KeyAfter(lens, live, t, t', fill, rows, changes, key);
    if i >= 0 {
      ChangeAt(lens, live, t, t', fill, rows, changes, i);
      var c := changes[i];
      BeforeHeld(lens, live, t, c.row.record, fill);
      KeyHeld(lens, live, t, c.row, fill);
      if c.verdict.before.Some? {
        JobIsHeld(lens, live, t, c.verdict.key.value);
      }
      StoredIsHeld(lens, live, t, c.row, c.verdict);
    } else {
      JobIsHeld(lens, live, t, key);
    }
  }

  // ----- a budget for every inventory

  const ALL_DISPOSITIONS := {UnknownSource, DisabledSource, MissingIdentity, IdentityConflict, InsertMissing,
                             PreserveObservation, AdoptBody, PreserveSameBody, FillStub, PreserveContent}

  const ALL_STATUSES := {MissingReference, SizeMismatch, Verified, ByteBudget, HashMismatch}

  lemma DispositionListed(d: Disposition)
    ensures d in ALL_DISPOSITIONS
  {
    match d
    case UnknownSource =>
    case DisabledSource =>
    case MissingIdentity =>
    case IdentityConflict =>
    case InsertMissing =>
    case PreserveObservation =>
    case AdoptBody =>
    case PreserveSameBody =>
    case FillStub =>
    case PreserveContent =>
  }

  lemma StatusListed(status: Status)
    ensures status in ALL_STATUSES
  {
    match status
    case MissingReference =>
    case SizeMismatch =>
    case Verified =>
    case ByteBudget =>
    case HashMismatch =>
  }

  /** All verdicts on some attachments. */
  ghost function AllItems(associations: seq<Association>): set<seq<Item>> {
    if associations == [] then {[]}
    else
      var last := |associations| - 1;
      set items, status | items in AllItems(associations[..last]) && status in ALL_STATUSES :: items + [Item(associations[last], status)]
  }

  lemma {:induction false} ItemsAmongAll(associations: seq<Association>, items: seq<Item>)
    requires |items| == |associations| && forall i | 0 <= i < |items| :: items[i].association == associations[i]
    ensures items in AllItems(associations)
  {
    if associations != [] {
      var last := |associations| - 1;
      ItemsAmongAll(associations[..last], items[..last]);
      StatusListed(items[last].status);
      assert items == items[..last] + [Item(associations[last], items[last].status)];
    }
  }

  ghost function Maybe<T>(s: set<T>): set<Option<T>> {
    {None} + set x | x in s :: Some(x)
  }

  /** All changes of a row that may come up. */
  ghost function ChangesOfRow(lens: Lens, live: Live, t: Tables, row: LiveRow): set<Change> {
    set d, key, before, items, stored |
      && d in ALL_DISPOSITIONS && key in Maybe(HeldKeys(lens, live, t)) && before in Maybe(Held(lens, live, t))
      && items in AllItems(row.associations) && stored in Maybe(Held(lens, live, t)) ::
      Change(IdOf(lens, row), row, Verdict(d, key, before), items, stored)
  }

  lemma AmongRowChanges(lens: Lens, live: Live, t: Tables, c: Change)
    requires Draftable(lens, live, t, c)
    ensures c in ChangesOfRow(lens, live, t, c.row)
  {
    hide Held, HeldKeys, AllItems, IdOf;
    ItemsAmongAll(c.row.associations, c.items);
    DispositionListed(c.verdict.disposition);
    assert c.verdict.key in Maybe(HeldKeys(lens, live, t)) && c.verdict.before in Maybe(Held(lens, live, t));
    assert c.operational in Maybe(Held(lens, live, t));
    assert c == Change(IdOf(lens, c.row), c.row, Verdict(c.verdict.disposition, c.verdict.key, c.verdict.before), c.items, c.operational);
  }

  lemma {:induction false} Heaviest(lens: Lens, changes: set<Change>) returns (n: nat)
    ensures forall c | c in changes :: lens.weigh(c) <= n
    decreases |changes|
  {
    n := 0;
    if changes != {} {
      var c :| c in changes;
      var m := Heaviest(lens, changes - {c});
      n := if m < lens.weigh(c) then lens.weigh(c) else m;
      assert forall d | d in changes :: d == c || d in changes - {c};
    }
  }

  lemma {:induction false} HeaviestOfRows(lens: Lens, live: Live, t: Tables, rows: seq<LiveRow>) returns (n: nat)
    ensures forall c | Draftable(lens, live, t, c) && c.row in rows :: lens.weigh(c) <= n
    decreases |rows|
  {
    n := 0;
    if rows != [] {
      var last := rows[|rows| - 1];
      var m := HeaviestOfRows(lens, live, t, rows[..|rows| - 1]);
      n := Heaviest(lens, ChangesOfRow(lens, live, t, last));
      hide Draftable, ChangesOfRow;
      forall c | Draftable(lens, live, t, c) && c.row in rows ensures lens.weigh(c) <= n || lens.weigh(c) <= m {
        AmongRowChanges(lens, live, t, c);
        assert c.row == last || c.row in rows[..|rows| - 1];
      }
      n := if m < n then n else m;
    }
  }

  /** Every regular inventory is smooth under some metadata budget, whatever the changes
      weigh, and whatever the other budgets are. */
  lemma SomeBudget(lens: Lens, live: Live, t: Tables, jobs: nat, bytes: nat)
    requires Regular(lens, live, t) && 1 <= jobs <= MAX_JOBS
    ensures exists metadata: nat :: BoundsOk(Bounds(jobs, bytes, metadata)) && Smooth(lens, live, t, Bounds(jobs, bytes, metadata))
  {
    hide Regular, Draftable;
    var n := HeaviestOfRows(lens, live, t, live.rows);
    DraftableIsOfRow(lens, live, t);
    var bounds := Bounds(jobs, bytes, n + 1);
    assert BoundsOk(bounds) && Smooth(lens, live, t, bounds);
  }

  /** The two rows above, and the worker's stubs of them, are regular: some budget lets
      the whole inventory be followed. */
  lemma StubsAreRegular()
    ensures Regular(Plain(), TwoRows(), Stubs())
    ensures exists metadata: nat :: Smooth(Plain(), TwoRows(), Stubs(), Bounds(5, 0, metadata))
  {
    hide Plain, TwoRows, Stubs, Clear, KeysTell, Regular, Smooth;
    StubsAreClear();
    KeysTellRows();
    StubsAreWellFormed();
    MakesRegular(Plain(), TwoRows(), Stubs());
    SomeBudget(Plain(), TwoRows(), Stubs(), 5, 0);
  }

  lemma MakesRegular(lens: Lens, live: Live, t: Tables)
    requires Clear(lens, live, t) && KeysTell(lens, live)
    requires forall row | row in live.rows :: row.record.job.raw.Some?
    requires forall key | key in t.jobs :: t.jobs[key].raw.Some?
    ensures Regular(lens, live, t)
  {
  }

  lemma StubsAreWellFormed()
    ensures forall row | row in TwoRows().rows :: row.record.job.raw.Some?
    ensures forall key | key in Stubs().jobs :: Stubs().jobs[key].raw.Some?
  {
  }

  lemma KeysTellRows()
    ensures KeysTell(Plain(), TwoRows())
  {
    assert "s" + ":" + "1" == "s:1" && "s" + ":" + "2" == "s:2" && "s:1"[2] != "s:2"[2];
    forall a, b | a in TwoRows().rows && b in TwoRows().rows
      && Plain().identity(a.record.job.source, Text(a.record.job.external)) == Plain().identity(b.record.job.source, Text(b.record.job.external))
      ensures SameIdentity(a.record.job, b.record.job)
    {
      assert a in [FullRow(1, "1"), FullRow(2, "2")] && b in [FullRow(1, "1"), FullRow(2, "2")];
    }
  }

  lemma DraftableIsOfRow(lens: Lens, live: Live, t: Tables)
    ensures forall c | Draftable(lens, live, t, c) :: c.row in live.rows
  {
  }

  /** After an import the rows of the batch are quiet, and so are those that were. */
  lemma QuietOn(lens: Lens, live: Live, t: Tables, t': Tables, fill: bool, rest: seq<LiveRow>, changes: seq<Change>, before: seq<LiveRow>)
    requires Imported(lens, live, t, t', fill, rest, changes)
    requires forall row | row in before :: row in live.rows && Quiet(lens, live, t, fill, row)
    ensures forall row | row in before :: Quiet(lens, live, t', fill, row)
    ensures forall row | row in RowsOf(changes) :: row in live.rows && Quiet(lens, live, t', fill, row)
  {
    hide Imported, Dispose;
    forall row | row in before ensures Quiet(lens, live, t', fill, row) {
      StaysSettled(lens, live, t, t', fill, rest, changes, row);
    }
    forall row | row in RowsOf(changes) ensures row in live.rows && Quiet(lens, live, t', fill, row) {
      var j :| 0 <= j < |changes| && changes[j].row == row;
      ChangeAt(lens, live, t, t', fill, rest, changes, j);
      Settled(lens, live, t, t', fill, rest, changes, j);
    }
  }

  /** Once the inventory is quiet, no run from any cursor under any budgets writes a job
      or a link, and the inventory stays quiet. */
  lemma QuietForever(lens: Lens, live: Live, t: Tables, t': Tables, fill: bool, after: nat, bounds: Bounds, batch: Batch)
    requires Sorted(live.rows) && forall row | row in After(live.rows, 0) :: Quiet(lens, live, t, fill, row)
    requires Honest(lens, live, t, fill, After(live.rows, after), bounds, batch)
    requires Imported(lens, live, t, t', fill, After(live.rows, after), batch.changes)
    ensures Written(batch.changes) == 0 && t'.jobs == t.jobs && t'.links == t.links
    ensures forall row | row in After(live.rows, 0) :: Quiet(lens, live, t', fill, row)
  {
    hide Imported, Dispose, Honest, Writes, After, Sorted;
    var rest := After(live.rows, after);
    AfterIsFromLive(live, 0);
    forall i | 0 <= i < |batch.changes| ensures !Writes(batch.changes[i]) {
      WritesAt(lens, live, t, fill, rest, bounds, batch, i);
      AfterLater(live.rows, after, i);
    }
    NoneWritten(lens, batch.changes);
    NothingStored(lens, live, t, t', fill, rest, batch.changes);
    QuietOn(lens, live, t, t', fill, rest, batch.changes, After(live.rows, 0));
  }

  lemma AfterLater(rows: seq<LiveRow>, after: nat, i: nat)
    requires Sorted(rows) && i < |After(rows, after)|
    ensures After(rows, after)[i] in After(rows, 0)
  {
    hide After;
    var k := AfterFrom(rows, after);
    var k0 := AfterFrom(rows, 0);
    assert rows[k + i].record.key > after;
    assert k + i >= k0 && rows[k0..][k + i - k0] == rows[k + i];
  }

  /** Follow the cursor from the empty key: the batches hold each visited row once, in
      key order, every one of them is archived in the end, and none calls for writing
      any more. Over a smooth inventory a calm run succeeds. */
  method FollowBatches(worker: Worker, lens: Lens, live: Live, fill: bool, bounds: Bounds, calm: bool)
    returns (r: Outcome<seq<seq<LiveRow>>>)
    requires Sorted(live.rows) && Sound(lens, worker.tables)
    modifies worker
    ensures Sound(lens, worker.tables) && Keeps(old(worker.tables), worker.tables)
    ensures calm && BoundsOk(bounds) && Smooth(lens, live, old(worker.tables), bounds) ==> r.Done?
    ensures r.Done? ==>
            && Flat(r.value) == After(live.rows, 0)
            && (forall b | 0 <= b < |r.value| :: After(live.rows, 0) == [] || 0 < |r.value[b]| <= bounds.jobs)
            && (forall row | row in After(live.rows, 0) :: IsArchived(lens, worker.tables, row))
            && (forall row | row in After(live.rows, 0) :: Quiet(lens, live, worker.tables, fill, row))
  {
    hide *;
    NothingYet(worker.tables);
    ghost var whole := After(live.rows, 0);
    ghost var smooth := Smooth(lens, live, worker.tables, bounds);
    var cursor, batches, more := 0, [], true;
    FlatNone();
    while more
      invariant Sound(lens, worker.tables) && Keeps(old(worker.tables), worker.tables)
      invariant smooth ==> Smooth(lens, live, worker.tables, bounds)
      invariant Flat(batches) <= whole
      invariant if more then After(live.rows, cursor) == whole[|Flat(batches)|..] else Flat(batches) == whole
      invariant more && batches != [] ==> After(live.rows, cursor) != []
      invariant forall b | 0 <= b < |batches| :: whole == [] || 0 < |batches[b]| <= bounds.jobs
      invariant forall row | row in Flat(batches) :: IsArchived(lens, worker.tables, row)
      invariant forall row | row in Flat(batches) :: row in live.rows && Quiet(lens, live, worker.tables, fill, row)
      decreases more, |After(live.rows, cursor)|
    {
      ghost var before := worker.tables;
      ghost var rest := After(live.rows, cursor);
      AfterIsFromLive(live, cursor);
      if smooth {
        SmoothSucceeds(lens, live, before, fill, rest, bounds);
        SmoothIsClear(lens, live, before, bounds);
      }
      var batch := worker.Reconcile(lens, live, fill, cursor, bounds, None, true, calm);
      if batch.Raised? {
        return Raised(batch.error);
      }
      if smooth {
        SmoothOn(lens, live, before, worker.tables, fill, rest, batch.value.changes, bounds);
      }
      var rows := RowsOf(batch.value.changes);
      BatchRows(lens, live, before, worker.tables, fill, cursor, bounds, batch.value);
      ArchivedOn(lens, before, worker.tables, Flat(batches));
      QuietOn(lens, live, before, worker.tables, fill, rest, batch.value.changes, Flat(batches));
      KeepsOn(old(worker.tables), before, worker.tables);
      FlatNext(batches, rows);
      Progress(whole, Flat(batches), rows);
      batches := batches + [rows];
      var next := NextCursor(batch.value);
      if next.Some? {
        AfterContinues(live.rows, cursor, |rows|);
        cursor := next.value;
      } else {
        more := false;
      }
    }
    r := Done(batches);
  }

  lemma SmoothIsClear(lens: Lens, live: Live, t: Tables, bounds: Bounds)
    requires Smooth(lens, live, t, bounds)
    ensures Clear(lens, live, t)
  {
  }

  function Flat(batches: seq<seq<LiveRow>>): seq<LiveRow> {
    if batches == [] then [] else Flat(batches[..|batches| - 1]) + batches[|batches| - 1]
  }

  lemma Progress(whole: seq<LiveRow>, done: seq<LiveRow>, rows: seq<LiveRow>)
    requires done <= whole && rows <= whole[|done|..]
    ensures done + rows <= whole && whole[|done + rows|..] == whole[|done|..][|rows|..]
    ensures |rows| == |whole[|done|..]| ==> done + rows == whole
  {
  }

  lemma FlatNone()
    ensures Flat([]) == []
  {
  }

  lemma FlatNext(batches: seq<seq<LiveRow>>, rows: seq<LiveRow>)
    ensures Flat(batches + [rows]) == Flat(batches) + rows
  {
    assert (batches + [rows])[..|batches|] == batches;
  }

  lemma ArchivedOn(lens: Lens, t: Tables, t': Tables, rows: seq<LiveRow>)
    requires Keeps(t, t') && forall row | row in rows :: IsArchived(lens, t, row)
    ensures forall row | row in rows :: IsArchived(lens, t', row)
  {
  }

  /** The rows of an executed batch: the next ones, at least one if there are any, all
      archived, with the cursor at the last. */
  lemma BatchRows(lens: Lens, live: Live, t: Tables, t': Tables, fill: bool, after: nat, bounds: Bounds, batch: Batch)
    requires var rest := After(live.rows, after);
             Prepared(lens, live, t, fill, rest, bounds, batch) && Honest(lens, live, t, fill, rest, bounds, batch)
    requires BoundsOk(bounds) && forall i | 0 <= i < |batch.changes| :: Recorded(t', batch.changes[i])
    ensures var rest, rows := After(live.rows, after), RowsOf(batch.changes);
            && |rows| <= bounds.jobs && rows <= rest && (rest != [] ==> rows != [])
            && (forall row | row in rows :: IsArchived(lens, t', row))
            && (if |rows| < |rest| then NextCursor(batch) == Some(rest[|rows| - 1].record.key) else NextCursor(batch) == None)
  {
    hide Dispose, After, AllJudged, AllGenuine, Drafted, Malformed, Fits, Weight, Size;
    var rest, rows := After(live.rows, after), RowsOf(batch.changes);
    forall i | 0 <= i < |rows| ensures rows[i] == rest[i] && IsArchived(lens, t', rows[i]) {
      assert Describes(lens, live, t, fill, rest[i], batch.changes[i]) && Recorded(t', batch.changes[i]);
    }
  }
}
