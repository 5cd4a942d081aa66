/**
  The life of one job row and of its change log, whatever is upserted and marked
  missing, in whatever order.
*/
module JobLifecycle {
  import opened Wrappers

  type Key = string
  type Source = string
  type Hash = string
  type Date = int

  datatype Status = Open | Missing | Closed | OtherStatus(name: string)

  datatype Change = Created | Updated | Reopened | BecameClosed | BecameMissing | StatusChanged

  datatype Event = Event(source: Source, key: Key, change: Change, oldHash: Option<Hash>, newHash: Option<Hash>)

  /** A row of the jobs table. `columns` are the four texts that are indexed. */
  datatype Row = Row(rowid: nat, source: Source, status: Status, hash: Hash, closesAt: Option<Date>,
                     missingRuns: nat, columns: seq<string>)

  /** A job to be upserted, with its hash. */
  datatype Job = Job(key: Key, source: Source, status: Status, hash: Hash, closesAt: Option<Date>, columns: seq<string>)

  // ----- what one call does to one row

  /** How an upsert changes a row: the event it logs, if any. */
  function UpsertChange(current: Option<Row>, job: Job): Option<Change> {
    match current
    case None => Some(Created)
    case Some(row) =>
      if row.status in {Closed, Missing} && job.status == Open then Some(Reopened)
      else if row.status != job.status then
        Some(if job.status == Closed then BecameClosed else if job.status == Missing then BecameMissing else StatusChanged)
      else if row.hash != job.hash then Some(Updated)
      else None
  }

  /** The source of a row is the one it was created with. */
  function UpsertRow(current: Option<Row>, job: Job, rowid: nat): Row {
    match current
    case None => Row(rowid, job.source, job.status, job.hash, job.closesAt, 0, job.columns)
    case Some(row) => Row(row.rowid, row.source, job.status, job.hash, job.closesAt, 0, job.columns)
  }

  function UpsertEvents(current: Option<Row>, job: Job): seq<Event> {
    match UpsertChange(current, job)
    case None => []
    case Some(change) => [Event(job.source, job.key, change, if current.None? then None else Some(current.value.hash), Some(job.hash))]
  }

  predicate PastClosing(closesAt: Option<Date>, today: Date) {
    closesAt.Some? && closesAt.value < today
  }

  /** A row that marking looks at. */
  predicate Watched(row: Row, source: Source) {
    row.source == source && row.status in {Open, Missing}
  }

  function MarkRow(row: Row, seen: bool, threshold: int, today: Date): Row {
    var count := row.missingRuns + 1;
    if seen then row.(missingRuns := 0)
    else if PastClosing(row.closesAt, today) then row.(status := Closed, missingRuns := count)
    else if count >= threshold then row.(status := Missing, missingRuns := count)
    else row.(missingRuns := count)
  }

  function MarkEvents(key: Key, row: Row, seen: bool, threshold: int, today: Date): seq<Event> {
    if seen then []
    else if PastClosing(row.closesAt, today) then [Event(row.source, key, BecameClosed, Some(row.hash), None)]
    else if row.missingRuns + 1 >= threshold && row.status != Missing then
      [Event(row.source, key, BecameMissing, Some(row.hash), Some(row.hash))]
    else []
  }

  // ----- one key's row and log

  datatype Life = Life(row: Option<Row>, log: seq<Event>)

  const UNBORN := Life(None, [])

  function Upserted(l: Life, job: Job, rowid: nat): Life {
    Life(Some(UpsertRow(l.row, job, rowid)), l.log + UpsertEvents(l.row, job))
  }

  function Marked(l: Life, key: Key, source: Source, seen: bool, threshold: int, today: Date): Life {
    if l.row.Some? && Watched(l.row.value, source) then
      Life(Some(MarkRow(l.row.value, seen, threshold, today)),
           l.log + MarkEvents(key, l.row.value, seen, threshold, today))
    else l
  }

  datatype Call =
    | Upsert(job: Job, rowid: nat)
    | Mark(key: Key, source: Source, seen: bool, threshold: int, today: Date)

  function Live(l: Life, call: Call): Life {
    match call
    case Upsert(job, rowid) => Upserted(l, job, rowid)
    case Mark(key, source, seen, threshold, today) => Marked(l, key, source, seen, threshold, today)
  }

  function Lived(l: Life, calls: seq<Call>): Life {
    if calls == [] then l else Live(Lived(l, calls[..|calls| - 1]), calls[|calls| - 1])
  }

  // ----- the log is a hash chain

  function LastHash(log: seq<Event>): Option<Hash> {
    if log == [] then None
    else if log[|log| - 1].newHash.Some? then log[|log| - 1].newHash
    else LastHash(log[..|log| - 1])
  }

  /** The first event creates the row, no later one does, and each later one
      starts from the hash the events before it left. */
  predicate Chained(log: seq<Event>) {
    forall i | 0 <= i < |log| ::
      && (log[i].change == Created <==> i == 0)
      && log[i].oldHash == LastHash(log[..i])
  }

  predicate ChainedLife(l: Life) {
    && (l.row.Some? <==> l.log != [])
    && Chained(l.log)
    && (l.row.Some? ==> LastHash(l.log) == Some(l.row.value.hash))
  }

  lemma ChainOne(log: seq<Event>, e: Event)
    requires Chained(log) && (e.change == Created <==> log == []) && e.oldHash == LastHash(log)
    ensures Chained(log + [e])
    ensures LastHash(log + [e]) == if e.newHash.Some? then e.newHash else LastHash(log)
  {
    var longer := log + [e];
    assert longer[..|log|] == log;
    forall i | 0 <= i < |log|
      ensures longer[..i] == log[..i]
    {
    }
  }

  lemma UpsertKeepsChain(l: Life, job: Job, rowid: nat)
    requires ChainedLife(l)
    ensures ChainedLife(Upserted(l, job, rowid))
  {
    hide Chained, LastHash;
    var events := UpsertEvents(l.row, job);
    if events == [] {
      assert l.log + [] == l.log;
    } else {
      NoHashYet();
      ChainOne(l.log, events[0]);
      assert events == [events[0]];
    }
  }

  lemma NoHashYet()
    ensures LastHash([]) == None
  {
  }

  lemma MarkKeepsChain(l: Life, key: Key, source: Source, seen: bool, threshold: int, today: Date)
    requires ChainedLife(l)
    ensures ChainedLife(Marked(l, key, source, seen, threshold, today))
  {
    hide Chained, LastHash;
    if l.row.Some? && Watched(l.row.value, source) {
      var events := MarkEvents(key, l.row.value, seen, threshold, today);
      if events == [] {
        assert l.log + [] == l.log;
      } else {
        ChainOne(l.log, events[0]);
        assert events == [events[0]];
      }
    }
  }

  /** Over every interleaving of upserts and missing marks, of any statuses and
      thresholds, the log of a job is a hash chain that ends at its stored hash. */
  lemma {:induction false} EveryLogIsChain(calls: seq<Call>)
    ensures ChainedLife(Lived(UNBORN, calls))
    decreases |calls|
  {
    if calls != [] {
      EveryLogIsChain(calls[..|calls| - 1]);
      var l := Lived(UNBORN, calls[..|calls| - 1]);
      hide ChainedLife;
      match calls[|calls| - 1]
      case Upsert(job, rowid) => UpsertKeepsChain(l, job, rowid);
      case Mark(key, source, seen, threshold, today) => MarkKeepsChain(l, key, source, seen, threshold, today);
    }
  }

  // ----- runs: upsert what was fetched, then mark what was not

  /** What one run does to a key: the jobs fetched under it, all open, and
      whether the run is one of the row's own source. */
  datatype Visit = Visit(jobs: seq<Job>, rowid: nat, own: bool, today: Date)

  predicate AllOpen(jobs: seq<Job>) {
    forall i | 0 <= i < |jobs| :: jobs[i].status == Open
  }

  function UpsertAll(l: Life, jobs: seq<Job>, rowid: nat): Life {
    if jobs == [] then l else Upserted(UpsertAll(l, jobs[..|jobs| - 1], rowid), jobs[|jobs| - 1], rowid)
  }

  function Visited(l: Life, key: Key, v: Visit, threshold: int): Life {
    var l' := UpsertAll(l, v.jobs, v.rowid);
    if v.own && l'.row.Some? then Marked(l', key, l'.row.value.source, v.jobs != [], threshold, v.today) else l'
  }

  function AfterVisits(key: Key, visits: seq<Visit>, threshold: int): Life {
    if visits == [] then UNBORN
    else Visited(AfterVisits(key, visits[..|visits| - 1], threshold), key, visits[|visits| - 1], threshold)
  }

  /** How many runs of its own source in a row have not seen the key. */
  function Unseen(visits: seq<Visit>): nat {
    if visits == [] then 0
    else
      var v := visits[|visits| - 1];
      if v.jobs != [] then 0
      else if v.own then Unseen(visits[..|visits| - 1]) + 1
      else Unseen(visits[..|visits| - 1])
  }

  function Reach(threshold: int): int {
    if threshold < 1 then 1 else threshold
  }

  /** The count of a live row is its number of consecutive unseen runs, and it is
      missing exactly when that number has reached the threshold. */
  predicate Counted(l: Life, unseen: nat, threshold: int) {
    l.row.Some? ==>
      var row := l.row.value;
      && row.status in {Open, Missing, Closed}
      && (row.status != Closed ==> row.missingRuns == unseen && (row.status == Missing <==> unseen >= Reach(threshold)))
  }

  lemma {:induction false} UpsertAllOpens(l: Life, jobs: seq<Job>, rowid: nat)
    requires AllOpen(jobs)
    ensures var l' := UpsertAll(l, jobs, rowid);
            if jobs == [] then l' == l
            else l'.row.Some? && l'.row.value.status == Open && l'.row.value.missingRuns == 0
    decreases |jobs|
  {
  }

  lemma {:induction false} VisitsCount(key: Key, visits: seq<Visit>, threshold: int)
    requires OnlyOpen(visits)
    ensures Counted(AfterVisits(key, visits, threshold), Unseen(visits), threshold)
    decreases |visits|
  {
    if visits != [] {
      var before, v := visits[..|visits| - 1], visits[|visits| - 1];
      VisitsCount(key, before, threshold);
      UpsertAllOpens(AfterVisits(key, before, threshold), v.jobs, v.rowid);
    }
  }

  predicate OnlyOpen(visits: seq<Visit>) {
    forall i | 0 <= i < |visits| :: AllOpen(visits[i].jobs)
  }

  /** The stored count alone tells whether a live row is missing. */
  predicate CountTells(l: Life, threshold: int) {
    l.row.Some? && l.row.value.status != Closed ==>
      (l.row.value.status == Missing <==> l.row.value.missingRuns >= threshold)
  }

  /** That holds over all runs exactly for thresholds of at least one: below that,
      a row just seen has count zero, which has reached the threshold, and is open. */
  lemma CountTellsFromOne(key: Key, threshold: int)
    ensures (forall visits | OnlyOpen(visits) :: CountTells(AfterVisits(key, visits, threshold), threshold))
            <==> threshold >= 1
  {
    if threshold >= 1 {
      forall visits | OnlyOpen(visits)
        ensures CountTells(AfterVisits(key, visits, threshold), threshold)
      {
        VisitsCount(key, visits, threshold);
      }
    } else {
      var job := Job(key, "source", Open, "hash", None, []);
      var v := Visit([job], 0, true, 0);
      assert [v][..0] == [] && [job][..0] == [];
      assert UpsertAll(UNBORN, [job], 0) == Upserted(UNBORN, job, 0);
      assert AfterVisits(key, [v], threshold) == Visited(UNBORN, key, v, threshold);
      assert OnlyOpen([v]);
    }
  }

  // ----- missing events are separated

  /** Between two events that mark a job missing lies one that reopened it. */
  predicate Separated(log: seq<Event>) {
    forall i, j | 0 <= i < j < |log| && log[i].change == BecameMissing && log[j].change == BecameMissing ::
      exists k | i < k < j :: log[k].change == Reopened
  }

  /** No missing event since the last reopening. */
  predicate Quiet(log: seq<Event>) {
    forall i | 0 <= i < |log| && log[i].change == BecameMissing ::
      exists k | i < k < |log| :: log[k].change == Reopened
  }

  predicate SeparatedLife(l: Life) {
    && Separated(l.log)
    && (l.row == None ==> l.log == [])
    && (l.row.Some? ==> l.row.value.status in {Open, Missing, Closed} && (l.row.value.status == Open ==> Quiet(l.log)))
  }

  lemma SeparatedOne(log: seq<Event>, e: Event)
    requires Separated(log)
    ensures e.change != BecameMissing || Quiet(log) ==> Separated(log + [e])
    ensures e.change == Reopened || (Quiet(log) && e.change != BecameMissing) ==> Quiet(log + [e])
  {
    var longer := log + [e];
    assert forall i | 0 <= i < |log| :: longer[i] == log[i];
    if e.change == Reopened {
      assert longer[|log|].change == Reopened;
    }
    if e.change != BecameMissing || Quiet(log) {
      forall i, j | 0 <= i < j < |longer| && longer[i].change == BecameMissing && longer[j].change == BecameMissing
        ensures exists k | i < k < j :: longer[k].change == Reopened
      {
        if j < |log| {
          var k :| i < k < j && log[k].change == Reopened;
          assert longer[k].change == Reopened;
        } else {
          var k :| i < k < |log| && log[k].change == Reopened;
          assert longer[k].change == Reopened;
        }
      }
    }
    if Quiet(log) && e.change != BecameMissing {
      forall i | 0 <= i < |longer| && longer[i].change == BecameMissing
        ensures exists k | i < k < |longer| :: longer[k].change == Reopened
      {
        var k :| i < k < |log| && log[k].change == Reopened;
        assert longer[k].change == Reopened;
      }
    }
  }

  lemma UpsertSeparated(l: Life, job: Job, rowid: nat)
    requires SeparatedLife(l) && job.status == Open
    ensures SeparatedLife(Upserted(l, job, rowid))
  {
    var events := UpsertEvents(l.row, job);
    if events == [] {
      assert l.log + [] == l.log;
    } else {
      assert events == [events[0]];
      SeparatedOne(l.log, events[0]);
    }
  }

  lemma MarkSeparated(l: Life, key: Key, source: Source, seen: bool, threshold: int, today: Date)
    requires SeparatedLife(l) && (seen ==> l.row.Some? ==> l.row.value.status == Open)
    ensures SeparatedLife(Marked(l, key, source, seen, threshold, today))
  {
    if l.row.Some? && Watched(l.row.value, source) {
      var events := MarkEvents(key, l.row.value, seen, threshold, today);
      if events == [] {
        assert l.log + [] == l.log;
      } else {
        assert events == [events[0]];
        SeparatedOne(l.log, events[0]);
      }
    }
  }

  lemma {:induction false} UpsertAllSeparated(l: Life, jobs: seq<Job>, rowid: nat)
    requires SeparatedLife(l) && AllOpen(jobs)
    ensures SeparatedLife(UpsertAll(l, jobs, rowid))
    decreases |jobs|
  {
    if jobs != [] {
      UpsertAllSeparated(l, jobs[..|jobs| - 1], rowid);
      UpsertSeparated(UpsertAll(l, jobs[..|jobs| - 1], rowid), jobs[|jobs| - 1], rowid);
    }
  }

  /** In every sequence of runs, a job goes missing again only after it reopened. */
  lemma {:induction false} VisitsSeparate(key: Key, visits: seq<Visit>, threshold: int)
    requires OnlyOpen(visits)
    ensures SeparatedLife(AfterVisits(key, visits, threshold))
    decreases |visits|
  {
    if visits != [] {
      var before, v := visits[..|visits| - 1], visits[|visits| - 1];
      VisitsSeparate(key, before, threshold);
      var l := AfterVisits(key, before, threshold);
      UpsertAllSeparated(l, v.jobs, v.rowid);
      UpsertAllOpens(l, v.jobs, v.rowid);
      var l' := UpsertAll(l, v.jobs, v.rowid);
      if v.own && l'.row.Some? {
        MarkSeparated(l', key, l'.row.value.source, v.jobs != [], threshold, v.today);
      }
    }
  }
}
