/**
  The job database: the jobs table, the change log, and the full-text mirror that
  triggers keep. Every method acts on each key's row and log as JobLifecycle says.
*/
module JobStore {
  import opened Wrappers
  import opened JobLifecycle

  /** One occurrence of a term in one column of one row. */
  datatype Posting = Posting(term: string, column: nat, position: nat, rowid: nat)

  type Tokenizer = string -> seq<string>

  function ColumnPostings(rowid: nat, column: nat, terms: seq<string>): multiset<Posting> {
    multiset(seq(|terms|, i requires 0 <= i < |terms| => Posting(terms[i], column, i, rowid)))
  }

  function ColumnsPostings(tokenize: Tokenizer, rowid: nat, columns: seq<string>): multiset<Posting> {
    if columns == [] then multiset{}
    else
      ColumnsPostings(tokenize, rowid, columns[..|columns| - 1])
      + ColumnPostings(rowid, |columns| - 1, tokenize(columns[|columns| - 1]))
  }

  /** What the index holds for a row. */
  function Postings(tokenize: Tokenizer, row: Row): multiset<Posting> {
    ColumnsPostings(tokenize, row.rowid, row.columns)
  }

  /** The index built from scratch from the current rows. */
  ghost function Built(tokenize: Tokenizer, jobs: map<Key, Row>): multiset<Posting>
    decreases |jobs|
  {
    if jobs == map[] then multiset{}
    else
      var k :| k in jobs;
      Built(tokenize, jobs - {k}) + Postings(tokenize, jobs[k])
  }

  /** It does not matter in which order the rows are taken. */
  lemma {:induction false} BuiltFrom(tokenize: Tokenizer, jobs: map<Key, Row>, k: Key)
    requires k in jobs
    ensures Built(tokenize, jobs) == Built(tokenize, jobs - {k}) + Postings(tokenize, jobs[k])
    decreases |jobs|
  {
    hide Postings;
    var first :| first in jobs && Built(tokenize, jobs) == Built(tokenize, jobs - {first}) + Postings(tokenize, jobs[first]);
    if first != k {
      assert jobs - {first} - {k} == jobs - {k} - {first};
      BuiltFrom(tokenize, jobs - {first}, k);
      BuiltFrom(tokenize, jobs - {k}, first);
    }
  }

  lemma BuiltPut(tokenize: Tokenizer, jobs: map<Key, Row>, k: Key, row: Row)
    ensures Built(tokenize, jobs[k := row]) == Built(tokenize, jobs - {k}) + Postings(tokenize, row)
  {
    BuiltFrom(tokenize, jobs[k := row], k);
    assert jobs[k := row] - {k} == jobs - {k};
  }

  /** The part of the log that is about one key. */
  function LogOf(log: seq<Event>, k: Key): seq<Event> {
    if log == [] then []
    else
      LogOf(log[..|log| - 1], k) + (if log[|log| - 1].key == k then [log[|log| - 1]] else [])
  }

  function Count(log: seq<Event>, change: Change): nat {
    if log == [] then 0
    else Count(log[..|log| - 1], change) + (if log[|log| - 1].change == change then 1 else 0)
  }

  /** Both logs mark as many jobs missing, and as many closed. */
  predicate SameMarks(log: seq<Event>, log': seq<Event>) {
    Count(log', BecameMissing) == Count(log, BecameMissing) && Count(log', BecameClosed) == Count(log, BecameClosed)
  }

  lemma MarksOn(a: seq<Event>, b: seq<Event>, c: seq<Event>)
    ensures SameMarks(a, b) && SameMarks(b, c) ==> SameMarks(a, c)
  {
  }

  lemma LogOfOne(log: seq<Event>, e: Event, k: Key)
    ensures LogOf(log + [e], k) == LogOf(log, k) + (if e.key == k then [e] else [])
  {
    assert (log + [e])[..|log|] == log;
  }

  lemma CountOne(log: seq<Event>, e: Event, change: Change)
    ensures Count(log + [e], change) == Count(log, change) + (if e.change == change then 1 else 0)
  {
    assert (log + [e])[..|log|] == log;
  }

  function LifeIn(jobs: map<Key, Row>, log: seq<Event>, k: Key): Life {
    Life(if k in jobs then Some(jobs[k]) else None, LogOf(log, k))
  }

  /** The fetched jobs of one key, in order. */
  function JobsOf(fetched: seq<Job>, k: Key): seq<Job> {
    if fetched == [] then []
    else JobsOf(fetched[..|fetched| - 1], k) + (if fetched[|fetched| - 1].key == k then [fetched[|fetched| - 1]] else [])
  }

  lemma JobsOfStep(fetched: seq<Job>, i: nat)
    requires i < |fetched|
    ensures forall k ::
              JobsOf(fetched[..i + 1], k) == if fetched[i].key == k then JobsOf(fetched[..i], k) + [fetched[i]] else JobsOf(fetched[..i], k)
  {
    assert fetched[..i + 1][..i] == fetched[..i];
    forall k
      ensures JobsOf(fetched[..i + 1], k) == if fetched[i].key == k then JobsOf(fetched[..i], k) + [fetched[i]] else JobsOf(fetched[..i], k)
    {
      assert JobsOf(fetched[..i], k) + [] == JobsOf(fetched[..i], k);
    }
  }

  /** What a run of `source` is to a key with this row and log. */
  function VisitOf(l: Life, source: Source, jobs: seq<Job>, rowid: nat, today: Date): Visit {
    var l' := UpsertAll(l, jobs, rowid);
    Visit(jobs, rowid, l'.row.Some? && l'.row.value.source == source, today)
  }

  lemma VisitIsUpsertThenMark(l: Life, k: Key, source: Source, jobs: seq<Job>, rowid: nat, threshold: int, today: Date)
    ensures Visited(l, k, VisitOf(l, source, jobs, rowid, today), threshold)
            == Marked(UpsertAll(l, jobs, rowid), k, source, jobs != [], threshold, today)
  {
    hide UpsertAll, MarkRow, MarkEvents;
  }

  lemma UpsertAllStep(l: Life, jobs: seq<Job>, job: Job, rowid: nat)
    ensures UpsertAll(l, jobs + [job], rowid) == Upserted(UpsertAll(l, jobs, rowid), job, rowid)
  {
    assert (jobs + [job])[..|jobs|] == jobs;
  }

  datatype Counts = Counts(missing: nat, closed: nat)

  class JobDatabase {
    const tokenize: Tokenizer
    var jobs: map<Key, Row>
    var log: seq<Event>
    /** The full-text index, once it was created. */
    var mirror: Option<multiset<Posting>>

    ghost predicate Valid()
      reads this
    {
      mirror.Some? ==> mirror.value == Built(tokenize, jobs)
    }

    ghost function LifeOf(k: Key): Life
      reads this
    {
      LifeIn(jobs, log, k)
    }

    /** A database from before the index existed may already hold rows. */
    constructor (tokenize: Tokenizer, jobs: map<Key, Row>, log: seq<Event>)
      ensures Valid() && this.tokenize == tokenize && this.jobs == jobs && this.log == log && mirror == None
    {
      this.tokenize, this.jobs, this.log, mirror := tokenize, jobs, log, None;
    }

    /** Create the index if there is none, and fill it from the rows there are. */
    method EnsureFts()
      requires Valid()
      modifies `mirror
      ensures Valid() && mirror.Some?
    {
      if mirror == None {
        mirror := Some(multiset{});
        if jobs != map[] {
          var index := Rebuild();
          mirror := Some(index);
        }
      }
    }

    /** Index every row, in whatever order the table gives them. */
    method Rebuild() returns (index: multiset<Posting>)
      ensures index == Built(tokenize, jobs)
    {
      index := multiset{};
      var left := jobs;
      while left != map[]
        invariant left.Keys <= jobs.Keys && forall k | k in left :: left[k] == jobs[k]
        invariant index + Built(tokenize, left) == Built(tokenize, jobs)
        decreases |left|
      {
        hide Postings;
        var k :| k in left;
        BuiltFrom(tokenize, left, k);
        index := index + Postings(tokenize, left[k]);
        left := left - {k};
      }
    }

    /** INSERT INTO jobs, with its trigger. */
    method Insert(k: Key, row: Row)
      requires Valid() && k !in jobs
      modifies `jobs, `mirror
      ensures Valid() && jobs == old(jobs)[k := row] && mirror.Some? == old(mirror.Some?)
    {
      BuiltPut(tokenize, jobs, k, row);
      assert jobs - {k} == jobs;
      jobs := jobs[k := row];
      if mirror.Some? {
        mirror := Some(mirror.value + Postings(tokenize, row));
      }
    }

    /** UPDATE jobs, with its trigger: the old row's terms out, the new row's in. */
    method Update(k: Key, row: Row)
      requires Valid() && k in jobs
      modifies `jobs, `mirror
      ensures Valid() && jobs == old(jobs)[k := row] && mirror.Some? == old(mirror.Some?)
    {
      hide Postings;
      BuiltFrom(tokenize, jobs, k);
      BuiltPut(tokenize, jobs, k, row);
      var was := jobs[k];
      jobs := jobs[k := row];
      if mirror.Some? {
        mirror := Some(mirror.value - Postings(tokenize, was) + Postings(tokenize, row));
      }
    }

    /** DELETE FROM jobs, with its trigger. */
    method Delete(k: Key)
      requires Valid() && k in jobs
      modifies `jobs, `mirror
      ensures Valid() && jobs == old(jobs) - {k} && mirror.Some? == old(mirror.Some?)
    {
      hide Postings;
      BuiltFrom(tokenize, jobs, k);
      if mirror.Some? {
        mirror := Some(mirror.value - Postings(tokenize, jobs[k]));
      }
      jobs := jobs - {k};
    }

    method AddChangeEvent(e: Event)
      modifies `log
      ensures log == old(log) + [e]
      ensures forall k :: LogOf(log, k) == LogOf(old(log), k) + (if e.key == k then [e] else [])
      ensures forall c :: Count(log, c) == Count(old(log), c) + (if e.change == c then 1 else 0)
    {
      log := log + [e];
      forall k
        ensures LogOf(log, k) == LogOf(old(log), k) + (if e.key == k then [e] else [])
      {
        LogOfOne(old(log), e, k);
      }
      forall c
        ensures Count(log, c) == Count(old(log), c) + (if e.change == c then 1 else 0)
      {
        CountOne(old(log), e, c);
      }
    }

    /** Insert or update a job, log how it changed, and say whether it did. */
    method UpsertJob(job: Job, rowid: nat) returns (change: string)
      requires Valid()
      modifies this
      ensures Valid()
      ensures LifeOf(job.key) == Upserted(old(LifeOf(job.key)), job, rowid)
      ensures forall k | k != job.key :: LifeOf(k) == old(LifeOf(k))
      ensures change == if job.key !in old(jobs) then "inserted"
                        else if UpsertChange(Some(old(jobs)[job.key]), job) == None then "unchanged" else "updated"
      ensures job.status == Open ==> SameMarks(old(log), log)
    {
      hide LogOf, Count;
      var current: Option<Row> := if job.key in jobs then Some(jobs[job.key]) else None;
      var event: Option<Change>;
      if current == None {
        change, event := "inserted", Some(Created);
      } else if current.value.status in {Closed, Missing} && job.status == Open {
        change, event := "updated", Some(Reopened);
      } else if current.value.status != job.status {
        change := "updated";
        event := Some(if job.status == Closed then BecameClosed
                      else if job.status == Missing then BecameMissing else StatusChanged);
      } else if current.value.hash != job.hash {
        change, event := "updated", Some(Updated);
      } else {
        change, event := "unchanged", None;
      }
      var row := UpsertRow(current, job, rowid);
      if current == None {
        Insert(job.key, row);
      } else {
        Update(job.key, row);
      }
      if event.Some? {
        var oldHash: Option<Hash> := if current == None then None else Some(current.value.hash);
        var e := Event(job.source, job.key, event.value, oldHash, Some(job.hash));
        AddChangeEvent(e);
      }
      assert old(LogOf(log, job.key)) + [] == old(LogOf(log, job.key));
    }

    /** Upsert what was fetched, one after the other; `seen` are the keys. */
    method UpsertFetched(fetched: seq<Job>, rowids: Key -> nat) returns (seen: set<Key>)
      requires Valid()
      modifies this
      ensures Valid()
      ensures forall k :: LifeOf(k) == UpsertAll(old(LifeOf(k)), JobsOf(fetched, k), rowids(k))
      ensures forall k :: k in seen <==> JobsOf(fetched, k) != []
      ensures AllOpen(fetched) ==> SameMarks(old(log), log)
    {
      assert SameMarks(log, log);
      hide Count, Valid, SameMarks;
      seen := {};
      for i := 0 to |fetched|
        invariant Valid()
        invariant forall k :: LifeOf(k) == UpsertAll(old(LifeOf(k)), JobsOf(fetched[..i], k), rowids(k))
        invariant forall k :: k in seen <==> JobsOf(fetched[..i], k) != []
        invariant AllOpen(fetched) ==> SameMarks(old(log), log)
      {
        var job := fetched[i];
        assert AllOpen(fetched) ==> job.status == Open;
        hide LifeOf, Upserted, UpsertAll, JobsOf, AllOpen;
        JobsOfStep(fetched, i);
        ghost var before := log;
        label prior:
        var _ := UpsertJob(job, rowids(job.key));
        MarksOn(old(log), before, log);
        forall k
          ensures LifeOf(k) == UpsertAll(old(LifeOf(k)), JobsOf(fetched[..i + 1], k), rowids(k))
        {
          if k == job.key {
            UpsertAllStep(old(LifeOf(k)), JobsOf(fetched[..i], k), job, rowids(k));
          } else {
            assert LifeOf(k) == old@prior(LifeOf(k));
          }
        }
        seen := seen + {job.key};
      }
      assert fetched[..|fetched|] == fetched;
    }

    /** One run of a source: upsert what was fetched, then mark what was not. */
    method FetchRun(source: Source, fetched: seq<Job>, rowids: Key -> nat, threshold: int, today: Date) returns (counts: Counts)
      requires Valid()
      modifies this
      ensures Valid()
      ensures forall k ::
                LifeOf(k) == Visited(old(LifeOf(k)), k, VisitOf(old(LifeOf(k)), source, JobsOf(fetched, k), rowids(k), today), threshold)
      ensures AllOpen(fetched) ==> counts.missing == Count(log, BecameMissing) - Count(old(log), BecameMissing)
      ensures AllOpen(fetched) ==> counts.closed == Count(log, BecameClosed) - Count(old(log), BecameClosed)
    {
      hide LifeOf, UpsertAll, Marked, Visited, VisitOf, JobsOf, AllOpen, Count, Valid;
      var seen := UpsertFetched(fetched, rowids);
      counts := MarkMissing(source, seen, threshold, today);
      forall k
        ensures LifeOf(k) == Visited(old(LifeOf(k)), k, VisitOf(old(LifeOf(k)), source, JobsOf(fetched, k), rowids(k), today), threshold)
      {
        VisitIsUpsertThenMark(old(LifeOf(k)), k, source, JobsOf(fetched, k), rowids(k), threshold, today);
      }
    }

    /** Mark the rows of a source that a run has not seen, one after the other. */
    method MarkMissing(source: Source, seen: set<Key>, threshold: int, today: Date) returns (counts: Counts)
      requires Valid()
      modifies this
      ensures Valid()
      ensures forall k :: LifeOf(k) == Marked(old(LifeOf(k)), k, source, k in seen, threshold, today)
      ensures old(log) <= log
      ensures counts.missing == Count(log, BecameMissing) - Count(old(log), BecameMissing)
      ensures counts.closed == Count(log, BecameClosed) - Count(old(log), BecameClosed)
    {
      hide LogOf, Count, MarkRow, MarkEvents;
      counts := Counts(0, 0);
      var left := set k | k in jobs && Watched(jobs[k], source);
      while left != {}
        invariant Valid() && jobs.Keys == old(jobs).Keys && old(log) <= log
        invariant forall k | k in left :: k in jobs && Watched(jobs[k], source) && LifeOf(k) == old(LifeOf(k))
        invariant forall k | k !in left :: LifeOf(k) == Marked(old(LifeOf(k)), k, source, k in seen, threshold, today)
        invariant counts.missing == Count(log, BecameMissing) - Count(old(log), BecameMissing)
        invariant counts.closed == Count(log, BecameClosed) - Count(old(log), BecameClosed)
        decreases |left|
      {
        var k :| k in left;
        var more := MarkOne(k, source, k in seen, threshold, today);
        counts := Counts(counts.missing + more.missing, counts.closed + more.closed);
        left := left - {k};
      }
    }

    /** One row of a marking. */
    method MarkOne(k: Key, source: Source, seen: bool, threshold: int, today: Date) returns (counts: Counts)
      requires Valid() && k in jobs && Watched(jobs[k], source)
      modifies this
      ensures Valid() && jobs.Keys == old(jobs).Keys && old(log) <= log
      ensures LifeOf(k) == Marked(old(LifeOf(k)), k, source, seen, threshold, today)
      ensures forall k' | k' != k :: LifeOf(k') == old(LifeOf(k'))
      ensures forall k' | k' != k && k' in jobs :: jobs[k'] == old(jobs)[k']
      ensures counts.missing == Count(log, BecameMissing) - Count(old(log), BecameMissing)
      ensures counts.closed == Count(log, BecameClosed) - Count(old(log), BecameClosed)
    {
      hide LogOf, Count;
      counts := Counts(0, 0);
      var row := jobs[k];
      var count := row.missingRuns + 1;
      if seen {
        if row.missingRuns != 0 {
          Update(k, row.(missingRuns := 0));
        }
      } else if PastClosing(row.closesAt, today) {
        Update(k, row.(status := Closed, missingRuns := count));
        AddChangeEvent(Event(source, k, BecameClosed, Some(row.hash), None));
        counts := Counts(0, 1);
      } else if count >= threshold {
        Update(k, row.(status := Missing, missingRuns := count));
        if row.status != Missing {
          AddChangeEvent(Event(source, k, BecameMissing, Some(row.hash), Some(row.hash)));
          counts := Counts(1, 0);
        }
      } else {
        Update(k, row.(missingRuns := count));
      }
      assert old(LogOf(log, k)) + [] == old(LogOf(log, k));
    }
  }
}
