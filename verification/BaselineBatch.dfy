/**
  Preparing one batch of the baseline import: what to do with each live row, which
  of its attachments can be archived with their bytes, and how far a batch goes
  under its three budgets. Hashes, the job-key derivation, the detail grading and
  the size of a serialised change are functions of a Lens.
*/
module BaselineBatch {
  import opened Wrappers

  type Key = string
  type Id = string
  type Sha = string
  type Content = seq<bv8>

  /** The metadata of a job, as far as it matters here: the baseline marker, whether
      it attests completeness, and everything else. */
  datatype Raw = Raw(marker: Option<Id>, attested: bool, other: nat)

  /** A row of the worker's jobs table. `raw` is None when its JSON is no object. */
  datatype Job = Job(source: string, external: Option<string>, title: string, description: Option<string>,
                     urls: set<string>, raw: Option<Raw>, listed: bool, ready: bool)

  /** A row of the live jobs table; `key` is its place in the order of job keys, 0
      being the place of the empty key. */
  datatype Record = Record(key: nat, job: Job)

  datatype Association = Association(tag: nat, content: Option<Sha>)

  datatype LiveRow = LiveRow(record: Record, aliases: seq<nat>, associations: seq<Association>)

  datatype Blob = Blob(size: int, content: Content)

  /** `sources` says of each registered source whether it is enabled. */
  datatype Live = Live(rows: seq<LiveRow>, blobs: map<Sha, Blob>, sources: map<string, bool>)

  datatype Link = Link(baseline: Id, source: string, external: Option<string>, description: Sha, adopted: Job)

  datatype Status = MissingReference | SizeMismatch | Verified | ByteBudget | HashMismatch

  datatype Archived = Archived(record: Record, aliases: seq<nat>)

  /** The worker's tables. */
  datatype Tables = Tables(jobs: map<Key, Job>, observed: set<Key>, links: map<Key, Link>,
                           archive: map<Id, Archived>, images: set<(Key, Job)>,
                           attachments: map<(Id, Association), Status>, blobs: map<Sha, Blob>)

  datatype Disposition =
    | UnknownSource | DisabledSource | MissingIdentity | IdentityConflict
    | InsertMissing | PreserveObservation | AdoptBody | PreserveSameBody | FillStub | PreserveContent

  datatype Verdict = Verdict(disposition: Disposition, key: Option<Key>, before: Option<Job>)

  datatype Item = Item(association: Association, status: Status)

  datatype Change = Change(id: Id, row: LiveRow, verdict: Verdict, items: seq<Item>, operational: Option<Job>)

  datatype Lens = Lens(digest: Content -> Sha, hash: string -> Sha, identity: (string, string) -> Key,
                       strip: string -> string, rich: Record -> bool, baseline: (Record, seq<nat>) -> Id,
                       weigh: Change -> nat)

  datatype Bounds = Bounds(jobs: nat, bytes: nat, metadata: nat)

  datatype Error = Interrupted | InvalidBounds | RecordTooLarge | MalformedRow | PreviewChanged
                 | BlobConflict | ArchiveConflict | KeyTaken

  type Outcome<+T> = Result<T, Error>

  function Text(s: Option<string>): string {
    if s.Some? then s.value else ""
  }

  /** How a nullable identity column reads as text. */
  function Shown(s: Option<string>): string {
    if s.Some? then s.value else "None"
  }

  predicate Blank(lens: Lens, s: Option<string>) {
    Text(s) == "" || lens.strip(Text(s)) == ""
  }

  predicate SameIdentity(a: Job, b: Job) {
    a.source == b.source && Shown(a.external) == Shown(b.external)
  }

  /** Two live rows with one non-null native identity, which reads like this row's. */
  predicate Duplicated(live: Live, job: Job) {
    exists i, j | 0 <= i < j < |live.rows| ::
      && live.rows[i].record.job.external.Some?
      && live.rows[i].record.job.source == live.rows[j].record.job.source
      && live.rows[i].record.job.external == live.rows[j].record.job.external
      && SameIdentity(live.rows[i].record.job, job)
  }

  function Matches(jobs: map<Key, Job>, job: Job): set<Key> {
    set k | k in jobs && jobs[k].source == job.source && jobs[k].external == job.external
  }

  lemma Alone(s: set<Key>, k: Key)
    requires |s| <= 1 && k in s
    ensures s == {k}
  {
    assert |s - {k}| == 0;
  }

  function Only(s: set<Key>): (k: Key)
    requires |s| == 1
    ensures s == {k}
  {
    assert s != {};
    assert forall a, b | a in s && b in s :: a == b by {
      forall a, b | a in s && b in s ensures a == b {
        Alone(s, a);
        Alone(s, b);
      }
    }
    var k :| k in s;
    Alone(s, k);
    k
  }

  datatype Lookup = Conflict | Absent | Found(key: Key)

  /** The worker's row for a live row with a native identity. */
  function Current(lens: Lens, jobs: map<Key, Job>, job: Job): (r: Lookup)
    ensures r.Found? ==> r.key in jobs && SameIdentity(jobs[r.key], job)
  {
    var target := lens.identity(job.source, Text(job.external));
    var matches := Matches(jobs, job);
    if |matches| > 1 || (target in jobs && !SameIdentity(jobs[target], job)) then Conflict
    else if target in jobs && matches != {} && target !in matches then Conflict
    else if target in jobs then Found(target)
    else if matches == {} then Absent
    else Found(Only(matches))
  }

  /** The worker's row carries the adopted body, and its marker and link agree. */
  predicate Bound(lens: Lens, links: map<Key, Link>, key: Key, job: Job)
    requires job.raw.Some?
  {
    && key in links && job.raw.value.marker == Some(links[key].baseline)
    && links[key].description == lens.hash(Text(job.description))
  }

  predicate IsStub(lens: Lens, job: Job) {
    Blank(lens, job.description) || lens.strip(Text(job.description)) == lens.strip(job.title)
  }

  const CONFLICT := Verdict(IdentityConflict, None, None)

  /** What to do about a row that the worker already has. */
  function Compare(lens: Lens, tables: Tables, record: Record, fill: bool, key: Key): (v: Verdict)
    requires key in tables.jobs
    ensures v == CONFLICT || (v.key == Some(key) && v.before == Some(tables.jobs[key]) && v.disposition != InsertMissing)
  {
    var before := tables.jobs[key];
    var found := (d: Disposition) => Verdict(d, Some(key), Some(before));
    if key in tables.observed then found(PreserveObservation)
    else if before.description == record.job.description then
      if Blank(lens, before.description) then found(PreserveSameBody)
      else if before.raw.None? then CONFLICT
      else if !Bound(lens, tables.links, key, before) then found(AdoptBody)
      else found(PreserveSameBody)
    else if record.job.raw.None? then CONFLICT
    else if fill && IsStub(lens, before) && before.urls * record.job.urls != {} && lens.rich(record) then found(FillStub)
    else found(PreserveContent)
  }

  /** What to do about a live row. */
  function Dispose(lens: Lens, live: Live, tables: Tables, record: Record, fill: bool): Verdict {
    if Duplicated(live, record.job) then CONFLICT
    else if record.job.source !in live.sources then Verdict(UnknownSource, None, None)
    else if !live.sources[record.job.source] then Verdict(DisabledSource, None, None)
    else if Blank(lens, record.job.external) then Verdict(MissingIdentity, None, None)
    else
      match Current(lens, tables.jobs, record.job)
      case Conflict => CONFLICT
      case Absent => Verdict(InsertMissing, Some(lens.identity(record.job.source, Text(record.job.external))), None)
      case Found(key) => Compare(lens, tables, record, fill, key)
  }

  predicate Writing(d: Disposition) {
    d == InsertMissing || d == FillStub || d == AdoptBody
  }

  /** The row a writing change stores: never with a certificate of its own. None when
      metadata it needs is malformed. */
  function Operational(record: Record, id: Id, v: Verdict): Option<Job> {
    if record.job.raw.None? || (v.before.Some? && v.before.value.raw.None?) then None
    else if v.before.None? then
      Some(record.job.(raw := Some(Raw(Some(id), false, record.job.raw.value.other)), listed := false, ready := false))
    else
      var before := v.before.value;
      Some(before.(description := record.job.description,
                   raw := Some(before.raw.value.(marker := Some(id))),
                   ready := before.ready && v.disposition == AdoptBody))
  }

  /** The change a row leads to, whatever becomes of its attachments. */
  predicate Describes(lens: Lens, live: Live, tables: Tables, fill: bool, row: LiveRow, c: Change) {
    && c.row == row && c.id == lens.baseline(row.record, row.aliases)
    && c.verdict == Dispose(lens, live, tables, row.record, fill)
    && (if Writing(c.verdict.disposition)
        then c.operational.Some? && c.operational == Operational(row.record, c.id, c.verdict)
        else c.operational == None)
    && |c.items| == |row.associations|
    && forall i | 0 <= i < |c.items| :: c.items[i].association == row.associations[i]
  }

  /** The row would be written, but metadata it needs is no object. */
  predicate Malformed(lens: Lens, live: Live, tables: Tables, fill: bool, row: LiveRow) {
    var v := Dispose(lens, live, tables, row.record, fill);
    Writing(v.disposition) && (row.record.job.raw.None? || (v.before.Some? && v.before.value.raw.None?))
  }

  /** Bytes of distinct blobs. */
  ghost function Size(blobs: map<Sha, Content>): nat
    decreases |blobs|
  {
    if blobs == map[] then 0
    else
      var k :| k in blobs;
      Size(blobs - {k}) + |blobs[k]|
  }

  lemma {:induction false} SizeFrom(blobs: map<Sha, Content>, k: Sha)
    requires k in blobs
    ensures Size(blobs) == Size(blobs - {k}) + |blobs[k]|
    decreases |blobs|
  {
    var first :| first in blobs && Size(blobs) == Size(blobs - {first}) + |blobs[first]|;
    if first != k {
      assert blobs - {first} - {k} == blobs - {k} - {first};
      SizeFrom(blobs - {first}, k);
      SizeFrom(blobs - {k}, first);
    }
  }

  lemma SizePut(blobs: map<Sha, Content>, k: Sha, content: Content)
    requires k !in blobs
    ensures Size(blobs[k := content]) == Size(blobs) + |content|
  {
    SizeFrom(blobs[k := content], k);
    assert blobs[k := content] - {k} == blobs;
  }

  /** The live database holds these bytes under their own hash, with their size. */
  predicate Genuine(lens: Lens, live: Live, sha: Sha, content: Content) {
    && sha in live.blobs && live.blobs[sha] == Blob(|content|, content) && lens.digest(content) == sha
  }

  predicate AllGenuine(lens: Lens, live: Live, blobs: map<Sha, Content>) {
    forall sha | sha in blobs :: Genuine(lens, live, sha, blobs[sha])
  }

  /** The status of an attachment, given the blobs of the batch and the bytes left:
      verified exactly when its bytes are among the blobs, and otherwise the reason. */
  predicate Judged(lens: Lens, live: Live, item: Item, blobs: map<Sha, Content>, left: int) {
    var a := item.association;
    if a.content.None? || a.content.value !in live.blobs then item.status == MissingReference
    else
      var blob := live.blobs[a.content.value];
      if |blob.content| != blob.size then item.status == SizeMismatch
      else
        && (item.status == Verified <==> a.content.value in blobs)
        && (item.status == Verified ==> lens.digest(blob.content) == a.content.value)
        && (item.status == ByteBudget ==> |blob.content| > left)
        && (item.status == HashMismatch ==> lens.digest(blob.content) != a.content.value)
        && item.status != MissingReference && item.status != SizeMismatch
  }

  predicate AllJudged(lens: Lens, live: Live, items: seq<Item>, blobs: map<Sha, Content>, left: int) {
    forall i | 0 <= i < |items| :: Judged(lens, live, items[i], blobs, left)
  }

  /** Verdicts stand when a genuine blob is added that fitted. */
  lemma StillJudged(lens: Lens, live: Live, items: seq<Item>, blobs: map<Sha, Content>, left: int, sha: Sha, content: Content)
    requires AllJudged(lens, live, items, blobs, left)
    requires Genuine(lens, live, sha, content) && |content| <= left
    ensures AllJudged(lens, live, items, blobs[sha := content], left - |content|)
  {
    forall i | 0 <= i < |items| ensures Judged(lens, live, items[i], blobs[sha := content], left - |content|) {
      assert Judged(lens, live, items[i], blobs, left);
    }
  }

  /** The attachments judged so far, the blobs of the batch and the bytes left. */
  datatype Judging = Judging(items: seq<Item>, all: map<Sha, Content>, left: nat)

  /** Judge one attachment; its bytes join the batch when they are new, fit and are
      what their hash says. */
  function JudgeNext(lens: Lens, live: Live, a: Association, j: Judging): Judging {
    var judged := (status: Status) => Judging(j.items + [Item(a, status)], j.all, j.left);
    if a.content.None? || a.content.value !in live.blobs then judged(MissingReference)
    else
      var sha, blob := a.content.value, live.blobs[a.content.value];
      if |blob.content| != blob.size then judged(SizeMismatch)
      else if sha in j.all then judged(Verified)
      else if |blob.content| > j.left then judged(ByteBudget)
      else if lens.digest(blob.content) != sha then judged(HashMismatch)
      else Judging(j.items + [Item(a, Verified)], j.all[sha := blob.content], j.left - |blob.content|)
  }

  function JudgeAll(lens: Lens, live: Live, associations: seq<Association>, all: map<Sha, Content>, left: nat): Judging {
    if associations == [] then Judging([], all, left)
    else
      var last := |associations| - 1;
      JudgeNext(lens, live, associations[last], JudgeAll(lens, live, associations[..last], all, left))
  }

  /** Judging an attachment gives its true status, charges new bytes once, and changes
      no verdict, neither of this row nor of earlier ones. */
  lemma JudgedTruly(lens: Lens, live: Live, a: Association, j: Judging, earlier: seq<Item>)
    requires AllGenuine(lens, live, j.all) && AllJudged(lens, live, j.items, j.all, j.left)
    requires AllJudged(lens, live, earlier, j.all, j.left)
    ensures var j' := JudgeNext(lens, live, a, j);
            && AllGenuine(lens, live, j'.all) && Size(j'.all) + j'.left == Size(j.all) + j.left
            && AllJudged(lens, live, j'.items, j'.all, j'.left) && AllJudged(lens, live, earlier, j'.all, j'.left)
            && |j'.items| == |j.items| + 1 && j'.items[|j.items|].association == a
            && j'.items[..|j.items|] == j.items
  {
    var j' := JudgeNext(lens, live, a, j);
    if j'.all != j.all {
      var sha := a.content.value;
      var content := live.blobs[sha].content;
      SizePut(j.all, sha, content);
      StillJudged(lens, live, j.items, j.all, j.left, sha, content);
      StillJudged(lens, live, earlier, j.all, j.left, sha, content);
    } else if a.content.Some? && a.content.value in j.all {
      assert Genuine(lens, live, a.content.value, j.all[a.content.value]);
    }
    var item := j'.items[|j.items|];
    assert Judged(lens, live, item, j'.all, j'.left);
    hide Judged, Genuine, Size;
    assert j'.items == j.items + [item];
  }

  lemma {:induction false} AllJudgedTruly(lens: Lens, live: Live, associations: seq<Association>, all: map<Sha, Content>, left: nat,
                                          earlier: seq<Item>)
    requires AllGenuine(lens, live, all) && AllJudged(lens, live, earlier, all, left)
    ensures var j := JudgeAll(lens, live, associations, all, left);
            && AllGenuine(lens, live, j.all) && Size(j.all) + j.left == Size(all) + left
            && AllJudged(lens, live, j.items, j.all, j.left) && AllJudged(lens, live, earlier, j.all, j.left)
            && |j.items| == |associations| && forall i | 0 <= i < |associations| :: j.items[i].association == associations[i]
  {
    hide Judged, Genuine, Size, JudgeNext;
    if associations != [] {
      var last := |associations| - 1;
      AllJudgedTruly(lens, live, associations[..last], all, left, earlier);
      var j := JudgeAll(lens, live, associations[..last], all, left);
      JudgedTruly(lens, live, associations[last], j, earlier);
      var j' := JudgeNext(lens, live, associations[last], j);
      forall i | 0 <= i < |associations| ensures j'.items[i].association == associations[i] {
        assert i < last ==> j'.items[..last][i] == j.items[i];
      }
    }
  }

  /** The attachments of one row: `known` are the blobs of the batch so far. */
  method Attachments(lens: Lens, live: Live, associations: seq<Association>, remaining: nat, known: map<Sha, Content>)
    returns (items: seq<Item>, blobs: map<Sha, Content>, left: nat)
    ensures blobs.Keys !! known.Keys
    ensures Judging(items, known + blobs, left) == JudgeAll(lens, live, associations, known, remaining)
  {
    items, blobs, left := [], map[], remaining;
    assert known + blobs == known;
    for n := 0 to |associations|
      invariant blobs.Keys !! known.Keys
      invariant Judging(items, known + blobs, left) == JudgeAll(lens, live, associations[..n], known, remaining)
    {
      assert associations[..n + 1][..n] == associations[..n];
      var a := associations[n];
      var status := MissingReference;
      if a.content.Some? && a.content.value in live.blobs {
        var sha, blob := a.content.value, live.blobs[a.content.value];
        if |blob.content| != blob.size {
          status := SizeMismatch;
        } else if sha in known || sha in blobs {
          status := Verified;
        } else if |blob.content| > left {
          status := ByteBudget;
        } else if lens.digest(blob.content) != sha {
          status := HashMismatch;
        } else {
          status := Verified;
          assert (known + blobs)[sha := blob.content] == known + blobs[sha := blob.content];
          blobs, left := blobs[sha := blob.content], left - |blob.content|;
        }
      }
      items := items + [Item(a, status)];
    }
    assert associations[..|associations|] == associations;
  }

  /** The live rows whose key comes after `after`, as the query returns them. */
  function After(rows: seq<LiveRow>, after: nat): seq<LiveRow> {
    if rows == [] then []
    else (if rows[0].record.key > after then [rows[0]] else []) + After(rows[1..], after)
  }

  predicate Sorted(rows: seq<LiveRow>) {
    forall i, j | 0 <= i < j < |rows| :: rows[i].record.key < rows[j].record.key
  }

  lemma {:induction false} AfterAll(rows: seq<LiveRow>, after: nat)
    requires forall i | 0 <= i < |rows| :: rows[i].record.key > after
    ensures After(rows, after) == rows
  {
    if rows != [] {
      AfterAll(rows[1..], after);
    }
  }

  lemma SortedTail(rows: seq<LiveRow>)
    requires Sorted(rows) && rows != []
    ensures Sorted(rows[1..])
    ensures forall i | 0 < i < |rows| :: rows[i].record.key > rows[0].record.key
  {
  }

  /** What the query returns is the rows from some place on. */
  lemma {:induction false} AfterFrom(rows: seq<LiveRow>, after: nat) returns (k: nat)
    requires Sorted(rows)
    ensures k <= |rows| && After(rows, after) == rows[k..]
    ensures forall i | 0 <= i < k :: rows[i].record.key <= after
    ensures forall i | k <= i < |rows| :: rows[i].record.key > after
  {
    hide Sorted;
    if rows == [] {
      return 0;
    }
    SortedTail(rows);
    if rows[0].record.key > after {
      AfterAll(rows, after);
      k := 0;
    } else {
      var rest := AfterFrom(rows[1..], after);
      k := rest + 1;
      assert rows[1..][rest..] == rows[k..];
      forall i | 0 <= i < |rows| ensures if i < k then rows[i].record.key <= after else rows[i].record.key > after {
        assert i > 0 ==> rows[i] == rows[1..][i - 1];
      }
    }
  }

  /** The query from a batch's last key returns exactly what the batch left. */
  lemma AfterContinues(rows: seq<LiveRow>, after: nat, n: nat)
    requires Sorted(rows) && 0 < n <= |After(rows, after)|
    ensures After(rows, After(rows, after)[n - 1].record.key) == After(rows, after)[n..]
  {
    hide After;
    var k := AfterFrom(rows, after);
    var next := After(rows, after)[n - 1].record.key;
    var k' := AfterFrom(rows, next);
    assert rows[k + n - 1].record.key == next;
    assert k + n < |rows| ==> rows[k + n].record.key > next;
    assert k' == k + n;
    assert rows[k..][n..] == rows[k + n..];
  }

  function Weight(lens: Lens, changes: seq<Change>): nat {
    if changes == [] then 0
    else Weight(lens, changes[..|changes| - 1]) + lens.weigh(changes[|changes| - 1])
  }

  datatype Batch = Batch(changes: seq<Change>, blobs: map<Sha, Content>, metadata: nat, more: bool)

  function Least(a: nat, b: nat): nat {
    if a <= b then a else b
  }

  /** The changes describe the first rows, in order. */
  predicate Covers(lens: Lens, live: Live, tables: Tables, fill: bool, rows: seq<LiveRow>, changes: seq<Change>) {
    |changes| <= |rows| && forall i | 0 <= i < |changes| :: Describes(lens, live, tables, fill, rows[i], changes[i])
  }

  /** The change of one row, with its judged attachments. */
  function ChangeOf(lens: Lens, live: Live, tables: Tables, fill: bool, row: LiveRow, items: seq<Item>): Change {
    var verdict := Dispose(lens, live, tables, row.record, fill);
    var id := lens.baseline(row.record, row.aliases);
    Change(id, row, verdict, items, if Writing(verdict.disposition) then Operational(row.record, id, verdict) else None)
  }

  /** The changes of the first rows, their blobs and the bytes left. */
  datatype Draft = Draft(changes: seq<Change>, all: map<Sha, Content>, left: nat)

  function Drafted(lens: Lens, live: Live, tables: Tables, fill: bool, rows: seq<LiveRow>, bytes: nat): (d: Draft)
    ensures |d.changes| == |rows|
  {
    if rows == [] then Draft([], map[], bytes)
    else
      var last := |rows| - 1;
      var d := Drafted(lens, live, tables, fill, rows[..last], bytes);
      var j := JudgeAll(lens, live, rows[last].associations, d.all, d.left);
      Draft(d.changes + [ChangeOf(lens, live, tables, fill, rows[last], j.items)], j.all, j.left)
  }

  /** The first m of the rows fit the metadata budget. */
  predicate Fits(lens: Lens, live: Live, tables: Tables, fill: bool, rest: seq<LiveRow>, bounds: Bounds, m: nat) {
    m <= |rest| && Weight(lens, Drafted(lens, live, tables, fill, rest[..m], bounds.bytes).changes) <= bounds.metadata
  }

  lemma {:induction false} FitsFewer(lens: Lens, live: Live, tables: Tables, fill: bool, rest: seq<LiveRow>, bounds: Bounds, m: nat, m': nat)
    requires m <= m' && Fits(lens, live, tables, fill, rest, bounds, m')
    ensures Fits(lens, live, tables, fill, rest, bounds, m)
    decreases m'
  {
    if m < m' {
      assert rest[..m'][..m' - 1] == rest[..m' - 1];
      DraftedOneMore(lens, live, tables, fill, rest, bounds.bytes, m' - 1);
      FitsFewer(lens, live, tables, fill, rest, bounds, m, m' - 1);
    }
  }

  lemma DraftedOneMore(lens: Lens, live: Live, tables: Tables, fill: bool, rest: seq<LiveRow>, bytes: nat, m: nat)
    requires m < |rest|
    ensures var d, d' := Drafted(lens, live, tables, fill, rest[..m], bytes), Drafted(lens, live, tables, fill, rest[..m + 1], bytes);
            var j := JudgeAll(lens, live, rest[m].associations, d.all, d.left);
            && d'.changes == d.changes + [ChangeOf(lens, live, tables, fill, rest[m], j.items)]
            && d'.all == j.all && d'.left == j.left
            && Weight(lens, d'.changes) == Weight(lens, d.changes) + lens.weigh(ChangeOf(lens, live, tables, fill, rest[m], j.items))
  {
    hide JudgeAll, ChangeOf;
    assert rest[..m + 1][..m] == rest[..m];
    var d' := Drafted(lens, live, tables, fill, rest[..m + 1], bytes);
    assert d'.changes[..m] == Drafted(lens, live, tables, fill, rest[..m], bytes).changes;
  }

  /** A batch: the changes of the next rows in key order, as many as the row and the
      metadata budget allow, at least one if there are any, none of them malformed. */
  predicate Prepared(lens: Lens, live: Live, tables: Tables, fill: bool, rest: seq<LiveRow>, bounds: Bounds, batch: Batch) {
    var n := |batch.changes|;
    && n <= Least(bounds.jobs, |rest|)
    && (var d := Drafted(lens, live, tables, fill, rest[..n], bounds.bytes);
        batch == Batch(d.changes, d.all, Weight(lens, d.changes), n < |rest|))
    && batch.metadata <= bounds.metadata
    && (forall i | 0 <= i < n :: !Malformed(lens, live, tables, fill, rest[i]))
    && (n < Least(bounds.jobs, |rest|) ==>
          n > 0 && !Malformed(lens, live, tables, fill, rest[n]) && !Fits(lens, live, tables, fill, rest, bounds, n + 1))
  }

  /** There is such a batch: the next row fits, and no row that the budgets let the
      batch come to is malformed. */
  predicate Preparable(lens: Lens, live: Live, tables: Tables, fill: bool, rest: seq<LiveRow>, bounds: Bounds) {
    && (rest == [] || Fits(lens, live, tables, fill, rest, bounds, 1))
    && forall m: nat | m < Least(bounds.jobs, |rest|) && Fits(lens, live, tables, fill, rest, bounds, m) ::
         !Malformed(lens, live, tables, fill, rest[m])
  }

  lemma PreparedIsPreparable(lens: Lens, live: Live, tables: Tables, fill: bool, rest: seq<LiveRow>, bounds: Bounds, batch: Batch)
    requires Prepared(lens, live, tables, fill, rest, bounds, batch) && bounds.jobs > 0
    ensures Preparable(lens, live, tables, fill, rest, bounds)
  {
    hide Malformed, Drafted, Weight;
    var n := |batch.changes|;
    if rest != [] {
      assert Fits(lens, live, tables, fill, rest, bounds, n);
      FitsFewer(lens, live, tables, fill, rest, bounds, 1, n);
    }
    hide Fits;
    forall m: nat | m < Least(bounds.jobs, |rest|) && Fits(lens, live, tables, fill, rest, bounds, m)
      ensures !Malformed(lens, live, tables, fill, rest[m])
    {
      if m > n {
        FitsFewer(lens, live, tables, fill, rest, bounds, n + 1, m);
      }
    }
  }

  /** What a batch may be relied on for: it describes the next rows, holds only genuine
      bytes within the byte budget, and its attachments are judged truly. */
  ghost predicate Honest(lens: Lens, live: Live, tables: Tables, fill: bool, rest: seq<LiveRow>, bounds: Bounds, batch: Batch) {
    && Covers(lens, live, tables, fill, rest, batch.changes)
    && AllGenuine(lens, live, batch.blobs) && Size(batch.blobs) <= bounds.bytes
    && forall i | 0 <= i < |batch.changes| ::
         AllJudged(lens, live, batch.changes[i].items, batch.blobs, bounds.bytes - Size(batch.blobs))
  }

  lemma {:induction false} DraftIsHonest(lens: Lens, live: Live, tables: Tables, fill: bool, rows: seq<LiveRow>, bytes: nat)
    requires forall i | 0 <= i < |rows| :: !Malformed(lens, live, tables, fill, rows[i])
    ensures var d := Drafted(lens, live, tables, fill, rows, bytes);
            && Covers(lens, live, tables, fill, rows, d.changes)
            && AllGenuine(lens, live, d.all) && Size(d.all) + d.left == bytes
            && forall i | 0 <= i < |rows| :: AllJudged(lens, live, d.changes[i].items, d.all, d.left)
  {
    hide Judged, AllJudged, AllGenuine, Size, JudgeAll, Dispose, Malformed, Covers;
    NoBlobs(lens, live);
    if rows == [] {
      CoversNone(lens, live, tables, fill, rows);
    } else {
      var last := |rows| - 1;
      var d := Drafted(lens, live, tables, fill, rows[..last], bytes);
      DraftIsHonest(lens, live, tables, fill, rows[..last], bytes);
      var j := JudgeAll(lens, live, rows[last].associations, d.all, d.left);
      NoItems(lens, live, d.all, d.left);
      AllJudgedTruly(lens, live, rows[last].associations, d.all, d.left, []);
      forall i | 0 <= i < last ensures AllJudged(lens, live, d.changes[i].items, j.all, j.left) {
        AllJudgedTruly(lens, live, rows[last].associations, d.all, d.left, d.changes[i].items);
      }
      ChangeDescribes(lens, live, tables, fill, rows[last], j.items);
      CoversOneMore(lens, live, tables, fill, rows, d.changes, ChangeOf(lens, live, tables, fill, rows[last], j.items));
    }
  }

  lemma NoBlobs(lens: Lens, live: Live)
    ensures AllGenuine(lens, live, map[]) && Size(map[]) == 0
  {
  }

  lemma NoItems(lens: Lens, live: Live, all: map<Sha, Content>, left: nat)
    ensures AllJudged(lens, live, [], all, left)
  {
  }

  lemma CoversNone(lens: Lens, live: Live, tables: Tables, fill: bool, rows: seq<LiveRow>)
    ensures Covers(lens, live, tables, fill, rows, [])
  {
  }

  lemma CoversOneMore(lens: Lens, live: Live, tables: Tables, fill: bool, rows: seq<LiveRow>, changes: seq<Change>, c: Change)
    requires |changes| == |rows| - 1 && Covers(lens, live, tables, fill, rows[..|rows| - 1], changes)
    requires Describes(lens, live, tables, fill, rows[|rows| - 1], c)
    ensures Covers(lens, live, tables, fill, rows, changes + [c])
  {
    hide Describes;
  }

  lemma ChangeDescribes(lens: Lens, live: Live, tables: Tables, fill: bool, row: LiveRow, items: seq<Item>)
    requires !Malformed(lens, live, tables, fill, row)
    requires |items| == |row.associations| && forall i | 0 <= i < |items| :: items[i].association == row.associations[i]
    ensures Describes(lens, live, tables, fill, row, ChangeOf(lens, live, tables, fill, row, items))
  {
    hide Dispose;
  }

  lemma PreparedIsHonest(lens: Lens, live: Live, tables: Tables, fill: bool, rest: seq<LiveRow>, bounds: Bounds, batch: Batch)
    requires Prepared(lens, live, tables, fill, rest, bounds, batch)
    ensures Honest(lens, live, tables, fill, rest, bounds, batch)
  {
    hide Malformed, Drafted, Weight, Describes, AllJudged, AllGenuine, Size, Fits;
    DraftIsHonest(lens, live, tables, fill, rest[..|batch.changes|], bounds.bytes);
  }

  /** One row: its verdict, its attachments, and the row to store if it writes. */
  method PrepareRow(lens: Lens, live: Live, tables: Tables, fill: bool, row: LiveRow, remaining: nat, known: map<Sha, Content>)
    returns (r: Outcome<Change>, blobs: map<Sha, Content>, left: nat)
    ensures r.Done? ==>
            var j := JudgeAll(lens, live, row.associations, known, remaining);
            && known + blobs == j.all && left == j.left && blobs.Keys !! known.Keys
            && r.value == ChangeOf(lens, live, tables, fill, row, j.items)
    ensures r == if Malformed(lens, live, tables, fill, row) then Raised(MalformedRow)
                 else Done(ChangeOf(lens, live, tables, fill, row, JudgeAll(lens, live, row.associations, known, remaining).items))
  {
    hide JudgeAll, Dispose;
    var verdict := Dispose(lens, live, tables, row.record, fill);
    var id := lens.baseline(row.record, row.aliases);
    var items;
    items, blobs, left := Attachments(lens, live, row.associations, remaining, known);
    var operational := None;
    if Writing(verdict.disposition) {
      operational := Operational(row.record, id, verdict);
      if operational.None? {
        return Raised(MalformedRow), blobs, left;
      }
    }
    r := Done(Change(id, row, verdict, items, operational));
  }

  /** Prepare the batch after a cursor. */
  method Prepare(lens: Lens, live: Live, tables: Tables, fill: bool, after: nat, bounds: Bounds, calm: bool)
    returns (r: Outcome<Batch>)
    requires Sorted(live.rows) && bounds.jobs > 0
    ensures r.Done? ==>
            && Prepared(lens, live, tables, fill, After(live.rows, after), bounds, r.value)
            && Honest(lens, live, tables, fill, After(live.rows, after), bounds, r.value)
    ensures calm ==> (r.Done? <==> Preparable(lens, live, tables, fill, After(live.rows, after), bounds))
    ensures r.Raised? ==> r.error == MalformedRow || (r.error == Interrupted && !calm) || r.error == RecordTooLarge
    ensures r.Raised? && r.error == RecordTooLarge ==>
            After(live.rows, after) != [] && !Fits(lens, live, tables, fill, After(live.rows, after), bounds, 1)
    ensures r.Raised? && r.error == MalformedRow ==>
            exists m: nat :: m < |After(live.rows, after)| && Malformed(lens, live, tables, fill, After(live.rows, after)[m])
                             && Fits(lens, live, tables, fill, After(live.rows, after), bounds, m)
  {
    hide JudgeAll, ChangeOf, Drafted, Weight, After, Malformed, Honest;
    var rest := After(live.rows, after);
    var rows := rest[..Least(bounds.jobs, |rest|)];
    var more := |rest| > bounds.jobs;
    var changes, all, remaining: nat, metadata: nat := [], map[], bounds.bytes, 0;
    NothingDrafted(lens, live, tables, fill, rest, bounds.bytes);
    for n := 0 to |rows|
      invariant |changes| == n && metadata <= bounds.metadata
      invariant Draft(changes, all, remaining) == Drafted(lens, live, tables, fill, rest[..n], bounds.bytes)
      invariant metadata == Weight(lens, changes)
      invariant forall i | 0 <= i < n :: !Malformed(lens, live, tables, fill, rest[i])
    {
      var luck: bool := *;
      if !calm && !luck {
        return Raised(Interrupted);
      }
      var change, blobs, left := PrepareRow(lens, live, tables, fill, rows[n], remaining, all);
      if change.Raised? {
        assert Fits(lens, live, tables, fill, rest, bounds, n) && Malformed(lens, live, tables, fill, rest[n]);
        return Raised(change.error);
      }
      DraftedOneMore(lens, live, tables, fill, rest, bounds.bytes, n);
      if metadata + lens.weigh(change.value) > bounds.metadata {
        assert !Fits(lens, live, tables, fill, rest, bounds, n + 1);
        if changes == [] {
          return Raised(RecordTooLarge);
        }
        r := Done(Batch(changes, all, metadata, true));
        PreparedIsHonest(lens, live, tables, fill, rest, bounds, r.value);
        PreparedIsPreparable(lens, live, tables, fill, rest, bounds, r.value);
        return;
      }
      metadata := metadata + lens.weigh(change.value);
      all, remaining := all + blobs, left;
      changes := changes + [change.value];
    }
    r := Done(Batch(changes, all, metadata, more));
    PreparedIsHonest(lens, live, tables, fill, rest, bounds, r.value);
    PreparedIsPreparable(lens, live, tables, fill, rest, bounds, r.value);
  }

  lemma NothingDrafted(lens: Lens, live: Live, tables: Tables, fill: bool, rest: seq<LiveRow>, bytes: nat)
    ensures Drafted(lens, live, tables, fill, rest[..0], bytes) == Draft([], map[], bytes) && Weight(lens, []) == 0
  {
  }

  /** The import starts after the empty key, so it visits every live row exactly when
      none has that key. */
  lemma EmptyKeyIsSkipped(rows: seq<LiveRow>)
    requires Sorted(rows)
    ensures After(rows, 0) == rows <==> forall i | 0 <= i < |rows| :: rows[i].record.key != 0
  {
    var k := AfterFrom(rows, 0);
    if k > 0 {
      assert |rows[k..]| < |rows| && rows[0].record.key == 0;
    }
  }
}
