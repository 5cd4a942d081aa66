/**
  Importing prepared batches into the worker in one transaction each, running a
  batch again, and following the cursor over the whole live inventory.
*/
module BaselineInventory {
  import opened Wrappers
  import opened BaselineBatch

  predicate Writes(c: Change) {
    c.operational.Some? && c.verdict.key.Some?
  }

  function LinkOf(lens: Lens, c: Change): Link
    requires Writes(c)
  {
    var job := c.row.record.job;
    Link(c.id, job.source, job.external, lens.hash(Text(job.description)), c.operational.value)
  }

  /** The rows and links one change stores. */
  function StoredBy(c: Change): map<Key, Job> {
    if Writes(c) then map[c.verdict.key.value := c.operational.value] else map[]
  }

  function LinkedBy(lens: Lens, c: Change): map<Key, Link> {
    if Writes(c) then map[c.verdict.key.value := LinkOf(lens, c)] else map[]
  }

  /** The rows and links a batch stores, by worker key. */
  function Stored(changes: seq<Change>): map<Key, Job> {
    if changes == [] then map[] else Stored(changes[..|changes| - 1]) + StoredBy(changes[|changes| - 1])
  }

  function Linked(lens: Lens, changes: seq<Change>): map<Key, Link> {
    if changes == [] then map[] else Linked(lens, changes[..|changes| - 1]) + LinkedBy(lens, changes[|changes| - 1])
  }

  function Written(changes: seq<Change>): nat {
    if changes == [] then 0
    else Written(changes[..|changes| - 1]) + (if Writes(changes[|changes| - 1]) then 1 else 0)
  }

  /** No two changes store a row under the same worker key. */
  predicate KeysDistinct(changes: seq<Change>) {
    forall i, j | 0 <= i < j < |changes| && Writes(changes[i]) && Writes(changes[j]) ::
      changes[i].verdict.key != changes[j].verdict.key
  }

  /** The change that stores a row under a key, if there is one. */
  ghost predicate Writer(changes: seq<Change>, i: int, key: Key) {
    0 <= i < |changes| && Writes(changes[i]) && changes[i].verdict.key == Some(key)
  }

  lemma {:induction false} StoredAt(lens: Lens, changes: seq<Change>, i: nat, key: Key)
    requires KeysDistinct(changes) && Writer(changes, i, key)
    ensures key in Stored(changes) && Stored(changes)[key] == changes[i].operational.value
    ensures key in Linked(lens, changes) && Linked(lens, changes)[key] == LinkOf(lens, changes[i])
  {
    var n := |changes| - 1;
    if i < n {
      assert changes[..n][i] == changes[i];
      StoredAt(lens, changes[..n], i, key);
      assert StoredBy(changes[n]).Keys !! {key} && LinkedBy(lens, changes[n]).Keys !! {key};
    }
  }

  lemma {:induction false} StoredFrom(lens: Lens, changes: seq<Change>, key: Key)
    requires forall i :: !Writer(changes, i, key)
    ensures key !in Stored(changes) && key !in Linked(lens, changes)
  {
    if changes != [] {
      var n := |changes| - 1;
      forall i ensures !Writer(changes[..n], i, key) {
        assert !Writer(changes, i, key);
      }
      StoredFrom(lens, changes[..n], key);
      assert !Writer(changes, n, key);
    }
  }

  /** Archived bytes are stored under their own hash and size, archived rows under
      their own identity, and every attachment recorded as verified has its bytes
      archived. */
  ghost predicate Sound(lens: Lens, t: Tables) {
    && (forall id | id in t.archive :: id == lens.baseline(t.archive[id].record, t.archive[id].aliases))
    && (forall sha | sha in t.blobs :: t.blobs[sha].size == |t.blobs[sha].content| && lens.digest(t.blobs[sha].content) == sha)
    && (forall a | a in t.attachments && t.attachments[a] == Verified :: a.1.content.Some? && a.1.content.value in t.blobs)
  }

  function IdOf(lens: Lens, row: LiveRow): Id {
    lens.baseline(row.record, row.aliases)
  }

  /** No identity or hash of the live data stands for two things: neither within the
      live rows nor between them and what the worker has archived. */
  ghost predicate Clear(lens: Lens, live: Live, t: Tables) {
    && (forall a | a in live.rows && IdOf(lens, a) in t.archive :: t.archive[IdOf(lens, a)] == Archived(a.record, a.aliases))
    && (forall a, b | a in live.rows && b in live.rows && IdOf(lens, a) == IdOf(lens, b) :: a.record == b.record && a.aliases == b.aliases)
    && (forall sha | sha in t.blobs && sha in live.blobs && lens.digest(live.blobs[sha].content) == sha ::
          t.blobs[sha].size == |live.blobs[sha].content|)
  }

  /** Hashes that are injective are clear. */
  ghost predicate Injective(lens: Lens) {
    && (forall a, b | lens.digest(a) == lens.digest(b) :: a == b)
    && (forall r, s, r', s' | lens.baseline(r, s) == lens.baseline(r', s') :: r == r' && s == s')
  }

  lemma InjectiveIsClear(lens: Lens, live: Live, t: Tables)
    requires Injective(lens) && Sound(lens, t)
    ensures Clear(lens, live, t)
  {
    forall a | a in live.rows && IdOf(lens, a) in t.archive ensures t.archive[IdOf(lens, a)] == Archived(a.record, a.aliases) {
      var archived := t.archive[IdOf(lens, a)];
      assert lens.baseline(archived.record, archived.aliases) == lens.baseline(a.record, a.aliases);
    }
  }

  lemma ClearWithRow(lens: Lens, live: Live, t: Tables, row: LiveRow)
    requires Clear(lens, live, t) && row in live.rows
    ensures IdOf(lens, row) in t.archive ==> t.archive[IdOf(lens, row)] == Archived(row.record, row.aliases)
    ensures Clear(lens, live, t.(archive := t.archive[IdOf(lens, row) := Archived(row.record, row.aliases)]))
  {
  }

  lemma ClearWithBlob(lens: Lens, live: Live, t: Tables, t': Tables, sha: Sha, content: Content)
    requires Genuine(lens, live, sha, content) && t' == t.(blobs := t.blobs[sha := Blob(|content|, content)])
    ensures Clear(lens, live, t) ==> Clear(lens, live, t')
  {
  }

  /** Clearness is about the archive and the blobs. */
  lemma ClearSame(lens: Lens, live: Live, t: Tables, t': Tables)
    requires t'.archive == t.archive && t'.blobs == t.blobs
    ensures Clear(lens, live, t) <==> Clear(lens, live, t')
  {
  }

  /** What was archived stays archived, and what was verified stays verified. */
  ghost predicate Keeps(t: Tables, t': Tables) {
    && (forall id | id in t.archive :: id in t'.archive && t'.archive[id] == t.archive[id])
    && (forall sha | sha in t.blobs :: sha in t'.blobs && t'.blobs[sha] == t.blobs[sha])
    && (forall a | a in t.attachments :: a in t'.attachments && (t.attachments[a] == Verified ==> t'.attachments[a] == Verified))
    && t.images <= t'.images && t'.observed == t.observed
  }

  /** What a batch records of one change. */
  ghost predicate Recorded(t: Tables, c: Change) {
    && c.id in t.archive && t.archive[c.id] == Archived(c.row.record, c.row.aliases)
    && (forall i | 0 <= i < |c.items| ::
          && (c.id, c.items[i].association) in t.attachments
          && (c.items[i].status == Verified ==> t.attachments[(c.id, c.items[i].association)] == Verified))
    && (Writes(c) && c.verdict.before.Some? ==> (c.verdict.key.value, c.verdict.before.value) in t.images)
  }

  lemma KeepsOn(t: Tables, t': Tables, t'': Tables)
    requires Keeps(t, t') && Keeps(t', t'')
    ensures Keeps(t, t'')
  {
  }

  lemma RecordedOn(t: Tables, t': Tables, changes: seq<Change>)
    requires Keeps(t, t') && forall i | 0 <= i < |changes| :: Recorded(t, changes[i])
    ensures forall i | 0 <= i < |changes| :: Recorded(t', changes[i])
  {
    forall i | 0 <= i < |changes| ensures Recorded(t', changes[i]) {
      assert Recorded(t, changes[i]);
    }
  }

  /** Every verified attachment's bytes are among the blobs. */
  predicate Backed(items: seq<Item>, blobs: map<Sha, Blob>) {
    forall i | 0 <= i < |items| && items[i].status == Verified ::
      items[i].association.content.Some? && items[i].association.content.value in blobs
  }

  method ImportBlobs(lens: Lens, ghost live: Live, t: Tables, blobs: map<Sha, Content>) returns (r: Outcome<Tables>)
    requires Sound(lens, t) && AllGenuine(lens, live, blobs)
    ensures r.Done? ==> Sound(lens, r.value) && Keeps(t, r.value) && blobs.Keys <= r.value.blobs.Keys
    ensures r.Done? ==> r.value == t.(blobs := r.value.blobs) && (Clear(lens, live, t) ==> Clear(lens, live, r.value))
    ensures r.Raised? ==> r.error == BlobConflict && !Clear(lens, live, t)
  {
    hide Sound, Keeps, Clear, AllGenuine, Genuine;
    NothingYet(t);
    var t' := t;
    var todo := blobs.Keys;
    while todo != {}
      invariant todo <= blobs.Keys && Sound(lens, t') && Keeps(t, t') && t' == t.(blobs := t'.blobs)
      invariant blobs.Keys - todo <= t'.blobs.Keys && (Clear(lens, live, t) ==> Clear(lens, live, t'))
      decreases |todo|
    {
      var sha :| sha in todo;
      if sha in t'.blobs {
        if t'.blobs[sha].size != |blobs[sha]| || lens.digest(t'.blobs[sha].content) != sha {
          BlobCollides(lens, live, t', blobs, sha);
          return Raised(BlobConflict);
        }
      } else {
        ghost var before := t';
        t' := t'.(blobs := t'.blobs[sha := Blob(|blobs[sha]|, blobs[sha])]);
        BlobAdded(lens, live, before, t', blobs, sha);
        KeepsOn(t, before, t');
      }
      todo := todo - {sha};
    }
    r := Done(t');
  }

  lemma BlobCollides(lens: Lens, live: Live, t: Tables, blobs: map<Sha, Content>, sha: Sha)
    requires Sound(lens, t) && AllGenuine(lens, live, blobs) && sha in blobs && sha in t.blobs
    requires t.blobs[sha].size != |blobs[sha]| || lens.digest(t.blobs[sha].content) != sha
    ensures !Clear(lens, live, t)
  {
    assert Genuine(lens, live, sha, blobs[sha]);
  }

  lemma BlobAdded(lens: Lens, live: Live, t: Tables, t': Tables, blobs: map<Sha, Content>, sha: Sha)
    requires Sound(lens, t) && AllGenuine(lens, live, blobs) && sha in blobs
    requires sha !in t.blobs && t' == t.(blobs := t.blobs[sha := Blob(|blobs[sha]|, blobs[sha])])
    ensures Sound(lens, t') && Keeps(t, t') && (Clear(lens, live, t) ==> Clear(lens, live, t'))
  {
    assert Genuine(lens, live, sha, blobs[sha]);
    ClearWithBlob(lens, live, t, t', sha, blobs[sha]);
    hide Clear;
  }

  method ImportItems(lens: Lens, t: Tables, c: Change) returns (t': Tables)
    requires Sound(lens, t) && Backed(c.items, t.blobs)
    ensures t' == t.(attachments := t'.attachments) && Sound(lens, t') && Keeps(t, t')
    ensures forall i | 0 <= i < |c.items| ::
              && (c.id, c.items[i].association) in t'.attachments
              && (c.items[i].status == Verified ==> t'.attachments[(c.id, c.items[i].association)] == Verified)
  {
    t' := t;
    for i := 0 to |c.items|
      invariant t' == t.(attachments := t'.attachments) && Sound(lens, t') && Keeps(t, t')
      invariant forall k | 0 <= k < i ::
                  && (c.id, c.items[k].association) in t'.attachments
                  && (c.items[k].status == Verified ==> t'.attachments[(c.id, c.items[k].association)] == Verified)
    {
      var at, status := (c.id, c.items[i].association), c.items[i].status;
      if at !in t'.attachments || status == Verified {
        t' := t'.(attachments := t'.attachments[at := status]);
      }
    }
  }

  /** Store the worker row of a writing change, keep its before image and link it to
      the archive. */
  method ImportRow(lens: Lens, t: Tables, c: Change) returns (r: Outcome<Tables>)
    requires Sound(lens, t)
    ensures r.Done? ==>
            && r.value == t.(jobs := t.jobs + StoredBy(c), links := t.links + LinkedBy(lens, c), images := r.value.images)
            && t.images <= r.value.images
            && (Writes(c) && c.verdict.before.Some? ==> (c.verdict.key.value, c.verdict.before.value) in r.value.images)
            && (Writes(c) && c.verdict.before.None? ==> c.verdict.key.value !in t.jobs)
    ensures r.Raised? ==> r.error == KeyTaken && Writes(c) && c.verdict.before.None? && c.verdict.key.value in t.jobs
  {
    if !Writes(c) {
      assert t.jobs + map[] == t.jobs && t.links + map[] == t.links;
      return Done(t);
    }
    var key := c.verdict.key.value;
    var images := t.images;
    if c.verdict.before.Some? {
      images := images + {(key, c.verdict.before.value)};
    } else if key in t.jobs {
      return Raised(KeyTaken);
    }
    assert t.jobs[key := c.operational.value] == t.jobs + StoredBy(c);
    assert t.links[key := LinkOf(lens, c)] == t.links + LinkedBy(lens, c);
    r := Done(t.(jobs := t.jobs[key := c.operational.value], links := t.links[key := LinkOf(lens, c)], images := images));
  }

  /** Archive one live row, unless it is. */
  method ImportArchived(lens: Lens, ghost live: Live, t: Tables, c: Change) returns (r: Outcome<Tables>)
    requires Sound(lens, t) && c.id == IdOf(lens, c.row) && c.row in live.rows
    ensures r.Done? ==>
            && Sound(lens, r.value) && Keeps(t, r.value) && (Clear(lens, live, t) ==> Clear(lens, live, r.value))
            && r.value == t.(archive := r.value.archive)
            && c.id in r.value.archive && r.value.archive[c.id] == Archived(c.row.record, c.row.aliases)
    ensures r.Raised? ==> r.error == ArchiveConflict && !Clear(lens, live, t)
  {
    hide Clear;
    var archived := Archived(c.row.record, c.row.aliases);
    if Clear(lens, live, t) {
      ClearWithRow(lens, live, t, c.row);
    }
    if c.id !in t.archive {
      r := Done(t.(archive := t.archive[c.id := archived]));
    } else if t.archive[c.id] == archived {
      r := Done(t);
    } else {
      r := Raised(ArchiveConflict);
    }
  }

  /** Archive one live row, store its worker row and record its attachments. */
  method ImportChange(lens: Lens, ghost live: Live, t: Tables, c: Change) returns (r: Outcome<Tables>)
    requires Sound(lens, t) && Backed(c.items, t.blobs) && c.id == IdOf(lens, c.row) && c.row in live.rows
    ensures r.Done? ==>
            && Sound(lens, r.value) && Keeps(t, r.value) && Recorded(r.value, c) && r.value.blobs == t.blobs
            && r.value.jobs == t.jobs + StoredBy(c) && r.value.links == t.links + LinkedBy(lens, c)
            && (Writes(c) && c.verdict.before.None? ==> c.verdict.key.value !in t.jobs)
            && (Clear(lens, live, t) ==> Clear(lens, live, r.value))
    ensures r.Raised? ==>
            || (r.error == ArchiveConflict && !Clear(lens, live, t))
            || (r.error == KeyTaken && Writes(c) && c.verdict.before.None? && c.verdict.key.value in t.jobs)
  {
    hide Writes, StoredBy, LinkedBy, Clear;
    var archived := ImportArchived(lens, live, t, c);
    if archived.Raised? {
      return archived;
    }
    var row := ImportRow(lens, archived.value, c);
    if row.Raised? {
      return row;
    }
    RowKeeps(lens, archived.value, row.value);
    var items := ImportItems(lens, row.value, c);
    ClearSame(lens, live, archived.value, items);
    hide Sound, Recorded, Backed, Keeps;
    KeepsOn(t, archived.value, row.value);
    KeepsOn(t, row.value, items);
    IsRecorded(archived.value, row.value, items, c);
    r := Done(items);
  }

  lemma RowKeeps(lens: Lens, t: Tables, t': Tables)
    requires Sound(lens, t) && t' == t.(jobs := t'.jobs, links := t'.links, images := t'.images) && t.images <= t'.images
    ensures Sound(lens, t') && Keeps(t, t')
  {
  }

  lemma IsRecorded(t1: Tables, t2: Tables, t3: Tables, c: Change)
    requires t2.archive == t1.archive && t3.archive == t2.archive && t3.images == t2.images
    requires c.id in t1.archive && t1.archive[c.id] == Archived(c.row.record, c.row.aliases)
    requires Writes(c) && c.verdict.before.Some? ==> (c.verdict.key.value, c.verdict.before.value) in t2.images
    requires forall i | 0 <= i < |c.items| ::
               && (c.id, c.items[i].association) in t3.attachments
               && (c.items[i].status == Verified ==> t3.attachments[(c.id, c.items[i].association)] == Verified)
    ensures Recorded(t3, c)
  {
  }

  /** Two live rows that both write have different native identities. */
  lemma Rivals(lens: Lens, live: Live, t: Tables, fill: bool, a: LiveRow, b: LiveRow)
    requires a in live.rows && b in live.rows && a != b
    requires !Duplicated(live, a.record.job)
    requires !Blank(lens, a.record.job.external) && !Blank(lens, b.record.job.external)
    ensures !SameIdentity(a.record.job, b.record.job)
  {
    var i :| 0 <= i < |live.rows| && live.rows[i] == a;
    var j :| 0 <= j < |live.rows| && live.rows[j] == b;
    var x, y := if i < j then i else j, if i < j then j else i;
    if SameIdentity(a.record.job, b.record.job) {
      assert SameIdentity(live.rows[x].record.job, a.record.job);
    }
  }

  /** What a writing change knows about its row. */
  lemma WritingMeans(lens: Lens, live: Live, t: Tables, fill: bool, c: Change)
    requires Describes(lens, live, t, fill, c.row, c)
    ensures Writes(c) <==> Writing(c.verdict.disposition)
    ensures Writes(c) ==>
            && !Duplicated(live, c.row.record.job) && !Blank(lens, c.row.record.job.external)
            && (c.verdict.before.None? ==> c.verdict.key.value !in t.jobs
                                           && c.verdict.key.value == lens.identity(c.row.record.job.source, Text(c.row.record.job.external)))
            && (c.verdict.before.Some? ==> c.verdict.key.value in t.jobs && c.verdict.before.value == t.jobs[c.verdict.key.value]
                                           && SameIdentity(c.verdict.before.value, c.row.record.job))
  {
  }

  /** The rows covered are rows of the live table, each once. */
  ghost predicate FromLive(live: Live, rows: seq<LiveRow>) {
    && (forall row | row in rows :: row in live.rows)
    && (forall i, j | 0 <= i < j < |rows| :: rows[i] != rows[j])
  }

  /** An update meets no earlier write of the batch under its key. */
  lemma UpdateIsAlone(lens: Lens, live: Live, t: Tables, fill: bool, rows: seq<LiveRow>, changes: seq<Change>, i: nat, j: nat)
    requires FromLive(live, rows) && Covers(lens, live, t, fill, rows, changes) && i < j < |changes|
    requires Writes(changes[i]) && Writes(changes[j]) && changes[j].verdict.before.Some?
    ensures changes[i].verdict.key != changes[j].verdict.key
  {
    hide Describes, Duplicated, Blank;
    var a, b := changes[i], changes[j];
    assert Describes(lens, live, t, fill, rows[i], a) && Describes(lens, live, t, fill, rows[j], b);
    RowOf(lens, live, t, fill, rows[i], a);
    RowOf(lens, live, t, fill, rows[j], b);
    WritingMeans(lens, live, t, fill, a);
    WritingMeans(lens, live, t, fill, b);
    Rivals(lens, live, t, fill, a.row, b.row);
  }

  lemma RowOf(lens: Lens, live: Live, t: Tables, fill: bool, row: LiveRow, c: Change)
    requires Describes(lens, live, t, fill, row, c)
    ensures c.row == row
  {
  }

  /** The keys stay distinct with one more change: an insert finds its key free, and
      an update is alone. */
  lemma KeysExtend(lens: Lens, live: Live, t: Tables, fill: bool, rows: seq<LiveRow>, changes: seq<Change>, n: nat, jobs: map<Key, Job>)
    requires FromLive(live, rows) && Covers(lens, live, t, fill, rows, changes) && n < |changes|
    requires KeysDistinct(changes[..n]) && jobs == t.jobs + Stored(changes[..n])
    requires Writes(changes[n]) && changes[n].verdict.before.None? ==> changes[n].verdict.key.value !in jobs
    ensures KeysDistinct(changes[..n + 1])
  {
    hide Covers, FromLive, Stored, Linked, Writes;
    var c := changes[n];
    forall i | 0 <= i < n && Writes(changes[i]) && Writes(c)
      ensures changes[i].verdict.key != c.verdict.key
    {
      if c.verdict.before.Some? {
        UpdateIsAlone(lens, live, t, fill, rows, changes, i, n);
      } else {
        KeyOf(changes[i]);
        KeyOf(c);
        assert changes[..n][i] == changes[i];
        StoredAt(lens, changes[..n], i, changes[i].verdict.key.value);
      }
    }
  }

  lemma KeyOf(c: Change)
    requires Writes(c)
    ensures c.verdict.key.Some?
  {
  }

  lemma StoredNext(lens: Lens, t: Tables, t': Tables, t'': Tables, changes: seq<Change>, n: nat)
    requires n < |changes|
    requires t'.jobs == t.jobs + Stored(changes[..n]) && t'.links == t.links + Linked(lens, changes[..n])
    requires t''.jobs == t'.jobs + StoredBy(changes[n]) && t''.links == t'.links + LinkedBy(lens, changes[n])
    ensures t''.jobs == t.jobs + Stored(changes[..n + 1]) && t''.links == t.links + Linked(lens, changes[..n + 1])
  {
    hide StoredBy, LinkedBy;
    assert changes[..n + 1][..n] == changes[..n];
    MergeOn(t.jobs, Stored(changes[..n]), StoredBy(changes[n]));
    MergeOn(t.links, Linked(lens, changes[..n]), LinkedBy(lens, changes[n]));
  }

  lemma MergeOn<V>(a: map<Key, V>, b: map<Key, V>, c: map<Key, V>)
    ensures a + b + c == a + (b + c)
  {
  }

  lemma RowCovered(lens: Lens, live: Live, t: Tables, fill: bool, rows: seq<LiveRow>, changes: seq<Change>, n: nat)
    requires FromLive(live, rows) && Covers(lens, live, t, fill, rows, changes) && n < |changes|
    ensures changes[n].row in live.rows && changes[n].id == IdOf(lens, changes[n].row)
    ensures Describes(lens, live, t, fill, changes[n].row, changes[n])
  {
    assert Describes(lens, live, t, fill, rows[n], changes[n]);
  }

  /** A key that an insert finds taken was taken by the same batch. */
  lemma KeyClashes(lens: Lens, live: Live, t: Tables, fill: bool, rows: seq<LiveRow>, changes: seq<Change>, n: nat, jobs: map<Key, Job>)
    requires FromLive(live, rows) && Covers(lens, live, t, fill, rows, changes) && n < |changes|
    requires jobs == t.jobs + Stored(changes[..n])
    requires Writes(changes[n]) && changes[n].verdict.before.None? && changes[n].verdict.key.value in jobs
    ensures !KeysDistinct(changes)
  {
    RowCovered(lens, live, t, fill, rows, changes, n);
    WritingMeans(lens, live, t, fill, changes[n]);
    hide Covers, FromLive, Stored, Linked, Describes;
    var key := changes[n].verdict.key.value;
    if i :| Writer(changes[..n], i, key) {
      assert changes[..n][i] == changes[i];
    } else {
      StoredFrom(lens, changes[..n], key);
    }
  }

  method ImportChanges(lens: Lens, ghost live: Live, t: Tables, ghost fill: bool, ghost rows: seq<LiveRow>, changes: seq<Change>, calm: bool)
    returns (r: Outcome<Tables>)
    requires Sound(lens, t) && FromLive(live, rows) && Covers(lens, live, t, fill, rows, changes)
    requires forall i | 0 <= i < |changes| :: Backed(changes[i].items, t.blobs)
    ensures r.Done? ==>
            && Sound(lens, r.value) && Keeps(t, r.value) && KeysDistinct(changes)
            && r.value.jobs == t.jobs + Stored(changes) && r.value.links == t.links + Linked(lens, changes)
            && (forall i | 0 <= i < |changes| :: Recorded(r.value, changes[i]))
            && (Clear(lens, live, t) ==> Clear(lens, live, r.value))
    ensures r.Raised? ==>
            || (r.error == ArchiveConflict && !Clear(lens, live, t))
            || (r.error == KeyTaken && !KeysDistinct(changes))
            || (r.error == Interrupted && !calm)
  {
    hide Covers, FromLive, Sound, Keeps, KeysDistinct, Writes, Backed, Clear, ImportedTo;
    var t' := t;
    ImportedNone(lens, live, t, changes);
    for n := 0 to |changes|
      invariant Sound(lens, t') && t'.blobs == t.blobs && ImportedTo(lens, live, t, t', changes, n)
    {
      var luck: bool := *;
      if !calm && !luck {
        return Raised(Interrupted);
      }
      RowCovered(lens, live, t, fill, rows, changes, n);
      var next := ImportChange(lens, live, t', changes[n]);
      ImportedMeans(lens, live, t, t', changes, n);
      if next.Raised? {
        if next.error == KeyTaken {
          KeyClashes(lens, live, t, fill, rows, changes, n, t'.jobs);
        }
        return next;
      }
      KeysExtend(lens, live, t, fill, rows, changes, n, t'.jobs);
      ImportedOneMore(lens, live, t, t', next.value, changes, n);
      t' := next.value;
    }
    ImportedMeans(lens, live, t, t', changes, |changes|);
    assert changes[..|changes|] == changes;
    r := Done(t');
  }

  /** The first n changes are imported. */
  ghost predicate ImportedTo(lens: Lens, live: Live, t: Tables, t': Tables, changes: seq<Change>, n: nat) {
    && n <= |changes| && Keeps(t, t') && KeysDistinct(changes[..n])
    && t'.jobs == t.jobs + Stored(changes[..n]) && t'.links == t.links + Linked(lens, changes[..n])
    && (forall i | 0 <= i < n :: Recorded(t', changes[i]))
    && (Clear(lens, live, t) ==> Clear(lens, live, t'))
  }

  lemma ImportedNone(lens: Lens, live: Live, t: Tables, changes: seq<Change>)
    ensures ImportedTo(lens, live, t, t, changes, 0)
  {
    hide Keeps, Recorded, Clear, Writes;
    NothingYet(t);
    assert changes[..0] == [];
    assert t.jobs + map[] == t.jobs && t.links + map[] == t.links;
  }

  lemma ImportedMeans(lens: Lens, live: Live, t: Tables, t': Tables, changes: seq<Change>, n: nat)
    requires ImportedTo(lens, live, t, t', changes, n)
    ensures n <= |changes| && Keeps(t, t') && KeysDistinct(changes[..n]) && (Clear(lens, live, t) ==> Clear(lens, live, t'))
    ensures t'.jobs == t.jobs + Stored(changes[..n]) && t'.links == t.links + Linked(lens, changes[..n])
    ensures forall i | 0 <= i < n :: Recorded(t', changes[i])
  {
    hide Keeps, Recorded, Clear, Writes, KeysDistinct, Stored, Linked;
  }

  lemma ImportedOneMore(lens: Lens, live: Live, t: Tables, t': Tables, t'': Tables, changes: seq<Change>, n: nat)
    requires n < |changes| && ImportedTo(lens, live, t, t', changes, n)
    requires Keeps(t', t'') && Recorded(t'', changes[n]) && KeysDistinct(changes[..n + 1])
    requires t''.jobs == t'.jobs + StoredBy(changes[n]) && t''.links == t'.links + LinkedBy(lens, changes[n])
    requires Clear(lens, live, t') ==> Clear(lens, live, t'')
    ensures ImportedTo(lens, live, t, t'', changes, n + 1)
  {
    hide Keeps, Recorded, Clear, Writes, KeysDistinct, Stored, Linked, StoredBy, LinkedBy;
    RecordedOn(t', t'', changes[..n]);
    KeepsOn(t, t', t'');
    StoredNext(lens, t, t', t'', changes, n);
    assert forall i | 0 <= i < n :: changes[..n][i] == changes[i];
  }

  lemma NothingYet(t: Tables)
    ensures Keeps(t, t) && KeysDistinct([])
  {
  }

  /** `t'` is what importing the changes made of `t`. */
  ghost predicate Imported(lens: Lens, live: Live, t: Tables, t': Tables, fill: bool, rows: seq<LiveRow>, changes: seq<Change>) {
    && FromLive(live, rows) && Covers(lens, live, t, fill, rows, changes) && KeysDistinct(changes)
    && t'.jobs == t.jobs + Stored(changes) && t'.links == t.links + Linked(lens, changes) && t'.observed == t.observed
  }

  /** What a worker key holds afterwards. */
  lemma KeyAfter(lens: Lens, live: Live, t: Tables, t': Tables, fill: bool, rows: seq<LiveRow>, changes: seq<Change>, key: Key)
    returns (i: int)
    requires Imported(lens, live, t, t', fill, rows, changes)
    ensures i >= 0 ==> i < |changes| && Writes(changes[i]) && changes[i].verdict.key == Some(key)
    ensures i >= 0 ==> key in t'.jobs && t'.jobs[key] == changes[i].operational.value
                       && key in t'.links && t'.links[key] == LinkOf(lens, changes[i])
    ensures i < 0 ==> (key in t'.jobs <==> key in t.jobs) && (key in t.jobs ==> t'.jobs[key] == t.jobs[key])
    ensures i < 0 ==> (key in t'.links <==> key in t.links) && (key in t.links ==> t'.links[key] == t.links[key])
    ensures i < 0 ==> forall k | 0 <= k < |changes| && Writes(changes[k]) :: changes[k].verdict.key != Some(key)
    ensures t'.observed == t.observed
  {
    hide Covers, FromLive, KeysDistinct, Stored, Linked, Writes;
    if k :| Writer(changes, k, key) {
      StoredAt(lens, changes, k, key);
      i := k;
    } else {
      StoredFrom(lens, changes, key);
      forall k | 0 <= k < |changes| && Writes(changes[k]) ensures changes[k].verdict.key != Some(key) {
        assert !Writer(changes, k, key);
      }
      i := -1;
    }
  }

  /** Importing never changes the native identity of a worker row. */
  lemma IdentityStays(lens: Lens, live: Live, t: Tables, t': Tables, fill: bool, rows: seq<LiveRow>, changes: seq<Change>, key: Key)
    requires Imported(lens, live, t, t', fill, rows, changes) && key in t.jobs
    ensures key in t'.jobs && t'.jobs[key].source == t.jobs[key].source && t'.jobs[key].external == t.jobs[key].external
  {
    hide Imported, Dispose, Duplicated, Blank;
    var i := KeyAfter(lens, live, t, t', fill, rows, changes, key);
    if i >= 0 {
      ChangeAt(lens, live, t, t', fill, rows, changes, i);
      WritingMeans(lens, live, t, fill, changes[i]);
    }
  }

  /** A worker row that was not there before has the identity of its live row. */
  lemma NewRowFrom(lens: Lens, live: Live, t: Tables, t': Tables, fill: bool, rows: seq<LiveRow>, changes: seq<Change>, key: Key)
    returns (i: nat)
    requires Imported(lens, live, t, t', fill, rows, changes) && key in t'.jobs && key !in t.jobs
    ensures i < |changes| && Writes(changes[i]) && changes[i].verdict.key == Some(key)
    ensures t'.jobs[key].source == rows[i].record.job.source && t'.jobs[key].external == rows[i].record.job.external
  {
    hide Imported, Dispose, Duplicated, Blank;
    var k := KeyAfter(lens, live, t, t', fill, rows, changes, key);
    ChangeAt(lens, live, t, t', fill, rows, changes, k);
    WritingMeans(lens, live, t, fill, changes[k]);
    i := k;
  }

  lemma ChangeAt(lens: Lens, live: Live, t: Tables, t': Tables, fill: bool, rows: seq<LiveRow>, changes: seq<Change>, i: nat)
    requires Imported(lens, live, t, t', fill, rows, changes) && i < |changes|
    ensures |changes| <= |rows| && Describes(lens, live, t, fill, rows[i], changes[i])
    ensures Describes(lens, live, t, fill, changes[i].row, changes[i])
    ensures rows[i] in live.rows && changes[i].row == rows[i]
    ensures forall j | 0 <= j < |rows| && j != i :: rows[j] != rows[i]
  {
  }

  /** Two writing rows of a batch have different identities. */
  lemma Apart(lens: Lens, live: Live, t: Tables, t': Tables, fill: bool, rows: seq<LiveRow>, changes: seq<Change>, i: nat, j: nat)
    requires Imported(lens, live, t, t', fill, rows, changes) && i < |changes| && j < |changes| && i != j
    requires Writes(changes[i]) && !Blank(lens, rows[j].record.job.external)
    ensures |changes| <= |rows| && !SameIdentity(rows[i].record.job, rows[j].record.job)
  {
    hide Imported, Dispose, Duplicated, Blank;
    ChangeAt(lens, live, t, t', fill, rows, changes, i);
    ChangeAt(lens, live, t, t', fill, rows, changes, j);
    WritingMeans(lens, live, t, fill, changes[i]);
    Rivals(lens, live, t, fill, rows[i], rows[j]);
  }

  /** The worker rows with a live row's native identity: still the same ones, and the
      row itself once it is inserted. */
  lemma MatchesAfter(lens: Lens, live: Live, t: Tables, t': Tables, fill: bool, rows: seq<LiveRow>, changes: seq<Change>, j: nat)
    requires Imported(lens, live, t, t', fill, rows, changes) && j < |changes| <= |rows|
    requires !Blank(lens, rows[j].record.job.external)
    ensures var job := rows[j].record.job;
            Matches(t'.jobs, job) == Matches(t.jobs, job)
              + (if Writes(changes[j]) && changes[j].verdict.before.None? then {changes[j].verdict.key.value} else {})
  {
    hide Imported, Dispose, Duplicated, Blank;
    var job := rows[j].record.job;
    ChangeAt(lens, live, t, t', fill, rows, changes, j);
    forall key | key in Matches(t.jobs, job) ensures key in Matches(t'.jobs, job) {
      IdentityStays(lens, live, t, t', fill, rows, changes, key);
    }
    forall key | key in Matches(t'.jobs, job) && key !in Matches(t.jobs, job)
      ensures Writes(changes[j]) && changes[j].verdict.before.None? && changes[j].verdict.key == Some(key)
    {
      if key in t.jobs {
        IdentityStays(lens, live, t, t', fill, rows, changes, key);
      } else {
        var i := NewRowFrom(lens, live, t, t', fill, rows, changes, key);
        if i != j {
          Apart(lens, live, t, t', fill, rows, changes, i, j);
        } else {
          WritingMeans(lens, live, t, fill, changes[j]);
        }
      }
    }
    if Writes(changes[j]) && changes[j].verdict.before.None? {
      var key := changes[j].verdict.key.value;
      var i := KeyAfter(lens, live, t, t', fill, rows, changes, key);
      assert i >= 0;
      WritingMeans(lens, live, t, fill, changes[j]);
      var k := NewRowFrom(lens, live, t, t', fill, rows, changes, key);
      KeysApart(lens, live, t, t', fill, rows, changes, k, j);
    }
  }

  lemma KeysApart(lens: Lens, live: Live, t: Tables, t': Tables, fill: bool, rows: seq<LiveRow>, changes: seq<Change>, i: nat, j: nat)
    requires Imported(lens, live, t, t', fill, rows, changes) && i < |changes| && j < |changes|
    requires Writes(changes[i]) && Writes(changes[j]) && changes[i].verdict.key == changes[j].verdict.key
    ensures i == j
  {
  }

  /** What the second look finds is a conflict or the same row as the first, and the
      inserted row where there was none. */
  lemma CurrentAfter(lens: Lens, live: Live, t: Tables, t': Tables, fill: bool, rows: seq<LiveRow>, changes: seq<Change>, j: nat)
    requires Imported(lens, live, t, t', fill, rows, changes) && j < |changes| <= |rows|
    requires !Blank(lens, rows[j].record.job.external)
    requires Current(lens, t.jobs, rows[j].record.job) == Absent ==>
               && Writes(changes[j]) && changes[j].verdict.before.None?
               && changes[j].verdict.key.value == lens.identity(rows[j].record.job.source, Text(rows[j].record.job.external))
    requires Current(lens, t.jobs, rows[j].record.job) != Absent ==> !(Writes(changes[j]) && changes[j].verdict.before.None?)
    ensures var was, now := Current(lens, t.jobs, rows[j].record.job), Current(lens, t'.jobs, rows[j].record.job);
            && (was == Conflict ==> now == Conflict)
            && (was.Found? ==> now == Conflict || now == was)
            && (was == Absent ==> now == Found(changes[j].verdict.key.value))
  {
    hide Imported, Blank, Writes;
    var job := rows[j].record.job;
    var target := lens.identity(job.source, Text(job.external));
    MatchesAfter(lens, live, t, t', fill, rows, changes, j);
    if target in t.jobs {
      IdentityStays(lens, live, t, t', fill, rows, changes, target);
    } else if target in t'.jobs {
      var i := NewRowFrom(lens, live, t, t', fill, rows, changes, target);
      if i != j {
        Apart(lens, live, t, t', fill, rows, changes, i, j);
      }
    }
  }

  /** A row just stored is taken for the retained body that it is. */
  lemma StoredIsKept(lens: Lens, live: Live, t: Tables, t': Tables, fill: bool, c: Change)
    requires Describes(lens, live, t, fill, c.row, c) && Writes(c)
    requires var key := c.verdict.key.value;
             && key in t'.jobs && t'.jobs[key] == c.operational.value
             && key in t'.links && t'.links[key] == LinkOf(lens, c)
    ensures !Writing(Compare(lens, t', c.row.record, fill, c.verdict.key.value).disposition)
  {
    hide Dispose, Duplicated, Blank;
    WritingMeans(lens, live, t, fill, c);
    assert Bound(lens, t'.links, c.verdict.key.value, c.operational.value);
  }

  /** A row not stored compares as it did. */
  lemma ComparesAsBefore(lens: Lens, t: Tables, t': Tables, record: Record, fill: bool, key: Key)
    requires key in t.jobs && key in t'.jobs && t'.jobs[key] == t.jobs[key] && t'.observed == t.observed
    requires (key in t'.links <==> key in t.links) && (key in t.links ==> t'.links[key] == t.links[key])
    ensures Compare(lens, t', record, fill, key) == Compare(lens, t, record, fill, key)
  {
    if t.jobs[key].raw.Some? {
      assert Bound(lens, t'.links, key, t.jobs[key]) == Bound(lens, t.links, key, t.jobs[key]);
    }
  }

  /** Once committed, a change has nothing more to write: looking at its row again
      gives a verdict that preserves or archives. */
  lemma Settled(lens: Lens, live: Live, t: Tables, t': Tables, fill: bool, rows: seq<LiveRow>, changes: seq<Change>, j: nat)
    requires Imported(lens, live, t, t', fill, rows, changes) && j < |changes| <= |rows|
    ensures !Writing(Dispose(lens, live, t', rows[j].record, fill).disposition)
  {
    hide Imported, Duplicated, Blank, Current, Compare;
    var record, c := rows[j].record, changes[j];
    ChangeAt(lens, live, t, t', fill, rows, changes, j);
    WritingMeans(lens, live, t, fill, c);
    if !Blank(lens, record.job.external) && Dispose(lens, live, t', record, fill) != CONFLICT
       && record.job.source in live.sources && live.sources[record.job.source]
    {
      CurrentAfter(lens, live, t, t', fill, rows, changes, j);
      var key := Current(lens, t'.jobs, record.job).key;
      var i := KeyAfter(lens, live, t, t', fill, rows, changes, key);
      if i == j {
        StoredIsKept(lens, live, t, t', fill, c);
      } else if Current(lens, t.jobs, record.job) == Absent {
        if i >= 0 {
          KeysApart(lens, live, t, t', fill, rows, changes, i, j);
        }
      } else if i >= 0 {
        ChangeAt(lens, live, t, t', fill, rows, changes, i);
        WritingMeans(lens, live, t, fill, changes[i]);
        Apart(lens, live, t, t', fill, rows, changes, i, j);
      } else {
        ComparesAsBefore(lens, t, t', record, fill, key);
      }
    }
  }

  /** A live row that is not written is a stranger to every row that is. */
  lemma Strangers(lens: Lens, live: Live, t: Tables, t': Tables, fill: bool, rows: seq<LiveRow>, changes: seq<Change>, row: LiveRow, i: nat)
    requires Imported(lens, live, t, t', fill, rows, changes) && i < |changes| && Writes(changes[i])
    requires row in live.rows && !Writing(Dispose(lens, live, t, row.record, fill).disposition) && !Blank(lens, row.record.job.external)
    ensures |changes| <= |rows| && !SameIdentity(rows[i].record.job, row.record.job)
  {
    hide Imported, Duplicated, Blank, Dispose;
    ChangeAt(lens, live, t, t', fill, rows, changes, i);
    WritingMeans(lens, live, t, fill, changes[i]);
    Rivals(lens, live, t, fill, rows[i], row);
  }

  lemma StrangersMatches(lens: Lens, live: Live, t: Tables, t': Tables, fill: bool, rows: seq<LiveRow>, changes: seq<Change>, row: LiveRow)
    requires Imported(lens, live, t, t', fill, rows, changes)
    requires row in live.rows && !Writing(Dispose(lens, live, t, row.record, fill).disposition) && !Blank(lens, row.record.job.external)
    ensures Matches(t'.jobs, row.record.job) == Matches(t.jobs, row.record.job)
  {
    hide Imported, Dispose, Duplicated, Blank;
    var job := row.record.job;
    forall key | key in Matches(t.jobs, job) ensures key in Matches(t'.jobs, job) {
      IdentityStays(lens, live, t, t', fill, rows, changes, key);
    }
    forall key | key in Matches(t'.jobs, job) ensures key in Matches(t.jobs, job) {
      if key in t.jobs {
        IdentityStays(lens, live, t, t', fill, rows, changes, key);
      } else {
        var i := NewRowFrom(lens, live, t, t', fill, rows, changes, key);
        Strangers(lens, live, t, t', fill, rows, changes, row, i);
      }
    }
  }

  lemma StrangersCurrent(lens: Lens, live: Live, t: Tables, t': Tables, fill: bool, rows: seq<LiveRow>, changes: seq<Change>, row: LiveRow)
    requires Imported(lens, live, t, t', fill, rows, changes)
    requires row in live.rows && !Writing(Dispose(lens, live, t, row.record, fill).disposition) && !Blank(lens, row.record.job.external)
    requires Current(lens, t.jobs, row.record.job) != Absent
    ensures var was, now := Current(lens, t.jobs, row.record.job), Current(lens, t'.jobs, row.record.job);
            (was == Conflict ==> now == Conflict) && (was.Found? ==> now == Conflict || now == was)
  {
    hide Imported, Blank, Writes, Dispose;
    var job := row.record.job;
    var target := lens.identity(job.source, Text(job.external));
    StrangersMatches(lens, live, t, t', fill, rows, changes, row);
    if target in t.jobs {
      IdentityStays(lens, live, t, t', fill, rows, changes, target);
    } else if target in t'.jobs {
      var i := NewRowFrom(lens, live, t, t', fill, rows, changes, target);
      Strangers(lens, live, t, t', fill, rows, changes, row, i);
    }
  }

  /** A live row that needed no writing needs none after an import either, whether the
      batch covered it or not. */
  lemma StaysSettled(lens: Lens, live: Live, t: Tables, t': Tables, fill: bool, rows: seq<LiveRow>, changes: seq<Change>, row: LiveRow)
    requires Imported(lens, live, t, t', fill, rows, changes)
    requires row in live.rows && !Writing(Dispose(lens, live, t, row.record, fill).disposition)
    ensures !Writing(Dispose(lens, live, t', row.record, fill).disposition)
  {
    hide Imported, Duplicated, Blank, Current, Compare;
    var record := row.record;
    if !Blank(lens, record.job.external) && Dispose(lens, live, t', record, fill) != CONFLICT
       && record.job.source in live.sources && live.sources[record.job.source]
    {
      StrangersCurrent(lens, live, t, t', fill, rows, changes, row);
      var key := Current(lens, t'.jobs, record.job).key;
      var i := KeyAfter(lens, live, t, t', fill, rows, changes, key);
      if i >= 0 {
        ChangeAt(lens, live, t, t', fill, rows, changes, i);
        WritingMeans(lens, live, t, fill, changes[i]);
        Strangers(lens, live, t, t', fill, rows, changes, row, i);
      } else {
        ComparesAsBefore(lens, t, t', record, fill, key);
      }
    }
  }

  /** An existing row changes only into one that is no more certified, its description
      changes only if it was a stub, and what it was is kept; a new row has no
      certificate at all. */
  lemma NothingCertified(lens: Lens, live: Live, t: Tables, t': Tables, fill: bool, rows: seq<LiveRow>, changes: seq<Change>, key: Key)
    requires Imported(lens, live, t, t', fill, rows, changes) && key in t'.jobs
    requires forall i | 0 <= i < |changes| :: Recorded(t', changes[i])
    ensures t'.jobs[key].listed ==> key in t.jobs && t.jobs[key].listed
    ensures t'.jobs[key].ready ==> key in t.jobs && t.jobs[key].ready
    ensures key in t.jobs && t'.jobs[key] != t.jobs[key] ==>
              && (key, t.jobs[key]) in t'.images && t'.jobs[key].title == t.jobs[key].title && t'.jobs[key].urls == t.jobs[key].urls
              && (t'.jobs[key].description != t.jobs[key].description ==> fill && IsStub(lens, t.jobs[key]))
    ensures key !in t.jobs ==> t'.jobs[key].raw.Some? && !t'.jobs[key].raw.value.attested
  {
    hide Imported, Duplicated, Blank, Current;
    var i := KeyAfter(lens, live, t, t', fill, rows, changes, key);
    if i >= 0 {
      ChangeAt(lens, live, t, t', fill, rows, changes, i);
      WritingMeans(lens, live, t, fill, changes[i]);
      assert Recorded(t', changes[i]);
    }
  }

  const MAX_JOBS := 5000

  predicate BoundsOk(bounds: Bounds) {
    1 <= bounds.jobs <= MAX_JOBS && bounds.metadata > 0
  }

  function NextCursor(batch: Batch): Option<nat> {
    if batch.more && batch.changes != [] then Some(batch.changes[|batch.changes| - 1].row.record.key) else None
  }

  lemma AfterIsFromLive(live: Live, after: nat)
    requires Sorted(live.rows)
    ensures FromLive(live, After(live.rows, after))
  {
    var k := AfterFrom(live.rows, after);
    var rest := After(live.rows, after);
    forall i, j | 0 <= i < j < |rest| ensures rest[i] != rest[j] {
      assert rest[i] == live.rows[k + i] && rest[j] == live.rows[k + j];
      assert live.rows[k + i].record.key < live.rows[k + j].record.key;
    }
  }

  /** Archiving blobs changes no verdict. */
  lemma CoversSame(lens: Lens, live: Live, t: Tables, t1: Tables, fill: bool, rows: seq<LiveRow>, changes: seq<Change>)
    requires Covers(lens, live, t, fill, rows, changes)
    requires t1.jobs == t.jobs && t1.links == t.links && t1.observed == t.observed
    ensures Covers(lens, live, t1, fill, rows, changes)
  {
    forall i | 0 <= i < |changes| ensures Describes(lens, live, t1, fill, rows[i], changes[i]) {
      assert Describes(lens, live, t, fill, rows[i], changes[i]);
    }
  }

  /** The bytes of a prepared batch back what it calls verified. */
  lemma BatchIsBacked(lens: Lens, live: Live, t: Tables, fill: bool, rest: seq<LiveRow>, bounds: Bounds, batch: Batch, blobs: map<Sha, Blob>)
    requires Honest(lens, live, t, fill, rest, bounds, batch) && batch.blobs.Keys <= blobs.Keys
    ensures forall i | 0 <= i < |batch.changes| :: Backed(batch.changes[i].items, blobs)
  {
    forall i | 0 <= i < |batch.changes| ensures Backed(batch.changes[i].items, blobs) {
      var items := batch.changes[i].items;
      assert AllJudged(lens, live, items, batch.blobs, bounds.bytes - Size(batch.blobs));
      forall k | 0 <= k < |items| && items[k].status == Verified
        ensures items[k].association.content.Some? && items[k].association.content.value in blobs
      {
        assert Judged(lens, live, items[k], batch.blobs, bounds.bytes - Size(batch.blobs));
      }
    }
  }

  /** Whatever part of the rest a batch takes, no two of its changes want one key. */
  predicate Importable(lens: Lens, live: Live, t: Tables, fill: bool, rest: seq<LiveRow>, bounds: Bounds) {
    forall m: nat | m <= Least(bounds.jobs, |rest|) && Fits(lens, live, t, fill, rest, bounds, m) ::
      KeysDistinct(Drafted(lens, live, t, fill, rest[..m], bounds.bytes).changes)
  }

  lemma {:induction false} DraftedPrefix(lens: Lens, live: Live, t: Tables, fill: bool, rest: seq<LiveRow>, bytes: nat, m: nat, n: nat)
    requires m <= n <= |rest|
    ensures Drafted(lens, live, t, fill, rest[..m], bytes).changes <= Drafted(lens, live, t, fill, rest[..n], bytes).changes
    decreases n
  {
    hide JudgeAll, ChangeOf, Drafted;
    if m < n {
      DraftedPrefix(lens, live, t, fill, rest, bytes, m, n - 1);
      DraftedOneMore(lens, live, t, fill, rest, bytes, n - 1);
    }
  }

  /** The keys of a prepared batch are distinct exactly when they are for every part. */
  lemma ImportableBatch(lens: Lens, live: Live, t: Tables, fill: bool, rest: seq<LiveRow>, bounds: Bounds, batch: Batch)
    requires Prepared(lens, live, t, fill, rest, bounds, batch)
    ensures KeysDistinct(batch.changes) <==> Importable(lens, live, t, fill, rest, bounds)
  {
    hide Drafted, Malformed, Weight, Writes;
    var n := |batch.changes|;
    assert Fits(lens, live, t, fill, rest, bounds, n);
    hide Fits;
    if KeysDistinct(batch.changes) {
      forall m: nat | m <= Least(bounds.jobs, |rest|) && Fits(lens, live, t, fill, rest, bounds, m)
        ensures KeysDistinct(Drafted(lens, live, t, fill, rest[..m], bounds.bytes).changes)
      {
        if m > n {
          FitsFewer(lens, live, t, fill, rest, bounds, n + 1, m);
        } else {
          DraftedPrefix(lens, live, t, fill, rest, bounds.bytes, m, n);
          KeysDistinctPrefix(Drafted(lens, live, t, fill, rest[..m], bounds.bytes).changes, batch.changes);
        }
      }
    }
  }

  lemma KeysDistinctPrefix(a: seq<Change>, b: seq<Change>)
    requires a <= b && KeysDistinct(b)
    ensures KeysDistinct(a)
  {
    hide Writes;
  }

  /** The worker database. */
  class Worker {
    var tables: Tables

    constructor (t: Tables)
      ensures tables == t
    {
      tables := t;
    }

    /** Import a batch in one transaction. */
    method Import(lens: Lens, ghost live: Live, ghost fill: bool, ghost rest: seq<LiveRow>, ghost bounds: Bounds, batch: Batch, calm: bool)
      returns (r: Outcome<()>)
      requires Sound(lens, tables) && FromLive(live, rest)
      requires Honest(lens, live, tables, fill, rest, bounds, batch)
      modifies this
      ensures Sound(lens, tables) && Keeps(old(tables), tables)
      ensures Clear(lens, live, old(tables)) ==> Clear(lens, live, tables)
      ensures r.Raised? ==> tables == old(tables)
      ensures calm && Clear(lens, live, old(tables)) ==> (r.Done? <==> KeysDistinct(batch.changes))
      ensures r.Raised? ==>
              || (r.error == BlobConflict && !Clear(lens, live, old(tables)))
              || (r.error == ArchiveConflict && !Clear(lens, live, old(tables)))
              || (r.error == KeyTaken && !KeysDistinct(batch.changes))
              || (r.error == Interrupted && !calm)
      ensures r.Done? ==> Imported(lens, live, old(tables), tables, fill, rest, batch.changes)
      ensures r.Done? ==> forall i | 0 <= i < |batch.changes| :: Recorded(tables, batch.changes[i])
    {
      hide Sound, Keeps, Covers, FromLive, Recorded, KeysDistinct, Backed, Clear, AllGenuine, AllJudged;
      NothingYet(tables);
      var t1 := ImportBlobs(lens, live, tables, batch.blobs);
      if t1.Raised? {
        return Raised(t1.error);
      }
      CoversSame(lens, live, tables, t1.value, fill, rest, batch.changes);
      BatchIsBacked(lens, live, tables, fill, rest, bounds, batch, t1.value.blobs);
      var t2 := ImportChanges(lens, live, t1.value, fill, rest, batch.changes, calm);
      if t2.Raised? {
        return Raised(t2.error);
      }
      var luck: bool := *;
      if !calm && !luck {
        return Raised(Interrupted);
      }
      KeepsOn(tables, t1.value, t2.value);
      ObservedKept(t1.value, t2.value);
      tables := t2.value;
      r := Done(());
    }

    /** One bounded batch: prepare it, compare it with the reviewed preview, and, when
        executing, import all of it or nothing. */
    method Reconcile(lens: Lens, live: Live, fill: bool, after: nat, bounds: Bounds, reviewed: Option<seq<Change>>,
                     execute: bool, calm: bool)
      returns (r: Outcome<Batch>)
      requires Sorted(live.rows) && Sound(lens, tables)
      modifies this
      ensures Sound(lens, tables) && Keeps(old(tables), tables)
      ensures Clear(lens, live, old(tables)) ==> Clear(lens, live, tables)
      ensures r.Raised? || !execute ==> tables == old(tables)
      ensures r.Done? ==>
              && BoundsOk(bounds) && (reviewed.Some? ==> r.value.changes == reviewed.value)
              && Prepared(lens, live, old(tables), fill, After(live.rows, after), bounds, r.value)
              && Honest(lens, live, old(tables), fill, After(live.rows, after), bounds, r.value)
      ensures r.Done? && execute ==>
              && Imported(lens, live, old(tables), tables, fill, After(live.rows, after), r.value.changes)
              && forall i | 0 <= i < |r.value.changes| :: Recorded(tables, r.value.changes[i])
      ensures r.Raised? && r.error == InvalidBounds <==> !BoundsOk(bounds)
      ensures calm && reviewed.None? && BoundsOk(bounds) && Clear(lens, live, old(tables)) ==>
              (r.Done? <==>
                 && Preparable(lens, live, old(tables), fill, After(live.rows, after), bounds)
                 && (execute ==> Importable(lens, live, old(tables), fill, After(live.rows, after), bounds)))
    {
      hide Sound, Keeps, Prepared, Honest, Imported, Recorded, Sorted, Clear, Preparable, Importable, KeysDistinct, After;
      NothingYet(tables);
      if !BoundsOk(bounds) {
        return Raised(InvalidBounds);
      }
      r := Prepare(lens, live, tables, fill, after, bounds, calm);
      if r.Raised? {
        return;
      }
      if reviewed.Some? && r.value.changes != reviewed.value {
        return Raised(PreviewChanged);
      }
      if execute {
        AfterIsFromLive(live, after);
        ImportableBatch(lens, live, tables, fill, After(live.rows, after), bounds, r.value);
        var done := Import(lens, live, fill, After(live.rows, after), bounds, r.value, calm);
        if done.Raised? {
          r := Raised(done.error);
        }
      }
    }
  }

  lemma ObservedKept(t: Tables, t': Tables)
    requires Keeps(t, t')
    ensures t'.observed == t.observed
  {
  }
}
