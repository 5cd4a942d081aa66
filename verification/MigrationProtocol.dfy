/**
  Additive installation of archive representations, item after item, with a checkpoint
  each: the steps of a page, and what losses of power make of them. The originals are
  never touched; what may be lost are records and representations whose directory was
  not synced since they were published.
*/
module MigrationProtocol {
  import opened Marks
  import opened Wrappers

  type Bytes = seq<bv8>

  /** The storage helper: how it compresses, and what it restores. Nothing is assumed
      of it; the protocol reads back what it stored. */
  datatype Codec = Codec(compress: Bytes -> Bytes, restore: Bytes -> Option<Bytes>)

  /** Everything on disk about one item: its content as it was reviewed, the original as
      it is now, and its representation in the directory `folder`. A grant is sealed under
      a name of its own before each record of an installation, and is durable with it. */
  datatype Slot = Slot(reviewed: Bytes, original: Option<Bytes>, folder: nat, stored: Mark<Bytes>,
                       intent: Mark<()>, installed: Mark<()>, complete: Mark<()>)

  /** What can be synced: the directory of all records of the review, or one that
      representations are in. */
  datatype Directory = Records | Folder(folder: nat)

  function Reviewed(content: Bytes, folder: nat): Slot {
    Slot(content, Some(content), folder, Absent, Absent, Absent, Absent)
  }

  function SyncSlot(s: Slot, d: Directory): Slot {
    match d
    case Records => s.(intent := Synced(s.intent), installed := Synced(s.installed), complete := Synced(s.complete))
    case Folder(folder) => if s.folder == folder then s.(stored := Synced(s.stored)) else s
  }

  function SyncAll(slots: seq<Slot>, d: Directory): (r: seq<Slot>)
    ensures |r| == |slots| && forall i | 0 <= i < |slots| :: r[i] == SyncSlot(slots[i], d)
  {
    seq(|slots|, i requires 0 <= i < |slots| => SyncSlot(slots[i], d))
  }

  predicate InPlace(s: Slot) {
    s.original == Some(s.reviewed)
  }

  /** What is compressed from this item restores to it. */
  predicate Restores(c: Codec, s: Slot) {
    c.restore(c.compress(s.reviewed)) == Some(s.reviewed)
  }

  predicate Restorable(c: Codec, s: Slot) {
    !s.stored.Absent? && c.restore(s.stored.value) == Some(s.reviewed)
  }

  /** The records say that there is a representation. */
  predicate Claimed(s: Slot) {
    !s.installed.Absent? || !s.complete.Absent?
  }

  /** What every state of an item keeps, whatever was lost: what is stored is what was
      compressed, and it was read back before anything was claimed. */
  predicate Proper(c: Codec, s: Slot) {
    && (!s.stored.Absent? ==> s.stored.value == c.compress(s.reviewed))
    && (Claimed(s) ==> Restores(c, s))
  }

  /** Nothing about the item awaits a sync. */
  predicate Quiet(s: Slot) {
    !s.stored.Published? && !s.intent.Published? && !s.installed.Published?
  }

  /** Every item is proper, and of those that are not complete only the first can have
      anything that awaits a sync. */
  predicate AllProper(c: Codec, slots: seq<Slot>) {
    && (forall i | 0 <= i < |slots| :: Proper(c, slots[i]))
    && forall i, j | 0 <= i < j < |slots| && slots[i].complete.Absent? && slots[j].complete.Absent? :: Quiet(slots[j])
  }

  /** A claimed representation is there. */
  predicate Whole(slots: seq<Slot>) {
    forall i | 0 <= i < |slots| && Claimed(slots[i]) :: !slots[i].stored.Absent?
  }

  /** The completed items are the first ones. */
  predicate Prefix(slots: seq<Slot>) {
    forall i, j | 0 <= i < j < |slots| && !slots[j].complete.Absent? :: !slots[i].complete.Absent?
  }

  /** Claimed representations are durable, and so are the completions before another. */
  predicate Firm(slots: seq<Slot>) {
    && (forall i | 0 <= i < |slots| && Claimed(slots[i]) :: slots[i].stored.Durable?)
    && (forall i, j | 0 <= i < j < |slots| && !slots[j].complete.Absent? :: slots[i].complete.Durable?)
  }

  /** Nothing awaits a sync, but for representations of completed items. */
  predicate Settled(slots: seq<Slot>) {
    forall i | 0 <= i < |slots| :: SyncSlot(slots[i], Records) == slots[i]
  }

  /** Nothing recorded or stored is taken back or altered, and originals stay as they are. */
  predicate Grows(s: Slot, s': Slot) {
    && s'.reviewed == s.reviewed && s'.original == s.original && s'.folder == s.folder
    && Held(s.stored, s'.stored) && Held(s.intent, s'.intent)
    && Held(s.installed, s'.installed) && Held(s.complete, s'.complete)
  }

  predicate OnlySynced(s: Slot, s': Slot) {
    && Grows(s, s')
    && (s.stored.Absent? ==> s'.stored.Absent?) && (s.intent.Absent? ==> s'.intent.Absent?)
    && (s.installed.Absent? ==> s'.installed.Absent?) && (s.complete.Absent? ==> s'.complete.Absent?)
  }

  // ----- the steps of a page

  datatype Bounds = Bounds(maxItems: nat, maxBytes: nat)

  /** How many of the first n items are not complete, and their bytes. */
  function Open(slots: seq<Slot>, n: nat): nat
    requires n <= |slots|
  {
    if n == 0 then 0 else Open(slots, n - 1) + (if slots[n - 1].complete.Absent? then 1 else 0)
  }

  function OpenBytes(slots: seq<Slot>, n: nat): nat
    requires n <= |slots|
  {
    if n == 0 then 0 else OpenBytes(slots, n - 1) + (if slots[n - 1].complete.Absent? then |slots[n - 1].reviewed| else 0)
  }

  /** The budgets of a page that finds these slots cover item i, if it is not complete. */
  predicate Within(b: Bounds, slots: seq<Slot>, i: nat) {
    i < |slots| && (slots[i].complete.Absent? ==> Open(slots, i) < b.maxItems && OpenBytes(slots, i) + |slots[i].reviewed| <= b.maxBytes)
  }

  datatype Phase = Checking | Declaring | Intended | Storing | Stored | Installing | Completing | Closing | Finished

  /** What a step does: nothing, one change of the item, or the sync of a directory. */
  datatype Deed = Decide | Put(slot: Slot) | Sync(directory: Directory)

  /** The next step with an item; none when it is finished or a check stops the page. */
  function Next(c: Codec, p: Phase, s: Slot): Option<(Phase, Deed)> {
    match p
    case Checking =>
      if !s.complete.Absent? then (if Restorable(c, s) && InPlace(s) then Some((Finished, Decide)) else None)
      else if !InPlace(s) then None
      else if s.intent.Absent? then Some((Declaring, Put(s.(intent := Published(())))))
      else Some((Intended, Decide))
    case Declaring => Some((Intended, Sync(Records)))
    case Intended =>
      if !s.installed.Absent? then (if Restorable(c, s) then Some((Completing, Decide)) else None)
      else if s.stored.Absent? then Some((Storing, Put(s.(stored := Published(c.compress(s.reviewed))))))
      else Some((Stored, Decide))
    case Storing => Some((Stored, Sync(Folder(s.folder))))
    case Stored => if Restorable(c, s) then Some((Installing, Put(s.(installed := Published(()))))) else None
    case Installing => Some((Completing, Sync(Records)))
    case Completing => Some((Closing, Put(s.(complete := Published(())))))
    case Closing => Some((Finished, Sync(Records)))
    case Finished => None
  }

  function Perform(slots: seq<Slot>, i: nat, deed: Deed): (r: seq<Slot>)
    requires i < |slots|
    ensures |r| == |slots|
  {
    match deed
    case Decide => slots
    case Put(s) => slots[i := s]
    case Sync(d) => SyncAll(slots, d)
  }

  /** A page under way: the slots as it found them and as they are now. */
  datatype Run = Run(began: seq<Slot>, slots: seq<Slot>, item: nat, phase: Phase)

  /** One step of a page; none when its budgets are used up or a check stops it. */
  function Advance(c: Codec, b: Bounds, r: Run): Run {
    if r.item >= |r.slots| || (r.phase == Checking && !Within(b, r.began, r.item)) then r
    else if r.phase == Finished then r.(item := r.item + 1, phase := Checking)
    else
      match Next(c, r.phase, r.slots[r.item])
      case None => r
      case Some(step) => r.(slots := Perform(r.slots, r.item, step.1), phase := step.0)
  }

  function Ran(c: Codec, b: Bounds, r: Run, k: nat): Run {
    if k == 0 then r else Advance(c, b, Ran(c, b, r, k - 1))
  }

  function Begin(slots: seq<Slot>): Run {
    Run(slots, slots, 0, Checking)
  }

  /** What a page that began with some slots can have come to. */
  ghost predicate Reached(c: Codec, b: Bounds, r: Run) {
    exists k: nat :: Ran(c, b, Begin(r.began), k) == r
  }

  /** What a page, ending anywhere, may make of the slots. */
  ghost predicate Runs(c: Codec, b: Bounds, slots: seq<Slot>, slots': seq<Slot>) {
    exists r: Run :: Reached(c, b, r) && r.began == slots && r.slots == slots'
  }

  lemma ReachedStart(c: Codec, b: Bounds, slots: seq<Slot>)
    ensures Reached(c, b, Begin(slots)) && Runs(c, b, slots, slots)
  {
    assert Ran(c, b, Begin(slots), 0) == Begin(slots);
  }

  lemma ReachedOn(c: Codec, b: Bounds, r: Run)
    requires Reached(c, b, r)
    ensures Reached(c, b, Advance(c, b, r))
  {
    var k: nat :| Ran(c, b, Begin(r.began), k) == r;
    assert Ran(c, b, Begin(r.began), k + 1) == Advance(c, b, r);
  }

  lemma ReachedStep(c: Codec, b: Bounds, r: Run, p: Phase, deed: Deed)
    requires Reached(c, b, r) && r.item < |r.slots| && (r.phase == Checking ==> Within(b, r.began, r.item))
    requires Next(c, r.phase, r.slots[r.item]) == Some((p, deed))
    ensures p != Checking && Reached(c, b, r.(slots := Perform(r.slots, r.item, deed), phase := p))
  {
    ReachedOn(c, b, r);
  }

  // ----- what every step keeps

  /** What holds of the item in hand in each phase. */
  predicate Fits(c: Codec, p: Phase, s: Slot) {
    && Proper(c, s) && (p != Checking ==> InPlace(s)) && (p != Checking && p != Closing && p != Finished ==> s.complete.Absent?)
    && match p
       case Checking => true
       case Declaring => !s.intent.Absent?
       case Intended => !s.intent.Absent?
       case Storing => !s.stored.Absent? && s.installed.Absent?
       case Stored => !s.stored.Absent? && s.installed.Absent?
       case Installing => Restorable(c, s) && !s.installed.Absent?
       case Completing => Restorable(c, s) && !s.installed.Absent?
       case Closing => Restorable(c, s) && !s.complete.Absent?
       case Finished => Restorable(c, s) && !s.complete.Absent?
  }

  /** A claimed representation is there, and what is missing stays missing. */
  predicate SameClaim(s: Slot, s': Slot) {
    (Claimed(s) && s.stored.Absent?) <==> (Claimed(s') && s'.stored.Absent?)
  }

  lemma PutKeeps(c: Codec, p: Phase, s: Slot)
    requires Fits(c, p, s) && Next(c, p, s).Some? && Next(c, p, s).value.1.Put?
    ensures var s' := Next(c, p, s).value.1.slot;
            && Grows(s, s') && Fits(c, Next(c, p, s).value.0, s') && SameClaim(s, s')
            && s.complete.Absent? && (p != Completing ==> s'.complete.Absent?)
  {
  }

  lemma SyncKeeps(c: Codec, s: Slot, d: Directory)
    ensures OnlySynced(s, SyncSlot(s, d)) && SameClaim(s, SyncSlot(s, d))
    ensures (Proper(c, s) ==> Proper(c, SyncSlot(s, d))) && (Quiet(s) ==> Quiet(SyncSlot(s, d)))
  {
  }

  lemma SyncFits(c: Codec, p: Phase, s: Slot)
    requires Fits(c, p, s) && Next(c, p, s).Some? && !Next(c, p, s).value.1.Put?
    ensures Next(c, p, s).value.1.Decide? ==> Fits(c, Next(c, p, s).value.0, s)
    ensures Next(c, p, s).value.1.Sync? ==> Fits(c, Next(c, p, s).value.0, SyncSlot(s, Next(c, p, s).value.1.directory))
  {
  }

  /** The page came to item i and did something with it. */
  predicate Touched(r: Run, i: nat) {
    i < r.item || (i == r.item && r.phase != Checking)
  }

  /** What a page that comes to an item has left behind, and what is before it. */
  ghost predicate RunOk(c: Codec, r: Run) {
    && AllProper(c, r.slots) && |r.slots| == |r.began|
    && (r.item < |r.slots| ==> Fits(c, r.phase, r.slots[r.item]))
    && (forall i: nat | i < |r.slots| ::
          && Grows(r.began[i], r.slots[i]) && SameClaim(r.began[i], r.slots[i])
          && (!Touched(r, i) ==> OnlySynced(r.began[i], r.slots[i])))
    && (forall i: nat | i < r.item && i < |r.slots| ::
          !r.slots[i].complete.Absent? && Restorable(c, r.slots[i]) && InPlace(r.slots[i]))
    && (r.phase == Checking && r.item < |r.slots| ==> (r.slots[r.item].complete.Absent? <==> r.began[r.item].complete.Absent?))
  }

  lemma GrowsOn(s: Slot, s': Slot, s'': Slot)
    ensures Grows(s, s') && Grows(s', s'') ==> Grows(s, s'')
    ensures OnlySynced(s, s') && OnlySynced(s', s'') ==> OnlySynced(s, s'')
    ensures SameClaim(s, s') && SameClaim(s', s'') ==> SameClaim(s, s'')
  {
  }

  lemma PutOk(c: Codec, r: Run, p: Phase, s: Slot)
    requires RunOk(c, r) && r.item < |r.slots| && Next(c, r.phase, r.slots[r.item]) == Some((p, Put(s)))
    ensures RunOk(c, r.(slots := r.slots[r.item := s], phase := p))
  {
    PutKeeps(c, r.phase, r.slots[r.item]);
    NextPhase(c, r.phase, r.slots[r.item]);
    hide Next, Fits, Proper, Quiet, Grows, OnlySynced, SameClaim;
    var slots' := r.slots[r.item := s];
    forall i: nat | i < |r.slots|
      ensures Grows(r.began[i], slots'[i]) && SameClaim(r.began[i], slots'[i])
    {
      if i == r.item {
        GrowsOn(r.began[i], r.slots[i], s);
      }
    }
    PutProper(c, r.slots, r.item, s);
  }

  lemma NextPhase(c: Codec, p: Phase, s: Slot)
    ensures Next(c, p, s).Some? ==> Next(c, p, s).value.0 != Checking && p != Finished
  {
  }

  lemma FitsProper(c: Codec, p: Phase, s: Slot)
    requires Fits(c, p, s)
    ensures Proper(c, s)
  {
  }

  /** The first item that is not complete may be changed. */
  lemma PutProper(c: Codec, slots: seq<Slot>, i: nat, s: Slot)
    requires AllProper(c, slots) && i < |slots| && Proper(c, s) && slots[i].complete.Absent?
    requires forall k | 0 <= k < i :: !slots[k].complete.Absent?
    ensures AllProper(c, slots[i := s])
  {
    hide Proper, Quiet;
  }

  lemma SyncProper(c: Codec, slots: seq<Slot>, d: Directory)
    requires AllProper(c, slots)
    ensures AllProper(c, SyncAll(slots, d))
  {
    hide Proper, Quiet, SyncSlot;
    var r := SyncAll(slots, d);
    forall i | 0 <= i < |slots|
      ensures Proper(c, r[i]) && (Quiet(slots[i]) ==> Quiet(r[i])) && (r[i].complete.Absent? ==> slots[i].complete.Absent?)
    {
      SyncKeeps(c, slots[i], d);
      SyncAbsent(slots[i], d);
    }
  }

  lemma SyncAbsent(s: Slot, d: Directory)
    ensures SyncSlot(s, d).complete.Absent? <==> s.complete.Absent?
  {
  }

  lemma SyncOk(c: Codec, r: Run, p: Phase, d: Directory)
    requires RunOk(c, r) && r.item < |r.slots| && Next(c, r.phase, r.slots[r.item]) == Some((p, Sync(d)))
    ensures RunOk(c, r.(slots := SyncAll(r.slots, d), phase := p))
  {
    hide Next, Fits, Proper, Quiet, Grows, OnlySynced, SameClaim, SyncSlot, Restorable;
    SyncFits(c, r.phase, r.slots[r.item]);
    NextPhase(c, r.phase, r.slots[r.item]);
    SyncIsLate(c, r.phase, r.slots[r.item]);
    SyncProper(c, r.slots, d);
    var slots' := SyncAll(r.slots, d);
    forall i: nat | i < |r.slots|
      ensures Grows(r.began[i], slots'[i]) && SameClaim(r.began[i], slots'[i])
      ensures OnlySynced(r.began[i], r.slots[i]) ==> OnlySynced(r.began[i], slots'[i])
      ensures !r.slots[i].complete.Absent? ==> !slots'[i].complete.Absent?
      ensures Restorable(c, r.slots[i]) && InPlace(r.slots[i]) ==> Restorable(c, slots'[i]) && InPlace(slots'[i])
    {
      SyncKeeps(c, r.slots[i], d);
      GrowsOn(r.began[i], r.slots[i], slots'[i]);
      SyncAbsent(r.slots[i], d);
      SyncedGrows(r.slots[i], slots'[i]);
      StaysRestorable(c, r.slots[i], slots'[i]);
    }
  }

  lemma SyncIsLate(c: Codec, p: Phase, s: Slot)
    ensures Next(c, p, s).Some? && Next(c, p, s).value.1.Sync? ==> p != Checking
  {
  }

  lemma SyncedGrows(s: Slot, s': Slot)
    ensures OnlySynced(s, s') ==> Grows(s, s')
  {
  }

  lemma StaysRestorable(c: Codec, s: Slot, s': Slot)
    ensures Grows(s, s') && Restorable(c, s) && InPlace(s) ==> Restorable(c, s') && InPlace(s')
  {
  }

  lemma DecideOk(c: Codec, r: Run, p: Phase)
    requires RunOk(c, r) && r.item < |r.slots| && Next(c, r.phase, r.slots[r.item]) == Some((p, Decide))
    ensures RunOk(c, r.(phase := p))
  {
    hide Next, Fits, Proper, Quiet, Grows, OnlySynced, SameClaim, Restorable;
    SyncFits(c, r.phase, r.slots[r.item]);
    NextPhase(c, r.phase, r.slots[r.item]);
  }

  lemma OnwardOk(c: Codec, r: Run)
    requires RunOk(c, r) && r.item < |r.slots| && r.phase == Finished
    ensures RunOk(c, r.(item := r.item + 1, phase := Checking))
  {
    hide Proper, Quiet, SameClaim, Grows;
    var r' := r.(item := r.item + 1, phase := Checking);
    forall i: nat | i < |r.slots| ensures !Touched(r', i) ==> !Touched(r, i) {
    }
    if r'.item < |r.slots| {
      assert !Touched(r, r'.item) && OnlySynced(r.began[r'.item], r.slots[r'.item]);
      SyncedComplete(r.began[r'.item], r.slots[r'.item]);
      assert Fits(c, Checking, r.slots[r'.item]);
    }
  }

  lemma SyncedComplete(s: Slot, s': Slot)
    requires OnlySynced(s, s')
    ensures s'.complete.Absent? <==> s.complete.Absent?
  {
  }

  lemma AdvanceOk(c: Codec, b: Bounds, r: Run)
    requires RunOk(c, r)
    ensures RunOk(c, Advance(c, b, r)) && Advance(c, b, r).began == r.began
  {
    hide RunOk, Next, Within;
    if r.item < |r.slots| {
      if r.phase == Finished {
        OnwardOk(c, r);
      } else if Next(c, r.phase, r.slots[r.item]).Some? {
        var (p, deed) := Next(c, r.phase, r.slots[r.item]).value;
        match deed
        case Decide => DecideOk(c, r, p);
        case Put(s) => PutOk(c, r, p, s);
        case Sync(d) => SyncOk(c, r, p, d);
      }
    }
  }

  lemma {:induction false} RanOk(c: Codec, b: Bounds, slots: seq<Slot>, k: nat)
    requires AllProper(c, slots)
    ensures RunOk(c, Ran(c, b, Begin(slots), k)) && Ran(c, b, Begin(slots), k).began == slots
  {
    if k == 0 {
      BeginOk(c, slots);
    } else {
      RanOk(c, b, slots, k - 1);
      AdvanceOk(c, b, Ran(c, b, Begin(slots), k - 1));
    }
  }

  lemma BeginOk(c: Codec, slots: seq<Slot>)
    requires AllProper(c, slots)
    ensures RunOk(c, Begin(slots))
  {
  }

  lemma ReachedOk(c: Codec, b: Bounds, r: Run)
    requires AllProper(c, r.began) && Reached(c, b, r)
    ensures RunOk(c, r)
  {
    var k: nat :| Ran(c, b, Begin(r.began), k) == r;
    RanOk(c, b, r.began, k);
  }

  /** A page, ended anywhere, takes nothing back and touches no original; it neither loses
      nor mends a representation that is claimed, and keeps completions a prefix. */
  lemma RunsKeep(c: Codec, b: Bounds, slots: seq<Slot>, slots': seq<Slot>)
    requires AllProper(c, slots) && Runs(c, b, slots, slots')
    ensures AllProper(c, slots') && |slots'| == |slots| && forall i | 0 <= i < |slots| :: Grows(slots[i], slots'[i])
    ensures (Whole(slots') <==> Whole(slots)) && (Prefix(slots) ==> Prefix(slots'))
  {
    var r: Run :| Reached(c, b, r) && r.began == slots && r.slots == slots';
    ReachedOk(c, b, r);
    hide Reached, AllProper, Restorable, Fits;
    forall i: nat | i < |slots| ensures Grows(slots[i], slots'[i]) && SameClaim(slots[i], slots'[i]) {
    }
    if Prefix(slots) {
      forall i, j | 0 <= i < j < |slots| && !slots'[j].complete.Absent? ensures !slots'[i].complete.Absent? {
        if i >= r.item {
          assert !Touched(r, j) && OnlySynced(slots[j], slots'[j]);
          assert Grows(slots[i], slots'[i]);
        }
      }
    }
  }

  // ----- losses of power

  /** What was not synced survives or does not; afterwards all that is there is durable. */
  predicate LosesPower(s: Slot, s': Slot) {
    && s'.reviewed == s.reviewed && s'.original == s.original && s'.folder == s.folder
    && Lost(s.stored, s'.stored) && Lost(s.intent, s'.intent)
    && Lost(s.installed, s'.installed) && Lost(s.complete, s'.complete)
  }

  predicate LosePower(slots: seq<Slot>, slots': seq<Slot>) {
    |slots'| == |slots| && forall i | 0 <= i < |slots| :: LosesPower(slots[i], slots'[i])
  }

  /** What the records of a review promise: a representation for each that is claimed,
      and completions that are a prefix. */
  predicate InOrder(slots: seq<Slot>) {
    Whole(slots) && Prefix(slots)
  }

  /** Everything survives. */
  function Best(s: Slot): Slot {
    s.(stored := Synced(s.stored), intent := Synced(s.intent), installed := Synced(s.installed), complete := Synced(s.complete))
  }

  /** Every loss of power leaves the records in order exactly when claimed representations
      are durable, and the completions before another. */
  lemma PowerLossKeepsOrder(slots: seq<Slot>)
    ensures (forall slots' | LosePower(slots, slots') :: InOrder(slots')) <==> Firm(slots)
  {
    if i :| 0 <= i < |slots| && Claimed(slots[i]) && !slots[i].stored.Durable? {
      var worst := seq(|slots|, k requires 0 <= k < |slots| => Best(slots[k]).(stored := WorstMark(slots[k].stored)));
      assert LosePower(slots, worst);
      assert Claimed(worst[i]) && worst[i].stored.Absent?;
    } else if i, j :| 0 <= i < j < |slots| && !slots[j].complete.Absent? && !slots[i].complete.Durable? {
      var worst := seq(|slots|, k requires 0 <= k < |slots| =>
        Best(slots[k]).(complete := if k == i then WorstMark(slots[k].complete) else Synced(slots[k].complete)));
      assert LosePower(slots, worst);
      assert !worst[j].complete.Absent? && worst[i].complete.Absent?;
    }
  }

  /** A loss of power keeps every state one that pages can start from. */
  lemma LossKeepsProper(c: Codec, slots: seq<Slot>, slots': seq<Slot>)
    requires AllProper(c, slots) && LosePower(slots, slots')
    ensures AllProper(c, slots') && Settled(slots')
  {
    forall i | 0 <= i < |slots|
      ensures Proper(c, slots'[i]) && Quiet(slots'[i]) && SyncSlot(slots'[i], Records) == slots'[i]
    {
      assert Proper(c, slots[i]) && LosesPower(slots[i], slots'[i]);
    }
  }

  // ----- pages and losses of power

  /** Item i is the first that is not complete, and the budgets cover it. */
  predicate TakesUp(b: Bounds, began: seq<Slot>, slots: seq<Slot>, i: nat)
    requires |slots| == |began|
  {
    i < |slots| && Within(b, began, i) && slots[i].complete.Absent? && forall k | 0 <= k < i :: !slots[k].complete.Absent?
  }

  predicate AllDurableBefore(slots: seq<Slot>, i: nat) {
    forall k | 0 <= k < i && k < |slots| :: slots[k].complete.Durable?
  }

  /** The first item that the page has to do something about has no representation that
      was only published; and unless the page still publishes a record before completing
      it, all completions before are durable. */
  predicate Careful(b: Bounds, began: seq<Slot>, slots: seq<Slot>)
    requires |slots| == |began|
  {
    forall i: nat | i < |slots| && TakesUp(b, began, slots, i) ::
      && !slots[i].stored.Published?
      && (slots[i].intent.Absent? || slots[i].installed.Absent? || AllDurableBefore(slots, i))
  }

  /** All items behind this one that are not complete have nothing that awaits a sync. */
  predicate QuietBehind(slots: seq<Slot>, i: nat) {
    forall k | i < k < |slots| && slots[k].complete.Absent? :: Quiet(slots[k])
  }

  /** What holds throughout a page that keeps the records in order for good. */
  ghost predicate Steady(c: Codec, b: Bounds, r: Run) {
    && RunOk(c, r) && Firm(r.slots)
    && match r.phase
       case Checking => Careful(b, r.began, r.slots)
       case Finished => Careful(b, r.began, r.slots)
       case p =>
         && r.item < |r.slots| && QuietBehind(r.slots, r.item)
         && var s := r.slots[r.item];
            match p
            case Declaring => !s.stored.Published?
            case Intended => !s.stored.Published? && (s.installed.Absent? || AllDurableBefore(r.slots, r.item))
            case Storing => s.installed.Absent?
            case Stored => s.stored.Durable?
            case Installing => s.stored.Durable?
            case Completing => s.stored.Durable? && AllDurableBefore(r.slots, r.item)
            case _ => true
  }

  lemma SyncFirm(slots: seq<Slot>, d: Directory)
    requires Firm(slots)
    ensures Firm(SyncAll(slots, d))
    ensures forall i: nat :: QuietBehind(slots, i) ==> QuietBehind(SyncAll(slots, d), i)
    ensures forall i: nat :: AllDurableBefore(slots, i) ==> AllDurableBefore(SyncAll(slots, d), i)
  {
    var r := SyncAll(slots, d);
    forall i | 0 <= i < |slots|
      ensures (Claimed(r[i]) <==> Claimed(slots[i])) && (slots[i].stored.Durable? ==> r[i].stored.Durable?)
      ensures (r[i].complete.Absent? <==> slots[i].complete.Absent?) && (slots[i].complete.Durable? ==> r[i].complete.Durable?)
      ensures Quiet(slots[i]) ==> Quiet(r[i])
    {
    }
  }

  lemma SyncDurable(slots: seq<Slot>, i: nat)
    requires i <= |slots| && forall k | 0 <= k < i :: !slots[k].complete.Absent?
    ensures AllDurableBefore(SyncAll(slots, Records), i)
  {
  }

  lemma DecideSteady(c: Codec, b: Bounds, r: Run, p: Phase)
    requires Steady(c, b, r) && r.item < |r.slots| && Next(c, r.phase, r.slots[r.item]) == Some((p, Decide))
    requires r.phase == Checking ==> Within(b, r.began, r.item)
    ensures Steady(c, b, r.(phase := p))
  {
    DecideOk(c, r, p);
    hide Within, Quiet, Restorable, Proper, Grows, OnlySynced, SameClaim;
    if r.phase == Checking && r.slots[r.item].complete.Absent? {
      assert TakesUp(b, r.began, r.slots, r.item);
    }
  }

  lemma PutSteady(c: Codec, b: Bounds, r: Run, p: Phase, s: Slot)
    requires Steady(c, b, r) && r.item < |r.slots| && Next(c, r.phase, r.slots[r.item]) == Some((p, Put(s)))
    requires r.phase == Checking ==> Within(b, r.began, r.item)
    ensures Steady(c, b, r.(slots := r.slots[r.item := s], phase := p))
  {
    PutOk(c, r, p, s);
    hide RunOk, Within, Quiet, Restorable;
    NotComplete(c, b, r, p, s);
    if r.phase == Checking {
      assert TakesUp(b, r.began, r.slots, r.item);
    }
  }

  /** An item that is changed was not complete, like nothing before it and, while firm,
      nothing behind it. */
  lemma NotComplete(c: Codec, b: Bounds, r: Run, p: Phase, s: Slot)
    requires RunOk(c, r) && Firm(r.slots) && r.item < |r.slots| && Next(c, r.phase, r.slots[r.item]) == Some((p, Put(s)))
    ensures r.slots[r.item].complete.Absent? && forall k | 0 <= k < r.item :: !r.slots[k].complete.Absent?
    ensures forall k | r.item < k < |r.slots| :: r.slots[k].complete.Absent?
    ensures forall k | r.item < k < |r.slots| :: Quiet(r.slots[k])
    ensures r.phase == Intended ==> r.slots[r.item].installed.Absent?
  {
    PutKeeps(c, r.phase, r.slots[r.item]);
    hide Quiet, Proper, Restorable, Grows, OnlySynced, SameClaim;
  }

  lemma SyncSteady(c: Codec, b: Bounds, r: Run, p: Phase, d: Directory)
    requires Steady(c, b, r) && r.item < |r.slots| && Next(c, r.phase, r.slots[r.item]) == Some((p, Sync(d)))
    ensures Steady(c, b, r.(slots := SyncAll(r.slots, d), phase := p))
  {
    SyncOk(c, r, p, d);
    SyncFirm(r.slots, d);
    BeforeComplete(c, r);
    SyncDurable(r.slots, r.item);
    if p == Finished {
      ClosedCareful(c, b, r);
    }
    hide RunOk, Within, Quiet, Restorable, Firm, QuietBehind, AllDurableBefore, Careful;
  }

  lemma BeforeComplete(c: Codec, r: Run)
    requires RunOk(c, r) && r.item < |r.slots|
    ensures forall k | 0 <= k < r.item :: !r.slots[k].complete.Absent?
  {
  }

  /** Once an item is closed, whatever comes next finds everything before it durable. */
  lemma ClosedCareful(c: Codec, b: Bounds, r: Run)
    requires RunOk(c, r) && r.item < |r.slots| && r.phase == Closing && QuietBehind(r.slots, r.item)
    ensures Careful(b, r.began, SyncAll(r.slots, Records))
  {
    var slots' := SyncAll(r.slots, Records);
    hide Within, Restorable;
    forall i: nat | i < |slots'| && TakesUp(b, r.began, slots', i)
      ensures !slots'[i].stored.Published? && AllDurableBefore(slots', i)
    {
      assert i > r.item;
      assert Quiet(r.slots[i]);
    }
  }

  lemma SteadyOn(c: Codec, b: Bounds, r: Run)
    requires Steady(c, b, r)
    ensures Steady(c, b, Advance(c, b, r))
  {
    hide RunOk, Next, Within, Firm, Careful, QuietBehind, AllDurableBefore;
    if r.item < |r.slots| {
      if r.phase == Finished {
        OnwardOk(c, r);
      } else if Next(c, r.phase, r.slots[r.item]).Some? {
        var (p, deed) := Next(c, r.phase, r.slots[r.item]).value;
        if r.phase != Checking || Within(b, r.began, r.item) {
          match deed
          case Decide => DecideSteady(c, b, r, p);
          case Put(s) => PutSteady(c, b, r, p, s);
          case Sync(d) => SyncSteady(c, b, r, p, d);
        }
      }
    }
  }

  lemma {:induction false} RanSteady(c: Codec, b: Bounds, slots: seq<Slot>, k: nat)
    requires AllProper(c, slots) && Firm(slots) && Careful(b, slots, slots)
    ensures Steady(c, b, Ran(c, b, Begin(slots), k)) && Ran(c, b, Begin(slots), k).began == slots
  {
    hide RunOk, Firm, Careful, Steady, Advance, AllProper;
    RanOk(c, b, slots, k);
    if k == 0 {
      BeginSteady(c, b, slots);
    } else {
      RanSteady(c, b, slots, k - 1);
      SteadyOn(c, b, Ran(c, b, Begin(slots), k - 1));
    }
  }

  lemma BeginSteady(c: Codec, b: Bounds, slots: seq<Slot>)
    requires RunOk(c, Begin(slots)) && Firm(slots) && Careful(b, slots, slots)
    ensures Steady(c, b, Begin(slots))
  {
    hide RunOk, Firm, Careful;
  }

  /** A page that starts carefully leaves what is claimed durable, wherever it ends. */
  lemma RunsSafely(c: Codec, b: Bounds, slots: seq<Slot>, slots': seq<Slot>)
    requires AllProper(c, slots) && Runs(c, b, slots, slots')
    requires Firm(slots) && Careful(b, slots, slots)
    ensures Firm(slots')
  {
    var r: Run :| Reached(c, b, r) && r.began == slots && r.slots == slots';
    var k: nat :| Ran(c, b, Begin(r.began), k) == r;
    RanSteady(c, b, slots, k);
  }

  // ----- the other half: careless pages

  /** A page passes the completed items before the first that is not. */
  lemma {:induction false} Passes(c: Codec, b: Bounds, slots: seq<Slot>, i: nat)
    requires AllProper(c, slots) && Firm(slots) && i < |slots| && forall k | 0 <= k < |slots| :: InPlace(slots[k])
    requires forall k | 0 <= k < i :: !slots[k].complete.Absent?
    ensures Reached(c, b, Run(slots, slots, i, Checking))
  {
    if i == 0 {
      ReachedStart(c, b, slots);
    } else {
      Passes(c, b, slots, i - 1);
      assert Proper(c, slots[i - 1]) && Claimed(slots[i - 1]) && InPlace(slots[i - 1]);
      ReachedOn(c, b, Run(slots, slots, i - 1, Checking));
      ReachedOn(c, b, Run(slots, slots, i - 1, Finished));
    }
  }

  /** The steps that take a representation that is there for granted. */
  lemma TakenSteps(c: Codec, s: Slot)
    requires Restorable(c, s) && InPlace(s) && s.installed.Absent?
    ensures Next(c, Intended, s) == Some((Stored, Decide))
    ensures Next(c, Stored, s) == Some((Installing, Put(s.(installed := Published(())))))
  {
  }

  /** A page comes to an item that is not complete and has its intent on record. */
  lemma ComesTo(c: Codec, b: Bounds, slots: seq<Slot>, i: nat) returns (slots': seq<Slot>)
    requires AllProper(c, slots) && Firm(slots) && forall k | 0 <= k < |slots| :: InPlace(slots[k])
    requires TakesUp(b, slots, slots, i)
    ensures Reached(c, b, Run(slots, slots', i, Intended)) && |slots'| == |slots|
    ensures var s, s' := slots[i], slots'[i];
            s'.stored == s.stored && s'.reviewed == s.reviewed && s'.original == s.original && (s'.installed.Absent? <==> s.installed.Absent?)
    ensures !slots[i].intent.Absent? ==> slots' == slots
  {
    Passes(c, b, slots, i);
    var s := slots[i];
    assert InPlace(s) && s.complete.Absent? && Within(b, slots, i);
    hide Reached, Firm, AllProper, Within;
    if s.intent.Absent? {
      var t := s.(intent := Published(()));
      assert Next(c, Checking, s) == Some((Declaring, Put(t))) && Next(c, Declaring, t) == Some((Intended, Sync(Records)));
      ReachedStep(c, b, Run(slots, slots, i, Checking), Declaring, Put(t));
      ReachedStep(c, b, Run(slots, slots[i := t], i, Declaring), Intended, Sync(Records));
      slots' := SyncAll(slots[i := t], Records);
    } else {
      ReachedStep(c, b, Run(slots, slots, i, Checking), Intended, Decide);
      slots' := slots;
    }
  }

  lemma RunsTo(c: Codec, b: Bounds, r: Run)
    requires Reached(c, b, r)
    ensures Runs(c, b, r.began, r.slots)
  {
  }

  /** A page that takes up an item whose representation was only published can end with
      it recorded as installed. */
  lemma TakesStored(c: Codec, b: Bounds, slots: seq<Slot>, i: nat) returns (slots': seq<Slot>)
    requires AllProper(c, slots) && Firm(slots) && forall k | 0 <= k < |slots| :: InPlace(slots[k]) && Restores(c, slots[k])
    requires i < |slots| && TakesUp(b, slots, slots, i) && slots[i].stored.Published?
    ensures Runs(c, b, slots, slots') && !Firm(slots')
  {
    var before := ComesTo(c, b, slots, i);
    var s := before[i];
    assert Proper(c, slots[i]) && InPlace(slots[i]) && Restores(c, slots[i]) && !Claimed(slots[i]);
    TakenSteps(c, s);
    hide Reached, Next, AllProper, TakesUp;
    var t := s.(installed := Published(()));
    ReachedStep(c, b, Run(slots, before, i, Intended), Stored, Decide);
    ReachedStep(c, b, Run(slots, before, i, Stored), Installing, Put(t));
    slots' := before[i := t];
    RunsTo(c, b, Run(slots, slots', i, Installing));
    assert Claimed(slots'[i]) && slots'[i].stored.Published?;
  }

  /** A page that takes up an item recorded as installed, behind a completion that was
      only published, can end with that item completed too. */
  lemma CompletesAhead(c: Codec, b: Bounds, slots: seq<Slot>, i: nat) returns (slots': seq<Slot>)
    requires AllProper(c, slots) && Firm(slots) && forall k | 0 <= k < |slots| :: InPlace(slots[k])
    requires i < |slots| && TakesUp(b, slots, slots, i)
    requires !slots[i].intent.Absent? && !slots[i].installed.Absent? && !AllDurableBefore(slots, i)
    ensures Runs(c, b, slots, slots') && !Firm(slots')
  {
    var before := ComesTo(c, b, slots, i);
    var s := slots[i];
    assert Proper(c, s) && InPlace(s) && Claimed(s);
    var k :| 0 <= k < i && !slots[k].complete.Durable?;
    var t := s.(complete := Published(()));
    assert Next(c, Intended, s) == Some((Completing, Decide)) && Next(c, Completing, s) == Some((Closing, Put(t)));
    hide Reached, Next, AllProper, TakesUp;
    ReachedStep(c, b, Run(slots, slots, i, Intended), Completing, Decide);
    ReachedStep(c, b, Run(slots, slots, i, Completing), Closing, Put(t));
    slots' := slots[i := t];
    RunsTo(c, b, Run(slots, slots', i, Closing));
    assert !slots'[i].complete.Absent? && slots'[k] == slots[k];
  }

  /** A page and then a loss of power leave the records in order, wherever the page ended,
      exactly when before the page what is claimed was durable and the page started
      carefully. */
  lemma PageSurvivesPowerLoss(c: Codec, b: Bounds, slots: seq<Slot>)
    requires AllProper(c, slots) && forall i | 0 <= i < |slots| :: InPlace(slots[i]) && Restores(c, slots[i])
    ensures (forall slots', slots'' | Runs(c, b, slots, slots') && LosePower(slots', slots'') :: InOrder(slots''))
            <==> Firm(slots) && Careful(b, slots, slots)
  {
    hide Runs, LosePower, InOrder, Firm, AllProper, TakesUp, AllDurableBefore;
    if Firm(slots) && Careful(b, slots, slots) {
      forall slots', slots'' | Runs(c, b, slots, slots') && LosePower(slots', slots'') ensures InOrder(slots'') {
        RunsSafely(c, b, slots, slots');
        PowerLossKeepsOrder(slots');
      }
    } else if !Firm(slots) {
      ReachedStart(c, b, slots);
      PowerLossKeepsOrder(slots);
    } else {
      var i: nat :| i < |slots| && TakesUp(b, slots, slots, i)
                    && !(!slots[i].stored.Published?
                         && (slots[i].intent.Absent? || slots[i].installed.Absent? || AllDurableBefore(slots, i)));
      var slots';
      if slots[i].stored.Published? {
        slots' := TakesStored(c, b, slots, i);
      } else {
        slots' := CompletesAhead(c, b, slots, i);
      }
      PowerLossKeepsOrder(slots');
    }
  }

  /** A page that finds nothing awaiting a sync starts carefully. */
  lemma SettledIsCareful(b: Bounds, slots: seq<Slot>)
    requires Settled(slots) && InOrder(slots) && forall i | 0 <= i < |slots| :: !slots[i].stored.Published?
    ensures Firm(slots) && Careful(b, slots, slots)
  {
    forall i | 0 <= i < |slots| ensures !slots[i].complete.Published? {
      assert SyncSlot(slots[i], Records) == slots[i];
    }
  }

  /** Where a claimed representation was lost, no page gets past its item. */
  lemma NeverPassed(c: Codec, b: Bounds, slots: seq<Slot>, i: nat, r: Run)
    requires AllProper(c, slots) && i < |slots| && Claimed(slots[i]) && slots[i].stored.Absent?
    requires Reached(c, b, r) && r.began == slots
    ensures r.item <= i < |r.slots| && Claimed(r.slots[i]) && r.slots[i].stored.Absent?
  {
    ReachedOk(c, b, r);
    ClaimKept(c, r, i);
  }

  lemma ClaimKept(c: Codec, r: Run, i: nat)
    requires RunOk(c, r) && i < |r.began| && Claimed(r.began[i]) && r.began[i].stored.Absent?
    ensures r.item <= i < |r.slots| && Claimed(r.slots[i]) && r.slots[i].stored.Absent?
  {
    assert SameClaim(r.began[i], r.slots[i]);
  }

  // ----- the shortest runs in which a loss of power costs something

  /** An item as a page of its own leaves it after n steps. */
  function Alone(c: Codec, p: Phase, s: Slot, n: nat): (Phase, Slot)
    decreases n
  {
    if n == 0 || Next(c, p, s) == None then (p, s)
    else
      var (q, deed) := Next(c, p, s).value;
      Alone(c, q, match deed case Decide => s case Put(t) => t case Sync(d) => SyncSlot(s, d), n - 1)
  }

  /** The same between items that its syncs leave as they are. */
  lemma {:induction false} AloneRuns(c: Codec, b: Bounds, began: seq<Slot>, before: seq<Slot>, p: Phase, s: Slot, after: seq<Slot>, n: nat)
    requires Reached(c, b, Run(began, before + [s] + after, |before|, p))
    requires p == Checking ==> Within(b, began, |before|)
    requires AllDeedsLeave(c, p, s, before + after, n)
    ensures Runs(c, b, began, before + [Alone(c, p, s, n).1] + after)
    decreases n
  {
    hide Reached, Runs, Within, Next;
    var slots := before + [s] + after;
    if n == 0 || Next(c, p, s) == None {
      RunsTo(c, b, Run(began, slots, |before|, p));
    } else {
      var (q, deed) := Next(c, p, s).value;
      ReachedStep(c, b, Run(began, slots, |before|, p), q, deed);
      var t := match deed case Decide => s case Put(t) => t case Sync(d) => SyncSlot(s, d);
      var slots' := before + [t] + after;
      assert Perform(slots, |before|, deed) == slots' by {
        if deed.Sync? {
          forall i | 0 <= i < |slots| ensures SyncSlot(slots[i], deed.directory) == slots'[i] {
            assert i < |before| ==> slots[i] == (before + after)[i];
            assert i > |before| ==> slots[i] == (before + after)[i - 1];
          }
        }
      }
      AloneRuns(c, b, began, before, q, t, after, n - 1);
    }
  }

  /** No sync of the first n steps with the item changes these others. */
  predicate AllDeedsLeave(c: Codec, p: Phase, s: Slot, others: seq<Slot>, n: nat)
    decreases n
  {
    n == 0 || Next(c, p, s) == None ||
      (var (q, deed) := Next(c, p, s).value;
       && (deed.Sync? ==> forall i | 0 <= i < |others| :: SyncSlot(others[i], deed.directory) == others[i])
       && AllDeedsLeave(c, q, match deed case Decide => s case Put(t) => t case Sync(d) => SyncSlot(s, d), others, n - 1))
  }

  lemma StartsAt(c: Codec, b: Bounds, s: Slot, after: seq<Slot>)
    ensures Reached(c, b, Run([s] + after, [] + [s] + after, 0, Checking))
  {
    assert [] + [s] + after == [s] + after;
    ReachedStart(c, b, [s] + after);
  }

  lemma WithinFirst(b: Bounds, s: Slot, after: seq<Slot>)
    requires b.maxItems > 0 && |s.reviewed| <= b.maxBytes
    ensures Within(b, [s] + after, 0)
  {
  }

  /** A page that begins with this item is ended after n steps with it. */
  lemma FirstRuns(c: Codec, b: Bounds, s: Slot, after: seq<Slot>, n: nat)
    requires b.maxItems > 0 && |s.reviewed| <= b.maxBytes && AllDeedsLeave(c, Checking, s, after, n)
    ensures Runs(c, b, [s] + after, [Alone(c, Checking, s, n).1] + after)
  {
    StartsAt(c, b, s, after);
    WithinFirst(b, s, after);
    assert [] + after == after;
    hide Reached, Runs, Within, Alone, AllDeedsLeave;
    AloneRuns(c, b, [s] + after, [], Checking, s, after, n);
    assert [] + [Alone(c, Checking, s, n).1] + after == [Alone(c, Checking, s, n).1] + after;
  }

  /** An item with its intent and a representation. */
  function Represented(content: Bytes, folder: nat, stored: Mark<Bytes>, installed: Mark<()>, complete: Mark<()>): Slot {
    Slot(content, Some(content), folder, stored, Durable(()), installed, complete)
  }

  /** A page is killed between putting a representation in place and syncing its directory,
      the next one finds it and completes the item, and power fails. The completion is
      durable, the representation is gone, and no later page gets past the item. */
  lemma UnsyncedRepresentationLost(c: Codec, content: Bytes, folder: nat, b: Bounds)
    requires c.restore(c.compress(content)) == Some(content) && b.maxItems > 0 && |content| <= b.maxBytes
    ensures var stored := c.compress(content);
            var killed := Represented(content, folder, Published(stored), Absent, Absent);
            var finished := Represented(content, folder, Published(stored), Durable(()), Durable(()));
            var after := Represented(content, folder, Absent, Durable(()), Durable(()));
            && Runs(c, b, [Reviewed(content, folder)], [killed]) && Runs(c, b, [killed], [finished]) && LosePower([finished], [after])
            && forall b', r: Run | Reached(c, b', r) && r.began == [after] :: r.item == 0
  {
    var stored := c.compress(content);
    var s := Reviewed(content, folder);
    var killed := Represented(content, folder, Published(stored), Absent, Absent);
    var after := Represented(content, folder, Absent, Durable(()), Durable(()));
    FirstSteps(c, content, folder);
    FoundSteps(c, content, folder);
    FirstRuns(c, b, s, [], 3);
    FirstRuns(c, b, killed, [], 6);
    assert [s] + [] == [s] && [killed] + [] == [killed];
    assert [Represented(content, folder, Published(stored), Durable(()), Durable(()))] + [] ==
      [Represented(content, folder, Published(stored), Durable(()), Durable(()))];
    hide Runs, Reached, Alone, AllDeedsLeave;
    forall b', r: Run | Reached(c, b', r) && r.began == [after] ensures r.item == 0 {
      NeverPassed(c, b', [after], 0, r);
    }
  }

  lemma FirstSteps(c: Codec, content: Bytes, folder: nat)
    ensures var s := Reviewed(content, folder);
            && Alone(c, Checking, s, 3).1 == Represented(content, folder, Published(c.compress(content)), Absent, Absent)
            && AllDeedsLeave(c, Checking, s, [], 3)
  {
    var s := Reviewed(content, folder);
    var t, u := s.(intent := Published(())), s.(intent := Durable(()));
    assert Alone(c, Checking, s, 3) == Alone(c, Declaring, t, 2) == Alone(c, Intended, u, 1);
    assert AllDeedsLeave(c, Intended, u, [], 1) && AllDeedsLeave(c, Declaring, t, [], 2);
  }

  lemma FoundSteps(c: Codec, content: Bytes, folder: nat)
    requires c.restore(c.compress(content)) == Some(content)
    ensures var stored := Published(c.compress(content));
            var s := Represented(content, folder, stored, Absent, Absent);
            && Alone(c, Checking, s, 6).1 == Represented(content, folder, stored, Durable(()), Durable(()))
            && AllDeedsLeave(c, Checking, s, [], 6)
  {
    var stored := Published(c.compress(content));
    var s := Represented(content, folder, stored, Absent, Absent);
    var t, u := s.(installed := Published(())), s.(installed := Durable(()));
    assert Alone(c, Completing, u, 2) == Alone(c, Closing, u.(complete := Published(())), 1);
    assert AllDeedsLeave(c, Closing, u.(complete := Published(())), [], 1) && AllDeedsLeave(c, Completing, u, [], 2);
  }

  /** A page that passes one completed item is ended after n steps with the next. */
  lemma SecondRuns(c: Codec, b: Bounds, first: Slot, s: Slot, n: nat)
    requires !first.complete.Absent? && Restorable(c, first) && InPlace(first) && s.complete.Absent?
    requires b.maxItems > 0 && |s.reviewed| <= b.maxBytes && AllDeedsLeave(c, Checking, s, [first], n)
    ensures Runs(c, b, [first, s], [first, Alone(c, Checking, s, n).1])
  {
    var slots := [first, s];
    ReachedStart(c, b, slots);
    SecondWithin(b, first, s);
    assert Next(c, Checking, first) == Some((Finished, Decide));
    hide Reached, Runs, Within, Alone, AllDeedsLeave, Next;
    ReachedStep(c, b, Begin(slots), Finished, Decide);
    ReachedOn(c, b, Run(slots, slots, 0, Finished));
    assert [first] + [s] + [] == slots && [first] + [] == [first];
    AloneRuns(c, b, slots, [first], Checking, s, [], n);
    assert [first] + [Alone(c, Checking, s, n).1] + [] == [first, Alone(c, Checking, s, n).1];
  }

  lemma SecondWithin(b: Bounds, first: Slot, s: Slot)
    requires !first.complete.Absent? && b.maxItems > 0 && |s.reviewed| <= b.maxBytes
    ensures Within(b, [first, s], 0) && Within(b, [first, s], 1)
  {
    assert Open([first, s], 1) == 0 && OpenBytes([first, s], 1) == 0;
  }

  /** Four pages are killed between publishing a record and syncing it: a completion, then
      the intent, the installation and the completion of the next item, each taking the
      ones before for granted. Of the completions a loss of power may leave the second. */
  lemma CompletionOvertakes(c: Codec, x: Bytes, y: Bytes, folder: nat, b: Bounds)
    requires c.restore(c.compress(x)) == Some(x) && c.restore(c.compress(y)) == Some(y)
    requires b.maxItems > 0 && |x| <= b.maxBytes && |y| <= b.maxBytes
    ensures var first := Represented(x, folder, Durable(c.compress(x)), Durable(()), Published(()));
            var stored := Durable(c.compress(y));
            var intended := Reviewed(y, folder).(intent := Published(()));
            var installed := intended.(stored := stored, installed := Published(()));
            var completed := installed.(complete := Published(()));
            var lost := [first.(complete := Absent), Represented(y, folder, stored, Durable(()), Durable(()))];
            && Runs(c, b, [Reviewed(x, folder), Reviewed(y, folder)], [first, Reviewed(y, folder)])
            && Runs(c, b, [first, Reviewed(y, folder)], [first, intended])
            && Runs(c, b, [first, intended], [first, installed])
            && Runs(c, b, [first, installed], [first, completed])
            && LosePower([first, completed], lost) && !Prefix(lost)
  {
    var first := Represented(x, folder, Durable(c.compress(x)), Durable(()), Published(()));
    var next := Reviewed(y, folder);
    var intended := next.(intent := Published(()));
    var installed := intended.(stored := Durable(c.compress(y)), installed := Published(()));
    AllSteps(c, x, folder, next);
    FirstRuns(c, b, Reviewed(x, folder), [next], 7);
    assert [Reviewed(x, folder)] + [next] == [Reviewed(x, folder), next] && [first] + [next] == [first, next];
    NextSteps(c, y, folder, first);
    SecondRuns(c, b, first, next, 1);
    SecondRuns(c, b, first, intended, 4);
    SecondRuns(c, b, first, installed, 3);
    hide Runs, Alone, AllDeedsLeave;
    var completed := installed.(complete := Published(()));
    var lost := [first.(complete := Absent), Represented(y, folder, Durable(c.compress(y)), Durable(()), Durable(()))];
    assert LosesPower(first, lost[0]) && LosesPower(completed, lost[1]);
    assert lost[0].complete.Absent? && !lost[1].complete.Absent?;
  }

  lemma AllSteps(c: Codec, x: Bytes, folder: nat, other: Slot)
    requires c.restore(c.compress(x)) == Some(x)
    requires other.stored.Absent? && other.intent.Absent? && other.installed.Absent? && other.complete.Absent?
    ensures var s := Reviewed(x, folder);
            && Alone(c, Checking, s, 7).1 == Represented(x, folder, Durable(c.compress(x)), Durable(()), Published(()))
            && AllDeedsLeave(c, Checking, s, [other], 7)
  {
    var s := Reviewed(x, folder);
    var t, u := s.(intent := Published(())), s.(intent := Durable(()));
    var v, w := u.(stored := Published(c.compress(x))), u.(stored := Durable(c.compress(x)));
    var i, j := w.(installed := Published(())), w.(installed := Durable(()));
    assert Alone(c, Completing, j, 1).1 == j.(complete := Published(())) && AllDeedsLeave(c, Completing, j, [other], 1);
    assert Alone(c, Installing, i, 2) == Alone(c, Completing, j, 1) && AllDeedsLeave(c, Installing, i, [other], 2);
    assert Alone(c, Stored, w, 3) == Alone(c, Installing, i, 2) && AllDeedsLeave(c, Stored, w, [other], 3);
    assert Alone(c, Storing, v, 4) == Alone(c, Stored, w, 3) && AllDeedsLeave(c, Storing, v, [other], 4);
    assert Alone(c, Intended, u, 5) == Alone(c, Storing, v, 4) && AllDeedsLeave(c, Intended, u, [other], 5);
    assert Alone(c, Declaring, t, 6) == Alone(c, Intended, u, 5) && AllDeedsLeave(c, Declaring, t, [other], 6);
  }

  lemma NextSteps(c: Codec, y: Bytes, folder: nat, first: Slot)
    requires c.restore(c.compress(y)) == Some(y) && !first.stored.Published?
    ensures var next := Reviewed(y, folder);
            var intended := next.(intent := Published(()));
            var installed := intended.(stored := Durable(c.compress(y)), installed := Published(()));
            && Alone(c, Checking, next, 1).1 == intended && AllDeedsLeave(c, Checking, next, [first], 1)
            && Alone(c, Checking, intended, 4).1 == installed && AllDeedsLeave(c, Checking, intended, [first], 4)
            && Alone(c, Checking, installed, 3).1 == installed.(complete := Published(()))
            && AllDeedsLeave(c, Checking, installed, [first], 3)
  {
    var intended := Reviewed(y, folder).(intent := Published(()));
    var v, w := intended.(stored := Published(c.compress(y))), intended.(stored := Durable(c.compress(y)));
    var installed := w.(installed := Published(()));
    assert Alone(c, Stored, w, 1).1 == installed && AllDeedsLeave(c, Stored, w, [first], 1);
    assert Alone(c, Storing, v, 2) == Alone(c, Stored, w, 1) && AllDeedsLeave(c, Storing, v, [first], 2);
    assert Alone(c, Intended, intended, 3) == Alone(c, Storing, v, 2) && AllDeedsLeave(c, Intended, intended, [first], 3);
    assert Alone(c, Completing, installed, 1).1 == installed.(complete := Published(()));
    assert Alone(c, Intended, installed, 2) == Alone(c, Completing, installed, 1);
    assert AllDeedsLeave(c, Completing, installed, [first], 1) && AllDeedsLeave(c, Intended, installed, [first], 2);
  }
}
