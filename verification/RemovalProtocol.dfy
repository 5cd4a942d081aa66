/**
  Removal of verified originals, one write-ahead record at a time: the steps of a
  page, and what losses of power make of them. The process may be interrupted at
  every step and the machine may lose power at any time. What a directory entry is
  worth depends on its directory: one that was made or taken back is lost or undone
  by a loss of power unless the directory was synced since.
*/
module RemovalProtocol {
  import opened Marks
  import opened Wrappers

  /** An original: in place; unlinked, which a power loss may still undo; or
      durably gone. */
  datatype File = Present | Unlinked | Gone

  /** The receipt of a removal. */
  datatype Receipt = Receipt(removedBytes: nat, absentAfterOpenIntent: bool)

  /** Everything on disk about one planned item. `folder` is the directory of the
      original; `retired` is the manifest's record that the original is gone, with
      the bytes it says were removed; `complete` holds the receipt it was issued for. */
  datatype Slot = Slot(size: nat, folder: nat, file: File, intent: Mark<()>, retired: Mark<nat>,
                       receipt: Mark<Receipt>, complete: Mark<Receipt>)

  /** What can be synced: the directory of all records of the plan, the one of the
      manifest, or one that originals were in. */
  datatype Directory = Records | Manifest | Folder(folder: nat)

  function Planned(size: nat, folder: nat): Slot {
    Slot(size, folder, Present, Absent, Absent, Absent, Absent)
  }

  /** Syncing a directory makes its entries, and what was unlinked from it, durable. */
  function SyncSlot(s: Slot, d: Directory): Slot {
    match d
    case Records => s.(intent := Synced(s.intent), receipt := Synced(s.receipt), complete := Synced(s.complete))
    case Manifest => s.(retired := Synced(s.retired))
    case Folder(folder) => if s.folder == folder && s.file == Unlinked then s.(file := Gone) else s
  }

  function SyncAll(slots: seq<Slot>, d: Directory): (r: seq<Slot>)
    ensures |r| == |slots| && forall i | 0 <= i < |slots| :: r[i] == SyncSlot(slots[i], d)
  {
    seq(|slots|, i requires 0 <= i < |slots| => SyncSlot(slots[i], d))
  }

  /** What every state of an item keeps, whatever was lost: receipts only for
      originals that are durably gone, for their size or for nothing. */
  predicate Proper(s: Slot) {
    && (!s.receipt.Absent? ==>
          s.file == Gone && s.receipt.value.removedBytes == if s.receipt.value.absentAfterOpenIntent then 0 else s.size)
    && (!s.complete.Absent? ==> s.file == Gone)
    && (!s.receipt.Absent? && !s.complete.Absent? ==> s.complete.value == s.receipt.value)
    && (!s.retired.Absent? ==> s.file == Gone)
  }

  predicate AllProper(slots: seq<Slot>) {
    forall i | 0 <= i < |slots| :: Proper(slots[i])
  }

  /** What the summary demands of the records of an item. */
  predicate Consistent(s: Slot) {
    && (!s.receipt.Absent? ==>
          && !s.intent.Absent?
          && s.receipt.value.removedBytes == if s.receipt.value.absentAfterOpenIntent then 0 else s.size)
    && (!s.complete.Absent? ==> !s.receipt.Absent? && s.complete.value == s.receipt.value)
  }

  predicate AllConsistent(slots: seq<Slot>) {
    forall i | 0 <= i < |slots| :: Consistent(slots[i])
  }

  /** An original is only missing with an intent on record. */
  predicate Intact(s: Slot) {
    s.file != Present ==> !s.intent.Absent?
  }

  /** Every record that another one or a missing original relies on is there. */
  predicate Whole(slots: seq<Slot>) {
    AllConsistent(slots) && forall i | 0 <= i < |slots| :: Intact(slots[i])
  }

  /** A record that another one or a missing original relies on is durable. */
  predicate Firm(s: Slot) {
    && (s.file != Present ==> s.intent.Durable?)
    && (!s.complete.Absent? ==> s.receipt.Durable?)
  }

  predicate AllFirm(slots: seq<Slot>) {
    forall i | 0 <= i < |slots| :: Firm(slots[i])
  }

  /** No record awaits the sync of its directory. */
  predicate Settled(slots: seq<Slot>) {
    forall i | 0 <= i < |slots| :: SyncSlot(slots[i], Records) == slots[i]
  }

  /** Nothing recorded is taken back or altered. */
  predicate Grows(s: Slot, s': Slot) {
    && s'.size == s.size && s'.folder == s.folder
    && Held(s.intent, s'.intent) && Held(s.retired, s'.retired)
    && Held(s.receipt, s'.receipt) && Held(s.complete, s'.complete)
    && (s.file == Gone ==> s'.file == Gone) && (s.file == Unlinked ==> s'.file != Present)
  }

  predicate OnlySynced(s: Slot, s': Slot) {
    && Grows(s, s')
    && (s.intent.Absent? ==> s'.intent.Absent?) && (s.retired.Absent? ==> s'.retired.Absent?)
    && (s.receipt.Absent? ==> s'.receipt.Absent?) && (s.complete.Absent? ==> s'.complete.Absent?)
    && (s.file == Present ==> s'.file == Present)
  }

  function Credit(s: Slot): nat {
    if s.receipt.Absent? then 0 else s.receipt.value.removedBytes
  }

  function Uncredited(s: Slot): nat {
    if !s.receipt.Absent? && s.receipt.value.absentAfterOpenIntent then s.size else 0
  }

  function Receipted(s: Slot): nat {
    if s.receipt.Absent? then 0 else s.size
  }

  function Confirmed(slots: seq<Slot>): nat {
    if slots == [] then 0 else Confirmed(slots[..|slots| - 1]) + Credit(slots[|slots| - 1])
  }

  function Unknown(slots: seq<Slot>): nat {
    if slots == [] then 0 else Unknown(slots[..|slots| - 1]) + Uncredited(slots[|slots| - 1])
  }

  function ReceiptedBytes(slots: seq<Slot>): nat {
    if slots == [] then 0 else ReceiptedBytes(slots[..|slots| - 1]) + Receipted(slots[|slots| - 1])
  }

  function Completed(slots: seq<Slot>): nat {
    if slots == [] then 0 else Completed(slots[..|slots| - 1]) + (if slots[|slots| - 1].complete.Absent? then 0 else 1)
  }

  function Bytes(slots: seq<Slot>, i: nat, j: nat): nat
    requires i <= j <= |slots|
  {
    if i == j then 0 else Bytes(slots, i, j - 1) + slots[j - 1].size
  }

  // ----- the steps of a page

  /** What a page was asked for. */
  datatype Bounds = Bounds(start: nat, maxItems: nat, maxBytes: nat)

  /** How far a page has come with the item in hand: each step makes at most one
      change on disk, and between two of them the page may end. */
  datatype Phase =
    | Checking
    | Declaring
    | Intended
    | Syncing
    | Recording(present: bool)
    | Noting(present: bool)
    | Receipting(present: bool)
    | Settling
    | Completing
    | Closing
    | Finished

  /** What a step does: nothing, one change of the item, or the sync of a directory. */
  datatype Deed = Decide | Put(slot: Slot) | Sync(directory: Directory)

  /** The next step with an item; none when it is finished or a check stops the page. */
  function Next(p: Phase, s: Slot): Option<(Phase, Deed)> {
    match p
    case Checking =>
      if s.file != Present && s.intent.Absent? then None
      else if !s.complete.Absent? then (if s.file == Present then None else Some((Finished, Decide)))
      else if !s.intent.Absent? then Some((Intended, Decide))
      else Some((Declaring, Put(s.(intent := Published(())))))
    case Declaring => Some((Intended, Sync(Records)))
    case Intended =>
      if !s.receipt.Absent? then (if s.file == Present then None else Some((Completing, Decide)))
      else if s.file != Present then Some((Recording(false), Sync(Folder(s.folder))))
      else if s.retired.Absent? then Some((Syncing, Put(s.(file := Unlinked))))
      else None
    case Syncing => Some((Recording(true), Sync(Folder(s.folder))))
    case Recording(present) =>
      if s.retired.Absent? then Some((Noting(present), Put(s.(retired := Published(if present then s.size else 0)))))
      else Some((Receipting(present), Decide))
    case Noting(present) => Some((Receipting(present), Sync(Manifest)))
    case Receipting(present) =>
      Some((Settling, Put(s.(receipt := Published(Receipt(if present then s.size else 0, !present))))))
    case Settling => Some((Completing, Sync(Records)))
    case Completing =>
      if s.file == Present || s.receipt.Absent? then None
      else Some((Closing, Put(s.(complete := Published(s.receipt.value)))))
    case Closing => Some((Finished, Sync(Records)))
    case Finished => None
  }

  function Perform(slots: seq<Slot>, i: nat, deed: Deed): (r: seq<Slot>)
    requires i < |slots|
    ensures |r| == |slots|
  {
    match deed
    case Decide => slots
    case Put(s) => slots[i := s]
    case Sync(d) => SyncAll(slots, d)
  }

  /** The budgets of a page cover item i. */
  predicate Within(b: Bounds, slots: seq<Slot>, i: nat) {
    b.start <= i < |slots| && i - b.start < b.maxItems && Bytes(slots, b.start, i + 1) <= b.maxBytes
  }

  datatype Run = Run(slots: seq<Slot>, item: nat, phase: Phase)

  /** One step of a page; none when its budgets are used up or a check stops it. */
  function Advance(b: Bounds, r: Run): Run {
    if r.item >= |r.slots| || (r.phase == Checking && !Within(b, r.slots, r.item)) then r
    else if r.phase == Finished then Run(r.slots, r.item + 1, Checking)
    else
      match Next(r.phase, r.slots[r.item])
      case None => r
      case Some(step) => Run(Perform(r.slots, r.item, step.1), r.item, step.0)
  }

  function Ran(b: Bounds, r: Run, k: nat): Run {
    if k == 0 then r else Advance(b, Ran(b, r, k - 1))
  }

  function Begin(b: Bounds, slots: seq<Slot>): Run {
    Run(slots, b.start, Checking)
  }

  /** What a page that began with some slots can have come to. */
  ghost predicate Reached(b: Bounds, slots: seq<Slot>, r: Run) {
    exists k: nat :: Ran(b, Begin(b, slots), k) == r
  }

  /** What a page, ending anywhere, may make of the slots: it starts with a summary,
      which inconsistent records stop. */
  ghost predicate Runs(b: Bounds, slots: seq<Slot>, slots': seq<Slot>) {
    slots' == slots || (AllConsistent(slots) && exists r :: Reached(b, slots, r) && r.slots == slots')
  }

  lemma ReachedStart(b: Bounds, slots: seq<Slot>)
    ensures Reached(b, slots, Begin(b, slots))
  {
    assert Ran(b, Begin(b, slots), 0) == Begin(b, slots);
  }

  lemma ReachedOn(b: Bounds, slots: seq<Slot>, r: Run)
    requires Reached(b, slots, r)
    ensures Reached(b, slots, Advance(b, r))
  {
    var k: nat :| Ran(b, Begin(b, slots), k) == r;
    assert Ran(b, Begin(b, slots), k + 1) == Advance(b, r);
  }

  lemma ReachedStep(b: Bounds, slots: seq<Slot>, r: Run, p: Phase, deed: Deed)
    requires Reached(b, slots, r) && r.item < |r.slots| && (r.phase == Checking ==> Within(b, r.slots, r.item))
    requires Next(r.phase, r.slots[r.item]) == Some((p, deed))
    ensures p != Checking && Reached(b, slots, Run(Perform(r.slots, r.item, deed), r.item, p))
  {
    ReachedOn(b, slots, r);
  }

  // ----- what every step keeps

  /** What holds of the item in hand in each phase. */
  predicate Fits(p: Phase, s: Slot) {
    && (p != Checking ==> !s.intent.Absent?)
    && match p
       case Checking => true
       case Declaring => s.file == Present
       case Intended => s.complete.Absent?
       case Syncing => s.file == Unlinked
       case Recording(_) => s.file == Gone && s.receipt.Absent? && s.complete.Absent?
       case Noting(_) => s.file == Gone && s.receipt.Absent? && s.complete.Absent?
       case Receipting(_) => s.file == Gone && s.receipt.Absent? && s.complete.Absent?
       case Settling => !s.receipt.Absent? && s.complete.Absent?
       case Completing => !s.receipt.Absent? && s.complete.Absent?
       case Closing => !s.receipt.Absent? && !s.complete.Absent?
       case Finished => !s.complete.Absent?
  }

  predicate RunFits(r: Run) {
    AllProper(r.slots) && (r.item < |r.slots| ==> Fits(r.phase, r.slots[r.item]))
  }

  /** One step with the item in hand, other than a sync. */
  lemma PutKeeps(p: Phase, s: Slot)
    requires Proper(s) && Fits(p, s) && Next(p, s).Some? && Next(p, s).value.1.Put?
    ensures var s' := Next(p, s).value.1.slot;
            && Proper(s') && Grows(s, s') && Fits(Next(p, s).value.0, s')
            && (Consistent(s) ==> Consistent(s')) && (Intact(s) <==> Intact(s'))
  {
  }

  lemma SyncKeeps(s: Slot, d: Directory)
    ensures OnlySynced(s, SyncSlot(s, d)) && (Proper(s) ==> Proper(SyncSlot(s, d)))
    ensures Consistent(s) <==> Consistent(SyncSlot(s, d))
    ensures Intact(s) <==> Intact(SyncSlot(s, d))
  {
  }

  lemma SyncFits(p: Phase, s: Slot)
    requires Proper(s) && Fits(p, s) && Next(p, s).Some? && !Next(p, s).value.1.Put?
    ensures Next(p, s).value.1.Decide? ==> Fits(Next(p, s).value.0, s)
    ensures Next(p, s).value.1.Sync? ==> Fits(Next(p, s).value.0, SyncSlot(s, Next(p, s).value.1.directory))
  {
  }

  /** Every step keeps the slots proper and in order, takes nothing back, and neither
      spoils nor mends what other slots rely on. */
  lemma StepKeeps(b: Bounds, r: Run)
    requires RunFits(r)
    ensures var r' := Advance(b, r);
            && RunFits(r') && |r'.slots| == |r.slots|
            && (r' == r || (r'.item == r.item && r'.phase != Checking) || (r'.item == r.item + 1 && r.phase == Finished))
            && (forall i | 0 <= i < |r.slots| ::
                  && Grows(r.slots[i], r'.slots[i])
                  && (i != r.item || r' == r || r.phase == Finished ==> OnlySynced(r.slots[i], r'.slots[i]))
                  && (Consistent(r.slots[i]) ==> Consistent(r'.slots[i])) && (Intact(r.slots[i]) <==> Intact(r'.slots[i])))
  {
    var r' := Advance(b, r);
    if r.item < |r.slots| && r.phase != Finished && Next(r.phase, r.slots[r.item]).Some? {
      var (p, deed) := Next(r.phase, r.slots[r.item]).value;
      if deed.Put? {
        PutKeeps(r.phase, r.slots[r.item]);
      } else {
        SyncFits(r.phase, r.slots[r.item]);
      }
      hide Next, Fits, Proper, Consistent, Intact, Grows, OnlySynced, SyncSlot, Within;
      forall i | 0 <= i < |r.slots|
        ensures deed.Sync? ==> OnlySynced(r.slots[i], r'.slots[i]) && Proper(r'.slots[i])
      {
      }
    }
  }

  /** What a page may make of one slot. */
  predicate SlotOn(s: Slot, s': Slot, touched: bool) {
    && Grows(s, s') && (touched || OnlySynced(s, s'))
    && (Consistent(s) ==> Consistent(s')) && (Intact(s) <==> Intact(s'))
  }

  lemma SlotOnOn(s: Slot, s': Slot, s'': Slot, before: bool, now: bool, touched: bool)
    requires SlotOn(s, s', before) && SlotOn(s', s'', now) && (before || now ==> touched)
    ensures SlotOn(s, s'', touched)
  {
  }

  /** The page came to item i and did something with it. */
  predicate Touched(b: Bounds, r: Run, i: nat) {
    b.start <= i && (i < r.item || (i == r.item && r.phase != Checking))
  }

  /** What a page may make of the slots: the items it left behind are complete. */
  ghost predicate AllOn(b: Bounds, slots: seq<Slot>, r: Run) {
    && |r.slots| == |slots| && b.start <= r.item
    && (forall i: nat | i < |slots| :: SlotOn(slots[i], r.slots[i], Touched(b, r, i)))
    && (forall i | b.start <= i < r.item && i < |slots| :: !r.slots[i].complete.Absent?)
  }

  lemma AllOnOn(b: Bounds, slots: seq<Slot>, r: Run)
    requires RunFits(r) && AllOn(b, slots, r)
    ensures RunFits(Advance(b, r)) && AllOn(b, slots, Advance(b, r))
  {
    var r' := Advance(b, r);
    StepKeeps(b, r);
    hide Advance, OnlySynced, Consistent, Intact, Proper;
    forall i: nat | i < |slots| ensures SlotOn(slots[i], r'.slots[i], Touched(b, r', i)) {
      assert SlotOn(r.slots[i], r'.slots[i], i == r.item && r' != r && r.phase != Finished);
      assert SlotOn(slots[i], r.slots[i], Touched(b, r, i));
      SlotOnOn(slots[i], r.slots[i], r'.slots[i], Touched(b, r, i), i == r.item && r' != r && r.phase != Finished, Touched(b, r', i));
    }
  }

  /** The same over all the steps of a page, wherever it ends. */
  lemma {:induction false} RanKeeps(b: Bounds, slots: seq<Slot>, k: nat)
    requires AllProper(slots)
    ensures var r := Ran(b, Begin(b, slots), k); RunFits(r) && AllOn(b, slots, r)
  {
    if k > 0 {
      RanKeeps(b, slots, k - 1);
      AllOnOn(b, slots, Ran(b, Begin(b, slots), k - 1));
      hide RunFits, AllOn, Advance;
    }
  }

  lemma ReachedKeeps(b: Bounds, slots: seq<Slot>, r: Run)
    requires AllProper(slots) && Reached(b, slots, r)
    ensures RunFits(r) && AllOn(b, slots, r)
  {
    var k: nat :| Ran(b, Begin(b, slots), k) == r;
    RanKeeps(b, slots, k);
  }

  /** A page, ended anywhere, takes nothing back, and neither spoils nor mends the
      records that others rely on. */
  lemma RunsKeep(b: Bounds, slots: seq<Slot>, slots': seq<Slot>)
    requires AllProper(slots) && Runs(b, slots, slots')
    ensures AllProper(slots') && |slots'| == |slots| && forall i | 0 <= i < |slots| :: Grows(slots[i], slots'[i])
    ensures Whole(slots') <==> Whole(slots)
  {
    if slots' != slots {
      var r :| Reached(b, slots, r) && r.slots == slots';
      ReachedKeeps(b, slots, r);
    }
  }

  lemma ReachedSizes(b: Bounds, slots: seq<Slot>, r: Run)
    requires AllProper(slots) && Reached(b, slots, r)
    ensures |r.slots| == |slots| && forall i | 0 <= i < |slots| :: r.slots[i].size == slots[i].size
    ensures r.item < |slots| && Whole(slots) ==> Intact(r.slots[r.item])
  {
    hide RunFits, Consistent, Intact, OnlySynced;
    ReachedKeeps(b, slots, r);
    forall i: nat | i < |slots|
      ensures r.slots[i].size == slots[i].size && (Intact(slots[i]) <==> Intact(r.slots[i]))
    {
      assert SlotOn(slots[i], r.slots[i], Touched(b, r, i));
    }
  }

  /** A page that came to an item and stopped there. */
  lemma PageDone(b: Bounds, slots: seq<Slot>, r: Run)
    requires AllProper(slots) && AllConsistent(slots) && Reached(b, slots, r) && r.phase == Checking && r.item <= |slots|
    ensures AllConsistent(r.slots) && |r.slots| == |slots| && b.start <= r.item
    ensures forall i | b.start <= i < r.item :: !r.slots[i].complete.Absent?
    ensures forall i | r.item <= i < |slots| :: OnlySynced(slots[i], r.slots[i])
  {
    hide RunFits, Consistent, Intact, OnlySynced;
    ReachedKeeps(b, slots, r);
    forall i: nat | i < |slots|
      ensures (r.item <= i ==> OnlySynced(slots[i], r.slots[i])) && Consistent(r.slots[i])
    {
      assert SlotOn(slots[i], r.slots[i], Touched(b, r, i)) && Consistent(slots[i]);
    }
  }

  lemma PageRuns(b: Bounds, slots: seq<Slot>, r: Run)
    requires Reached(b, slots, r) && AllConsistent(slots)
    ensures Runs(b, slots, r.slots)
  {
  }

  // ----- losses of power

  predicate FileLost(f: File, f': File) {
    if f == Unlinked then f' != Unlinked else f' == f
  }

  /** What was not synced survives or does not; afterwards all that is there is durable. */
  predicate LosesPower(s: Slot, s': Slot) {
    && s'.size == s.size && s'.folder == s.folder && FileLost(s.file, s'.file)
    && Lost(s.intent, s'.intent) && Lost(s.retired, s'.retired)
    && Lost(s.receipt, s'.receipt) && Lost(s.complete, s'.complete)
  }

  predicate LosePower(slots: seq<Slot>, slots': seq<Slot>) {
    |slots'| == |slots| && forall i | 0 <= i < |slots| :: LosesPower(slots[i], slots'[i])
  }

  /** The same, and the directory of the records is lost with all that is in it: it was
      created by a page, and its own entry was never synced. */
  predicate LosesRecords(s: Slot, s': Slot) {
    && s'.size == s.size && s'.folder == s.folder && FileLost(s.file, s'.file) && Lost(s.retired, s'.retired)
    && s'.intent.Absent? && s'.receipt.Absent? && s'.complete.Absent?
  }

  predicate LoseRecords(slots: seq<Slot>, slots': seq<Slot>) {
    |slots'| == |slots| && forall i | 0 <= i < |slots| :: LosesRecords(slots[i], slots'[i])
  }

  /** The loss of power that every unlink survived, but no record that was not durable,
      or of those the completions alone. */
  function Worst(s: Slot, completeSurvives: bool): Slot {
    s.(file := if s.file == Unlinked then Gone else s.file, intent := WorstMark(s.intent), retired := WorstMark(s.retired),
       receipt := WorstMark(s.receipt), complete := if completeSurvives then Synced(s.complete) else WorstMark(s.complete))
  }

  /** Every loss of power leaves what is relied on exactly when that was durable. */
  lemma PowerLossKeepsWhole(slots: seq<Slot>)
    requires AllProper(slots)
    ensures (forall slots' | LosePower(slots, slots') :: Whole(slots')) <==> AllFirm(slots)
  {
    if !AllFirm(slots) {
      var worst := seq(|slots|, i requires 0 <= i < |slots| => Worst(slots[i], true));
      assert LosePower(slots, worst);
      var i :| 0 <= i < |slots| && !Firm(slots[i]);
      assert !(Intact(worst[i]) && Consistent(worst[i]));
    }
  }

  /** Every loss of power that takes the directory of the records leaves what is relied
      on exactly when all originals were in place. */
  lemma RecordsLost(slots: seq<Slot>)
    ensures (forall slots' | LoseRecords(slots, slots') :: Whole(slots')) <==> forall i | 0 <= i < |slots| :: slots[i].file == Present
  {
    if i :| 0 <= i < |slots| && slots[i].file != Present {
      var worst := seq(|slots|, i requires 0 <= i < |slots| =>
        Worst(slots[i], true).(intent := Absent, receipt := Absent, complete := Absent));
      assert LoseRecords(slots, worst);
      assert !Intact(worst[i]);
    }
  }

  /** The totals over the receipts survive every loss of power exactly when no receipt
      of an original with any bytes was only published. */
  lemma TotalsSurvive(slots: seq<Slot>)
    requires AllProper(slots)
    ensures (forall slots' | LosePower(slots, slots') :: Confirmed(slots') == Confirmed(slots) && Unknown(slots') == Unknown(slots))
            <==> forall i | 0 <= i < |slots| :: slots[i].receipt.Published? ==> slots[i].size == 0
  {
    if forall i | 0 <= i < |slots| :: slots[i].receipt.Published? ==> slots[i].size == 0 {
      forall slots' | LosePower(slots, slots') ensures Confirmed(slots') == Confirmed(slots) && Unknown(slots') == Unknown(slots) {
        forall i | 0 <= i < |slots|
          ensures Credit(slots'[i]) == Credit(slots[i]) && Uncredited(slots'[i]) == Uncredited(slots[i])
        {
          assert LosesPower(slots[i], slots'[i]);
        }
        SameTotals(slots, slots');
      }
    } else {
      var worst := seq(|slots|, i requires 0 <= i < |slots| => Worst(slots[i], false));
      assert LosePower(slots, worst);
      var i :| 0 <= i < |slots| && slots[i].receipt.Published? && slots[i].size > 0;
      FewerTotals(slots, worst, i);
    }
  }

  lemma {:induction false} SameTotals(slots: seq<Slot>, slots': seq<Slot>)
    requires |slots'| == |slots|
    requires forall i | 0 <= i < |slots| :: Credit(slots'[i]) == Credit(slots[i]) && Uncredited(slots'[i]) == Uncredited(slots[i])
    ensures Confirmed(slots') == Confirmed(slots) && Unknown(slots') == Unknown(slots)
  {
    hide Credit, Uncredited;
    if slots != [] {
      SameTotals(slots[..|slots| - 1], slots'[..|slots| - 1]);
    }
  }

  lemma {:induction false} FewerTotals(slots: seq<Slot>, slots': seq<Slot>, i: int)
    requires AllProper(slots) && |slots'| == |slots| && i < |slots|
    requires forall k | 0 <= k < |slots| :: slots'[k] == Worst(slots[k], false)
    requires i >= 0 ==> slots[i].receipt.Published? && slots[i].size > 0
    ensures Confirmed(slots') <= Confirmed(slots) && Unknown(slots') <= Unknown(slots)
    ensures i >= 0 ==> Confirmed(slots') + Unknown(slots') < Confirmed(slots) + Unknown(slots)
    decreases |slots|
  {
    if slots != [] {
      var last := |slots| - 1;
      WorstCredit(slots[last]);
      hide Worst, Credit, Uncredited, Proper;
      FewerTotals(slots[..last], slots'[..last], if i == last then -1 else i);
    }
  }

  lemma WorstCredit(s: Slot)
    requires Proper(s)
    ensures Credit(Worst(s, false)) <= Credit(s) && Uncredited(Worst(s, false)) <= Uncredited(s)
    ensures s.receipt.Published? && s.size > 0 ==>
              Credit(Worst(s, false)) + Uncredited(Worst(s, false)) < Credit(s) + Uncredited(s)
  {
  }

  // ----- pages and losses of power

  /** Item i is the first from j on that the page has to do something about. */
  predicate TakesUp(b: Bounds, slots: seq<Slot>, j: nat, i: nat) {
    && j <= i < |slots| && Within(b, slots, i) && slots[i].complete.Absent?
    && forall k | j <= k < i :: !slots[k].complete.Absent?
  }

  /** That item has no intent and no receipt that were only published: the page would
      take them for granted. */
  predicate Careful(b: Bounds, slots: seq<Slot>, j: nat) {
    forall i: nat | i < |slots| && TakesUp(b, slots, j, i) :: !slots[i].intent.Published? && !slots[i].receipt.Published?
  }

  lemma SettledIsCareful(b: Bounds, slots: seq<Slot>)
    requires Settled(slots) && Whole(slots)
    ensures AllFirm(slots) && Careful(b, slots, b.start)
  {
    forall i | 0 <= i < |slots| ensures Firm(slots[i]) && !slots[i].intent.Published? && !slots[i].receipt.Published? {
      assert SyncSlot(slots[i], Records) == slots[i] && Intact(slots[i]) && Consistent(slots[i]);
    }
  }

  /** What holds throughout a page that keeps what is relied on durable. */
  predicate Steady(b: Bounds, r: Run) {
    && RunFits(r) && AllFirm(r.slots)
    && match r.phase
       case Checking => Careful(b, r.slots, r.item)
       case Finished => Careful(b, r.slots, r.item + 1)
       case Declaring => true
       case Settling => true
       case Closing => true
       case Completing => r.item < |r.slots| && r.slots[r.item].receipt.Durable?
       case _ => r.item < |r.slots| && r.slots[r.item].intent.Durable? && !r.slots[r.item].receipt.Published?
  }

  /** Once the directory of records was synced, nothing in it awaits a sync. */
  lemma SyncSettles(slots: seq<Slot>)
    ensures Settled(SyncAll(slots, Records)) && (AllFirm(slots) ==> AllFirm(SyncAll(slots, Records)))
  {
    var r := SyncAll(slots, Records);
    forall i | 0 <= i < |slots|
      ensures SyncSlot(r[i], Records) == r[i] && (Firm(slots[i]) ==> Firm(r[i]))
    {
    }
  }

  lemma SyncFirm(slots: seq<Slot>, d: Directory)
    requires AllFirm(slots)
    ensures AllFirm(SyncAll(slots, d))
  {
    forall i | 0 <= i < |slots| ensures Firm(SyncSlot(slots[i], d)) {
      assert Firm(slots[i]);
    }
  }

  /** One change of the item in hand keeps what is relied on durable. */
  lemma PutFirm(p: Phase, s: Slot)
    requires Proper(s) && Firm(s) && Fits(p, s) && Next(p, s).Some? && Next(p, s).value.1.Put?
    requires p == Completing ==> s.receipt.Durable?
    requires !p.Checking? && !p.Completing? ==> s.intent.Durable? && !s.receipt.Published?
    ensures var (p', s') := (Next(p, s).value.0, Next(p, s).value.1.slot);
            && Firm(s')
            && (p'.Declaring? || p'.Settling? || p'.Closing? || (s'.intent.Durable? && !s'.receipt.Published?))
  {
  }

  lemma SteadyOn(b: Bounds, r: Run)
    requires Steady(b, r)
    ensures Steady(b, Advance(b, r))
  {
    StepKeeps(b, r);
    var r' := Advance(b, r);
    if r.item < |r.slots| && r' != r {
      if r.phase == Finished {
        assert r'.slots == r.slots;
      } else {
        var s := r.slots[r.item];
        var (p, deed) := Next(r.phase, s).value;
        assert Firm(s);
        match deed
        case Decide => CarefulOn(b, r);
        case Put(s') =>
          PutFirm(r.phase, s);
          hide Careful, Within, Proper, RunFits, Fits;
        case Sync(d) =>
          SyncFirm(r.slots, d);
          SyncSettles(r.slots);
          SettledCareful(b, r'.slots, r.item + 1);
          hide Careful, Within, Proper, RunFits, Fits, AllFirm;
      }
    }
  }

  lemma SettledCareful(b: Bounds, slots: seq<Slot>, j: nat)
    ensures Settled(slots) ==> Careful(b, slots, j)
  {
    if Settled(slots) {
      forall i | 0 <= i < |slots| ensures !slots[i].intent.Published? && !slots[i].receipt.Published? {
        assert SyncSlot(slots[i], Records) == slots[i];
      }
    }
  }

  /** Passing a completed item leaves the first item to do something about the same;
      another item is that item. */
  lemma CarefulOn(b: Bounds, r: Run)
    requires Steady(b, r) && r.item < |r.slots| && (r.phase == Checking ==> Within(b, r.slots, r.item))
    requires Next(r.phase, r.slots[r.item]).Some? && Next(r.phase, r.slots[r.item]).value.1.Decide?
    ensures Steady(b, r.(phase := Next(r.phase, r.slots[r.item]).value.0))
  {
    var s := r.slots[r.item];
    SyncFits(r.phase, s);
    assert Firm(s);
    if r.phase == Checking {
      if !s.complete.Absent? {
        forall i: nat | i < |r.slots| && TakesUp(b, r.slots, r.item + 1, i)
          ensures !r.slots[i].intent.Published? && !r.slots[i].receipt.Published?
        {
          assert TakesUp(b, r.slots, r.item, i);
        }
      } else {
        assert TakesUp(b, r.slots, r.item, r.item);
      }
    }
  }

  lemma {:induction false} RanSteady(b: Bounds, slots: seq<Slot>, k: nat)
    requires AllProper(slots) && AllFirm(slots) && Careful(b, slots, b.start)
    ensures Steady(b, Ran(b, Begin(b, slots), k))
  {
    if k > 0 {
      RanSteady(b, slots, k - 1);
      SteadyOn(b, Ran(b, Begin(b, slots), k - 1));
    }
  }

  /** A page that starts carefully leaves what is relied on durable, wherever it ends. */
  lemma RunsSafely(b: Bounds, slots: seq<Slot>, slots': seq<Slot>)
    requires AllProper(slots) && Runs(b, slots, slots')
    requires AllFirm(slots) && Careful(b, slots, b.start)
    ensures AllFirm(slots')
  {
    if slots' != slots {
      var r :| Reached(b, slots, r) && r.slots == slots';
      var k: nat :| Ran(b, Begin(b, slots), k) == r;
      RanSteady(b, slots, k);
    }
  }

  /** Only a page that ends between publishing a record and syncing it leaves records
      that await their sync. */
  lemma {:induction false} OnlyBetween(b: Bounds, slots: seq<Slot>, k: nat)
    requires Settled(slots)
    ensures var r := Ran(b, Begin(b, slots), k);
            r.phase in {Declaring, Settling, Closing} || Settled(r.slots)
  {
    if k > 0 {
      OnlyBetween(b, slots, k - 1);
      var r := Ran(b, Begin(b, slots), k - 1);
      SettledOn(b, r);
    }
  }

  lemma SettledOn(b: Bounds, r: Run)
    requires r.phase in {Declaring, Settling, Closing} || Settled(r.slots)
    ensures var r' := Advance(b, r); r'.phase in {Declaring, Settling, Closing} || Settled(r'.slots)
  {
    SyncSettles(r.slots);
    var r' := Advance(b, r);
    if r.item < |r.slots| && r' != r && r.phase !in {Declaring, Settling, Closing} {
      hide Within;
      forall i | 0 <= i < |r.slots|
        ensures r'.phase !in {Declaring, Settling, Closing} ==> SyncSlot(r'.slots[i], Records) == r'.slots[i]
      {
        assert SyncSlot(r.slots[i], Records) == r.slots[i];
      }
    }
  }

  /** A page passes the completed items before the first that is not. */
  lemma {:induction false} Passes(b: Bounds, slots: seq<Slot>, i: nat)
    requires AllProper(slots) && AllFirm(slots)
    requires b.start <= i < |slots| && Within(b, slots, i) && forall k | b.start <= k < i :: !slots[k].complete.Absent?
    ensures Reached(b, slots, Run(slots, i, Checking))
    decreases i
  {
    if i == b.start {
      ReachedStart(b, slots);
    } else {
      WithinBefore(b, slots, i);
      Passes(b, slots, i - 1);
      assert Proper(slots[i - 1]) && Firm(slots[i - 1]);
      ReachedOn(b, slots, Run(slots, i - 1, Checking));
      ReachedOn(b, slots, Run(slots, i - 1, Finished));
    }
  }

  lemma WithinBefore(b: Bounds, slots: seq<Slot>, i: nat)
    requires b.start < i && Within(b, slots, i)
    ensures Within(b, slots, i - 1)
  {
  }

  /** A page that takes up an item with an intent or a receipt that was only published
      can end with its original unlinked, or the item completed, on the strength of it. */
  lemma Unsettles(b: Bounds, slots: seq<Slot>, i: nat) returns (slots': seq<Slot>)
    requires AllProper(slots) && AllFirm(slots) && TakesUp(b, slots, b.start, i)
    requires slots[i].intent.Published? || slots[i].receipt.Published?
    ensures Runs(b, slots, slots') && !AllFirm(slots')
  {
    Passes(b, slots, i);
    var s := slots[i];
    assert Proper(s) && Firm(s);
    ReachedOn(b, slots, Run(slots, i, Checking));
    ReachedOn(b, slots, Run(slots, i, Intended));
    FirmIsWhole(slots);
    if s.intent.Published? {
      slots' := slots[i := s.(file := Unlinked)];
      assert Reached(b, slots, Run(slots', i, Syncing));
    } else {
      ReachedOn(b, slots, Run(slots, i, Completing));
      slots' := slots[i := s.(complete := Published(s.receipt.value))];
      assert Reached(b, slots, Run(slots', i, Closing));
    }
    assert !Firm(slots'[i]);
  }

  lemma FirmIsWhole(slots: seq<Slot>)
    requires AllProper(slots) && AllFirm(slots)
    ensures Whole(slots)
  {
    forall i | 0 <= i < |slots| ensures Consistent(slots[i]) && Intact(slots[i]) {
      assert Proper(slots[i]) && Firm(slots[i]);
    }
  }

  /** A page and then a loss of power leave every record that is relied on, wherever the
      page ended, exactly when before the page all of these were durable and the first
      item it had to do something about had no intent and no receipt that were only
      published. */
  lemma PageSurvivesPowerLoss(b: Bounds, slots: seq<Slot>)
    requires AllProper(slots)
    ensures (forall slots', slots'' | Runs(b, slots, slots') && LosePower(slots', slots'') :: Whole(slots''))
            <==> AllFirm(slots) && Careful(b, slots, b.start)
  {
    hide Runs, LosePower, Whole, AllFirm, AllProper;
    if AllFirm(slots) && Careful(b, slots, b.start) {
      forall slots', slots'' | Runs(b, slots, slots') && LosePower(slots', slots'') ensures Whole(slots'') {
        RunsKeep(b, slots, slots');
        RunsSafely(b, slots, slots');
        PowerLossKeepsWhole(slots');
      }
    } else if !AllFirm(slots) {
      Stays(b, slots);
      PowerLossKeepsWhole(slots);
    } else {
      var i: nat :| i < |slots| && TakesUp(b, slots, b.start, i) && (slots[i].intent.Published? || slots[i].receipt.Published?);
      var slots' := Unsettles(b, slots, i);
      RunsKeep(b, slots, slots');
      PowerLossKeepsWhole(slots');
    }
  }

  lemma Stays(b: Bounds, slots: seq<Slot>)
    ensures Runs(b, slots, slots)
  {
  }

  /** All that a page keeps, wherever it ends. */
  lemma PageKeeps(b: Bounds, slots: seq<Slot>, slots': seq<Slot>)
    requires AllProper(slots) && (slots' == slots || Runs(b, slots, slots'))
    ensures Runs(b, slots, slots') && |slots'| == |slots| && (Whole(slots) ==> AllConsistent(slots))
    ensures forall i | 0 <= i < |slots| :: Grows(slots[i], slots'[i])
    ensures Whole(slots') <==> Whole(slots)
    ensures AllFirm(slots) && Careful(b, slots, b.start) ==> AllFirm(slots')
  {
    RunsKeep(b, slots, slots');
    if AllFirm(slots) && Careful(b, slots, b.start) {
      RunsSafely(b, slots, slots');
    }
  }

  /** A page, or a loss of power that leaves the directory of the records or takes it. */
  datatype Event = Paged(bounds: Bounds) | PowerLost | AllRecordsLost

  ghost predicate Happens(e: Event, slots: seq<Slot>, slots': seq<Slot>) {
    match e
    case Paged(b) => Runs(b, slots, slots')
    case PowerLost => LosePower(slots, slots')
    case AllRecordsLost => LoseRecords(slots, slots')
  }

  /** An original is gone without an intent, or completed without a receipt, for good. */
  predicate Broken(s: Slot) {
    s.file == Gone && (s.intent.Absent? || (s.complete.Durable? && s.receipt.Absent?))
  }

  lemma BrokenByLoss(s: Slot, s': Slot)
    requires Proper(s) && (LosesPower(s, s') || LosesRecords(s, s')) && !(Consistent(s') && Intact(s'))
    ensures Broken(s')
  {
  }

  /** What a loss of power spoils, it breaks. */
  lemma LossBreaks(slots: seq<Slot>, slots': seq<Slot>)
    requires AllProper(slots) && (LosePower(slots, slots') || LoseRecords(slots, slots')) && !Whole(slots')
    ensures exists i :: 0 <= i < |slots'| && Broken(slots'[i])
  {
    var i :| 0 <= i < |slots'| && !(Consistent(slots'[i]) && Intact(slots'[i]));
    assert Proper(slots[i]) && (LosesPower(slots[i], slots'[i]) || LosesRecords(slots[i], slots'[i]));
    BrokenByLoss(slots[i], slots'[i]);
  }

  lemma StaysBroken(e: Event, slots: seq<Slot>, slots': seq<Slot>, i: nat)
    requires AllProper(slots) && i < |slots| && Broken(slots[i]) && Happens(e, slots, slots')
    ensures AllProper(slots') && |slots'| == |slots| && Broken(slots'[i])
  {
    match e
    case Paged(b) =>
      if slots' != slots {
        var r :| Reached(b, slots, r) && r.slots == slots';
        ReachedKeeps(b, slots, r);
        assert SlotOn(slots[i], r.slots[i], Touched(b, r, i));
      }
    case _ =>
      forall k | 0 <= k < |slots| ensures Proper(slots'[k]) {
        assert Proper(slots[k]);
      }
  }

  /** Where something relied on was lost, the plan is never finished: no sequence of pages,
      each ended anywhere, and of further losses of power leads to slots whose summary
      succeeds with every item complete. */
  lemma {:induction false} NeverFinishes(events: seq<Event>, states: seq<seq<Slot>>, i: nat)
    requires |states| == |events| + 1 && AllProper(states[0]) && i < |states[0]| && Broken(states[0][i])
    requires forall n | 0 <= n < |events| :: Happens(events[n], states[n], states[n + 1])
    ensures var last := states[|events|];
            !Whole(last) && !(AllConsistent(last) && forall k | 0 <= k < |last| :: !last[k].complete.Absent?)
    decreases |events|
  {
    if events == [] {
      assert Proper(states[0][i]) && !(Consistent(states[0][i]) && Intact(states[0][i]));
    } else {
      hide Happens, Broken, AllProper, AllConsistent;
      StaysBroken(events[0], states[0], states[1], i);
      NeverFinishes(events[1..], states[1..], i);
    }
  }

  // ----- the shortest runs in which a loss of power costs something

  /** A page over one item after n steps with it. */
  function Alone(p: Phase, s: Slot, n: nat): (Phase, Slot)
    decreases n
  {
    if n == 0 || Next(p, s) == None then (p, s)
    else
      var (q, deed) := Next(p, s).value;
      Alone(q, Perform([s], 0, deed)[0], n - 1)
  }

  lemma {:induction false} AloneReached(b: Bounds, s: Slot, p: Phase, t: Slot, n: nat)
    requires b.start == 0 && b.maxItems > 0 && t.size <= b.maxBytes && AllProper([t]) && Fits(p, t)
    requires Reached(b, [s], Run([t], 0, p)) && AllConsistent([s])
    ensures Runs(b, [s], [Alone(p, t, n).1])
    decreases n
  {
    hide Next, Perform, Reached, Runs, Advance, Fits, AllProper, Consistent;
    if n == 0 || Next(p, t) == None {
      PageRuns(b, [s], Run([t], 0, p));
    } else {
      var next := AloneOn(b, t, p);
      ReachedOn(b, [s], Run([t], 0, p));
      AloneReached(b, s, next.0, next.1, n - 1);
    }
  }

  lemma AloneOn(b: Bounds, t: Slot, p: Phase) returns (next: (Phase, Slot))
    requires b.start == 0 && b.maxItems > 0 && t.size <= b.maxBytes && AllProper([t]) && Fits(p, t) && Next(p, t).Some?
    ensures var (q, deed) := Next(p, t).value; next == (q, Perform([t], 0, deed)[0])
    ensures Advance(b, Run([t], 0, p)) == Run([next.1], 0, next.0)
    ensures AllProper([next.1]) && Fits(next.0, next.1) && next.1.size == t.size
  {
    BytesOne([t], 0);
    StepKeeps(b, Run([t], 0, p));
    var (q, deed) := Next(p, t).value;
    hide Fits, Proper, Consistent, OnlySynced;
    assert [t][0] == t;
    next := (q, Perform([t], 0, deed)[0]);
    assert Perform([t], 0, deed) == [next.1];
  }

  lemma BytesOne(slots: seq<Slot>, i: nat)
    requires i < |slots|
    ensures Bytes(slots, i, i + 1) == slots[i].size && Bytes(slots, i, i) == 0
  {
  }

  lemma RunsAlone(s: Slot, maxBytes: nat, n: nat)
    requires s.size <= maxBytes && Proper(s) && Consistent(s)
    ensures Runs(Bounds(0, 1, maxBytes), [s], [Alone(Checking, s, n).1])
  {
    var b := Bounds(0, 1, maxBytes);
    ReachedStart(b, [s]);
    AloneReached(b, s, Checking, s, n);
  }

  /** A page is killed between publishing an intent and syncing it, the next one takes
      the intent for granted and is killed when it has unlinked the original, and power
      fails. The original and its intent are gone, and no later page does anything. */
  lemma UnsyncedIntentLost(size: nat, folder: nat, maxBytes: nat)
    requires size <= maxBytes
    ensures var planned := Planned(size, folder);
            var killed := planned.(intent := Published(()));
            var resumed := killed.(file := Unlinked);
            var after := planned.(file := Gone);
            var b := Bounds(0, 1, maxBytes);
            && Runs(b, [planned], [killed]) && Runs(b, [killed], [resumed]) && LosePower([resumed], [after])
            && forall b', slots | Runs(b', [after], slots) :: slots == [after]
  {
    var planned := Planned(size, folder);
    var killed := planned.(intent := Published(()));
    RunsAlone(planned, maxBytes, 1);
    RunsAlone(killed, maxBytes, 2);
    assert Alone(Checking, planned, 1) == Alone(Declaring, killed, 0);
    assert Alone(Checking, killed, 2) == Alone(Intended, killed, 1) == Alone(Syncing, killed.(file := Unlinked), 0);
    var after := planned.(file := Gone);
    forall b', slots | Runs(b', [after], slots) ensures slots == [after] {
      Stuck(b', after, slots);
    }
  }

  /** A page stops at a missing original without an intent. */
  lemma Stuck(b: Bounds, s: Slot, slots: seq<Slot>)
    requires !Intact(s) && Runs(b, [s], slots)
    ensures slots == [s]
  {
    if slots != [s] {
      var r :| Reached(b, [s], r) && r.slots == slots;
      var k: nat :| Ran(b, Begin(b, [s]), k) == r;
      StuckAfter(b, s, k);
    }
  }

  lemma {:induction false} StuckAfter(b: Bounds, s: Slot, k: nat)
    requires !Intact(s)
    ensures Ran(b, Begin(b, [s]), k) == Begin(b, [s])
  {
    if k > 0 {
      StuckAfter(b, s, k - 1);
    }
  }

  /** An original that is gone, with its intent and its retirement on record. */
  function Removed(size: nat, folder: nat, receipt: Mark<Receipt>, complete: Mark<Receipt>): Slot {
    Slot(size, folder, Gone, Durable(()), Durable(size), receipt, complete)
  }

  /** A page is killed between publishing a receipt and syncing it, the next one takes
      the receipt for granted and is killed when it has published the completion, and
      power fails: the completion may survive alone. No later page gets past its summary. */
  lemma UnsyncedReceiptLost(size: nat, folder: nat, maxBytes: nat)
    requires size <= maxBytes
    ensures var receipt := Receipt(size, false);
            var killed := Removed(size, folder, Published(receipt), Absent);
            var resumed := Removed(size, folder, Published(receipt), Published(receipt));
            var after := Removed(size, folder, Absent, Durable(receipt));
            var b := Bounds(0, 1, maxBytes);
            && Runs(b, [Planned(size, folder)], [killed]) && Runs(b, [killed], [resumed]) && LosePower([resumed], [after])
            && forall b', slots | Runs(b', [after], slots) :: slots == [after]
  {
    Killed(size, folder, maxBytes);
    var killed := Removed(size, folder, Published(Receipt(size, false)), Absent);
    RunsAlone(killed, maxBytes, 3);
    assert Alone(Checking, killed, 3) == Alone(Intended, killed, 2) == Alone(Completing, killed, 1)
        == Alone(Closing, killed.(complete := Published(Receipt(size, false))), 0);
    var after := Removed(size, folder, Absent, Durable(Receipt(size, false)));
    assert !Consistent([after][0]);
  }

  lemma Killed(size: nat, folder: nat, maxBytes: nat)
    requires size <= maxBytes
    ensures Runs(Bounds(0, 1, maxBytes), [Planned(size, folder)], [Removed(size, folder, Published(Receipt(size, false)), Absent)])
  {
    var planned := Planned(size, folder);
    var declared := planned.(intent := Durable(()));
    var gone := declared.(file := Gone);
    RunsAlone(planned, maxBytes, 7);
    assert Alone(Checking, planned, 7) == Alone(Declaring, planned.(intent := Published(())), 6) == Alone(Intended, declared, 5);
    assert Alone(Intended, declared, 5) == Alone(Syncing, declared.(file := Unlinked), 4) == Alone(Recording(true), gone, 3);
    assert Alone(Recording(true), gone, 3) == Alone(Noting(true), gone.(retired := Published(size)), 2)
        == Alone(Receipting(true), gone.(retired := Durable(size)), 1)
        == Alone(Settling, Removed(size, folder, Published(Receipt(size, false)), Absent), 0);
  }

  /** An original that is gone with its intent on record and no receipt: the page that
      takes it up completes it without credit. */
  lemma CompletedUncredited(size: nat, folder: nat, maxBytes: nat)
    requires size <= maxBytes
    ensures var none := Durable(Receipt(0, true));
            Runs(Bounds(0, 1, maxBytes), [Removed(size, folder, Absent, Absent)], [Removed(size, folder, none, none)])
  {
    var lost, none := Removed(size, folder, Absent, Absent), Receipt(0, true);
    RunsAlone(lost, maxBytes, 8);
    hide Runs, Reached, Ran;
    assert Alone(Checking, lost, 8) == Alone(Intended, lost, 7) == Alone(Recording(false), lost, 6) == Alone(Receipting(false), lost, 5);
    SettlesAlone(lost, none);
  }

  lemma SettlesAlone(s: Slot, receipt: Receipt)
    requires s.file == Gone && s.intent.Durable? && s.complete.Absent? && receipt == Receipt(0, true)
    ensures Alone(Receipting(false), s, 5).1 == s.(receipt := Durable(receipt), complete := Durable(receipt))
  {
    var receipted := s.(receipt := Durable(receipt));
    assert Alone(Receipting(false), s, 5) == Alone(Settling, s.(receipt := Published(receipt)), 4) == Alone(Completing, receipted, 3);
    assert Alone(Completing, receipted, 3) == Alone(Closing, receipted.(complete := Published(receipt)), 2)
        == Alone(Finished, receipted.(complete := Durable(receipt)), 1);
  }

  /** The same kill, a page with nothing to write that reports the receipt, and a loss of
      power that takes it: the next page completes the item, without credit. */
  lemma UnsyncedCreditLost(size: nat, folder: nat, maxBytes: nat)
    requires 0 < size <= maxBytes
    ensures var killed := Removed(size, folder, Published(Receipt(size, false)), Absent);
            var lost := Removed(size, folder, Absent, Absent);
            var none := Durable(Receipt(0, true));
            var after := Removed(size, folder, none, none);
            var b := Bounds(0, 1, maxBytes);
            && Runs(b, [Planned(size, folder)], [killed]) && Runs(Bounds(0, 1, size - 1), [killed], [killed])
            && Confirmed([killed]) == size && LosePower([killed], [lost])
            && Runs(b, [lost], [after]) && Confirmed([after]) == 0 && Unknown([after]) == size
  {
    Killed(size, folder, maxBytes);
    CompletedUncredited(size, folder, maxBytes);
    hide Runs;
  }
}
