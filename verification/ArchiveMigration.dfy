/**
  Additive archive pages as the source performs them. Wherever a page ends, it has taken
  steps of the protocol; no original is ever touched, and nothing is recorded as
  installed that was not read back.
*/
module ArchiveMigration {
  import opened Marks
  import opened MigrationProtocol
  import opened Wrappers

  datatype Error = Interrupted | PageRequired | OriginalChanged | RepresentationChanged

  type Outcome<+T> = Result<T, Error>

  const MAX_ITEMS := 64
  const MAX_PAGE_BYTES := 8 * 1024 * 1024 * 1024

  datatype Page = Page(processed: nat, completed: nat, complete: bool, sourceBytes: nat)

  predicate PageOk(items: nat, b: Bounds) {
    0 < items <= MAX_ITEMS && 0 < b.maxItems <= MAX_ITEMS && 0 < b.maxBytes <= MAX_PAGE_BYTES
  }

  /** The item can be installed and read back: its original is in place, what is compressed
      from it restores, and its representation is there if the records say so. */
  predicate Usable(c: Codec, s: Slot) {
    InPlace(s) && Restores(c, s) && (Claimed(s) ==> !s.stored.Absent?)
  }

  predicate AllUsable(c: Codec, slots: seq<Slot>) {
    forall i | 0 <= i < |slots| :: Usable(c, slots[i])
  }

  /** What an item is at fault for when a page stops at it with this error. */
  predicate Blames(c: Codec, e: Error, s: Slot) {
    match e
    case Interrupted => true
    case OriginalChanged => !InPlace(s)
    case RepresentationChanged => !Restores(c, s) || (Claimed(s) && s.stored.Absent?)
    case PageRequired => false
  }

  /** A page over these slots goes as far as `next`: its budgets cover the items before
      that were not complete, and not that one. */
  predicate Stops(b: Bounds, slots: seq<Slot>, next: nat) {
    && next <= |slots| && Open(slots, next) <= b.maxItems && OpenBytes(slots, next) <= b.maxBytes
    && (next < |slots| ==>
          slots[next].complete.Absent?
          && (Open(slots, next) == b.maxItems || OpenBytes(slots, next) + |slots[next].reviewed| > b.maxBytes))
  }

  class Migration {
    const codec: Codec
    var slots: seq<Slot>
    /** The slots as the page found them, what it was asked for, and how far it is. */
    ghost var began: seq<Slot>
    ghost var bounds: Bounds
    ghost var item: nat
    ghost var phase: Phase

    ghost predicate Valid()
      reads `slots
    {
      AllProper(codec, slots)
    }

    /** A page is at item i: what it did so far are the steps of a page. */
    ghost predicate Going(i: nat)
      reads this
    {
      && AllProper(codec, began) && item == i < |slots| == |began|
      && Reached(codec, bounds, Run(began, slots, item, phase)) && (phase == Checking ==> Within(bounds, began, i))
    }

    /** What is known of the item in hand. */
    lemma InHand(i: nat)
      requires Going(i)
      ensures Valid() && item == i < |slots| == |began| && Fits(codec, phase, slots[i])
      ensures phase == Checking ==> (slots[i].complete.Absent? <==> began[i].complete.Absent?)
      ensures slots[i].reviewed == began[i].reviewed && slots[i].original == began[i].original
      ensures Restores(codec, slots[i]) <==> Restores(codec, began[i])
      ensures phase == Checking ==>
                (Claimed(slots[i]) <==> Claimed(began[i])) && (slots[i].stored.Absent? <==> began[i].stored.Absent?)
    {
      ReachedOk(codec, bounds, Run(began, slots, item, phase));
      hide AllProper, Reached;
      if phase == Checking {
        assert OnlySynced(began[i], slots[i]);
      }
    }

    /** The next step with item i is this deed and leads to that phase. */
    ghost predicate Due(i: nat, p: Phase, deed: Deed)
      requires i < |slots|
      reads `slots, `phase
    {
      Next(codec, phase, slots[i]) == Some((p, deed))
    }

    constructor (codec: Codec, contents: seq<(Bytes, nat)>)
      ensures Valid() && this.codec == codec && |slots| == |contents|
      ensures forall i | 0 <= i < |contents| :: slots[i] == Reviewed(contents[i].0, contents[i].1)
    {
      this.codec := codec;
      slots := seq(|contents|, i requires 0 <= i < |contents| => Reviewed(contents[i].0, contents[i].1));
      began, bounds, item, phase := [], Bounds(0, 0), 0, Checking;
    }

    method Point(calm: bool) returns (r: Outcome<()>)
      ensures calm ==> r.Done?
      ensures r.Raised? ==> r.error == Interrupted
    {
      var luck: bool := *;
      r := if calm || luck then Done(()) else Raised(Interrupted);
    }

    /** One change on disk of the item in hand. */
    method Change(i: nat, ghost p: Phase, s: Slot)
      requires Going(i) && Due(i, p, Put(s))
      modifies `slots, `phase
      ensures Going(i) && slots == old(slots)[i := s] && phase == p
    {
      hide AllProper, Reached, Next, Within;
      ReachedStep(codec, bounds, Run(began, slots, item, phase), p, Put(s));
      slots := slots[i := s];
      phase := p;
    }

    /** Sync a directory: everything in it becomes durable. */
    method SyncDirectory(i: nat, ghost p: Phase, d: Directory)
      requires Going(i) && Due(i, p, Sync(d))
      modifies `slots, `phase
      ensures Going(i) && slots == SyncAll(old(slots), d) && phase == p
    {
      hide AllProper, Reached, Next, Within;
      ReachedStep(codec, bounds, Run(began, slots, item, phase), p, Sync(d));
      slots := SyncAll(slots, d);
      phase := p;
    }

    /** A step that only decides how to go on. */
    ghost method GoOn(i: nat, p: Phase)
      requires Going(i) && Due(i, p, Decide)
      modifies `phase
      ensures Going(i) && phase == p
    {
      hide AllProper, Reached, Next, Within;
      ReachedStep(codec, bounds, Run(began, slots, item, phase), p, Decide);
      phase := p;
    }

    /** Publish a complete immutable record, then sync its directory, which makes all
        other records durable too. */
    method Exclusive(i: nat, ghost p: Phase, ghost q: Phase, s: Slot, calm: bool) returns (r: Outcome<()>)
      requires Going(i) && Due(i, p, Put(s)) && Next(codec, p, s) == Some((q, Sync(Records)))
      modifies `slots, `phase
      ensures Going(i) && (calm ==> r.Done?) && (r.Raised? ==> r.error == Interrupted)
      ensures r.Done? ==> slots == SyncAll(old(slots)[i := s], Records) && phase == q
    {
      hide Going, Due, Next, Reached, AllProper, Within, Fits, SyncSlot;
      Here(i);
      Change(i, p, s);
      var _ :- Point(calm);
      ItIsDue(i, q, Sync(Records));
      SyncDirectory(i, q, Records);
      r := Done(());
    }

    lemma Here(i: nat)
      requires Going(i)
      ensures item == i < |slots| == |began|
    {
    }

    lemma ItIsDue(i: nat, p: Phase, deed: Deed)
      requires i < |slots| && Next(codec, phase, slots[i]) == Some((p, deed))
      ensures Due(i, p, deed)
    {
    }

    /** Store the representation, unless there is one, and make it durable. What is found
        is taken for granted. */
    method Store(i: nat, calm: bool) returns (r: Outcome<()>)
      requires Going(i) && phase == Intended && slots[i].installed.Absent?
      modifies `slots, `phase
      ensures Going(i) && (calm ==> r.Done?) && (r.Raised? ==> r.error == Interrupted)
      ensures r.Done? ==> phase == Stored
    {
      hide Going, Reached, AllProper, Within;
      InHand(i);
      if slots[i].stored.Absent? {
        Change(i, Storing, slots[i].(stored := Published(codec.compress(slots[i].original.value))));
        var _ :- Point(calm);
        SyncDirectory(i, Stored, Folder(slots[i].folder));
      } else {
        GoOn(i, Stored);
      }
      r := Done(());
    }

    /** Have the representation stored, read it back, record that it is installed; or read
        back what was installed before. */
    method Represent(i: nat, calm: bool) returns (r: Outcome<()>)
      requires Going(i) && phase == Intended
      modifies `slots, `phase
      ensures Going(i)
      ensures calm && Restores(codec, began[i]) && (old(slots)[i].installed.Absent? || !old(slots)[i].stored.Absent?) ==> r.Done?
      ensures r.Raised? && r.error != Interrupted ==>
              && r.error == RepresentationChanged
              && (!Restores(codec, began[i]) || (!old(slots)[i].installed.Absent? && old(slots)[i].stored.Absent?))
      ensures r.Done? ==> phase == Completing && !slots[i].installed.Absent? && Restorable(codec, slots[i])
    {
      hide Going, Reached, AllProper, Within;
      InHand(i);
      var _ :- Point(calm);
      if !slots[i].installed.Absent? {
        if !Restorable(codec, slots[i]) {
          return Raised(RepresentationChanged);
        }
        GoOn(i, Completing);
      } else {
        var _ :- Store(i, calm);
        var _ :- Point(calm);
        InHand(i);
        if !Restorable(codec, slots[i]) {
          return Raised(RepresentationChanged);
        }
        var _ :- Exclusive(i, Installing, Completing, slots[i].(installed := Published(())), calm);
      }
      InHand(i);
      r := Done(());
    }

    /** Install the representation of an item that is not complete, and check it off. */
    method Install(i: nat, calm: bool) returns (r: Outcome<()>)
      requires Going(i) && phase == Checking && slots[i].complete.Absent?
      modifies `slots, `phase
      ensures Going(i)
      ensures calm && Usable(codec, began[i]) ==> r.Done?
      ensures r.Raised? ==> r.error != PageRequired && Blames(codec, r.error, began[i])
      ensures r.Done? ==> phase == Finished && Settled(slots)
    {
      hide Going, Reached, AllProper, Within, Settled;
      InHand(i);
      var _ :- Point(calm);
      if !InPlace(slots[i]) {
        return Raised(OriginalChanged);
      }
      ghost var s := slots[i];
      if slots[i].intent.Absent? {
        var _ :- Exclusive(i, Declaring, Intended, slots[i].(intent := Published(())), calm);
      } else {
        GoOn(i, Intended);
      }
      assert slots[i].installed.Absent? <==> s.installed.Absent?;
      assert slots[i].stored.Absent? <==> s.stored.Absent?;
      var _ :- Represent(i, calm);
      var _ :- Point(calm);
      InHand(i);
      if !InPlace(slots[i]) {
        return Raised(OriginalChanged);
      }
      ghost var before := slots[i := slots[i].(complete := Published(()))];
      var _ :- Exclusive(i, Closing, Finished, slots[i].(complete := Published(())), calm);
      RecordsSettled(before);
      r := Point(calm);
    }

    /** Read back a completed item. */
    method ReadBack(i: nat, calm: bool) returns (r: Outcome<()>)
      requires Going(i) && phase == Checking && !slots[i].complete.Absent?
      modifies `phase
      ensures Going(i)
      ensures calm && Usable(codec, began[i]) ==> r.Done?
      ensures r.Raised? ==> r.error != PageRequired && Blames(codec, r.error, began[i])
      ensures r.Done? ==> phase == Finished
    {
      hide Going, Reached, AllProper, Within;
      InHand(i);
      var _ :- Point(calm);
      if !Restorable(codec, slots[i]) {
        return Raised(RepresentationChanged);
      }
      if !InPlace(slots[i]) {
        return Raised(OriginalChanged);
      }
      GoOn(i, Finished);
      r := Done(());
    }

    /** A page has left everything before item i behind, and changed nothing or left no
        record that awaits its sync. */
    ghost predicate Underway(i: nat)
      reads this
    {
      && AllProper(codec, began) && item == i <= |slots| == |began| && phase == Checking
      && Reached(codec, bounds, Run(began, slots, i, Checking)) && (slots == began || Settled(slots))
    }

    lemma Arrived(i: nat)
      requires Underway(i)
      ensures i <= |slots| == |began| && (i < |slots| ==> (slots[i].complete.Absent? <==> began[i].complete.Absent?))
      ensures i < |slots| ==> slots[i].reviewed == began[i].reviewed
      ensures slots == began || Settled(slots)
    {
      ReachedOk(codec, bounds, Run(began, slots, i, Checking));
      hide AllProper, Reached, Settled;
    }

    lemma TakesUp(i: nat)
      requires i < |slots| && Underway(i) && Within(bounds, began, i)
      ensures Going(i) && phase == Checking
    {
    }

    /** Leave a finished item behind. */
    ghost method Leave(i: nat, before: seq<Slot>)
      requires Going(i) && phase == Finished && (slots == before || Settled(slots)) && (before == began || Settled(before))
      modifies `item, `phase
      ensures Underway(i + 1)
    {
      hide Reached, Within, Settled, AllProper;
      ReachedOn(codec, bounds, Run(began, slots, i, Finished));
      item, phase := i + 1, Checking;
    }

    lemma Ended(i: nat)
      requires Underway(i) || Going(i)
      ensures AllProper(codec, began) && Reached(codec, bounds, Run(began, slots, item, phase))
    {
    }

    /** The items of a page. Returns where it stops, and how many items and bytes it did. */
    method InstallRun(maxItems: nat, maxBytes: nat, calm: bool) returns (r: Outcome<(nat, nat, nat)>)
      requires Underway(0) && bounds == Bounds(maxItems, maxBytes)
      modifies `slots, `item, `phase
      ensures AllProper(codec, began) && Reached(codec, bounds, Run(began, slots, item, phase))
      ensures calm && AllUsable(codec, began) ==> r.Done?
      ensures r.Raised? ==> r.error != PageRequired && (r.error != Interrupted ==> exists i :: 0 <= i < |began| && Blames(codec, r.error, began[i]))
      ensures r.Done? ==>
              && Underway(r.value.0) && r.value.0 <= |slots| == |began| && Stops(bounds, began, r.value.0)
              && r.value.1 == Open(began, r.value.0) && r.value.2 == OpenBytes(began, r.value.0)
    {
      hide Underway, Going, Reached, Within, AllProper, Blames, Usable, Open, OpenBytes, Stops, Settled, Fits;
      var processed, consumed, i := 0, 0, 0;
      Arrived(0);
      NothingOpen(began);
      while i < |slots|
        invariant i <= |slots| == |began| && Underway(i)
        invariant processed == Open(began, i) <= bounds.maxItems && consumed == OpenBytes(began, i) <= bounds.maxBytes
      {
        Arrived(i);
        OpenNext(bounds, began, i);
        ghost var before := slots;
        if !slots[i].complete.Absent? {
          TakesUp(i);
          var back := ReadBack(i, calm);
          if back.Raised? {
            Ended(i);
            return Raised(back.error);
          }
        } else {
          if processed >= maxItems || consumed + |slots[i].reviewed| > maxBytes {
            break;
          }
          TakesUp(i);
          var size := |slots[i].reviewed|;
          var done := Install(i, calm);
          if done.Raised? {
            Ended(i);
            return Raised(done.error);
          }
          processed, consumed := processed + 1, consumed + size;
        }
        Leave(i, before);
        i := i + 1;
        Arrived(i);
      }
      StopsHere(bounds, began, i);
      Ended(i);
      r := Done((i, processed, consumed));
    }

    /** One page: read back the complete items, and install as many of the others as the
        budgets allow. */
    method ExecutePage(maxItems: nat, maxBytes: nat, calm: bool) returns (r: Outcome<Page>)
      requires Valid()
      modifies this
      ensures Valid() && |slots| == old(|slots|) && Runs(codec, Bounds(maxItems, maxBytes), old(slots), slots)
      ensures forall i | 0 <= i < |slots| :: Grows(old(slots)[i], slots[i])
      ensures (Whole(slots) <==> Whole(old(slots))) && (Prefix(old(slots)) ==> Prefix(slots))
      ensures Firm(old(slots)) && Careful(Bounds(maxItems, maxBytes), old(slots), old(slots)) ==> Firm(slots)
      ensures r.Raised? && r.error == PageRequired <==> !PageOk(|slots|, Bounds(maxItems, maxBytes))
      ensures r.Raised? && r.error in {OriginalChanged, RepresentationChanged} ==>
              exists i :: 0 <= i < |slots| && Blames(codec, r.error, old(slots)[i])
      ensures calm && AllUsable(codec, old(slots)) && PageOk(|slots|, Bounds(maxItems, maxBytes)) ==> r.Done?
      ensures r.Done? ==>
              && PageOk(|slots|, Bounds(maxItems, maxBytes))
              && IsPage(codec, r.value, Bounds(maxItems, maxBytes), old(slots), slots)
              && (slots == old(slots) || Settled(slots))
    {
      hide Valid, AllProper, Underway, Reached, Runs, Stops, Open, OpenBytes, Settled, Whole, Prefix, Firm, Careful, Grows, Blames, Usable, IsPage;
      ghost var b := Bounds(maxItems, maxBytes);
      ValidIsProper();
      ReachedStart(codec, b, slots);
      PageKeeps(codec, b, slots, slots);
      if !PageOk(|slots|, Bounds(maxItems, maxBytes)) {
        return Raised(PageRequired);
      }
      began, bounds, item, phase := slots, b, 0, Checking;
      Started();
      var run := InstallRun(maxItems, maxBytes, calm);
      RunsTo(codec, b, Run(began, slots, item, phase));
      PageKeeps(codec, b, began, slots);
      ProperIsValid();
      if run.Raised? {
        return Raised(run.error);
      }
      var (next, processed, consumed) := run.value;
      Arrived(next);
      r := Done(Page(processed, next, next == |slots|, consumed));
      PageDone(next, r.value);
    }

    lemma ValidIsProper()
      requires Valid()
      ensures AllProper(codec, slots)
    {
    }

    lemma ProperIsValid()
      requires AllProper(codec, slots)
      ensures Valid()
    {
    }

    lemma Started()
      requires AllProper(codec, slots) && Reached(codec, bounds, Begin(slots)) && began == slots && item == 0 && phase == Checking
      ensures Underway(0)
    {
    }

    lemma PageDone(next: nat, page: Page)
      requires Underway(next) && Stops(bounds, began, next)
      requires page == Page(Open(began, next), next, next == |slots|, OpenBytes(began, next))
      ensures IsPage(codec, page, bounds, began, slots)
    {
      ReachedOk(codec, bounds, Run(began, slots, next, Checking));
      hide AllProper, Reached, Open, OpenBytes, Stops, Settled, Restorable, Fits, Grows;
      forall i: nat | next <= i < |slots| ensures OnlySynced(began[i], slots[i]) {
        assert !Touched(Run(began, slots, next, Checking), i);
      }
    }

    /** The machine loses power, at any time; its directories survive. */
    method PowerLoss()
      requires Valid()
      modifies `slots
      ensures Valid() && LosePower(old(slots), slots) && Settled(slots)
      ensures Firm(old(slots)) ==> InOrder(slots)
    {
      hide Valid, AllProper, Settled, Firm, InOrder;
      ValidIsProper();
      var after: seq<Slot> := [];
      for i := 0 to |slots|
        modifies {}
        invariant |after| == i && forall k | 0 <= k < i :: LosesPower(slots[k], after[k])
      {
        var s := slots[i];
        var stored := LoseMark(s.stored);
        var intent := LoseMark(s.intent);
        var installed := LoseMark(s.installed);
        var complete := LoseMark(s.complete);
        after := after + [s.(stored := stored, intent := intent, installed := installed, complete := complete)];
      }
      LossKeepsProper(codec, slots, after);
      PowerLossKeepsOrder(slots);
      slots := after;
      ProperIsValid();
    }
  }

  /** A finished page: it went as far as its budgets allow, all items before are complete,
      in place and restorable, and the others at most synced. */
  predicate IsPage(c: Codec, p: Page, b: Bounds, slots: seq<Slot>, slots': seq<Slot>) {
    && |slots'| == |slots| && Stops(b, slots, p.completed)
    && p.processed == Open(slots, p.completed) && p.sourceBytes == OpenBytes(slots, p.completed)
    && (p.complete <==> p.completed == |slots|)
    && (forall i | 0 <= i < p.completed :: !slots'[i].complete.Absent? && InPlace(slots'[i]) && Restorable(c, slots'[i]))
    && forall i | p.completed <= i < |slots| :: OnlySynced(slots[i], slots'[i])
  }

  lemma NothingOpen(slots: seq<Slot>)
    ensures Open(slots, 0) == 0 && OpenBytes(slots, 0) == 0
  {
  }

  lemma OpenNext(b: Bounds, slots: seq<Slot>, i: nat)
    requires i < |slots|
    ensures Open(slots, i + 1) == Open(slots, i) + (if slots[i].complete.Absent? then 1 else 0)
    ensures OpenBytes(slots, i + 1) == OpenBytes(slots, i) + (if slots[i].complete.Absent? then |slots[i].reviewed| else 0)
    ensures Within(b, slots, i) <==>
            !slots[i].complete.Absent? || (Open(slots, i) < b.maxItems && OpenBytes(slots, i) + |slots[i].reviewed| <= b.maxBytes)
  {
  }

  lemma StopsHere(b: Bounds, slots: seq<Slot>, i: nat)
    requires i <= |slots| && Open(slots, i) <= b.maxItems && OpenBytes(slots, i) <= b.maxBytes
    requires i < |slots| ==> slots[i].complete.Absent?
                             && (Open(slots, i) >= b.maxItems || OpenBytes(slots, i) + |slots[i].reviewed| > b.maxBytes)
    ensures Stops(b, slots, i)
  {
  }

  /** All that a page keeps, wherever it ends. */
  lemma PageKeeps(c: Codec, b: Bounds, slots: seq<Slot>, slots': seq<Slot>)
    requires AllProper(c, slots) && Runs(c, b, slots, slots')
    ensures AllProper(c, slots') && |slots'| == |slots| && forall i | 0 <= i < |slots| :: Grows(slots[i], slots'[i])
    ensures (Whole(slots') <==> Whole(slots)) && (Prefix(slots) ==> Prefix(slots'))
    ensures Firm(slots) && Careful(b, slots, slots) ==> Firm(slots')
  {
    hide *;
    RunsKeep(c, b, slots, slots');
    if Firm(slots) && Careful(b, slots, slots) {
      RunsSafely(c, b, slots, slots');
    }
  }

  lemma RecordsSettled(slots: seq<Slot>)
    ensures Settled(SyncAll(slots, Records))
  {
    var r := SyncAll(slots, Records);
    forall i | 0 <= i < |slots| ensures SyncSlot(r[i], Records) == r[i] {
    }
  }

  /** From any state in which claimed representations are there, whatever is complete by
      then, calm pages with room for the largest item complete the review: every original
      is still in place, and restorable from its representation. */
  method FollowPages(migration: Migration, maxItems: nat, maxBytes: nat)
    requires migration.Valid() && PageOk(|migration.slots|, Bounds(maxItems, maxBytes))
    requires AllUsable(migration.codec, migration.slots)
    requires forall i | 0 <= i < |migration.slots| :: |migration.slots[i].reviewed| <= maxBytes
    modifies migration
    ensures migration.Valid() && |migration.slots| == old(|migration.slots|)
    ensures forall i | 0 <= i < |migration.slots| ::
              && !migration.slots[i].complete.Absent? && migration.slots[i].original == old(migration.slots)[i].original
              && InPlace(migration.slots[i]) && Restorable(migration.codec, migration.slots[i])
  {
    hide Runs, Whole, Prefix, Firm, Careful, Settled, AllProper, Blames, Open, OpenBytes;
    var complete := false;
    ghost var left := Open(migration.slots, |migration.slots|);
    while !complete
      invariant migration.Valid() && |migration.slots| == old(|migration.slots|) && AllUsable(migration.codec, migration.slots)
      invariant forall i | 0 <= i < |migration.slots| :: Grows(old(migration.slots)[i], migration.slots[i])
      invariant left == Open(migration.slots, |migration.slots|)
      invariant complete ==> forall i | 0 <= i < |migration.slots| ::
                  !migration.slots[i].complete.Absent? && InPlace(migration.slots[i]) && Restorable(migration.codec, migration.slots[i])
      decreases left, !complete
    {
      ghost var before := migration.slots;
      UsableIsWhole(migration.codec, before);
      var page := migration.ExecutePage(maxItems, maxBytes, true);
      PageProgress(migration.codec, page.value, Bounds(maxItems, maxBytes), before, migration.slots);
      left := Open(migration.slots, |migration.slots|);
      complete := page.value.complete;
    }
  }

  lemma UsableIsWhole(c: Codec, slots: seq<Slot>)
    requires AllUsable(c, slots)
    ensures Whole(slots)
  {
  }

  lemma {:induction false} FewerOpen(slots: seq<Slot>, slots': seq<Slot>, n: nat)
    requires n <= |slots| == |slots'|
    requires forall i | 0 <= i < n :: slots[i].complete.Absent? || !slots'[i].complete.Absent?
    ensures Open(slots', n) <= Open(slots, n)
    ensures (exists i :: 0 <= i < n && slots[i].complete.Absent? && !slots'[i].complete.Absent?) ==> Open(slots', n) < Open(slots, n)
  {
    if n > 0 {
      FewerOpen(slots, slots', n - 1);
    }
  }

  lemma {:induction false} OpenBefore(slots: seq<Slot>, n: nat)
    requires n <= |slots|
    ensures Open(slots, n) == 0 ==> OpenBytes(slots, n) == 0
    ensures Open(slots, n) > 0 <==> exists i :: 0 <= i < n && slots[i].complete.Absent?
  {
    if n > 0 {
      OpenBefore(slots, n - 1);
    }
  }

  /** A page over usable items with room for each completes one more, or all are. */
  lemma PageProgress(c: Codec, page: Page, b: Bounds, slots: seq<Slot>, slots': seq<Slot>)
    requires IsPage(c, page, b, slots, slots') && AllUsable(c, slots) && b.maxItems > 0
    requires forall i | 0 <= i < |slots| :: Grows(slots[i], slots'[i]) && |slots[i].reviewed| <= b.maxBytes
    requires Whole(slots')
    ensures AllUsable(c, slots') && Open(slots', |slots|) <= Open(slots, |slots|)
    ensures !page.complete ==> Open(slots', |slots|) < Open(slots, |slots|)
  {
    hide Open, OpenBytes, Restorable;
    FewerOpen(slots, slots', |slots|);
    OpenBefore(slots, page.completed);
    forall i | 0 <= i < |slots| ensures Usable(c, slots'[i]) {
      assert Usable(c, slots[i]) && Grows(slots[i], slots'[i]);
    }
    if !page.complete {
      assert Open(slots, page.completed) > 0;
      var i :| 0 <= i < page.completed && slots[i].complete.Absent?;
      assert !slots'[i].complete.Absent?;
    }
  }
}
