/**
  The removal as the source performs it, page by page. Wherever a page ends, it has
  taken steps of the protocol; whatever happens, no byte is credited that was not
  durably removed, and none twice.
*/
module ArchiveRemoval {
  import opened Marks
  import opened Wrappers
  import opened RemovalProtocol

  datatype Error =
    | Interrupted
    | MissingWithoutIntent
    | CompletedReappeared
    | ReceiptedReappeared
    | PriorRetirement
    | ReadbackFailed
    | InvalidCredit
    | ReceiptChanged
    | PageRequired

  type Outcome<+T> = Result<T, Error>

  const MAX_ITEMS := 64
  const MAX_PAGE_BYTES := 8 * 1024 * 1024 * 1024

  /** What happened to an original so far, which no code reads: whether its
      representation was verified, whether a page unlinked it, and the credit that
      pages were granted for it. */
  datatype Past = Past(verified: bool, unlinked: bool, granted: nat)

  /** The sizes of the distinct originals that pages unlinked and that are durably gone. */
  function RemovedBytes(slots: seq<Slot>, past: seq<Past>): nat
    requires |past| == |slots|
  {
    if slots == [] then 0
    else
      var last := |slots| - 1;
      RemovedBytes(slots[..last], past[..last])
      + (if slots[last].file == Gone && past[last].unlinked then slots[last].size else 0)
  }

  function Granted(past: seq<Past>): nat {
    if past == [] then 0 else Granted(past[..|past| - 1]) + past[|past| - 1].granted
  }

  /** An original is only missing if its representation was verified before, and only
      credited, on record or to a page, if it was unlinked and is durably gone. Credit
      granted is durably on record as long as the records as a whole were not lost. */
  predicate Witnessed(s: Slot, p: Past, kept: bool) {
    && (s.file != Present ==> p.verified)
    && (Credit(s) > 0 ==> p.unlinked)
    && (p.granted > 0 ==> p.granted == s.size && s.file == Gone && p.unlinked)
    && (kept && p.granted > 0 ==> s.receipt.Durable? && s.receipt.value.removedBytes == p.granted)
  }

  datatype Page = Page(visited: nat, nextIndex: nat, complete: bool, completed: nat,
                       newConfirmed: nat, confirmed: nat, uncredited: nat)

  class Removal {
    var slots: seq<Slot>
    /** History, which no code reads: what happened to each original, and whether the
        directory of the records survived every loss of power. */
    ghost var past: seq<Past>
    ghost var kept: bool
    /** The slots as the page found them, what it was asked for, and how far it is. */
    ghost var began: seq<Slot>
    ghost var bounds: Bounds
    ghost var item: nat
    ghost var phase: Phase

    ghost predicate Valid()
      reads `slots, `past, `kept
    {
      && |past| == |slots| && AllProper(slots)
      && forall i | 0 <= i < |slots| :: Witnessed(slots[i], past[i], kept)
    }

    /** A page is at item i: what it did so far are the steps of a page. */
    ghost predicate Going(i: nat)
      reads this
    {
      && Valid() && item == i < |slots| && Fits(phase, slots[i])
      && Reached(bounds, began, Run(slots, item, phase)) && (phase == Checking ==> Within(bounds, slots, i))
    }

    lemma InHand(i: nat)
      requires Going(i)
      ensures Valid() && item == i < |slots| == |past| && Fits(phase, slots[i])
      ensures Proper(slots[i]) && Witnessed(slots[i], past[i], kept)
      ensures slots[i].file != Gone ==> slots[i].receipt.Absent? && slots[i].retired.Absent? && slots[i].complete.Absent?
      ensures phase == Completing ==> slots[i].file == Gone && !slots[i].receipt.Absent?
    {
    }

    /** The next step with item i is this deed and leads to that phase. */
    ghost predicate Due(i: nat, p: Phase, deed: Deed)
      requires i < |slots|
      reads `slots, `phase
    {
      Next(phase, slots[i]) == Some((p, deed))
    }

    constructor (originals: seq<(nat, nat)>)
      ensures Valid() && kept && |slots| == |originals|
      ensures forall i | 0 <= i < |originals| :: slots[i] == Planned(originals[i].0, originals[i].1)
    {
      slots := seq(|originals|, i requires 0 <= i < |originals| => Planned(originals[i].0, originals[i].1));
      past := seq(|originals|, i => Past(false, false, 0));
      kept := true;
      began, bounds, item, phase := [], Bounds(0, 0, 0), 0, Checking;
    }

    /** One change on disk of the item in hand. */
    method Change(i: nat, ghost p: Phase, s: Slot)
      requires Going(i) && Due(i, p, Put(s)) && Witnessed(s, past[i], kept)
      modifies `slots, `phase
      ensures Going(i) && slots == old(slots)[i := s] && phase == p
      ensures Confirmed(slots) == Confirmed(old(slots)) - Credit(old(slots)[i]) + Credit(s)
    {
      hide Next, Reached, Witnessed, Confirmed, Proper, Fits, Within;
      PutKeeps(phase, slots[i]);
      ReachedStep(bounds, began, Run(slots, item, phase), p, Put(s));
      ConfirmedUpdate(slots, i, s);
      slots := slots[i := s];
      phase := p;
    }

    /** Sync a directory: everything in it becomes durable. */
    method SyncDirectory(i: nat, ghost p: Phase, d: Directory)
      requires Going(i) && Due(i, p, Sync(d))
      modifies `slots, `phase
      ensures Going(i) && slots == SyncAll(old(slots), d) && phase == p
      ensures Confirmed(slots) == Confirmed(old(slots))
    {
      hide Next, Reached, Witnessed, Confirmed, Proper, Fits, Within;
      SyncFits(phase, slots[i]);
      ReachedStep(bounds, began, Run(slots, item, phase), p, Sync(d));
      SyncTotals(slots, d);
      SyncValid(d);
      slots := SyncAll(slots, d);
      phase := p;
    }

    lemma SyncValid(d: Directory)
      requires Valid()
      ensures AllProper(SyncAll(slots, d))
      ensures forall i | 0 <= i < |slots| :: Witnessed(SyncAll(slots, d)[i], past[i], kept)
    {
      forall i | 0 <= i < |slots|
        ensures Proper(SyncSlot(slots[i], d)) && Witnessed(SyncSlot(slots[i], d), past[i], kept)
      {
        assert Proper(slots[i]) && Witnessed(slots[i], past[i], kept);
      }
    }

    /** A step that only decides how to go on. */
    ghost method GoOn(i: nat, p: Phase)
      requires Going(i) && Due(i, p, Decide)
      modifies `phase
      ensures Going(i) && phase == p
    {
      hide Next, Reached, Witnessed, Proper, Fits, Within;
      SyncFits(phase, slots[i]);
      ReachedStep(bounds, began, Run(slots, item, phase), p, Decide);
      phase := p;
    }

    /** Publish a complete immutable record, then sync its directory, which makes all
        other records durable too. */
    method Exclusive(i: nat, ghost p: Phase, ghost q: Phase, s: Slot, calm: bool) returns (r: Outcome<()>)
      requires Going(i) && Due(i, p, Put(s)) && Witnessed(s, past[i], kept)
      requires Next(p, s) == Some((q, Sync(Records)))
      modifies `slots, `phase
      ensures Going(i) && (calm ==> r.Done?) && (r.Raised? ==> r.error == Interrupted)
      ensures r.Done? ==> slots == SyncAll(old(slots)[i := s], Records) && Settled(slots) && phase == q
      ensures Confirmed(slots) == Confirmed(old(slots)) - Credit(old(slots)[i]) + Credit(s)
    {
      hide Next, Witnessed, Confirmed, Reached, Proper, Fits, Settled;
      Change(i, p, s);
      var _ :- Point(calm);
      SyncSettles(slots);
      SyncDirectory(i, q, Records);
      r := Done(());
    }

    /** A point where the environment may stop the process: a check that fails, a
        deadline, a crash. In a calm environment it never does. */
    method Point(calm: bool) returns (r: Outcome<()>)
      ensures calm ==> r.Done?
      ensures r.Raised? ==> r.error == Interrupted
    {
      var luck: bool := *;
      r := if calm || luck then Done(()) else Raised(Interrupted);
    }

    /** Note what happened to an original. */
    ghost method Note(i: nat, p: Past)
      requires Going(i) && Witnessed(slots[i], p, kept)
      modifies `past
      ensures Going(i) && past == old(past)[i := p]
      ensures Granted(past) == Granted(old(past)) - old(past)[i].granted + p.granted
    {
      hide Witnessed, Granted;
      GrantedUpdate(past, i, p);
      past := past[i := p];
    }

    /** Verify the representation, from which the original can be restored. */
    method Verify(i: nat, calm: bool) returns (r: Outcome<()>)
      requires Going(i)
      modifies `past
      ensures Going(i) && (calm ==> r.Done?) && (r.Raised? ==> r.error == Interrupted)
      ensures past == if r.Done? then old(past)[i := old(past)[i].(verified := true)] else old(past)
      ensures Granted(past) == Granted(old(past))
    {
      var _ :- Point(calm);
      assert Witnessed(slots[i], past[i], kept);
      Note(i, past[i].(verified := true));
      r := Done(());
    }

    /** The original must be in place, unless it may be missing. */
    method Original(i: nat, absentAllowed: bool) returns (r: Outcome<bool>)
      requires i < |slots|
      ensures r == if slots[i].file == Present then Done(true)
                   else if absentAllowed then Done(false) else Raised(MissingWithoutIntent)
    {
      if slots[i].file != Present {
        if !absentAllowed {
          return Raised(MissingWithoutIntent);
        }
        return Done(false);
      }
      r := Done(true);
    }

    /** Unlink the original, and make that durable. */
    method Unlink(i: nat, calm: bool) returns (r: Outcome<()>)
      requires Going(i) && past[i].verified && phase == Intended && slots[i].file == Present
      modifies `slots, `phase
      ensures Going(i) && (calm ==> r.Done?) && (r.Raised? ==> r.error == Interrupted)
      ensures Confirmed(slots) == Confirmed(old(slots))
      ensures r.Done? ==> phase == Recording(true) && slots[i].retired.Absent? && slots[i].size == old(slots)[i].size
    {
      hide Valid, Going, Confirmed, Granted, Reached, Witnessed, Proper, Next, Within, Fits, SyncSlot;
      InHand(i);
      var s := slots[i].(file := Unlinked);
      UnlinkDue(slots[i], past[i], kept);
      Change(i, Syncing, s);
      var _ :- Point(calm);
      SyncDirectory(i, Recording(true), Folder(s.folder));
      r := Done(());
    }

    /** Replace the manifest by one in which the original is retired. */
    method WriteManifest(i: nat, present: bool, calm: bool) returns (r: Outcome<()>)
      requires Going(i) && phase == Recording(present) && slots[i].retired.Absent?
      modifies `slots, `phase
      ensures Going(i) && (calm ==> r.Done?) && (r.Raised? ==> r.error == Interrupted)
      ensures Confirmed(slots) == Confirmed(old(slots))
      ensures r.Done? ==> phase == Receipting(present) && slots[i].size == old(slots)[i].size
    {
      hide Valid, Going, Confirmed, Reached, Witnessed, Proper, Next, Within, Fits, SyncSlot;
      InHand(i);
      var s := slots[i].(retired := Published(if present then slots[i].size else 0));
      RetirementDue(slots[i], past[i], kept, present);
      Change(i, Noting(present), s);
      var _ :- Point(calm);
      SyncDirectory(i, Receipting(present), Manifest);
      r := Done(());
    }

    /** Retire the original: unlink it, note it in the manifest. Returns the bytes this
        call removed. */
    method Retire(i: nat, calm: bool) returns (r: Outcome<nat>)
      requires Going(i) && past[i].verified && slots[i].receipt.Absent?
      requires phase == if slots[i].file == Present then Intended else Recording(false)
      modifies `slots, `past, `phase
      ensures Going(i) && (calm ==> r.Done?) && (r.Raised? ==> r.error == Interrupted)
      ensures Confirmed(slots) == Confirmed(old(slots)) && Granted(past) == Granted(old(past))
      ensures r.Done? ==> phase == Receipting(old(slots)[i].file == Present)
      ensures r.Done? && old(slots)[i].file == Present ==>
                r.value == slots[i].size == old(slots)[i].size && past[i].unlinked && past[i].granted == 0
      ensures r.Done? && old(slots)[i].file != Present ==> r.value == 0
    {
      hide Confirmed, Granted, Reached, Witnessed, Proper;
      if slots[i].file == Present {
        var size := slots[i].size;
        UnlinkDue(slots[i], past[i], kept);
        Note(i, past[i].(unlinked := true));
        var _ :- Unlink(i, calm);
        var _ :- Point(calm);
        var _ :- WriteManifest(i, true, calm);
        return Done(size);
      }
      if slots[i].retired.Absent? {
        var _ :- WriteManifest(i, false, calm);
      } else {
        GoOn(i, Receipting(false));
      }
      r := Done(0);
    }

    /** Publish the receipt of a removal. */
    method WriteReceipt(i: nat, present: bool, removed: nat, calm: bool) returns (r: Outcome<nat>)
      requires Going(i) && phase == Receipting(present)
      requires present ==> removed == slots[i].size && past[i].unlinked && past[i].granted == 0
      modifies `slots, `past, `phase
      ensures Going(i) && (calm ==> r.Done?) && (r.Raised? ==> r.error == Interrupted)
      ensures r.Done? ==>
              && phase == Completing && Settled(slots)
              && slots[i].receipt == Durable(Receipt(if present then removed else 0, !present)) && r.value == Credit(slots[i])
              && Confirmed(slots) == Confirmed(old(slots)) + r.value && Granted(past) == Granted(old(past)) + r.value
    {
      hide Valid, Going, Confirmed, Granted, Reached, Settled, Witnessed, Proper, Next, Within, Fits, SyncSlot;
      InHand(i);
      ReceiptDue(slots[i], past[i], kept, present);
      var receipt := Receipt(if present then removed else 0, !present);
      var _ :- Exclusive(i, Settling, Completing, slots[i].(receipt := Published(receipt)), calm);
      if present {
        Note(i, past[i].(granted := removed));
      }
      r := Done(receipt.removedBytes);
    }

    /** Make an absence that was found durable before anything relies on it. */
    method SyncAbsence(i: nat, calm: bool) returns (r: Outcome<()>)
      requires Going(i) && phase == Intended && slots[i].receipt.Absent?
      modifies `slots, `phase
      ensures Going(i) && (calm ==> r.Done?) && (r.Raised? ==> r.error == Interrupted)
      ensures Confirmed(slots) == Confirmed(old(slots))
      ensures old(slots)[i].file == Present ==> slots == old(slots) && phase == Intended
      ensures r.Done? && old(slots)[i].file != Present ==> phase == Recording(false) && slots[i].receipt.Absent?
    {
      hide Confirmed, Reached, Witnessed;
      var _ :- Point(calm);
      if slots[i].file != Present {
        SyncDirectory(i, Recording(false), Folder(slots[i].folder));
      }
      r := Done(());
    }

    /** Retire an original whose representation was verified, and receipt it. */
    method RetireVerified(i: nat, present: bool, calm: bool) returns (r: Outcome<nat>)
      requires Going(i) && slots[i].receipt.Absent? && past[i].verified && phase == Intended
      requires present == (slots[i].file == Present)
      modifies `slots, `past, `phase
      ensures Going(i) && (calm ==> r.Done?) && (r.Raised? ==> r.error == Interrupted)
      ensures r.Done? ==>
              && phase == Completing && Settled(slots) && slots[i].receipt.Durable?
              && (slots[i].receipt.value.absentAfterOpenIntent <==> !present)
              && r.value == Credit(slots[i]) == (if present then old(slots)[i].size else 0)
              && Confirmed(slots) == Confirmed(old(slots)) + r.value && Granted(past) == Granted(old(past)) + r.value
    {
      hide Confirmed, Granted, Reached, Witnessed, Proper, Settled, Next;
      var _ :- SyncAbsence(i, calm);
      var removed :- Retire(i, calm);
      var _ :- Point(calm);
      r := WriteReceipt(i, present, removed, calm);
    }

    /** Remove one item that has no removal receipt yet, and write the receipt. */
    method RemoveOriginal(i: nat, intended: bool, calm: bool) returns (r: Outcome<nat>)
      requires Going(i) && phase == Intended && slots[i].receipt.Absent?
      modifies `slots, `past, `phase
      ensures Going(i)
      ensures r.Raised? ==> if intended || old(slots)[i].file == Present then !calm && r.error == Interrupted
                            else r.error in {Interrupted, MissingWithoutIntent}
      ensures r.Done? ==>
              && phase == Completing && Settled(slots) && slots[i].receipt.Durable?
              && (slots[i].receipt.value.absentAfterOpenIntent <==> old(slots)[i].file != Present)
              && r.value == Credit(slots[i]) == (if old(slots)[i].file == Present then old(slots)[i].size else 0)
              && Confirmed(slots) == Confirmed(old(slots)) + r.value && Granted(past) == Granted(old(past)) + r.value
    {
      hide Confirmed, Granted, Reached, Witnessed, Proper, Settled, Next;
      InHand(i);
      var _ :- Point(calm);
      var present :- Original(i, intended);
      var _ :- Verify(i, calm);
      if present && !slots[i].retired.Absent? {
        return Raised(PriorRetirement);
      }
      r := RetireVerified(i, present, calm);
    }

    /** Check the removal once more and write the completion receipt. */
    method Complete(i: nat, calm: bool) returns (r: Outcome<()>)
      requires Going(i) && phase == Completing
      modifies `slots, `past, `phase
      ensures Going(i) && (calm ==> r.Done?) && (r.Raised? ==> r.error == Interrupted)
      ensures Confirmed(slots) == Confirmed(old(slots)) && Granted(past) == Granted(old(past))
      ensures r.Done? ==> phase == Finished && Settled(slots)
    {
      hide Valid, Going, Confirmed, Granted, Reached, Settled, Witnessed, Proper, Next, Within, Fits, SyncSlot;
      InHand(i);
      CompletionDue(slots[i], past[i], kept);
      var _ :- Point(calm);
      var _ :- Verify(i, calm);
      if slots[i].file == Present {
        return Raised(ReadbackFailed);
      }
      var _ :- Exclusive(i, Closing, Finished, slots[i].(complete := Published(slots[i].receipt.value)), calm);
      r := Point(calm);
    }

    /** Publish the intent, then make it durable. */
    method DeclareIntent(i: nat, calm: bool) returns (r: Outcome<()>)
      requires Going(i) && phase == Checking && slots[i].intent.Absent? && slots[i].file == Present
      modifies `slots, `phase
      ensures Going(i) && (calm ==> r.Done?) && (r.Raised? ==> r.error == Interrupted)
      ensures Confirmed(slots) == Confirmed(old(slots))
      ensures r.Done? ==> phase == Intended && slots[i] == old(slots)[i].(intent := Durable(()))
    {
      hide Confirmed, Reached, Settled, Within;
      InHand(i);
      var s := slots[i].(intent := Published(()));
      r := Exclusive(i, Declaring, Intended, s, calm);
    }

    /** Remove an item whose intent is on record, unless a receipt says it was. */
    method RemoveIntended(i: nat, present: bool, intended: bool, calm: bool) returns (r: Outcome<nat>)
      requires Going(i) && phase == Intended && present == (slots[i].file == Present)
      modifies `slots, `past, `phase
      ensures Going(i)
      ensures r.Raised? ==> if intended || present then !calm && r.error == Interrupted
                            else r.error in {Interrupted, MissingWithoutIntent}
      ensures r.Done? ==>
              && phase == Finished && Settled(slots)
              && r.value == (if old(slots)[i].receipt.Absent? && present then old(slots)[i].size else 0)
              && Confirmed(slots) == Confirmed(old(slots)) + r.value && Granted(past) == Granted(old(past)) + r.value
    {
      hide Confirmed, Granted, Reached, Witnessed, Proper, Settled;
      InHand(i);
      if !slots[i].receipt.Absent? {
        if present {
          return Raised(ReceiptedReappeared);
        }
        GoOn(i, Completing);
        r := Done(0);
      } else {
        r := RemoveOriginal(i, intended, calm);
      }
      if r.Done? {
        var _ :- Complete(i, calm);
      }
    }

    /** Take one item as far as its completion receipt. Returns the new credit. */
    method RemoveItem(i: nat, calm: bool) returns (r: Outcome<nat>)
      requires Going(i) && phase == Checking
      modifies `slots, `past, `phase
      ensures Going(i)
      ensures calm && Intact(old(slots)[i]) ==> r.Done?
      ensures r.Raised? ==> r.error == Interrupted || (r.error == MissingWithoutIntent && !Intact(old(slots)[i]))
      ensures r.Done? ==>
              && phase == Finished && (slots == old(slots) || Settled(slots))
              && r.value == (if old(slots)[i].receipt.Absent? && old(slots)[i].file == Present then old(slots)[i].size else 0)
              && Confirmed(slots) == Confirmed(old(slots)) + r.value && Granted(past) == Granted(old(past)) + r.value
    {
      hide Confirmed, Granted, Reached, Witnessed, Settled, Within;
      InHand(i);
      var _ :- Point(calm);
      var _ :- Verify(i, calm);
      var done, intended := !slots[i].complete.Absent?, !slots[i].intent.Absent?;
      var present :- Original(i, intended);
      var _ :- Point(calm);
      if done {
        if present {
          return Raised(CompletedReappeared);
        }
        GoOn(i, Finished);
        return Done(0);
      }
      if intended {
        GoOn(i, Intended);
      } else {
        var _ :- DeclareIntent(i, calm);
      }
      var _ :- Point(calm);
      r := RemoveIntended(i, present, intended, calm);
    }

    /** Add up the receipts. One that contradicts its plan or itself stops the page. */
    method Summary() returns (r: Outcome<(nat, nat, nat)>)
      ensures r.Done? <==> AllConsistent(slots)
      ensures r.Done? ==> r.value == (Confirmed(slots), Unknown(slots), Completed(slots))
      ensures r.Raised? ==> r.error in {InvalidCredit, ReceiptChanged}
    {
      var confirmed, unknown, complete := 0, 0, 0;
      for i := 0 to |slots|
        invariant confirmed == Confirmed(slots[..i]) && unknown == Unknown(slots[..i])
        invariant complete == Completed(slots[..i])
        invariant forall k | 0 <= k < i :: Consistent(slots[k])
      {
        var s := slots[i];
        assert slots[..i + 1][..i] == slots[..i];
        if !s.receipt.Absent? {
          var receipt := s.receipt.value;
          if s.intent.Absent? || receipt.removedBytes != (if receipt.absentAfterOpenIntent then 0 else s.size) {
            assert !Consistent(slots[i]);
            return Raised(InvalidCredit);
          }
          confirmed := confirmed + receipt.removedBytes;
          unknown := unknown + (if receipt.absentAfterOpenIntent then s.size else 0);
        }
        if !s.complete.Absent? {
          if s.receipt.Absent? || s.receipt.value != s.complete.value {
            assert !Consistent(slots[i]);
            return Raised(ReceiptChanged);
          }
          complete := complete + 1;
        }
      }
      assert slots[..|slots|] == slots;
      r := Done((confirmed, unknown, complete));
    }

    /** A page has left everything before item i behind, and changed nothing or left no
        record that awaits its sync. */
    ghost predicate Underway(i: nat)
      reads this
    {
      && Valid() && AllProper(began) && |slots| == |began| && item == i && phase == Checking
      && Reached(bounds, began, Run(slots, i, Checking)) && (slots == began || Settled(slots))
    }

    /** The items of a page. Returns where it stops and the credit of the page. */
    method RemoveRun(start: nat, maxItems: nat, maxBytes: nat, calm: bool) returns (r: Outcome<(nat, nat)>)
      requires start <= |slots| && Underway(start) && bounds == Bounds(start, maxItems, maxBytes)
      modifies `slots, `past, `item, `phase
      ensures Valid() && Reached(bounds, began, Run(slots, item, phase))
      ensures calm && Whole(began) ==> r.Done?
      ensures r.Raised? ==> r.error == Interrupted || (r.error == MissingWithoutIntent && !Whole(began))
      ensures r.Done? ==>
              && Underway(r.value.0) && Stops(bounds, slots, r.value.0)
              && Confirmed(slots) == Confirmed(old(slots)) + r.value.1 && Granted(past) == Granted(old(past)) + r.value.1
    {
      hide *;
      Arrived(start);
      var visited, consumed, credit, i := 0, 0, 0, start;
      NoBytes(slots, start);
      while i < |slots| && visited < maxItems && consumed + slots[i].size <= maxBytes
        invariant start <= i <= |slots| == |began| && Underway(i)
        invariant visited == i - start <= maxItems && consumed == Bytes(slots, start, i) <= maxBytes
        invariant Confirmed(slots) == Confirmed(old(slots)) + credit && Granted(past) == Granted(old(past)) + credit
      {
        BytesNext(bounds, slots, i);
        var size := slots[i].size;
        var one := TakeUp(i, calm);
        if one.Raised? {
          return Raised(one.error);
        }
        visited, consumed, credit, i := visited + 1, consumed + size, credit + one.value, i + 1;
      }
      Arrived(i);
      StopsHere(bounds, slots, i);
      r := Done((i, credit));
    }

    lemma Arrived(i: nat)
      requires Underway(i)
      ensures Valid() && |slots| == |began| && Reached(bounds, began, Run(slots, item, phase))
      ensures AllProper(began) && item == i && phase == Checking && (slots == began || Settled(slots))
    {
    }

    /** Take up an item that the budgets of the page cover, and leave it behind. */
    method TakeUp(i: nat, calm: bool) returns (r: Outcome<nat>)
      requires i < |slots| && Underway(i) && Within(bounds, slots, i)
      modifies `slots, `past, `item, `phase
      ensures Valid() && Reached(bounds, began, Run(slots, item, phase)) && |slots| == |began|
      ensures calm && Whole(began) ==> r.Done?
      ensures r.Raised? ==> r.error == Interrupted || (r.error == MissingWithoutIntent && !Whole(began))
      ensures r.Done? ==>
              && Underway(i + 1) && Bytes(slots, bounds.start, i + 1) == Bytes(old(slots), bounds.start, i + 1)
              && Confirmed(slots) == Confirmed(old(slots)) + r.value && Granted(past) == Granted(old(past)) + r.value
    {
      hide *;
      ghost var before := slots;
      Arrived(i);
      Taken(i);
      r := RemoveItem(i, calm);
      Left(i);
      if r.Done? {
        BytesSame(before, slots, bounds.start, i + 1);
        item, phase := i + 1, Checking;
        Behind(i + 1);
      }
    }

    lemma Taken(i: nat)
      requires i < |slots| && Underway(i) && Within(bounds, slots, i)
      ensures Going(i) && bounds.start <= i && (Whole(began) ==> Intact(slots[i]))
      ensures |slots| == |began| && forall k | 0 <= k < |slots| :: slots[k].size == began[k].size
    {
      hide Reached, Whole, Intact, Settled;
      ReachedSizes(bounds, began, Run(slots, i, Checking));
    }

    lemma Left(i: nat)
      requires Going(i) && AllProper(began)
      ensures Valid() && Reached(bounds, began, Run(slots, item, phase)) && i < |slots|
      ensures |slots| == |began| && forall k | 0 <= k < |slots| :: slots[k].size == began[k].size
      ensures phase == Finished ==> Reached(bounds, began, Run(slots, i + 1, Checking))
    {
      hide Reached, Whole, Intact, Settled;
      ReachedSizes(bounds, began, Run(slots, i, phase));
      ReachedOn(bounds, began, Run(slots, i, phase));
    }

    lemma Behind(i: nat)
      requires Valid() && AllProper(began) && |slots| == |began| && item == i && phase == Checking
      requires Reached(bounds, began, Run(slots, i, Checking)) && (slots == began || Settled(slots))
      ensures Underway(i)
    {
    }

    /** One page: items from `start` on while the item and byte budgets allow. */
    method Execute(start: nat, maxItems: nat, maxBytes: nat, calm: bool) returns (r: Outcome<Page>)
      requires Valid()
      modifies `slots, `past, `began, `bounds, `item, `phase
      ensures Valid() && |slots| == old(|slots|)
      ensures Runs(Bounds(start, maxItems, maxBytes), old(slots), slots)
      ensures forall i | 0 <= i < |slots| :: Grows(old(slots)[i], slots[i])
      ensures Whole(slots) <==> Whole(old(slots))
      ensures AllFirm(old(slots)) && Careful(Bounds(start, maxItems, maxBytes), old(slots), start) ==> AllFirm(slots)
      ensures r.Raised? ==> r.error in {Interrupted, PageRequired, MissingWithoutIntent, InvalidCredit, ReceiptChanged}
      ensures r.Raised? && r.error == PageRequired <==> !PageOk(|slots|, start, maxItems, maxBytes)
      ensures r.Raised? && r.error in {MissingWithoutIntent, InvalidCredit, ReceiptChanged} ==> !Whole(old(slots))
      ensures calm && Whole(old(slots)) && PageOk(|slots|, start, maxItems, maxBytes) ==> r.Done?
      ensures r.Done? ==>
              && PageOk(|slots|, start, maxItems, maxBytes)
              && IsPage(r.value, slots, start, maxItems, maxBytes)
              && r.value.newConfirmed == Confirmed(slots) - Confirmed(old(slots)) == Granted(past) - Granted(old(past))
              && (slots == old(slots) || Settled(slots))
              && (forall i | r.value.nextIndex <= i < |slots| :: OnlySynced(old(slots)[i], slots[i]))
    {
      hide Valid, Going, AllProper, Reached, Runs, Within, Confirmed, Unknown, Completed, Granted, Settled, Whole, Careful, AllFirm,
           AllConsistent, Grows, OnlySynced, Bytes, IsPage, Stops;
      AllSound();
      ghost var b := Bounds(start, maxItems, maxBytes);
      PageKeeps(b, slots, slots);
      if !PageOk(|slots|, start, maxItems, maxBytes) {
        return Raised(PageRequired);
      }
      var _ :- Summary();
      began, bounds, item, phase := slots, b, start, Checking;
      ReachedStart(b, began);
      var run := RemoveRun(start, maxItems, maxBytes, calm);
      PageRuns(b, began, Run(slots, item, phase));
      PageKeeps(b, began, slots);
      if run.Raised? {
        return Raised(run.error);
      }
      StopsWithin(b, slots, item);
      PageDone(b, began, Run(slots, item, Checking));
      var (next, credit) := run.value;
      var page := Report(start, next, credit, maxItems, maxBytes);
      r := Done(page);
    }

    lemma AllSound()
      requires Valid()
      ensures AllProper(slots) && |past| == |slots|
    {
    }

    /** What a page that came to its end returns. */
    method Report(start: nat, next: nat, credit: nat, ghost maxItems: nat, ghost maxBytes: nat) returns (page: Page)
      requires Stops(Bounds(start, maxItems, maxBytes), slots, next) && AllConsistent(slots)
      requires forall i | start <= i < next :: !slots[i].complete.Absent?
      ensures IsPage(page, slots, start, maxItems, maxBytes) && page.nextIndex == next && page.newConfirmed == credit
    {
      hide Bytes, AllConsistent, Confirmed, Unknown, Completed;
      var summary := Summary();
      CompletedAll(slots);
      var (confirmed, unknown, complete) := summary.value;
      page := Page(next - start, next, complete == |slots|, complete, credit, confirmed, unknown);
    }

    /** The machine loses power, at any time. The directory of the records is safe only
        if its own entry is durable (`rooted`). */
    method PowerLoss(rooted: bool) returns (survived: bool)
      requires Valid()
      modifies `slots, `kept
      ensures Valid() && (rooted ==> survived)
      ensures if survived then LosePower(old(slots), slots) && kept == old(kept) else LoseRecords(old(slots), slots) && !kept
      ensures Settled(slots)
      ensures survived && AllFirm(old(slots)) ==> Whole(slots)
    {
      var luck: bool := *;
      survived := rooted || luck;
      var after: seq<Slot> := [];
      for i := 0 to |slots|
        modifies {}
        invariant |after| == i
        invariant forall k | 0 <= k < i :: if survived then LosesPower(slots[k], after[k]) else LosesRecords(slots[k], after[k])
      {
        var s := LoseSlot(slots[i], survived);
        after := after + [s];
      }
      forall k | 0 <= k < |slots|
        ensures Proper(after[k]) && Witnessed(after[k], past[k], kept && survived) && SyncSlot(after[k], Records) == after[k]
      {
        LossKeeps(slots[k], after[k], past[k], kept, survived);
      }
      PowerLossKeepsWhole(slots);
      hide Proper, Witnessed, LosesPower, LosesRecords, SyncSlot, Whole, AllFirm;
      slots, kept := after, kept && survived;
    }

    /** At every moment, whatever kills and losses of power there were: the credit on
        record and all the credit ever granted are bytes of distinct originals that were
        unlinked and are durably gone; and credit granted stays on record as long as the
        directory of the records does. */
    lemma CreditSound()
      requires Valid()
      ensures Confirmed(slots) <= RemovedBytes(slots, past) && Granted(past) <= RemovedBytes(slots, past)
      ensures kept ==> Granted(past) <= Confirmed(slots)
      ensures Confirmed(slots) + Unknown(slots) == ReceiptedBytes(slots)
    {
      CreditAccounts(slots);
      CreditIsReal(slots, past, kept);
    }
  }

  /** What is left of one item. */
  method LoseSlot(s: Slot, survived: bool) returns (s': Slot)
    ensures if survived then LosesPower(s, s') else LosesRecords(s, s')
  {
    var undone: bool := *;
    var intent := LoseMark(s.intent);
    var retired := LoseMark(s.retired);
    var receipt := LoseMark(s.receipt);
    var complete := LoseMark(s.complete);
    s' := s.(file := if s.file != Unlinked then s.file else if undone then Present else Gone, retired := retired);
    s' := if survived then s'.(intent := intent, receipt := receipt, complete := complete)
          else s'.(intent := Absent, receipt := Absent, complete := Absent);
  }

  lemma LossKeeps(s: Slot, s': Slot, p: Past, kept: bool, survived: bool)
    requires Proper(s) && Witnessed(s, p, kept)
    requires if survived then LosesPower(s, s') else LosesRecords(s, s')
    ensures Proper(s') && Witnessed(s', p, kept && survived) && SyncSlot(s', Records) == s'
  {
  }

  predicate PageOk(items: nat, start: nat, maxItems: nat, maxBytes: nat) {
    && 0 < items <= MAX_ITEMS && start < items
    && 0 < maxItems <= MAX_ITEMS && 0 < maxBytes <= MAX_PAGE_BYTES
  }

  /** The budgets of a page cover its items up to the next one, and not that one. */
  predicate Stops(b: Bounds, slots: seq<Slot>, next: nat) {
    && b.start <= next <= |slots| && next - b.start <= b.maxItems && Bytes(slots, b.start, next) <= b.maxBytes
    && (next < |slots| ==> next - b.start == b.maxItems || Bytes(slots, b.start, next + 1) > b.maxBytes)
  }

  lemma StopsWithin(b: Bounds, slots: seq<Slot>, i: nat)
    requires Stops(b, slots, i)
    ensures b.start <= i <= |slots|
  {
  }

  lemma StopsHere(b: Bounds, slots: seq<Slot>, i: nat)
    requires b.start <= i <= |slots| && i - b.start <= b.maxItems && Bytes(slots, b.start, i) <= b.maxBytes
    requires i < |slots| ==> i - b.start == b.maxItems || Bytes(slots, b.start, i) + slots[i].size > b.maxBytes
    ensures Stops(b, slots, i)
  {
  }

  /** A finished page: the longest run of items from `start` that the budgets
      allow, all of them now complete, and the totals over the whole plan. */
  predicate IsPage(p: Page, slots: seq<Slot>, start: nat, maxItems: nat, maxBytes: nat) {
    && Stops(Bounds(start, maxItems, maxBytes), slots, p.nextIndex) && p.visited == p.nextIndex - start
    && (forall i | start <= i < p.nextIndex :: !slots[i].complete.Absent?)
    && p.completed == Completed(slots) && p.confirmed == Confirmed(slots) && p.uncredited == Unknown(slots)
    && (p.complete <==> forall i | 0 <= i < |slots| :: !slots[i].complete.Absent?)
  }

  lemma NoBytes(slots: seq<Slot>, i: nat)
    requires i <= |slots|
    ensures Bytes(slots, i, i) == 0
  {
  }

  lemma BytesNext(b: Bounds, slots: seq<Slot>, i: nat)
    requires b.start <= i < |slots|
    ensures Bytes(slots, b.start, i + 1) == Bytes(slots, b.start, i) + slots[i].size
    ensures Within(b, slots, i) <==> i - b.start < b.maxItems && Bytes(slots, b.start, i) + slots[i].size <= b.maxBytes
  {
  }

  lemma {:induction false} BytesSame(slots: seq<Slot>, slots': seq<Slot>, i: nat, j: nat)
    requires i <= j <= |slots| == |slots'|
    requires forall k | 0 <= k < |slots| :: slots'[k].size == slots[k].size
    ensures Bytes(slots', i, j) == Bytes(slots, i, j)
  {
    if i < j {
      BytesSame(slots, slots', i, j - 1);
    }
  }

  lemma {:induction false} CompletedAll(slots: seq<Slot>)
    ensures Completed(slots) <= |slots|
    ensures Completed(slots) == |slots| <==> forall i | 0 <= i < |slots| :: !slots[i].complete.Absent?
  {
    if slots != [] {
      CompletedAll(slots[..|slots| - 1]);
    }
  }

  /** The receipts of a plan account for every receipted byte: it is confirmed as
      removed or reported as absent without credit, never both. */
  lemma {:induction false} CreditAccounts(slots: seq<Slot>)
    requires AllProper(slots)
    ensures Confirmed(slots) + Unknown(slots) == ReceiptedBytes(slots)
  {
    if slots != [] {
      assert Proper(slots[|slots| - 1]);
      CreditAccounts(slots[..|slots| - 1]);
    }
  }

  /** Credit on record, and credit granted, never exceed the sizes of the distinct
      originals that were unlinked and are durably gone. */
  lemma {:induction false} CreditIsReal(slots: seq<Slot>, past: seq<Past>, kept: bool)
    requires |past| == |slots| && AllProper(slots)
    requires forall i | 0 <= i < |slots| :: Witnessed(slots[i], past[i], kept)
    ensures Confirmed(slots) <= RemovedBytes(slots, past) && Granted(past) <= RemovedBytes(slots, past)
    ensures kept ==> Granted(past) <= Confirmed(slots)
  {
    if slots != [] {
      var last := |slots| - 1;
      assert Proper(slots[last]) && Witnessed(slots[last], past[last], kept);
      CreditIsReal(slots[..last], past[..last], kept);
    }
  }

  /** An original that is in place was not credited; once verified it may be unlinked. */
  lemma UnlinkDue(s: Slot, p: Past, kept: bool)
    requires Proper(s) && Witnessed(s, p, kept) && p.verified && s.file == Present
    ensures p.granted == 0 && Credit(s) == 0 && s.retired.Absent?
    ensures var s' := s.(file := Unlinked);
            && Next(Intended, s) == Some((Syncing, Put(s'))) && Credit(s') == 0
            && Next(Syncing, s') == Some((Recording(true), Sync(Folder(s.folder))))
            && SyncSlot(s', Folder(s.folder)) == s.(file := Gone)
            && Witnessed(s, p.(unlinked := true), kept) && Witnessed(s', p, kept)
  {
  }

  /** The manifest's note on an original that is gone. */
  lemma RetirementDue(s: Slot, p: Past, kept: bool, present: bool)
    requires Witnessed(s, p, kept) && s.retired.Absent?
    ensures var s' := s.(retired := Published(if present then s.size else 0));
            && Next(Recording(present), s) == Some((Noting(present), Put(s')))
            && Next(Noting(present), s') == Some((Receipting(present), Sync(Manifest)))
            && Witnessed(s', p, kept) && Credit(s') == Credit(s) && SyncSlot(s', Manifest).size == s.size
  {
  }

  /** The receipt of an original that this page unlinked, or found missing. */
  lemma ReceiptDue(s: Slot, p: Past, kept: bool, present: bool)
    requires Witnessed(s, p, kept) && Fits(Receipting(present), s)
    requires present ==> p.unlinked && p.granted == 0
    ensures var receipt := Receipt(if present then s.size else 0, !present);
            var s' := s.(receipt := Published(receipt));
            && Next(Receipting(present), s) == Some((Settling, Put(s')))
            && Next(Settling, s') == Some((Completing, Sync(Records)))
            && Witnessed(s', p, kept) && Credit(s) == 0 && Credit(s') == receipt.removedBytes
            && SyncSlot(s', Records).receipt == Durable(receipt)
            && (present ==> Witnessed(SyncSlot(s', Records), p.(granted := s.size), kept))
  {
  }

  /** An original with a receipt is gone. */
  lemma CompletionDue(s: Slot, p: Past, kept: bool)
    requires Proper(s) && Witnessed(s, p, kept) && Fits(Completing, s)
    ensures s.file == Gone && !s.receipt.Absent?
    ensures var s' := s.(complete := Published(s.receipt.value));
            && Next(Completing, s) == Some((Closing, Put(s'))) && Next(Closing, s') == Some((Finished, Sync(Records)))
            && Witnessed(s', p.(verified := true), kept) && Credit(s') == Credit(s)
  {
  }

  lemma {:induction false} ConfirmedUpdate(slots: seq<Slot>, i: nat, s: Slot)
    requires i < |slots|
    ensures Confirmed(slots[i := s]) == Confirmed(slots) - Credit(slots[i]) + Credit(s)
  {
    var last := |slots| - 1;
    if i == last {
      assert slots[i := s][..last] == slots[..last];
    } else {
      assert slots[i := s][..last] == slots[..last][i := s];
      ConfirmedUpdate(slots[..last], i, s);
    }
  }

  lemma {:induction false} GrantedUpdate(past: seq<Past>, i: nat, p: Past)
    requires i < |past|
    ensures Granted(past[i := p]) == Granted(past) - past[i].granted + p.granted
  {
    var last := |past| - 1;
    if i == last {
      assert past[i := p][..last] == past[..last];
    } else {
      assert past[i := p][..last] == past[..last][i := p];
      GrantedUpdate(past[..last], i, p);
    }
  }

  lemma SyncTotals(slots: seq<Slot>, d: Directory)
    ensures Confirmed(SyncAll(slots, d)) == Confirmed(slots)
  {
    SameTotals(slots, SyncAll(slots, d));
  }

  /** From any state in which all that is relied on is there, calm pages that follow
      each other's `next_index` finish with every item complete and all credit accounted. */
  method FollowPages(removal: Removal, maxItems: nat, maxBytes: nat) returns (credit: nat)
    requires removal.Valid()
    requires PageOk(|removal.slots|, 0, maxItems, maxBytes)
    requires forall i | 0 <= i < |removal.slots| :: removal.slots[i].size <= maxBytes
    requires Whole(removal.slots)
    modifies removal
    ensures removal.Valid() && |removal.slots| == old(|removal.slots|) && Whole(removal.slots)
    ensures forall i | 0 <= i < |removal.slots| :: !removal.slots[i].complete.Absent? && removal.slots[i].file == Gone
    ensures removal.slots == old(removal.slots) || Settled(removal.slots)
    ensures Confirmed(removal.slots) == Confirmed(old(removal.slots)) + credit
    ensures Granted(removal.past) == Granted(old(removal.past)) + credit
    ensures Confirmed(removal.slots) + Unknown(removal.slots) == ReceiptedBytes(removal.slots)
    ensures Confirmed(removal.slots) <= RemovedBytes(removal.slots, removal.past)
  {
    hide Whole, Settled, Careful, Runs, Confirmed, Granted, AllFirm, Grows, OnlySynced, Bytes;
    credit := 0;
    var next := 0;
    ghost var n := |removal.slots|;
    while next < |removal.slots|
      invariant removal.Valid() && next <= |removal.slots| == n && Whole(removal.slots)
      invariant Follows(removal.slots, next, maxBytes)
      invariant removal.slots == old(removal.slots) || Settled(removal.slots)
      invariant credit == Confirmed(removal.slots) - Confirmed(old(removal.slots)) == Granted(removal.past) - Granted(old(removal.past))
      decreases |removal.slots| - next
    {
      ghost var before := removal.slots;
      var page := removal.Execute(next, maxItems, maxBytes, true);
      FollowsOn(before, removal.slots, page.value, next, maxItems, maxBytes);
      credit, next := credit + page.value.newConfirmed, page.value.nextIndex;
    }
    removal.CreditSound();
  }

  /** The items before the next one are complete, and each fits into a page. */
  predicate Follows(slots: seq<Slot>, next: nat, maxBytes: nat) {
    && (forall i | 0 <= i < |slots| :: slots[i].size <= maxBytes)
    && (forall i | 0 <= i < next && i < |slots| :: !slots[i].complete.Absent?)
  }

  lemma FollowsOn(slots: seq<Slot>, slots': seq<Slot>, page: Page, next: nat, maxItems: nat, maxBytes: nat)
    requires |slots'| == |slots| && Follows(slots, next, maxBytes) && next < |slots| && maxItems > 0
    requires forall i | 0 <= i < |slots| :: Grows(slots[i], slots'[i])
    requires IsPage(page, slots', next, maxItems, maxBytes)
    ensures Follows(slots', page.nextIndex, maxBytes) && page.nextIndex > next
  {
    BytesOne(slots', next);
  }
}
