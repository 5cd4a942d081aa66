/**
  A JSON document in one file, read and rewritten under an exclusive lock by any
  number of processes that may fail or die at every step, on a machine that may
  lose power at any time.
*/
module AtomicJsonStore {
  import opened Wrappers

  type Byte = b: int | 0 <= b < 256
  type Bytes = seq<Byte>
  type Pid = nat

  /** What a mutation makes of a document: it raises, it leaves the document
      alone, or it changes it. */
  datatype Mutated<Doc, Out> = Raises | Keeps(out: Out) | Changes(out: Out, doc: Doc)

  /** The store's parameters. `decode` is parsing and validation within the size
      bound, `encode` is validation and encoding to a payload within it. */
  datatype Store<!Doc, !Op, Out> = Store(
    default: Doc,
    decode: Bytes -> Option<Doc>,
    encode: Doc -> Option<Bytes>,
    mutation: (Op, Doc) -> Mutated<Doc, Out>)
  {
    /** The document in the target file: a missing file is the default document. */
    function Read(target: Option<Bytes>): Option<Doc> {
      match target
      case None => Some(default)
      case Some(bytes) => decode(bytes)
    }
  }

  datatype Reply<Out> = Returned(out: Out) | Failed

  /** Where a process is in its call. `since` is how many calls had taken effect
      when it began; `entry` is where its own effect stands in the history. */
  datatype Proc<Doc, Op, Out> =
    | Idle
    | Waiting(op: Op, since: nat)
    | Locked(op: Op, since: nat)
    | Holding(op: Op, since: nat, doc: Doc)
    | Writing(op: Op, since: nat, out: Out, payload: Bytes, temp: Bytes)
    | Synced(op: Op, since: nat, out: Out, payload: Bytes, temp: Bytes)
    | Replaced(op: Op, since: nat, out: Out, payload: Bytes, index: nat)
    | Checked(op: Op, since: nat, out: Out, payload: Bytes, index: nat)
    | Finished(op: Op, since: nat, reply: Reply<Out>, entry: Option<nat>)
    | Dead

  /** A call that took effect: what it returns, and the payload if it wrote one. */
  datatype Effect<Op, Out> = Effect(pid: Pid, op: Op, out: Out, payload: Option<Bytes>)

  /** `synced` of the effects are durable: the directory was synced since they
      happened, and a loss of power cannot undo them. */
  datatype State<Doc, Op, Out> = State(
    init: Option<Bytes>,
    target: Option<Bytes>,
    lock: Option<Pid>,
    procs: map<Pid, Proc<Doc, Op, Out>>,
    history: seq<Effect<Op, Out>>,
    synced: nat)

  /** The steps of a process. `Fail` is an error the step may raise instead; a sync
      of the directory that fails is passed over, and some systems have none. */
  datatype Action<Op> =
    | Begin(op: Op)
    | Acquire
    | ReadTarget
    | Mutate
    | WriteSome(n: nat)
    | Sync
    | Replace
    | ReadBack
    | SyncDirectory(ok: bool)
    | Fail
    | Crash

  /** A step of a process, or a loss of power that leaves the target as it was after
      the first effects. */
  datatype Event<Op> = By(pid: Pid, action: Action<Op>) | PowerLoss(left: nat)

  predicate InSection<Doc, Op, Out>(p: Proc<Doc, Op, Out>) {
    p.Locked? || p.Holding? || p.Writing? || p.Synced? || p.Replaced? || p.Checked?
  }

  function At<Doc, Op, Out>(s: State<Doc, Op, Out>, pid: Pid): Proc<Doc, Op, Out> {
    if pid in s.procs then s.procs[pid] else Idle
  }

  function Go<Doc, Op, Out>(s: State<Doc, Op, Out>, pid: Pid, p: Proc<Doc, Op, Out>): State<Doc, Op, Out> {
    s.(procs := s.procs[pid := p])
  }

  /** Leave the critical section with a reply. */
  function Leave<Doc, Op, Out>(s: State<Doc, Op, Out>, pid: Pid, reply: Reply<Out>, entry: Option<nat>): State<Doc, Op, Out>
    requires InSection(At(s, pid))
  {
    Go(s, pid, Finished(At(s, pid).op, At(s, pid).since, reply, entry)).(lock := None)
  }

  /** One step of one process; a step that is not possible changes nothing. */
  function Step<Doc, Op, Out>(w: Store<Doc, Op, Out>, s: State<Doc, Op, Out>, pid: Pid, a: Action<Op>): State<Doc, Op, Out> {
    var p := At(s, pid);
    match a
    case Begin(op) =>
      if p.Idle? || p.Finished? then Go(s, pid, Waiting(op, |s.history|)) else s
    case Acquire =>
      if p.Waiting? && s.lock == None then Go(s, pid, Locked(p.op, p.since)).(lock := Some(pid)) else s
    case ReadTarget =>
      if !p.Locked? then s
      else
        (match w.Read(s.target)
         case None => Leave(s, pid, Failed, None)
         case Some(doc) => Go(s, pid, Holding(p.op, p.since, doc)))
    case Mutate =>
      if !p.Holding? then s
      else
        (match w.mutation(p.op, p.doc)
         case Raises => Leave(s, pid, Failed, None)
         case Keeps(out) =>
           Leave(s, pid, Returned(out), Some(|s.history|)).(history := s.history + [Effect(pid, p.op, out, None)])
         case Changes(out, doc) =>
           (match w.encode(doc)
            case None => Leave(s, pid, Failed, None)
            case Some(payload) => Go(s, pid, Writing(p.op, p.since, out, payload, []))))
    case WriteSome(n) =>
      if !p.Writing? || n == 0 || |p.temp| + n > |p.payload| then s
      else Go(s, pid, Writing(p.op, p.since, p.out, p.payload, p.temp + p.payload[|p.temp|..|p.temp| + n]))
    case Sync =>
      if p.Writing? && |p.temp| == |p.payload| then Go(s, pid, Synced(p.op, p.since, p.out, p.payload, p.temp)) else s
    case Replace =>
      if !p.Synced? then s
      else
        Go(s, pid, Replaced(p.op, p.since, p.out, p.payload, |s.history|)).(
        target := Some(p.temp), history := s.history + [Effect(pid, p.op, p.out, Some(p.payload))])
    case ReadBack =>
      if !p.Replaced? then s
      else if s.target != Some(p.payload) then Leave(s, pid, Failed, Some(p.index))
      else Go(s, pid, Checked(p.op, p.since, p.out, p.payload, p.index))
    case SyncDirectory(ok) =>
      if !p.Checked? then s
      else Leave(s, pid, Returned(p.out), Some(p.index)).(synced := if ok then |s.history| else s.synced)
    case Fail =>
      if InSection(p) then Leave(s, pid, Failed, EntryOf(p)) else s
    case Crash =>
      Go(s, pid, Dead).(lock := if s.lock == Some(pid) then None else s.lock)
  }

  /** Every process is gone, and the lock with it. Replacements that were not synced may
      be undone, the later ones first, and with them what was read from them; one that is
      left is left whole, since the file was synced before it was renamed. */
  function Lose<Doc, Op, Out>(s: State<Doc, Op, Out>, left: nat): State<Doc, Op, Out> {
    if left < s.synced || left > |s.history| || (left < |s.history| && s.history[left].payload == None) then s
    else
      State(s.init, Content(s.init, s.history[..left]), None, map pid | pid in s.procs :: Dead, s.history[..left], left)
  }

  function Happen<Doc, Op, Out>(w: Store<Doc, Op, Out>, s: State<Doc, Op, Out>, e: Event<Op>): State<Doc, Op, Out> {
    match e
    case By(pid, action) => Step(w, s, pid, action)
    case PowerLoss(left) => Lose(s, left)
  }

  function Run<Doc, Op, Out>(w: Store<Doc, Op, Out>, s: State<Doc, Op, Out>, events: seq<Event<Op>>): State<Doc, Op, Out> {
    if events == [] then s
    else Happen(w, Run(w, s, events[..|events| - 1]), events[|events| - 1])
  }

  /** The calls of a history, executed one after the other, lead from one content
      of the target to another: each reads what the one before it left. */
  predicate Serial<Doc, Op, Out(==)>(w: Store<Doc, Op, Out>, from: Option<Bytes>, history: seq<Effect<Op, Out>>, to: Option<Bytes>) {
    if history == [] then to == from
    else
      var e := history[|history| - 1];
      var before := Content(from, history[..|history| - 1]);
      && Serial(w, from, history[..|history| - 1], before)
      && w.Read(before).Some?
      && (match w.mutation(e.op, w.Read(before).value)
          case Raises => false
          case Keeps(out) => e.out == out && e.payload == None && to == before
          case Changes(out, doc) => e.out == out && e.payload.Some? && w.encode(doc) == e.payload && to == e.payload)
  }

  /** The content of the target after a history. */
  function Content<Op, Out>(from: Option<Bytes>, history: seq<Effect<Op, Out>>): Option<Bytes> {
    if history == [] then from
    else if history[|history| - 1].payload.Some? then history[|history| - 1].payload
    else Content(from, history[..|history| - 1])
  }

  /** Since its call began, the process had no effect but the one given, if any. */
  ghost predicate EffectSince<Op, Out>(history: seq<Effect<Op, Out>>, pid: Pid, since: nat, entry: Option<nat>) {
    && since <= |history|
    && forall i | since <= i < |history| :: history[i].pid == pid <==> entry == Some(i)
  }

  function EntryOf<Doc, Op, Out>(p: Proc<Doc, Op, Out>): Option<nat> {
    match p
    case Replaced(_, _, _, _, index) => Some(index)
    case Checked(_, _, _, _, index) => Some(index)
    case Finished(_, _, _, entry) => entry
    case _ => None
  }

  /** What holds of one process at every moment. */
  ghost predicate ProcOk<Doc, Op, Out>(w: Store<Doc, Op, Out>, s: State<Doc, Op, Out>, pid: Pid, p: Proc<Doc, Op, Out>) {
    && (InSection(p) ==> s.lock == Some(pid))
    && (match p
        case Holding(op, since, doc) => w.Read(s.target) == Some(doc)
        case Writing(op, since, out, payload, temp) => temp <= payload && Prepared(w, s.target, op, out, payload)
        case Synced(op, since, out, payload, temp) => temp == payload && Prepared(w, s.target, op, out, payload)
        case Replaced(op, since, out, payload, index) =>
          s.target == Some(payload) && since <= index < |s.history| && s.history[index] == Effect(pid, op, out, Some(payload))
        case Checked(op, since, out, payload, index) =>
          s.target == Some(payload) && since <= index < |s.history| && s.history[index] == Effect(pid, op, out, Some(payload))
        case Finished(op, since, reply, entry) =>
          && (reply.Returned? ==> entry.Some?)
          && (entry.Some? ==>
                since <= entry.value < |s.history|
                && s.history[entry.value].pid == pid && s.history[entry.value].op == op
                && (reply.Returned? ==> s.history[entry.value].out == reply.out))
        case _ => true)
    && (p.Waiting? || InSection(p) || p.Finished? ==> EffectSince(s.history, pid, p.since, EntryOf(p)))
  }

  /** The payload is what the operation makes of the present target. */
  ghost predicate Prepared<Doc, Op, Out>(w: Store<Doc, Op, Out>, target: Option<Bytes>, op: Op, out: Out, payload: Bytes) {
    && w.Read(target).Some?
    && var m := w.mutation(op, w.Read(target).value);
       m.Changes? && m.out == out && w.encode(m.doc) == Some(payload)
  }

  ghost predicate Invariant<Doc, Op, Out>(w: Store<Doc, Op, Out>, init: Option<Bytes>, s: State<Doc, Op, Out>) {
    && (forall pid | pid in s.procs :: ProcOk(w, s, pid, s.procs[pid]))
    && (s.lock.Some? ==> InSection(At(s, s.lock.value)))
    && Serial(w, init, s.history, s.target)
    && s.target == Content(init, s.history)
    && s.init == init && s.synced <= |s.history|
  }

  lemma {:induction false} ContentAppend<Op, Out>(from: Option<Bytes>, history: seq<Effect<Op, Out>>, e: Effect<Op, Out>)
    ensures Content(from, history + [e]) == if e.payload.Some? then e.payload else Content(from, history)
  {
    assert (history + [e])[..|history|] == history;
  }

  lemma SerialAppend<Doc, Op, Out>(w: Store<Doc, Op, Out>, from: Option<Bytes>, history: seq<Effect<Op, Out>>,
                                   e: Effect<Op, Out>, to: Option<Bytes>)
    requires var before := Content(from, history);
             && Serial(w, from, history, before)
             && w.Read(before).Some?
             && (match w.mutation(e.op, w.Read(before).value)
                 case Raises => false
                 case Keeps(out) => e.out == out && e.payload == None && to == before
                 case Changes(out, doc) => e.out == out && e.payload.Some? && w.encode(doc) == e.payload && to == e.payload)
    ensures Serial(w, from, history + [e], to)
  {
    assert (history + [e])[..|history|] == history;
  }

  /** A process that keeps its own state is unharmed when others only add their own
      effects and do not touch the target while it is in its critical section. */
  lemma OthersUnharmed<Doc, Op, Out>(w: Store<Doc, Op, Out>, s: State<Doc, Op, Out>, s': State<Doc, Op, Out>, pid: Pid, p: Proc<Doc, Op, Out>)
    requires ProcOk(w, s, pid, p)
    requires s.history <= s'.history && forall i | |s.history| <= i < |s'.history| :: s'.history[i].pid != pid
    requires InSection(p) ==> s'.lock == s.lock && s'.target == s.target
    ensures ProcOk(w, s', pid, p)
  {
  }

  /** What one step of a process owes to the others and to the history. */
  ghost predicate Behaves<Doc, Op, Out>(w: Store<Doc, Op, Out>, init: Option<Bytes>, s: State<Doc, Op, Out>, s': State<Doc, Op, Out>, pid: Pid) {
    && pid in s'.procs && s'.procs == s.procs[pid := s'.procs[pid]]
    && ProcOk(w, s', pid, s'.procs[pid])
    && s.history <= s'.history && (forall i | |s.history| <= i < |s'.history| :: s'.history[i].pid == pid)
    && (forall q | s.lock == Some(q) && q != pid :: s'.lock == s.lock && s'.target == s.target)
    && (s'.lock.Some? ==> InSection(At(s', s'.lock.value)))
    && Serial(w, init, s'.history, s'.target)
    && s'.target == Content(init, s'.history)
    && s'.init == init && s.synced <= s'.synced <= |s'.history|
  }

  /** Leaving, with whatever reply the history backs, behaves. */
  lemma LeaveBehaves<Doc, Op, Out>(w: Store<Doc, Op, Out>, init: Option<Bytes>, s: State<Doc, Op, Out>, pid: Pid, reply: Reply<Out>, entry: Option<nat>)
    requires Invariant(w, init, s) && InSection(At(s, pid))
    requires entry == EntryOf(At(s, pid)) && (reply.Returned? ==> entry.Some?)
    requires entry.Some? ==>
               var p := At(s, pid);
               && p.since <= entry.value < |s.history|
               && s.history[entry.value].pid == pid && s.history[entry.value].op == p.op
               && (reply.Returned? ==> s.history[entry.value].out == reply.out)
    ensures Behaves(w, init, s, Leave(s, pid, reply, entry), pid)
  {
    hide Serial, Content;
  }

  lemma MutateBehaves<Doc, Op, Out>(w: Store<Doc, Op, Out>, init: Option<Bytes>, s: State<Doc, Op, Out>, pid: Pid)
    requires Invariant(w, init, s) && At(s, pid).Holding?
    ensures Behaves(w, init, s, Step(w, s, pid, Mutate), pid)
  {
    var p := At(s, pid);
    match w.mutation(p.op, p.doc)
    case Raises => LeaveBehaves(w, init, s, pid, Failed, None);
    case Keeps(out) => KeepBehaves(w, init, s, pid);
    case Changes(out, doc) =>
      if w.encode(doc) == None {
        LeaveBehaves(w, init, s, pid, Failed, None);
      }
      hide Serial, Content;
  }

  lemma KeepBehaves<Doc, Op, Out>(w: Store<Doc, Op, Out>, init: Option<Bytes>, s: State<Doc, Op, Out>, pid: Pid)
    requires Invariant(w, init, s) && At(s, pid).Holding? && w.mutation(At(s, pid).op, At(s, pid).doc).Keeps?
    ensures Behaves(w, init, s, Step(w, s, pid, Mutate), pid)
  {
    var p := At(s, pid);
    var e := Effect(pid, p.op, w.mutation(p.op, p.doc).out, None);
    ContentAppend(init, s.history, e);
    SerialAppend(w, init, s.history, e, s.target);
    hide Serial, Content;
  }

  lemma ReplaceBehaves<Doc, Op, Out>(w: Store<Doc, Op, Out>, init: Option<Bytes>, s: State<Doc, Op, Out>, pid: Pid)
    requires Invariant(w, init, s) && At(s, pid).Synced?
    ensures Behaves(w, init, s, Step(w, s, pid, Replace), pid)
  {
    var p := At(s, pid);
    var e := Effect(pid, p.op, p.out, Some(p.payload));
    ContentAppend(init, s.history, e);
    SerialAppend(w, init, s.history, e, Some(p.payload));
    hide Serial, Content;
  }

  lemma LastStepsBehave<Doc, Op, Out>(w: Store<Doc, Op, Out>, init: Option<Bytes>, s: State<Doc, Op, Out>, pid: Pid, a: Action<Op>)
    requires Invariant(w, init, s) && Step(w, s, pid, a) != s
    requires a.SyncDirectory? || a.Fail?
    ensures Behaves(w, init, s, Step(w, s, pid, a), pid)
  {
    hide Serial, Content;
    var p := At(s, pid);
    LeaveBehaves(w, init, s, pid, if a.Fail? then Failed else Returned(p.out), EntryOf(p));
  }

  lemma OtherStepsBehave<Doc, Op, Out>(w: Store<Doc, Op, Out>, init: Option<Bytes>, s: State<Doc, Op, Out>, pid: Pid, a: Action<Op>)
    requires Invariant(w, init, s) && Step(w, s, pid, a) != s
    requires !a.Mutate? && !a.Replace? && !a.SyncDirectory? && !a.Fail?
    ensures Behaves(w, init, s, Step(w, s, pid, a), pid)
  {
    hide Serial, Content;
    if a.ReadTarget? && w.Read(s.target) == None {
      LeaveBehaves(w, init, s, pid, Failed, None);
    }
  }

  /** Every step of every process, failing or dying as it may, keeps the invariant. */
  lemma StepKeeps<Doc, Op, Out>(w: Store<Doc, Op, Out>, init: Option<Bytes>, s: State<Doc, Op, Out>, pid: Pid, a: Action<Op>)
    requires Invariant(w, init, s)
    ensures Invariant(w, init, Step(w, s, pid, a))
    ensures s.history <= Step(w, s, pid, a).history && s.synced <= Step(w, s, pid, a).synced
  {
    var s' := Step(w, s, pid, a);
    if s' != s {
      if a.Mutate? {
        MutateBehaves(w, init, s, pid);
      } else if a.Replace? {
        ReplaceBehaves(w, init, s, pid);
      } else if a.SyncDirectory? || a.Fail? {
        LastStepsBehave(w, init, s, pid, a);
      } else {
        OtherStepsBehave(w, init, s, pid, a);
      }
      hide Step, Serial, Content;
      forall q | q in s'.procs
        ensures ProcOk(w, s', q, s'.procs[q])
      {
        if q != pid {
          OthersUnharmed(w, s, s', q, s.procs[q]);
        }
      }
    }
  }

  /** What is left of a serial history is a serial history. */
  lemma {:induction false} SerialPrefix<Doc, Op, Out>(w: Store<Doc, Op, Out>, from: Option<Bytes>, history: seq<Effect<Op, Out>>,
                                                      to: Option<Bytes>, n: nat)
    requires Serial(w, from, history, to) && n <= |history| && to == Content(from, history)
    ensures Serial(w, from, history[..n], Content(from, history[..n]))
  {
    if n == |history| {
      assert history[..n] == history;
    } else {
      var init := history[..|history| - 1];
      SerialPrefix(w, from, init, Content(from, init), n);
      assert init[..n] == history[..n];
    }
  }

  /** A loss of power keeps the invariant too, and every effect that was durable. */
  lemma LoseKeeps<Doc, Op, Out>(w: Store<Doc, Op, Out>, init: Option<Bytes>, s: State<Doc, Op, Out>, left: nat)
    requires Invariant(w, init, s)
    ensures Invariant(w, init, Lose(s, left))
    ensures s.history[..s.synced] <= Lose(s, left).history <= s.history && s.synced <= Lose(s, left).synced
  {
    if s.synced <= left <= |s.history| {
      SerialPrefix(w, init, s.history, s.target, left);
    }
  }

  function Start<Doc, Op, Out>(target: Option<Bytes>): State<Doc, Op, Out> {
    State(target, target, None, map[], [], 0)
  }

  /** In every run of any processes, interleaved, failing and dying at any step, through
      any losses of power: the history is a serial execution from the first content to
      the present one. */
  lemma {:induction false} EveryRun<Doc, Op, Out>(w: Store<Doc, Op, Out>, init: Option<Bytes>, events: seq<Event<Op>>)
    ensures Invariant(w, init, Run(w, Start(init), events))
    decreases |events|
  {
    if events != [] {
      EveryRun(w, init, events[..|events| - 1]);
      HappenKeeps(w, init, Run(w, Start(init), events[..|events| - 1]), events[|events| - 1]);
    }
  }

  lemma HappenKeeps<Doc, Op, Out>(w: Store<Doc, Op, Out>, init: Option<Bytes>, s: State<Doc, Op, Out>, e: Event<Op>)
    requires Invariant(w, init, s)
    ensures var s' := Happen(w, s, e);
            && Invariant(w, init, s') && s.synced <= s'.synced && |s.history[..s.synced]| == s.synced
            && s.history[..s.synced] <= s'.history && (e.By? ==> s.history <= s'.history)
  {
    hide Step, Lose, Serial, Content;
    match e
    case By(pid, action) => StepKeeps(w, init, s, pid, action);
    case PowerLoss(left) => LoseKeeps(w, init, s, left);
  }

  /** The target is the document it started as, or exactly the payload of some
      encoded document: never a mixture, whoever died while writing. */
  lemma {:induction false} TargetComplete<Doc(!new), Op, Out>(w: Store<Doc, Op, Out>, init: Option<Bytes>, history: seq<Effect<Op, Out>>, target: Option<Bytes>)
    requires Serial(w, init, history, target)
    ensures target == init || exists doc :: w.encode(doc).Some? && target == w.encode(doc)
  {
    if history != [] {
      var e := history[|history| - 1];
      var before := Content(init, history[..|history| - 1]);
      TargetComplete(w, init, history[..|history| - 1], before);
      match w.mutation(e.op, w.Read(before).value)
      case Keeps(out) =>
      case Changes(out, doc) => assert w.encode(doc) == target;
    }
  }

  /** No update is lost while power lasts: after every later step the effects so far are
      still there, in the same order. */
  lemma {:induction false} NothingLost<Doc, Op, Out>(w: Store<Doc, Op, Out>, init: Option<Bytes>, events: seq<Event<Op>>, more: seq<Event<Op>>)
    requires forall e | e in more :: e.By?
    ensures Run(w, Start(init), events).history <= Run(w, Start(init), events + more).history
    decreases |more|
  {
    hide Happen, Invariant;
    if more == [] {
      assert events + more == events;
    } else {
      var init', last := more[..|more| - 1], more[|more| - 1];
      RunNext(w, init, events + init', last);
      assert events + init' + [last] == events + more;
      NothingLost(w, init, events, init');
      EveryRun(w, init, events + init');
      HappenKeeps(w, init, Run(w, Start(init), events + init'), last);
    }
  }

  lemma RunNext<Doc, Op, Out>(w: Store<Doc, Op, Out>, init: Option<Bytes>, events: seq<Event<Op>>, e: Event<Op>)
    ensures Run(w, Start(init), events + [e]) == Happen(w, Run(w, Start(init), events), e)
  {
    assert (events + [e])[..|events|] == events;
  }

  /** Nothing among the first n effects awaits a sync: those since the last one only read. */
  predicate Durable<Doc, Op, Out>(s: State<Doc, Op, Out>, n: nat) {
    n <= |s.history| && forall i | s.synced <= i < n :: s.history[i].payload == None
  }

  lemma DurableOn<Doc, Op, Out>(w: Store<Doc, Op, Out>, init: Option<Bytes>, s: State<Doc, Op, Out>, e: Event<Op>, n: nat)
    requires Invariant(w, init, s) && Durable(s, n)
    ensures Durable(Happen(w, s, e), n) && Happen(w, s, e).history[..n] == s.history[..n]
  {
    hide Step, Serial, Content;
    var s' := Happen(w, s, e);
    match e
    case By(pid, action) =>
      StepKeeps(w, init, s, pid, action);
      assert s'.history[..n] == s.history[..n];
      forall i | s'.synced <= i < n ensures s'.history[i].payload == None {
        assert s'.history[i] == s.history[i];
      }
    case PowerLoss(left) =>
  }

  /** Durable effects stay, whatever happens. */
  lemma {:induction false} DurableStays<Doc, Op, Out>(w: Store<Doc, Op, Out>, init: Option<Bytes>, events: seq<Event<Op>>, more: seq<Event<Op>>, n: nat)
    requires Durable(Run(w, Start(init), events), n)
    ensures var s, s' := Run(w, Start(init), events), Run(w, Start(init), events + more);
            Durable(s', n) && s'.history[..n] == s.history[..n]
    decreases |more|
  {
    hide Happen, Invariant;
    if more == [] {
      assert events + more == events;
    } else {
      var init', last := more[..|more| - 1], more[|more| - 1];
      RunNext(w, init, events + init', last);
      assert events + init' + [last] == events + more;
      DurableStays(w, init, events, init', n);
      EveryRun(w, init, events + init');
      DurableOn(w, init, Run(w, Start(init), events + init'), last, n);
    }
  }

  /** Whatever happens from now on, losses of power too, an effect stays where it is. */
  ghost predicate Survives<Doc, Op(!new), Out>(w: Store<Doc, Op, Out>, init: Option<Bytes>, events: seq<Event<Op>>, index: nat)
    requires index < |Run(w, Start(init), events).history|
  {
    forall more: seq<Event<Op>> ::
      var s, s' := Run(w, Start(init), events), Run(w, Start(init), events + more);
      index < |s'.history| && s'.history[index] == s.history[index]
  }

  /** An effect survives exactly when every replacement up to it was synced. One that
      replaced the target therefore does exactly when the directory was synced since; one
      that only read does not wait for a sync of its own. */
  lemma SurvivesIfSynced<Doc, Op(!new), Out>(w: Store<Doc, Op, Out>, init: Option<Bytes>, events: seq<Event<Op>>, index: nat)
    requires index < |Run(w, Start(init), events).history|
    ensures var s := Run(w, Start(init), events);
            && (Survives(w, init, events, index) <==> forall i | s.synced <= i <= index :: s.history[i].payload == None)
            && (s.history[index].payload.Some? ==> (Survives(w, init, events, index) <==> index < s.synced))
  {
    var s := Run(w, Start(init), events);
    if Durable(s, index + 1) {
      forall more: seq<Event<Op>>
        ensures var s' := Run(w, Start(init), events + more); index < |s'.history| && s'.history[index] == s.history[index]
      {
        DurableStays(w, init, events, more, index + 1);
        var s' := Run(w, Start(init), events + more);
        assert s.history[..index + 1][index] == s'.history[..index + 1][index];
      }
    } else {
      var i :| s.synced <= i <= index && s.history[i].payload.Some?;
      RunNext(w, init, events, PowerLoss(i));
      assert |Run(w, Start(init), events + [PowerLoss(i)]).history| == i;
    }
  }

  /** The target survives every loss of power exactly when before each replacement that
      was not synced it was what it is now. */
  lemma TargetSurvives<Doc, Op, Out>(w: Store<Doc, Op, Out>, init: Option<Bytes>, s: State<Doc, Op, Out>)
    requires Invariant(w, init, s)
    ensures (forall left: nat :: Lose(s, left).target == s.target)
            <==> forall i | s.synced <= i < |s.history| && s.history[i].payload.Some? ::
                   Content(init, s.history[..i]) == s.target
  {
    if forall left: nat :: Lose(s, left).target == s.target {
      forall i | s.synced <= i < |s.history| && s.history[i].payload.Some? ensures Content(init, s.history[..i]) == s.target {
        assert Lose(s, i).target == s.target;
      }
    } else {
      var left: nat :| Lose(s, left).target != s.target;
      assert left < |s.history| by {
        assert s.history[..|s.history|] == s.history;
      }
      assert Lose(s, left).target == Content(init, s.history[..left]);
    }
  }

  /** A mutation returns with its effect durable if it synced the directory; if it could
      not, it returns all the same, with no more durable than before. */
  lemma ReturnsSynced<Doc, Op, Out>(w: Store<Doc, Op, Out>, init: Option<Bytes>, s: State<Doc, Op, Out>, pid: Pid, ok: bool)
    requires Invariant(w, init, s) && At(s, pid).Checked?
    ensures var s' := Step(w, s, pid, SyncDirectory(ok)); var p := At(s', pid);
            && p.Finished? && p.reply == Returned(At(s, pid).out) && p.entry == Some(At(s, pid).index)
            && (ok ==> p.entry.value < s'.synced) && (!ok ==> s'.synced == s.synced)
  {
    assert ProcOk(w, s, pid, At(s, pid));
  }

  /** A finished call took effect at most once, after it began: a call that
      returned did so exactly once and with the outcome it returned; a call that
      failed left the target alone, or had replaced it before it failed. */
  lemma FinishedCall<Doc, Op, Out>(w: Store<Doc, Op, Out>, init: Option<Bytes>, events: seq<Event<Op>>, pid: Pid)
    requires At(Run(w, Start(init), events), pid).Finished?
    ensures var s := Run(w, Start(init), events); var p := At(s, pid);
            && EffectSince(s.history, pid, p.since, p.entry)
            && (p.reply.Returned? ==> p.entry.Some?)
            && (p.entry.Some? ==> p.since <= p.entry.value < |s.history| && s.history[p.entry.value].op == p.op)
            && (p.reply.Returned? ==> s.history[p.entry.value].out == p.reply.out)
  {
    EveryRun(w, init, events);
  }

  /** Two processes are never inside the critical section together. */
  lemma Exclusive<Doc, Op, Out>(w: Store<Doc, Op, Out>, init: Option<Bytes>, events: seq<Event<Op>>, p: Pid, q: Pid)
    requires var s := Run(w, Start(init), events); InSection(At(s, p)) && InSection(At(s, q))
    ensures p == q
  {
    EveryRun(w, init, events);
  }

  // ----- the loop that writes the payload

  /** A file opened for writing: a write takes some of what it is given, or fails. */
  class TemporaryFile {
    var content: Bytes

    constructor ()
      ensures content == []
    {
      content := [];
    }

    method Write(data: Bytes) returns (written: int)
      modifies this
      ensures written <= |data|
      ensures content == old(content) + (if written > 0 then data[..written] else [])
    {
      written :| written <= |data|;
      if written > 0 {
        content := content + data[..written];
      }
    }
  }

  /** Writes exactly the payload, or fails having written a proper part of it. */
  method WritePayload(file: TemporaryFile, payload: Bytes) returns (ok: bool)
    requires file.content == []
    modifies file
    ensures ok ==> file.content == payload
    ensures !ok ==> file.content < payload
    decreases |payload|
  {
    var remaining := payload;
    while remaining != []
      invariant file.content + remaining == payload
      decreases |remaining|
    {
      var written := file.Write(remaining);
      if written <= 0 {
        return false;
      }
      remaining := remaining[written..];
    }
    ok := true;
  }
}
