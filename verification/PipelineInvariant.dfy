/**
 * What every run of the frame pipeline keeps: life cycle and reports, ownership of input
 * buffers, order of announced frames, one-shot output indices.
 */
module PipelineInvariant {
  import opened Basics
  import opened Buffers
  import opened ProducerCache
  import opened PipelineSpec

  // ---------- Life cycle ----------

  predicate Alternates(reports: seq<Report>) {
    forall i | 0 <= i < |reports| :: reports[i] == if i % 2 == 0 then ReportRunning else ReportStopped
  }

  predicate LifeInv(s: State) {
    var life := s.life;
    && life.initialized == life.running
    && (life.leaving != Alive ==> !life.running)
    && (life.phase != IDLE ==> life.cb && life.consumer && life.producer)
    && (life.phase == RUNNING ==> life.running)
    && (life.phase != IDLE ==> life.running || life.leaving == Joining)
    && Alternates(life.reports)
    && (life.phase == IDLE <==> |life.reports| % 2 == 0)
    && (!s.worker.Parked? ==> life.consumer && life.producer && (life.running || life.leaving == Joining))
  }

  lemma LifeStep(s: State, a: Action)
    requires LifeInv(s) && Allowed(s, a)
    ensures LifeInv(Apply(s, a))
  {
    hide LifeInv, Allowed, ApplyLife, ApplyInput, ApplyWorker;
    if IsLife(a) {
      LifeStepLife(s, a);
    } else if IsInput(a) {
      LifeStepInput(s, a);
    } else if IsOutput(a) {
      LifeStepOutput(s, a);
    } else {
      LifeStepWorker(s, a);
    }
  }

  lemma LifeStepOutput(s: State, a: Action)
    requires LifeInv(s)
    ensures LifeInv(ApplyOutput(s, a))
  {
    var t := ApplyOutput(s, a);
    assert t.worker == s.worker && (t.life == s.life || t.life == s.life.(producer := true));
  }

  lemma LifeStepLife(s: State, a: Action)
    requires LifeInv(s) && Allowed(s, a)
    ensures LifeInv(ApplyLife(s, a))
  {
    match a
    case ClearOnDeinit => LifeClear(s);
    case Enable(clear) => LifeEnable(s, clear);
    case EndDeinit =>
    case BeginDeinit =>
    case Start =>
    case CheckStop =>
    case _ =>
  }

  lemma LifeClear(s: State)
    requires LifeInv(s) && s.life.leaving == Joining && s.worker == Parked
    ensures LifeInv(ClearLeaving(s))
  {
  }

  lemma LifeEnable(s: State, clear: bool)
    requires LifeInv(s)
    ensures LifeInv(EnableLocked(s, clear))
  {
    var t := EnableLocked(s, clear);
    assert t.life == s.life.(enabled := true) && t.worker == s.worker;
  }

  lemma LifeStepInput(s: State, a: Action)
    requires LifeInv(s) && Allowed(s, a)
    ensures LifeInv(ApplyInput(s, a))
  {
  }

  lemma LifeStepWorker(s: State, a: Action)
    requires LifeInv(s) && Allowed(s, a)
    ensures LifeInv(ApplyWorker(s, a))
  {
  }

  // ---------- Ownership of input buffers ----------

  /** The input buffer in the worker's hand, not yet given back. */
  function Hand(w: Worker): multiset<nat> {
    match w
    case Holding(src, _, _) => Id(src)
    case Converting(src, _, _) => Id(src)
    case Bypassing(src, _, _) => Id(src)
    case Bypassed(src, _, _, _, _) => Id(src)
    case _ => multiset{}
  }

  function Queued(input: Input): multiset<nat> {
    Ids(input.queue) + Ids(input.attachQueue) + Ids(input.draining)
  }

  function Tracked(s: State): multiset<nat> {
    Queued(s.input) + Hand(s.worker) + s.log.dropped
  }

  predicate Frame(info: Info) {
    info.eos <==> info.seqNum.None?
  }

  predicate FrameInHand(w: Worker) {
    match w
    case Holding(src, _, _) => Frame(src)
    case Converting(src, _, _) => src.seqNum.Some? && !src.eos
    case Converted(src, _, _) => !src.eos
    case Bypassing(src, _, _) => src.seqNum.Some? && !src.eos
    case Bypassed(src, _, _, _, _) => src.seqNum.Some? && !src.eos
    case _ => true
  }

  predicate InputInv(s: State) {
    && AllReal(s.input.attachQueue)
    && s.input.attachIds == IdSet(s.input.attachQueue)
    && (forall info | info in s.input.queue :: Frame(info))
    && FrameInHand(s.worker)
    && (Queued(s.input) != multiset{} ==> s.life.consumer)
    && (s.life.leaving == Clearing ==> Ids(s.input.queue) + Ids(s.input.attachQueue) == multiset{})
  }

  predicate Owned(s: State) {
    && s.log.acquired == s.log.released + Tracked(s)
    && Tracked(s) <= multiset(s.log.held)
  }

  /** A dying worker can still drop the one frame it is working on. */
  function Doomed(s: State): nat {
    if !s.life.running && (s.worker.Fetching? || s.worker.Holding? || s.worker.Bypassing?) then 1 else 0
  }

  predicate DropInv(s: State) {
    |s.log.dropped| + Doomed(s) <= s.life.deaths
  }

  // ---------- Order of announced frames ----------

  predicate Increasing(xs: seq<nat>) {
    forall i, j | 0 <= i < j < |xs| :: xs[i] < xs[j]
  }

  predicate Announces(a: Announcement, frame: Info) {
    a.eos == frame.eos && a.timestamp == frame.timestamp
  }

  /** The frame in the worker's hand is the one pushed at `at`, and everything announced so far is older. */
  predicate AtHand(log: Log, src: Info, at: nat) {
    at < log.head <= |log.pushed| && log.pushed[at] == src && (forall i | i in log.announcedAt :: i < at)
  }

  predicate OrderInv(s: State) {
    var log := s.log;
    && log.head <= |log.pushed|
    && s.input.queue == log.pushed[log.head..]
    && |log.announced| == |log.announcedAt|
    && Increasing(log.announcedAt)
    && (forall i | i in log.announcedAt :: i < log.head)
    && (forall k | 0 <= k < |log.announced| ::
          log.announcedAt[k] < |log.pushed| && Announces(log.announced[k], log.pushed[log.announcedAt[k]]))
    && match s.worker
       case Holding(src, _, at) => AtHand(log, src, at)
       case Converting(src, _, at) => AtHand(log, src, at)
       case Converted(src, _, at) => AtHand(log, src, at)
       case Bypassing(src, _, at) => AtHand(log, src, at)
       case Bypassed(src, _, at, _, _) => AtHand(log, src, at)
       case Announcing(_, frame, at) => AtHand(log, frame, at)
       case _ => true
  }

  // ---------- Output indices ----------

  predicate ImageInHand(w: Worker) {
    match w
    case Holding(_, dst, _) => dst.seqNum.Some?
    case Converting(_, dst, _) => dst.seqNum.Some?
    case Converted(_, dst, _) => dst.seqNum.Some?
    case Failed(dst) => dst.seqNum.Some?
    case Bypassing(_, dst, _) => dst.seqNum.Some?
    case Bypassed(_, dst, _, _, _) => dst.seqNum.Some?
    case _ => true
  }

  ghost predicate OutputInv(s: State) {
    && AllReal(s.output.queue)
    && AllReal(s.output.flushQueue)
    && Keyed(s.output.render)
    && Keyed(s.output.cache)
    && (forall info | info in s.output.taken :: info.seqNum.Some?)
    && ImageInHand(s.worker)
    && s.log.rendered + multiset(s.output.render.Keys) <= s.log.puts
  }

  // ---------- Announcements ----------

  function Indices(announced: seq<Announcement>): multiset<nat> {
    if announced == [] then multiset{}
    else Indices(announced[..|announced| - 1]) + multiset{announced[|announced| - 1].index}
  }

  function Pending(w: Worker): multiset<nat> {
    if w.Announcing? then multiset{w.index} else multiset{}
  }

  predicate Busy(w: Worker) {
    !w.Parked? && !w.AtTest? && !w.Fetching?
  }

  /** Every index put up for output is announced once, and there is always someone to tell. */
  predicate AnnounceInv(s: State) {
    && s.log.puts == Indices(s.log.announced) + Pending(s.worker)
    && (s.input.queue != [] || Busy(s.worker) ==> s.life.cb)
  }

  ghost predicate Inv(s: State) {
    LifeInv(s) && InputInv(s) && Owned(s) && DropInv(s) && OrderInv(s) && OutputInv(s) && AnnounceInv(s)
  }

  // ---------- Dropped frames ----------

  /** Worker actions that move no input buffer. */
  predicate Quiet(a: Action) {
    !a.Fetch? && !a.Convert? && !a.BypassDied? && !a.PublishBypass?
  }

  lemma QuietWorker(s: State, a: Action)
    requires Quiet(a)
    ensures var t := ApplyWorker(s, a);
            && t.life == s.life && t.input == s.input
            && t.log.acquired == s.log.acquired && t.log.released == s.log.released
            && t.log.dropped == s.log.dropped && t.log.held == s.log.held
  {
  }

  lemma QuietHand(s: State, a: Action)
    requires Quiet(a) && FrameInHand(s.worker)
    ensures var t := ApplyWorker(s, a);
            Hand(t.worker) == Hand(s.worker) && FrameInHand(t.worker) && Doomed(t) <= Doomed(s)
  {
  }

  lemma DropStep(s: State, a: Action)
    requires LifeInv(s) && InputInv(s) && DropInv(s) && Allowed(s, a)
    ensures DropInv(Apply(s, a))
  {
    hide ApplyLife, ApplyInput, ApplyWorker;
    if IsLife(a) {
      DropStepLife(s, a);
    } else if IsInput(a) {
      DropStepInput(s, a);
    } else if !IsOutput(a) {
      DropStepWorker(s, a);
    }
  }

  lemma DropStepLife(s: State, a: Action)
    requires DropInv(s) && Allowed(s, a)
    ensures DropInv(ApplyLife(s, a))
  {
    match a
    case ClearOnDeinit =>
    case Enable(_) =>
    case BeginDeinit =>
    case _ =>
  }

  lemma DropStepInput(s: State, a: Action)
    requires DropInv(s) && Allowed(s, a)
    ensures DropInv(ApplyInput(s, a))
  {
    NoDropInput(s, a);
    hide ApplyInput;
  }

  lemma DropStepWorker(s: State, a: Action)
    requires InputInv(s) && DropInv(s) && Allowed(s, a)
    ensures DropInv(ApplyWorker(s, a))
  {
    if Quiet(a) {
      QuietWorker(s, a);
      QuietHand(s, a);
    } else if a.BypassDied? && s.worker.Bypassing? && !s.life.running {
      assert |s.log.dropped + Id(s.worker.src)| == |s.log.dropped| + 1;
    } else {
      NoDrop(s, a);
    }
  }

  lemma NoDrop(s: State, a: Action)
    requires !Quiet(a) && !(a.BypassDied? && s.worker.Bypassing? && !s.life.running)
    ensures var t := ApplyWorker(s, a);
            t.life == s.life && t.log.dropped == s.log.dropped && Doomed(t) <= Doomed(s)
  {
  }

  /** The one step that drops a frame: the worker, about to bypass it, finds the processor dead. */
  predicate Drops(s: State, a: Action) {
    a.BypassDied? && s.worker.Bypassing? && !s.life.running
  }

  lemma DropIff(s: State, a: Action)
    requires InputInv(s) && Allowed(s, a)
    ensures Apply(s, a).log.dropped == s.log.dropped <==> !Drops(s, a)
    ensures Drops(s, a) ==> Apply(s, a).log.dropped == s.log.dropped + Id(s.worker.src) && |Id(s.worker.src)| == 1
  {
    hide ApplyLife, ApplyInput, ApplyWorker, InputInv;
    if IsLife(a) {
      NoDropLife(s, a);
    } else if IsInput(a) {
      NoDropInput(s, a);
    } else if !IsOutput(a) {
      DropIffWorker(s, a);
    }
  }

  lemma DropIffWorker(s: State, a: Action)
    requires InputInv(s)
    ensures ApplyWorker(s, a).log.dropped == s.log.dropped <==> !Drops(s, a)
    ensures Drops(s, a) ==> ApplyWorker(s, a).log.dropped == s.log.dropped + Id(s.worker.src) && |Id(s.worker.src)| == 1
  {
    if Drops(s, a) {
      assert |s.log.dropped + Id(s.worker.src)| == |s.log.dropped| + 1;
    } else if Quiet(a) {
      QuietWorker(s, a);
      hide ApplyWorker;
    } else {
      NoDrop(s, a);
      hide ApplyWorker;
    }
  }

  lemma NoDropLife(s: State, a: Action)
    ensures ApplyLife(s, a).log.dropped == s.log.dropped
  {
    match a
    case ClearOnDeinit =>
    case Enable(_) =>
    case _ =>
  }

  lemma NoDropInput(s: State, a: Action)
    requires Allowed(s, a)
    ensures var t := ApplyInput(s, a);
            && t.log.dropped == s.log.dropped && t.worker == s.worker
            && t.life.running == s.life.running && t.life.deaths == s.life.deaths
  {
    match a
    case Flush(_) =>
    case RefreshAll =>
    case NotifyEos =>
    case Acquire(_, _, _) =>
    case _ =>
      SurfaceEffect(s, a);
      hide ApplyInput;
  }

  // ---------- Input steps ----------

  predicate InputOk(s: State) {
    InputInv(s) && Owned(s)
  }

  /** Only the parts that the input invariants mention matter to them. */
  lemma SameInput(s: State, t: State)
    requires InputOk(s) && FrameInHand(t.worker)
    requires t.input == s.input && t.life.consumer == s.life.consumer && t.life.leaving == s.life.leaving
    requires Hand(t.worker) + t.log.dropped == Hand(s.worker) + s.log.dropped
    requires t.log.acquired == s.log.acquired && t.log.released == s.log.released && t.log.held == s.log.held
    ensures InputOk(t)
  {
    assert Tracked(t) == Queued(s.input) + (Hand(t.worker) + t.log.dropped);
    assert Tracked(s) == Queued(s.input) + (Hand(s.worker) + s.log.dropped);
  }

  lemma TakeInputsOk(s: State)
    requires InputOk(s)
    ensures InputOk(TakeInputs(s))
  {
    var input := s.input;
    IdsAppend(input.draining + input.queue, input.attachQueue);
    IdsAppend(input.draining, input.queue);
    assert Queued(TakeInputs(s).input) == Queued(input);
  }

  lemma ClearQueuesOk(s: State)
    requires InputOk(s)
    ensures InputOk(ClearQueues(s))
  {
    TakeInputsOk(s);
    var t := TakeInputs(s);
    SameInput(t.(input := t.input.(ready := false)), ClearQueues(s));
  }

  lemma PushOk(s: State, info: Info)
    requires InputInv(s) && Frame(info)
    requires s.life.consumer && s.life.leaving != Clearing
    ensures InputInv(Push(s, info))
    ensures Tracked(Push(s, info)) == Tracked(s) + Id(info)
  {
    IdsAppend(s.input.queue, [info]);
    IdsOne(info);
  }

  /** A number that occurs at most once can be given back to the surface. */
  lemma ReleaseOk(s: State, t: State, ids: multiset<nat>, refused: set<nat>)
    requires Owned(s) && t.log == Release(s.log, ids, refused)
    requires Tracked(t) + ids == Tracked(s)
    ensures Owned(t)
  {
    forall id
      ensures Tracked(t)[id] <= multiset(t.log.held)[id]
    {
      assert Tracked(s)[id] == Tracked(t)[id] + ids[id];
      assert Tracked(s)[id] <= multiset(s.log.held)[id] <= 1;
    }
  }

  lemma ReleaseAttachedOk(s: State, n: nat, refused: set<nat>)
    requires InputOk(s) && n <= |s.input.attachQueue|
    ensures InputOk(ReleaseAttached(s, n, refused))
  {
    var q := s.input.attachQueue;
    var t := ReleaseAttached(s, n, refused);
    IdsSplit(q, n);
    forall id
      ensures Ids(q)[id] <= 1
    {
      assert Ids(q)[id] <= Tracked(s)[id] <= multiset(s.log.held)[id] <= 1;
    }
    IdSetDrop(q, n);
    assert Tracked(t) + Ids(q[..n]) == Tracked(s);
    ReleaseOk(s, t, Ids(q[..n]), refused);
  }

  lemma NothingReleased(s: State, refused: set<nat>)
    ensures ReleaseAttached(s, 0, refused) == s
  {
    assert s.input.attachQueue[..0] == [];
    assert IdSet([]) == {};
  }

  lemma IdsHead(q: seq<Info>)
    requires q != []
    ensures Ids(q) == Id(q[0]) + Ids(q[1..])
  {
    IdsSplit(q, 1);
    assert q[..1] == [q[0]];
    IdsOne(q[0]);
  }

  lemma DrainOk(s: State, refused: set<nat>)
    requires InputOk(s)
    ensures InputOk(DrainOne(s, refused))
  {
    var q := s.input.draining;
    if q != [] {
      if s.life.consumer {
        IdsHead(q);
        var t := DrainOne(s, refused);
        assert t.input == s.input.(draining := q[1..]);
        assert Tracked(t) + Id(q[0]) == Tracked(s);
        ReleaseOk(s, t, Id(q[0]), refused);
      } else {
        assert Ids(q) <= Queued(s.input);
      }
    }
  }

  lemma AcquireOk(s: State, id: nat, timestamp: int, valid: bool)
    requires LifeInv(s) && InputOk(s) && id !in s.log.held
    ensures InputOk(AcquireLocked(s, id, timestamp, valid))
  {
    if s.life.consumer && s.life.phase == RUNNING {
      var t := s.(life := s.life.(enabled := s.life.enabled && valid),
                  log := s.log.(acquired := s.log.acquired + multiset{id}, held := s.log.held + {id}));
      PushOk(t, Info(Some(id), false, timestamp, false, 0));
      HeldGrows(s.log.acquired, s.log.released, Tracked(s), s.log.held, id);
    }
  }

  lemma HeldGrows(acquired: multiset<nat>, released: multiset<nat>, tracked: multiset<nat>, held: set<nat>, id: nat)
    requires acquired == released + tracked && tracked <= multiset(held) && id !in held
    ensures acquired + multiset{id} == released + (tracked + multiset{id})
    ensures tracked + multiset{id} <= multiset(held + {id})
  {
    assert multiset(held + {id}) == multiset(held) + multiset{id};
  }

  lemma InputStep(s: State, a: Action)
    requires LifeInv(s) && InputOk(s) && OrderInv(s) && Allowed(s, a)
    ensures InputOk(Apply(s, a))
  {
    hide ApplyLife, ApplyInput, ApplyOutput, ApplyWorker, InputOk, LifeInv, Allowed;
    if IsLife(a) {
      InputStepLife(s, a);
    } else if IsInput(a) {
      InputStepInput(s, a);
    } else if IsOutput(a) {
      InputStepOutput(s, a);
    } else {
      InputStepWorker(s, a);
    }
  }

  lemma InputStepOutput(s: State, a: Action)
    requires InputOk(s)
    ensures InputOk(ApplyOutput(s, a))
  {
    hide SwapSurface;
    OutputEffect(s, a);
    var t := ApplyOutput(s, a);
    hide ApplyOutput;
    SameInput(s, t);
  }

  lemma OutputEffect(s: State, a: Action)
    ensures var t := ApplyOutput(s, a);
            && t.input == s.input && t.worker == s.worker
            && (t.life == s.life || t.life == s.life.(producer := true))
            && t.log == s.log.(rendered := t.log.rendered)
  {
    match a
    case SetOutput(swap, _, _) =>
      match swap {
        case _ =>
      }
    case _ =>
  }

  lemma InputStepLife(s: State, a: Action)
    requires LifeInv(s) && InputOk(s) && Allowed(s, a)
    ensures InputOk(ApplyLife(s, a))
  {
    hide InputOk, ClearLeaving, EnableLocked, EndLeaving;
    match a
    case ClearOnDeinit => ClearLeavingOk(s);
    case Enable(clear) => EnableOk(s, clear);
    case EndDeinit => EndLeavingOk(s);
    case _ => SameInputLife(s, a);
  }

  lemma EnableOk(s: State, clear: bool)
    requires InputOk(s)
    ensures InputOk(EnableLocked(s, clear))
  {
    var t := s.(life := s.life.(enabled := true));
    assert Tracked(t) == Tracked(s);
    ClearQueuesOk(t);
    hide ClearQueues;
  }

  lemma EndLeavingOk(s: State)
    requires InputOk(s) && s.life.leaving == Clearing && s.input.draining == []
    ensures InputOk(EndLeaving(s))
  {
    assert Queued(s.input) == multiset{};
    assert Tracked(EndLeaving(s)) == Tracked(s);
  }

  lemma SameInputLife(s: State, a: Action)
    requires LifeInv(s) && InputOk(s) && Allowed(s, a)
    requires !a.ClearOnDeinit? && !a.Enable? && !a.EndDeinit?
    ensures InputOk(ApplyLife(s, a))
  {
    LifeEffect(s, a);
    var t := ApplyLife(s, a);
    hide ApplyLife;
    assert Tracked(t) == Tracked(s);
  }

  lemma LifeEffect(s: State, a: Action)
    requires LifeInv(s) && Allowed(s, a)
    requires !a.ClearOnDeinit? && !a.Enable? && !a.EndDeinit?
    ensures var t := ApplyLife(s, a);
            && t.input == s.input && t.worker == s.worker && t.log == s.log && t.output == s.output
            && (s.life.consumer ==> t.life.consumer) && (s.life.cb ==> t.life.cb)
            && (t.life.leaving == Clearing ==> s.life.leaving == Clearing)
  {
    match a
    case Start =>
    case BeginDeinit =>
    case OpenInput(_, _) =>
    case _ =>
  }

  lemma ClearLeavingOk(s: State)
    requires LifeInv(s) && InputOk(s) && s.worker == Parked
    ensures InputOk(ClearLeaving(s))
  {
    TakeInputsOk(s);
    var u := TakeInputs(s);
    var t := ClearLeaving(s);
    assert t.input == u.input.(ready := false) && t.log == u.log && t.life.consumer == s.life.consumer;
    assert Tracked(t) == Tracked(u);
  }

  lemma InputStepInput(s: State, a: Action)
    requires LifeInv(s) && InputOk(s) && Allowed(s, a)
    ensures InputOk(ApplyInput(s, a))
  {
    hide InputOk, LifeInv, ClearQueues, FlushLocked;
    match a
    case Flush(order) => FlushOk(s, order);
    case RefreshAll => ClearQueuesOk(s);
    case NotifyEos =>
      if s.life.phase != IDLE {
        EosOk(s);
      }
    case Acquire(id, timestamp, valid) => AcquireOk(s, id, timestamp, valid);
    case _ => InputStepSurface(s, a);
  }

  lemma InputStepSurface(s: State, a: Action)
    requires InputOk(s) && Allowed(s, a)
    requires !a.Flush? && !a.RefreshAll? && !a.NotifyEos? && !a.Acquire?
    ensures InputOk(ApplyInput(s, a))
  {
    hide InputOk, DrainOne, Request, BufferReleased;
    match a
    case Drain(refused) => DrainOk(s, refused);
    case Prepare(r, order, refused) => RequestOk(s, r, order, refused);
    case Released(r, order, refused) => ReleasedOk(s, r, order, refused);
    case _ =>
  }

  lemma FlushOk(s: State, order: seq<nat>)
    requires InputOk(s)
    ensures InputOk(FlushLocked(s, order))
  {
    if s.life.enabled {
      TakeInputsOk(s);
      SameInput(TakeInputs(s), FlushLocked(s, order));
    } else {
      ClearQueuesOk(s);
    }
  }

  lemma EosOk(s: State)
    requires LifeInv(s) && InputOk(s) && s.life.phase != IDLE
    ensures InputOk(Push(s, Info(None, true, 0, false, 0)))
  {
    var marker := Info(None, true, 0, false, 0);
    PushOk(s, marker);
    assert Tracked(Push(s, marker)) == Tracked(s);
  }

  lemma ReleasedOk(s: State, r: Info, order: seq<nat>, refused: set<nat>)
    requires InputOk(s) && r.seqNum.Some?
    ensures InputOk(BufferReleased(s, r, order, refused))
  {
    RequestOk(s, r, order, refused);
    var t := Request(s, r, order, refused);
    var u := BufferReleased(s, r, order, refused);
    assert u == s || (u.life == t.life && u.input == t.input && u.log == t.log && u.worker == t.worker);
  }

  lemma RequestOk(s: State, r: Info, order: seq<nat>, refused: set<nat>)
    requires InputOk(s) && r.seqNum.Some?
    ensures InputOk(Request(s, r, order, refused))
  {
    var t := s.(output := s.output.(queue := s.output.queue + [r], cache := Add(s.output.cache, r, order)));
    ReleaseAttachedOk(t, AttachedToRelease(s.life, s.input, r.seqNum.value), refused);
  }

  lemma InputStepWorker(s: State, a: Action)
    requires LifeInv(s) && InputOk(s) && OrderInv(s) && Allowed(s, a)
    ensures InputOk(ApplyWorker(s, a))
  {
    hide InputOk, OrderInv, LifeInv, FetchBuffers, ConvertFrame, DieInBypass;
    if Quiet(a) {
      InputStepQuiet(s, a);
    } else {
      match a
      case Fetch =>
        if s.worker.Fetching? {
          FetchOk(s);
        }
      case Convert(ok, refused) => ConvertOk(s, ok, refused);
      case BypassDied => DieInBypassOk(s);
      case PublishBypass(order) => PublishBypassOk(s, order);
    }
  }

  lemma InputStepQuiet(s: State, a: Action)
    requires InputOk(s) && Quiet(a)
    ensures InputOk(ApplyWorker(s, a))
  {
    QuietWorker(s, a);
    QuietHand(s, a);
    hide ApplyWorker;
    SameInput(s, ApplyWorker(s, a));
  }

  lemma DieInBypassOk(s: State)
    requires InputOk(s)
    ensures InputOk(DieInBypass(s))
  {
    if s.worker.Bypassing? && !s.life.running {
      SameInput(s, DieInBypass(s));
    }
  }

  lemma ConvertOk(s: State, ok: bool, refused: set<nat>)
    requires InputOk(s)
    ensures InputOk(ConvertFrame(s, ok, refused))
  {
    if s.worker.Converting? {
      var src := s.worker.src;
      var t := ConvertFrame(s, ok, refused);
      assert t.input == s.input && Hand(t.worker) == multiset{} && FrameInHand(t.worker);
      assert t.life == s.life && t.log == Release(s.log, Id(src), refused);
      hide ConvertFrame;
      assert Tracked(t) + Id(src) == Tracked(s);
      ReleaseOk(s, t, Id(src), refused);
    }
  }

  /** Nothing is taken, unless an image is at hand; then the oldest frame moves to the worker. */
  lemma FetchEffect(s: State)
    requires InputInv(s) && s.worker == Fetching
    ensures var t := FetchBuffers(s);
            var moves := s.input.queue != [] && s.output.queue != [] && s.output.queue[0].seqNum.Some?;
            && t.life == s.life && t.log == s.log.(head := t.log.head)
            && (moves ==>
                  && t.input == s.input.(queue := s.input.queue[1..])
                  && t.worker.Holding? && t.worker.src == s.input.queue[0])
            && (!moves ==> t.input == s.input && t.worker == Parked)
  {
    if s.input.queue != [] {
      assert Frame(s.input.queue[0]);
    }
  }

  lemma FetchOk(s: State)
    requires LifeInv(s) && InputOk(s) && s.worker == Fetching
    ensures InputOk(FetchBuffers(s))
  {
    FetchEffect(s);
    var q := s.input.queue;
    var t := FetchBuffers(s);
    if t.worker.Parked? {
      SameInput(s, t);
    } else {
      FetchedOk(s, t);
    }
  }

  lemma FetchedOk(s: State, t: State)
    requires LifeInv(s) && InputOk(s) && s.worker == Fetching && s.input.queue != [] && t.worker.Holding?
    requires t.life == s.life && t.log == s.log.(head := t.log.head) && t.worker.src == s.input.queue[0]
    requires t.input == s.input.(queue := s.input.queue[1..])
    ensures InputOk(t)
  {
    FetchedTracked(s, t);
    FetchedInput(s, t);
  }

  lemma FetchedTracked(s: State, t: State)
    requires s.worker == Fetching && s.input.queue != [] && t.worker.Holding?
    requires t.log == s.log.(head := t.log.head) && t.worker.src == s.input.queue[0]
    requires t.input == s.input.(queue := s.input.queue[1..])
    ensures Tracked(t) == Tracked(s)
  {
    var q := s.input.queue;
    IdsHead(q);
    var attached, draining, dropped := Ids(s.input.attachQueue), Ids(s.input.draining), s.log.dropped;
    Handed(Ids(q), Id(q[0]), Ids(q[1..]), attached, draining, dropped);
    assert Hand(t.worker) == Id(q[0]) && Hand(s.worker) == multiset{};
    assert Tracked(t) == (Ids(q[1..]) + attached + draining) + Id(q[0]) + dropped;
  }

  lemma FetchedInput(s: State, t: State)
    requires LifeInv(s) && InputInv(s) && s.worker == Fetching && s.input.queue != [] && t.worker.Holding?
    requires t.life == s.life && t.worker.src == s.input.queue[0]
    requires t.input == s.input.(queue := s.input.queue[1..])
    ensures InputInv(t)
  {
    var q := s.input.queue;
    IdsHead(q);
    assert Frame(q[0]);
    assert forall info | info in q[1..] :: info in q;
  }

  lemma Handed(all: multiset<nat>, first: multiset<nat>, rest: multiset<nat>, attached: multiset<nat>,
               draining: multiset<nat>, dropped: multiset<nat>)
    requires all == first + rest
    ensures (rest + attached + draining) + first + dropped == (all + attached + draining) + multiset{} + dropped
  {
  }

  lemma PublishBypassEffect(s: State, order: seq<nat>)
    requires s.worker.Bypassed? && s.worker.src.seqNum.Some?
    ensures var t := PublishBypassed(s, order);
            var src := s.worker.src;
            && t.life == s.life && t.log == s.log.(puts := t.log.puts) && t.worker.Announcing?
            && t.input == s.input.(attachQueue := s.input.attachQueue + [src],
                                   attachIds := s.input.attachIds + {src.seqNum.value})
  {
  }

  /** A frame that reaches the attach queue from the worker's hand changes no count. */
  lemma AttachOk(s: State, t: State, src: Info)
    requires InputOk(s) && src.seqNum.Some? && Hand(s.worker) == Id(src)
    requires s.life.consumer && s.life.leaving != Clearing && t.life == s.life
    requires t.input == s.input.(attachQueue := s.input.attachQueue + [src],
                                 attachIds := s.input.attachIds + {src.seqNum.value})
    requires t.log == s.log.(puts := t.log.puts) && t.worker.Announcing?
    ensures InputOk(t)
  {
    AttachCounts(s, t, src);
    AttachInput(s, t, src);
    hide InputInv, Tracked;
  }

  lemma AttachInput(s: State, t: State, src: Info)
    requires InputInv(s) && src.seqNum.Some? && t.worker.Announcing?
    requires s.life.consumer && s.life.leaving != Clearing && t.life == s.life
    requires t.input == s.input.(attachQueue := s.input.attachQueue + [src],
                                 attachIds := s.input.attachIds + {src.seqNum.value})
    ensures InputInv(t)
  {
    IdSetSnoc(s.input.attachQueue, src);
    assert AllReal(t.input.attachQueue);
  }

  lemma AttachCounts(s: State, t: State, src: Info)
    requires t.input.queue == s.input.queue && t.input.attachQueue == s.input.attachQueue + [src]
    requires t.input.draining == s.input.draining && Hand(s.worker) == Id(src) && Hand(t.worker) == multiset{}
    requires t.log.dropped == s.log.dropped
    ensures Tracked(t) == Tracked(s)
  {
    IdsAppend(s.input.attachQueue, [src]);
    IdsOne(src);
    Regroup(Ids(s.input.queue), Ids(s.input.attachQueue), Ids(s.input.draining), Id(src), s.log.dropped);
  }

  lemma Regroup(x: multiset<nat>, y: multiset<nat>, z: multiset<nat>, h: multiset<nat>, d: multiset<nat>)
    ensures x + (y + h) + z + multiset{} + d == x + y + z + h + d
  {
  }

  lemma PublishBypassOk(s: State, order: seq<nat>)
    requires LifeInv(s) && InputOk(s)
    ensures InputOk(PublishBypassed(s, order))
  {
    if s.worker.Bypassed? {
      PublishBypassEffect(s, order);
      hide PublishBypassed;
      AttachOk(s, PublishBypassed(s, order), s.worker.src);
    }
  }

  lemma IdSetSnoc(q: seq<Info>, info: Info)
    requires info.seqNum.Some?
    ensures IdSet(q + [info]) == IdSet(q) + {info.seqNum.value}
  {
    forall id
      ensures id in IdSet(q + [info]) <==> id in IdSet(q) || id == info.seqNum.value
    {
      if id in IdSet(q) {
        var e :| e in q && e.seqNum == Some(id);
        assert e in q + [info];
      }
      assert info in q + [info];
    }
  }

  // ---------- Order steps ----------

  lemma OrderStep(s: State, a: Action)
    requires OrderInv(s) && Allowed(s, a)
    ensures OrderInv(Apply(s, a))
  {
    hide ApplyLife, ApplyInput, ApplyOutput, ApplyWorker, OrderInv, Allowed;
    if IsLife(a) {
      OrderStepLife(s, a);
    } else if IsInput(a) {
      OrderStepInput(s, a);
    } else if IsOutput(a) {
      OrderStepOutput(s, a);
    } else {
      OrderStepWorker(s, a);
    }
  }

  lemma OrderStepLife(s: State, a: Action)
    requires OrderInv(s) && Allowed(s, a)
    ensures OrderInv(ApplyLife(s, a))
  {
    hide OrderInv, ClearQueues;
    match a
    case ClearOnDeinit => OrderClear(s, StopLocked(s.life).(cb := false, leaving := Clearing));
    case Enable(clear) => OrderEnable(s, clear);
    case _ =>
      OrderLife(s, a);
      hide ApplyLife;
  }

  lemma OrderEnable(s: State, clear: bool)
    requires OrderInv(s)
    ensures OrderInv(EnableLocked(s, clear))
  {
    OrderClear(s, s.life.(enabled := true));
    hide ClearQueues;
  }

  lemma OrderClear(s: State, life: Life)
    requires OrderInv(s)
    ensures OrderInv(ClearQueues(s.(life := life)))
  {
    assert s.log.pushed[|s.log.pushed|..] == [];
  }

  lemma OrderLife(s: State, a: Action)
    requires OrderInv(s) && !a.ClearOnDeinit? && !a.Enable?
    ensures OrderInv(ApplyLife(s, a))
  {
    var t := ApplyLife(s, a);
    assert t.input == s.input && t.worker == s.worker && t.log == s.log;
  }

  lemma OrderStepOutput(s: State, a: Action)
    requires OrderInv(s)
    ensures OrderInv(ApplyOutput(s, a))
  {
    OutputEffect(s, a);
    hide ApplyOutput;
  }

  lemma OrderStepInput(s: State, a: Action)
    requires OrderInv(s) && Allowed(s, a)
    ensures OrderInv(ApplyInput(s, a))
  {
    hide ClearQueues, FlushLocked;
    match a
    case Flush(order) => OrderFlush(s, order);
    case RefreshAll => OrderClear(s, s.life);
    case NotifyEos => OrderPush(s, a);
    case Acquire(_, _, _) => OrderPush(s, a);
    case _ => OrderSurface(s, a);
  }

  lemma OrderSurface(s: State, a: Action)
    requires OrderInv(s) && Allowed(s, a) && !a.Flush? && !a.RefreshAll? && !a.NotifyEos? && !a.Acquire?
    ensures OrderInv(ApplyInput(s, a))
  {
    SurfaceEffect(s, a);
    hide ApplyInput, Allowed, OrderInv;
    SameOrder(s, ApplyInput(s, a));
  }

  lemma SameOrder(s: State, t: State)
    requires OrderInv(s) && t.input.queue == s.input.queue && t.worker == s.worker
    requires t.log == s.log.(released := t.log.released, held := t.log.held)
    ensures OrderInv(t)
  {
  }

  lemma OrderFlush(s: State, order: seq<nat>)
    requires OrderInv(s)
    ensures OrderInv(FlushLocked(s, order))
  {
    assert s.log.pushed[|s.log.pushed|..] == [];
  }

  /** Drains and requests give input buffers back and leave the frames alone. */
  lemma SurfaceEffect(s: State, a: Action)
    requires Allowed(s, a) && !a.Flush? && !a.RefreshAll? && !a.NotifyEos? && !a.Acquire?
    ensures var t := ApplyInput(s, a);
            && t.input.queue == s.input.queue && t.worker == s.worker && t.life == s.life
            && t.log == s.log.(released := t.log.released, held := t.log.held)
  {
    match a
    case Drain(_) =>
    case Prepare(_, _, _) =>
    case Released(_, _, _) =>
    case _ =>
  }

  lemma OrderPush(s: State, a: Action)
    requires OrderInv(s) && Allowed(s, a)
    requires a.NotifyEos? || a.Acquire?
    ensures OrderInv(ApplyInput(s, a))
  {
    var t := ApplyInput(s, a);
    if t != s {
      var frame := t.input.queue[|s.input.queue|];
      assert t.log.pushed == s.log.pushed + [frame];
      assert t.log.pushed[t.log.head..] == s.log.pushed[s.log.head..] + [frame];
    }
  }

  lemma OrderStepWorker(s: State, a: Action)
    requires OrderInv(s) && Allowed(s, a)
    ensures OrderInv(ApplyWorker(s, a))
  {
    hide OrderInv, Allowed, FetchBuffers, DecideBranch, ConvertFrame, PublishHeld, DieInBypass, PublishBypassed;
    hide AnnounceHeld;
    match a
    case Announce => OrderAnnounce(s);
    case Fetch =>
      if s.worker.Fetching? {
        OrderFetch(s);
      }
    case Decide => OrderDecide(s);
    case Convert(ok, refused) => OrderConvert(s, ok, refused);
    case Publish => OrderPublish(s);
    case BypassDied => OrderDie(s);
    case PublishBypass(order) => OrderPublishBypass(s, order);
    case _ => OrderSilent(s, a);
  }

  lemma OrderFetch(s: State)
    requires OrderInv(s) && s.worker.Fetching?
    ensures OrderInv(FetchBuffers(s))
  {
  }

  lemma OrderDecide(s: State)
    requires OrderInv(s)
    ensures OrderInv(DecideBranch(s))
  {
  }

  lemma OrderConvert(s: State, ok: bool, refused: set<nat>)
    requires OrderInv(s)
    ensures OrderInv(ConvertFrame(s, ok, refused))
  {
  }

  lemma OrderPublish(s: State)
    requires OrderInv(s)
    ensures OrderInv(PublishHeld(s))
  {
  }

  lemma OrderDie(s: State)
    requires OrderInv(s)
    ensures OrderInv(DieInBypass(s))
  {
  }

  lemma OrderPublishBypass(s: State, order: seq<nat>)
    requires OrderInv(s)
    ensures OrderInv(PublishBypassed(s, order))
  {
  }

  lemma OrderSilent(s: State, a: Action)
    requires OrderInv(s) && !a.Announce? && !a.Fetch? && !a.Decide? && !a.Convert? && !a.Publish? && !a.BypassDied?
    requires !a.PublishBypass?
    ensures OrderInv(ApplyWorker(s, a))
  {
  }

  lemma OrderAnnounce(s: State)
    requires OrderInv(s)
    ensures OrderInv(AnnounceHeld(s))
  {
    if s.worker.Announcing? {
      AnnounceOk(s);
      hide OrderInv;
    }
  }

  lemma AnnounceOk(s: State)
    requires OrderInv(s) && s.worker.Announcing?
    ensures OrderInv(AnnounceFrame(s, s.worker.index, s.worker.frame, s.worker.at))
  {
    var xs := s.log.announcedAt;
    var ys := xs + [s.worker.at];
    forall i, j | 0 <= i < j < |ys|
      ensures ys[i] < ys[j]
    {
      assert xs[i] in xs;
    }
  }

  // ---------- Output steps ----------

  lemma OutputStep(s: State, a: Action)
    requires OutputInv(s) && AllReal(s.input.attachQueue) && FrameInHand(s.worker) && Allowed(s, a)
    ensures OutputInv(Apply(s, a))
  {
    hide ApplyLife, ApplyInput, ApplyOutput, ApplyWorker, OutputInv, Allowed;
    if IsLife(a) {
      OutputStepLife(s, a);
    } else if IsInput(a) {
      OutputStepInput(s, a);
    } else if IsOutput(a) {
      OutputStepOutput(s, a);
    } else {
      OutputStepWorker(s, a);
    }
  }

  lemma OutputStepLife(s: State, a: Action)
    requires OutputInv(s) && Allowed(s, a)
    ensures OutputInv(ApplyLife(s, a))
  {
    match a
    case ClearOnDeinit =>
    case Enable(_) =>
    case _ =>
      var t := ApplyLife(s, a);
      assert t.output == s.output && t.worker == s.worker && t.log == s.log;
  }

  lemma OutputStepInput(s: State, a: Action)
    requires OutputInv(s) && Allowed(s, a)
    ensures OutputInv(ApplyInput(s, a))
  {
    hide OutputInv, FlushLocked, Request, BufferReleased, ClearQueues;
    match a
    case Flush(order) => OutputFlush(s, order);
    case RefreshAll => OutputClear(s);
    case Prepare(r, order, refused) => OutputRequest(s, r, order, refused);
    case Released(r, order, refused) => OutputReleased(s, r, order, refused);
    case _ => OutputInput(s, a);
  }

  lemma OutputClear(s: State)
    requires OutputInv(s)
    ensures OutputInv(ClearQueues(s))
  {
  }

  lemma OutputFlush(s: State, order: seq<nat>)
    requires OutputInv(s)
    ensures OutputInv(FlushLocked(s, order))
  {
    ValuesReal(s.output.render, order);
  }

  lemma OutputRequest(s: State, r: Info, order: seq<nat>, refused: set<nat>)
    requires OutputInv(s) && r.seqNum.Some?
    ensures OutputInv(Request(s, r, order, refused))
  {
    AddKeepsKeyed(s.output.cache, r, order);
  }

  lemma OutputReleased(s: State, r: Info, order: seq<nat>, refused: set<nat>)
    requires OutputInv(s) && r.seqNum.Some?
    ensures OutputInv(BufferReleased(s, r, order, refused))
  {
    OutputRequest(s, r, order, refused);
    var t := Request(s, r, order, refused);
    var u := BufferReleased(s, r, order, refused);
    hide Request;
    assert u == s || (u.log == t.log && u.worker == t.worker
        && u.output == t.output.(flushQueue := u.output.flushQueue));
  }

  lemma OutputInput(s: State, a: Action)
    requires OutputInv(s) && Allowed(s, a) && (a.NotifyEos? || a.Acquire? || a.Drain? || !IsInput(a))
    ensures OutputInv(ApplyInput(s, a))
  {
    var t := ApplyInput(s, a);
    assert t.output == s.output && t.worker == s.worker;
    assert t.log.rendered == s.log.rendered && t.log.puts == s.log.puts;
  }

  lemma {:induction false} ValuesReal(m: map<nat, Info>, order: seq<nat>)
    requires Keyed(m)
    ensures AllReal(Values(m, order))
  {
    if order != [] {
      ValuesReal(m, order[..|order| - 1]);
    }
  }

  lemma OutputStepOutput(s: State, a: Action)
    requires OutputInv(s) && Allowed(s, a)
    ensures OutputInv(ApplyOutput(s, a))
  {
    hide SwapSurface, TakeRender;
    match a
    case SetOutput(swap, order, trimmed) =>
      SwapOk(s, swap, order, trimmed);
      hide OutputInv;
    case RenderTake(index) =>
      TakeRenderOk(s, index);
      hide OutputInv;
    case _ =>
  }

  lemma SwapOk(s: State, swap: Swap, order: seq<nat>, trimmed: seq<nat>)
    requires OutputInv(s)
    ensures OutputInv(SwapSurface(s, swap, order, trimmed))
  {
    EvictShrinks(s.output.cache, order);
    RefreshReal(s.output.(cache := Evict(s.output.cache, order)), trimmed);
  }

  lemma TakeRenderOk(s: State, index: nat)
    requires OutputInv(s)
    ensures OutputInv(TakeRender(s, index))
  {
    if index in s.output.render {
      var render := s.output.render;
      assert (render - {index}).Keys == render.Keys - {index};
      assert multiset(render.Keys - {index}) + multiset{index} == multiset(render.Keys);
    }
  }

  lemma RefreshReal(o: Output, order: seq<nat>)
    requires Keyed(o.cache)
    ensures AllReal(Refresh(o, order).queue)
  {
    RealReal(o.queue);
    RealReal(o.flushQueue);
    MissingReal(o.cache, IdSet(Real(o.queue) + Real(o.flushQueue)), order);
  }

  lemma {:induction false} RealReal(q: seq<Info>)
    ensures AllReal(Real(q))
  {
    if q != [] {
      RealReal(q[..|q| - 1]);
    }
  }

  lemma {:induction false} MissingReal(cache: Cache, ids: set<nat>, order: seq<nat>)
    requires Keyed(cache)
    ensures AllReal(Missing(cache, ids, order))
  {
    if order != [] {
      MissingReal(cache, ids, order[..|order| - 1]);
    }
  }

  lemma OutputStepWorker(s: State, a: Action)
    requires OutputInv(s) && FrameInHand(s.worker) && Allowed(s, a)
    ensures OutputInv(ApplyWorker(s, a))
  {
    if a.Publish? {
      if s.worker.Holding? || s.worker.Converted? {
        PutOk(s, s.worker.dst);
      }
    } else if a.PublishBypass? {
      if s.worker.Bypassed? {
        PublishBypassKeyed(s, a.order);
      }
    } else {
      OutputStepSilent(s, a);
    }
  }

  lemma PublishBypassKeyed(s: State, order: seq<nat>)
    requires OutputInv(s) && FrameInHand(s.worker) && s.worker.Bypassed?
    ensures OutputInv(PublishBypassed(s, order))
  {
    var src := s.worker.src;
    var dst := s.worker.dst;
    PutOk(s, src);
    var u := Put(s, src);
    var cache := if s.worker.detached then s.output.cache - {dst.seqNum.value} else s.output.cache;
    AddKeepsKeyed(cache, src, order);
    var t := PublishBypassed(s, order);
    assert t.output.cache == if s.worker.attached then Add(cache, src, order) else cache;
    SameOutput(u, t);
  }

  lemma SameOutput(u: State, t: State)
    requires OutputInv(u)
    requires t.output == u.output.(cache := t.output.cache) && t.log == u.log
    requires Keyed(t.output.cache) && ImageInHand(t.worker)
    ensures OutputInv(t)
  {
  }

  lemma OutputStepSilent(s: State, a: Action)
    requires OutputInv(s) && FrameInHand(s.worker) && Allowed(s, a)
    requires !a.Publish? && !a.PublishBypass?
    ensures OutputInv(ApplyWorker(s, a))
  {
    SilentEffect(s, a);
    var t := ApplyWorker(s, a);
    hide ApplyWorker;
    assert OutputInv(t);
  }

  lemma SilentEffect(s: State, a: Action)
    requires AllReal(s.output.queue) && ImageInHand(s.worker) && Allowed(s, a)
    requires !a.Publish? && !a.PublishBypass?
    ensures var t := ApplyWorker(s, a);
            && t.log.puts == s.log.puts && t.log.rendered == s.log.rendered
            && t.output == s.output.(queue := t.output.queue) && AllReal(t.output.queue) && ImageInHand(t.worker)
  {
    match a
    case Fetch =>
      if s.worker.Fetching? {
        FetchSilent(s);
        hide FetchBuffers;
      }
    case Convert(ok, refused) =>
      ConvertSilent(s, ok, refused);
      hide ConvertFrame;
    case Decide =>
    case GiveBack =>
    case BypassDied =>
    case Announce =>
    case _ =>
  }

  lemma ConvertSilent(s: State, ok: bool, refused: set<nat>)
    requires ImageInHand(s.worker)
    ensures var t := ConvertFrame(s, ok, refused);
            && t.log.puts == s.log.puts && t.log.rendered == s.log.rendered && t.output == s.output
               && ImageInHand(t.worker)
  {
  }

  lemma FetchSilent(s: State)
    requires AllReal(s.output.queue)
    ensures var t := FetchBuffers(s);
            && t.log.puts == s.log.puts && t.log.rendered == s.log.rendered
            && t.output == s.output.(queue := t.output.queue) && AllReal(t.output.queue) && ImageInHand(t.worker)
  {
    if s.output.queue != [] {
      assert s.output.queue[0] in s.output.queue;
    }
  }

  lemma PutOk(s: State, image: Info)
    requires image.seqNum.Some? && Keyed(s.output.render)
    requires s.log.rendered + multiset(s.output.render.Keys) <= s.log.puts
    ensures var t := Put(s, image);
            && Keyed(t.output.render)
            && t.log.rendered + multiset(t.output.render.Keys) <= t.log.puts
  {
    var k := image.seqNum.value;
    var keys := s.output.render.Keys;
    assert s.output.render[k := image].Keys == keys + {k};
    assert multiset(keys + {k}) <= multiset(keys) + multiset{k};
  }

  // ---------- Announcement steps ----------

  lemma AnnounceStep(s: State, a: Action)
    requires LifeInv(s) && AnnounceInv(s) && Allowed(s, a)
    ensures AnnounceInv(Apply(s, a))
  {
    hide ApplyLife, ApplyInput, ApplyOutput, ApplyWorker, AnnounceInv, Allowed;
    if IsLife(a) {
      AnnounceStepLife(s, a);
    } else if IsInput(a) {
      AnnounceStepInput(s, a);
    } else if IsOutput(a) {
      AnnounceStepOutput(s, a);
    } else {
      AnnounceStepWorker(s, a);
    }
  }

  lemma AnnounceStepOutput(s: State, a: Action)
    requires AnnounceInv(s) && Allowed(s, a)
    ensures AnnounceInv(ApplyOutput(s, a))
  {
    OutputEffect(s, a);
    hide ApplyOutput;
  }

  lemma AnnounceStepLife(s: State, a: Action)
    requires LifeInv(s) && AnnounceInv(s) && Allowed(s, a)
    ensures AnnounceInv(ApplyLife(s, a))
  {
    hide AnnounceInv, ClearLeaving, EnableLocked;
    match a
    case ClearOnDeinit => AnnounceClear(s);
    case Enable(clear) => AnnounceEnable(s, clear);
    case EndDeinit => AnnounceEnd(s);
    case _ => AnnounceLife(s, a);
  }

  lemma AnnounceEnd(s: State)
    requires AnnounceInv(s)
    ensures AnnounceInv(EndLeaving(s))
  {
  }

  lemma AnnounceLife(s: State, a: Action)
    requires LifeInv(s) && AnnounceInv(s) && Allowed(s, a) && !a.ClearOnDeinit? && !a.Enable? && !a.EndDeinit?
    ensures AnnounceInv(ApplyLife(s, a))
  {
    LifeEffect(s, a);
    hide ApplyLife;
  }

  lemma AnnounceClear(s: State)
    requires AnnounceInv(s) && s.worker == Parked
    ensures AnnounceInv(ClearLeaving(s))
  {
    var t := ClearLeaving(s);
    assert t.log == s.log.(head := t.log.head) && t.worker == Parked && t.input.queue == [];
  }

  lemma AnnounceEnable(s: State, clear: bool)
    requires AnnounceInv(s)
    ensures AnnounceInv(EnableLocked(s, clear))
  {
    var t := EnableLocked(s, clear);
    assert t.log == s.log.(head := t.log.head) && t.worker == s.worker && t.life.cb == s.life.cb;
    assert t.input.queue == s.input.queue || t.input.queue == [];
  }

  lemma AnnounceStepInput(s: State, a: Action)
    requires LifeInv(s) && AnnounceInv(s) && Allowed(s, a)
    ensures AnnounceInv(ApplyInput(s, a))
  {
    match a
    case Flush(_) =>
    case RefreshAll =>
    case NotifyEos =>
    case Acquire(_, _, _) =>
    case _ =>
      SurfaceEffect(s, a);
      hide ApplyInput;
  }

  lemma AnnounceStepWorker(s: State, a: Action)
    requires AnnounceInv(s) && Allowed(s, a)
    ensures AnnounceInv(ApplyWorker(s, a))
  {
    if a.Announce? {
      AnnounceStepHeld(s);
    } else if a.Publish? || a.PublishBypass? {
      AnnounceStepPut(s, a);
    } else {
      AnnounceStepQuiet(s, a);
    }
  }

  lemma AnnounceStepHeld(s: State)
    requires AnnounceInv(s)
    ensures AnnounceInv(AnnounceHeld(s))
  {
    if s.worker.Announcing? {
      var t := AnnounceHeld(s);
      assert t.log.announced[..|s.log.announced|] == s.log.announced;
    }
  }

  lemma AnnounceStepPut(s: State, a: Action)
    requires AnnounceInv(s) && (a.Publish? || a.PublishBypass?)
    ensures AnnounceInv(ApplyWorker(s, a))
  {
    var t := ApplyWorker(s, a);
    assert t.life == s.life && t.input.queue == s.input.queue && t.log.announced == s.log.announced;
    assert t == s || (Pending(s.worker) == multiset{} && t.log.puts == s.log.puts + Pending(t.worker)
        && Busy(s.worker));
  }

  lemma AnnounceStepQuiet(s: State, a: Action)
    requires AnnounceInv(s) && !a.Announce? && !a.Publish? && !a.PublishBypass?
    ensures AnnounceInv(ApplyWorker(s, a))
  {
    var t := ApplyWorker(s, a);
    AnnounceQuietFrame(s, a);
    assert t.input.queue != [] ==> s.input.queue != [];
  }

  lemma AnnounceQuietFrame(s: State, a: Action)
    requires !a.Announce? && !a.Publish? && !a.PublishBypass?
    ensures AnnouncesSame(s, ApplyWorker(s, a))
  {
    match a
    case Fetch => AnnounceFetchFrame(s);
    case Convert(ok, refused) => AnnounceConvertFrame(s, ok, refused);
    case _ => AnnounceOtherFrame(s, a);
  }

  /** Nothing is put into the render map or announced, and no frame appears from nowhere. */
  predicate AnnouncesSame(s: State, t: State) {
    && t.life == s.life && t.log.puts == s.log.puts && t.log.announced == s.log.announced
    && Pending(t.worker) == Pending(s.worker)
    && (t.input.queue == s.input.queue || s.input.queue != [])
    && (Busy(t.worker) ==> Busy(s.worker) || s.input.queue != [])
  }

  lemma AnnounceConvertFrame(s: State, ok: bool, refused: set<nat>)
    ensures AnnouncesSame(s, ConvertFrame(s, ok, refused))
  {
  }

  lemma AnnounceOtherFrame(s: State, a: Action)
    requires !a.Announce? && !a.Publish? && !a.PublishBypass? && !a.Fetch? && !a.Convert?
    ensures AnnouncesSame(s, ApplyWorker(s, a))
  {
  }

  lemma AnnounceFetchFrame(s: State)
    ensures var t := FetchBuffers(s);
            && t.life == s.life && t.log.puts == s.log.puts && t.log.announced == s.log.announced
            && Pending(t.worker) == multiset{}
            && (t.input.queue == s.input.queue || s.input.queue != [])
            && (Busy(t.worker) ==> s.input.queue != [])
  {
  }

  // ---------- Runs ----------

  lemma InitialInv()
    ensures Inv(Initial)
  {
  }

  lemma InvStep(s: State, a: Action)
    requires Inv(s) && Allowed(s, a)
    ensures Inv(Apply(s, a))
  {
    hide Apply, Allowed, LifeInv, Owned, DropInv, OrderInv, AnnounceInv;
    LifeStep(s, a);
    InputStep(s, a);
    DropStep(s, a);
    OrderStep(s, a);
    OutputStep(s, a);
    AnnounceStep(s, a);
  }

  lemma {:induction false} InvRun(s: State, actions: seq<Action>)
    requires Inv(s) && Legal(s, actions)
    ensures Inv(Run(s, actions))
    decreases |actions|
  {
    hide Inv, Apply;
    if actions != [] {
      InvStep(s, actions[0]);
      InvRun(Apply(s, actions[0]), actions[1..]);
    }
  }
}
