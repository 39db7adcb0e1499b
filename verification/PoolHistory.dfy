/**
 * Where the older pipelines stand, said by what has been done to them: which frames came in, and
 * for each output buffer since when it is where it is.
 */
module PoolHistory {
  import opened Basics
  import opened PoolSpec
  import opened PoolTheorems
  import opened Histories

  type Did = Step<State, Action>

  ghost function Steps(s: State, actions: seq<Action>): seq<Did>
    decreases |actions|
  {
    if actions == [] then [] else [Step(s, actions[0])] + Steps(Apply(s, actions[0]), actions[1..])
  }

  lemma {:induction false} StepsSnoc(s: State, actions: seq<Action>, a: Action)
    requires Legal(s, actions + [a])
    ensures Legal(s, actions) && Allowed(Run(s, actions), a)
    ensures Run(s, actions + [a]) == Apply(Run(s, actions), a)
    ensures Steps(s, actions + [a]) == Steps(s, actions) + [Step(Run(s, actions), a)]
    decreases |actions|
  {
    if actions == [] {
      assert [] + [a] == [a];
      assert Run(Apply(s, a), []) == Apply(s, a) && Steps(Apply(s, a), []) == [];
    } else {
      assert (actions + [a])[1..] == actions[1..] + [a];
      StepsSnoc(Apply(s, actions[0]), actions[1..], a);
    }
  }

  /** A flag that every step of the one kind sets, of the other kind clears, and all others leave alone. */
  ghost predicate Switched(flag: State -> bool, on: Did -> bool, off: Did -> bool) {
    && (forall kind :: !flag(Initial(kind)))
    && forall s, a | PoolInv(s) && Allowed(s, a) ::
         flag(Apply(s, a)) <==> on(Step(s, a)) || (flag(s) && !off(Step(s, a)))
  }

  lemma SwitchStep(s: State, a: Action, flag: State -> bool, on: Did -> bool, off: Did -> bool)
    requires Switched(flag, on, off) && PoolInv(s) && Allowed(s, a)
    ensures flag(Apply(s, a)) <==> on(Step(s, a)) || (flag(s) && !off(Step(s, a)))
  {
    hide PoolInv, Allowed, Apply;
  }

  lemma {:induction false} SetSince(kind: Kind, actions: seq<Action>, flag: State -> bool, on: Did -> bool,
                                    off: Did -> bool)
    requires Legal(Initial(kind), actions) && Switched(flag, on, off)
    ensures flag(Run(Initial(kind), actions)) <==> Since(Steps(Initial(kind), actions), on, off)
    decreases |actions|
  {
    if actions == [] {
      hide PoolInv, Apply, Allowed;
    } else {
      hide PoolInv, Apply, Allowed, Switched, Run, Legal, Steps, Since;
      var init, a := actions[..|actions| - 1], actions[|actions| - 1];
      assert actions == init + [a];
      StepsSnoc(Initial(kind), init, a);
      InitialPool(kind);
      PoolRun(Initial(kind), init);
      SetSince(kind, init, flag, on, off);
      var s := Run(Initial(kind), init);
      SwitchStep(s, a, flag, on, off);
      SinceSnoc(Steps(Initial(kind), init), Step(s, a), on, off);
    }
  }

  // ---------- What one step does to output buffer `id` ----------

  /** A flush that gives back the whole input queue. */
  predicate FlushesAll(step: Did) {
    step.action.Flush?
    && forall b | b in step.before.queue :: b.memory.Some? && b.memory.value !in step.action.refused
  }

  /** A new output surface while active: what the old one had is reclaimed, even if an attach fails then. */
  predicate Reclaims(step: Did) {
    var phase := step.before.life.phase;
    step.action.SetOutput? && (step.action.surface == AttachFailed || step.action.surface == Attached)
    && (phase == RUNNING || phase == EOS || phase == FLUSHED)
  }

  /** The surface hands a buffer back, and somebody is there to take it. */
  predicate HandsBack(step: Did) {
    step.action.BufferReturned? && step.before.life.outputSet && step.before.pool.flushed != map[]
  }

  /** The surface has given an unknown buffer instead of `id`, the one with the least number among the flushed. */
  predicate Replaces(step: Did, id: nat) {
    var pool := step.before.pool;
    HandsBack(step) && step.action.id !in pool.registry
    && id in pool.flushed && forall j | j in pool.flushed :: id <= j
  }

  predicate Fetches(step: Did, id: nat) {
    var s := step.before;
    step.action.Fetch? && s.worker.Idle? && s.life.running && s.queue != [] && s.pool.free != []
    && s.pool.free[0].id == id
  }

  /** The worker is done with the buffer: with an image or the marker in it, or empty. */
  predicate Finishes(step: Did, id: nat, shown: bool) {
    step.action.Finish? && step.before.worker.Busy? && step.before.worker.dst.id == id
    && shown == (step.before.worker.src.eos || step.action.ok)
  }

  predicate Takes(step: Did, id: nat) {
    var phase := step.before.life.phase;
    step.action == Take(id) && id in step.before.pool.user && (phase == RUNNING || phase == EOS)
  }

  /** The colour-space kind does not let a buffer marked EOS back into circulation. */
  predicate Retires(step: Did, id: nat) {
    Takes(step, id) && step.before.kind == ColorSpaceConverter && step.before.pool.user[id].eos
  }

  /** The buffer is handed to the output surface, which may or may not take it. */
  predicate Offers(step: Did, id: nat, taken: bool) {
    step.action.Flushed? && step.action.index == id && id in step.before.pool.inHand
    && taken == (step.action.ok && step.before.life.outputSet)
  }

  predicate GivesBack(step: Did, id: nat) {
    step.action == GiveBack(id) && id in step.before.pool.inHand
  }

  predicate Fills(step: Did, id: nat) {
    var s := step.before;
    step.action.FillPool? && s.pool.initPending && s.life.running && s.life.outputSet && Some(id) in step.action.grants
  }

  predicate LeavesSurface(step: Did, id: nat) {
    Reclaims(step) || (HandsBack(step) && step.action.id == id) || Replaces(step, id)
  }

  predicate LeavesCall(step: Did, id: nat) {
    (step.action.Flushed? && step.action.index == id) || step.action == GiveBack(id)
  }

  predicate GetsFree(step: Did, id: nat) {
    || Fills(step, id) || Finishes(step, id, false) || GivesBack(step, id)
    || (FlushesAll(step) && id in step.before.pool.user)
    || (Reclaims(step) && id in step.before.pool.flushed)
    || (HandsBack(step) && step.action.id == id)
  }

  predicate IsFree(pool: Pool, id: nat) {
    FreeCount(pool.free, id) > 0
  }

  predicate InWork(worker: Worker, id: nat) {
    worker.Busy? && worker.dst.id == id
  }

  /** Every place gets and loses buffer `id` exactly by these events. */
  predicate PlacesMove(step: Did, after: State, id: nat) {
    var s, t := step.before.pool, after.pool;
    && (id in t.flushed <==> Offers(step, id, true) || (id in s.flushed && !LeavesSurface(step, id)))
    && (id in t.user <==> Finishes(step, id, true) || (id in s.user && !Takes(step, id) && !FlushesAll(step)))
    && (id in t.inHand <==> (Takes(step, id) && !Retires(step, id)) || (id in s.inHand && !LeavesCall(step, id)))
    && (InWork(after.worker, id) <==> Fetches(step, id) || (InWork(step.before.worker, id) && !step.action.Finish?))
    && (IsFree(t, id) <==> GetsFree(step, id) || (IsFree(s, id) && !Fetches(step, id)))
    && (after.log.lost[id] > 0 <==>
          Retires(step, id) || Offers(step, id, false) || step.before.log.lost[id] > 0)
  }

  predicate MovesBuffers(a: Action) {
    a.SetOutput? || a.Flush? || a.Fetch? || a.Finish? || a.Take? || a.Flushed? || a.GiveBack? || a.BufferReturned?
    || a.FillPool?
  }

  /** Every event belongs to one kind of action. */
  lemma EventsOf(step: Did, id: nat)
    ensures FlushesAll(step) ==> step.action.Flush?
    ensures Reclaims(step) ==> step.action.SetOutput?
    ensures HandsBack(step) || Replaces(step, id) ==> step.action.BufferReturned?
    ensures Fetches(step, id) ==> step.action.Fetch?
    ensures Finishes(step, id, true) || Finishes(step, id, false) ==> step.action.Finish?
    ensures Takes(step, id) || Retires(step, id) ==> step.action.Take?
    ensures Offers(step, id, true) || Offers(step, id, false) ==> step.action.Flushed?
    ensures GivesBack(step, id) ==> step.action.GiveBack?
    ensures Fills(step, id) ==> step.action.FillPool?
  {
    hide FreeCount;
  }

  lemma NothingMoves(s: State, a: Action, id: nat)
    requires !MovesBuffers(a)
    ensures PlacesMove(Step(s, a), Apply(s, a), id)
  {
    var t := Apply(s, a);
    StaysPut(s, a);
    EventsOf(Step(s, a), id);
    hide Apply, FlushesAll, Reclaims, HandsBack, Replaces, Fetches, Finishes, Takes, Retires, Offers, GivesBack, Fills;
    hide FreeCount;
    assert IsFree(t.pool, id) == IsFree(s.pool, id);
  }

  lemma StaysPut(s: State, a: Action)
    requires !MovesBuffers(a)
    ensures var t := Apply(s, a);
            && t.pool == s.pool.(usageKnown := t.pool.usageKnown, initPending := t.pool.initPending)
            && t.worker == s.worker && t.log.lost == s.log.lost
  {
    hide Returned, FinishFrame, FetchBuffers, TakeOut, RecordFlush, PutBack, FlushLocked, SetOutputLocked;
  }

  lemma SwapEffect(s: State, surface: NewSurface)
    ensures var t := SetOutputLocked(s, surface);
            && t.worker == s.worker && t.log == s.log
            && t.pool == if Reclaims(Step(s, SetOutput(surface)))
                         then s.pool.(free := s.pool.free + Sorted(s.pool.flushed), flushed := map[])
                         else s.pool
  {
    hide Sorted;
  }

  lemma SwapMoves(s: State, surface: NewSurface, id: nat)
    requires KeyedBy(s.pool.flushed)
    ensures PlacesMove(Step(s, SetOutput(surface)), SetOutputLocked(s, surface), id)
  {
    hide Sorted, FreeCount, SetOutputLocked;
    hide FlushesAll, Reclaims, HandsBack, Replaces, Fetches, Finishes, Takes, Retires, Offers, GivesBack, Fills;
    CountSorted(s.pool.flushed, id);
    CountAppend(s.pool.free, Sorted(s.pool.flushed), id);
    SwapEffect(s, surface);
    EventsOf(Step(s, SetOutput(surface)), id);
  }

  lemma FlushEffect(s: State, refused: set<nat>)
    ensures var t := FlushLocked(s, refused);
            && t.worker == s.worker && t.log.lost == s.log.lost && t.queue == []
            && t.pool == if FlushesAll(Step(s, Flush(refused)))
                         then s.pool.(free := s.pool.free + Sorted(s.pool.user), user := map[])
                         else s.pool
  {
    hide Sorted, Memories;
    assert Flushable(s.queue, refused) == |s.queue| <==> FlushesAll(Step(s, Flush(refused)));
  }

  lemma FlushMoves(s: State, refused: set<nat>, id: nat)
    requires KeyedBy(s.pool.user)
    ensures PlacesMove(Step(s, Flush(refused)), FlushLocked(s, refused), id)
  {
    hide Sorted, FreeCount, FlushLocked;
    hide FlushesAll, Reclaims, HandsBack, Replaces, Fetches, Finishes, Takes, Retires, Offers, GivesBack, Fills;
    CountSorted(s.pool.user, id);
    CountAppend(s.pool.free, Sorted(s.pool.user), id);
    FlushEffect(s, refused);
    EventsOf(Step(s, Flush(refused)), id);
  }

  lemma FetchEffect(s: State, id: nat)
    requires FreeCount(s.pool.free, id) <= 1
    ensures var t, fetched := FetchBuffers(s), Fetches(Step(s, Fetch), id);
            && t.log == s.log && t.pool == s.pool.(free := t.pool.free)
            && (InWork(t.worker, id) <==> fetched || InWork(s.worker, id))
            && (IsFree(t.pool, id) <==> IsFree(s.pool, id) && !fetched)
  {
    if s.pool.free != [] {
      CountHead(s.pool.free, id);
    }
    hide FreeCount;
  }

  lemma FetchMoves(s: State, id: nat)
    requires Places(s, id) <= 1
    ensures PlacesMove(Step(s, Fetch), FetchBuffers(s), id)
  {
    FetchEffect(s, id);
    hide FetchBuffers, IsFree, InWork, Places;
    hide FlushesAll, Reclaims, HandsBack, Replaces, Fetches, Finishes, Takes, Retires, Offers, GivesBack, Fills;
    EventsOf(Step(s, Fetch), id);
  }

  lemma FinishMoves(s: State, ok: bool, id: nat)
    ensures PlacesMove(Step(s, Finish(ok)), FinishFrame(s, ok), id)
  {
    hide FreeCount, FinishFrame;
    hide FlushesAll, Reclaims, HandsBack, Replaces, Fetches, Takes, Retires, Offers, GivesBack, Fills;
    if s.worker.Busy? {
      CountOne(s.pool.free, s.worker.dst.(timestamp := s.worker.src.timestamp), id);
    }
    FinishEffect(s, ok);
    EventsOf(Step(s, Finish(ok)), id);
  }

  lemma FinishEffect(s: State, ok: bool)
    ensures var t := FinishFrame(s, ok);
            && t.log.lost == s.log.lost && t.worker == Idle
            && if s.worker.Busy? then
                 var dst := s.worker.dst;
                 if s.worker.src.eos || ok then
                   t.pool == s.pool.(user := t.pool.user) && t.pool.user.Keys == s.pool.user.Keys + {dst.id}
                 else t.pool == s.pool.(free := s.pool.free + [dst.(timestamp := s.worker.src.timestamp)])
               else t.pool == s.pool
  {
  }

  lemma TakeMoves(s: State, index: nat, id: nat)
    ensures PlacesMove(Step(s, Take(index)), TakeOut(s, index), id)
  {
    hide FreeCount;
    hide FlushesAll, Reclaims, HandsBack, Replaces, Fetches, Finishes, Offers, GivesBack, Fills;
    EventsOf(Step(s, Take(index)), id);
  }

  lemma RecordMoves(s: State, index: nat, ok: bool, id: nat)
    requires KeyedBy(s.pool.inHand)
    ensures PlacesMove(Step(s, Flushed(index, ok)), RecordFlush(s, index, ok), id)
  {
    hide FreeCount;
    hide FlushesAll, Reclaims, HandsBack, Replaces, Fetches, Finishes, Takes, Retires, GivesBack, Fills;
    assert index in s.pool.inHand ==> s.pool.inHand[index].id == index;
    EventsOf(Step(s, Flushed(index, ok)), id);
  }

  lemma PutBackEffect(s: State, index: nat, id: nat)
    requires KeyedBy(s.pool.inHand)
    ensures var t := PutBack(s, index);
            && t.worker == s.worker && t.log == s.log
            && t.pool == s.pool.(free := t.pool.free, inHand := s.pool.inHand - {index})
            && (IsFree(t.pool, id) <==> IsFree(s.pool, id) || (id == index && id in s.pool.inHand))
  {
    if index in s.pool.inHand {
      CountOne(s.pool.free, s.pool.inHand[index], id);
    } else {
      assert s.pool.inHand - {index} == s.pool.inHand;
    }
    hide FreeCount;
  }

  lemma GiveBackMoves(s: State, index: nat, id: nat)
    requires KeyedBy(s.pool.inHand)
    ensures PlacesMove(Step(s, GiveBack(index)), PutBack(s, index), id)
  {
    hide IsFree, KeyedBy, PutBack;
    hide FlushesAll, Reclaims, HandsBack, Replaces, Fetches, Finishes, Takes, Retires, Offers, Fills;
    PutBackEffect(s, index, id);
    EventsOf(Step(s, GiveBack(index)), id);
  }

  lemma ReturnMoves(s: State, back: nat, id: nat)
    requires Places(s, back) == One(back in s.pool.registry) && Allowed(s, BufferReturned(back))
    ensures PlacesMove(Step(s, BufferReturned(back)), Returned(s, back), id)
  {
    hide FreeCount, Returned;
    hide FlushesAll, Reclaims, Fetches, Finishes, Takes, Retires, Offers, GivesBack, Fills;
    CountOne(s.pool.free, OutBuffer(back, false, 0), id);
    ReturnEffect(s, back, id);
    EventsOf(Step(s, BufferReturned(back)), id);
  }

  lemma ReturnEffect(s: State, back: nat, id: nat)
    requires Places(s, back) == One(back in s.pool.registry) && Allowed(s, BufferReturned(back))
    ensures var t, step := Returned(s, back), Step(s, BufferReturned(back));
            && t.worker == s.worker && t.log == s.log
            && if HandsBack(step) then
                 && t.pool.free == s.pool.free + [OutBuffer(back, false, 0)]
                 && t.pool.user == s.pool.user && t.pool.inHand == s.pool.inHand
                 && (id in t.pool.flushed <==> id in s.pool.flushed && id != back && !Replaces(step, id))
               else t.pool == s.pool
  {
    hide FreeCount;
    if s.pool.flushed != map[] && back !in s.pool.registry {
      assert s.pool.flushed - {back} == s.pool.flushed;
    }
  }

  lemma FillEffect(s: State, grants: seq<Option<nat>>, id: nat)
    requires Places(s, id) == One(id in s.pool.registry) && Allowed(s, FillPool(grants))
    ensures var t := InitBuffers(s, grants);
            && t.worker == s.worker && t.log.lost == s.log.lost
            && t.pool.user == s.pool.user && t.pool.inHand == s.pool.inHand && t.pool.flushed == s.pool.flushed
            && (IsFree(t.pool, id) <==> Fills(Step(s, FillPool(grants)), id) || IsFree(s.pool, id))
  {
    FillCounts(s.pool, grants);
    FillGets(s.pool, grants, id);
    hide FreeCount, Fill;
  }

  lemma FillMoves(s: State, grants: seq<Option<nat>>, id: nat)
    requires Places(s, id) == One(id in s.pool.registry) && Allowed(s, FillPool(grants))
    ensures PlacesMove(Step(s, FillPool(grants)), InitBuffers(s, grants), id)
  {
    FillEffect(s, grants, id);
    hide InitBuffers, Places, Allowed, IsFree;
    hide FlushesAll, Reclaims, HandsBack, Replaces, Fetches, Finishes, Takes, Retires, Offers, GivesBack, Fills;
    EventsOf(Step(s, FillPool(grants)), id);
  }

  lemma {:induction false} FillGets(pool: Pool, grants: seq<Option<nat>>, id: nat)
    ensures id in Fill(pool, grants).registry <==> id in pool.registry || Some(id) in grants
  {
    if grants != [] {
      var init, g := grants[..|grants| - 1], grants[|grants| - 1];
      FillGets(pool, init, id);
      assert grants == init + [g];
    }
  }

  lemma Counted(s: State, id: nat)
    requires PoolInv(s)
    ensures Places(s, id) == One(id in s.pool.registry) && Places(s, id) <= 1
  {
    hide Places;
  }

  lemma PlacesBuffers(s: State, a: Action, id: nat)
    requires PoolInv(s) && Allowed(s, a) && !IsLife(a) && MovesBuffers(a)
    ensures PlacesMove(Step(s, a), ApplyBuffers(s, a), id)
  {
    Counted(s, id);
    hide Conserved, FilledOnce, KeyedBy, Places, Allowed, PlacesMove;
    hide FetchBuffers, FinishFrame, TakeOut, RecordFlush, PutBack, Returned, InitBuffers, FlushLocked;
    match a
    case Flush(refused) => FlushMoves(s, refused, id);
    case Fetch => FetchMoves(s, id);
    case Finish(ok) => FinishMoves(s, ok, id);
    case Take(index) => TakeMoves(s, index, id);
    case Flushed(index, ok) => RecordMoves(s, index, ok, id);
    case GiveBack(index) => GiveBackMoves(s, index, id);
    case BufferReturned(back) =>
      Counted(s, back);
      ReturnMoves(s, back, id);
    case FillPool(grants) => FillMoves(s, grants, id);
  }

  lemma PlacesStep(s: State, a: Action, id: nat)
    requires PoolInv(s) && Allowed(s, a)
    ensures PlacesMove(Step(s, a), Apply(s, a), id)
  {
    hide PlacesMove, ApplyBuffers, Allowed;
    if !MovesBuffers(a) {
      NothingMoves(s, a, id);
    } else if IsLife(a) {
      SwapMoves(s, a.surface, id);
    } else {
      PlacesBuffers(s, a, id);
    }
  }

  // ---------- Since when a buffer is where it is ----------

  function AtSurface(id: nat): State -> bool {
    (s: State) => id in s.pool.flushed
  }

  function Shown(id: nat): Did -> bool {
    (step: Did) => Offers(step, id, true)
  }

  function BackFromSurface(id: nat): Did -> bool {
    (step: Did) => LeavesSurface(step, id)
  }

  function WithUser(id: nat): State -> bool {
    (s: State) => id in s.pool.user
  }

  function Announced(id: nat): Did -> bool {
    (step: Did) => Finishes(step, id, true)
  }

  function Collected(id: nat): Did -> bool {
    (step: Did) => Takes(step, id) || FlushesAll(step)
  }

  function InCall(id: nat): State -> bool {
    (s: State) => id in s.pool.inHand
  }

  function Called(id: nat): Did -> bool {
    (step: Did) => Takes(step, id) && !Retires(step, id)
  }

  function CallEnds(id: nat): Did -> bool {
    (step: Did) => LeavesCall(step, id)
  }

  function WithWorker(id: nat): State -> bool {
    (s: State) => InWork(s.worker, id)
  }

  function Fetched(id: nat): Did -> bool {
    (step: Did) => Fetches(step, id)
  }

  function Finished(): Did -> bool {
    (step: Did) => step.action.Finish?
  }

  function Free(id: nat): State -> bool {
    (s: State) => IsFree(s.pool, id)
  }

  function Freed(id: nat): Did -> bool {
    (step: Did) => GetsFree(step, id)
  }

  function Lost(id: nat): State -> bool {
    (s: State) => s.log.lost[id] > 0
  }

  function Dropped(id: nat): Did -> bool {
    (step: Did) => Retires(step, id) || Offers(step, id, false)
  }

  function Never(): Did -> bool {
    (step: Did) => false
  }

  /** Where an output buffer is, from the calls alone. With the surface: exactly since it was accepted for showing
      and until it comes back, is replaced, or a new surface reclaims it. Up for the user: since the worker
      announced it, until it is taken or a complete flush. In a call: from there until the call ends. With the
      worker: since it stood first among the free ones when a frame was fetched. Free: since it was filled in,
      left empty by a failure, given back unshown, flushed, reclaimed or handed back. Lost: for ever. Being in
      one place excludes all others. */
  lemma BufferSince(kind: Kind, actions: seq<Action>, id: nat)
    requires Legal(Initial(kind), actions)
    ensures var s, steps := Run(Initial(kind), actions), Steps(Initial(kind), actions);
            && (id in s.pool.flushed <==> Since(steps, Shown(id), BackFromSurface(id)))
            && (id in s.pool.user <==> Since(steps, Announced(id), Collected(id)))
            && (id in s.pool.inHand <==> Since(steps, Called(id), CallEnds(id)))
            && (InWork(s.worker, id) <==> Since(steps, Fetched(id), Finished()))
            && (IsFree(s.pool, id) <==> Since(steps, Freed(id), Fetched(id)))
            && (s.log.lost[id] > 0 <==> Since(steps, Dropped(id), Never()))
  {
    hide Allowed, Apply, PoolInv, Run, Legal, Steps, Since;
    assert forall k :: FreeCount(Initial(k).pool.free, id) == 0;
    hide FreeCount;
    forall s, a | PoolInv(s) && Allowed(s, a)
      ensures PlacesMove(Step(s, a), Apply(s, a), id)
    {
      PlacesStep(s, a, id);
    }
    hide Fills, FlushesAll, Reclaims, HandsBack, Replaces, Fetches, Finishes, Takes, Retires, Offers, GivesBack;
    hide LeavesSurface, LeavesCall, GetsFree;
    SetSince(kind, actions, AtSurface(id), Shown(id), BackFromSurface(id));
    SetSince(kind, actions, WithUser(id), Announced(id), Collected(id));
    SetSince(kind, actions, InCall(id), Called(id), CallEnds(id));
    SetSince(kind, actions, WithWorker(id), Fetched(id), Finished());
    SetSince(kind, actions, Free(id), Freed(id), Fetched(id));
    SetSince(kind, actions, Lost(id), Dropped(id), Never());
  }

  /** What the surface has is neither free, nor with the worker, nor up for a user, nor in a call. */
  lemma SurfaceBuffersApart(kind: Kind, actions: seq<Action>, id: nat)
    requires Legal(Initial(kind), actions)
    requires Since(Steps(Initial(kind), actions), Shown(id), BackFromSurface(id))
    ensures var s := Run(Initial(kind), actions);
            && id in s.pool.flushed && !IsFree(s.pool, id) && !InWork(s.worker, id)
            && id !in s.pool.user && id !in s.pool.inHand && s.log.lost[id] == 0
  {
    BufferSince(kind, actions, id);
    assert Legal(Run(Initial(kind), actions), []);
    hide Run, Legal, Steps, Since;
    OutputBuffersConserved(kind, actions, []);
    OnePlace(Run(Initial(kind), actions), id);
  }

  lemma OnePlace(s: State, id: nat)
    requires Places(s, id) <= 1 && id in s.pool.flushed
    ensures !IsFree(s.pool, id) && !InWork(s.worker, id)
            && id !in s.pool.user && id !in s.pool.inHand && s.log.lost[id] == 0
  {
    hide FreeCount;
  }

  // ---------- What came in ----------

  /** What one step brings to the input queue: an accepted buffer with its own timestamp, or the marker. */
  function Arrived(step: Did): seq<InBuffer> {
    var life := step.before.life;
    match step.action
    case Acquire(id, timestamp) =>
      if life.running && life.inputSet && life.phase != STOPPED then [InBuffer(Some(id), false, timestamp)] else []
    case NotifyEos => if life.phase == RUNNING then [InBuffer(None, true, 0)] else []
    case _ => []
  }

  predicate Suffix(tail: seq<InBuffer>, all: seq<InBuffer>) {
    |tail| <= |all| && tail == all[|all| - |tail|..]
  }

  lemma SuffixStep(tail: seq<InBuffer>, all: seq<InBuffer>, n: nat, more: seq<InBuffer>)
    requires Suffix(tail, all) && n <= |tail|
    ensures Suffix(tail[n..] + more, all + more)
  {
  }

  lemma NoArrival(s: State, a: Action)
    requires !a.Flush? && !a.Fetch? && !a.Acquire? && !a.NotifyEos?
    ensures var t := Apply(s, a);
            && t.queue == s.queue && t.log.acquired == s.log.acquired
            && (t.worker == s.worker || t.worker == Idle)
  {
    hide Sorted, Fill;
    if !a.Finish? {
      InputFrame(s, a);
      hide Apply;
    }
  }

  /** A flush gives up the whole queue, the worker takes the first frame together with the first free buffer, and
      arrivals go to the end. */
  lemma QueueStep(s: State, a: Action) returns (n: nat)
    ensures n <= |s.queue| && Apply(s, a).queue == s.queue[n..] + Arrived(Step(s, a))
    ensures Apply(s, a).log.acquired == s.log.acquired + Memories(Arrived(Step(s, a)))
    ensures n > 0 ==> a.Flush? || (a.Fetch? && n == 1)
    ensures var worker := Apply(s, a).worker;
            worker == s.worker || worker == Idle
            || (a.Fetch? && n == 1 && s.pool.free != [] && worker == Busy(s.queue[0], s.pool.free[0]))
  {
    n := 0;
    if a.Flush? {
      n := |s.queue|;
      hide Flushable, Sorted;
    } else if a.Fetch? {
      n := if FetchBuffers(s) != s then 1 else 0;
    } else if a.Acquire? || a.NotifyEos? {
      QueueArrival(s, a);
      hide Apply;
    } else {
      NoArrival(s, a);
      hide Apply;
    }
  }

  lemma QueueArrival(s: State, a: Action)
    requires a.Acquire? || a.NotifyEos?
    ensures var t, arrived := Apply(s, a), Arrived(Step(s, a));
            && t.queue == s.queue + arrived && t.worker == s.worker
            && t.log.acquired == s.log.acquired + Memories(arrived)
  {
    hide Memories, Arrived, AcquireLocked, EosLocked;
    if a.Acquire? {
      QueueAcquire(s, a.id, a.timestamp);
    } else {
      QueueEos(s);
    }
  }

  lemma QueueAcquire(s: State, id: nat, timestamp: int)
    ensures var t, arrived := AcquireLocked(s, id, timestamp), Arrived(Step(s, Acquire(id, timestamp)));
            && t.queue == s.queue + arrived && t.worker == s.worker
            && t.log.acquired == s.log.acquired + Memories(arrived)
  {
    AtMostOne(Arrived(Step(s, Acquire(id, timestamp))));
    hide Memories;
  }

  lemma QueueEos(s: State)
    ensures var t, arrived := EosLocked(s), Arrived(Step(s, NotifyEos));
            && t.queue == s.queue + arrived && t.worker == s.worker
            && t.log.acquired == s.log.acquired + Memories(arrived)
  {
    AtMostOne(Arrived(Step(s, NotifyEos)));
    hide Memories;
  }

  lemma AtMostOne(arrived: seq<InBuffer>)
    requires |arrived| <= 1
    ensures Memories(arrived) == if arrived == [] then multiset{} else Memory(arrived[0])
  {
    if arrived != [] {
      MemoriesOne([], arrived[0]);
      assert [] + [arrived[0]] == arrived;
    }
  }

  /** `frames` is what came in: the queue is its tail, and the worker's frame stood in front of that. */
  predicate InOrder(s: State, frames: seq<InBuffer>) {
    && Suffix(s.queue, frames) && s.log.acquired == Memories(frames)
    && (s.worker.Busy? ==> s.worker.src in frames[..|frames| - |s.queue|])
  }

  lemma InOrderStep(s: State, a: Action, frames: seq<InBuffer>)
    requires InOrder(s, frames)
    ensures InOrder(Apply(s, a), frames + Arrived(Step(s, a)))
  {
    var more := Arrived(Step(s, a));
    var n := QueueStep(s, a);
    MemoriesAppend(frames, more);
    hide Apply, Arrived, Memories;
    FramesMove(s.queue, frames, n, more);
    hide Suffix;
  }

  lemma {:induction false} InOrderRun(kind: Kind, actions: seq<Action>)
    requires Legal(Initial(kind), actions)
    ensures InOrder(Run(Initial(kind), actions), Collect(Steps(Initial(kind), actions), Arrived))
    decreases |actions|
  {
    if actions != [] {
      hide Apply, Allowed, Run, Legal, Steps, Collect, Arrived, InOrder;
      var init, a := actions[..|actions| - 1], actions[|actions| - 1];
      assert actions == init + [a];
      StepsSnoc(Initial(kind), init, a);
      InOrderRun(kind, init);
      var s, steps := Run(Initial(kind), init), Steps(Initial(kind), init);
      CollectSnoc(steps, Step(s, a), Arrived);
      InOrderStep(s, a, Collect(steps, Arrived));
    }
  }

  /** The input queue is always the tail of what came in: frames reach the worker in the order of their arrival,
      with the timestamp under which the surface delivered them. */
  lemma FramesInOrder(kind: Kind, actions: seq<Action>)
    requires Legal(Initial(kind), actions)
    ensures var s, frames := Run(Initial(kind), actions), Collect(Steps(Initial(kind), actions), Arrived);
            && Suffix(s.queue, frames) && s.log.acquired == Memories(frames)
            && (s.worker.Busy? ==> s.worker.src in frames[..|frames| - |s.queue|])
  {
    InOrderRun(kind, actions);
    hide Run, Legal, Steps, Collect, Arrived;
  }

  lemma FramesMove(queue: seq<InBuffer>, frames: seq<InBuffer>, n: nat, more: seq<InBuffer>)
    requires Suffix(queue, frames) && n <= |queue|
    ensures var after, longer := queue[n..] + more, frames + more;
            && Suffix(after, longer)
            && frames[..|frames| - |queue|] <= longer[..|longer| - |after|]
            && (n == 1 ==> queue[0] in longer[..|longer| - |after|])
  {
    if n == 1 {
      var at := |frames| - |queue|;
      assert (frames + more)[at] == queue[0];
    }
  }

  // ---------- The life cycle ----------

  predicate IsRunning(s: State) {
    s.life.phase == RUNNING
  }

  predicate IsEnded(s: State) {
    s.life.isEos
  }

  predicate IsAlive(s: State) {
    s.life.running
  }

  predicate HasCallback(s: State) {
    s.life.cb
  }

  predicate HasInput(s: State) {
    s.life.inputSet
  }

  predicate HasOutput(s: State) {
    s.life.outputSet
  }

  predicate Starts(step: Did) {
    var life := step.before.life;
    step.action.Start? && !life.isEos && (life.phase == CONFIGURED || life.phase == STOPPED || life.phase == FLUSHED)
  }

  /** Stop, the end of the stream, Reset and Release end RUNNING, and so do a flush that gives everything back and,
      for the colour-space kind, parameters that are refused. */
  predicate Ends(step: Did) {
    match step.action
    case Stop => true
    case NotifyEos => true
    case Reset(_) => true
    case Release => true
    case Flush(_) => FlushesAll(step)
    case SetParameter(ok) => !ok && step.before.kind == ColorSpaceConverter
    case _ => false
  }

  predicate EndsStream(step: Did) {
    step.action.NotifyEos? && step.before.life.phase == RUNNING
  }

  predicate Resets(step: Did) {
    step.action == Reset(true) && step.before.life.phase != UNINITIALIZED
  }

  predicate Initializes(step: Did) {
    step.action == Init(true) && step.before.life.phase == UNINITIALIZED
  }

  predicate Releases(step: Did) {
    step.action.Release?
  }

  predicate SetsCallback(step: Did) {
    step.action == SetCallback(false)
    && (step.before.life.phase == INITIALIZED || step.before.life.phase == CONFIGURING)
  }

  predicate OpensInput(step: Did) {
    step.action.CreateInput? && step.action.created
    && (step.before.life.phase == INITIALIZED || step.before.life.phase == CONFIGURING)
  }

  predicate OpensOutput(step: Did) {
    var phase := step.before.life.phase;
    step.action.SetOutput? && var surface := step.action.surface;
    if phase == INITIALIZED || phase == CONFIGURING then surface != Invalid && surface != ListenerFailed
    else surface == Attached && (phase == RUNNING || phase == EOS || phase == FLUSHED)
  }

  lemma BuffersAndLife(s: State, a: Action)
    requires !IsLife(a)
    ensures Apply(s, a).life
         == if FlushesAll(Step(s, a)) then s.life.(phase := FLUSHED)
            else if EndsStream(Step(s, a)) then s.life.(phase := EOS, isEos := true)
            else s.life
  {
    hide Sorted, Memories, Fill;
    if a.Flush? {
      assert Flushable(s.queue, a.refused) == |s.queue| <==> FlushesAll(Step(s, a));
    }
  }

  lemma RunningLife(s: State, a: Action)
    requires IsLife(a)
    ensures IsRunning(ApplyLife(s, a)) <==> Starts(Step(s, a)) || (IsRunning(s) && !Ends(Step(s, a)))
  {
    hide Sorted, FlushesAll;
  }

  lemma EndedLife(s: State, a: Action)
    requires IsLife(a)
    ensures IsEnded(ApplyLife(s, a)) <==> EndsStream(Step(s, a)) || (IsEnded(s) && !Resets(Step(s, a)))
  {
    hide Sorted, FlushesAll;
  }

  lemma AliveLife(s: State, a: Action)
    requires IsLife(a)
    ensures IsAlive(ApplyLife(s, a)) <==> Initializes(Step(s, a)) || (IsAlive(s) && !Releases(Step(s, a)))
  {
    hide Sorted, FlushesAll;
  }

  lemma CallbackLife(s: State, a: Action)
    requires IsLife(a)
    ensures HasCallback(ApplyLife(s, a)) <==> SetsCallback(Step(s, a)) || (HasCallback(s) && !Releases(Step(s, a)))
  {
    hide Sorted, FlushesAll;
  }

  lemma InputLife(s: State, a: Action)
    requires IsLife(a)
    ensures HasInput(ApplyLife(s, a)) <==> OpensInput(Step(s, a)) || (HasInput(s) && !Releases(Step(s, a)))
  {
    hide Sorted, FlushesAll;
  }

  lemma OutputLife(s: State, a: Action)
    requires IsLife(a)
    ensures HasOutput(ApplyLife(s, a)) <==> OpensOutput(Step(s, a)) || (HasOutput(s) && !Releases(Step(s, a)))
  {
    hide Sorted, FlushesAll;
  }

  lemma FlagStep(s: State, a: Action)
    ensures var t := Apply(s, a);
            && (IsRunning(t) <==> Starts(Step(s, a)) || (IsRunning(s) && !Ends(Step(s, a))))
            && (IsEnded(t) <==> EndsStream(Step(s, a)) || (IsEnded(s) && !Resets(Step(s, a))))
            && (IsAlive(t) <==> Initializes(Step(s, a)) || (IsAlive(s) && !Releases(Step(s, a))))
            && (HasCallback(t) <==> SetsCallback(Step(s, a)) || (HasCallback(s) && !Releases(Step(s, a))))
            && (HasInput(t) <==> OpensInput(Step(s, a)) || (HasInput(s) && !Releases(Step(s, a))))
            && (HasOutput(t) <==> OpensOutput(Step(s, a)) || (HasOutput(s) && !Releases(Step(s, a))))
  {
    if IsLife(a) {
      hide ApplyLife;
      RunningLife(s, a);
      EndedLife(s, a);
      AliveLife(s, a);
      CallbackLife(s, a);
      InputLife(s, a);
      OutputLife(s, a);
      hide Starts, Ends, EndsStream, Resets, Initializes, Releases, SetsCallback, OpensInput, OpensOutput;
    } else {
      BuffersAndLife(s, a);
      EventsOf(Step(s, a), 0);
      hide Apply, FlushesAll;
    }
  }

  /** RUNNING exactly since a Start that found the stream not ended; the stream is ended exactly since a NotifyEos
      while RUNNING, until a completed Reset; worker, callback and surfaces are there exactly since they were set,
      until Release. */
  lemma LifeSince(kind: Kind, actions: seq<Action>)
    requires Legal(Initial(kind), actions)
    ensures var life, steps := Run(Initial(kind), actions).life, Steps(Initial(kind), actions);
            && (life.phase == RUNNING <==> Since(steps, Starts, Ends))
            && (life.isEos <==> Since(steps, EndsStream, Resets))
            && (life.running <==> Since(steps, Initializes, Releases))
            && (life.cb <==> Since(steps, SetsCallback, Releases))
            && (life.inputSet <==> Since(steps, OpensInput, Releases))
            && (life.outputSet <==> Since(steps, OpensOutput, Releases))
  {
    hide Allowed, Apply, PoolInv, Run, Legal, Steps, Since;
    forall s, a
      ensures IsRunning(Apply(s, a)) <==> Starts(Step(s, a)) || (IsRunning(s) && !Ends(Step(s, a)))
      ensures IsEnded(Apply(s, a)) <==> EndsStream(Step(s, a)) || (IsEnded(s) && !Resets(Step(s, a)))
      ensures IsAlive(Apply(s, a)) <==> Initializes(Step(s, a)) || (IsAlive(s) && !Releases(Step(s, a)))
      ensures HasCallback(Apply(s, a)) <==> SetsCallback(Step(s, a)) || (HasCallback(s) && !Releases(Step(s, a)))
      ensures HasInput(Apply(s, a)) <==> OpensInput(Step(s, a)) || (HasInput(s) && !Releases(Step(s, a)))
      ensures HasOutput(Apply(s, a)) <==> OpensOutput(Step(s, a)) || (HasOutput(s) && !Releases(Step(s, a)))
    {
      FlagStep(s, a);
    }
    hide Starts, Ends, EndsStream, Resets, Initializes, Releases, SetsCallback, OpensInput, OpensOutput;
    SetSince(kind, actions, IsRunning, Starts, Ends);
    SetSince(kind, actions, IsEnded, EndsStream, Resets);
    SetSince(kind, actions, IsAlive, Initializes, Releases);
    SetSince(kind, actions, HasCallback, SetsCallback, Releases);
    SetSince(kind, actions, HasInput, OpensInput, Releases);
    SetSince(kind, actions, HasOutput, OpensOutput, Releases);
  }
}
