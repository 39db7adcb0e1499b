/** What every run of the older pipelines keeps, and exactly where they fall short. */
module PoolTheorems {
  import opened Basics
  import opened PoolSpec

  // ---------- Conservation of output buffers ----------

  function FreeCount(q: seq<OutBuffer>, id: nat): nat {
    if q == [] then 0 else FreeCount(q[..|q| - 1], id) + (if q[|q| - 1].id == id then 1 else 0)
  }

  function One(b: bool): nat {
    if b then 1 else 0
  }

  /** In how many places output buffer `id` is: the free queue, the worker's hand, the user's map, the
      hand of a caller that gives it back, the flushed map, or out of circulation. */
  function Places(s: State, id: nat): nat {
    FreeCount(s.pool.free, id) + One(s.worker.Busy? && s.worker.dst.id == id) + One(id in s.pool.user)
    + One(id in s.pool.inHand) + One(id in s.pool.flushed) + s.log.lost[id]
  }

  ghost predicate KeyedBy(m: map<nat, OutBuffer>) {
    forall k | k in m :: m[k].id == k
  }

  ghost predicate Conserved(s: State) {
    forall id :: Places(s, id) == One(id in s.pool.registry)
  }

  ghost predicate Keyed(pool: Pool) {
    KeyedBy(pool.user) && KeyedBy(pool.inHand) && KeyedBy(pool.flushed)
  }

  ghost predicate FilledOnce(s: State) {
    && (s.pool.initPending || !s.pool.usageKnown ==> s.log.inits == 0)
    && (s.pool.initPending ==> s.pool.usageKnown)
    && (s.log.inits == 0 ==> s.pool.registry == {})
    && s.log.inits <= 1
    && |s.pool.registry| <= BUFFER_COUNT
  }

  ghost predicate PoolInv(s: State) {
    Conserved(s) && Keyed(s.pool) && FilledOnce(s)
  }

  lemma {:induction false} CountAppend(a: seq<OutBuffer>, b: seq<OutBuffer>, id: nat)
    ensures FreeCount(a + b, id) == FreeCount(a, id) + FreeCount(b, id)
  {
    if b == [] {
      assert a + b == a;
    } else {
      var n := |b| - 1;
      assert (a + b)[..|a + b| - 1] == a + b[..n];
      CountAppend(a, b[..n], id);
    }
  }

  lemma CountOne(q: seq<OutBuffer>, b: OutBuffer, id: nat)
    ensures FreeCount(q + [b], id) == FreeCount(q, id) + One(b.id == id)
  {
    assert (q + [b])[..|q|] == q;
  }

  lemma CountHead(q: seq<OutBuffer>, id: nat)
    requires q != []
    ensures FreeCount(q, id) == One(q[0].id == id) + FreeCount(q[1..], id)
  {
    assert q == [q[0]] + q[1..];
    CountAppend([q[0]], q[1..], id);
    CountOne([], q[0], id);
    assert [] + [q[0]] == [q[0]];
  }

  lemma {:induction false} CountSorted(m: map<nat, OutBuffer>, id: nat)
    requires KeyedBy(m)
    ensures FreeCount(Sorted(m), id) == One(id in m)
    decreases |m|
  {
    if m != map[] {
      var k := Least(m.Keys);
      var rest := m - {k};
      assert rest.Keys == m.Keys - {k};
      assert |rest.Keys| < |m.Keys|;
      CountSorted(rest, id);
      CountHead(Sorted(m), id);
    }
  }

  lemma TakePlaces(s: State, index: nat, id: nat)
    requires Places(s, id) <= 1
    ensures Places(TakeOut(s, index), id) == Places(s, id)
  {
  }

  lemma TakeKeyed(s: State, index: nat)
    requires Keyed(s.pool)
    ensures Keyed(TakeOut(s, index).pool) && TakeOut(s, index).pool.registry == s.pool.registry
  {
  }

  lemma TakeKeeps(s: State, index: nat)
    requires Conserved(s) && Keyed(s.pool)
    ensures Conserved(TakeOut(s, index)) && Keyed(TakeOut(s, index).pool)
  {
    TakeKeyed(s, index);
    forall id
      ensures Places(TakeOut(s, index), id) == Places(s, id)
    {
      assert Places(s, id) == One(id in s.pool.registry);
      TakePlaces(s, index, id);
    }
  }

  lemma RecordKeeps(s: State, index: nat, ok: bool)
    requires Conserved(s) && Keyed(s.pool)
    ensures Conserved(RecordFlush(s, index, ok)) && Keyed(RecordFlush(s, index, ok).pool)
  {
    var t := RecordFlush(s, index, ok);
    forall id
      ensures Places(t, id) == One(id in t.pool.registry)
    {
      assert Places(s, id) == One(id in s.pool.registry);
    }
  }

  lemma PutBackPlaces(s: State, index: nat, id: nat)
    requires Keyed(s.pool)
    ensures Places(PutBack(s, index), id) == Places(s, id)
  {
    if index in s.pool.inHand {
      CountOne(s.pool.free, s.pool.inHand[index], id);
    }
  }

  lemma PutBackKeeps(s: State, index: nat)
    requires Conserved(s) && Keyed(s.pool)
    ensures Conserved(PutBack(s, index)) && Keyed(PutBack(s, index).pool)
  {
    forall id
      ensures Places(PutBack(s, index), id) == Places(s, id)
    {
      PutBackPlaces(s, index, id);
    }
    assert PutBack(s, index).pool.registry == s.pool.registry;
  }

  lemma FetchKeeps(s: State)
    requires Conserved(s)
    ensures Conserved(FetchBuffers(s))
  {
    var t := FetchBuffers(s);
    if t != s {
      forall id
        ensures Places(t, id) == One(id in t.pool.registry)
      {
        assert Places(s, id) == One(id in s.pool.registry);
        CountHead(s.pool.free, id);
      }
    }
  }

  lemma FinishPlaces(s: State, ok: bool, id: nat)
    requires Places(s, id) <= 1
    ensures Places(FinishFrame(s, ok), id) == Places(s, id)
  {
    if s.worker.Busy? {
      if s.worker.src.eos || ok {
        FinishToUser(s, ok, id);
      } else {
        CountOne(s.pool.free, s.worker.dst.(timestamp := s.worker.src.timestamp), id);
      }
    }
  }

  lemma FinishToUser(s: State, ok: bool, id: nat)
    requires s.worker.Busy? && (s.worker.src.eos || ok) && Places(s, id) <= 1
    ensures Places(FinishFrame(s, ok), id) == Places(s, id)
  {
    var t := FinishFrame(s, ok);
    assert t.pool == s.pool.(user := t.pool.user) && t.log.lost == s.log.lost && t.worker == Idle;
    assert t.pool.user.Keys == s.pool.user.Keys + {s.worker.dst.id};
  }

  lemma FinishKeyed(s: State, ok: bool)
    requires Keyed(s.pool)
    ensures Keyed(FinishFrame(s, ok).pool) && FinishFrame(s, ok).pool.registry == s.pool.registry
  {
  }

  lemma FinishKeeps(s: State, ok: bool)
    requires Conserved(s) && Keyed(s.pool)
    ensures Conserved(FinishFrame(s, ok)) && Keyed(FinishFrame(s, ok).pool)
  {
    FinishKeyed(s, ok);
    forall id
      ensures Places(FinishFrame(s, ok), id) == Places(s, id)
    {
      assert Places(s, id) == One(id in s.pool.registry);
      FinishPlaces(s, ok, id);
    }
  }

  lemma FlushKeeps(s: State, refused: set<nat>)
    requires Conserved(s) && Keyed(s.pool)
    ensures Conserved(FlushLocked(s, refused)) && Keyed(FlushLocked(s, refused).pool)
  {
    var t := FlushLocked(s, refused);
    forall id
      ensures Places(t, id) == One(id in t.pool.registry)
    {
      assert Places(s, id) == One(id in s.pool.registry);
      CountSorted(s.pool.user, id);
      CountAppend(s.pool.free, Sorted(s.pool.user), id);
    }
  }

  lemma SwapKeeps(s: State, surface: NewSurface)
    requires Conserved(s) && Keyed(s.pool)
    ensures Conserved(SetOutputLocked(s, surface)) && Keyed(SetOutputLocked(s, surface).pool)
  {
    var t := SetOutputLocked(s, surface);
    forall id
      ensures Places(t, id) == One(id in t.pool.registry)
    {
      assert Places(s, id) == One(id in s.pool.registry);
      CountSorted(s.pool.flushed, id);
      CountAppend(s.pool.free, Sorted(s.pool.flushed), id);
    }
  }

  /** An unknown buffer from the surface replaces exactly one flushed buffer in the registry. */
  lemma ReturnKeeps(s: State, id: nat)
    requires Conserved(s) && Keyed(s.pool) && (id in s.pool.flushed || id !in s.pool.registry)
    ensures Conserved(Returned(s, id)) && Keyed(Returned(s, id).pool)
    ensures |Returned(s, id).pool.registry| == |s.pool.registry|
  {
    var t := Returned(s, id);
    if s.life.outputSet && s.pool.flushed != map[] {
      assert Places(s, id) == One(id in s.pool.registry);
      var fresh_ := id !in s.pool.registry;
      if fresh_ {
        assert s.pool.flushed - {id} == s.pool.flushed;
        var first := Least(s.pool.flushed.Keys);
        assert Places(s, first) == One(first in s.pool.registry);
        assert t.pool.registry == s.pool.registry + {id} - {first};
        assert t.pool.flushed == s.pool.flushed - {first};
      }
      forall i
        ensures Places(t, i) == One(i in t.pool.registry)
      {
        assert Places(s, i) == One(i in s.pool.registry);
        CountOne(s.pool.free, OutBuffer(id, false, 0), i);
      }
    }
  }

  lemma {:induction false} FillCounts(pool: Pool, grants: seq<Option<nat>>)
    requires Distinct(grants) && forall g | g in grants && g.Some? :: g.value !in pool.registry
    ensures var p := Fill(pool, grants);
            && p == pool.(free := p.free, registry := p.registry)
            && (forall id ::
                  FreeCount(p.free, id) + One(id in pool.registry) == FreeCount(pool.free, id) + One(id in p.registry))
            && (forall id | id in p.registry :: id in pool.registry || Some(id) in grants)
            && |p.registry| <= |pool.registry| + |grants|
  {
    if grants != [] {
      var init := grants[..|grants| - 1];
      var g := grants[|grants| - 1];
      FillCounts(pool, init);
      var p := Fill(pool, init);
      assert grants == init + [g];
      hide FreeCount;
      if g.Some? {
        assert g !in init && g.value !in p.registry;
        FillOne(pool, p, g.value);
      }
    }
  }

  lemma FillOne(pool: Pool, p: Pool, g: nat)
    requires g !in p.registry && g !in pool.registry
    requires forall id ::
             FreeCount(p.free, id) + One(id in pool.registry) == FreeCount(pool.free, id) + One(id in p.registry)
    ensures forall id :: FreeCount(p.free + [OutBuffer(g, false, 0)], id) + One(id in pool.registry)
                         == FreeCount(pool.free, id) + One(id in p.registry + {g})
  {
    forall id
      ensures FreeCount(p.free + [OutBuffer(g, false, 0)], id) == FreeCount(p.free, id) + One(g == id)
    {
      CountOne(p.free, OutBuffer(g, false, 0), id);
    }
  }

  lemma InitKeeps(s: State, grants: seq<Option<nat>>)
    requires PoolInv(s) && Allowed(s, FillPool(grants))
    ensures PoolInv(InitBuffers(s, grants))
  {
    var t := InitBuffers(s, grants);
    if s.pool.initPending && s.life.running && s.life.outputSet {
      FillCounts(s.pool, grants);
      forall id
        ensures Places(t, id) == One(id in t.pool.registry)
      {
        assert Places(s, id) == One(id in s.pool.registry);
      }
    }
  }

  ghost predicate RegistryKept(s: State, t: State) {
    && t.pool.registry == s.pool.registry && t.log.inits == s.log.inits
    && (t.pool.initPending ==> s.pool.initPending || (!s.pool.usageKnown && t.pool.usageKnown))
    && (s.pool.usageKnown ==> t.pool.usageKnown)
  }

  lemma SameRegistry(s: State, a: Action)
    requires !a.FillPool? && !a.BufferReturned?
    ensures RegistryKept(s, Apply(s, a))
  {
    if IsLife(a) {
      SameRegistryLife(s, a);
    } else {
      SameRegistryBuffers(s, a);
    }
  }

  lemma SameRegistryLife(s: State, a: Action)
    ensures RegistryKept(s, ApplyLife(s, a))
  {
  }

  lemma SameRegistryBuffers(s: State, a: Action)
    requires !a.FillPool? && !a.BufferReturned?
    ensures RegistryKept(s, ApplyBuffers(s, a))
  {
  }

  /** Every step keeps the pool, and only filling it changes how many buffers are registered. */
  lemma PoolStep(s: State, a: Action)
    requires PoolInv(s) && Allowed(s, a)
    ensures PoolInv(Apply(s, a))
    ensures !a.FillPool? ==> |Apply(s, a).pool.registry| == |s.pool.registry|
  {
    if a.FillPool? {
      InitKeeps(s, a.grants);
    } else if a.BufferReturned? {
      ReturnKeeps(s, a.id);
    } else {
      SameRegistry(s, a);
      match a
      case SetOutput(surface) => SwapKeeps(s, surface);
      case Flush(refused) => FlushKeeps(s, refused);
      case Fetch => FetchKeeps(s);
      case Finish(ok) => FinishKeeps(s, ok);
      case Take(index) => TakeKeeps(s, index);
      case Flushed(index, ok) => RecordKeeps(s, index, ok);
      case GiveBack(index) => PutBackKeeps(s, index);
      case _ => SamePlaces(s, a);
    }
  }

  lemma SamePlaces(s: State, a: Action)
    requires Conserved(s) && Keyed(s.pool)
    requires (IsLife(a) && !a.SetOutput?) || a.NotifyEos? || a.Acquire?
    ensures Conserved(Apply(s, a)) && Keyed(Apply(s, a).pool)
  {
    var t := Apply(s, a);
    assert t.pool == s.pool.(usageKnown := t.pool.usageKnown, initPending := t.pool.initPending);
    assert t.worker == s.worker && t.log.lost == s.log.lost;
    forall id
      ensures Places(t, id) == One(id in t.pool.registry)
    {
      assert Places(s, id) == One(id in s.pool.registry);
    }
  }

  lemma {:induction false} PoolRun(s: State, actions: seq<Action>)
    requires PoolInv(s) && Legal(s, actions)
    ensures PoolInv(Run(s, actions))
    ensures s.log.inits == 1 ==> |Run(s, actions).pool.registry| == |s.pool.registry|
    decreases |actions|
  {
    if actions != [] {
      PoolStep(s, actions[0]);
      if s.log.inits == 1 {
        assert Apply(s, actions[0]).log.inits == 1 && |Apply(s, actions[0]).pool.registry| == |s.pool.registry| by {
          FilledStays(s, actions[0]);
        }
      }
      PoolRun(Apply(s, actions[0]), actions[1..]);
    }
  }

  lemma FilledStays(s: State, a: Action)
    requires PoolInv(s) && Allowed(s, a) && s.log.inits == 1
    ensures Apply(s, a).log.inits == 1 && |Apply(s, a).pool.registry| == |s.pool.registry|
  {
    if a.FillPool? {
      assert !s.pool.initPending;
    } else {
      PoolStep(s, a);
      if !a.BufferReturned? {
        SameRegistry(s, a);
      }
    }
  }

  lemma InitialPool(kind: Kind)
    ensures PoolInv(Initial(kind))
  {
  }

  /** Output-pool conservation. In every run each registered buffer is in exactly one place, every other
      number in none; the pool is filled at most once and from then on its size never changes. */
  lemma OutputBuffersConserved(kind: Kind, actions: seq<Action>, more: seq<Action>)
    requires Legal(Initial(kind), actions) && Legal(Run(Initial(kind), actions), more)
    ensures var s := Run(Initial(kind), actions);
            && (forall id :: Places(s, id) == if id in s.pool.registry then 1 else 0)
            && s.log.inits <= 1
            && |s.pool.registry| <= BUFFER_COUNT
            && (s.log.inits == 1 ==> |Run(s, more).pool.registry| == |s.pool.registry|)
  {
    InitialPool(kind);
    PoolRun(Initial(kind), actions);
    PoolRun(Run(Initial(kind), actions), more);
  }

  /** The assumption about returned buffers cannot be weakened: a registered buffer that comes back while
      it is not recorded as flushed is afterwards in two places. */
  lemma ReturnConservesIff(s: State, id: nat)
    requires PoolInv(s) && s.life.outputSet && s.pool.flushed != map[]
    ensures Conserved(Returned(s, id)) <==> id in s.pool.flushed || id !in s.pool.registry
  {
    if id in s.pool.flushed || id !in s.pool.registry {
      ReturnKeeps(s, id);
    } else {
      var t := Returned(s, id);
      CountOne(s.pool.free, OutBuffer(id, false, 0), id);
      assert Places(s, id) == One(id in s.pool.registry);
      assert Places(t, id) == 2;
    }
  }

  // ---------- Input buffers ----------

  function Hand(w: Worker): multiset<nat> {
    if w.Busy? then Memory(w.src) else multiset{}
  }

  predicate InputsConserved(s: State) {
    s.log.acquired == s.log.released + Memories(s.queue) + Hand(s.worker) + s.log.lostInputs
  }

  /** End-of-stream markers are exactly the entries without memory. */
  predicate Marked(s: State) {
    && (forall b | b in s.queue :: b.eos <==> b.memory.None?)
    && (s.worker.Busy? ==> (s.worker.src.eos <==> s.worker.src.memory.None?))
  }

  lemma {:induction false} MemoriesAppend(a: seq<InBuffer>, b: seq<InBuffer>)
    ensures Memories(a + b) == Memories(a) + Memories(b)
  {
    if b == [] {
      assert a + b == a;
    } else {
      var n := |b| - 1;
      assert (a + b)[..|a + b| - 1] == a + b[..n];
      MemoriesAppend(a, b[..n]);
    }
  }

  lemma MemoriesSplit(q: seq<InBuffer>, n: nat)
    requires n <= |q|
    ensures Memories(q) == Memories(q[..n]) + Memories(q[n..])
  {
    assert q == q[..n] + q[n..];
    MemoriesAppend(q[..n], q[n..]);
  }

  lemma MemoriesOne(q: seq<InBuffer>, b: InBuffer)
    ensures Memories(q + [b]) == Memories(q) + Memory(b)
  {
    assert (q + [b])[..|q|] == q;
  }

  lemma InputStep(s: State, a: Action)
    requires InputsConserved(s) && Marked(s)
    ensures InputsConserved(Apply(s, a)) && Marked(Apply(s, a))
  {
    if IsLife(a) || !MovesInput(a) {
      InputElse(s, a);
    } else {
      InputMove(s, a);
    }
  }

  predicate MovesInput(a: Action) {
    a.Flush? || a.Fetch? || a.Acquire? || a.NotifyEos? || a.Finish?
  }

  lemma InputMove(s: State, a: Action)
    requires InputsConserved(s) && Marked(s) && MovesInput(a)
    ensures InputsConserved(Apply(s, a)) && Marked(Apply(s, a))
  {
    if a.Acquire? || a.NotifyEos? {
      InputPush(s, a);
    } else if a.Flush? {
      InputFlush(s, a.refused);
    } else if a.Fetch? {
      InputFetch(s);
    } else {
      InputFinish(s, a.ok);
    }
  }

  lemma InputPush(s: State, a: Action)
    requires InputsConserved(s) && Marked(s) && (a.Acquire? || a.NotifyEos?)
    ensures InputsConserved(Apply(s, a)) && Marked(Apply(s, a))
  {
    if a.Acquire? {
      InputAcquire(s, a.id, a.timestamp);
    } else {
      InputEos(s);
    }
  }

  lemma InputFlush(s: State, refused: set<nat>)
    requires InputsConserved(s) && Marked(s)
    ensures InputsConserved(FlushLocked(s, refused)) && Marked(FlushLocked(s, refused))
  {
    var n := Flushable(s.queue, refused);
    MemoriesSplit(s.queue, n);
    hide Sorted, Flushable;
    SplitCounts(s.log.released, Memories(s.queue[..n]), Memories(s.queue[n..]), Hand(s.worker), s.log.lostInputs);
  }

  lemma SplitCounts(released: multiset<nat>, front: multiset<nat>, back: multiset<nat>, hand: multiset<nat>,
          lost: multiset<nat>)
    ensures released + (front + back) + hand + lost == (released + front) + multiset{} + hand + (lost + back)
  {
  }

  lemma InputAcquire(s: State, id: nat, timestamp: int)
    requires InputsConserved(s) && Marked(s)
    ensures InputsConserved(AcquireLocked(s, id, timestamp)) && Marked(AcquireLocked(s, id, timestamp))
  {
    MemoriesOne(s.queue, InBuffer(Some(id), false, timestamp));
  }

  lemma InputEos(s: State)
    requires InputsConserved(s) && Marked(s)
    ensures InputsConserved(EosLocked(s)) && Marked(EosLocked(s))
  {
    MemoriesOne(s.queue, InBuffer(None, true, 0));
  }

  lemma InputFetch(s: State)
    requires InputsConserved(s) && Marked(s)
    ensures InputsConserved(FetchBuffers(s)) && Marked(FetchBuffers(s))
  {
    var t := FetchBuffers(s);
    if t != s {
      var q := s.queue;
      MemoriesSplit(q, 1);
      assert q[..1] == [] + [q[0]];
      MemoriesOne([], q[0]);
      assert Memories(q) == Memory(q[0]) + Memories(q[1..]);
      assert t.queue == q[1..] && Hand(s.worker) == multiset{} && Hand(t.worker) == Memory(q[0]) && t.log == s.log;
      assert q[0] in q;
    }
  }

  lemma InputFinish(s: State, ok: bool)
    requires InputsConserved(s) && Marked(s)
    ensures InputsConserved(FinishFrame(s, ok)) && Marked(FinishFrame(s, ok))
  {
  }

  lemma InputFrame(s: State, a: Action)
    requires !MovesInput(a)
    ensures var t := Apply(s, a);
            && t.queue == s.queue && t.worker == s.worker && t.log.acquired == s.log.acquired
            && t.log.released == s.log.released && t.log.lostInputs == s.log.lostInputs
  {
  }

  lemma InputElse(s: State, a: Action)
    requires InputsConserved(s) && Marked(s)
    requires !MovesInput(a)
    ensures InputsConserved(Apply(s, a)) && Marked(Apply(s, a))
  {
    InputFrame(s, a);
  }

  lemma {:induction false} InputRun(s: State, actions: seq<Action>)
    requires InputsConserved(s) && Marked(s)
    ensures InputsConserved(Run(s, actions)) && Marked(Run(s, actions))
    decreases |actions|
  {
    if actions != [] {
      InputStep(s, actions[0]);
      InputRun(Apply(s, actions[0]), actions[1..]);
    }
  }

  /** In every run an acquired input buffer is released, queued, in the worker's hand, or lost to a flush. */
  lemma InputBuffersAccounted(kind: Kind, actions: seq<Action>)
    ensures var s := Run(Initial(kind), actions);
            s.log.acquired == s.log.released + Memories(s.queue) + Hand(s.worker) + s.log.lostInputs
  {
    InputRun(Initial(kind), actions);
  }

  predicate Blocks(b: InBuffer, refused: set<nat>) {
    b.memory.None? || b.memory.value in refused
  }

  lemma {:induction false} NoMemories(q: seq<InBuffer>)
    ensures Memories(q) == multiset{} <==> forall b | b in q :: b.memory.None?
  {
    if q != [] {
      var n := |q| - 1;
      NoMemories(q[..n]);
      assert q == q[..n] + [q[n]];
    }
  }

  /** A flush stops at the first end-of-stream marker or refused release. It reaches FLUSHED and reclaims
      the user's buffers exactly when there is none, and it loses nothing exactly when no frame stands at
      or behind one. */
  lemma FlushLosesFramesBehindMarker(s: State, refused: set<nat>)
    ensures var t := FlushLocked(s, refused);
            && t.queue == []
            && ((forall b | b in s.queue :: !Blocks(b, refused)) ==> t.life.phase == FLUSHED && t.pool.user == map[])
            && (!(forall b | b in s.queue :: !Blocks(b, refused)) ==> t.life == s.life && t.pool == s.pool)
            && (t.log.lostInputs == s.log.lostInputs <==>
                forall i, j | 0 <= i <= j < |s.queue| && Blocks(s.queue[i], refused) :: s.queue[j].memory.None?)
  {
    hide Sorted;
    var t := FlushLocked(s, refused);
    var n := Flushable(s.queue, refused);
    NoMemories(s.queue[n..]);
    assert t.log.lostInputs == s.log.lostInputs <==> Memories(s.queue[n..]) == multiset{};
    if n < |s.queue| {
      assert s.queue[n] in s.queue && Blocks(s.queue[n], refused);
      assert forall j | n <= j < |s.queue| :: s.queue[j] in s.queue[n..];
      assert forall i | 0 <= i < |s.queue| && Blocks(s.queue[i], refused) :: n <= i;
    } else {
      assert forall i | 0 <= i < |s.queue| :: s.queue[i] in s.queue && !Blocks(s.queue[i], refused);
    }
  }

  // ---------- Announced flags ----------

  ghost predicate Plain(m: map<nat, OutBuffer>) {
    forall k | k in m :: !m[k].eos
  }

  predicate PlainFree(free: seq<OutBuffer>) {
    forall b | b in free :: !b.eos
  }

  /** No wrapper that a frame could be written to carries the end-of-stream flag. */
  ghost predicate PlainPool(s: State) {
    && PlainFree(s.pool.free)
    && (s.worker.Busy? ==> !s.worker.dst.eos)
    && Plain(s.pool.inHand) && Plain(s.pool.flushed)
    && (s.kind != ColorSpaceConverter ==> Plain(s.pool.user))
  }

  ghost predicate Honest(log: Log) {
    forall a | a in log.announced :: a.flag == a.frame
  }

  lemma {:induction false} SortedPlain(m: map<nat, OutBuffer>)
    ensures PlainFree(Sorted(m)) <==> Plain(m)
    decreases |m|
  {
    if m != map[] {
      var k := Least(m.Keys);
      var rest := m - {k};
      assert rest.Keys == m.Keys - {k};
      assert |rest.Keys| < |m.Keys|;
      SortedPlain(rest);
      assert Sorted(m) == [m[k]] + Sorted(rest);
      assert forall j | j in m :: j == k || (j in rest && rest[j] == m[j]);
      assert forall j | j in rest :: rest[j] == m[j];
      assert Plain(m) <==> !m[k].eos && Plain(rest);
      assert PlainFree(Sorted(m)) <==> !m[k].eos && PlainFree(Sorted(rest)) by {
        assert m[k] in Sorted(m);
        assert forall b | b in Sorted(rest) :: b in Sorted(m);
      }
    }
  }

  /** A completed flush keeps end-of-stream flags away from frames exactly when the user holds no
      flagged buffer. */
  lemma FlushKeepsPlainIff(s: State, refused: set<nat>)
    requires PlainPool(s)
    ensures PlainPool(FlushLocked(s, refused)) <==>
              Flushable(s.queue, refused) < |s.queue| || Plain(s.pool.user)
  {
    SortedPlain(s.pool.user);
    var t := FlushLocked(s, refused);
    if Flushable(s.queue, refused) == |s.queue| {
      assert t.pool.free == s.pool.free + Sorted(s.pool.user);
      if !Plain(s.pool.user) {
        var b :| b in Sorted(s.pool.user) && b.eos;
        assert b in t.pool.free;
      }
    }
  }

  lemma {:induction false} FillPlain(pool: Pool, grants: seq<Option<nat>>)
    requires PlainFree(pool.free)
    ensures var p := Fill(pool, grants);
            PlainFree(p.free) && p.user == pool.user && p.inHand == pool.inHand && p.flushed == pool.flushed
  {
    if grants != [] {
      FillPlain(pool, grants[..|grants| - 1]);
    }
  }

  lemma PlainStep(s: State, a: Action)
    requires PlainPool(s) && Honest(s.log)
    requires a.Flush? ==> Flushable(s.queue, a.refused) < |s.queue| || Plain(s.pool.user)
    ensures PlainPool(Apply(s, a)) && Honest(Apply(s, a).log)
  {
    if a.Flush? {
      FlushKeepsPlainIff(s, a.refused);
    } else if a.SetOutput? {
      SortedPlain(s.pool.flushed);
    } else if a.FillPool? {
      FillPlain(s.pool, a.grants);
    } else if a.Finish? {
      PlainFinish(s, a.ok);
    } else if IsLife(a) {
      PlainLife(s, a);
    } else {
      PlainBuffers(s, a);
    }
  }

  lemma PlainFinish(s: State, ok: bool)
    requires PlainPool(s) && Honest(s.log)
    ensures PlainPool(FinishFrame(s, ok)) && Honest(FinishFrame(s, ok).log)
  {
  }

  lemma PlainLife(s: State, a: Action)
    requires PlainPool(s) && Honest(s.log) && IsLife(a) && !a.SetOutput?
    ensures PlainPool(ApplyLife(s, a)) && Honest(ApplyLife(s, a).log)
  {
    var t := ApplyLife(s, a);
    assert t.pool == s.pool && t.worker == s.worker && t.kind == s.kind && t.log.announced == s.log.announced;
  }

  lemma PlainBuffers(s: State, a: Action)
    requires PlainPool(s) && Honest(s.log) && !IsLife(a) && !a.Flush? && !a.FillPool? && !a.Finish?
    ensures PlainPool(ApplyBuffers(s, a)) && Honest(ApplyBuffers(s, a).log)
  {
    var t := ApplyBuffers(s, a);
    assert t.log.announced == s.log.announced;
    if a.Fetch? {
      assert t == s || s.pool.free[0] in s.pool.free;
    } else {
      PlainMoves(s, a);
    }
  }

  lemma PlainMoves(s: State, a: Action)
    requires PlainPool(s) && !IsLife(a) && !a.Flush? && !a.FillPool? && !a.Finish? && !a.Fetch?
    ensures PlainPool(ApplyBuffers(s, a))
  {
    match a
    case Take(_) =>
    case Flushed(_, _) =>
    case GiveBack(_) =>
    case BufferReturned(_) =>
    case _ =>
  }

  /** No flush of the run reclaims a flagged buffer. */
  ghost predicate NoFlaggedFlush(s: State, actions: seq<Action>)
    decreases |actions|
  {
    actions == [] ||
    (&& (actions[0].Flush? ==> Flushable(s.queue, actions[0].refused) < |s.queue| || Plain(s.pool.user))
     && NoFlaggedFlush(Apply(s, actions[0]), actions[1..]))
  }

  lemma {:induction false} PlainRun(s: State, actions: seq<Action>)
    requires PlainPool(s) && Honest(s.log) && NoFlaggedFlush(s, actions)
    ensures PlainPool(Run(s, actions)) && Honest(Run(s, actions).log)
    decreases |actions|
  {
    if actions != [] {
      PlainStep(s, actions[0]);
      PlainRun(Apply(s, actions[0]), actions[1..]);
    }
  }

  /** As long as no flush reclaims a flagged buffer, an output buffer is announced as end of stream exactly
      when it stands for the end-of-stream marker. */
  lemma FlagsAreHonest(kind: Kind, actions: seq<Action>)
    requires NoFlaggedFlush(Initial(kind), actions)
    ensures forall a | a in Run(Initial(kind), actions).log.announced :: a.flag == a.frame
  {
    PlainRun(Initial(kind), actions);
  }

  // ---------- Life cycle ----------

  predicate EosInv(s: State) {
    && (s.life.phase == RUNNING ==> !s.life.isEos)
    && (s.life.phase == EOS ==> s.life.isEos)
    && s.log.eosCalls == One(s.life.isEos)
  }

  lemma EosStep(s: State, a: Action)
    requires EosInv(s)
    ensures EosInv(Apply(s, a))
  {
    if IsLife(a) {
      EosLife(s, a);
    } else {
      EosBuffers(s, a);
    }
  }

  lemma EosLife(s: State, a: Action)
    requires EosInv(s)
    ensures EosInv(ApplyLife(s, a))
  {
    match a
    case SetOutput(_) =>
    case Configure(_) =>
    case Prepare =>
    case Start =>
    case Reset(_) =>
    case _ =>
  }

  lemma EosBuffers(s: State, a: Action)
    requires EosInv(s)
    ensures EosInv(ApplyBuffers(s, a))
  {
    hide Sorted, Fill;
    match a
    case Flush(refused) => EosFlush(s, refused);
    case NotifyEos =>
    case _ =>
  }

  lemma EosFlush(s: State, refused: set<nat>)
    requires EosInv(s)
    ensures EosInv(FlushLocked(s, refused))
  {
    hide Sorted;
  }

  lemma {:induction false} EosRun(s: State, actions: seq<Action>)
    requires EosInv(s)
    ensures EosInv(Run(s, actions))
    decreases |actions|
  {
    if actions != [] {
      EosStep(s, actions[0]);
      EosRun(Apply(s, actions[0]), actions[1..]);
    }
  }

  /** RUNNING excludes the end-of-stream flag, so NotifyEos succeeds at most once between completed Resets. */
  lemma EosOncePerReset(kind: Kind, actions: seq<Action>)
    ensures var s := Run(Initial(kind), actions);
            && (s.life.phase == RUNNING ==> !s.life.isEos)
            && (s.life.phase == EOS ==> s.life.isEos)
            && s.log.eosCalls <= 1
            && (s.log.eosCalls == 1 ==> EosLocked(s) == s)
  {
    EosRun(Initial(kind), actions);
  }

  predicate Complete(life: Life) {
    life.cb && life.inputSet && life.outputSet
  }

  predicate PastConfigured(phase: Phase) {
    phase == CONFIGURED || phase == STOPPED || Active(phase)
  }

  /** From CONFIGURED to FLUSHED callback, input and output surface are there. */
  predicate Ready(life: Life) {
    PastConfigured(life.phase) ==> Complete(life)
  }

  lemma ReadyLife(s: State, a: Action)
    requires Ready(s.life)
    ensures Ready(ApplyLife(s, a).life)
  {
    match a
    case SetOutput(_) =>
    case Configure(_) =>
    case Prepare =>
    case Start =>
    case Reset(_) =>
    case _ =>
  }

  /** Every step keeps that, but for a flush from a state in which something is missing. */
  lemma ReadyStepIff(s: State, a: Action)
    requires Ready(s.life)
    ensures !a.Flush? ==> Ready(Apply(s, a).life)
    ensures a.Flush? ==>
              (Ready(Apply(s, a).life) <==> Flushable(s.queue, a.refused) < |s.queue| || Complete(s.life))
  {
    if IsLife(a) {
      ReadyLife(s, a);
    } else if !a.Flush? {
      var t := ApplyBuffers(s, a);
      assert t.life == s.life || (s.life.phase == RUNNING && t.life.phase == EOS);
    }
  }

  /** Flush is called only from CONFIGURED to FLUSHED. */
  ghost predicate FlushesInPlace(s: State, actions: seq<Action>)
    decreases |actions|
  {
    actions == [] ||
    ((actions[0].Flush? ==> PastConfigured(s.life.phase)) && FlushesInPlace(Apply(s, actions[0]), actions[1..]))
  }

  lemma {:induction false} ReadyRun(s: State, actions: seq<Action>)
    requires Ready(s.life) && FlushesInPlace(s, actions)
    ensures Ready(Run(s, actions).life)
    decreases |actions|
  {
    if actions != [] {
      ReadyStepIff(s, actions[0]);
      ReadyRun(Apply(s, actions[0]), actions[1..]);
    }
  }

  /** Callers that flush only from CONFIGURED to FLUSHED never meet a missing callback or surface. */
  lemma NothingMissing(kind: Kind, actions: seq<Action>)
    requires FlushesInPlace(Initial(kind), actions)
    ensures var life := Run(Initial(kind), actions).life;
            PastConfigured(life.phase) ==> life.cb && life.inputSet && life.outputSet
  {
    ReadyRun(Initial(kind), actions);
  }

  /** Flushing a pipeline that was only initialised, then starting it: RUNNING without a callback. */
  lemma EarlyFlushRunsWithoutCallback(kind: Kind)
    ensures var life := Run(Initial(kind), [Init(true), Flush({}), Start]).life;
            life.phase == RUNNING && !life.cb && !life.inputSet && !life.outputSet
  {
    var s0 := Initial(kind);
    var s1 := Apply(s0, Init(true));
    var s2 := Apply(s1, Flush({}));
    assert Flushable(s1.queue, {}) == 0 && s2.life.phase == FLUSHED;
    var s3 := Apply(s2, Start);
    assert Run(s3, []) == s3;
    assert [Start][1..] == [];
    assert Run(s2, [Start]) == s3;
    assert [Flush({}), Start][1..] == [Start];
    assert Run(s1, [Flush({}), Start]) == s3;
    assert [Init(true), Flush({}), Start][1..] == [Flush({}), Start];
  }

  // ---------- Longer runs ----------

  lemma {:induction false} RunSnoc(s: State, actions: seq<Action>, a: Action)
    requires Legal(s, actions) && Allowed(Run(s, actions), a)
    ensures Legal(s, actions + [a]) && Run(s, actions + [a]) == Apply(Run(s, actions), a)
    decreases |actions|
  {
    if actions == [] {
      assert [] + [a] == [a];
      assert Run(Apply(s, a), []) == Apply(s, a);
    } else {
      assert (actions + [a])[1..] == actions[1..] + [a];
      RunSnoc(Apply(s, actions[0]), actions[1..], a);
    }
  }
}
