/**
 * The older video pipelines (AI-HDR enhancer, colour-space converter, metadata generator):
 * a nine-state life cycle, an input queue, and a pool of output buffers that circulates
 * between a free queue, the worker, the user, and the output surface. The metadata generator
 * shares the life cycle and the input queue only.
 */
module PoolSpec {
  import opened Basics

  const BUFFER_COUNT := 5

  datatype Kind = AihdrEnhancer | ColorSpaceConverter | MetadataGenerator

  datatype Phase =
    | UNINITIALIZED | INITIALIZED | CONFIGURING | CONFIGURED | STOPPED | RUNNING | EOS | FLUSHED | ERROR

  /** An input entry; the end-of-stream marker has no memory. */
  datatype InBuffer = InBuffer(memory: Option<nat>, eos: bool, timestamp: int)

  /** An output buffer in its wrapper; `eos` is the flag that the wrapper carries. */
  datatype OutBuffer = OutBuffer(id: nat, eos: bool, timestamp: int)

  datatype Life = Life(phase: Phase, isEos: bool, running: bool, cb: bool, inputSet: bool, outputSet: bool,
      formatSet: bool)

  /** `registry` is the set of keys of outputBufferAvilQueBak_, `user` is renderBufferAvilMap_, `flushed` is
      renderBufferMapBak_; `inHand` holds what callers of ReleaseOutputBuffer are working on. */
  datatype Pool = Pool(free: seq<OutBuffer>, user: map<nat, OutBuffer>, inHand: map<nat, OutBuffer>,
                       flushed: map<nat, OutBuffer>, registry: set<nat>, usageKnown: bool, initPending: bool)

  datatype Worker = Idle | Busy(src: InBuffer, dst: OutBuffer)

  datatype Announcement = Announcement(id: nat, flag: bool, frame: bool)

  /** History: `lost` are output buffers that left circulation, `lostInputs` input buffers that were
      neither released nor kept, `inits` counts the fillings of the pool, `eosCalls` the successful
      NotifyEos calls since the last completed Reset. */
  datatype Log = Log(acquired: multiset<nat>, released: multiset<nat>, lostInputs: multiset<nat>, lost: multiset<nat>,
                     announced: seq<Announcement>, inits: nat, eosCalls: nat)

  datatype State = State(kind: Kind, life: Life, queue: seq<InBuffer>, pool: Pool, worker: Worker, log: Log)

  function Initial(kind: Kind): State {
    State(kind, Life(UNINITIALIZED, false, false, false, false, false, false), [],
          Pool([], map[], map[], map[], {}, false, false), Idle,
          Log(multiset{}, multiset{}, multiset{}, multiset{}, [], 0, 0))
  }

  // ---------- Ordered maps ----------

  predicate IsLeast(k: nat, keys: set<nat>) {
    k in keys && forall j | j in keys :: k <= j
  }

  lemma {:induction false} LeastExists(keys: set<nat>)
    requires keys != {}
    ensures exists k :: IsLeast(k, keys)
  {
    var k :| k in keys;
    if keys == {k} {
      assert IsLeast(k, keys);
    } else {
      LeastExists(keys - {k});
      var j :| IsLeast(j, keys - {k});
      assert keys == (keys - {k}) + {k};
      assert IsLeast(if j < k then j else k, keys);
    }
  }

  function Least(keys: set<nat>): (k: nat)
    requires keys != {}
    ensures IsLeast(k, keys)
  {
    LeastExists(keys);
    var k :| IsLeast(k, keys);
    k
  }

  /** The values of an ordered map in key order. */
  function Sorted(m: map<nat, OutBuffer>): seq<OutBuffer>
    decreases |m|
  {
    if m == map[] then []
    else
      var k := Least(m.Keys);
      assert |(m - {k}).Keys| < |m.Keys| by {
        assert (m - {k}).Keys == m.Keys - {k};
      }
      [m[k]] + Sorted(m - {k})
  }

  // ---------- Life cycle ----------

  datatype Configured = Refused(formatTouched: bool) | Accepted | Failed

  predicate Opening(phase: Phase) {
    phase == INITIALIZED || phase == CONFIGURING
  }

  predicate Active(phase: Phase) {
    phase == RUNNING || phase == EOS || phase == FLUSHED
  }

  function ConfigureLocked(kind: Kind, life: Life, outcome: Configured): Life {
    if !Opening(life.phase) && life.phase != STOPPED then life
    else if kind == AihdrEnhancer then life.(phase := CONFIGURING)
    else
      match outcome
      case Refused(touched) => life.(formatSet := life.formatSet || touched)
      case Accepted => life.(phase := CONFIGURING, formatSet := true)
      case Failed => life.(phase := ERROR, formatSet := true)
  }

  function PrepareLocked(kind: Kind, life: Life): Life {
    if life.phase == STOPPED then life.(phase := CONFIGURED)
    else if life.phase == CONFIGURING && life.cb && life.inputSet && life.outputSet &&
            (kind == ColorSpaceConverter ==> life.formatSet)
    then life.(phase := CONFIGURED)
    else life
  }

  function StartLocked(life: Life): Life {
    if life.phase == CONFIGURED || life.phase == STOPPED || life.phase == FLUSHED
    then life.(phase := if life.isEos then EOS else RUNNING)
    else life
  }

  function SetParameterLocked(kind: Kind, life: Life, ok: bool): Life {
    if kind == ColorSpaceConverter && !ok &&
       (life.phase == CONFIGURED || life.phase == STOPPED || life.phase == RUNNING)
    then life.(phase := ERROR)
    else life
  }

  function ResetLocked(s: State, created: bool): State {
    if s.life.phase == UNINITIALIZED then s
    else if !created then s.(life := s.life.(phase := INITIALIZED))
    else
      s.(life := s.life.(phase := INITIALIZED, isEos := false,
                         formatSet := if s.kind == ColorSpaceConverter then false else s.life.formatSet),
         log := s.log.(eosCalls := 0))
  }

  function ReleaseAll(life: Life): Life {
    life.(phase := UNINITIALIZED, inputSet := false, outputSet := false, cb := false, running := false)
  }

  datatype NewSurface = Invalid | SameSurface | ListenerFailed | AttachFailed | Attached

  function SetOutputLocked(s: State, surface: NewSurface): State {
    if Opening(s.life.phase) then
      if surface == Invalid || surface == ListenerFailed then s
      else s.(life := s.life.(outputSet := true, phase := CONFIGURING))
    else if Active(s.life.phase) && (surface == AttachFailed || surface == Attached) then
      var reclaimed := s.pool.(free := s.pool.free + Sorted(s.pool.flushed), flushed := map[]);
      s.(pool := reclaimed, life := if surface == Attached then s.life.(outputSet := true) else s.life)
    else s
  }

  function EosLocked(s: State): State {
    if s.life.phase == RUNNING then
      s.(life := s.life.(phase := EOS, isEos := true), queue := s.queue + [InBuffer(None, true, 0)],
         log := s.log.(eosCalls := s.log.eosCalls + 1))
    else s
  }

  // ---------- Input ----------

  function Memory(b: InBuffer): multiset<nat> {
    if b.memory.Some? then multiset{b.memory.value} else multiset{}
  }

  function Memories(q: seq<InBuffer>): multiset<nat> {
    if q == [] then multiset{} else Memories(q[..|q| - 1]) + Memory(q[|q| - 1])
  }

  /** How many entries a flush gives back before it meets one without memory or one the surface refuses. */
  function Flushable(q: seq<InBuffer>, refused: set<nat>): (n: nat)
    ensures n <= |q|
    ensures n == |q| <==> forall b | b in q :: b.memory.Some? && b.memory.value !in refused
    ensures forall k | 0 <= k < n :: q[k].memory.Some? && q[k].memory.value !in refused
    ensures n < |q| ==> q[n].memory.None? || q[n].memory.value in refused
  {
    if q == [] then 0
    else if q[0].memory.None? || q[0].memory.value in refused then assert q[0] in q; 0
    else
      assert q == [q[0]] + q[1..];
      1 + Flushable(q[1..], refused)
  }

  function FlushLocked(s: State, refused: set<nat>): State {
    var n := Flushable(s.queue, refused);
    var t := s.(queue := [], log := s.log.(released := s.log.released + Memories(s.queue[..n]),
                                           lostInputs := s.log.lostInputs + Memories(s.queue[n..])));
    if n < |s.queue| then t
    else
      t.(pool := s.pool.(free := s.pool.free + Sorted(s.pool.user), user := map[]), life := s.life.(phase := FLUSHED))
  }

  function AcquireLocked(s: State, id: nat, timestamp: int): State {
    if !s.life.running || !s.life.inputSet || s.life.phase == STOPPED then s
    else
      s.(queue := s.queue + [InBuffer(Some(id), false, timestamp)],
         pool := s.pool.(usageKnown := true, initPending := s.pool.initPending || !s.pool.usageKnown),
         log := s.log.(acquired := s.log.acquired + multiset{id}))
  }

  // ---------- Output pool ----------

  function Fill(pool: Pool, grants: seq<Option<nat>>): Pool {
    if grants == [] then pool
    else
      var p := Fill(pool, grants[..|grants| - 1]);
      var g := grants[|grants| - 1];
      if g.Some? then p.(free := p.free + [OutBuffer(g.value, false, 0)], registry := p.registry + {g.value}) else p
  }

  function InitBuffers(s: State, grants: seq<Option<nat>>): State {
    if !s.pool.initPending then s
    else if s.life.running && s.life.outputSet
    then s.(pool := Fill(s.pool, grants).(initPending := false), log := s.log.(inits := s.log.inits + 1))
    else s.(pool := s.pool.(initPending := false))
  }

  function FetchBuffers(s: State): State {
    if s.worker.Busy? || !s.life.running || s.queue == [] || s.pool.free == [] then s
    else
      s.(queue := s.queue[1..], pool := s.pool.(free := s.pool.free[1..]), worker := Busy(s.queue[0], s.pool.free[0]))
  }

  /** std::map::emplace: an entry that is already there stays. */
  function Emplace(m: map<nat, OutBuffer>, b: OutBuffer): map<nat, OutBuffer> {
    if b.id in m then m else m[b.id := b]
  }

  function Announce(s: State, id: nat, flag: bool, frame: bool): Log {
    if s.life.cb then s.log.(announced := s.log.announced + [Announcement(id, flag, frame)]) else s.log
  }

  /** The worker's buffers after processing; for the end-of-stream marker nothing is processed. */
  function FinishFrame(s: State, ok: bool): State {
    match s.worker
    case Idle => s
    case Busy(src, dst) =>
      if src.eos then
        var out := if s.kind == ColorSpaceConverter then dst.(eos := true) else dst;
        s.(pool := s.pool.(user := Emplace(s.pool.user, out)), worker := Idle, log := Announce(s, dst.id, true, true))
      else
        var out := dst.(timestamp := src.timestamp);
        var log := (if ok then Announce(s, dst.id, dst.eos, false) else s.log);
        s.(pool := if ok then s.pool.(user := Emplace(s.pool.user, out)) else s.pool.(free := s.pool.free + [out]),
           worker := Idle, log := log.(released := log.released + Memory(src)))
  }

  function TakeOut(s: State, index: nat): State {
    if (s.life.phase != RUNNING && s.life.phase != EOS) || index !in s.pool.user then s
    else
      var b := s.pool.user[index];
      var rest := s.pool.(user := s.pool.user - {index});
      if s.kind == ColorSpaceConverter && b.eos
      then s.(pool := rest, log := s.log.(lost := s.log.lost + multiset{index}))
      else s.(pool := rest.(inHand := s.pool.inHand[index := b]))
  }

  /** FlushBuffer was called for a buffer in hand; `ok` says whether the surface took it. */
  function RecordFlush(s: State, index: nat, ok: bool): State {
    if index !in s.pool.inHand then s
    else
      var rest := s.pool.(inHand := s.pool.inHand - {index});
      if s.life.outputSet && ok
      then s.(pool := rest.(flushed := Emplace(s.pool.flushed, s.pool.inHand[index])))
      else s.(pool := rest, log := s.log.(lost := s.log.lost + multiset{index}))
  }

  function PutBack(s: State, index: nat): State {
    if index !in s.pool.inHand then s
    else
      s.(pool := s.pool.(inHand := s.pool.inHand - {index}, free := s.pool.free + [s.pool.inHand[index]]))
  }

  /** The surface gave buffer `id`, in a fresh wrapper; an unknown one takes the place of the flushed
      buffer with the least number. */
  function Returned(s: State, id: nat): State {
    if !s.life.outputSet || s.pool.flushed == map[] then s
    else
      var pool := s.pool.(free := s.pool.free + [OutBuffer(id, false, 0)], flushed := s.pool.flushed - {id});
      if id in s.pool.registry then s.(pool := pool)
      else
        var p := pool.(registry := s.pool.registry + {id});
        if p.flushed == map[] then s.(pool := p)
        else
          var first := Least(p.flushed.Keys);
          s.(pool := p.(registry := p.registry - {first}, flushed := p.flushed - {first}))
  }

  // ---------- Actions ----------

  datatype Action =
    | Init(created: bool)
    | SetCallback(isNull: bool)
    | CreateInput(created: bool, registered: bool)
    | SetOutput(surface: NewSurface)
    | Configure(outcome: Configured)
    | SetParameter(ok: bool)
    | Prepare
    | Start
    | Stop
    | Reset(created: bool)
    | Release
    | Flush(refused: set<nat>)
    | NotifyEos
    | Acquire(id: nat, timestamp: int)
    | FillPool(grants: seq<Option<nat>>)
    | Fetch
    | Finish(ok: bool)
    | Take(index: nat)
    | Flushed(index: nat, ok: bool)
    | GiveBack(index: nat)
    | BufferReturned(id: nat)

  function ApplyLife(s: State, a: Action): State {
    match a
    case Init(created) =>
      if s.life.phase == UNINITIALIZED && created then s.(life := s.life.(running := true, phase := INITIALIZED)) else s
    case SetCallback(isNull) =>
      if !isNull && Opening(s.life.phase) then s.(life := s.life.(cb := true, phase := CONFIGURING)) else s
    case CreateInput(created, registered) =>
      if Opening(s.life.phase) && !s.life.inputSet
      then s.(life := s.life.(inputSet := created,
                              phase := if created && registered then CONFIGURING else s.life.phase))
      else s
    case SetOutput(surface) => SetOutputLocked(s, surface)
    case Configure(outcome) => s.(life := ConfigureLocked(s.kind, s.life, outcome))
    case SetParameter(ok) => s.(life := SetParameterLocked(s.kind, s.life, ok))
    case Prepare => s.(life := PrepareLocked(s.kind, s.life))
    case Start => s.(life := StartLocked(s.life))
    case Stop => if Active(s.life.phase) then s.(life := s.life.(phase := STOPPED)) else s
    case Reset(created) => ResetLocked(s, created)
    case Release => s.(life := ReleaseAll(s.life))
    case _ => s
  }

  function ApplyBuffers(s: State, a: Action): State {
    match a
    case Flush(refused) => FlushLocked(s, refused)
    case NotifyEos => EosLocked(s)
    case Acquire(id, timestamp) => AcquireLocked(s, id, timestamp)
    case FillPool(grants) => InitBuffers(s, grants)
    case Fetch => FetchBuffers(s)
    case Finish(ok) => FinishFrame(s, ok)
    case Take(index) => TakeOut(s, index)
    case Flushed(index, ok) => RecordFlush(s, index, ok)
    case GiveBack(index) => PutBack(s, index)
    case BufferReturned(id) => Returned(s, id)
    case _ => s
  }

  predicate IsLife(a: Action) {
    a.Init? || a.SetCallback? || a.CreateInput? || a.SetOutput? || a.Configure? || a.SetParameter? || a.Prepare? ||
    a.Start? || a.Stop? || a.Reset? || a.Release?
  }

  function Apply(s: State, a: Action): State {
    if IsLife(a) then ApplyLife(s, a) else ApplyBuffers(s, a)
  }

  predicate Distinct(grants: seq<Option<nat>>) {
    forall i, j | 0 <= i < j < |grants| && grants[i].Some? :: grants[i] != grants[j]
  }

  /** What is taken for granted about the output surface: filling the pool yields different buffers that
      the pool does not know, and a request yields a buffer that was flushed, and recorded as flushed, or
      an unknown one. The metadata generator does not use this pool. */
  predicate Allowed(s: State, a: Action) {
    match a
    case FillPool(grants) =>
      && s.kind != MetadataGenerator && |grants| == BUFFER_COUNT && Distinct(grants)
      && forall g | g in grants && g.Some? :: g.value !in s.pool.registry
    case BufferReturned(id) => s.kind != MetadataGenerator && (id in s.pool.flushed || id !in s.pool.registry)
    case Fetch => s.kind != MetadataGenerator
    case _ => true
  }

  ghost predicate Legal(s: State, actions: seq<Action>)
    decreases |actions|
  {
    actions == [] || (Allowed(s, actions[0]) && Legal(Apply(s, actions[0]), actions[1..]))
  }

  ghost function Run(s: State, actions: seq<Action>): State
    decreases |actions|
  {
    if actions == [] then s else Run(Apply(s, actions[0]), actions[1..])
  }
}
