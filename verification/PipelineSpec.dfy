/**
 * The asynchronous frame pipeline as a state machine. Every action is one region that the
 * program runs under a lock, or one call the worker makes between two regions; actions of the
 * worker, of API callers and of surface callbacks interleave freely. The locks themselves are
 * not modelled, so more interleavings are covered than the program allows. A test that the
 * program makes before it takes the lock is not part of the region: the region may run after
 * the answer has changed.
 */
module PipelineSpec {
  import opened Basics
  import opened Buffers
  import opened ProducerCache

  datatype Phase = IDLE | RUNNING | STOPPING
  datatype Report = ReportRunning | ReportStopped
  datatype Leaving = Alive | Joining | Clearing

  /** What is guarded by the API lock. `leaving` is where Deinitialize stands. */
  datatype Life = Life(initialized: bool, running: bool, enabled: bool, phase: Phase, cb: bool, hasConsumer: bool,
                       consumer: bool, producer: bool, leaving: Leaving, reports: seq<Report>, deaths: nat)

  /** The input side. `draining` holds what a flush took out of the queues and has still to release. */
  datatype Input = Input(ready: bool, queue: seq<Info>, attachQueue: seq<Info>, attachIds: set<nat>,
      draining: seq<Info>)

  /** The output side. `taken` holds what callers of RenderOutputBuffer have in hand. */
  datatype Output = Output(queue: seq<Info>, render: map<nat, Info>, flushQueue: seq<Info>, cache: Cache,
                           taken: multiset<Info>)

  /** Where the worker stands in ProcessBuffers; `at` is the position of its frame among all pushed frames. */
  datatype Worker =
    | Parked
    | AtTest
    | Fetching
    | Holding(src: Info, dst: Info, at: nat)
    | Converting(src: Info, dst: Info, at: nat)
    | Converted(src: Info, dst: Info, at: nat)
    | Failed(dst: Info)
    | Bypassing(src: Info, dst: Info, at: nat)
    | Bypassed(src: Info, dst: Info, at: nat, detached: bool, attached: bool)
    | Announcing(index: nat, frame: Info, at: nat)

  datatype Announcement = Announcement(index: nat, eos: bool, timestamp: int)

  /** History. `held` is what the input surface believes this pipeline holds. */
  datatype Log = Log(pushed: seq<Info>, head: nat, announced: seq<Announcement>, announcedAt: seq<nat>,
                     acquired: multiset<nat>, released: multiset<nat>, dropped: multiset<nat>, held: set<nat>,
                     puts: multiset<nat>, rendered: multiset<nat>)

  datatype State = State(life: Life, input: Input, output: Output, worker: Worker, log: Log)

  const Initial := State(
    Life(false, false, true, IDLE, false, false, false, false, Alive, [], 0),
    Input(false, [], [], {}, []),
    Output([], map[], [], map[], multiset{}),
    Parked,
    Log([], 0, [], [], multiset{}, multiset{}, multiset{}, {}, multiset{}, multiset{}))

  // ---------- Shared pieces ----------

  /** ReleaseBuffer was called once for every number in `ids`; the surface refused some of them. */
  function Release(log: Log, ids: multiset<nat>, refused: set<nat>): Log {
    log.(released := log.released + ids, held := log.held - (set id | id in ids && id !in refused))
  }

  function Push(s: State, info: Info): State {
    s.(input := s.input.(queue := s.input.queue + [info], ready := true),
       log := s.log.(pushed := s.log.pushed + [info]))
  }

  /** Both input queues go to the drain; everything pushed so far is out of the consumer queue. */
  function TakeInputs(s: State): State {
    s.(input := s.input.(queue := [], attachQueue := [], attachIds := {},
                         draining := s.input.draining + s.input.queue + s.input.attachQueue),
       log := s.log.(head := |s.log.pushed|))
  }

  function ClearQueues(s: State): State {
    var t := TakeInputs(s);
    t.(input := t.input.(ready := false),
       output := t.output.(queue := [], render := map[], flushQueue := [], cache := map[]))
  }

  function Values(m: map<nat, Info>, order: seq<nat>): seq<Info> {
    if order == [] then []
    else
      var k := order[|order| - 1];
      Values(m, order[..|order| - 1]) + (if k in m then [m[k]] else [])
  }

  function Put(s: State, image: Info): State
    requires image.seqNum.Some?
  {
    var k := image.seqNum.value;
    s.(output := s.output.(render := s.output.render[k := image]), log := s.log.(puts := s.log.puts + multiset{k}))
  }

  function StopLocked(life: Life): Life {
    if life.phase == STOPPING
    then life.(phase := IDLE, reports := if life.cb then life.reports + [ReportStopped] else life.reports)
    else life
  }

  // ---------- Surfaces ----------

  function ReleaseAttached(s: State, n: nat, refused: set<nat>): State
    requires n <= |s.input.attachQueue|
  {
    var out := s.input.attachQueue[..n];
    s.(input := s.input.(attachQueue := s.input.attachQueue[n..], attachIds := s.input.attachIds - IdSet(out)),
       log := Release(s.log, Ids(out), refused))
  }

  /** How many attach entries a successful request of buffer `id` releases: in bypass mode all up
      to that buffer if it is attached, in processing mode one. */
  function AttachedToRelease(life: Life, input: Input, id: nat): (n: nat)
    ensures n <= |input.attachQueue|
  {
    if !life.enabled then if id in input.attachIds then PopCount(input.attachQueue, id) else 0
    else if input.attachQueue == [] then 0
    else 1
  }

  function Request(s: State, r: Info, order: seq<nat>, refused: set<nat>): State
    requires r.seqNum.Some?
  {
    if !s.life.hasConsumer then s
    else
      var t := s.(output := s.output.(queue := s.output.queue + [r], cache := Add(s.output.cache, r, order)));
      ReleaseAttached(t, AttachedToRelease(s.life, s.input, r.seqNum.value), refused)
  }

  /** The number that OnProducerBufferReleased looks for in the flush queue afterwards. The request
      overwrites its buffer variable with the last attach entry it released. */
  function RequestedKey(s: State, r: Info): nat
    requires r.seqNum.Some?
  {
    var n := AttachedToRelease(s.life, s.input, r.seqNum.value);
    if n > 0 && s.input.attachQueue[n - 1].seqNum.Some? then s.input.attachQueue[n - 1].seqNum.value else r.seqNum.value
  }

  function BufferReleased(s: State, r: Info, order: seq<nat>, refused: set<nat>): State
    requires r.seqNum.Some?
  {
    if !s.life.producer || !s.life.hasConsumer then s
    else
      var t := Request(s, r, order, refused);
      t.(output := t.output.(flushQueue := t.output.flushQueue[PopCount(t.output.flushQueue, RequestedKey(s, r))..]))
  }

  function Real(q: seq<Info>): seq<Info> {
    if q == [] then []
    else Real(q[..|q| - 1]) + (if q[|q| - 1].seqNum.Some? then [q[|q| - 1]] else [])
  }

  /** Cache entries whose numbers are not in `ids`, in iteration order. */
  function Missing(cache: Cache, ids: set<nat>, order: seq<nat>): seq<Info> {
    if order == [] then []
    else
      var k := order[|order| - 1];
      Missing(cache, ids, order[..|order| - 1]) + (if k in cache && k !in ids then [cache[k]] else [])
  }

  function Refresh(o: Output, order: seq<nat>): Output {
    var q := Real(o.queue) + Real(o.flushQueue);
    if |q| + |o.render| >= |o.cache| then o.(queue := q, flushQueue := [])
    else o.(queue := q + Missing(o.cache, IdSet(q), order), flushQueue := [])
  }

  datatype Swap = Rejected | Same | AttachFailed | Accepted

  /** A new output surface: the cache is trimmed and attached, then the queues are rebuilt. */
  function SwapSurface(s: State, swap: Swap, order: seq<nat>, trimmed: seq<nat>): State {
    match swap
    case Rejected => s
    case Same => s
    case AttachFailed => s.(output := s.output.(cache := Evict(s.output.cache, order)))
    case Accepted =>
      s.(life := s.life.(producer := true),
         output := Refresh(s.output.(cache := Evict(s.output.cache, order)), trimmed))
  }

  // ---------- Actions ----------

  datatype Action =
    | Initialize
    | RegisterCallback
    | OpenInput(created: bool, registered: bool)
    | SetOutput(swap: Swap, order: seq<nat>, trimmed: seq<nat>)
    | Start
    | Stop
    | CheckStop
    | BeginDeinit
    | ClearOnDeinit
    | EndDeinit
    | Enable(clear: bool)
    | Disable
    | Flush(order: seq<nat>)
    | RefreshAll
    | NotifyEos
    | Acquire(id: nat, timestamp: int, valid: bool)
    | Drain(refused: set<nat>)
    | Prepare(r: Info, order: seq<nat>, refused: set<nat>)
    | Released(r: Info, order: seq<nat>, refused: set<nat>)
    | RenderTake(index: nat)
    | RenderFlushed(info: Info, time: int)
    | RenderLost(info: Info)
    | RenderBack(info: Info)
    | Enter
    | Test
    | Fetch
    | Decide
    | Convert(ok: bool, refused: set<nat>)
    | GiveBack
    | Publish
    | BypassSwap(detached: bool, attached: bool)
    | BypassDied
    | PublishBypass(order: seq<nat>)
    | Announce

  function StartLocked(s: State): State {
    if s.life.phase == IDLE && s.life.initialized && s.life.consumer && s.life.producer && s.life.cb
    then s.(life := s.life.(phase := RUNNING, reports := s.life.reports + [ReportRunning]))
    else s
  }

  function BeginLeaving(s: State): State {
    if !s.life.initialized then s
    else
      s.(life := s.life.(running := false, initialized := false, leaving := Joining, deaths := s.life.deaths + 1,
                         phase := if s.life.phase == RUNNING then STOPPING else s.life.phase))
  }

  function ClearLeaving(s: State): State {
    var life := StopLocked(s.life);
    ClearQueues(s.(life := life.(cb := false, leaving := Clearing)))
  }

  function EndLeaving(s: State): State {
    s.(life := s.life.(consumer := false, producer := false, leaving := Alive))
  }

  function EnableLocked(s: State, clear: bool): State {
    var t := s.(life := s.life.(enabled := true));
    if s.life.producer && clear then ClearQueues(t) else t
  }

  function FlushLocked(s: State, order: seq<nat>): State {
    if s.life.enabled then
      var t := TakeInputs(s);
      t.(output := t.output.(queue := t.output.queue + Values(t.output.render, order), render := map[]))
    else if s.life.producer then ClearQueues(s)
    else s
  }

  function AcquireLocked(s: State, id: nat, timestamp: int, valid: bool): State {
    if s.life.consumer && s.life.phase == RUNNING then
      var t := s.(life := s.life.(enabled := s.life.enabled && valid),
                  log := s.log.(acquired := s.log.acquired + multiset{id}, held := s.log.held + {id}));
      Push(t, Info(Some(id), false, timestamp, false, 0))
    else s
  }

  /** ReleaseBuffer for the oldest drained entry; without an input surface the drain is abandoned. */
  function DrainOne(s: State, refused: set<nat>): State {
    if s.input.draining == [] then s
    else if !s.life.consumer then s.(input := s.input.(draining := []))
    else
      s.(input := s.input.(draining := s.input.draining[1..]),
         log := Release(s.log, Id(s.input.draining[0]), refused))
  }

  function TakeRender(s: State, index: nat): State {
    if index in s.output.render then
      s.(output := s.output.(render := s.output.render - {index},
                             taken := s.output.taken + multiset{s.output.render[index]}),
         log := s.log.(rendered := s.log.rendered + multiset{index}))
    else s
  }

  function FetchBuffers(s: State): State {
    if s.output.queue == [] || s.input.queue == [] then s.(worker := Parked)
    else
      var src := s.input.queue[0];
      var dst := s.output.queue[0];
      var popped := s.(input := s.input.(queue := s.input.queue[1..]), log := s.log.(head := s.log.head + 1));
      if src.seqNum.None? && !src.eos then popped.(worker := Parked)
      else if dst.seqNum.None? then s.(output := s.output.(queue := s.output.queue[1..]), worker := Parked)
      else popped.(output := s.output.(queue := s.output.queue[1..]), worker := Holding(src, dst, s.log.head))
  }

  function PublishFrame(s: State, src: Info, image: Info, at: nat): State {
    if image.seqNum.None? then s
    else Put(s, image).(worker := Announcing(image.seqNum.value, src, at))
  }

  function PublishAttached(s: State, src: Info, dst: Info, at: nat, detached: bool, attached: bool,
          order: seq<nat>): State {
    if src.seqNum.None? then s
    else
      var id := src.seqNum.value;
      var t := Put(s, src);
      var cache := if detached && dst.seqNum.Some? then t.output.cache - {dst.seqNum.value} else t.output.cache;
      t.(input := t.input.(attachQueue := t.input.attachQueue + [src], attachIds := t.input.attachIds + {id}),
         output := t.output.(cache := if attached then Add(cache, src, order) else cache),
         worker := Announcing(id, src, at))
  }

  function AnnounceFrame(s: State, index: nat, frame: Info, at: nat): State {
    var t := s.(worker := if frame.eos then Parked else AtTest);
    if s.life.cb
    then t.(log := s.log.(announced := s.log.announced + [Announcement(index, frame.eos, frame.timestamp)],
                          announcedAt := s.log.announcedAt + [at]))
    else t
  }

  function DecideBranch(s: State): State {
    match s.worker
    case Holding(src, dst, at) =>
      if src.eos then s else s.(worker := if s.life.enabled then Converting(src, dst, at) else Bypassing(src, dst, at))
    case _ => s
  }

  /** The frame is processed and, whatever came of it, its input buffer released. */
  function ConvertFrame(s: State, ok: bool, refused: set<nat>): State {
    match s.worker
    case Converting(src, dst, at) =>
      var image := dst.(timestamp := src.timestamp);
      s.(log := Release(s.log, Id(src), refused), worker := if ok then Converted(src, image, at) else Failed(image))
    case _ => s
  }

  function PublishHeld(s: State): State {
    match s.worker
    case Holding(src, dst, at) => if src.eos then PublishFrame(s, src, dst, at) else s
    case Converted(src, dst, at) => PublishFrame(s, src, dst, at)
    case _ => s
  }

  function DieInBypass(s: State): State {
    match s.worker
    case Bypassing(src, dst, at) =>
      if s.life.running then s else s.(worker := AtTest, log := s.log.(dropped := s.log.dropped + Id(src)))
    case _ => s
  }

  function PublishBypassed(s: State, order: seq<nat>): State {
    match s.worker
    case Bypassed(src, dst, at, detached, attached) => PublishAttached(s, src, dst, at, detached, attached, order)
    case _ => s
  }

  function AnnounceHeld(s: State): State {
    match s.worker
    case Announcing(index, frame, at) => AnnounceFrame(s, index, frame, at)
    case _ => s
  }

  function ApplyWorker(s: State, a: Action): State {
    match a
    case Enter =>
      if s.worker.Parked? && s.life.consumer && s.life.producer && (s.life.running || s.life.leaving == Joining)
      then s.(worker := AtTest)
      else s
    case Test => if s.worker.AtTest? then s.(worker := if s.life.running then Fetching else Parked) else s
    case Fetch => if s.worker.Fetching? then FetchBuffers(s) else s
    case Decide => DecideBranch(s)
    case Convert(ok, refused) => ConvertFrame(s, ok, refused)
    case GiveBack =>
      if s.worker.Failed?
      then s.(output := s.output.(queue := s.output.queue + [s.worker.dst]), worker := AtTest)
      else s
    case Publish => PublishHeld(s)
    case BypassSwap(detached, attached) =>
      if s.worker.Bypassing?
      then s.(worker := Bypassed(s.worker.src, s.worker.dst, s.worker.at, detached, attached))
      else s
    case BypassDied => DieInBypass(s)
    case PublishBypass(order) => PublishBypassed(s, order)
    case Announce => AnnounceHeld(s)
    case _ => s
  }

  function ApplyLife(s: State, a: Action): State {
    match a
    case Initialize => if s.life.initialized then s else s.(life := s.life.(initialized := true, running := true))
    case RegisterCallback => if s.life.phase == IDLE then s.(life := s.life.(cb := true)) else s
    case OpenInput(created, registered) =>
      if s.life.phase == IDLE && !s.life.consumer
      then s.(life := s.life.(consumer := created, hasConsumer := s.life.hasConsumer || (created && registered)))
      else s
    case Start => StartLocked(s)
    case Stop => if s.life.phase == RUNNING then s.(life := s.life.(phase := STOPPING)) else s
    case CheckStop => s.(life := StopLocked(s.life))
    case BeginDeinit => BeginLeaving(s)
    case ClearOnDeinit => ClearLeaving(s)
    case EndDeinit => EndLeaving(s)
    case Enable(clear) => EnableLocked(s, clear)
    case Disable => s.(life := s.life.(enabled := false))
    case _ => s
  }

  function ApplyInput(s: State, a: Action): State
    requires Allowed(s, a)
  {
    match a
    case Flush(order) => FlushLocked(s, order)
    case RefreshAll => if s.life.phase == RUNNING && s.life.enabled && s.input.ready then ClearQueues(s) else s
    case NotifyEos => if s.life.phase != IDLE then Push(s, Info(None, true, 0, false, 0)) else s
    case Acquire(id, timestamp, valid) => AcquireLocked(s, id, timestamp, valid)
    case Drain(refused) => DrainOne(s, refused)
    case Prepare(r, order, refused) => if s.life.producer then Request(s, r, order, refused) else s
    case Released(r, order, refused) => BufferReleased(s, r, order, refused)
    case _ => s
  }

  function ApplyOutput(s: State, a: Action): State
  {
    match a
    case SetOutput(swap, order, trimmed) => SwapSurface(s, swap, order, trimmed)
    case RenderTake(index) => TakeRender(s, index)
    case RenderFlushed(info, time) =>
      s.(output := s.output.(taken := s.output.taken - multiset{info}, flushQueue := s.output.flushQueue + [info],
                             cache := MarkFlushed(s.output.cache, info, time)))
    case RenderLost(info) => s.(output := s.output.(taken := s.output.taken - multiset{info}))
    case RenderBack(info) =>
      s.(output := s.output.(taken := s.output.taken - multiset{info}, queue := s.output.queue + [info]))
    case _ => s
  }

  function Apply(s: State, a: Action): State
    requires Allowed(s, a)
  {
    if IsLife(a) then ApplyLife(s, a)
    else if IsInput(a) then ApplyInput(s, a)
    else if IsOutput(a) then ApplyOutput(s, a)
    else ApplyWorker(s, a)
  }

  predicate IsLife(a: Action) {
    a.Initialize? || a.RegisterCallback? || a.OpenInput? || a.Start? || a.Stop? || a.CheckStop? || a.BeginDeinit? ||
    a.ClearOnDeinit? || a.EndDeinit? || a.Enable? || a.Disable?
  }

  predicate IsInput(a: Action) {
    a.Flush? || a.RefreshAll? || a.NotifyEos? || a.Acquire? || a.Drain? || a.Prepare? || a.Released?
  }

  predicate IsOutput(a: Action) {
    a.SetOutput? || a.RenderTake? || a.RenderFlushed? || a.RenderLost? || a.RenderBack?
  }

  /** What is taken for granted about the surroundings: the input surface hands out no buffer it
      believes is held, a successful request yields a buffer in a new record, a caller renders only what it took
      from the render map, Initialize is not called while Deinitialize runs, and Deinitialize goes
      on only after the worker has been joined and, later, after its own drain is empty. */
  predicate Allowed(s: State, a: Action) {
    match a
    case Initialize => s.life.leaving == Alive
    case ClearOnDeinit => s.life.leaving == Joining && s.worker == Parked
    case EndDeinit => s.life.leaving == Clearing && s.input.draining == []
    case Acquire(id, _, _) => id !in s.log.held
    case Prepare(r, _, _) => r.seqNum.Some? && r == Info(r.seqNum, false, 0, false, 0)
    case Released(r, _, _) => r.seqNum.Some? && r == Info(r.seqNum, false, 0, false, 0)
    case RenderFlushed(info, _) => info in s.output.taken
    case RenderLost(info) => info in s.output.taken
    case RenderBack(info) => info in s.output.taken
    case _ => true
  }

  /** A run: every action is allowed where it happens. */
  ghost predicate Legal(s: State, actions: seq<Action>)
    decreases |actions|
  {
    actions == [] || (Allowed(s, actions[0]) && Legal(Apply(s, actions[0]), actions[1..]))
  }

  ghost function Run(s: State, actions: seq<Action>): State
    requires Legal(s, actions)
    decreases |actions|
  {
    if actions == [] then s else Run(Apply(s, actions[0]), actions[1..])
  }
}
