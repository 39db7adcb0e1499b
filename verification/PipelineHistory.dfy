/**
 * Where the frame pipeline stands, said by what has been done to it: which frames came in, since
 * when a flag is set, which image a caller can take, when a cached buffer was handed over.
 */
module PipelineHistory {
  import opened Basics
  import opened Buffers
  import opened ProducerCache
  import opened PipelineSpec
  import opened PipelineInvariant
  import opened Histories

  type Did = Step<State, Action>

  ghost function Steps(s: State, actions: seq<Action>): (steps: seq<Did>)
    requires Legal(s, actions)
    ensures |steps| == |actions|
    decreases |actions|
  {
    if actions == [] then [] else [Step(s, actions[0])] + Steps(Apply(s, actions[0]), actions[1..])
  }

  lemma {:induction false} RunSnoc(s: State, actions: seq<Action>, a: Action)
    requires Legal(s, actions + [a])
    ensures Legal(s, actions) && Allowed(Run(s, actions), a)
    ensures Run(s, actions + [a]) == Apply(Run(s, actions), a)
    ensures Steps(s, actions + [a]) == Steps(s, actions) + [Step(Run(s, actions), a)]
    decreases |actions|
  {
    if actions == [] {
      assert [] + [a] == [a];
      assert Run(Apply(s, a), []) == Apply(s, a) && Steps(Apply(s, a), []) == [];
    } else {
      assert (actions + [a])[1..] == actions[1..] + [a];
      RunSnoc(Apply(s, actions[0]), actions[1..], a);
    }
  }

  /** A flag that every step of the one kind sets, of the other kind clears, and all others leave alone. */
  ghost predicate Switched(flag: State -> bool, on: Did -> bool, off: Did -> bool) {
    && !flag(Initial)
    && forall s, a | Inv(s) && Allowed(s, a) ::
         flag(Apply(s, a)) <==> on(Step(s, a)) || (flag(s) && !off(Step(s, a)))
  }

  lemma SwitchStep(s: State, a: Action, flag: State -> bool, on: Did -> bool, off: Did -> bool)
    requires Switched(flag, on, off) && Inv(s) && Allowed(s, a)
    ensures flag(Apply(s, a)) <==> on(Step(s, a)) || (flag(s) && !off(Step(s, a)))
  {
    hide Inv, Allowed, Apply;
  }

  lemma {:induction false} SetSince(actions: seq<Action>, flag: State -> bool, on: Did -> bool, off: Did -> bool)
    requires Legal(Initial, actions) && Switched(flag, on, off)
    ensures flag(Run(Initial, actions)) <==> Since(Steps(Initial, actions), on, off)
    decreases |actions|
  {
    if actions == [] {
      hide Inv, Apply, Allowed;
    } else {
      hide Inv, Apply, Allowed, Switched, Run, Legal, Steps, Since;
      var init, a := actions[..|actions| - 1], actions[|actions| - 1];
      assert actions == init + [a];
      RunSnoc(Initial, init, a);
      InitialInv();
      InvRun(Initial, init);
      SetSince(init, flag, on, off);
      SwitchStep(Run(Initial, init), a, flag, on, off);
      SinceSnoc(Steps(Initial, init), Step(Run(Initial, init), a), on, off);
    }
  }

  // ---------- The life cycle ----------

  predicate IsRunning(s: State) {
    s.life.phase == RUNNING
  }

  predicate IsStopping(s: State) {
    s.life.phase == STOPPING
  }

  predicate IsDisabled(s: State) {
    !s.life.enabled
  }

  predicate IsInitialized(s: State) {
    s.life.initialized
  }

  predicate HasCallback(s: State) {
    s.life.cb
  }

  predicate HasInput(s: State) {
    s.life.consumer
  }

  predicate HasOutput(s: State) {
    s.life.producer
  }

  predicate Starts(step: Did) {
    var life := step.before.life;
    step.action.Start? && life.phase == IDLE && life.initialized && life.consumer && life.producer && life.cb
  }

  /** Stop, or a Deinitialize that has something to end. */
  predicate Ends(step: Did) {
    step.action.Stop? || (step.action.BeginDeinit? && step.before.life.initialized)
  }

  predicate EndsRunning(step: Did) {
    Ends(step) && step.before.life.phase == RUNNING
  }

  predicate Answers(step: Did) {
    step.action.CheckStop? || step.action.ClearOnDeinit?
  }

  /** An input buffer arrives while frames are taken. */
  predicate Accepts(step: Did) {
    step.action.Acquire? && step.before.life.phase == RUNNING && step.before.life.consumer
  }

  predicate Disables(step: Did) {
    step.action.Disable? || (Accepts(step) && !step.action.valid)
  }

  predicate Enables(step: Did) {
    step.action.Enable?
  }

  predicate Initializes(step: Did) {
    step.action.Initialize?
  }

  predicate BeginsDeinit(step: Did) {
    step.action.BeginDeinit?
  }

  predicate Registers(step: Did) {
    step.action.RegisterCallback? && step.before.life.phase == IDLE
  }

  predicate ClearsAfterJoin(step: Did) {
    step.action.ClearOnDeinit?
  }

  predicate OpensInput(step: Did) {
    step.action.OpenInput? && step.action.created && step.before.life.phase == IDLE
  }

  predicate Swaps(step: Did) {
    step.action.SetOutput? && step.action.swap == Accepted
  }

  predicate EndsDeinit(step: Did) {
    step.action.EndDeinit?
  }

  lemma LifeElsewhere(s: State, a: Action)
    requires Allowed(s, a) && !IsLife(a)
    ensures Apply(s, a).life
         == if Accepts(Step(s, a)) then s.life.(enabled := s.life.enabled && a.valid)
            else if Swaps(Step(s, a)) then s.life.(producer := true)
            else s.life
  {
    hide ClearQueues, Request, BufferReleased, DrainOne, ApplyWorker;
    if IsInput(a) {
      LifeInput(s, a);
    } else if !IsOutput(a) {
      LifeWorker(s, a);
    }
  }

  lemma LifeInput(s: State, a: Action)
    requires Allowed(s, a) && IsInput(a)
    ensures ApplyInput(s, a).life
         == if Accepts(Step(s, a)) then s.life.(enabled := s.life.enabled && a.valid) else s.life
  {
  }

  lemma LifeWorker(s: State, a: Action)
    ensures ApplyWorker(s, a).life == s.life
  {
  }

  lemma PhaseStep(s: State, a: Action)
    requires LifeInv(s) && Allowed(s, a)
    ensures var t := Apply(s, a);
            && (IsRunning(t) <==> Starts(Step(s, a)) || (IsRunning(s) && !Ends(Step(s, a))))
            && (IsStopping(t) <==> EndsRunning(Step(s, a)) || (IsStopping(s) && !Answers(Step(s, a))))
  {
    hide ApplyInput, ApplyOutput, ApplyWorker;
    if !IsLife(a) {
      LifeElsewhere(s, a);
      hide Apply, Allowed;
    }
  }

  lemma FlagStep(s: State, a: Action)
    requires Allowed(s, a)
    ensures var t := Apply(s, a);
            && (IsDisabled(t) <==> Disables(Step(s, a)) || (IsDisabled(s) && !Enables(Step(s, a))))
            && (IsInitialized(t) <==> Initializes(Step(s, a)) || (IsInitialized(s) && !BeginsDeinit(Step(s, a))))
            && (HasCallback(t) <==> Registers(Step(s, a)) || (HasCallback(s) && !ClearsAfterJoin(Step(s, a))))
            && (HasInput(t) <==> OpensInput(Step(s, a)) || (HasInput(s) && !EndsDeinit(Step(s, a))))
            && (HasOutput(t) <==> Swaps(Step(s, a)) || (HasOutput(s) && !EndsDeinit(Step(s, a))))
  {
    if IsLife(a) {
      ModeFlags(s, a);
      CallbackFlag(s, a);
      SurfaceFlags(s, a);
      hide ApplyLife, ApplyInput, ApplyOutput, ApplyWorker, Allowed;
    } else {
      LifeElsewhere(s, a);
      hide Apply, Allowed;
    }
  }

  lemma ClearKeepsLife()
    ensures forall s: State :: ClearQueues(s).life == s.life
  {
  }

  lemma ModeFlags(s: State, a: Action)
    requires IsLife(a)
    ensures var t := ApplyLife(s, a);
            && (IsDisabled(t) <==> Disables(Step(s, a)) || (IsDisabled(s) && !Enables(Step(s, a))))
            && (IsInitialized(t) <==> Initializes(Step(s, a)) || (IsInitialized(s) && !BeginsDeinit(Step(s, a))))
  {
    ClearKeepsLife();
    hide ClearQueues;
  }

  lemma CallbackFlag(s: State, a: Action)
    requires IsLife(a)
    ensures HasCallback(ApplyLife(s, a)) <==>
              Registers(Step(s, a)) || (HasCallback(s) && !ClearsAfterJoin(Step(s, a)))
  {
    ClearKeepsLife();
    hide ClearQueues;
  }

  lemma SurfaceFlags(s: State, a: Action)
    requires IsLife(a)
    ensures var t := ApplyLife(s, a);
            && (HasInput(t) <==> OpensInput(Step(s, a)) || (HasInput(s) && !EndsDeinit(Step(s, a))))
            && (HasOutput(t) <==> Swaps(Step(s, a)) || (HasOutput(s) && !EndsDeinit(Step(s, a))))
  {
    ClearKeepsLife();
    hide ClearQueues;
  }

  /** The pipeline is RUNNING exactly when it was started, ready, and neither stopped nor deinitialised since;
      STOPPING exactly when it was ended while RUNNING and nobody has answered that yet. */
  lemma PhaseSince(actions: seq<Action>)
    requires Legal(Initial, actions)
    ensures var s, steps := Run(Initial, actions), Steps(Initial, actions);
            && (s.life.phase == RUNNING <==> Since(steps, Starts, Ends))
            && (s.life.phase == STOPPING <==> Since(steps, EndsRunning, Answers))
  {
    hide Allowed, Apply, Inv, LifeInv;
    forall s, a | Inv(s) && Allowed(s, a)
      ensures IsRunning(Apply(s, a)) <==> Starts(Step(s, a)) || (IsRunning(s) && !Ends(Step(s, a)))
      ensures IsStopping(Apply(s, a)) <==> EndsRunning(Step(s, a)) || (IsStopping(s) && !Answers(Step(s, a)))
    {
      InvLife(s);
      PhaseStep(s, a);
    }
    SetSince(actions, IsRunning, Starts, Ends);
    SetSince(actions, IsStopping, EndsRunning, Answers);
  }

  lemma InvLife(s: State)
    requires Inv(s)
    ensures LifeInv(s)
  {
  }

  /** Likewise every flag of the life cycle: set by the last call that had a say in it. */
  lemma FlagsSince(actions: seq<Action>)
    requires Legal(Initial, actions)
    ensures var life, steps := Run(Initial, actions).life, Steps(Initial, actions);
            && (!life.enabled <==> Since(steps, Disables, Enables))
            && (life.initialized <==> Since(steps, Initializes, BeginsDeinit))
            && (life.cb <==> Since(steps, Registers, ClearsAfterJoin))
            && (life.consumer <==> Since(steps, OpensInput, EndsDeinit))
            && (life.producer <==> Since(steps, Swaps, EndsDeinit))
  {
    hide Allowed, Apply, Inv, LifeInv;
    forall s, a | Inv(s) && Allowed(s, a)
      ensures IsDisabled(Apply(s, a)) <==> Disables(Step(s, a)) || (IsDisabled(s) && !Enables(Step(s, a)))
      ensures IsInitialized(Apply(s, a)) <==>
                Initializes(Step(s, a)) || (IsInitialized(s) && !BeginsDeinit(Step(s, a)))
      ensures HasCallback(Apply(s, a)) <==> Registers(Step(s, a)) || (HasCallback(s) && !ClearsAfterJoin(Step(s, a)))
      ensures HasInput(Apply(s, a)) <==> OpensInput(Step(s, a)) || (HasInput(s) && !EndsDeinit(Step(s, a)))
      ensures HasOutput(Apply(s, a)) <==> Swaps(Step(s, a)) || (HasOutput(s) && !EndsDeinit(Step(s, a)))
    {
      InvLife(s);
      FlagStep(s, a);
    }
    SetSince(actions, IsDisabled, Disables, Enables);
    SetSince(actions, IsInitialized, Initializes, BeginsDeinit);
    SetSince(actions, HasCallback, Registers, ClearsAfterJoin);
    SetSince(actions, HasInput, OpensInput, EndsDeinit);
    SetSince(actions, HasOutput, Swaps, EndsDeinit);
  }

  // ---------- What came in ----------

  /** What one step brings to the consumer queue: an accepted buffer with its own timestamp, or a marker. */
  function Arrived(step: Did): seq<Info> {
    match step.action
    case Acquire(id, timestamp, _) =>
      if step.before.life.phase == RUNNING && step.before.life.consumer
      then [Info(Some(id), false, timestamp, false, 0)]
      else []
    case NotifyEos => if step.before.life.phase != IDLE then [Info(None, true, 0, false, 0)] else []
    case _ => []
  }

  /** What one step looks up in the render map. */
  function LookedUp(step: Did): seq<nat> {
    match step.action
    case RenderTake(k) => if k in step.before.output.render then [k] else []
    case _ => []
  }

  function Deinitialized(step: Did): seq<Action> {
    if step.action.BeginDeinit? && step.before.life.initialized then [step.action] else []
  }

  lemma DeathStep(s: State, a: Action)
    requires Allowed(s, a)
    ensures Apply(s, a).life.deaths == s.life.deaths + |Deinitialized(Step(s, a))|
  {
    hide ApplyInput, ApplyOutput, ApplyWorker;
    if !IsLife(a) {
      LifeElsewhere(s, a);
      hide Apply;
    }
  }

  lemma LogLife(s: State, a: Action)
    requires Allowed(s, a) && IsLife(a)
    ensures var t := ApplyLife(s, a);
            t.log.pushed == s.log.pushed && t.log.rendered == s.log.rendered && t.log.acquired == s.log.acquired
  {
    match a
    case ClearOnDeinit =>
    case Enable(_) =>
    case _ =>
  }

  lemma LogInput(s: State, a: Action)
    requires Allowed(s, a) && IsInput(a)
    ensures var t := ApplyInput(s, a);
            t.log.pushed == s.log.pushed + Arrived(Step(s, a)) && t.log.rendered == s.log.rendered
    ensures ApplyInput(s, a).log.acquired == s.log.acquired + Ids(Arrived(Step(s, a)))
  {
    if a.Acquire? || a.NotifyEos? {
      LogArrival(s, a);
    } else {
      LogNoArrival(s, a);
    }
    hide ApplyInput, Allowed, Arrived;
  }

  lemma LogArrival(s: State, a: Action)
    requires Allowed(s, a) && (a.Acquire? || a.NotifyEos?)
    ensures var t := ApplyInput(s, a);
            t.log.pushed == s.log.pushed + Arrived(Step(s, a)) && t.log.rendered == s.log.rendered
    ensures ApplyInput(s, a).log.acquired == s.log.acquired + Ids(Arrived(Step(s, a)))
  {
    hide Allowed;
    if Arrived(Step(s, a)) == [] {
      assert ApplyInput(s, a) == s;
      assert Ids([]) == multiset{};
      hide ApplyInput, Ids;
    } else {
      IdsOne(Arrived(Step(s, a))[0]);
      LogOneArrival(s, a);
      hide ApplyInput, Ids;
    }
  }

  lemma LogOneArrival(s: State, a: Action)
    requires Allowed(s, a) && Arrived(Step(s, a)) != []
    ensures var t, arrived := ApplyInput(s, a), Arrived(Step(s, a));
            && t.log.pushed == s.log.pushed + arrived && t.log.rendered == s.log.rendered
            && arrived == [arrived[0]] && t.log.acquired == s.log.acquired + Id(arrived[0])
  {
    hide Allowed;
  }

  lemma LogNoArrival(s: State, a: Action)
    requires Allowed(s, a) && !a.Acquire? && !a.NotifyEos?
    ensures Arrived(Step(s, a)) == [] && Ids([]) == multiset{}
    ensures var log := ApplyInput(s, a).log;
            log.pushed == s.log.pushed && log.rendered == s.log.rendered && log.acquired == s.log.acquired
  {
    if a.Flush? || a.RefreshAll? {
      hide Request, BufferReleased, DrainOne, Values;
    } else {
      SurfaceEffect(s, a);
      hide ApplyInput;
    }
  }

  lemma LogOutput(s: State, a: Action)
    requires Allowed(s, a) && IsOutput(a)
    ensures var t := ApplyOutput(s, a);
            && t.log.pushed == s.log.pushed && t.log.rendered == s.log.rendered + multiset(LookedUp(Step(s, a)))
            && t.log.acquired == s.log.acquired
  {
    match a
    case SetOutput(_, _, _) =>
    case RenderTake(k) => assert multiset([k]) == multiset{k};
    case _ =>
  }

  lemma LogWorker(s: State, a: Action)
    ensures var t := ApplyWorker(s, a);
            t.log.pushed == s.log.pushed && t.log.rendered == s.log.rendered && t.log.acquired == s.log.acquired
  {
  }

  lemma LogStep(s: State, a: Action)
    requires Allowed(s, a)
    ensures var t := Apply(s, a);
            && t.log.pushed == s.log.pushed + Arrived(Step(s, a))
            && t.log.acquired == s.log.acquired + Ids(Arrived(Step(s, a)))
            && t.log.rendered == s.log.rendered + multiset(LookedUp(Step(s, a)))
  {
    hide ApplyLife, ApplyInput, ApplyOutput, ApplyWorker;
    if IsLife(a) {
      LogLife(s, a);
    } else if IsInput(a) {
      LogInput(s, a);
    } else if IsOutput(a) {
      LogOutput(s, a);
    } else {
      LogWorker(s, a);
    }
  }

  /** The frames and markers that came in, the lookups that succeeded and the calls of Deinitialize that had
      something to end, as the calls themselves say it. */
  lemma {:induction false} HistoryIsTrue(actions: seq<Action>)
    requires Legal(Initial, actions)
    ensures Run(Initial, actions).life.deaths == |Collect(Steps(Initial, actions), Deinitialized)|
    ensures var log, steps := Run(Initial, actions).log, Steps(Initial, actions);
            && log.pushed == Collect(steps, Arrived)
            && log.acquired == Ids(Collect(steps, Arrived))
            && log.rendered == multiset(Collect(steps, LookedUp))
    decreases |actions|
  {
    hide Apply, Allowed;
    if actions != [] {
      var init, a := actions[..|actions| - 1], actions[|actions| - 1];
      assert actions == init + [a];
      RunSnoc(Initial, init, a);
      HistoryIsTrue(init);
      var steps, step := Steps(Initial, init), Step(Run(Initial, init), a);
      LogStep(Run(Initial, init), a);
      DeathStep(Run(Initial, init), a);
      CollectSnoc(steps, step, Deinitialized);
      CollectSnoc(steps, step, Arrived);
      CollectSnoc(steps, step, LookedUp);
      IdsAppend(Collect(steps, Arrived), Arrived(step));
    }
  }

  // ---------- What callers can take ----------

  /** The worker puts an image up under number `k`. */
  predicate PutsUp(step: Did, k: nat) {
    match step.before.worker
    case Converted(_, dst, _) => step.action.Publish? && dst.seqNum == Some(k)
    case Holding(src, dst, _) => step.action.Publish? && src.eos && dst.seqNum == Some(k)
    case Bypassed(src, _, _, _, _) => step.action.PublishBypass? && src.seqNum == Some(k)
    case _ => false
  }

  /** All queues are emptied. */
  predicate Empties(step: Did) {
    var life := step.before.life;
    match step.action
    case ClearOnDeinit => true
    case Enable(clear) => clear && life.producer
    case RefreshAll => life.phase == RUNNING && life.enabled && step.before.input.ready
    case Flush(_) => !life.enabled && life.producer
    case _ => false
  }

  predicate TakesDown(step: Did, k: nat) {
    step.action == RenderTake(k) || Empties(step) || (step.action.Flush? && step.before.life.enabled)
  }

  function InRender(k: nat): State -> bool {
    (s: State) => k in s.output.render
  }

  function PuttingUp(k: nat): Did -> bool {
    (step: Did) => PutsUp(step, k)
  }

  function TakingDown(k: nat): Did -> bool {
    (step: Did) => TakesDown(step, k)
  }

  lemma RenderElsewhere(s: State, a: Action)
    requires Allowed(s, a) && !IsLife(a) && !a.RenderTake? && !a.Publish? && !a.PublishBypass?
    ensures Apply(s, a).output.render
         == if Empties(Step(s, a)) || (a.Flush? && s.life.enabled) then map[] else s.output.render
  {
    if IsInput(a) {
      RenderInput(s, a);
      hide ApplyInput;
    } else if !IsOutput(a) {
      RenderWorker(s, a);
      hide ApplyWorker;
    } else {
      hide ApplyWorker, ApplyInput, Missing, Real;
    }
  }

  lemma RenderInput(s: State, a: Action)
    requires Allowed(s, a) && IsInput(a)
    ensures ApplyInput(s, a).output.render
         == if Empties(Step(s, a)) || (a.Flush? && s.life.enabled) then map[] else s.output.render
  {
    hide PopCount, Add, AttachedToRelease, RequestedKey, Ids, Values;
  }

  lemma RenderWorker(s: State, a: Action)
    requires !a.Publish? && !a.PublishBypass?
    ensures ApplyWorker(s, a).output.render == s.output.render
  {
  }

  lemma RenderLife(s: State, a: Action)
    requires Allowed(s, a) && IsLife(a)
    ensures Apply(s, a).output.render == if Empties(Step(s, a)) then map[] else s.output.render
  {
    hide ApplyInput, ApplyOutput, ApplyWorker;
  }

  lemma RenderPut(s: State, a: Action, k: nat)
    requires FrameInHand(s.worker) && ImageInHand(s.worker) && (a.Publish? || a.PublishBypass?)
    ensures k in ApplyWorker(s, a).output.render <==> PutsUp(Step(s, a), k) || k in s.output.render
  {
    hide Add;
  }

  lemma RenderStep(s: State, a: Action, k: nat)
    requires OutputInv(s) && FrameInHand(s.worker) && Allowed(s, a)
    ensures k in Apply(s, a).output.render <==>
              PutsUp(Step(s, a), k) || (k in s.output.render && !TakesDown(Step(s, a), k))
  {
    hide ApplyLife, ApplyInput, ApplyWorker, FrameInHand, Empties;
    if IsLife(a) {
      RenderLife(s, a);
      hide OutputInv;
    } else if a.RenderTake? {
      hide OutputInv;
      LeavesQueues(s, a);
    } else if a.Publish? || a.PublishBypass? {
      RenderPut(s, a, k);
      LeavesQueues(s, a);
    } else {
      RenderElsewhere(s, a);
      hide Apply, OutputInv, Allowed;
    }
  }

  lemma LeavesQueues(s: State, a: Action)
    requires a.RenderTake? || a.Publish? || a.PublishBypass?
    ensures !Empties(Step(s, a))
  {
  }

  /** A caller finds index `k` exactly when the worker put an image up under it, and since then it was neither
      looked up nor swept away by a flush or a clearing. */
  lemma IndexSince(actions: seq<Action>, k: nat)
    requires Legal(Initial, actions)
    ensures k in Run(Initial, actions).output.render <==>
              Since(Steps(Initial, actions), PuttingUp(k), TakingDown(k))
  {
    hide Allowed, Apply, Inv;
    forall s, a | Inv(s) && Allowed(s, a)
      ensures InRender(k)(Apply(s, a)) <==>
                PuttingUp(k)(Step(s, a)) || (InRender(k)(s) && !TakingDown(k)(Step(s, a)))
    {
      InvOutput(s);
      hide OutputInv, FrameInHand;
      RenderStep(s, a, k);
      hide PutsUp, TakesDown;
    }
    SetSince(actions, InRender(k), PuttingUp(k), TakingDown(k));
  }

  lemma InvOutput(s: State)
    requires Inv(s)
    ensures OutputInv(s) && FrameInHand(s.worker)
  {
  }

  /** The last announcement under an index. */
  function LastTold(announced: seq<Announcement>, k: nat): Option<Announcement> {
    if announced == [] then None
    else
      var last := announced[|announced| - 1];
      if last.index == k then Some(last) else LastTold(announced[..|announced| - 1], k)
  }

  /** This image belongs to that frame; for a marker no image is made. */
  predicate Shows(image: Info, eos: bool, timestamp: int) {
    eos || image.timestamp == timestamp
  }

  predicate ShownAt(s: State, k: nat)
    requires k in s.output.render
  {
    if s.worker.Announcing? && s.worker.index == k
    then Shows(s.output.render[k], s.worker.frame.eos, s.worker.frame.timestamp)
    else
      var told := LastTold(s.log.announced, k);
      told.Some? && Shows(s.output.render[k], told.value.eos, told.value.timestamp)
  }

  ghost predicate ImagesInv(s: State) {
    && (forall k | k in s.output.render :: ShownAt(s, k))
    && (s.worker.Converted? ==> s.worker.dst.timestamp == s.worker.src.timestamp)
  }

  /** Neither images nor announcements move. */
  lemma SameImages(s: State, t: State)
    requires ImagesInv(s) && !s.worker.Announcing? && !t.worker.Announcing?
    requires t.log.announced == s.log.announced
    requires forall k | k in t.output.render :: k in s.output.render && t.output.render[k] == s.output.render[k]
    requires t.worker.Converted? ==> t.worker.dst.timestamp == t.worker.src.timestamp
    ensures ImagesInv(t)
  {
    assert forall k | k in t.output.render :: ShownAt(s, k);
  }

  lemma FewerImages(s: State, t: State)
    requires ImagesInv(s) && t.worker == s.worker && t.log.announced == s.log.announced
    requires forall k | k in t.output.render :: k in s.output.render && t.output.render[k] == s.output.render[k]
    ensures ImagesInv(t)
  {
    assert forall k | k in t.output.render :: ShownAt(s, k);
  }

  lemma ImagesPut(s: State, image: Info, frame: Info, at: nat)
    requires ImagesInv(s) && !s.worker.Announcing? && image.seqNum.Some?
    requires Shows(image, frame.eos, frame.timestamp)
    ensures ImagesInv(Put(s, image).(worker := Announcing(image.seqNum.value, frame, at)))
  {
    var t := Put(s, image).(worker := Announcing(image.seqNum.value, frame, at));
    forall k | k in t.output.render
      ensures ShownAt(t, k)
    {
      if k != image.seqNum.value {
        assert ShownAt(s, k);
      }
    }
  }

  lemma ImagesTold(s: State)
    requires ImagesInv(s) && s.worker.Announcing? && s.life.cb
    ensures ImagesInv(AnnounceHeld(s))
  {
    var t := AnnounceHeld(s);
    var last := Announcement(s.worker.index, s.worker.frame.eos, s.worker.frame.timestamp);
    assert t.log.announced == s.log.announced + [last];
    forall k | k in t.output.render
      ensures ShownAt(t, k)
    {
      assert ShownAt(s, k);
      assert t.log.announced[..|s.log.announced|] == s.log.announced;
    }
  }

  lemma ImagesWorker(s: State, a: Action)
    requires ImagesInv(s) && (s.worker.Announcing? ==> s.life.cb)
    ensures ImagesInv(ApplyWorker(s, a))
  {
    hide ImagesInv, FetchBuffers;
    if s.worker.Announcing? {
      if a.Announce? {
        ImagesTold(s);
      }
    } else if a.Publish? {
      ImagesPublish(s);
    } else if a.PublishBypass? {
      ImagesBypass(s, a.order);
    } else {
      ImagesSilent(s, a);
    }
  }

  lemma ImagesPublish(s: State)
    requires ImagesInv(s) && !s.worker.Announcing?
    ensures ImagesInv(PublishHeld(s))
  {
    match s.worker
    case Holding(src, dst, at) =>
      if src.eos && dst.seqNum.Some? {
        ImagesPut(s, dst, src, at);
      }
    case Converted(src, dst, at) =>
      if dst.seqNum.Some? {
        ImagesPut(s, dst, src, at);
      }
    case _ =>
  }

  lemma ImagesBypass(s: State, order: seq<nat>)
    requires ImagesInv(s) && !s.worker.Announcing?
    ensures ImagesInv(PublishBypassed(s, order))
  {
    hide Add;
    if s.worker.Bypassed? && s.worker.src.seqNum.Some? {
      ImagesPut(s, s.worker.src, s.worker.src, s.worker.at);
      var u := Put(s, s.worker.src).(worker := Announcing(s.worker.src.seqNum.value, s.worker.src, s.worker.at));
      FewerImages(u, PublishBypassed(s, order));
    }
  }

  lemma ImagesSilent(s: State, a: Action)
    requires ImagesInv(s) && !s.worker.Announcing? && !a.Publish? && !a.PublishBypass?
    ensures ImagesInv(ApplyWorker(s, a))
  {
    var t := ApplyWorker(s, a);
    RenderWorker(s, a);
    assert t.log.announced == s.log.announced && !t.worker.Announcing?;
    assert t.worker.Converted? ==> t.worker.dst.timestamp == t.worker.src.timestamp;
    hide ApplyWorker, ImagesInv;
    SameImages(s, t);
  }

  lemma NothingTold(s: State, a: Action)
    requires Allowed(s, a) && (IsLife(a) || IsInput(a) || IsOutput(a))
    ensures Apply(s, a).worker == s.worker && Apply(s, a).log.announced == s.log.announced
  {
    if IsInput(a) && !a.Flush? && !a.RefreshAll? && !a.NotifyEos? && !a.Acquire? {
      SurfaceEffect(s, a);
      hide ApplyInput;
    } else {
      hide ApplyWorker, Request, BufferReleased, DrainOne, Missing, Real, Values;
    }
  }

  lemma ImagesElsewhere(s: State, a: Action)
    requires ImagesInv(s) && Allowed(s, a) && (IsLife(a) || IsInput(a) || IsOutput(a))
    requires OutputInv(s) && FrameInHand(s.worker)
    ensures ImagesInv(Apply(s, a))
  {
    var t := Apply(s, a);
    NothingTold(s, a);
    RenderShrinks(s, a);
    hide Apply, ImagesInv;
    FewerImages(s, t);
  }

  lemma RenderShrinks(s: State, a: Action)
    requires Allowed(s, a) && (IsLife(a) || IsInput(a) || IsOutput(a))
    ensures var render := Apply(s, a).output.render;
            forall k | k in render :: k in s.output.render && render[k] == s.output.render[k]
  {
    if IsLife(a) {
      hide ApplyInput, ApplyOutput, ApplyWorker;
    } else if a.RenderTake? {
      hide ApplyInput, ApplyLife, ApplyWorker;
    } else {
      RenderElsewhere(s, a);
      hide Apply;
    }
  }

  lemma ImagesStep(s: State, a: Action)
    requires Inv(s) && ImagesInv(s) && Allowed(s, a)
    ensures ImagesInv(Apply(s, a))
  {
    InvOutput(s);
    assert s.worker.Announcing? ==> s.life.cb;
    hide Inv, OutputInv, ImagesInv, ApplyWorker, ApplyLife, ApplyInput, ApplyOutput;
    if IsLife(a) || IsInput(a) || IsOutput(a) {
      ImagesElsewhere(s, a);
    } else {
      ImagesWorker(s, a);
    }
  }

  lemma {:induction false} ImagesRun(actions: seq<Action>)
    requires Legal(Initial, actions)
    ensures ImagesInv(Run(Initial, actions))
    decreases |actions|
  {
    hide Apply, Allowed, Inv;
    if actions != [] {
      var init, a := actions[..|actions| - 1], actions[|actions| - 1];
      assert actions == init + [a];
      RunSnoc(Initial, init, a);
      ImagesRun(init);
      InitialInv();
      InvRun(Initial, init);
      hide ImagesInv;
      ImagesStep(Run(Initial, init), a);
    }
  }

  /** Whoever takes an index gets the image of the frame that was last announced under it: it carries that
      frame's timestamp. While the worker is about to announce an index, the image is already the new one. */
  lemma ImageOfLastAnnounced(actions: seq<Action>, k: nat)
    requires Legal(Initial, actions) && k in Run(Initial, actions).output.render
    ensures var s := Run(Initial, actions);
            var told := LastTold(s.log.announced, k);
            if s.worker.Announcing? && s.worker.index == k
            then s.worker.frame.eos || s.output.render[k].timestamp == s.worker.frame.timestamp
            else told.Some? && (told.value.eos || s.output.render[k].timestamp == told.value.timestamp)
  {
    ImagesRun(actions);
    assert ShownAt(Run(Initial, actions), k);
  }

  // ---------- When a cached buffer was handed over ----------

  /** The output surface grants buffer `k`, or takes it as an attached one. */
  predicate Grants(step: Did, k: nat) {
    var life := step.before.life;
    match step.action
    case Prepare(r, _, _) => r.seqNum == Some(k) && life.producer && life.hasConsumer
    case Released(r, _, _) => r.seqNum == Some(k) && life.producer && life.hasConsumer
    case PublishBypass(_) =>
      var worker := step.before.worker;
      worker.Bypassed? && worker.attached && worker.src.seqNum == Some(k)
    case _ => false
  }

  /** A caller has buffer `k` shown. */
  predicate HandsOver(step: Did, k: nat) {
    step.action.RenderFlushed? && step.action.info.seqNum == Some(k)
  }

  /** The time at which buffer `k` was handed to the surface, if the surface has not granted it again since. */
  function HandedOver(steps: seq<Did>, k: nat): Option<int> {
    if steps == [] then None
    else
      var last := steps[|steps| - 1];
      if HandsOver(last, k) then Some(last.action.time)
      else if Grants(last, k) then None
      else HandedOver(steps[..|steps| - 1], k)
  }

  lemma HandedOverSnoc(steps: seq<Did>, step: Did, k: nat)
    ensures HandedOver(steps + [step], k)
         == if HandsOver(step, k) then Some(step.action.time)
            else if Grants(step, k) then None
            else HandedOver(steps, k)
  {
    assert (steps + [step])[..|steps|] == steps;
  }

  /** The flushed mark and time of a cache entry. */
  function Mark(info: Info): Option<int> {
    if info.isFlushed then Some(info.flushedTime) else None
  }

  /** How one step leaves the entry of buffer `k`, if there is one afterwards. */
  predicate MarkMoves(cache: Cache, after: Cache, step: Did, k: nat) {
    k in after ==> if Grants(step, k) then Mark(after[k]) == None
                   else k in cache
                        && Mark(after[k]) == if HandsOver(step, k) then Some(step.action.time) else Mark(cache[k])
  }

  lemma AddMoves(cache: Cache, info: Info, order: seq<nat>, k: nat)
    requires Keyed(cache) && info.seqNum.Some? && !info.isFlushed
    ensures var after := Add(cache, info, order);
            k in after ==> if info.seqNum == Some(k) then Mark(after[k]) == None
                           else k in cache && after[k] == cache[k]
  {
    if info.seqNum.value !in cache {
      EvictShrinks(cache[info.seqNum.value := info], order);
    }
  }

  lemma MarkLife(s: State, a: Action, k: nat)
    requires IsLife(a)
    ensures MarkMoves(s.output.cache, ApplyLife(s, a).output.cache, Step(s, a), k)
  {
  }

  lemma MarkRequest(s: State, r: Info, order: seq<nat>, refused: set<nat>, k: nat)
    requires Keyed(s.output.cache) && r.seqNum.Some? && !r.isFlushed
    ensures var after := Request(s, r, order, refused).output.cache;
            k in after ==> if r.seqNum == Some(k) && s.life.hasConsumer then Mark(after[k]) == None
                           else k in s.output.cache && after[k] == s.output.cache[k]
  {
    AddMoves(s.output.cache, r, order, k);
    hide Add, AttachedToRelease;
  }

  lemma CacheInput(s: State, a: Action)
    requires Allowed(s, a) && IsInput(a) && !a.Prepare? && !a.Released?
    ensures ApplyInput(s, a).output.cache == s.output.cache || ApplyInput(s, a).output.cache == map[]
  {
    hide Values, Allowed;
  }

  lemma MarkGrant(s: State, a: Action, k: nat)
    requires Keyed(s.output.cache) && Allowed(s, a) && (a.Prepare? || a.Released?)
    ensures MarkMoves(s.output.cache, ApplyInput(s, a).output.cache, Step(s, a), k)
  {
    MarkRequest(s, a.r, a.order, a.refused, k);
    hide Request, RequestedKey, PopCount, Keyed;
  }

  lemma MarkInput(s: State, a: Action, k: nat)
    requires Keyed(s.output.cache) && Allowed(s, a) && IsInput(a)
    ensures MarkMoves(s.output.cache, ApplyInput(s, a).output.cache, Step(s, a), k)
  {
    if a.Prepare? || a.Released? {
      MarkGrant(s, a, k);
      hide MarkMoves, ApplyInput;
    } else {
      CacheInput(s, a);
      hide ApplyInput;
    }
  }

  lemma MarkOutput(s: State, a: Action, k: nat)
    requires Keyed(s.output.cache) && IsOutput(a)
    ensures MarkMoves(s.output.cache, ApplyOutput(s, a).output.cache, Step(s, a), k)
  {
    hide Evict, Real, Missing;
    if a.SetOutput? {
      EvictShrinks(s.output.cache, a.order);
    }
  }

  lemma MarkBypass(s: State, order: seq<nat>, k: nat)
    requires Keyed(s.output.cache) && s.worker.Bypassed? && s.worker.src.seqNum.Some? && !s.worker.src.isFlushed
    ensures MarkMoves(s.output.cache, PublishBypassed(s, order).output.cache, Step(s, PublishBypass(order)), k)
  {
    var dst := s.worker.dst.seqNum;
    var left := if s.worker.detached && dst.Some? then s.output.cache - {dst.value} else s.output.cache;
    AddMoves(left, s.worker.src, order, k);
    hide Add, Keyed;
  }

  lemma CacheWorker(s: State, a: Action)
    requires !(a.PublishBypass? && s.worker.Bypassed?)
    ensures ApplyWorker(s, a).output.cache == s.output.cache
  {
  }

  lemma MarkWorker(s: State, a: Action, k: nat)
    requires Keyed(s.output.cache) && (s.worker.Bypassed? ==> s.worker.src.seqNum.Some? && !s.worker.src.isFlushed)
    requires !IsLife(a) && !IsInput(a) && !IsOutput(a)
    ensures MarkMoves(s.output.cache, ApplyWorker(s, a).output.cache, Step(s, a), k)
  {
    if a.PublishBypass? && s.worker.Bypassed? {
      MarkBypass(s, a.order, k);
      hide PublishBypassed, MarkMoves;
    } else {
      CacheWorker(s, a);
      hide ApplyWorker;
    }
  }

  lemma MarkStep(s: State, a: Action, k: nat)
    requires OutputInv(s) && FrameInHand(s.worker) && Allowed(s, a)
    requires s.worker.Bypassed? ==> !s.worker.src.isFlushed
    ensures MarkMoves(s.output.cache, Apply(s, a).output.cache, Step(s, a), k)
  {
    hide ApplyLife, ApplyInput, ApplyOutput, ApplyWorker, MarkMoves;
    if IsLife(a) {
      MarkLife(s, a, k);
    } else if IsInput(a) {
      MarkInput(s, a, k);
    } else if IsOutput(a) {
      MarkOutput(s, a, k);
    } else {
      MarkWorker(s, a, k);
    }
  }

  lemma {:induction false} ArrivalsAreFresh(steps: seq<Did>)
    ensures forall info | info in Collect(steps, Arrived) :: !info.isFlushed
  {
    if steps != [] {
      ArrivalsAreFresh(steps[..|steps| - 1]);
    }
  }

  lemma SourceIsFresh(actions: seq<Action>)
    requires Legal(Initial, actions)
    ensures var worker := Run(Initial, actions).worker; worker.Bypassed? ==> !worker.src.isFlushed
  {
    var s := Run(Initial, actions);
    assert s.worker.Bypassed? ==> s.worker.src in s.log.pushed by {
      InitialInv();
      InvRun(Initial, actions);
      BypassedWasPushed(s);
    }
    HistoryIsTrue(actions);
    ArrivalsAreFresh(Steps(Initial, actions));
  }

  lemma BypassedWasPushed(s: State)
    requires Inv(s)
    ensures s.worker.Bypassed? ==> s.worker.src in s.log.pushed
  {
    hide LifeInv, InputInv, Owned, DropInv, OutputInv, AnnounceInv;
  }

  /** A cached buffer is marked as flushed exactly when it was handed to the surface and not granted again since,
      and its time is that of the last hand-over. */
  lemma {:induction false} MarkedSince(actions: seq<Action>, k: nat)
    requires Legal(Initial, actions) && k in Run(Initial, actions).output.cache
    ensures var info := Run(Initial, actions).output.cache[k];
            (if info.isFlushed then Some(info.flushedTime) else None) == HandedOver(Steps(Initial, actions), k)
    decreases |actions|
  {
    hide Apply, Allowed, Inv;
    var init, a := actions[..|actions| - 1], actions[|actions| - 1];
    assert actions == init + [a];
    RunSnoc(Initial, init, a);
    InitialInv();
    InvRun(Initial, init);
    var s := Run(Initial, init);
    InvOutput(s);
    SourceIsFresh(init);
    hide OutputInv, FrameInHand, Grants, HandsOver;
    MarkStep(s, a, k);
    HandedOverSnoc(Steps(Initial, init), Step(s, a), k);
    if k in s.output.cache {
      MarkedSince(init, k);
    }
  }

  lemma AddedStays(cache: Cache, info: Info, order: seq<nat>)
    requires Keyed(cache) && info.seqNum.Some? && !info.isFlushed
    ensures info.seqNum.value in Add(cache, info, order)
  {
    var k := info.seqNum.value;
    if k !in cache {
      EvictKeepsUnmarked(cache[k := info], order, k);
    }
  }

  /** Whatever is evicted on the way, a buffer that was just granted or attached is in the cache. */
  lemma GrantedIsCached(s: State, a: Action, k: nat)
    requires OutputInv(s) && FrameInHand(s.worker) && Allowed(s, a)
    requires s.worker.Bypassed? ==> !s.worker.src.isFlushed
    requires Grants(Step(s, a), k)
    ensures k in Apply(s, a).output.cache
  {
    if a.PublishBypass? {
      GrantedByWorker(s, a.order);
    } else {
      GrantedByRequest(s, a);
    }
    hide Apply, OutputInv, FrameInHand;
  }

  lemma GrantedByWorker(s: State, order: seq<nat>)
    requires OutputInv(s) && s.worker.Bypassed? && s.worker.attached && s.worker.src.seqNum.Some?
    requires !s.worker.src.isFlushed
    ensures s.worker.src.seqNum.value in PublishBypassed(s, order).output.cache
  {
    var dst := s.worker.dst.seqNum;
    var left := if s.worker.detached && dst.Some? then s.output.cache - {dst.value} else s.output.cache;
    AddedStays(left, s.worker.src, order);
    hide Add, Keyed;
  }

  lemma GrantedByRequest(s: State, a: Action)
    requires OutputInv(s) && Allowed(s, a) && (a.Prepare? || a.Released?) && s.life.producer && s.life.hasConsumer
    ensures a.r.seqNum.value in ApplyInput(s, a).output.cache
  {
    AddedStays(s.output.cache, a.r, a.order);
    hide Add, Keyed, PopCount, AttachedToRelease, RequestedKey;
  }

  /** The buffers of the cache that the surface has and has not granted again. */
  function HandedKeys(cache: Cache, steps: seq<Did>): set<nat> {
    set k | k in cache && HandedOver(steps, k).Some?
  }

  /** `gone` are the ones handed over first. */
  ghost predicate FirstHandedOver(gone: set<nat>, cache: Cache, steps: seq<Did>) {
    && gone <= HandedKeys(cache, steps)
    && forall g, k | g in gone && k in HandedKeys(cache, steps) - gone ::
         HandedOver(steps, g).value <= HandedOver(steps, k).value
  }

  lemma OldestIsFirst(cache: Cache, steps: seq<Did>, gone: set<nat>)
    requires IsOldest(gone, cache) && forall k | k in cache :: Mark(cache[k]) == HandedOver(steps, k)
    ensures FirstHandedOver(gone, cache, steps) && FlushedKeys(cache) == HandedKeys(cache, steps)
  {
    hide HandedOver;
  }

  /** So the cache, grown beyond the queue size, gives up the buffers that were handed over first, and none that
      the surface has granted again since. */
  lemma EvictsFirstHandedOver(actions: seq<Action>, order: seq<nat>) returns (gone: set<nat>)
    requires Legal(Initial, actions) && IsOrder(order, Run(Initial, actions).output.cache)
    ensures var cache, steps := Run(Initial, actions).output.cache, Steps(Initial, actions);
            && Evict(cache, order) == cache - gone
            && FirstHandedOver(gone, cache, steps)
            && |gone| == Min(|HandedKeys(cache, steps)|, Surplus(cache))
  {
    var cache := Run(Initial, actions).output.cache;
    assert Keyed(cache) by {
      InitialInv();
      InvRun(Initial, actions);
    }
    forall k | k in cache
      ensures Mark(cache[k]) == HandedOver(Steps(Initial, actions), k)
    {
      MarkedSince(actions, k);
    }
    gone := Oldest(cache, order);
    OldestIsFirst(cache, Steps(Initial, actions), gone);
  }

  lemma Oldest(cache: Cache, order: seq<nat>) returns (gone: set<nat>)
    requires Keyed(cache) && IsOrder(order, cache)
    ensures IsOldest(gone, cache) && |gone| == Min(|FlushedKeys(cache)|, Surplus(cache))
    ensures Evict(cache, order) == cache - gone
  {
    EvictsOldestFlushed(cache, order);
    hide Evict, IsOrder, Keyed, IsOldest;
    gone :| && IsOldest(gone, cache) && |gone| == Min(|FlushedKeys(cache)|, Surplus(cache))
            && Evict(cache, order) == cache - gone;
  }

  // ---------- Flushing and clearing ----------

  /** Exactly the images of a render map, each once. */
  ghost predicate AllOf(moved: seq<Info>, render: map<nat, Info>) {
    && Ids(moved) == multiset(render.Keys)
    && forall e | e in moved :: e.seqNum.Some? && e.seqNum.value in render && render[e.seqNum.value] == e
  }

  lemma {:induction false} ValuesInOrder(m: map<nat, Info>, order: seq<nat>)
    requires Keyed(m) && forall k | k in order :: k in m
    ensures Ids(Values(m, order)) == multiset(order)
    ensures forall e | e in Values(m, order) :: e.seqNum.Some? && e.seqNum.value in m && m[e.seqNum.value] == e
  {
    if order != [] {
      var init, k := order[..|order| - 1], order[|order| - 1];
      ValuesInOrder(m, init);
      assert k in order && order == init + [k];
      IdsAppend(Values(m, init), [m[k]]);
      IdsOne(m[k]);
    }
  }

  lemma {:induction false} OrderCounts(order: seq<nat>, k: nat)
    requires forall i, j | 0 <= i < j < |order| :: order[i] != order[j]
    ensures multiset(order)[k] == if k in order then 1 else 0
  {
    if order != [] {
      var init, last := order[..|order| - 1], order[|order| - 1];
      assert order == init + [last];
      OrderCounts(init, k);
      assert last !in init;
    }
  }

  lemma ValuesAreAll(m: map<nat, Info>, order: seq<nat>)
    requires Keyed(m) && IsOrder(order, m)
    ensures AllOf(Values(m, order), m)
  {
    ValuesInOrder(m, order);
    forall k
      ensures multiset(order)[k] == multiset(m.Keys)[k]
    {
      OrderCounts(order, k);
    }
  }

  /** Both input queues have gone to the drain, in order. */
  predicate InputsTaken(before: Input, after: Input) {
    && after.queue == [] && after.attachQueue == [] && after.attachIds == {}
    && after.draining == before.draining + before.queue + before.attachQueue
  }

  /** A flush gives up all input. While processing it puts every image that callers could have taken, each once,
      behind the producer queue; in bypass mode it empties the output side as well, if there is one. */
  lemma FlushMovesAll(s: State, order: seq<nat>)
    requires OutputInv(s) && IsOrder(order, s.output.render)
    ensures var t := Apply(s, Flush(order));
            var q := s.output.queue;
            if s.life.enabled then
              && InputsTaken(s.input, t.input) && q <= t.output.queue
              && AllOf(t.output.queue[|q|..], s.output.render)
              && t.output == s.output.(queue := t.output.queue, render := map[])
            else if s.life.producer then
              InputsTaken(s.input, t.input) && t.output == Output([], map[], [], map[], s.output.taken)
            else t == s
  {
    var q, moved := s.output.queue, Values(s.output.render, order);
    ValuesAreAll(s.output.render, order);
    assert (q + moved)[|q|..] == moved;
    hide AllOf, IsOrder, Values, OutputInv;
    assert Apply(s, Flush(order)) == FlushLocked(s, order);
    hide Apply;
  }

  /** Whatever empties the queues, the buffers that callers have in hand stay theirs. */
  lemma EmptiesAll(s: State, a: Action)
    requires Allowed(s, a) && Empties(Step(s, a))
    ensures var t := Apply(s, a);
            && InputsTaken(s.input, t.input) && !t.input.ready
            && t.output == Output([], map[], [], map[], s.output.taken)
  {
    hide ApplyWorker, ApplyOutput, Values, Request, BufferReleased;
  }

  // ---------- The flush queue ----------

  /** What a step hands to the output surface. */
  function Shown(step: Did): seq<Info> {
    if step.action.RenderFlushed? then [step.action.info] else []
  }

  predicate Suffix(tail: seq<Info>, all: seq<Info>) {
    |tail| <= |all| && tail == all[|all| - |tail|..]
  }

  lemma SuffixGrows(tail: seq<Info>, all: seq<Info>, more: seq<Info>)
    requires Suffix(tail, all)
    ensures Suffix(tail + more, all + more)
  {
  }

  lemma SuffixShrinks(tail: seq<Info>, all: seq<Info>, n: nat)
    requires Suffix(tail, all) && n <= |tail|
    ensures Suffix(tail[n..], all)
  {
  }

  /** A step takes entries off the front, forgets the whole queue, or adds what it hands over. */
  lemma FlushQueueStep(s: State, a: Action) returns (n: nat)
    requires Allowed(s, a)
    ensures n <= |s.output.flushQueue|
    ensures Apply(s, a).output.flushQueue == s.output.flushQueue[n..] + Shown(Step(s, a))
    ensures n > 0 ==> Empties(Step(s, a)) || Swaps(Step(s, a)) || a.Released?
  {
    n := 0;
    hide ApplyLife, ApplyInput, ApplyOutput, ApplyWorker, Allowed, Empties;
    if IsLife(a) {
      FlushQueueLife(s, a);
      n := if Empties(Step(s, a)) then |s.output.flushQueue| else 0;
    } else if IsInput(a) {
      n := FlushQueueInput(s, a);
    } else if IsOutput(a) {
      FlushQueueOutput(s, a);
      n := if Swaps(Step(s, a)) then |s.output.flushQueue| else 0;
    } else {
      FlushQueueWorker(s, a);
    }
  }

  lemma FlushQueueLife(s: State, a: Action)
    requires IsLife(a)
    ensures ApplyLife(s, a).output.flushQueue == if Empties(Step(s, a)) then [] else s.output.flushQueue
  {
  }

  lemma FlushQueueOutput(s: State, a: Action)
    requires IsOutput(a)
    ensures ApplyOutput(s, a).output.flushQueue
         == if Swaps(Step(s, a)) then [] else s.output.flushQueue + Shown(Step(s, a))
  {
    hide Evict, Missing, Real, MarkFlushed;
  }

  lemma FlushQueueInput(s: State, a: Action) returns (n: nat)
    requires Allowed(s, a) && IsInput(a)
    ensures n <= |s.output.flushQueue| && ApplyInput(s, a).output.flushQueue == s.output.flushQueue[n..]
    ensures n > 0 ==> Empties(Step(s, a)) || a.Released?
  {
    hide Add, RequestedKey, Values, AttachedToRelease;
    n := |s.output.flushQueue| - |ApplyInput(s, a).output.flushQueue|;
  }

  lemma FlushQueueWorker(s: State, a: Action)
    ensures ApplyWorker(s, a).output.flushQueue == s.output.flushQueue
  {
  }

  /** The flush queue holds the latest of the buffers handed to the surface, in the order of the hand-overs: first
      in, first out. */
  lemma {:induction false} FlushQueueInOrder(actions: seq<Action>)
    requires Legal(Initial, actions)
    ensures Suffix(Run(Initial, actions).output.flushQueue, Collect(Steps(Initial, actions), Shown))
    decreases |actions|
  {
    if actions != [] {
      hide Apply, Allowed, Suffix;
      var init, a := actions[..|actions| - 1], actions[|actions| - 1];
      assert actions == init + [a];
      RunSnoc(Initial, init, a);
      FlushQueueInOrder(init);
      var s, steps := Run(Initial, init), Steps(Initial, init);
      var n := FlushQueueStep(s, a);
      CollectSnoc(steps, Step(s, a), Shown);
      SuffixShrinks(s.output.flushQueue, Collect(steps, Shown), n);
      SuffixGrows(s.output.flushQueue[n..], Collect(steps, Shown), Shown(Step(s, a)));
    }
  }

  // ---------- The producer queue ----------

  /** What a step puts behind the producer queue: a granted buffer, one that is given back unshown, or the image
      of a frame that could not be processed. */
  function Supplies(step: Did): seq<Info> {
    var life, worker := step.before.life, step.before.worker;
    match step.action
    case Prepare(r, _, _) => if life.producer && life.hasConsumer then [r] else []
    case Released(r, _, _) => if life.producer && life.hasConsumer then [r] else []
    case RenderBack(info) => [info]
    case GiveBack => if worker.Failed? then [worker.dst] else []
    case _ => []
  }

  /** Apart from what a flush, a new surface or a clearing makes of it, the producer queue is first in, first out:
      the worker alone takes from its front, one at a time, together with the first frame. */
  lemma ProducerQueueStep(s: State, a: Action) returns (n: nat)
    requires InputInv(s) && OutputInv(s) && Allowed(s, a)
    requires !Empties(Step(s, a)) && !Swaps(Step(s, a)) && !a.Flush?
    ensures n <= 1 && n <= |s.output.queue|
    ensures Apply(s, a).output.queue == s.output.queue[n..] + Supplies(Step(s, a))
    ensures n == 1 <==> a.Fetch? && s.worker.Fetching? && s.input.queue != [] && s.output.queue != []
    ensures n == 1 ==> Apply(s, a).worker == Holding(s.input.queue[0], s.output.queue[0], s.log.head)
                       && Apply(s, a).input == s.input.(queue := s.input.queue[1..])
  {
    n := 0;
    hide ApplyLife, ApplyInput, ApplyOutput, ApplyWorker, Empties;
    if a.Fetch? && s.worker.Fetching? && s.input.queue != [] && s.output.queue != [] {
      n := 1;
      FetchTakesFirst(s);
    } else {
      hide InputInv, OutputInv;
      ProducerQueueElse(s, a);
    }
  }

  lemma FetchTakesFirst(s: State)
    requires InputInv(s) && OutputInv(s) && s.worker.Fetching? && s.input.queue != [] && s.output.queue != []
    ensures var t := ApplyWorker(s, Fetch);
            && t.output.queue == s.output.queue[1..] && t.input == s.input.(queue := s.input.queue[1..])
            && t.worker == Holding(s.input.queue[0], s.output.queue[0], s.log.head)
  {
    assert Frame(s.input.queue[0]) && s.output.queue[0].seqNum.Some?;
    hide InputInv, OutputInv;
  }

  lemma ProducerQueueElse(s: State, a: Action)
    requires Allowed(s, a) && !Empties(Step(s, a)) && !Swaps(Step(s, a)) && !a.Flush?
    requires !(a.Fetch? && s.worker.Fetching? && s.input.queue != [] && s.output.queue != [])
    ensures Apply(s, a).output.queue == s.output.queue + Supplies(Step(s, a))
  {
    if IsLife(a) {
      hide ApplyInput, ApplyOutput, ApplyWorker;
    } else if IsInput(a) {
      hide ApplyLife, ApplyOutput, ApplyWorker, PopCount, Add, AttachedToRelease, RequestedKey;
    } else if IsOutput(a) {
      hide ApplyLife, ApplyInput, ApplyWorker, Evict;
    } else {
      hide ApplyLife, ApplyInput, ApplyOutput;
    }
  }
}
