/** Runs of the frame pipeline that end where a promise would fail. */
module PipelineRuns {
  import opened Basics
  import opened Buffers
  import opened ProducerCache
  import opened PipelineSpec
  import opened PipelineInvariant
  import opened PipelineTheorems

  const OPENED := Life(true, true, true, IDLE, true, true, true, false, Alive, [], 0)

  const BYPASSING := Life(true, true, false, RUNNING, true, true, true, true, Alive, [ReportRunning], 0)

  function Numbered(id: nat): Info {
    Info(Some(id), false, 0, false, 0)
  }

  /** One more action at the end of a run. */
  lemma Extend(actions: seq<Action>, a: Action) returns (longer: seq<Action>, s: State)
    requires Legal(Initial, actions) && Allowed(Run(Initial, actions), a)
    ensures longer == actions + [a] && Legal(Initial, longer) && Run(Initial, longer) == s
    ensures s == Apply(Run(Initial, actions), a)
  {
    RunMore(Initial, actions, a);
    longer, s := actions + [a], Apply(Run(Initial, actions), a);
  }

  /** Both surfaces and the callback are there, and the pipeline runs in bypass mode. */
  lemma BypassingRun() returns (actions: seq<Action>)
    ensures Legal(Initial, actions) && Run(Initial, actions) == Initial.(life := BYPASSING)
  {
    hide Run, Legal;
    var s;
    actions, s := OpenedRun();
    actions, s := Extend(actions, SetOutput(Accepted, [], []));
    assert s == Initial.(life := OPENED.(producer := true)) by {
      assert |Initial.output.cache| == 0;
    }
    actions, s := Extend(actions, Start);
    assert s.life == BYPASSING.(enabled := true) by {
      assert [] + [ReportRunning] == [ReportRunning];
    }
    actions, s := Extend(actions, Disable);
  }

  lemma OpenedRun() returns (actions: seq<Action>, s: State)
    ensures Legal(Initial, actions) && Run(Initial, actions) == s == Initial.(life := OPENED)
  {
    assert Run(Initial, []) == Initial;
    hide Run, Legal;
    actions, s := Extend([], Initialize);
    actions, s := Extend(actions, RegisterCallback);
    actions, s := Extend(actions, OpenInput(true, true));
  }

  /** An input buffer arrives and the output surface grants one for it. */
  lemma FrameRun(before: seq<Action>, id: nat, granted: nat) returns (actions: seq<Action>)
    requires Legal(Initial, before)
    requires var s := Run(Initial, before);
             && s.life == BYPASSING && id !in s.log.held && granted !in s.input.attachIds
             && granted !in s.output.cache && |s.output.cache| < BUFFER_QUEUE_SIZE
    ensures Legal(Initial, actions)
    ensures var s, t := Run(Initial, before), Run(Initial, actions);
            && t.life == s.life && t.worker == s.worker
            && t.input == s.input.(queue := s.input.queue + [Numbered(id)], ready := true)
            && t.output == s.output.(queue := s.output.queue + [Numbered(granted)],
                                     cache := s.output.cache[granted := Numbered(granted)])
            && t.log.acquired == s.log.acquired + multiset{id} && t.log.released == s.log.released
            && t.log.held == s.log.held + {id} && t.log.dropped == s.log.dropped
  {
    hide Run, Legal;
    var s, t := Run(Initial, before), Run(Initial, before);
    actions, t := Extend(before, Acquire(id, 0, true));
    actions, t := Extend(actions, Prepare(Numbered(granted), [], {}));
    var u := AcquireLocked(s, id, 0, true);
    var v := u.(output := u.output.(queue := u.output.queue + [Numbered(granted)],
                                    cache := u.output.cache[granted := Numbered(granted)]));
    NothingReleased(v, {});
    assert t == v;
  }

  /** The worker, in its loop, passes the first frame on and announces it. */
  lemma BypassedRun(before: seq<Action>, id: nat) returns (actions: seq<Action>)
    requires Legal(Initial, before)
    requires var s := Run(Initial, before);
             && s.life == BYPASSING && s.worker == AtTest
             && s.input.queue != [] && s.input.queue[0] == Numbered(id)
             && s.output.queue != [] && s.output.queue[0].seqNum.Some?
    ensures Legal(Initial, actions)
    ensures var s, t := Run(Initial, before), Run(Initial, actions);
            && t.life == s.life && t.worker == s.worker
            && t.input == s.input.(queue := s.input.queue[1..], attachQueue := s.input.attachQueue + [Numbered(id)],
                                   attachIds := s.input.attachIds + {id})
            && t.output == s.output.(queue := s.output.queue[1..], render := s.output.render[id := Numbered(id)],
                                     cache := t.output.cache)
  {
    hide Run, Legal;
    var t;
    actions, t := SwappedRun(before, id);
    actions, t := Extend(actions, PublishBypass([]));
    actions, t := Extend(actions, Announce);
  }

  /** The output surface gives up the buffer it granted and takes the input buffer in its place. */
  lemma SwappedRun(before: seq<Action>, id: nat) returns (actions: seq<Action>, t: State)
    requires Legal(Initial, before)
    requires var s := Run(Initial, before);
             && s.life == BYPASSING && s.worker == AtTest
             && s.input.queue != [] && s.input.queue[0] == Numbered(id)
             && s.output.queue != [] && s.output.queue[0].seqNum.Some?
    ensures Legal(Initial, actions) && Run(Initial, actions) == t
    ensures var s := Run(Initial, before);
            t == s.(worker := Bypassed(Numbered(id), s.output.queue[0], s.log.head, true, true),
                    input := s.input.(queue := s.input.queue[1..]), output := s.output.(queue := s.output.queue[1..]),
                    log := s.log.(head := s.log.head + 1))
  {
    hide Run, Legal;
    actions, t := HandedRun(before, id);
    actions, t := Extend(actions, BypassSwap(true, true));
  }

  /** The worker has the first frame in its hand and is about to bypass it. */
  lemma HandedRun(before: seq<Action>, id: nat) returns (actions: seq<Action>, t: State)
    requires Legal(Initial, before)
    requires var s := Run(Initial, before);
             && s.life == BYPASSING && s.worker == AtTest
             && s.input.queue != [] && s.input.queue[0] == Numbered(id)
             && s.output.queue != [] && s.output.queue[0].seqNum.Some?
    ensures Legal(Initial, actions) && Run(Initial, actions) == t
    ensures var s := Run(Initial, before);
            t == s.(worker := Bypassing(Numbered(id), s.output.queue[0], s.log.head),
                    input := s.input.(queue := s.input.queue[1..]), output := s.output.(queue := s.output.queue[1..]),
                    log := s.log.(head := s.log.head + 1))
  {
    hide Run, Legal;
    actions, t := Extend(before, Test);
    actions, t := Extend(actions, Fetch);
    actions, t := Extend(actions, Decide);
  }

  /** The user has an announced buffer rendered. */
  lemma RenderedRun(before: seq<Action>, id: nat) returns (actions: seq<Action>)
    requires Legal(Initial, before)
    requires var s := Run(Initial, before);
             id in s.output.render && s.output.render[id] == Numbered(id)
    ensures Legal(Initial, actions)
    ensures var s, t := Run(Initial, before), Run(Initial, actions);
            && t.life == s.life && t.worker == s.worker && t.input == s.input
            && t.output == s.output.(render := s.output.render - {id},
                                     flushQueue := s.output.flushQueue + [Numbered(id)], cache := t.output.cache)
  {
    hide Run, Legal;
    var s, t := Run(Initial, before), Run(Initial, before);
    actions, t := Extend(before, RenderTake(id));
    actions, t := Extend(actions, RenderFlushed(Numbered(id), 0));
    assert s.output.taken + multiset{Numbered(id)} - multiset{Numbered(id)} == s.output.taken;
  }

  /** Two bypassed frames, the second rendered before the first, then processing is enabled again. */
  lemma AttachedRun() returns (actions: seq<Action>, s: State)
    ensures Legal(Initial, actions) && Run(Initial, actions) == s
    ensures s.life == BYPASSING.(enabled := true)
    ensures s.input.attachQueue == [Numbered(1), Numbered(3)]
    ensures s.output.flushQueue == [Numbered(3), Numbered(1)]
  {
    hide Run, Legal, Apply, Allowed;
    actions, s := TwoBypassedRun();
    actions := RenderedRun(actions, 3);
    actions := RenderedRun(actions, 1);
    actions, s := EnabledRun(actions);
  }

  lemma TwoBypassedRun() returns (actions: seq<Action>, s: State)
    ensures Legal(Initial, actions) && Run(Initial, actions) == s
    ensures s.life == BYPASSING && s.input.attachQueue == [Numbered(1), Numbered(3)]
    ensures s.output.flushQueue == []
    ensures s.output.render == map[1 := Numbered(1), 3 := Numbered(3)]
  {
    hide Run, Legal, Apply, Allowed;
    actions := BypassingRun();
    actions := FrameRun(actions, 1, 2);
    actions := FrameRun(actions, 3, 4);
    actions, s := EnteredRun(actions);
    assert s.input.queue == [Numbered(1), Numbered(3)] && s.output.queue == [Numbered(2), Numbered(4)];
    actions := BypassedRun(actions, 1);
    actions := BypassedRun(actions, 3);
    s := Run(Initial, actions);
  }

  lemma EnteredRun(before: seq<Action>) returns (actions: seq<Action>, s: State)
    requires Legal(Initial, before) && Run(Initial, before).life == BYPASSING && Run(Initial, before).worker == Parked
    ensures Legal(Initial, actions) && Run(Initial, actions) == s == Run(Initial, before).(worker := AtTest)
  {
    hide Run, Legal;
    actions, s := Extend(before, Enter);
  }

  lemma EnabledRun(before: seq<Action>) returns (actions: seq<Action>, s: State)
    requires Legal(Initial, before) && Run(Initial, before).life == BYPASSING
    ensures Legal(Initial, actions) && Run(Initial, actions) == s
    ensures s == Run(Initial, before).(life := BYPASSING.(enabled := true))
  {
    hide Run, Legal;
    actions, s := Extend(before, Enable(false));
  }

  /** The surface returns buffer 3; the flush queue is popped by the number of input buffer 1, and an entry that
      should stay is lost. */
  lemma ReturnLosesFlushed() returns (actions: seq<Action>, r: Info)
    ensures Legal(Initial, actions) && Allowed(Run(Initial, actions), Released(r, [], {}))
    ensures var s := Run(Initial, actions);
            var q := s.output.flushQueue;
            && r.seqNum.Some? && RequestedKey(s, r) != r.seqNum.value
            && q[PopCount(q, r.seqNum.value)..] == [Numbered(1)]
            && Apply(s, Released(r, [], {})).output.flushQueue == []
  {
    hide Run, Legal;
    var s;
    actions, s := AttachedRun();
    r := Numbered(3);
    ReturnedThird(s);
    hide BufferReleased, RequestedKey;
  }

  lemma ReturnedThird(s: State)
    requires s.life == BYPASSING.(enabled := true)
    requires s.input.attachQueue == [Numbered(1), Numbered(3)] && s.output.flushQueue == [Numbered(3), Numbered(1)]
    ensures RequestedKey(s, Numbered(3)) == 1
            && s.output.flushQueue[PopCount(s.output.flushQueue, 3)..] == [Numbered(1)]
    ensures BufferReleased(s, Numbered(3), [], {}).output.flushQueue == []
  {
    var q := s.output.flushQueue;
    assert q[0].seqNum == Some(3) && q[1..] == [Numbered(1)];
    assert PopCount(q, 3) == 1 && PopCount(q, 1) == 2;
  }

  /** A frame in the worker's hand, about to be bypassed. */
  lemma HandRun() returns (actions: seq<Action>, s: State)
    ensures Legal(Initial, actions) && Run(Initial, actions) == s
    ensures s.life == BYPASSING && s.worker.Bypassing? && s.worker.src == Numbered(1)
    ensures s.input.queue == [] && s.input.attachQueue == [] && s.input.draining == []
    ensures s.log.acquired == multiset{1} && s.log.released == multiset{} && s.log.dropped == multiset{}
  {
    hide Run, Legal, Apply, Allowed;
    actions := BypassingRun();
    actions := FrameRun(actions, 1, 2);
    actions, s := EnteredRun(actions);
    assert s.input.queue == [Numbered(1)] && s.output.queue == [Numbered(2)];
    actions, s := HandedRun(actions, 1);
  }

  /** Deinitialize begins, the worker gives up the frame and leaves its loop. */
  lemma DroppedRun() returns (actions: seq<Action>, s: State)
    ensures Legal(Initial, actions) && Run(Initial, actions) == s
    ensures s.life.leaving == Joining && s.worker == Parked
    ensures s.input.queue == [] && s.input.attachQueue == [] && s.input.draining == []
    ensures s.log.acquired == multiset{1} && s.log.released == multiset{} && s.log.dropped == multiset{1}
  {
    hide Run, Legal;
    actions, s := HandRun();
    actions, s := Extend(actions, BeginDeinit);
    actions, s := Extend(actions, BypassDied);
    actions, s := Extend(actions, Test);
  }

  /** Deinitialize between the worker's choice to bypass a frame and the bypass itself: when it returns, the
      frame's buffer is neither released nor anywhere in the pipeline. */
  lemma DeinitializeDropsFrame() returns (actions: seq<Action>)
    ensures Legal(Initial, actions + [EndDeinit]) && !NeverDrops(Initial, actions + [EndDeinit])
    ensures var s := Run(Initial, actions + [EndDeinit]);
            s.log.acquired == multiset{1} && s.log.released == multiset{} && s.log.dropped == multiset{1}
  {
    hide Run, Legal, NeverDrops;
    var s;
    actions, s := DroppedRun();
    actions, s := Extend(actions, ClearOnDeinit);
    assert s.input.draining == [];
    var _, t := Extend(actions, EndDeinit);
    DeinitializeReleasesAllIff(actions);
  }
}
