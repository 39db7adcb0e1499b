/** Runs of the older pipelines that end where a promise would fail. */
module PoolRuns {
  import opened Basics
  import opened PoolSpec
  import opened PoolTheorems

  lemma Extend(start: State, actions: seq<Action>, a: Action) returns (longer: seq<Action>, s: State)
    requires Legal(start, actions) && Allowed(Run(start, actions), a)
    ensures Legal(start, longer) && Run(start, longer) == s == Apply(Run(start, actions), a)
  {
    RunSnoc(start, actions, a);
    longer, s := actions + [a], Apply(Run(start, actions), a);
  }

  lemma ConfiguringRun(start: State) returns (actions: seq<Action>, s: State)
    requires start == Initial(ColorSpaceConverter)
    ensures Legal(start, actions) && Run(start, actions) == s
    ensures s == start.(life := Life(CONFIGURING, false, true, true, true, true, false))
  {
    actions := [];
    assert Run(start, actions) == start;
    hide Run, Legal;
    actions, s := Extend(start, actions, Init(true));
    assert s == start.(life := Life(INITIALIZED, false, true, false, false, false, false));
    actions, s := Extend(start, actions, SetCallback(false));
    assert s == start.(life := Life(CONFIGURING, false, true, true, false, false, false));
    actions, s := Extend(start, actions, CreateInput(true, true));
    actions, s := Extend(start, actions, SetOutput(Attached));
  }

  /** The converter up and running. */
  lemma StartedRun(start: State) returns (actions: seq<Action>, s: State)
    requires start == Initial(ColorSpaceConverter)
    ensures Legal(start, actions) && Run(start, actions) == s
    ensures s == start.(life := Life(RUNNING, false, true, true, true, true, true))
  {
    hide Run, Legal;
    actions, s := ConfiguringRun(start);
    actions, s := Extend(start, actions, Configure(Accepted));
    actions, s := Extend(start, actions, Prepare);
    assert s == start.(life := Life(CONFIGURED, false, true, true, true, true, true));
    actions, s := Extend(start, actions, Start);
  }

  lemma FillSeven(pool: Pool) returns (grants: seq<Option<nat>>)
    requires pool.free == [] && pool.registry == {}
    ensures |grants| == BUFFER_COUNT && Distinct(grants)
    ensures Fill(pool, grants) == pool.(free := [OutBuffer(7, false, 0)], registry := {7})
  {
    var one: seq<Option<nat>> := [Some(7)];
    assert one[..0] == [] && Fill(pool, []) == pool;
    var filled := Fill(pool, one);
    assert filled == pool.(free := [OutBuffer(7, false, 0)], registry := {7});
    grants := one;
    while |grants| < BUFFER_COUNT
      invariant 1 <= |grants| <= BUFFER_COUNT && Distinct(grants) && Fill(pool, grants) == filled
    {
      assert (grants + [None])[..|grants|] == grants;
      grants := grants + [None];
    }
  }

  /** One frame and the end-of-stream marker are queued, and the pool has one buffer. */
  lemma QueuedRun(start: State) returns (actions: seq<Action>, s: State)
    requires start == Initial(ColorSpaceConverter)
    ensures Legal(start, actions) && Run(start, actions) == s
    ensures s.kind == ColorSpaceConverter && s.life == Life(EOS, true, true, true, true, true, true)
    ensures s.queue == [InBuffer(Some(1), false, 0), InBuffer(None, true, 0)] && s.worker == Idle
            && s.log.announced == []
    ensures s.pool == Pool([OutBuffer(7, false, 0)], map[], map[], map[], {7}, true, false)
  {
    hide Run, Legal;
    actions, s := FilledRun(start);
    actions, s := Extend(start, actions, NotifyEos);
  }

  /** One frame is queued, and the pool has one buffer. */
  lemma FilledRun(start: State) returns (actions: seq<Action>, s: State)
    requires start == Initial(ColorSpaceConverter)
    ensures Legal(start, actions) && Run(start, actions) == s
    ensures s.kind == ColorSpaceConverter && s.life == Life(RUNNING, false, true, true, true, true, true)
    ensures s.queue == [InBuffer(Some(1), false, 0)] && s.worker == Idle && s.log.announced == []
    ensures s.pool == Pool([OutBuffer(7, false, 0)], map[], map[], map[], {7}, true, false)
  {
    hide Run, Legal;
    actions, s := StartedRun(start);
    actions, s := Extend(start, actions, Acquire(1, 0));
    assert s.pool == Pool([], map[], map[], map[], {}, true, true);
    var grants := FillSeven(s.pool);
    hide Fill;
    actions, s := Extend(start, actions, FillPool(grants));
  }

  /** The frame fails and its buffer is free again. */
  lemma FailedRun(start: State) returns (actions: seq<Action>, s: State)
    requires start == Initial(ColorSpaceConverter)
    ensures Legal(start, actions) && Run(start, actions) == s
    ensures s.kind == ColorSpaceConverter && s.life == Life(EOS, true, true, true, true, true, true)
    ensures s.queue == [InBuffer(None, true, 0)] && s.worker == Idle
    ensures s.pool == Pool([OutBuffer(7, false, 0)], map[], map[], map[], {7}, true, false)
  {
    hide Run, Legal;
    actions, s := QueuedRun(start);
    actions, s := Extend(start, actions, Fetch);
    assert s.worker == Busy(InBuffer(Some(1), false, 0), OutBuffer(7, false, 0))
        && s.queue == [InBuffer(None, true, 0)];
    assert s.pool.free == [];
    actions, s := Extend(start, actions, Finish(false));
    assert s.pool.free == [OutBuffer(7, false, 0)];
  }

  /** The marker takes the buffer, and the user is told. */
  lemma MarkedRun(start: State) returns (actions: seq<Action>, s: State)
    requires start == Initial(ColorSpaceConverter)
    ensures Legal(start, actions) && Run(start, actions) == s
    ensures s.kind == ColorSpaceConverter && s.life == Life(EOS, true, true, true, true, true, true)
    ensures s.queue == [] && s.worker == Idle
    ensures s.pool == Pool([], map[7 := OutBuffer(7, true, 0)], map[], map[], {7}, true, false)
  {
    hide Run, Legal;
    actions, s := FailedRun(start);
    actions, s := Extend(start, actions, Fetch);
    assert s.worker == Busy(InBuffer(None, true, 0), OutBuffer(7, false, 0)) && s.queue == [] && s.pool.free == [];
    actions, s := Extend(start, actions, Finish(true));
  }

  /** A flush reclaims the flagged buffer, and the converter goes on. */
  lemma ReclaimedRun(start: State) returns (actions: seq<Action>, s: State)
    requires start == Initial(ColorSpaceConverter)
    ensures Legal(start, actions) && Run(start, actions) == s
    ensures s.kind == ColorSpaceConverter && s.life == Life(EOS, true, true, true, true, true, true)
    ensures s.queue == [] && s.worker == Idle
    ensures s.pool == Pool([OutBuffer(7, true, 0)], map[], map[], map[], {7}, true, false)
  {
    hide Run, Legal;
    actions, s := MarkedRun(start);
    assert 7 in s.pool.user.Keys;
    assert Least(s.pool.user.Keys) == 7 && s.pool.user - {7} == map[];
    assert Sorted(s.pool.user) == [OutBuffer(7, true, 0)] + Sorted(map[]);
    actions, s := Extend(start, actions, Flush({}));
    actions, s := Extend(start, actions, Start);
  }

  /** The next frame is about to be written to the flagged wrapper. */
  lemma ReusedRun(start: State) returns (actions: seq<Action>, s: State)
    requires start == Initial(ColorSpaceConverter)
    ensures Legal(start, actions) && Run(start, actions) == s
    ensures s.life.cb && s.worker == Busy(InBuffer(Some(2), false, 0), OutBuffer(7, true, 0))
  {
    hide Run, Legal;
    actions, s := ReclaimedRun(start);
    actions, s := Extend(start, actions, Acquire(2, 0));
    assert s.queue == [InBuffer(Some(2), false, 0)] && s.pool.free == [OutBuffer(7, true, 0)];
    actions, s := Extend(start, actions, Fetch);
  }

  /** A flush that reclaims the buffer announced for the end-of-stream marker makes a later frame, written
      to the same wrapper, appear as end of stream. */
  lemma FlaggedFlushMisleads() returns (actions: seq<Action>)
    ensures Legal(Initial(ColorSpaceConverter), actions)
    ensures Announcement(7, true, false) in Run(Initial(ColorSpaceConverter), actions).log.announced
  {
    var start := Initial(ColorSpaceConverter);
    var before: State;
    var s: State;
    actions, before := ReusedRun(start);
    actions, s := Extend(start, actions, Finish(true));
    FinishAnnounces(before);
  }

  /** A processed frame is announced with the flag of the wrapper it was written to. */
  lemma FinishAnnounces(s: State)
    requires s.life.cb && s.worker.Busy? && !s.worker.src.eos
    ensures Announcement(s.worker.dst.id, s.worker.dst.eos, false) in FinishFrame(s, true).log.announced
    ensures Apply(s, Finish(true)) == FinishFrame(s, true)
  {
  }

  /** The marker stands in front of a frame: frames still arrive after NotifyEos. */
  lemma MarkerFirstRun(start: State) returns (actions: seq<Action>, s: State)
    requires start == Initial(ColorSpaceConverter)
    ensures Legal(start, actions) && Run(start, actions) == s
    ensures s.queue == [InBuffer(None, true, 0), InBuffer(Some(1), false, 0)] && s.life.phase == EOS
    ensures s.log.acquired == multiset{1} && s.log.released == multiset{} && s.log.lostInputs == multiset{}
  {
    hide Run, Legal;
    actions, s := StartedRun(start);
    actions, s := Extend(start, actions, NotifyEos);
    assert s.queue == [InBuffer(None, true, 0)];
    actions, s := Extend(start, actions, Acquire(1, 0));
  }

  lemma MarkerStopsFlush(s: State)
    requires s.queue == [InBuffer(None, true, 0), InBuffer(Some(1), false, 0)]
    ensures var t := FlushLocked(s, {});
            && t.log == s.log.(lostInputs := s.log.lostInputs + multiset{1}) && t.queue == [] && t.life == s.life
  {
    var q := s.queue;
    assert Flushable(q, {}) == 0 && q[..0] == [] && q[0..] == q;
    assert q[..1] == [q[0]] && [q[0]][..0] == [];
    assert Memories([q[0]]) == multiset{} && Memories(q) == Memories(q[..1]) + multiset{1};
    assert s.log.released + multiset{} == s.log.released;
  }

  /** A flush then neither releases that frame nor keeps it, and the state stays EOS. */
  lemma FlushLosesFrame() returns (actions: seq<Action>)
    ensures Legal(Initial(ColorSpaceConverter), actions)
    ensures var s := Run(Initial(ColorSpaceConverter), actions);
            && s.log.acquired == multiset{1} && s.log.released == multiset{} && s.log.lostInputs == multiset{1}
            && s.queue == [] && s.life.phase == EOS
  {
    hide Run, Legal;
    var s: State;
    actions, s := MarkerFirstRun(Initial(ColorSpaceConverter));
    MarkerStopsFlush(s);
    hide FlushLocked;
    actions, s := Extend(Initial(ColorSpaceConverter), actions, Flush({}));
  }

  /** Release while a frame is queued: a flush would now give it back through a surface that is gone. */
  lemma FlushMeetsNoSurface(kind: Kind) returns (actions: seq<Action>)
    ensures Legal(Initial(kind), actions)
    ensures var s := Run(Initial(kind), actions);
            !s.life.inputSet && s.queue != [] && s.queue[0].memory.Some?
  {
    var s;
    actions, s := InputRunning(Initial(kind), kind);
    hide Run, Legal;
    actions, s := Extend(Initial(kind), actions, Acquire(1, 0));
    assert s.queue == [InBuffer(Some(1), false, 0)];
    actions, s := Extend(Initial(kind), actions, Action.Release);
  }

  lemma InputRunning(start: State, kind: Kind) returns (actions: seq<Action>, s: State)
    requires start == Initial(kind)
    ensures Legal(start, actions) && Run(start, actions) == s
    ensures s == start.(life := Life(CONFIGURING, false, true, false, true, false, false))
  {
    actions := [];
    assert Run(start, actions) == start;
    hide Run, Legal;
    actions, s := Extend(start, actions, Init(true));
    assert s == start.(life := Life(INITIALIZED, false, true, false, false, false, false));
    actions, s := Extend(start, actions, CreateInput(true, true));
  }
}
