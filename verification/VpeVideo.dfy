/**
 * The frame pipeline as the object it is: fields that API calls, surface callbacks and the
 * worker update in place. A valid object is one whose fields are where a legal run of actions
 * leads; every method keeps that and says by which actions it goes on. So what holds of all
 * runs holds of every object at all times, as ObjectKeepsPromises spells out.
 */
module VpeVideo {
  import opened Basics
  import opened Buffers
  import opened ProducerCache
  import opened PipelineSpec
  import opened PipelineInvariant
  import opened PipelineTheorems
  import opened PipelineHistory

  datatype ErrCode = OK | INVALID_VAL | INVALID_PARAM | INVALID_OPERATION | UNKNOWN

  predicate NoRepeats(order: seq<nat>) {
    forall i, j | 0 <= i < j < |order| :: order[i] != order[j]
  }

  lemma AppendNew(order: seq<nat>, k: nat)
    requires NoRepeats(order) && k !in order
    ensures NoRepeats(order + [k])
  {
  }

  /** One pass over a hash map, in whatever order it happens to have. */
  method IterationOrder(m: map<nat, Info>) returns (order: seq<nat>)
    ensures IsOrder(order, m)
  {
    order := [];
    var todo := m.Keys;
    while todo != {}
      invariant todo <= m.Keys
      invariant forall k :: k in order <==> k in m.Keys - todo
      invariant NoRepeats(order)
    {
      var k :| k in todo;
      AppendNew(order, k);
      order := order + [k];
      todo := todo - {k};
    }
  }

  /** The insertion loop of the eviction: the list grows while it is being walked. */
  method InsertFlushed(list: seq<Info>, info: Info) returns (grown: seq<Info>)
    ensures grown == InsertBeforeLater(list, info) + [info]
  {
    grown := list;
    var it := 0;
    ghost var done := 0;
    while it < |grown|
      invariant done <= |list|
      invariant it == |InsertBeforeLater(list[..done], info)|
      invariant grown == InsertBeforeLater(list[..done], info) + list[done..]
      decreases |grown| - it
    {
      ghost var front := InsertBeforeLater(list[..done], info);
      InsertOneMore(list, done, info);
      Regroup(front, list, done, info);
      if info.flushedTime < grown[it].flushedTime {
        grown := grown[..it] + [info] + grown[it..];
        it := it + 1;
      }
      it := it + 1;
      done := done + 1;
    }
    assert list[..done] == list;
    grown := grown + [info];
  }

  lemma Regroup(front: seq<Info>, list: seq<Info>, done: nat, info: Info)
    requires done < |list|
    ensures var grown := front + list[done..];
            && grown[|front|] == list[done]
            && grown == front + [list[done]] + list[done + 1..]
            && grown[..|front|] + [info] + grown[|front|..] == front + [info, list[done]] + list[done + 1..]
  {
    var grown := front + list[done..];
    assert grown[..|front|] == front;
    assert grown[|front|..] == list[done..] == [list[done]] + list[done + 1..];
  }

  lemma InsertOneMore(list: seq<Info>, done: nat, info: Info)
    requires done < |list|
    ensures InsertBeforeLater(list[..done + 1], info)
            == InsertBeforeLater(list[..done], info)
               + (if info.flushedTime < list[done].flushedTime then [info, list[done]] else [list[done]])
  {
    assert list[..done + 1][..done] == list[..done];
  }

  lemma ReleaseTwice(log: Log, a: multiset<nat>, b: multiset<nat>, refused: set<nat>)
    ensures Release(Release(log, a, refused), b, refused) == Release(log, a + b, refused)
  {
  }

  lemma PopCountStep(q: seq<Info>, k: nat, index: nat)
    requires k < |q| && q[k].seqNum != Some(index)
    ensures PopCount(q[k..], index) == 1 + PopCount(q[k + 1..], index)
  {
    assert q[k..][1..] == q[k + 1..];
  }

  /** A flush has moved every image of the render map, each once, behind the producer queue, or, in bypass mode,
      left the output side nothing but what callers have in hand. */
  ghost predicate Flushed(before: Output, after: Output, processing: bool) {
    if processing then
      && before.queue <= after.queue && AllOf(after.queue[|before.queue|..], before.render)
      && after == before.(queue := after.queue, render := map[])
    else after == Output([], map[], [], map[], before.taken)
  }

  /** Where a buffer goes that a caller had in hand: unrendered, behind the producer queue; accepted by the surface,
      behind the flush queue, and its cache entry carries the mark and the time; otherwise nowhere. */
  predicate Rendered(before: Output, after: Output, info: Info, render: bool, accepted: bool, now: int) {
    && after.render == before.render && after.taken == before.taken - multiset{info}
    && after.queue == before.queue + (if render then [] else [info])
    && after.flushQueue == before.flushQueue + (if render && accepted then [info] else [])
    && after.cache.Keys == before.cache.Keys
    && forall k | k in before.cache ::
         after.cache[k] == if render && accepted && info.seqNum == Some(k)
                           then before.cache[k].(isFlushed := true, flushedTime := now)
                           else before.cache[k]
  }

  /** The input buffers that are queued, attached or still to be drained. */
  function Waiting(input: Input): multiset<nat> {
    Ids(input.draining + input.queue + input.attachQueue)
  }

  lemma NoEntries(q: seq<Info>)
    ensures Ids(q[..0]) == multiset{} && IdSet(q[..0]) == {}
  {
  }

  lemma FirstEntry(q: seq<Info>)
    requires q != []
    ensures q[..1] == [q[0]] && Ids(q[..1]) == Id(q[0])
  {
    IdsOne(q[0]);
    assert q[..1] == [q[0]];
  }

  function Drains(n: nat, refused: set<nat>): seq<Action> {
    seq(n, i => Drain(refused))
  }

  /** A pending stop has been answered: idle, and whoever listens has been told. */
  function Answered(life: Life): Life {
    life.(phase := IDLE, reports := if life.cb then life.reports + [ReportStopped] else life.reports)
  }

  /** The fields that one lock guards are kept together in one record, as the header groups them. */
  class VpeVideoImpl {
    var life: Life
    var input: Input
    var output: Output
    /** The worker's place in ProcessBuffers and its local variables. */
    var worker: Worker
    /** History that the program itself does not keep. */
    var log: Log
    ghost var history: seq<Action>

    ghost function View(): State
      reads this
    {
      State(life, input, output, worker, log)
    }

    ghost predicate Valid()
      reads this
    {
      Legal(Initial, history) && Run(Initial, history) == View()
    }

    /** Since its history was `before`, the object has gone through exactly these actions. */
    ghost predicate Did(before: seq<Action>, acts: seq<Action>)
      reads this
    {
      Valid() && history == before + acts
    }

    constructor ()
      ensures Did([], []) && View() == Initial
    {
      life := Initial.life;
      input := Initial.input;
      output := Initial.output;
      worker := Parked;
      log := Initial.log;
      history := [];
    }

    /** The fields have moved from `s` by action `a`. */
    ghost method Record(s: State, a: Action)
      requires Legal(Initial, history) && Run(Initial, history) == s && Allowed(s, a)
      requires View() == Apply(s, a)
      modifies this`history
      ensures Did(old(history), [a]) && View() == old(View())
    {
      RunMore(Initial, history, a);
      history := history + [a];
    }

    lemma Holds()
      requires Valid()
      ensures Inv(View())
    {
      InitialInv();
      InvRun(Initial, history);
    }

    // ---------- Life cycle ----------

    /** `hook` is what OnInitialize answers; it is not looked at. */
    method Initialize(hook: ErrCode) returns (err: ErrCode)
      requires Valid() && life.leaving == Alive
      modifies this
      ensures Did(old(history), if old(life.initialized) then [] else [Action.Initialize])
      ensures View() == if old(life.initialized) then old(View())
                        else old(View()).(life := old(life).(initialized := true, running := true))
      ensures err == if old(life.initialized) then OK else hook
    {
      hide Legal, Run;
      if life.initialized {
        return OK;
      }
      ghost var s := View();
      life := life.(running := true);
      life := life.(initialized := true);
      Record(s, Action.Initialize);
      err := hook;
    }

    method RegisterCallback(isNull: bool) returns (err: ErrCode)
      requires Valid()
      modifies this
      ensures Did(old(history), if err == OK then [Action.RegisterCallback] else [])
      ensures View() == if err == OK then old(View()).(life := old(life).(cb := true)) else old(View())
      ensures err == if isNull then INVALID_VAL else if old(life.phase) == IDLE then OK else INVALID_OPERATION
    {
      hide Legal, Run;
      if isNull {
        return INVALID_VAL;
      }
      if life.phase != IDLE {
        return INVALID_OPERATION;
      }
      ghost var s := View();
      life := life.(cb := true);
      Record(s, Action.RegisterCallback);
      err := OK;
    }

    method GetInputSurface(created: bool, registered: bool) returns (ok: bool)
      requires Valid()
      modifies this
      ensures Did(old(history), if old(life.phase == IDLE && !life.consumer) then [OpenInput(created, registered)]
              else [])
      ensures ok <==> old(life.phase) == IDLE && !old(life.consumer) && created && registered
      ensures View() == if old(life.phase == IDLE && !life.consumer)
                        then old(View()).(life := old(life).(consumer := created,
                                                             hasConsumer := old(life.hasConsumer) || ok))
                        else old(View())
    {
      hide Legal, Run;
      if life.phase != IDLE || life.consumer {
        return false;
      }
      ghost var s := View();
      life := life.(consumer := created);
      if created && registered {
        life := life.(hasConsumer := true);
      }
      Record(s, OpenInput(created, registered));
      ok := created && registered;
    }

    method Start() returns (err: ErrCode)
      requires Valid()
      modifies this
      ensures Did(old(history), if err == OK then [Action.Start] else [])
      ensures err == if old(life.phase == IDLE && life.initialized && life.consumer && life.producer && life.cb) then OK
                     else INVALID_OPERATION
      ensures View() == if err == OK
                        then old(View()).(life := old(life).(phase := RUNNING,
                                                             reports := old(life.reports) + [ReportRunning]))
                        else old(View())
    {
      hide Legal, Run;
      if life.phase != IDLE || !life.initialized {
        return INVALID_OPERATION;
      }
      if !life.consumer || !life.producer || !life.cb {
        return INVALID_OPERATION;
      }
      ghost var s := View();
      life := life.(phase := RUNNING);
      OnState(ReportRunning);
      Record(s, Action.Start);
      err := OK;
    }

    method OnState(report: Report)
      modifies this`life
      ensures life == old(life).(reports := if old(life.cb) then old(life.reports) + [report] else old(life.reports))
    {
      if life.cb {
        life := life.(reports := life.reports + [report]);
      }
    }

    method Stop() returns (err: ErrCode)
      requires Valid()
      modifies this
      ensures Did(old(history), if err == OK then [Action.Stop] else [])
      ensures err == if old(life.phase) == RUNNING then OK else INVALID_OPERATION
      ensures View() == if err == OK then old(View()).(life := old(life).(phase := STOPPING)) else old(View())
    {
      hide Legal, Run;
      if life.phase != RUNNING {
        return INVALID_OPERATION;
      }
      ghost var s := View();
      life := life.(phase := STOPPING);
      Record(s, Action.Stop);
      err := OK;
    }

    /** The test is made without the lock; Deinitialize can come between it and the region. */
    method CheckStopping() returns (stopped: bool)
      requires Valid()
      modifies this
      ensures Did(old(history), if old(life.running) then [CheckStop] else [])
      ensures stopped <==> !old(life.running) || old(life.phase) == STOPPING
      ensures life == if old(life.running && life.phase == STOPPING) then Answered(old(life)) else old(life)
    {
      if !life.running {
        return true;
      }
      stopped := CheckStoppingRegion();
    }

    /** The locked region of CheckStopping, whatever has happened since the test. */
    method CheckStoppingRegion() returns (stopped: bool)
      requires Valid()
      modifies this
      ensures Did(old(history), [CheckStop])
      ensures stopped <==> old(life.phase) == STOPPING
      ensures life == if stopped then Answered(old(life)) else old(life)
    {
      hide Legal, Run;
      ghost var s := View();
      stopped := CheckStoppingLocked();
      Record(s, CheckStop);
    }

    method CheckStoppingLocked() returns (stopped: bool)
      modifies this`life
      ensures life == StopLocked(old(life))
      ensures stopped <==> old(life.phase) == STOPPING
      ensures life == if stopped then Answered(old(life)) else old(life)
    {
      if life.phase == STOPPING {
        life := life.(phase := IDLE);
        OnState(ReportStopped);
        return true;
      }
      return false;
    }

    /** Deinitialize up to the point where it waits for the worker. */
    method BeginDeinitialize() returns (goesOn: bool)
      requires Valid()
      modifies this
      ensures Did(old(history), if goesOn then [BeginDeinit] else [])
      ensures goesOn == old(life.initialized)
      ensures View() == if !goesOn then old(View())
                        else old(View()).(life := old(life).(running := false, initialized := false, leaving := Joining,
                          deaths := old(life.deaths) + 1,
                          phase := if old(life.phase) == RUNNING then STOPPING else old(life.phase)))
    {
      hide Legal, Run;
      if !life.initialized {
        return false;
      }
      ghost var s := View();
      life := life.(running := false, initialized := false);
      life := life.(leaving := Joining, deaths := life.deaths + 1);
      if life.phase == RUNNING {
        life := life.(phase := STOPPING);
      }
      Record(s, BeginDeinit);
      goesOn := true;
    }

    /** Deinitialize after the worker has been joined: the last report, then the queues. */
    method ClearAfterJoin()
      requires Valid() && life.leaving == Joining && worker == Parked
      modifies this
      ensures Did(old(history), [ClearOnDeinit]) && worker == old(worker)
      ensures life == (if old(life.phase) == STOPPING then Answered(old(life)) else old(life)).(cb := false,
                          leaving := Clearing)
      ensures life.phase == IDLE && InputsTaken(old(input), input) && !input.ready
      ensures output == Output([], map[], [], map[], old(output.taken))
    {
      NotRunning();
      hide Legal, Run;
      ghost var s := View();
      ClearAfterJoinLocked();
      hide ClearLeaving;
      Record(s, ClearOnDeinit);
    }

    lemma NotRunning()
      requires Valid() && life.leaving == Joining
      ensures life.phase != RUNNING
    {
      Holds();
      InvLife(View());
      hide Legal, Run, Inv;
    }

    method ClearAfterJoinLocked()
      modifies this`life, this`input, this`output, this`log
      ensures View() == ClearLeaving(old(View()))
      ensures life == (if old(life.phase) == STOPPING then Answered(old(life)) else old(life)).(cb := false,
                          leaving := Clearing)
      ensures InputsTaken(old(input), input) && !input.ready
      ensures output == Output([], map[], [], map[], old(output.taken))
    {
      var _ := CheckStoppingLocked();
      life := life.(cb := false);
      life := life.(leaving := Clearing);
      ghost var s := View();
      ClearBufferQueues();
      assert View() == ClearQueues(s);
    }

    /** `hook` is what OnDeinitialize answers. */
    method FinishDeinitialize(hook: ErrCode, refused: set<nat>) returns (err: ErrCode, ghost n: nat)
      requires Valid() && life.leaving == Joining && worker == Parked
      modifies this
      ensures Did(old(history), [ClearOnDeinit] + Drains(n, refused) + [EndDeinit])
      ensures input.draining == [] && err == hook
      ensures !life.consumer && !life.producer && !life.cb && life.leaving == Alive && life.phase == IDLE
      ensures input == Input(false, [], [], {}, []) && output == Output([], map[], [], map[], old(output.taken))
    {
      hide Legal, Run;
      ClearAfterJoin();
      n := ClearConsumerLocked(refused);
      ghost var s := View();
      life := life.(consumer := false);
      life := life.(producer := false);
      life := life.(leaving := Alive);
      Record(s, EndDeinit);
      err := hook;
    }

    /** The test is made without the lock; `updated` is what UpdateRequestCfg answers. */
    method Enable(updated: ErrCode, sameConfig: bool, refused: set<nat>) returns (err: ErrCode, ghost n: nat)
      requires Valid()
      modifies this
      ensures Did(old(history), if old(life.enabled) then [] else [Action.Enable(sameConfig)] + Drains(n, refused))
      ensures err == if old(life.enabled) then INVALID_OPERATION else if old(life.producer) then updated else OK
    {
      if life.enabled {
        return INVALID_OPERATION, 0;
      }
      err, n := EnableRegion(updated, sameConfig, refused);
    }

    /** The locked region of Enable, whatever has happened since the test. */
    method EnableRegion(updated: ErrCode, sameConfig: bool, refused: set<nat>) returns (err: ErrCode, ghost n: nat)
      requires Valid()
      modifies this
      ensures Did(old(history), [Action.Enable(sameConfig)] + Drains(n, refused))
      ensures life == old(life).(enabled := true) && worker == old(worker)
      ensures if old(life.producer) && sameConfig then
                input == Input(false, [], [], {}, []) && output == Output([], map[], [], map[], old(output.taken))
              else input == old(input) && output == old(output) && log == old(log)
      ensures err == if old(life.producer) then updated else OK
    {
      hide Legal, Run;
      ghost var s := View();
      n := 0;
      life := life.(enabled := true);
      if life.producer && sameConfig {
        ClearBufferQueues();
        Record(s, Action.Enable(sameConfig));
        n := ClearConsumerLocked(refused);
      } else {
        Record(s, Action.Enable(sameConfig));
      }
      err := if life.producer then updated else OK;
    }

    method Disable() returns (err: ErrCode)
      requires Valid()
      modifies this
      ensures Did(old(history), if old(life.enabled) then [Action.Disable] else [])
      ensures View() == old(View()).(life := old(life).(enabled := false))
      ensures err == if old(life.enabled) then OK else INVALID_OPERATION
    {
      if !life.enabled {
        return INVALID_OPERATION;
      }
      DisableRegion();
      err := OK;
    }

    /** The locked region of Disable, whatever has happened since the test. */
    method DisableRegion()
      requires Valid()
      modifies this
      ensures Did(old(history), [Action.Disable]) && View() == old(View()).(life := old(life).(enabled := false))
    {
      hide Legal, Run;
      ghost var s := View();
      life := life.(enabled := false);
      Record(s, Action.Disable);
    }

    // ---------- Clearing ----------

    method ClearBufferQueues()
      modifies this`input, this`output, this`log
      ensures View() == ClearQueues(old(View()))
      ensures InputsTaken(old(input), input) && !input.ready
      ensures output == Output([], map[], [], map[], old(output.taken))
    {
      input := input.(ready := false);
      SwapOutInputs();
      output := output.(queue := []);
      output := output.(render := map[]);
      output := output.(flushQueue := []);
      output := output.(cache := map[]);
    }

    method SwapOutInputs()
      modifies this`input, this`log
      ensures View() == TakeInputs(old(View()))
      ensures InputsTaken(old(input), input) && input.ready == old(input.ready)
    {
      input := input.(draining := input.draining + input.queue + input.attachQueue);
      input := input.(queue := []);
      input := input.(attachQueue := []);
      input := input.(attachIds := {});
      log := log.(head := |log.pushed|);
    }

    /** Releases everything swapped out; without an input surface it only forgets the queue. */
    method ClearConsumerLocked(refused: set<nat>) returns (ghost n: nat)
      requires Valid()
      modifies this
      ensures Did(old(history), Drains(n, refused)) && input.draining == []
      ensures View() == old(View()).(input := old(View()).input.(draining := []), log := View().log)
      ensures log == old(log).(released := log.released, held := log.held)
      ensures log.released == old(log.released)
                              + (if old(life.consumer) then Ids(old(input.draining)) else multiset{})
    {
      hide Legal, Run;
      n := 0;
      ghost var s0 := View();
      while input.draining != []
        invariant Did(old(history), Drains(n, refused))
        invariant View() == s0.(input := s0.input.(draining := input.draining), log := log)
        invariant log == s0.log.(released := log.released, held := log.held)
        invariant log.released + Ids(input.draining) == s0.log.released + Ids(s0.input.draining) || !life.consumer
        invariant log.released == s0.log.released || life.consumer
        decreases |input.draining|
      {
        ghost var s := View();
        ReleaseFirst(refused);
        hide DrainOne, Ids;
        Record(s, Drain(refused));
        assert Drains(n + 1, refused) == Drains(n, refused) + [Drain(refused)];
        n := n + 1;
      }
      assert Ids([]) == multiset{};
    }

    method ReleaseFirst(refused: set<nat>)
      requires input.draining != []
      modifies this`input, this`log
      ensures View() == DrainOne(old(View()), refused)
      ensures input == old(input).(draining := if life.consumer then old(input.draining)[1..] else [])
      ensures log == old(log).(released := log.released, held := log.held)
      ensures if life.consumer then log.released + Ids(input.draining) == old(log.released) + Ids(old(input.draining))
              else log.released == old(log.released)
    {
      if life.consumer {
        IdsHead(input.draining);
        log := Release(log, Id(input.draining[0]), refused);
        input := input.(draining := input.draining[1..]);
      } else {
        input := input.(draining := []);
      }
    }

    /** While processing, both input queues are given up and what callers could have rendered goes back to the
        producer queue; in bypass mode all queues are emptied. */
    method Flush(refused: set<nat>) returns (err: ErrCode, ghost order: seq<nat>, ghost n: nat)
      requires Valid()
      modifies this
      ensures IsOrder(order, old(output.render))
      ensures Did(old(history), if old(life.running) then [Action.Flush(order)] + Drains(n, refused) else [])
      ensures err == if old(life.running && (life.enabled || life.producer)) then OK else INVALID_OPERATION
      ensures life == old(life) && worker == old(worker)
      ensures err != OK ==> input == old(input) && output == old(output) && log == old(log)
      ensures err == OK ==> && input == Input(old(input.ready && life.enabled), [], [], {}, [])
                            && Flushed(old(output), output, life.enabled)
                            && log.released == old(log.released)
                                               + (if life.consumer then old(Waiting(input)) else multiset{})
    {
      hide Legal, Run;
      n := 0;
      var keys := IterationOrder(output.render);
      order := keys;
      if !life.running {
        return INVALID_OPERATION, keys, 0;
      }
      ghost var s := View();
      if !life.enabled && !life.producer {
        Record(s, Action.Flush(keys));
        return INVALID_OPERATION, keys, 0;
      }
      RealImages();
      hide IsOrder, Keyed;
      FlushQueues(keys);
      hide FlushLocked;
      Record(s, Action.Flush(keys));
      hide Flushed, Allowed, Apply;
      n := ClearConsumerLocked(refused);
      err := OK;
    }

    lemma RealImages()
      requires Valid()
      ensures Keyed(output.render)
    {
      Holds();
      InvOutput(View());
      hide Legal, Run, Inv;
    }

    method FlushQueues(keys: seq<nat>)
      requires life.enabled || life.producer
      requires IsOrder(keys, output.render) && Keyed(output.render)
      modifies this`input, this`output, this`log
      ensures View() == FlushLocked(old(View()), keys)
      ensures InputsTaken(old(input), input) && input.ready == (old(input.ready) && life.enabled)
      ensures log == old(log).(head := |log.pushed|)
      ensures Flushed(old(output), output, life.enabled)
    {
      if life.enabled {
        SwapOutInputs();
        ReclaimRendered(keys);
      } else {
        ClearBufferQueues();
      }
    }

    /** The images that callers could have rendered go back to the producer queue. */
    method ReclaimRendered(keys: seq<nat>)
      requires IsOrder(keys, output.render) && Keyed(output.render)
      modifies this`output
      ensures output == old(output).(queue := old(output.queue) + Values(old(output.render), keys), render := map[])
      ensures Flushed(old(output), output, true)
    {
      for i := 0 to |keys|
        invariant output == old(output).(queue := old(output.queue) + Values(old(output.render), keys[..i]))
      {
        assert keys[..i + 1][..i] == keys[..i];
        assert keys[i] in keys;
        output := output.(queue := output.queue + [output.render[keys[i]]]);
      }
      assert keys[..|keys|] == keys;
      ValuesAreAll(output.render, keys);
      assert output.queue[|old(output.queue)|..] == Values(output.render, keys);
      output := output.(render := map[]);
    }

    // ---------- The producer cache ----------

    method CheckAndUpdateProducerCache() returns (ghost order: seq<nat>)
      modifies this`output
      ensures IsOrder(order, old(output.cache))
      ensures output == old(output).(cache := Evict(old(output.cache), order))
    {
      var keys := IterationOrder(output.cache);
      order := keys;
      if |output.cache| <= BUFFER_QUEUE_SIZE {
        return;
      }
      var toBeDel: seq<Info> := [];
      for i := 0 to |keys|
        invariant toBeDel == Candidates(output.cache, keys[..i])
        invariant output == old(output)
      {
        assert keys[..i + 1][..i] == keys[..i];
        var info := output.cache[keys[i]];
        if info.isFlushed {
          toBeDel := InsertFlushed(toBeDel, info);
        }
      }
      assert keys[..|keys|] == keys;
      hide Candidates, IsOrder;
      EraseUntilSmall(toBeDel);
    }

    method EraseUntilSmall(toBeDel: seq<Info>)
      requires |output.cache| > BUFFER_QUEUE_SIZE
      modifies this`output
      ensures output == old(output).(cache := Trim(old(output.cache), toBeDel))
    {
      var it := 0;
      while it < |toBeDel|
        invariant it <= |toBeDel|
        invariant output == old(output).(cache := output.cache) && |output.cache| > BUFFER_QUEUE_SIZE
        invariant Trim(old(output.cache), toBeDel) == Trim(output.cache, toBeDel[it..])
      {
        assert toBeDel[it..][1..] == toBeDel[it + 1..];
        if toBeDel[it].seqNum.Some? {
          output := output.(cache := output.cache - {toBeDel[it].seqNum.value});
        }
        if |output.cache| <= BUFFER_QUEUE_SIZE {
          return;
        }
        it := it + 1;
      }
    }

    method AddBufferToCache(info: Info) returns (ghost order: seq<nat>)
      modifies this`output
      ensures output == old(output).(cache := Add(old(output.cache), info, order))
      ensures info.seqNum.Some? && info.seqNum.value in old(output.cache) ==>
                var k := info.seqNum.value;
                output.cache == old(output.cache)[k := old(output.cache)[k].(isFlushed := false)]
      ensures info.seqNum.Some? && info.seqNum.value !in old(output.cache) ==>
                output.cache == Evict(old(output.cache)[info.seqNum.value := info], order)
      ensures info.seqNum.Some? && info.seqNum.value !in old(output.cache) ==>
                IsOrder(order, old(output.cache)[info.seqNum.value := info])
    {
      order := [];
      if info.seqNum.None? {
        return;
      }
      var k := info.seqNum.value;
      if k in output.cache {
        output := output.(cache := output.cache[k := output.cache[k].(isFlushed := false)]);
        return;
      }
      output := output.(cache := output.cache[k := info]);
      order := CheckAndUpdateProducerCache();
    }

    // ---------- Requests ----------

    /** A request of buffer `id` has released attach entries: in bypass mode all up to that buffer, and none if it
        is not attached; in processing mode the first one. `key` is the number of the last entry released, or `id`
        itself. */
    ghost predicate PoppedFor(before: Input, logBefore: Log, id: nat, key: nat)
      reads this`life, this`input, this`log
    {
      var q := before.attachQueue;
      var n := |q| - |input.attachQueue|;
      && 0 <= n
      && (life.enabled ==> n == if q == [] then 0 else 1)
      && (!life.enabled ==> n == if id in before.attachIds then PopCount(q, id) else 0)
      && input == before.(attachQueue := q[n..], attachIds := before.attachIds - IdSet(q[..n]))
      && log == logBefore.(released := logBefore.released + Ids(q[..n]), held := log.held)
      && key == if n > 0 && q[n - 1].seqNum.Some? then q[n - 1].seqNum.value else id
    }

    /** Besides, the buffer is the last of the producer queue, and it is in the cache, without a mark. */
    ghost predicate Requested(before: Input, outBefore: Output, logBefore: Log, id: nat, key: nat, order: seq<nat>)
      reads this`life, this`input, this`output, this`log
    {
      var r, cache := Info(Some(id), false, 0, false, 0), outBefore.cache;
      && output == outBefore.(queue := outBefore.queue + [r], cache := output.cache)
      && output.cache == (if id in cache then cache[id := cache[id].(isFlushed := false)]
                          else Evict(cache[id := r], order))
      && PoppedFor(before, logBefore, id, key)
    }

    /** PopBuffer over the flush queue. */
    method PopFlushed(index: nat) returns (found: bool)
      modifies this`output
      ensures found <==> index in IdSet(old(output.flushQueue))
      ensures output == old(output).(flushQueue := old(output.flushQueue)[PopCount(old(output.flushQueue), index)..])
    {
      ghost var q := output.flushQueue;
      ghost var k := 0;
      while output.flushQueue != []
        invariant k <= |q| && output == old(output).(flushQueue := q[k..])
        invariant PopCount(q, index) == k + PopCount(q[k..], index)
        invariant forall j | 0 <= j < k :: q[j].seqNum != Some(index)
        decreases |output.flushQueue|
      {
        var info := output.flushQueue[0];
        output := output.(flushQueue := output.flushQueue[1..]);
        if info.seqNum == Some(index) {
          assert q[k] in q;
          return true;
        }
        PopCountStep(q, k, index);
        k := k + 1;
      }
      return false;
    }

    /** Takes the front of the attach queue, forgets its number and releases it. */
    method PopFirstAttached(refused: set<nat>) returns (first: Option<nat>)
      requires input.attachQueue != []
      modifies this`input, this`log
      ensures View() == ReleaseAttached(old(View()), 1, refused)
      ensures first == old(input.attachQueue)[0].seqNum
      ensures input == old(input).(attachQueue := old(input.attachQueue)[1..],
                                   attachIds := old(input.attachIds) - IdSet([old(input.attachQueue)[0]]))
      ensures log == old(log).(released := old(log.released) + Id(old(input.attachQueue)[0]), held := log.held)
    {
      var info := input.attachQueue[0];
      assert input.attachQueue[..1] == [] + [info] && input.attachQueue[..1][..0] == [];
      IdSetOneMore([], info);
      IdsOne(info);
      first := info.seqNum;
      input := input.(attachQueue := input.attachQueue[1..]);
      if info.seqNum.Some? {
        input := input.(attachIds := input.attachIds - {info.seqNum.value});
        log := Release(log, Id(info), refused);
      } else {
        assert log == Release(log, Id(info), refused);
      }
    }

    /** PopBuffer over the attach queue. */
    method PopAttached(index: nat, refused: set<nat>) returns (last: Option<nat>)
      modifies this`input, this`log
      ensures var n := PopCount(old(input.attachQueue), index);
              && View() == ReleaseAttached(old(View()), n, refused)
              && last == (if n > 0 then old(input.attachQueue)[n - 1].seqNum else None)
              && input == old(input).(attachQueue := old(input.attachQueue)[n..],
                                      attachIds := old(input.attachIds) - IdSet(old(input.attachQueue)[..n]))
              && log == old(log).(released := old(log.released) + Ids(old(input.attachQueue)[..n]), held := log.held)
    {
      ghost var s0 := View();
      ghost var q := input.attachQueue;
      ghost var k := 0;
      last := None;
      NothingReleased(s0, refused);
      while input.attachQueue != []
        invariant k <= |q| && View() == ReleaseAttached(s0, k, refused)
        invariant PopCount(q, index) == k + PopCount(q[k..], index)
        invariant last == if k > 0 then q[k - 1].seqNum else None
        decreases |input.attachQueue|
      {
        ReleaseAttachedOneMore(s0, k, refused);
        last := PopFirstAttached(refused);
        if last == Some(index) {
          assert PopCount(q[k..], index) == 1;
          return;
        }
        PopCountStep(q, k, index);
        k := k + 1;
      }
    }

    /** `granted` is the buffer the output surface answers with, if any; `key` is the number in the
        caller's buffer variable afterwards. */
    method RequestBuffer(granted: Option<nat>, refused: set<nat>) returns (ok: bool, key: nat, ghost order: seq<nat>)
      requires life.producer
      modifies this`input, this`log, this`output
      ensures ok <==> life.hasConsumer && granted.Some?
      ensures !ok ==> View() == old(View())
      ensures ok ==> var r := Info(granted, false, 0, false, 0);
                     View() == Request(old(View()), r, order, refused) && key == RequestedKey(old(View()), r)
      ensures ok ==> Requested(old(input), old(output), old(log), granted.value, key, order)
    {
      order := [];
      key := 0;
      if !life.hasConsumer || granted.None? {
        return false, 0, [];
      }
      ok := true;
      hide Add, Evict, AttachedToRelease, PopCount, PoppedFor, ReleaseAttached;
      order := QueueRequested(granted.value);
      key := PopForRequest(granted.value, refused);
    }

    method QueueRequested(id: nat) returns (ghost order: seq<nat>)
      modifies this`output
      ensures var r, cache := Info(Some(id), false, 0, false, 0), old(output.cache);
              && output == old(output).(queue := old(output.queue) + [r], cache := Add(cache, r, order))
              && output.cache == if id in cache then cache[id := cache[id].(isFlushed := false)]
                                 else Evict(cache[id := r], order)
    {
      var r := Info(Some(id), false, 0, false, 0);
      output := output.(queue := output.queue + [r]);
      order := AddBufferToCache(r);
      hide Evict;
    }

    /** The attach entries that a request releases. */
    method PopForRequest(id: nat, refused: set<nat>) returns (key: nat)
      modifies this`input, this`log
      ensures View() == ReleaseAttached(old(View()), AttachedToRelease(life, old(input), id), refused)
      ensures var n := AttachedToRelease(life, old(input), id);
              var q := old(input.attachQueue);
              key == if n > 0 && q[n - 1].seqNum.Some? then q[n - 1].seqNum.value else id
      ensures PoppedFor(old(input), old(log), id, key)
    {
      key := id;
      NothingReleased(View(), refused);
      NoEntries(input.attachQueue);
      hide ReleaseAttached, Ids, IdSet;
      if !life.enabled {
        if id in input.attachIds {
          var last := PopAttached(id, refused);
          if last.Some? {
            key := last.value;
          }
        }
      } else if input.attachQueue != [] {
        FirstEntry(input.attachQueue);
        var first := PopFirstAttached(refused);
        if first.Some? {
          key := first.value;
        }
      }
    }

    method OnProducerBufferReleased(granted: Option<nat>, refused: set<nat>)
      returns (ghost key: nat, ghost order: seq<nat>)
      requires Valid()
      modifies this
      ensures Did(old(history), if old(life.running && life.producer && life.hasConsumer) && granted.Some?
                                then [Released(Info(granted, false, 0, false, 0), order, refused)] else [])
      ensures life == old(life) && worker == old(worker)
      ensures if old(life.running && life.producer && life.hasConsumer) && granted.Some? then
                && Requested(old(input), old(output).(flushQueue := output.flushQueue), old(log), granted.value, key,
                             order)
                && output.flushQueue == old(output.flushQueue)[PopCount(old(output.flushQueue), key)..]
              else input == old(input) && output == old(output) && log == old(log)
    {
      hide Legal, Run;
      key, order := 0, [];
      if !life.running || !life.producer {
        return;
      }
      ghost var s := View();
      var ok;
      ok, key, order := RequestReturned(granted, refused);
      hide BufferReleased, Requested;
      if ok {
        Record(s, Released(Info(granted, false, 0, false, 0), order, refused));
      }
    }

    /** The request, and the flush queue popped by the number that it left in the buffer variable. */
    method RequestReturned(granted: Option<nat>, refused: set<nat>)
      returns (ok: bool, ghost key: nat, ghost order: seq<nat>)
      requires life.producer
      modifies this`input, this`log, this`output
      ensures ok <==> life.hasConsumer && granted.Some?
      ensures !ok ==> View() == old(View())
      ensures ok ==> && View() == BufferReleased(old(View()), Info(granted, false, 0, false, 0), order, refused)
                     && Requested(old(input), old(output).(flushQueue := output.flushQueue), old(log),
                                  granted.value, key, order)
                     && output.flushQueue == old(output.flushQueue)[PopCount(old(output.flushQueue), key)..]
    {
      hide Request, RequestedKey, PopCount, PoppedFor;
      var id;
      ok, id, order := RequestBuffer(granted, refused);
      key := id;
      if ok {
        var _ := PopFlushed(id);
      }
    }

    /** Fills the cache up to the surface's queue size, one request after another. */
    method PrepareBuffers(queueSize: nat, grants: seq<Option<nat>>, refused: set<nat>) returns (ghost acts: seq<Action>)
      requires Valid() && |grants| >= queueSize
      modifies this
      ensures Did(old(history), acts) && life == old(life) && worker == old(worker)
      ensures forall a | a in acts :: a.Prepare? && a.r.seqNum in grants && a.refused == refused
      ensures var n := if |old(output.cache)| < queueSize then queueSize - |old(output.cache)| else 0;
              var granted := if life.running && life.producer && life.hasConsumer then Granted(grants[..n]) else [];
              && |acts| == |granted|
              && output == old(output).(queue := old(output.queue) + granted, cache := output.cache)
    {
      hide Legal, Run;
      acts := [];
      if !life.running || !life.producer {
        return;
      }
      var cacheSize := |output.cache|;
      var n := if cacheSize < queueSize then queueSize - cacheSize else 0;
      ghost var q := output.queue;
      for i := 0 to n
        invariant life == old(life) && worker == old(worker)
        invariant Did(old(history), acts)
        invariant forall a | a in acts :: a.Prepare? && a.r.seqNum in grants && a.refused == refused
        invariant output == old(output).(queue := output.queue, cache := output.cache)
        invariant var granted := if life.hasConsumer then Granted(grants[..i]) else [];
                  |acts| == |granted| && output.queue == q + granted
      {
        assert grants[..i + 1][..i] == grants[..i];
        ghost var more := PrepareOne(grants[i], refused);
        acts := acts + more;
      }
    }

    method PrepareOne(granted: Option<nat>, refused: set<nat>) returns (ghost acts: seq<Action>)
      requires Valid() && life.producer
      modifies this
      ensures Did(old(history), acts) && life == old(life) && worker == old(worker)
      ensures forall a | a in acts :: a.Prepare? && a.r.seqNum == granted && a.refused == refused
      ensures var entries := if granted.Some? && life.hasConsumer then [Info(granted, false, 0, false, 0)] else [];
              && |acts| == |entries|
              && output == old(output).(queue := old(output.queue) + entries, cache := output.cache)
    {
      hide Legal, Run, RequestedKey, Request, PoppedFor;
      ghost var s := View();
      acts := [];
      var ok, _, order := RequestBuffer(granted, refused);
      if ok {
        acts := [Prepare(Info(granted, false, 0, false, 0), order, refused)];
        Record(s, acts[0]);
      }
    }

    // ---------- Input ----------

    method NotifyEos() returns (err: ErrCode)
      requires Valid()
      modifies this
      ensures Did(old(history), if err == OK then [Action.NotifyEos] else [])
      ensures err == if old(life.phase) != IDLE then OK else INVALID_OPERATION
      ensures life == old(life) && output == old(output) && worker == old(worker)
      ensures input == if err == OK
                       then old(input).(queue := old(input.queue) + [Info(None, true, 0, false, 0)], ready := true)
                       else old(input)
    {
      hide Legal, Run;
      if life.phase == IDLE {
        return INVALID_OPERATION;
      }
      ghost var s := View();
      PushFrame(Info(None, true, 0, false, 0));
      Record(s, Action.NotifyEos);
      err := OK;
    }

    method PushFrame(info: Info)
      modifies this`input, this`log
      ensures View() == Push(old(View()), info)
      ensures input == old(input).(queue := old(input.queue) + [info], ready := true)
      ensures log == old(log).(pushed := old(log.pushed) + [info])
    {
      if !input.ready {
        input := input.(ready := true);
      }
      input := input.(queue := input.queue + [info]);
      log := log.(pushed := log.pushed + [info]);
    }

    /** `acquired` is what the input surface answers with, `valid` what the derived class thinks of it. */
    method OnConsumerBufferAvailable(acquired: Option<nat>, timestamp: int, valid: bool)
      requires Valid()
      requires acquired.Some? ==> acquired.value !in log.held
      modifies this
      ensures Did(old(history), if old(life.running && life.consumer && life.phase == RUNNING) && acquired.Some?
                                then [Acquire(acquired.value, timestamp, valid)] else [])
      ensures output == old(output) && worker == old(worker)
      ensures if old(life.running && life.consumer && life.phase == RUNNING) && acquired.Some? then
                && input == old(input).(queue := old(input.queue) + [Info(acquired, false, timestamp, false, 0)],
                                        ready := true)
                && life == old(life).(enabled := old(life.enabled) && valid)
              else input == old(input) && life == old(life)
    {
      hide Legal, Run;
      if !life.running {
        return;
      }
      if !life.consumer {
        return;
      }
      if life.phase != RUNNING || acquired.None? {
        return;
      }
      ghost var s := View();
      log := log.(acquired := log.acquired + multiset{acquired.value}, held := log.held + {acquired.value});
      if !valid {
        life := life.(enabled := false);
      }
      PushFrame(Info(acquired, false, timestamp, false, 0));
      Record(s, Acquire(acquired.value, timestamp, valid));
    }

    method RefreshBuffers(refused: set<nat>) returns (ghost n: nat)
      requires Valid()
      modifies this
      ensures Did(old(history), if old(life.running && life.phase == RUNNING && life.enabled && input.ready)
                                then [RefreshAll] + Drains(n, refused) else [])
      ensures life == old(life) && worker == old(worker)
      ensures if old(life.running && life.phase == RUNNING && life.enabled && input.ready) then
                input == Input(false, [], [], {}, []) && output == Output([], map[], [], map[], old(output.taken))
              else input == old(input) && output == old(output) && log == old(log)
    {
      hide Legal, Run;
      n := 0;
      if !life.running || life.phase != RUNNING || !life.enabled || !input.ready {
        return;
      }
      ghost var s := View();
      ClearBufferQueues();
      Record(s, RefreshAll);
      n := ClearConsumerLocked(refused);
    }

    // ---------- Output surface ----------

    method AddProducerBuffers(buffers: seq<Info>, ids: set<nat>) returns (all: set<nat>)
      modifies this`output
      ensures output == old(output).(queue := old(output.queue) + Real(buffers))
      ensures all == ids + IdSet(Real(buffers))
    {
      all := ids;
      assert buffers[..0] == [] && IdSet(Real([])) == {};
      for i := 0 to |buffers|
        invariant output == old(output).(queue := old(output.queue) + Real(buffers[..i]))
        invariant all == ids + IdSet(Real(buffers[..i]))
      {
        assert buffers[..i + 1][..i] == buffers[..i];
        if buffers[i].seqNum.Some? {
          IdSetSnoc(Real(buffers[..i]), buffers[i]);
          all := all + {buffers[i].seqNum.value};
          output := output.(queue := output.queue + [buffers[i]]);
        }
      }
      assert buffers[..|buffers|] == buffers;
    }

    /** The real entries of the producer queue, then those of the flush queue, become the producer queue. */
    method MergeQueues() returns (ids: set<nat>)
      modifies this`output
      ensures var kept := Real(old(output.queue)) + Real(old(output.flushQueue));
              output == old(output).(queue := kept, flushQueue := []) && ids == IdSet(kept)
    {
      var before := output.queue;
      var flushed := output.flushQueue;
      output := output.(queue := []);
      ids := AddProducerBuffers(before, {});
      ids := AddProducerBuffers(flushed, ids);
      output := output.(flushQueue := []);
      IdSetAppend(Real(before), Real(flushed));
      assert [] + Real(before) == Real(before);
    }

    /** Cache entries that are not yet in the producer queue are added to it. */
    method AddMissing(ids: set<nat>, keys: seq<nat>)
      requires IsOrder(keys, output.cache)
      modifies this`output
      ensures output == old(output).(queue := old(output.queue) + Missing(old(output.cache), ids, keys))
    {
      for i := 0 to |keys|
        invariant output == old(output).(queue := old(output.queue) + Missing(old(output.cache), ids, keys[..i]))
      {
        assert keys[..i + 1][..i] == keys[..i];
        assert keys[i] in keys;
        if keys[i] !in ids {
          output := output.(queue := output.queue + [output.cache[keys[i]]]);
        }
      }
      assert keys[..|keys|] == keys;
    }

    /** `rejects` are the cached buffers that the new surface does not take. */
    method AttachAndRefreshProducerBuffers(rejects: set<nat>)
      returns (ok: bool, ghost order: seq<nat>, ghost trimmed: seq<nat>)
      modifies this`output
      ensures IsOrder(order, old(output.cache))
      ensures IsOrder(trimmed, Evict(old(output.cache), order))
      ensures ok <==> Evict(old(output.cache), order).Keys !! rejects
      ensures !ok ==> output == old(output).(cache := Evict(old(output.cache), order))
      ensures ok ==> output == Refresh(old(output).(cache := Evict(old(output.cache), order)), trimmed)
    {
      order := CheckAndUpdateProducerCache();
      var keys := IterationOrder(output.cache);
      trimmed := keys;
      for i := 0 to |keys|
        invariant forall j | 0 <= j < i :: keys[j] !in rejects
      {
        if keys[i] in rejects {
          assert keys[i] in keys;
          return false, order, keys;
        }
      }
      ok := true;
      var ids := MergeQueues();
      if |output.queue| + |output.render| < |output.cache| {
        AddMissing(ids, keys);
      }
    }

    /** `usable` sums up the checks on the argument; `registered` says whether the listener could be registered,
        `configured` and `updated` are the answers of UpdateRequestCfg and UpdateProducerLocked after the swap. */
    method SetOutputSurface(same: bool, usable: bool, registered: bool, rejects: set<nat>,
                            configured: ErrCode, updated: ErrCode)
      returns (err: ErrCode, swap: Swap, ghost order: seq<nat>, ghost trimmed: seq<nat>)
      requires Valid()
      modifies this
      ensures Did(old(history), [SetOutput(swap, order, trimmed)])
      ensures swap == if !usable then Rejected
                      else if old(life.producer) && same then Same
                      else if !registered then Rejected
                      else if Evict(old(output.cache), order).Keys !! rejects then Accepted else AttachFailed
      ensures swap == Accepted || swap == AttachFailed ==>
                IsOrder(order, old(output.cache)) && IsOrder(trimmed, Evict(old(output.cache), order))
      ensures err == match swap
                     case Rejected => if usable then UNKNOWN else INVALID_VAL
                     case Same => OK
                     case AttachFailed => UNKNOWN
                     case Accepted => if life.enabled && configured != OK then configured
                                      else if life.consumer then updated else OK
      ensures input == old(input) && worker == old(worker) && log == old(log)
      ensures swap == Rejected || swap == Same ==> life == old(life) && output == old(output)
      ensures swap == AttachFailed || swap == Accepted ==>
                var trimmedOutput := old(output).(cache := Evict(old(output.cache), order));
                if swap == Accepted then life == old(life).(producer := true) && Refilled(trimmedOutput, output)
                else life == old(life) && output == trimmedOutput
    {
      hide Legal, Run, Evict, Refresh;
      ghost var s := View();
      RealQueuesOut();
      swap, order, trimmed := SwapOutput(same, usable, registered, rejects);
      hide IsOrder, SwapSurface, Refilled, Keyed, AllReal;
      Record(s, SetOutput(swap, order, trimmed));
      match swap
      case Rejected => err := if usable then UNKNOWN else INVALID_VAL;
      case Same => err := OK;
      case AttachFailed => err := UNKNOWN;
      case Accepted =>
        err := if life.enabled then configured else OK;
        if err == OK && life.consumer {
          err := updated;
        }
    }

    lemma RealQueuesOut()
      requires Valid()
      ensures AllReal(output.queue) && AllReal(output.flushQueue) && Keyed(output.cache)
    {
      Holds();
      InvOutput(View());
      hide Legal, Run, Inv;
    }

    /** The part of SetOutputSurface that changes anything. */
    method SwapOutput(same: bool, usable: bool, registered: bool, rejects: set<nat>)
      returns (swap: Swap, ghost order: seq<nat>, ghost trimmed: seq<nat>)
      requires AllReal(output.queue) && AllReal(output.flushQueue) && Keyed(output.cache)
      modifies this`life, this`output
      ensures View() == SwapSurface(old(View()), swap, order, trimmed)
      ensures swap == if !usable then Rejected
                      else if old(life.producer) && same then Same
                      else if !registered then Rejected
                      else if Evict(old(output.cache), order).Keys !! rejects then Accepted else AttachFailed
      ensures swap == Accepted || swap == AttachFailed ==>
                IsOrder(order, old(output.cache)) && IsOrder(trimmed, Evict(old(output.cache), order))
      ensures swap == Rejected || swap == Same ==> life == old(life) && output == old(output)
      ensures swap == AttachFailed || swap == Accepted ==>
                var trimmedOutput := old(output).(cache := Evict(old(output.cache), order));
                if swap == Accepted then life == old(life).(producer := true) && Refilled(trimmedOutput, output)
                else life == old(life) && output == trimmedOutput
    {
      hide Evict, Refresh;
      order, trimmed := [], [];
      if !usable {
        return Rejected, [], [];
      }
      if life.producer && same {
        return Same, [], [];
      }
      if !registered {
        return Rejected, [], [];
      }
      var ok, ord, tr := AttachAndRefreshProducerBuffers(rejects);
      order, trimmed := ord, tr;
      if !ok {
        return AttachFailed, order, trimmed;
      }
      EvictShrinks(old(output.cache), order);
      SwapRefills(old(output).(cache := Evict(old(output.cache), order)), trimmed);
      life := life.(producer := true);
      swap := Accepted;
    }

    // ---------- RenderOutputBuffer, region by region ----------

    method TakeRendered(index: nat) returns (info: Option<Info>)
      requires Valid()
      modifies this
      ensures Did(old(history), if info.Some? then [RenderTake(index)] else [])
      ensures info == if old(life.running) && index in old(output.render) then Some(old(output.render)[index]) else None
      ensures life == old(life) && input == old(input) && worker == old(worker)
      ensures output == if info.None? then old(output)
                        else old(output).(render := old(output.render) - {index},
                                          taken := old(output.taken) + multiset{info.value})
    {
      hide Legal, Run;
      if !life.running || index !in output.render {
        return None;
      }
      ghost var s := View();
      info := Some(output.render[index]);
      output := output.(render := output.render - {index}, taken := output.taken + multiset{info.value});
      log := log.(rendered := log.rendered + multiset{index});
      Record(s, RenderTake(index));
    }

    /** The caller's buffer after the surface was asked to flush it. */
    method FinishRendered(info: Info, render: bool, flushed: bool, now: int) returns (err: ErrCode)
      requires Valid() && info in output.taken
      modifies this
      ensures Did(old(history), [if !render then RenderBack(info)
                                 else if old(life.producer) && flushed then RenderFlushed(info, now)
                                 else RenderLost(info)])
      ensures err == if !render || (old(life.producer) && flushed) then OK
                     else if old(life.producer) then UNKNOWN else INVALID_OPERATION
      ensures life == old(life) && input == old(input) && worker == old(worker) && log == old(log)
      ensures Rendered(old(output), output, info, render, life.producer && flushed, now)
    {
      hide Legal, Run;
      ghost var s := View();
      ghost var a;
      err, a := ReturnRendered(info, render, flushed, now);
      hide ApplyOutput;
      Record(s, a);
    }

    method ReturnRendered(info: Info, render: bool, flushed: bool, now: int) returns (err: ErrCode, ghost a: Action)
      modifies this`output
      ensures a == if !render then RenderBack(info)
                   else if life.producer && flushed then RenderFlushed(info, now)
                   else RenderLost(info)
      ensures View() == ApplyOutput(old(View()), a)
      ensures err == if !render || (life.producer && flushed) then OK
                     else if life.producer then UNKNOWN else INVALID_OPERATION
      ensures Rendered(old(output), output, info, render, life.producer && flushed, now)
    {
      output := output.(taken := output.taken - multiset{info});
      a := RenderLost(info);
      if !render {
        output := output.(queue := output.queue + [info]);
        a := RenderBack(info);
        err := OK;
      } else if !life.producer {
        err := INVALID_OPERATION;
      } else if !flushed {
        err := UNKNOWN;
      } else {
        output := output.(flushQueue := output.flushQueue + [info]);
        MarkAsFlushed(info, now);
        a := RenderFlushed(info, now);
        err := OK;
        hide MarkFlushed;
      }
    }

    method MarkAsFlushed(info: Info, now: int)
      modifies this`output
      ensures output == old(output).(cache := MarkFlushed(old(output.cache), info, now))
      ensures output.cache.Keys == old(output.cache.Keys)
      ensures forall k | k in output.cache ::
                output.cache[k] == if info.seqNum == Some(k)
                                   then old(output.cache)[k].(isFlushed := true, flushedTime := now)
                                   else old(output.cache)[k]
    {
      if info.seqNum.Some? && info.seqNum.value in output.cache {
        var k := info.seqNum.value;
        output := output.(cache := output.cache[k := output.cache[k].(isFlushed := true, flushedTime := now)]);
      }
    }

    // ---------- The worker, step by step ----------

    /** The loop is entered under the lock; Deinitialize can begin between the test and the lock. */
    method EnterLoop()
      requires Valid()
      modifies this
      ensures Did(old(history), [Enter])
      ensures var enters := old(worker).Parked? && (life.running || life.leaving == Joining) && life.consumer
              && life.producer;
              View() == if enters then old(View()).(worker := AtTest) else old(View())
    {
      hide Legal, Run;
      ghost var s := View();
      if worker.Parked? && (life.running || life.leaving == Joining) && life.consumer && life.producer {
        worker := AtTest;
      }
      Record(s, Enter);
    }

    method TestRunning()
      requires Valid() && worker.AtTest?
      modifies this
      ensures Did(old(history), [Test])
      ensures View() == old(View()).(worker := if life.running then Fetching else Parked)
    {
      hide Legal, Run;
      ghost var s := View();
      worker := if life.running then Fetching else Parked;
      Record(s, Test);
    }

    method GetConsumerAndProducerBuffer() returns (got: bool)
      requires Valid() && worker.Fetching?
      modifies this
      ensures Did(old(history), [Fetch])
      ensures View() == FetchBuffers(old(View())) && (if got then worker.Holding? else worker.Parked?)
      ensures got ==> && worker == Holding(old(input.queue)[0], old(output.queue)[0], old(log.head))
                      && input == old(input).(queue := old(input.queue)[1..])
                      && output == old(output).(queue := old(output.queue)[1..])
    {
      hide Legal, Run;
      ghost var s := View();
      worker := Parked;
      got := false;
      if output.queue != [] && input.queue != [] {
        var src := input.queue[0];
        var dst := output.queue[0];
        if src.seqNum.None? && !src.eos {
          DropFirstInput();
        } else if dst.seqNum.None? {
          output := output.(queue := output.queue[1..]);
        } else {
          worker := Holding(src, dst, log.head);
          DropFirstInput();
          output := output.(queue := output.queue[1..]);
          got := true;
        }
      }
      Record(s, Fetch);
    }

    method DropFirstInput()
      requires input.queue != []
      modifies this`input, this`log
      ensures input == old(input).(queue := old(input.queue)[1..])
      ensures log == old(log).(head := old(log).head + 1)
    {
      input := input.(queue := input.queue[1..]);
      log := log.(head := log.head + 1);
    }

    method ChooseBranch()
      requires Valid() && worker.Holding? && !worker.src.eos
      modifies this
      ensures Did(old(history), [Decide])
      ensures worker == if life.enabled then Converting(old(worker).src, old(worker).dst, old(worker).at)
                        else Bypassing(old(worker).src, old(worker).dst, old(worker).at)
      ensures life == old(life) && input == old(input) && output == old(output) && log == old(log)
    {
      hide Legal, Run;
      ghost var s := View();
      if life.enabled {
        worker := Converting(worker.src, worker.dst, worker.at);
      } else {
        worker := Bypassing(worker.src, worker.dst, worker.at);
      }
      Record(s, Decide);
    }

    /** `ok` is the outcome of the pixel algorithm. */
    method ProcessBuffer(ok: bool, refused: set<nat>)
      requires Valid() && worker.Converting?
      modifies this
      ensures Did(old(history), [Convert(ok, refused)])
      ensures var src, image := old(worker).src, old(worker).dst.(timestamp := old(worker).src.timestamp);
              worker == if ok then Converted(src, image, old(worker).at) else Failed(image)
      ensures life == old(life) && input == old(input) && output == old(output)
      ensures log == old(log).(released := old(log.released) + Id(old(worker).src), held := log.held)
    {
      hide Legal, Run;
      ghost var s := View();
      var src := worker.src;
      var dst := worker.dst.(timestamp := src.timestamp);
      log := Release(log, Id(src), refused);
      worker := if ok then Converted(src, dst, worker.at) else Failed(dst);
      Record(s, Convert(ok, refused));
    }

    method GiveBackAfterFailure()
      requires Valid() && worker.Failed?
      modifies this
      ensures Did(old(history), [GiveBack]) && worker == AtTest && life == old(life) && input == old(input)
      ensures output == old(output).(queue := old(output.queue) + [old(worker).dst]) && log == old(log)
    {
      hide Legal, Run;
      ghost var s := View();
      output := output.(queue := output.queue + [worker.dst]);
      worker := AtTest;
      Record(s, GiveBack);
    }

    lemma ImagesAreReal()
      requires Valid()
      ensures worker.Converted? || worker.Holding? ==> worker.dst.seqNum.Some?
      ensures worker.Converting? ==> worker.dst.seqNum.Some?
      ensures worker.Bypassed? || worker.Bypassing? ==> worker.src.seqNum.Some?
      ensures worker.Holding? && !worker.src.eos ==> worker.src.seqNum.Some?
      ensures worker.Announcing? ==> life.cb
    {
      Holds();
    }

    /** OutputBuffer up to its callback; an end-of-stream marker takes an image with it. */
    method OutputBuffer()
      requires Valid() && (worker.Converted? || (worker.Holding? && worker.src.eos))
      modifies this
      ensures Did(old(history), [Publish]) && life == old(life) && input == old(input)
      ensures old(worker).dst.seqNum.Some? && var k := old(worker).dst.seqNum.value;
              && worker == Announcing(k, old(worker).src, old(worker).at)
              && output == old(output).(render := old(output.render)[k := old(worker).dst])
      ensures log == old(log).(puts := log.puts)
    {
      ImagesAreReal();
      hide Legal, Run;
      ghost var s := View();
      PutUp(worker.dst);
      worker := Announcing(worker.dst.seqNum.value, worker.src, worker.at);
      Record(s, Publish);
    }

    method PutUp(image: Info)
      requires image.seqNum.Some?
      modifies this`output, this`log
      ensures View() == Put(old(View()), image)
    {
      var k := image.seqNum.value;
      output := output.(render := output.render[k := image]);
      log := log.(puts := log.puts + multiset{k});
    }

    /** The locked region of BypassBuffer, unless the processor died. */
    method BypassBuffer(detached: bool, attached: bool)
      requires Valid() && worker.Bypassing?
      modifies this
      ensures Did(old(history), [if old(life.running) then BypassSwap(detached, attached) else BypassDied])
      ensures worker == if old(life.running)
                        then Bypassed(old(worker).src, old(worker).dst, old(worker).at, detached, attached)
                        else AtTest
      ensures life == old(life) && input == old(input) && output == old(output)
      ensures log == old(log).(dropped := log.dropped)
    {
      hide Legal, Run;
      ghost var s := View();
      if !life.running {
        log := log.(dropped := log.dropped + Id(worker.src));
        worker := AtTest;
        Record(s, BypassDied);
        return;
      }
      worker := Bypassed(worker.src, worker.dst, worker.at, detached, attached);
      Record(s, BypassSwap(detached, attached));
    }

    /** OutputBuffer of the bypass branch: the source itself goes up for output and is remembered as attached. */
    method OutputBypassed() returns (ghost order: seq<nat>)
      requires Valid() && worker.Bypassed?
      modifies this
      ensures Did(old(history), [PublishBypass(order)]) && life == old(life)
      ensures PutUpSource(old(input), old(output), old(worker), order) && log == old(log).(puts := log.puts)
    {
      ImagesAreReal();
      hide Legal, Run, Inv;
      ghost var s := View();
      order := PutUpAttached(worker.src, worker.dst, worker.detached, worker.attached);
      worker := Announcing(worker.src.seqNum.value, worker.src, worker.at);
      Record(s, PublishBypass(order));
    }

    /** The source itself is up for output under its own number and attached; the cache has lost the image's buffer
        if it was detached, and has the source if that was attached. */
    ghost predicate PutUpSource(before: Input, outBefore: Output, was: Worker, order: seq<nat>)
      requires was.Bypassed?
      reads this`input, this`output, this`worker
    {
      was.src.seqNum.Some? &&
      var k, dst := was.src.seqNum.value, was.dst.seqNum;
      var left := if was.detached && dst.Some? then outBefore.cache - {dst.value} else outBefore.cache;
      && worker == Announcing(k, was.src, was.at)
      && input == before.(attachQueue := before.attachQueue + [was.src], attachIds := before.attachIds + {k})
      && output == outBefore.(render := outBefore.render[k := was.src],
                              cache := if was.attached then Add(left, was.src, order) else left)
    }

    method PutUpAttached(src: Info, dst: Info, detached: bool, attached: bool) returns (ghost order: seq<nat>)
      requires src.seqNum.Some?
      modifies this`input, this`output, this`log
      ensures var t := PublishAttached(old(View()), src, dst, 0, detached, attached, order);
              View() == t.(worker := old(worker))
      ensures input == old(input).(attachQueue := old(input.attachQueue) + [src],
                                   attachIds := old(input.attachIds) + {src.seqNum.value})
      ensures var left := if detached && dst.seqNum.Some? then old(output.cache) - {dst.seqNum.value}
                          else old(output.cache);
              output == old(output).(render := old(output.render)[src.seqNum.value := src],
                                     cache := if attached then Add(left, src, order) else left)
    {
      hide Add;
      order := [];
      var id := src.seqNum.value;
      PutUp(src);
      input := input.(attachIds := input.attachIds + {id});
      input := input.(attachQueue := input.attachQueue + [src]);
      if detached && dst.seqNum.Some? {
        output := output.(cache := output.cache - {dst.seqNum.value});
      }
      if attached {
        order := AddBufferToCache(src);
      }
    }

    /** OnOutputBufferAvailable; after an end-of-stream marker the worker leaves its loop. */
    method AnnounceOutput()
      requires Valid() && worker.Announcing?
      modifies this
      ensures Did(old(history), [Announce])
      ensures worker == if old(worker).frame.eos then Parked else AtTest
      ensures var frame := old(worker).frame;
              log == old(log).(announcedAt := log.announcedAt,
                announced := old(log.announced) + [Announcement(old(worker).index, frame.eos, frame.timestamp)])
      ensures life == old(life) && input == old(input) && output == old(output)
    {
      ImagesAreReal();
      hide Legal, Run;
      ghost var s := View();
      var frame := worker.frame;
      if life.cb {
        log := log.(announced := log.announced + [Announcement(worker.index, frame.eos, frame.timestamp)],
                    announcedAt := log.announcedAt + [worker.at]);
      }
      worker := if frame.eos then Parked else AtTest;
      Record(s, Announce);
    }

    // ---------- The worker's loop, undisturbed ----------

    /** One frame from the worker's hand to the announcement. A marker is announced with the image that came with
        it, a processed frame with its image, a bypassed one with its own buffer, each under the buffer's number
        and with the frame's timestamp. */
    method HandleFrame(round: Round) returns (ghost acts: seq<Action>)
      requires Valid() && worker.Holding?
      modifies this
      ensures Did(old(history), acts)
      ensures worker == if old(worker).src.eos then Parked else AtTest
      ensures old(worker).dst.seqNum.Some? && (!old(worker).src.eos ==> old(worker).src.seqNum.Some?)
      ensures var src, image, bypassed := old(worker).src, old(worker).dst.seqNum.value, old(!life.enabled);
              log.announced == old(log.announced)
                + (if src.eos || (!bypassed && round.ok) then [Announcement(image, src.eos, src.timestamp)]
                   else if bypassed && old(life.running) then [Announcement(src.seqNum.value, false, src.timestamp)]
                   else [])
      ensures log.released == old(log.released) + (if old(worker.src.eos || !life.enabled) then multiset{}
                                                   else Id(old(worker).src))
    {
      ImagesAreReal();
      hide Legal, Run;
      if worker.src.eos {
        acts := HandOver();
        return;
      }
      ChooseBranch();
      ghost var more;
      if worker.Converting? {
        more := Process(round);
      } else {
        more := Bypass(round);
      }
      acts := [Decide] + more;
    }

    /** A processed image, or the one that goes with a marker, is put up and announced. */
    method HandOver() returns (ghost acts: seq<Action>)
      requires Valid() && (worker.Converted? || (worker.Holding? && worker.src.eos))
      modifies this
      ensures Did(old(history), acts) && acts == [Publish, Announce]
      ensures worker == if old(worker).src.eos then Parked else AtTest
      ensures life == old(life) && input == old(input) && log.released == old(log.released)
      ensures old(worker).dst.seqNum.Some? && var k, src := old(worker).dst.seqNum.value, old(worker).src;
              && output == old(output).(render := old(output.render)[k := old(worker).dst])
              && log.announced == old(log.announced) + [Announcement(k, src.eos, src.timestamp)]
    {
      hide Legal, Run;
      OutputBuffer();
      AnnounceOutput();
      acts := [Publish, Announce];
    }

    /** A failure gives the image back and may disable the pipeline. */
    method Process(round: Round) returns (ghost acts: seq<Action>)
      requires Valid() && worker.Converting? && !worker.src.eos
      modifies this
      ensures Did(old(history), acts) && worker == AtTest && input == old(input)
      ensures log.released == old(log.released) + Id(old(worker).src)
      ensures old(worker).dst.seqNum.Some?
      ensures var k, image := old(worker).dst.seqNum.value, old(worker).dst.(timestamp := old(worker).src.timestamp);
              if round.ok then
                && output == old(output).(render := old(output.render)[k := image])
                && log.announced == old(log.announced) + [Announcement(k, false, image.timestamp)]
              else
                && output == old(output).(queue := old(output.queue) + [image])
                && log.announced == old(log.announced) && life.enabled == (old(life.enabled) && !round.disables)
    {
      ImagesAreReal();
      hide Legal, Run;
      ProcessBuffer(round.ok, round.refused);
      acts := [Convert(round.ok, round.refused)];
      if worker.Converted? {
        ghost var more := HandOver();
        acts := acts + more;
        return;
      }
      GiveBackAfterFailure();
      acts := acts + [GiveBack];
      if round.disables {
        var err := Disable();
        if err == OK {
          acts := acts + [Action.Disable];
        }
      }
    }

    method Bypass(round: Round) returns (ghost acts: seq<Action>)
      requires Valid() && worker.Bypassing? && !worker.src.eos
      modifies this
      ensures Did(old(history), acts) && worker == AtTest && life == old(life) && log.released == old(log.released)
      ensures old(worker).src.seqNum.Some?
      ensures var k, src := old(worker).src.seqNum.value, old(worker).src;
              if life.running then
                && input == old(input).(attachQueue := old(input.attachQueue) + [src],
                                        attachIds := old(input.attachIds) + {k})
                && output == old(output).(render := old(output.render)[k := src], cache := output.cache)
                && log.announced == old(log.announced) + [Announcement(k, false, src.timestamp)]
              else input == old(input) && output == old(output) && log.announced == old(log.announced)
    {
      ImagesAreReal();
      hide Legal, Run;
      BypassBuffer(round.detached, round.attached);
      if worker == AtTest {
        acts := [BypassDied];
        return;
      }
      ghost var order := OutputBypassed();
      AnnounceOutput();
      acts := [BypassSwap(round.detached, round.attached), PublishBypass(order), Announce];
    }

    /** ProcessBuffers without interference, for as many frames as there are rounds. It parks only when it died,
        when a queue is empty, or after announcing an end-of-stream marker. */
    method ProcessBuffers(rounds: seq<Round>) returns (ghost acts: seq<Action>)
      requires Valid() && worker.Parked?
      modifies this
      ensures Did(old(history), acts)
      ensures worker.Parked? || worker.AtTest?
      ensures worker.Parked? ==> || !life.consumer || !life.producer || !life.running
                                 || input.queue == [] || output.queue == []
                                 || (log.announced != [] && log.announced[|log.announced| - 1].eos)
    {
      hide Legal, Run;
      EnterLoop();
      acts := [Enter];
      if worker.Parked? {
        return;
      }
      for i := 0 to |rounds|
        invariant Did(old(history), acts) && worker.AtTest?
      {
        TestRunning();
        acts := acts + [Test];
        if worker.Parked? {
          return;
        }
        RealQueues();
        var got := GetConsumerAndProducerBuffer();
        acts := acts + [Fetch];
        if !got {
          return;
        }
        ghost var more := HandleFrame(rounds[i]);
        acts := acts + more;
        if worker.Parked? {
          return;
        }
      }
    }

    /** Neither guard against null buffers is ever taken. */
    lemma RealQueues()
      requires Valid() && worker.Fetching?
      ensures FetchBuffers(View()).worker.Parked? ==> input.queue == [] || output.queue == []
      ensures FetchBuffers(View()).worker.Parked? ==>
                FetchBuffers(View()).input == input && FetchBuffers(View()).output == output
    {
      Holds();
      if input.queue != [] && output.queue != [] {
        assert Frame(input.queue[0]);
        assert output.queue[0] in output.queue;
      }
    }
  }

  /** The surroundings' answers for one frame. */
  datatype Round = Round(ok: bool, disables: bool, refused: set<nat>, detached: bool, attached: bool)

  /** What every valid object can be relied on for, whoever called what. */
  lemma ObjectKeepsPromises(v: VpeVideoImpl)
    requires v.Valid()
    ensures Inv(v.View())
    ensures forall id :: v.log.acquired[id] <= v.log.released[id] + 1
    ensures v.input.attachIds == IdSet(v.input.attachQueue)
    ensures forall i, j | 0 <= i < j < |v.log.announcedAt| :: v.log.announcedAt[i] < v.log.announcedAt[j]
    ensures forall k | k in v.output.render :: v.output.render[k].seqNum == Some(k)
    ensures v.life.phase == IDLE <==> |v.life.reports| % 2 == 0
    ensures NeverDrops(Initial, v.history) <==> v.log.dropped == multiset{}
  {
    InitialInv();
    InvRun(Initial, v.history);
    InputBuffersOwnedOnce(v.history);
    IndicesAreOneShot(v.history);
    FramesAnnouncedInOrder(v.history);
    DroppedIff(Initial, v.history);
  }

  /** The records of the buffers that a series of requests yields. */
  function Granted(grants: seq<Option<nat>>): seq<Info> {
    if grants == [] then []
    else
      var g := grants[|grants| - 1];
      Granted(grants[..|grants| - 1]) + (if g.Some? then [Info(g, false, 0, false, 0)] else [])
  }

  lemma {:induction false} IdSetAppend(a: seq<Info>, b: seq<Info>)
    ensures IdSet(a + b) == IdSet(a) + IdSet(b)
  {
    if b == [] {
      assert a + b == a && IdSet(b) == {};
    } else {
      var n := |b| - 1;
      assert a + b == (a + b[..n]) + [b[n]] && b == b[..n] + [b[n]];
      IdSetAppend(a, b[..n]);
      IdSetOneMore(a + b[..n], b[n]);
      IdSetOneMore(b[..n], b[n]);
    }
  }

  lemma IdSetOneMore(q: seq<Info>, info: Info)
    ensures IdSet(q + [info]) == IdSet(q) + (if info.seqNum.Some? then {info.seqNum.value} else {})
  {
    if info.seqNum.Some? {
      IdSetSnoc(q, info);
    } else {
      forall id
        ensures id in IdSet(q + [info]) <==> id in IdSet(q)
      {
        if id in IdSet(q) {
          var e :| e in q && e.seqNum == Some(id);
          assert e in q + [info];
        }
      }
    }
  }

  lemma ReleaseAttachedOneMore(s: State, k: nat, refused: set<nat>)
    requires k < |s.input.attachQueue|
    ensures ReleaseAttached(ReleaseAttached(s, k, refused), 1, refused) == ReleaseAttached(s, k + 1, refused)
  {
    var q := s.input.attachQueue;
    OneMore(q, k);
    ReleaseTwice(s.log, Ids(q[..k]), Id(q[k]), refused);
    MinusTwice(s.input.attachIds, IdSet(q[..k]), IdSet(q[k..][..1]));
    var t := ReleaseAttached(s, k, refused);
    assert t.input.attachQueue == q[k..];
    assert t.log == Release(s.log, Ids(q[..k]), refused);
    var u := ReleaseAttached(t, 1, refused);
    var v := ReleaseAttached(s, k + 1, refused);
    assert u.log == v.log;
    assert u.input.attachIds == v.input.attachIds;
    assert u.input.attachQueue == v.input.attachQueue;
  }

  lemma MinusTwice(s: set<nat>, a: set<nat>, b: set<nat>)
    ensures (s - a) - b == s - (a + b)
  {
  }

  lemma OneMore(q: seq<Info>, k: nat)
    requires k < |q|
    ensures Ids(q[..k + 1]) == Ids(q[..k]) + Id(q[k])
    ensures Ids(q[k..][..1]) == Id(q[k])
    ensures IdSet(q[..k + 1]) == IdSet(q[..k]) + IdSet(q[k..][..1])
    ensures q[k..][1..] == q[k + 1..]
  {
    assert q[k..][..1] == [] + [q[k]];
    assert q[..k + 1] == q[..k] + [q[k]] && q[..k + 1][..k] == q[..k];
    IdSetOneMore(q[..k], q[k]);
    IdSetOneMore([], q[k]);
    IdsOne(q[k]);
  }
}
