/**
 * The older video pipelines as the objects they are. A valid object is one whose fields are
 * where a legal run of PoolSpec leads; every method keeps that and says by which action it goes
 * on. So what PoolTheorems says of all runs holds of every object at all times, as
 * ObjectKeepsPool spells out.
 */
module PoolVideo {
  import opened Basics
  import opened PoolSpec
  import opened PoolTheorems
  import opened PoolHistory

  datatype ErrCode = OK | INVALID_VAL | INVALID_PARAM | INVALID_STATE | INVALID_OPERATION | UNKNOWN

  /** Visits an ordered map in key order. */
  method Reclaim(free: seq<OutBuffer>, m: map<nat, OutBuffer>) returns (all: seq<OutBuffer>)
    ensures all == free + Sorted(m)
  {
    all := free;
    var rest := m;
    while rest != map[]
      invariant all + Sorted(rest) == free + Sorted(m)
      decreases |rest|
    {
      var k := Least(rest.Keys);
      all := all + [rest[k]];
      assert (rest - {k}).Keys == rest.Keys - {k};
      assert |(rest - {k}).Keys| < |rest.Keys|;
      rest := rest - {k};
    }
  }

  lemma FlushableStep(q: seq<InBuffer>, k: nat, refused: set<nat>)
    requires k < |q|
    ensures q[k..][0] == q[k] && q[k..][1..] == q[k + 1..]
    ensures Flushable(q[k..], refused)
            == if q[k].memory.None? || q[k].memory.value in refused then 0 else 1 + Flushable(q[k + 1..], refused)
    ensures Memories(q[..k + 1]) == Memories(q[..k]) + Memory(q[k])
  {
    assert q[k..][1..] == q[k + 1..];
    assert q[..k + 1][..k] == q[..k];
  }

  /** Everything of `m`, each buffer once, has gone behind what was free, in the order of the numbers. */
  ghost predicate Recycled(before: seq<OutBuffer>, m: map<nat, OutBuffer>, after: seq<OutBuffer>) {
    var n := |before|;
    && |after| == n + |m| && after[..n] == before
    && (forall i | n <= i < |after| :: after[i].id in m && after[i] == m[after[i].id])
    && (forall i, j | n <= i < j < |after| :: after[i].id < after[j].id)
  }

  lemma {:induction false} SortedMembers(m: map<nat, OutBuffer>)
    requires KeyedBy(m)
    ensures var q := Sorted(m);
            && |q| == |m| && (forall b | b in q :: b.id in m && b == m[b.id])
            && (forall i, j | 0 <= i < j < |q| :: q[i].id < q[j].id)
    decreases |m|
  {
    if m != map[] {
      var k := Least(m.Keys);
      var rest := m - {k};
      assert rest.Keys == m.Keys - {k};
      assert |rest.Keys| == |m.Keys| - 1;
      SortedMembers(rest);
      var q := Sorted(m);
      assert q == [m[k]] + Sorted(rest);
      forall i, j | 0 <= i < j < |q|
        ensures q[i].id < q[j].id
      {
        assert q[j] == Sorted(rest)[j - 1] && Sorted(rest)[j - 1] in Sorted(rest);
        assert i > 0 ==> q[i] == Sorted(rest)[i - 1];
      }
    }
  }

  lemma SortedIsAll(free: seq<OutBuffer>, m: map<nat, OutBuffer>)
    requires KeyedBy(m)
    ensures Recycled(free, m, free + Sorted(m))
  {
    SortedMembers(m);
    hide Sorted, KeyedBy;
    var q, all := Sorted(m), free + Sorted(m);
    forall i | |free| <= i < |all|
      ensures all[i] in q && all[i] == q[i - |free|]
    {
    }
  }

  /** Configure leaves states in which it is not allowed alone; otherwise the AI-HDR kind always goes on, and the
      other two only with an accepted format; after a failure they are in ERROR. */
  predicate IsConfigured(kind: Kind, before: Life, outcome: Configured, after: Life) {
    if before.phase != INITIALIZED && before.phase != CONFIGURING && before.phase != STOPPED then after == before
    else if kind == AihdrEnhancer then after == before.(phase := CONFIGURING)
    else
      after == before.(formatSet := before.formatSet || !outcome.Refused? || outcome.formatTouched,
                       phase := if outcome.Accepted? then CONFIGURING
                                else if outcome.Failed? then ERROR else before.phase)
  }

  lemma ResetIs(s: State, created: bool)
    requires s.life.phase != UNINITIALIZED
    ensures var t := ResetLocked(s, created);
            && t.queue == s.queue && t.pool == s.pool && t.worker == s.worker
            && t.life == if created
                         then s.life.(phase := INITIALIZED, isEos := false,
                                      formatSet := s.life.formatSet && s.kind != ColorSpaceConverter)
                         else s.life.(phase := INITIALIZED)
  {
  }

  /** The first entry, if any, that a flush cannot give back. */
  predicate FirstBlocking(q: seq<InBuffer>, refused: set<nat>, n: nat) {
    && n <= |q| && (forall k | 0 <= k < n :: !Blocks(q[k], refused)) && (n < |q| ==> Blocks(q[n], refused))
  }

  lemma OnlyFirst(q: seq<InBuffer>, refused: set<nat>)
    ensures forall n: nat | FirstBlocking(q, refused, n) :: n == Flushable(q, refused)
  {
    var k := Flushable(q, refused);
    forall n: nat | FirstBlocking(q, refused, n)
      ensures n == k
    {
      assert n < k ==> !Blocks(q[n], refused);
      assert k < n ==> !Blocks(q[k], refused);
    }
  }

  /** A new wrapper for every buffer that was granted, in order. */
  function Wrapped(grants: seq<Option<nat>>): seq<OutBuffer> {
    if grants == [] then []
    else
      var g := grants[|grants| - 1];
      Wrapped(grants[..|grants| - 1]) + (if g.Some? then [OutBuffer(g.value, false, 0)] else [])
  }

  function Numbers(grants: seq<Option<nat>>): set<nat> {
    set g | g in grants && g.Some? :: g.value
  }

  /** Buffer `id` is the last of the free ones, in a new wrapper, and no longer with the surface; an unknown one
      has taken the place of the flushed buffer with the least number. */
  predicate TakenBack(before: Pool, after: Pool, id: nat) {
    && after == before.(free := before.free + [OutBuffer(id, false, 0)],
                        flushed := after.flushed, registry := after.registry)
    && if id in before.registry then after.flushed == before.flushed - {id} && after.registry == before.registry
       else exists first | first in before.flushed ::
              && (forall k | k in before.flushed :: first <= k)
              && after.flushed == before.flushed - {first}
              && after.registry == before.registry + {id} - {first}
  }

  /** The fields that belong together are kept in one record each. */
  class PoolVideoImpl {
    const kind: Kind
    var life: Life
    var queue: seq<InBuffer>
    var pool: Pool
    var worker: Worker
    /** History that the program itself does not keep. */
    var log: Log
    ghost var history: seq<Action>

    ghost function View(): State
      reads this
    {
      State(kind, life, queue, pool, worker, log)
    }

    ghost predicate Valid()
      reads this
    {
      Legal(Initial(kind), history) && Run(Initial(kind), history) == View()
    }

    /** Since its history was `before`, the object has gone through exactly these actions. */
    ghost predicate Did(before: seq<Action>, acts: seq<Action>)
      reads this
    {
      Valid() && history == before + acts
    }

    /** The fields have moved from `s` by action `a`. */
    ghost method Record(s: State, a: Action)
      requires Legal(Initial(kind), history) && Run(Initial(kind), history) == s && Allowed(s, a)
      requires View() == Apply(s, a)
      modifies this`history
      ensures Did(old(history), [a]) && View() == old(View())
    {
      RunSnoc(Initial(kind), history, a);
      history := history + [a];
    }

    constructor (kind: Kind)
      ensures Did([], []) && this.kind == kind && View() == Initial(kind)
    {
      history := [];
      this.kind := kind;
      life := Initial(kind).life;
      queue := [];
      pool := Initial(kind).pool;
      worker := Idle;
      log := Initial(kind).log;
    }

    // ---------- Life cycle ----------

    method Init(created: bool) returns (err: ErrCode)
      requires Valid()
      modifies this
      ensures Did(old(history), if err == OK then [Action.Init(created)] else [])
      ensures err == OK <==> old(life.phase) == UNINITIALIZED && created
      ensures View() == if err == OK then old(View()).(life := old(life).(running := true, phase := INITIALIZED))
                        else old(View())
    {
      hide Legal, Run;
      ghost var s := View();
      if life.phase != UNINITIALIZED {
        return INVALID_STATE;
      }
      if !created {
        return UNKNOWN;
      }
      life := life.(running := true);
      life := life.(phase := INITIALIZED);
      Record(s, Action.Init(created));
      err := OK;
    }

    method SetCallback(isNull: bool) returns (err: ErrCode)
      requires Valid()
      modifies this
      ensures Did(old(history), if err == OK then [Action.SetCallback(isNull)] else [])
      ensures err == if isNull then INVALID_VAL else if Opening(old(life.phase)) then OK else INVALID_STATE
      ensures View() == if err == OK then old(View()).(life := old(life).(cb := true, phase := CONFIGURING))
                        else old(View())
    {
      hide Legal, Run;
      ghost var s := View();
      if isNull {
        return INVALID_VAL;
      }
      if life.phase != INITIALIZED && life.phase != CONFIGURING {
        return INVALID_STATE;
      }
      life := life.(cb := true);
      life := life.(phase := CONFIGURING);
      Record(s, Action.SetCallback(isNull));
      err := OK;
    }

    method CreateInputSurface(created: bool, registered: bool) returns (ok: bool)
      requires Valid()
      modifies this
      ensures Did(old(history), if old(Opening(life.phase) && !life.inputSet) then [CreateInput(created, registered)]
              else [])
      ensures ok <==> Opening(old(life.phase)) && !old(life.inputSet) && created && registered
      ensures View() == if old(Opening(life.phase) && !life.inputSet)
                        then old(View()).(life := old(life).(inputSet := created,
                                                             phase := if ok then CONFIGURING else old(life.phase)))
                        else old(View())
    {
      hide Legal, Run;
      if life.phase != INITIALIZED && life.phase != CONFIGURING {
        return false;
      }
      if life.inputSet {
        return false;
      }
      ghost var s := View();
      life := life.(inputSet := created);
      ok := created && registered;
      if ok {
        life := life.(phase := CONFIGURING);
      }
      Record(s, CreateInput(created, registered));
    }

    /** `surface` sums up how the new surface fares: unusable, the old one, and so on. */
    method SetOutputSurface(surface: NewSurface) returns (err: ErrCode)
      requires Valid()
      modifies this
      ensures Did(old(history), [SetOutput(surface)])
      ensures err == if surface == Invalid then INVALID_VAL
                     else if Opening(old(life.phase)) && surface != ListenerFailed then OK
                     else if Active(old(life.phase)) && (surface == SameSurface || surface == Attached) then OK
                     else INVALID_STATE
      ensures queue == old(queue) && worker == old(worker) && log == old(log)
      ensures if Opening(old(life.phase)) then
                && pool == old(pool)
                && life == if err == OK then old(life).(outputSet := true, phase := CONFIGURING) else old(life)
              else if Active(old(life.phase)) && (surface == AttachFailed || surface == Attached) then
                && Recycled(old(pool.free), old(pool.flushed), pool.free)
                && pool == old(pool).(free := pool.free, flushed := map[])
                && life == if surface == Attached then old(life).(outputSet := true) else old(life)
              else life == old(life) && pool == old(pool)
    {
      hide Legal, Run;
      ghost var s := View();
      if surface == Invalid {
        err := INVALID_VAL;
      } else if life.phase == INITIALIZED || life.phase == CONFIGURING {
        err := SetFirstSurface(surface);
      } else if life.phase != RUNNING && life.phase != EOS && life.phase != FLUSHED {
        err := INVALID_STATE;
      } else {
        UserIsKeyed();
        err := ReplaceSurface(surface);
      }
      hide Recycled;
      Record(s, SetOutput(surface));
    }

    method SetFirstSurface(surface: NewSurface) returns (err: ErrCode)
      modifies this`life
      ensures life == if surface == ListenerFailed then old(life)
              else old(life).(outputSet := true, phase := CONFIGURING)
      ensures err == if surface == ListenerFailed then INVALID_STATE else OK
    {
      if surface == ListenerFailed {
        return INVALID_STATE;
      }
      life := life.(outputSet := true);
      life := life.(phase := CONFIGURING);
      err := OK;
    }

    /** The flushed buffers are reclaimed before the new surface takes the registered ones. */
    method ReplaceSurface(surface: NewSurface) returns (err: ErrCode)
      modifies this`life, this`pool
      ensures pool == if surface == AttachFailed || surface == Attached
                      then old(pool).(free := old(pool.free) + Sorted(old(pool.flushed)), flushed := map[])
                      else old(pool)
      ensures life == if surface == Attached then old(life).(outputSet := true) else old(life)
      ensures err == if surface == SameSurface || surface == Attached then OK else INVALID_STATE
      ensures KeyedBy(old(pool.flushed)) && (surface == AttachFailed || surface == Attached) ==>
                Recycled(old(pool.free), old(pool.flushed), pool.free)
    {
      if surface == SameSurface {
        return OK;
      }
      if surface != AttachFailed && surface != Attached {
        return INVALID_STATE;
      }
      var all := Reclaim(pool.free, pool.flushed);
      if KeyedBy(pool.flushed) {
        SortedIsAll(pool.free, pool.flushed);
      }
      pool := pool.(free := all, flushed := map[]);
      if surface == AttachFailed {
        return INVALID_STATE;
      }
      life := life.(outputSet := true);
      err := OK;
    }

    method Configure(outcome: Configured) returns (err: ErrCode)
      requires Valid()
      modifies this
      ensures Did(old(history), [Action.Configure(outcome)])
      ensures err == OK <==> (Opening(old(life.phase)) || old(life.phase) == STOPPED)
                             && (kind == AihdrEnhancer || outcome.Accepted?)
      ensures View() == old(View()).(life := life) && IsConfigured(kind, old(life), outcome, life)
    {
      hide Legal, Run;
      ghost var s := View();
      err := ConfigureFormat(outcome);
      Record(s, Action.Configure(outcome));
    }

    method ConfigureFormat(outcome: Configured) returns (err: ErrCode)
      modifies this`life
      ensures life == ConfigureLocked(kind, old(life), outcome) && IsConfigured(kind, old(life), outcome, life)
      ensures err == OK <==> (Opening(old(life.phase)) || old(life.phase) == STOPPED)
                             && (kind == AihdrEnhancer || outcome.Accepted?)
    {
      if life.phase != INITIALIZED && life.phase != CONFIGURING && life.phase != STOPPED {
        return INVALID_STATE;
      }
      if kind == AihdrEnhancer {
        life := life.(phase := CONFIGURING);
        return OK;
      }
      match outcome
      case Refused(touched) =>
        if touched {
          life := life.(formatSet := true);
        }
        err := INVALID_VAL;
      case Accepted =>
        life := life.(formatSet := true);
        life := life.(phase := CONFIGURING);
        err := OK;
      case Failed =>
        life := life.(formatSet := true);
        life := life.(phase := ERROR);
        err := UNKNOWN;
    }

    method SetParameter(ok: bool) returns (err: ErrCode)
      requires Valid() && kind == ColorSpaceConverter
      modifies this
      ensures Did(old(history), if err == INVALID_STATE then [] else [Action.SetParameter(ok)])
      ensures err == if old(life.phase) !in {CONFIGURED, STOPPED, RUNNING} then INVALID_STATE
                     else if ok then OK else UNKNOWN
      ensures View() == if err == UNKNOWN then old(View()).(life := old(life).(phase := ERROR)) else old(View())
    {
      hide Legal, Run;
      if life.phase != CONFIGURED && life.phase != STOPPED && life.phase != RUNNING {
        return INVALID_STATE;
      }
      ghost var s := View();
      err := OK;
      if !ok {
        life := life.(phase := ERROR);
        err := UNKNOWN;
      }
      Record(s, Action.SetParameter(ok));
    }

    method Prepare() returns (err: ErrCode)
      requires Valid()
      modifies this
      ensures Did(old(history), if err == OK then [Action.Prepare] else [])
      ensures err == if old(life.phase) == STOPPED then OK
                     else if old(life.phase) != CONFIGURING then INVALID_STATE
                     else if Complete(old(life)) && (kind == ColorSpaceConverter ==> old(life.formatSet)) then OK
                     else INVALID_OPERATION
      ensures View() == if err == OK then old(View()).(life := old(life).(phase := CONFIGURED)) else old(View())
    {
      hide Legal, Run;
      ghost var s := View();
      if life.phase != STOPPED {
        if life.phase != CONFIGURING {
          return INVALID_STATE;
        }
        if !life.cb || !life.inputSet || !life.outputSet || (kind == ColorSpaceConverter && !life.formatSet) {
          return INVALID_OPERATION;
        }
      }
      life := life.(phase := CONFIGURED);
      Record(s, Action.Prepare);
      err := OK;
    }

    method Start() returns (err: ErrCode)
      requires Valid()
      modifies this
      ensures Did(old(history), if err == OK then [Action.Start] else [])
      ensures err == OK <==> old(life.phase) in {CONFIGURED, STOPPED, FLUSHED}
      ensures View() == if err == OK
                        then old(View()).(life := old(life).(phase := if old(life.isEos) then EOS else RUNNING))
                        else old(View())
    {
      hide Legal, Run;
      ghost var s := View();
      if life.phase != CONFIGURED && life.phase != STOPPED && life.phase != FLUSHED {
        return INVALID_STATE;
      }
      if life.isEos {
        life := life.(phase := EOS);
      } else {
        life := life.(phase := RUNNING);
      }
      Record(s, Action.Start);
      err := OK;
    }

    method Stop() returns (err: ErrCode)
      requires Valid()
      modifies this
      ensures Did(old(history), if err == OK then [Action.Stop] else [])
      ensures err == OK <==> Active(old(life.phase))
      ensures View() == if err == OK then old(View()).(life := old(life).(phase := STOPPED)) else old(View())
    {
      hide Legal, Run;
      ghost var s := View();
      if life.phase != RUNNING && life.phase != EOS && life.phase != FLUSHED {
        return INVALID_STATE;
      }
      life := life.(phase := STOPPED);
      Record(s, Action.Stop);
      err := OK;
    }

    method Reset(created: bool) returns (err: ErrCode)
      requires Valid()
      modifies this
      ensures Did(old(history), if err == INVALID_STATE then [] else [Action.Reset(created)])
      ensures err == if old(life.phase) == UNINITIALIZED then INVALID_STATE else if created then OK else UNKNOWN
      ensures queue == old(queue) && pool == old(pool) && worker == old(worker)
      ensures life == if err == INVALID_STATE then old(life)
                      else if err == OK
                      then old(life).(phase := INITIALIZED, isEos := false,
                                      formatSet := old(life.formatSet) && kind != ColorSpaceConverter)
                      else old(life).(phase := INITIALIZED)
    {
      hide Legal, Run;
      if life.phase == UNINITIALIZED {
        return INVALID_STATE;
      }
      ghost var s := View();
      err := Restart(created);
      ResetIs(s, created);
      hide ResetLocked;
      Record(s, Action.Reset(created));
    }

    method Restart(created: bool) returns (err: ErrCode)
      requires life.phase != UNINITIALIZED
      modifies this`life, this`log
      ensures View() == ResetLocked(old(View()), created) && err == if created then OK else UNKNOWN
    {
      life := life.(phase := INITIALIZED);
      if !created {
        return UNKNOWN;
      }
      if kind == ColorSpaceConverter {
        life := life.(formatSet := false);
      }
      life := life.(isEos := false);
      log := log.(eosCalls := 0);
      err := OK;
    }

    method Release()
      requires Valid()
      modifies this
      ensures Did(old(history), [Action.Release])
      ensures View() == old(View()).(life := old(life).(phase := UNINITIALIZED, inputSet := false, outputSet := false,
                                                        cb := false, running := false))
    {
      hide Legal, Run;
      ghost var s := View();
      life := life.(phase := UNINITIALIZED);
      life := life.(inputSet := false);
      life := life.(outputSet := false);
      life := life.(cb := false);
      life := life.(running := false);
      Record(s, Action.Release);
    }

    method NotifyEos() returns (err: ErrCode)
      requires Valid()
      modifies this
      ensures Did(old(history), if err == OK then [Action.NotifyEos] else [])
      ensures err == OK <==> old(life.phase) == RUNNING
      ensures pool == old(pool) && worker == old(worker)
      ensures if err == OK then
                && life == old(life).(phase := EOS, isEos := true)
                && queue == old(queue) + [InBuffer(None, true, 0)]
              else life == old(life) && queue == old(queue)
    {
      hide Legal, Run;
      ghost var s := View();
      if life.phase != RUNNING {
        return INVALID_STATE;
      }
      life := life.(phase := EOS);
      life := life.(isEos := true);
      queue := queue + [InBuffer(None, true, 0)];
      log := log.(eosCalls := log.eosCalls + 1);
      Record(s, Action.NotifyEos);
      err := OK;
    }

    /** `refused` are the input buffers whose release the surface refuses. */
    method Flush(refused: set<nat>) returns (err: ErrCode)
      requires Valid()
      modifies this
      ensures Did(old(history), [Action.Flush(refused)])
      ensures err == if forall b | b in old(queue) :: b.memory.Some? && b.memory.value !in refused then OK else UNKNOWN
      ensures queue == [] && worker == old(worker)
      ensures if err == OK then
                && Recycled(old(pool.free), old(pool.user), pool.free)
                && pool == old(pool).(free := pool.free, user := map[]) && life == old(life).(phase := FLUSHED)
              else pool == old(pool) && life == old(life)
      ensures forall n: nat | FirstBlocking(old(queue), refused, n) ::
                log == old(log).(released := old(log.released) + Memories(old(queue)[..n]),
                                 lostInputs := old(log.lostInputs) + Memories(old(queue)[n..]))
    {
      hide Legal, Run;
      ghost var s := View();
      UserIsKeyed();
      var ok := FlushAll(refused);
      hide FlushLocked, Recycled;
      Record(s, Action.Flush(refused));
      err := if ok then OK else UNKNOWN;
    }

    lemma UserIsKeyed()
      requires Valid()
      ensures Keyed(pool)
    {
      InitialPool(kind);
      PoolRun(Initial(kind), history);
      hide Legal, Run;
    }

    method FlushAll(refused: set<nat>) returns (ok: bool)
      requires KeyedBy(pool.user)
      modifies this`queue, this`log, this`pool, this`life
      ensures View() == FlushLocked(old(View()), refused)
      ensures ok <==> forall b | b in old(queue) :: b.memory.Some? && b.memory.value !in refused
      ensures queue == []
      ensures if ok then
                && Recycled(old(pool.free), old(pool.user), pool.free)
                && pool == old(pool).(free := pool.free, user := map[]) && life == old(life).(phase := FLUSHED)
              else pool == old(pool) && life == old(life)
      ensures forall n: nat | FirstBlocking(old(queue), refused, n) ::
                log == old(log).(released := old(log.released) + Memories(old(queue)[..n]),
                                 lostInputs := old(log.lostInputs) + Memories(old(queue)[n..]))
    {
      hide Sorted;
      OnlyFirst(queue, refused);
      ok := FlushInput(refused);
      hide Flushable, Memories, FirstBlocking;
      if ok {
        var all := Reclaim(pool.free, pool.user);
        SortedIsAll(pool.free, pool.user);
        pool := pool.(free := all, user := map[]);
        life := life.(phase := FLUSHED);
      }
    }

    method FlushInput(refused: set<nat>) returns (ok: bool)
      modifies this`queue, this`log
      ensures var n := Flushable(old(queue), refused);
              && ok == (n == |old(queue)|)
              && queue == []
              && log == old(log).(released := old(log.released) + Memories(old(queue)[..n]),
                                  lostInputs := old(log.lostInputs) + Memories(old(queue)[n..]))
    {
      var tempQueue := queue;
      queue := [];
      ghost var q := tempQueue;
      ghost var k := 0;
      while tempQueue != []
        invariant k <= |q| && tempQueue == q[k..] && queue == []
        invariant Flushable(q, refused) == k + Flushable(q[k..], refused)
        invariant log == old(log).(released := old(log.released) + Memories(q[..k]))
        decreases |tempQueue|
      {
        var buffer := tempQueue[0];
        FlushableStep(q, k, refused);
        if buffer.memory.None? || buffer.memory.value in refused {
          assert Flushable(q, refused) == k;
          log := log.(lostInputs := log.lostInputs + Memories(tempQueue));
          return false;
        }
        tempQueue := tempQueue[1..];
        log := log.(released := log.released + Memory(buffer));
        k := k + 1;
      }
      assert k == |q| && Flushable(q, refused) == k;
      assert Memories(q[k..]) == multiset{};
      assert old(log.lostInputs) + multiset{} == old(log.lostInputs);
      ok := true;
    }

    // ---------- Buffers ----------

    method OnConsumerBufferAvailable(acquired: Option<nat>, timestamp: int)
      requires Valid()
      modifies this
      ensures Did(old(history), if old(life.running && life.inputSet && life.phase != STOPPED) && acquired.Some?
                                then [Acquire(acquired.value, timestamp)] else [])
      ensures life == old(life) && worker == old(worker)
      ensures if old(life.running && life.inputSet && life.phase != STOPPED) && acquired.Some? then
                && queue == old(queue) + [InBuffer(acquired, false, timestamp)]
                && pool == old(pool).(usageKnown := true, initPending := old(pool.initPending || !pool.usageKnown))
              else queue == old(queue) && pool == old(pool)
    {
      hide Legal, Run;
      if !life.running || !life.inputSet || life.phase == STOPPED || acquired.None? {
        return;
      }
      ghost var s := View();
      queue := queue + [InBuffer(acquired, false, timestamp)];
      if !pool.usageKnown {
        pool := pool.(usageKnown := true);
        pool := pool.(initPending := true);
      }
      log := log.(acquired := log.acquired + multiset{acquired.value});
      Record(s, Acquire(acquired.value, timestamp));
    }

    /** The worker's check before it waits: a pending pool is filled, one request after another. */
    method FillBuffers(grants: seq<Option<nat>>)
      requires Valid() && (pool.initPending ==> Allowed(View(), FillPool(grants)))
      modifies this
      ensures Did(old(history), if old(pool.initPending) then [FillPool(grants)] else [])
      ensures life == old(life) && queue == old(queue) && worker == old(worker)
      ensures pool == if old(pool.initPending && life.running && life.outputSet)
                      then old(pool).(free := old(pool.free) + Wrapped(grants),
                                      registry := old(pool.registry) + Numbers(grants), initPending := false)
                      else old(pool).(initPending := false)
    {
      hide Legal, Run;
      if !pool.initPending {
        return;
      }
      ghost var s := View();
      if life.running && life.outputSet {
        RequestAll(grants);
        log := log.(inits := log.inits + 1);
      }
      pool := pool.(initPending := false);
      hide Fill;
      Record(s, FillPool(grants));
    }

    /** InitBuffers: a refused request is skipped. */
    method RequestAll(grants: seq<Option<nat>>)
      modifies this`pool
      ensures pool == Fill(old(pool), grants)
      ensures pool == old(pool).(free := old(pool.free) + Wrapped(grants),
                                 registry := old(pool.registry) + Numbers(grants))
    {
      for i := 0 to |grants|
        invariant pool == Fill(old(pool), grants[..i])
        invariant pool == old(pool).(free := old(pool.free) + Wrapped(grants[..i]),
                                     registry := old(pool.registry) + Numbers(grants[..i]))
      {
        assert grants[..i + 1][..i] == grants[..i];
        if grants[i].Some? {
          var id := grants[i].value;
          pool := pool.(free := pool.free + [OutBuffer(id, false, 0)], registry := pool.registry + {id});
        }
      }
      assert grants[..|grants|] == grants;
    }

    method AcquireInputOutputBuffers() returns (got: bool)
      requires Valid() && worker.Idle? && kind != MetadataGenerator
      modifies this
      ensures Did(old(history), if got then [Fetch] else [])
      ensures got == old(life.running && queue != [] && pool.free != []) && (got <==> worker.Busy?)
      ensures View() == if got
                        then old(View()).(worker := Busy(old(queue)[0], old(pool.free)[0]), queue := old(queue)[1..],
                                          pool := old(pool).(free := old(pool.free)[1..]))
                        else old(View())
    {
      hide Legal, Run;
      if !life.running || |queue| == 0 || |pool.free| == 0 {
        return false;
      }
      ghost var s := View();
      worker := Busy(queue[0], pool.free[0]);
      queue := queue[1..];
      pool := pool.(free := pool.free[1..]);
      Record(s, Fetch);
      got := true;
    }

    /** One round of the worker's loop; `ok` is the outcome of the pixel algorithm. */
    method DoTask(ok: bool)
      requires Valid() && worker.Busy?
      modifies this
      ensures Did(old(history), [Finish(ok)]) && worker.Idle?
      ensures life == old(life) && queue == old(queue)
      ensures pool == old(pool).(free := pool.free, user := pool.user)
      ensures var src, dst := old(worker).src, old(worker).dst;
              var out := if !src.eos then dst.(timestamp := src.timestamp)
                         else if kind == ColorSpaceConverter then dst.(eos := true) else dst;
              if src.eos || ok then
                && pool.free == old(pool.free) && pool.user == old(pool.user)[dst.id := out]
                && log.announced == old(log.announced)
                   + (if life.cb then [Announcement(dst.id, src.eos || dst.eos, src.eos)] else [])
              else
                && pool.free == old(pool.free) + [out] && pool.user == old(pool.user)
                && log.announced == old(log.announced)
      ensures log.released == old(log.released) + (if old(worker).src.eos then multiset{} else Memory(old(worker).src))
    {
      hide Legal, Run;
      ghost var s := View();
      var src, dst := worker.src, worker.dst;
      NotYetWithUser();
      worker := Idle;
      if src.eos {
        if kind == ColorSpaceConverter {
          dst := dst.(eos := true);
        }
        AddToUser(dst);
        Tell(dst.id, true, true);
      } else {
        dst := dst.(timestamp := src.timestamp);
        log := log.(released := log.released + Memory(src));
        if ok {
          AddToUser(dst);
          Tell(dst.id, dst.eos, false);
        } else {
          pool := pool.(free := pool.free + [dst]);
        }
      }
      Record(s, Finish(ok));
    }

    /** What the worker has in hand is nowhere else, so emplace does not find it. */
    lemma NotYetWithUser()
      requires Valid() && worker.Busy?
      ensures worker.dst.id !in pool.user
    {
      InitialPool(kind);
      PoolRun(Initial(kind), history);
      Counted(View(), worker.dst.id);
      hide Legal, Run, FreeCount, PoolInv;
    }

    method AddToUser(buffer: OutBuffer)
      modifies this`pool
      ensures pool == old(pool).(user := Emplace(old(pool.user), buffer))
    {
      if buffer.id !in pool.user {
        pool := pool.(user := pool.user[buffer.id := buffer]);
      }
    }

    method Tell(id: nat, flag: bool, frame: bool)
      modifies this`log
      ensures log == old(Announce(View(), id, flag, frame))
    {
      if life.cb {
        log := log.(announced := log.announced + [Announcement(id, flag, frame)]);
      }
    }

    /** ReleaseOutputBuffer up to the point where it works on the buffer alone. */
    method TakeOutputBuffer(index: nat) returns (err: ErrCode)
      requires Valid()
      modifies this
      ensures Did(old(history), if err == OK then [Take(index)] else [])
      ensures err == if old(life.phase) !in {RUNNING, EOS} then INVALID_STATE
                     else if index in old(pool.user) then OK else INVALID_PARAM
      ensures life == old(life) && queue == old(queue) && worker == old(worker)
      ensures pool == if err != OK then old(pool)
                      else if kind == ColorSpaceConverter && old(pool.user)[index].eos
                      then old(pool).(user := old(pool.user) - {index})
                      else old(pool).(user := old(pool.user) - {index},
                                      inHand := old(pool.inHand)[index := old(pool.user)[index]])
    {
      hide Legal, Run;
      if life.phase != RUNNING && life.phase != EOS {
        return INVALID_STATE;
      }
      if index !in pool.user {
        return INVALID_PARAM;
      }
      ghost var s := View();
      var buffer := pool.user[index];
      pool := pool.(user := pool.user - {index});
      if kind == ColorSpaceConverter && buffer.eos {
        log := log.(lost := log.lost + multiset{index});
      } else {
        pool := pool.(inHand := pool.inHand[index := buffer]);
      }
      Record(s, Take(index));
      err := OK;
    }

    /** What a caller works on is nowhere else, and stands under its own number. */
    lemma NotYetFlushed(index: nat)
      requires Valid() && index in pool.inHand
      ensures index !in pool.flushed && pool.inHand[index].id == index
    {
      UserIsKeyed();
      InitialPool(kind);
      PoolRun(Initial(kind), history);
      Counted(View(), index);
      hide Legal, Run, FreeCount, PoolInv;
    }

    /** The rest of ReleaseOutputBuffer; `flushed` is the surface's answer to FlushBuffer. */
    method FinishOutputBuffer(index: nat, render: bool, flushed: bool) returns (err: ErrCode)
      requires Valid() && index in pool.inHand
      modifies this
      ensures Did(old(history), [if render then Flushed(index, flushed) else Action.GiveBack(index)])
      ensures err == if render && old(life.outputSet) && !flushed then UNKNOWN else OK
      ensures life == old(life) && queue == old(queue) && worker == old(worker)
      ensures var buffer, rest := old(pool.inHand)[index], old(pool).(inHand := old(pool.inHand) - {index});
              if !render then pool == rest.(free := old(pool.free) + [buffer]) && log == old(log)
              else if life.outputSet && flushed then
                pool == rest.(flushed := old(pool.flushed)[index := buffer]) && log == old(log)
              else pool == rest && log == old(log).(lost := old(log.lost) + multiset{index})
    {
      hide Legal, Run;
      ghost var s := View();
      NotYetFlushed(index);
      var buffer := pool.inHand[index];
      pool := pool.(inHand := pool.inHand - {index});
      err := OK;
      if !render {
        pool := pool.(free := pool.free + [buffer]);
        Record(s, Action.GiveBack(index));
        return;
      }
      if !life.outputSet || !flushed {
        log := log.(lost := log.lost + multiset{index});
        err := if life.outputSet then UNKNOWN else OK;
      } else if buffer.id !in pool.flushed {
        pool := pool.(flushed := pool.flushed[buffer.id := buffer]);
      }
      Record(s, Flushed(index, flushed));
    }

    method OnProducerBufferReleased(granted: Option<nat>)
      requires Valid()
      requires granted.Some? ==> Allowed(View(), BufferReturned(granted.value))
      modifies this
      ensures Did(old(history), if old(life.outputSet && pool.flushed != map[]) && granted.Some?
                                then [BufferReturned(granted.value)] else [])
      ensures life == old(life) && queue == old(queue) && worker == old(worker)
      ensures if old(life.outputSet && pool.flushed != map[]) && granted.Some?
              then TakenBack(old(pool), pool, granted.value) else pool == old(pool)
    {
      hide Legal, Run;
      if !life.outputSet || pool.flushed == map[] || granted.None? {
        return;
      }
      FlushedAreKnown();
      ghost var s := View();
      TakeBack(granted.value);
      hide Returned, TakenBack;
      Record(s, BufferReturned(granted.value));
    }

    method TakeBack(id: nat)
      requires pool.flushed != map[] && (id in pool.flushed || id !in pool.registry)
      requires id in pool.flushed ==> id in pool.registry
      modifies this`pool
      ensures old(life.outputSet) ==> View() == Returned(old(View()), id)
      ensures TakenBack(old(pool), pool, id)
    {
      ghost var flushed := pool.flushed;
      if id !in pool.registry {
        assert flushed - {id} == flushed;
      }
      pool := pool.(free := pool.free + [OutBuffer(id, false, 0)]);
      pool := pool.(flushed := pool.flushed - {id});
      if id !in pool.registry {
        pool := pool.(registry := pool.registry + {id});
        if pool.flushed != map[] {
          var first := Least(pool.flushed.Keys);
          assert first in flushed && forall k | k in flushed :: first <= k;
          pool := pool.(registry := pool.registry - {first});
          pool := pool.(flushed := pool.flushed - {first});
        }
      }
    }

    lemma FlushedAreKnown()
      requires Valid()
      ensures forall id | id in pool.flushed :: id in pool.registry
    {
      InitialPool(kind);
      PoolRun(Initial(kind), history);
      forall id | id in pool.flushed
        ensures id in pool.registry
      {
        Counted(View(), id);
      }
      hide Legal, Run, FreeCount, PoolInv;
    }
  }

  /** What every valid object can be relied on for, whoever called what. */
  lemma ObjectKeepsPool(v: PoolVideoImpl)
    requires v.Valid()
    ensures forall id :: Places(v.View(), id) == if id in v.pool.registry then 1 else 0
    ensures v.log.inits <= 1 && |v.pool.registry| <= BUFFER_COUNT
    ensures v.log.acquired == v.log.released + Memories(v.queue) + Hand(v.worker) + v.log.lostInputs
    ensures v.life.phase == RUNNING ==> !v.life.isEos
    ensures v.log.eosCalls <= 1
  {
    assert Run(v.View(), []) == v.View() && Legal(v.View(), []);
    OutputBuffersConserved(v.kind, v.history, []);
    InputBuffersAccounted(v.kind, v.history);
    EosOncePerReset(v.kind, v.history);
  }
}
