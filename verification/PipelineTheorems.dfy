/** The promises of the frame pipeline, for every run from the start. */
module PipelineTheorems {
  import opened Basics
  import opened Buffers
  import opened ProducerCache
  import opened PipelineSpec
  import opened PipelineInvariant
  import opened Histories
  import opened PipelineHistory

  /** Every acquired input buffer that was not released yet is in exactly one place: the consumer
      queue, the worker's hand, the attach queue, a drain in progress, or among the frames a dying
      worker dropped; there is at most one of the latter per Deinitialize. */
  lemma InputBuffersOwnedOnce(actions: seq<Action>)
    requires Legal(Initial, actions)
    ensures var s, steps := Run(Initial, actions), Steps(Initial, actions);
            && s.log.acquired == Ids(Collect(steps, Arrived))
            && (forall id ::
                  s.log.acquired[id]
                  == s.log.released[id] + Queued(s.input)[id] + Hand(s.worker)[id] + s.log.dropped[id])
            && (forall id :: Queued(s.input)[id] + Hand(s.worker)[id] + s.log.dropped[id] <= 1)
            && (forall id :: s.log.acquired[id] > s.log.released[id] ==> id in s.log.held)
            && s.input.attachIds == IdSet(s.input.attachQueue)
            && |s.log.dropped| <= |Collect(steps, Deinitialized)|
  {
    InitialInv();
    InvRun(Initial, actions);
    OwnedOnce(Run(Initial, actions));
    hide Inv, Run, Legal, Apply;
    HistoryIsTrue(actions);
  }

  lemma OwnedOnce(s: State)
    requires Inv(s)
    ensures forall id ::
              s.log.acquired[id]
              == s.log.released[id] + Queued(s.input)[id] + Hand(s.worker)[id] + s.log.dropped[id]
    ensures forall id :: Queued(s.input)[id] + Hand(s.worker)[id] + s.log.dropped[id] <= 1
    ensures forall id :: s.log.acquired[id] > s.log.released[id] ==> id in s.log.held
    ensures s.input.attachIds == IdSet(s.input.attachQueue) && |s.log.dropped| <= s.life.deaths
  {
    hide LifeInv, OrderInv, OutputInv, AnnounceInv, Queued, Hand;
    forall id
      ensures Tracked(s)[id] <= multiset(s.log.held)[id] <= 1
    {
    }
  }

  lemma {:induction false} RunMore(s: State, actions: seq<Action>, a: Action)
    requires Legal(s, actions) && Allowed(Run(s, actions), a)
    ensures Legal(s, actions + [a]) && Run(s, actions + [a]) == Apply(Run(s, actions), a)
    decreases |actions|
  {
    if actions == [] {
      assert [] + [a] == [a];
      assert Run(Apply(s, a), []) == Apply(s, a);
    } else {
      assert (actions + [a])[1..] == actions[1..] + [a];
      RunMore(Apply(s, actions[0]), actions[1..], a);
    }
  }

  /** When Deinitialize returns, everything ever acquired has been released, but for the dropped
      frames, the pipeline is idle, and every RUNNING report has been answered. */
  lemma DeinitializeSettles(actions: seq<Action>)
    requires Legal(Initial, actions + [EndDeinit])
    ensures var s := Run(Initial, actions + [EndDeinit]);
            && s.log.acquired == s.log.released + s.log.dropped
            && |s.log.dropped| <= s.life.deaths
            && s.life.phase == IDLE
            && |s.life.reports| % 2 == 0
            && Alternates(s.life.reports)
  {
    RunSnoc(Initial, actions, EndDeinit);
    InitialInv();
    InvRun(Initial, actions);
    InvRun(Initial, actions + [EndDeinit]);
    var before := Run(Initial, actions);
    assert before.life.leaving == Clearing && before.input.draining == [];
    assert before.worker == Parked;
    var s := Run(Initial, actions + [EndDeinit]);
    assert s == EndLeaving(before);
    assert Queued(s.input) == multiset{};
    assert Tracked(s) == s.log.dropped;
  }

  /** No step of the run drops a frame. */
  ghost predicate NeverDrops(s: State, actions: seq<Action>)
    requires Legal(s, actions)
    decreases |actions|
  {
    actions == [] || (!Drops(s, actions[0]) && NeverDrops(Apply(s, actions[0]), actions[1..]))
  }

  lemma {:induction false} DroppedIff(s: State, actions: seq<Action>)
    requires Inv(s) && Legal(s, actions)
    ensures |Run(s, actions).log.dropped| >= |s.log.dropped|
    ensures |Run(s, actions).log.dropped| == |s.log.dropped| <==> NeverDrops(s, actions)
    decreases |actions|
  {
    if actions != [] {
      InvStep(s, actions[0]);
      DropIff(s, actions[0]);
      DroppedIff(Apply(s, actions[0]), actions[1..]);
    }
  }

  /** That everything acquired has been released when Deinitialize returns holds exactly for the runs in which
      the worker never found the processor dead with a frame to bypass in its hand. */
  lemma DeinitializeReleasesAllIff(actions: seq<Action>)
    requires Legal(Initial, actions + [EndDeinit])
    ensures var s := Run(Initial, actions + [EndDeinit]);
            s.log.acquired == s.log.released <==> NeverDrops(Initial, actions + [EndDeinit])
  {
    InitialInv();
    DeinitializeSettles(actions);
    DroppedIff(Initial, actions + [EndDeinit]);
    var log := Run(Initial, actions + [EndDeinit]).log;
    assert |log.acquired| == |log.released| + |log.dropped|;
    if |log.dropped| == 0 {
      assert log.released + multiset{} == log.released;
    }
  }

  /** Announcements are an in-order selection of the frames and end-of-stream markers that came in: the positions
      increase strictly, each carries its own flag and the timestamp with which the surface delivered it; and
      what waits in the consumer queue is the tail of what came in. */
  lemma FramesAnnouncedInOrder(actions: seq<Action>)
    requires Legal(Initial, actions)
    ensures var s, frames := Run(Initial, actions), Collect(Steps(Initial, actions), Arrived);
            var log := s.log;
            && |log.announced| == |log.announcedAt|
            && (forall i, j | 0 <= i < j < |log.announced| :: log.announcedAt[i] < log.announcedAt[j])
            && (forall k | 0 <= k < |log.announced| ::
                  && log.announcedAt[k] < |frames|
                  && log.announced[k].eos == frames[log.announcedAt[k]].eos
                  && log.announced[k].timestamp == frames[log.announcedAt[k]].timestamp)
            && |s.input.queue| <= |frames| && s.input.queue == frames[|frames| - |s.input.queue|..]
  {
    InitialInv();
    InvRun(Initial, actions);
    HistoryIsTrue(actions);
    var log := Run(Initial, actions).log;
    assert forall k | 0 <= k < |log.announced| :: Announces(log.announced[k], log.pushed[log.announcedAt[k]]);
  }

  /** An index can be looked up as often as it was announced, counting the announcement the worker is about to
      make; an index still in the render map has one such use left. */
  lemma IndicesAreOneShot(actions: seq<Action>)
    requires Legal(Initial, actions)
    ensures var s, lookups := Run(Initial, actions), Collect(Steps(Initial, actions), LookedUp);
            && (forall k | k in s.output.render :: s.output.render[k].seqNum == Some(k))
            && (forall k :: multiset(lookups)[k] + (if k in s.output.render then 1 else 0)
                            <= Indices(s.log.announced)[k] + Pending(s.worker)[k])
  {
    InitialInv();
    InvRun(Initial, actions);
    HistoryIsTrue(actions);
    var s := Run(Initial, actions);
    forall k
      ensures s.log.rendered[k] + (if k in s.output.render then 1 else 0)
              <= Indices(s.log.announced)[k] + Pending(s.worker)[k]
    {
      assert (s.log.rendered + multiset(s.output.render.Keys))[k] <= s.log.puts[k];
      assert multiset(s.output.render.Keys)[k] == if k in s.output.render then 1 else 0;
    }
  }

  /** RUNNING and STOPPED strictly alternate, starting with RUNNING, and the pipeline is idle exactly
      when no RUNNING is unanswered. */
  lemma ReportsAlternate(actions: seq<Action>)
    requires Legal(Initial, actions)
    ensures var life := Run(Initial, actions).life;
            && (forall i | 0 <= i < |life.reports| ::
                  life.reports[i] == if i % 2 == 0 then ReportRunning else ReportStopped)
            && (life.phase == IDLE <==> |life.reports| % 2 == 0)
  {
    InitialInv();
    InvRun(Initial, actions);
  }

  /** The guards against null buffers never fire, and the search for an attached buffer always
      ends at that buffer. */
  lemma GuardsNeverFire(actions: seq<Action>)
    requires Legal(Initial, actions)
    ensures var s := Run(Initial, actions);
            && (forall info | info in s.input.queue :: info.seqNum.None? <==> info.eos)
            && AllReal(s.output.queue) && AllReal(s.output.flushQueue) && AllReal(s.input.attachQueue)
            && (forall id | id in s.input.attachIds ::
                  var n := PopCount(s.input.attachQueue, id);
                  n > 0 && s.input.attachQueue[n - 1].seqNum == Some(id))
            && (Queued(s.input) != multiset{} ==> s.life.consumer)
  {
    InitialInv();
    InvRun(Initial, actions);
    var s := Run(Initial, actions);
    assert forall info | info in s.input.queue :: Frame(info);
  }

  // ---------- Buffers coming back from the output surface ----------

  /** The number by which the flush queue is popped is that of the returned buffer exactly in bypass mode, or
      when nothing or that very buffer stands first in the attach queue. */
  lemma RequestedKeyIff(s: State, r: Info)
    requires Inv(s) && r.seqNum.Some?
    ensures RequestedKey(s, r) == r.seqNum.value <==>
              !s.life.enabled || s.input.attachQueue == [] || s.input.attachQueue[0].seqNum == r.seqNum
  {
    var q := s.input.attachQueue;
    if s.life.enabled {
      assert q != [] ==> q[0] in q;
    } else if r.seqNum.value in s.input.attachIds {
      var n := PopCount(q, r.seqNum.value);
      assert n > 0 && q[n - 1].seqNum == r.seqNum;
    }
  }

  /** `id` occurs before the last entry. */
  predicate InFront(q: seq<Info>, id: nat) {
    q != [] && id in IdSet(q[..|q| - 1])
  }

  lemma PopCountFull(q: seq<Info>, id: nat)
    ensures PopCount(q, id) == |q| <==> !InFront(q, id)
  {
    var n := PopCount(q, id);
    if n < |q| {
      assert q[n - 1].seqNum == Some(id) && q[n - 1] in q[..|q| - 1];
    }
  }

  lemma PopCountSame(q: seq<Info>, a: nat, b: nat)
    ensures PopCount(q, a) == PopCount(q, b) <==> a == b || (!InFront(q, a) && !InFront(q, b))
  {
    PopCountFull(q, a);
    PopCountFull(q, b);
  }

  /** The flush queue loses what was flushed up to the returned buffer, as it should, exactly when it is popped
      by that buffer's number or neither number stands before its last entry; popped by a number that it does
      not hold, it is lost whole. */
  lemma FlushQueueAfterReturnIff(s: State, r: Info, order: seq<nat>, refused: set<nat>)
    requires Inv(s) && r.seqNum.Some? && s.life.producer && s.life.hasConsumer
    ensures var q, id, key := s.output.flushQueue, r.seqNum.value, RequestedKey(s, r);
            var left := BufferReleased(s, r, order, refused).output.flushQueue;
            && (left == q[PopCount(q, id)..] <==> key == id || (!InFront(q, id) && !InFront(q, key)))
            && (key !in IdSet(q) ==> left == [])
  {
    var q, id, key := s.output.flushQueue, r.seqNum.value, RequestedKey(s, r);
    var left := BufferReleased(s, r, order, refused).output.flushQueue;
    assert left == q[PopCount(q, key)..];
    PopCountSame(q, id, key);
    assert |left| == |q| - PopCount(q, key);
  }

  // ---------- Surface swap ----------

  lemma {:induction false} DistinctAtMost(q: seq<Info>)
    ensures |IdSet(q)| <= |q|
  {
    if q == [] {
      assert IdSet(q) == {};
    } else {
      var init := q[..|q| - 1];
      var last := q[|q| - 1];
      DistinctAtMost(init);
      assert q == init + [last];
      var all := if last.seqNum.Some? then IdSet(init) + {last.seqNum.value} else IdSet(init);
      assert IdSet(q) <= all;
      SubsetSize(IdSet(q), all);
    }
  }

  lemma {:induction false} MissingCovers(cache: Cache, ids: set<nat>, order: seq<nat>)
    requires Keyed(cache)
    ensures forall k | k in order && k in cache && k !in ids :: cache[k] in Missing(cache, ids, order)
    ensures forall e | e in Missing(cache, ids, order) ::
              e.seqNum.Some? && e.seqNum.value in cache && cache[e.seqNum.value] == e && e.seqNum.value !in ids
    ensures |Missing(cache, ids, order)| <= |order|
  {
    if order != [] {
      var init := order[..|order| - 1];
      MissingCovers(cache, ids, init);
      assert order == init + [order[|order| - 1]];
    }
  }

  /** After a successful swap the flush queue is empty; the producer queue is the old real producer
      entries, then the old real flush entries, then cache entries whose numbers were in neither;
      and producer queue plus render map are at least as many as the cache. */
  lemma SwapKeepsEnoughBuffers(o: Output, order: seq<nat>)
    requires Keyed(o.cache) && IsOrder(order, o.cache)
    ensures var r := Refresh(o, order);
            var kept := Real(o.queue) + Real(o.flushQueue);
            && r.flushQueue == [] && r.render == o.render && r.cache == o.cache
            && kept <= r.queue
            && (forall e | e in r.queue[|kept|..] ::
                  e.seqNum.Some? && e.seqNum.value in o.cache && o.cache[e.seqNum.value] == e
                      && e.seqNum.value !in IdSet(kept))
            && (|kept| + |o.render| >= |o.cache| ==> r.queue == kept)
            && (|kept| + |o.render| < |o.cache| ==> o.cache.Keys <= IdSet(r.queue))
            && |r.queue| + |r.render| >= |r.cache|
  {
    var kept := Real(o.queue) + Real(o.flushQueue);
    var added := Missing(o.cache, IdSet(kept), order);
    MissingCovers(o.cache, IdSet(kept), order);
    var r := Refresh(o, order);
    if |kept| + |o.render| < |o.cache| {
      assert r.queue == kept + added;
      assert r.queue[|kept|..] == added;
      forall k | k in o.cache.Keys
        ensures k in IdSet(r.queue)
      {
        if k in IdSet(kept) {
          var e :| e in kept && e.seqNum == Some(k);
          assert e in r.queue;
        } else {
          assert o.cache[k] in added;
          assert o.cache[k] in r.queue;
        }
      }
      SubsetSize(o.cache.Keys, IdSet(r.queue));
      DistinctAtMost(r.queue);
    }
  }

  lemma {:induction false} RealIsAll(q: seq<Info>)
    requires AllReal(q)
    ensures Real(q) == q
  {
    if q != [] {
      assert q[|q| - 1] in q && forall e | e in q[..|q| - 1] :: e in q;
      RealIsAll(q[..|q| - 1]);
    }
  }

  lemma {:induction false} MissingOnce(cache: Cache, ids: set<nat>, order: seq<nat>, k: nat)
    requires Keyed(cache)
    ensures Ids(Missing(cache, ids, order))[k] == if k in cache && k !in ids then multiset(order)[k] else 0
  {
    if order != [] {
      var init, last := order[..|order| - 1], order[|order| - 1];
      MissingOnce(cache, ids, init, k);
      assert multiset(order) == multiset(init) + multiset{last} by {
        assert order == init + [last];
      }
      var more := if last in cache && last !in ids then [cache[last]] else [];
      IdsAppend(Missing(cache, ids, init), more);
      assert Ids(more)[k] == if last in cache && last !in ids && last == k then 1 else 0 by {
        if more != [] {
          IdsOne(cache[last]);
        }
      }
      assert Missing(cache, ids, order) == Missing(cache, ids, init) + more;
      hide Missing, Ids, Keyed;
    }
  }

  /** The producer queue holds what it held, then what was flushed, in order; and when these and the render map are
      fewer than the cache, then every cached buffer that is in neither queue, once. */
  ghost predicate Refilled(before: Output, after: Output) {
    var kept := before.queue + before.flushQueue;
    && after == before.(queue := after.queue, flushQueue := []) && kept <= after.queue
    && (|kept| + |before.render| >= |before.cache| ==> after.queue == kept)
    && (|kept| + |before.render| < |before.cache| ==>
          && Ids(after.queue[|kept|..]) == multiset(before.cache.Keys - IdSet(kept))
          && forall e | e in after.queue[|kept|..] ::
               e.seqNum.Some? && e.seqNum.value in before.cache && before.cache[e.seqNum.value] == e)
  }

  lemma SwapRefills(o: Output, order: seq<nat>)
    requires Keyed(o.cache) && IsOrder(order, o.cache) && AllReal(o.queue) && AllReal(o.flushQueue)
    ensures Refilled(o, Refresh(o, order))
  {
    var kept := o.queue + o.flushQueue;
    RealIsAll(o.queue);
    RealIsAll(o.flushQueue);
    var added := Missing(o.cache, IdSet(kept), order);
    MissingCovers(o.cache, IdSet(kept), order);
    forall k
      ensures Ids(added)[k] == multiset(o.cache.Keys - IdSet(kept))[k]
    {
      MissingOnce(o.cache, IdSet(kept), order, k);
      OrderCounts(order, k);
    }
    assert (kept + added)[|kept|..] == added;
  }
}
