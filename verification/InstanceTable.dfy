/** The fixed table of algorithm instances that the C API addresses by number. */
module InstanceTable {
  import opened Basics

  /** The slot `d` places after `start`, going round at the end; `d` is at most one round. */
  function At(max: nat, start: nat, d: nat): nat {
    if start + d < max then start + d else start + d - max
  }

  /** Where a search with this cursor begins. */
  function Begin(cursor: nat, max: nat): nat {
    if cursor == max then 0 else cursor
  }

  /** The first empty slot at distance `d` or more from `start`, within one round. */
  function Probe<T>(slots: seq<Option<T>>, start: nat, d: nat): (r: Option<nat>)
    requires start < |slots| && d <= |slots|
    ensures r.Some? ==> r.value < |slots|
    decreases |slots| - d
  {
    if d == |slots| then None
    else if slots[At(|slots|, start, d)].None? then Some(At(|slots|, start, d))
    else Probe(slots, start, d + 1)
  }

  /** The probe finds nothing exactly when every slot is taken; otherwise it finds an empty slot, and all
      slots between the start and it, in cyclic order, are taken. */
  lemma {:induction false} ProbeFindsFirst<T>(slots: seq<Option<T>>, start: nat, d: nat)
    requires start < |slots| && d <= |slots|
    ensures var r := Probe(slots, start, d);
            match r
            case None => forall e: nat | d <= e < |slots| :: slots[At(|slots|, start, e)].Some?
            case Some(i) =>
              && slots[i].None?
              && exists e: nat :: && d <= e < |slots| && i == At(|slots|, start, e)
                                  && forall k: nat | d <= k < e :: slots[At(|slots|, start, k)].Some?
    decreases |slots| - d
  {
    if d < |slots| {
      if slots[At(|slots|, start, d)].Some? {
        ProbeFindsFirst(slots, start, d + 1);
      } else {
        assert Probe(slots, start, d) == Some(At(|slots|, start, d));
      }
    }
  }

  lemma ProbeFailsWhenFull<T>(slots: seq<Option<T>>, start: nat)
    requires start < |slots|
    ensures Probe(slots, start, 0) == None <==> forall i | 0 <= i < |slots| :: slots[i].Some?
  {
    ProbeFindsFirst(slots, start, 0);
    if Probe(slots, start, 0) == None {
      forall i | 0 <= i < |slots|
        ensures slots[i].Some?
      {
        var d := if start <= i then i - start else i - start + |slots|;
        assert At(|slots|, start, d) == i;
      }
    }
  }

  /** The slot that a search from `cursor` tries in its e-th attempt. */
  function Nth(cursor: nat, e: nat, max: nat): nat
    requires max > 0
  {
    (cursor + e) % max
  }

  lemma ProductOf(q: int, max: nat)
    ensures q <= 0 ==> q * max <= 0
    ensures q >= 2 ==> q * max >= 2 * max
  {
    if q >= 2 {
      assert q * max == 2 * max + (q - 2) * max;
    }
  }

  lemma QuotientIsOne(n: nat, q: int, r: nat, max: nat)
    requires r < max <= n < 2 * max && n == q * max + r
    ensures q == 1
  {
    ProductOf(q, max);
  }

  lemma WrapsOnce(n: nat, max: nat)
    requires max > 0 && n < 2 * max
    ensures n % max == if n < max then n else n - max
  {
    if n >= max {
      QuotientIsOne(n, n / max, n % max, max);
    }
  }

  lemma NthIsAt(cursor: nat, e: nat, max: nat)
    requires max > 0 && cursor <= max && e < max
    ensures Nth(cursor, e, max) == At(max, Begin(cursor, max), e)
  {
    WrapsOnce(cursor + e, max);
  }

  /** In its e-th attempt the search from `cursor` finds an empty slot, and before it only taken ones. */
  predicate FindsAt<T>(slots: seq<Option<T>>, cursor: nat, e: nat) {
    && e < |slots| && slots[Nth(cursor, e, |slots|)].None?
    && forall k: nat | k < e :: slots[Nth(cursor, k, |slots|)].Some?
  }

  /** The search in terms of the table and the cursor alone. */
  lemma ProbeFromCursor<T>(slots: seq<Option<T>>, cursor: nat)
    requires 0 < |slots| && cursor <= |slots|
    ensures var r := Probe(slots, Begin(cursor, |slots|), 0);
            && (r == None <==> forall i | 0 <= i < |slots| :: slots[i].Some?)
            && (r.Some? ==> exists e: nat :: FindsAt(slots, cursor, e) && r.value == Nth(cursor, e, |slots|))
  {
    var start := Begin(cursor, |slots|);
    ProbeFailsWhenFull(slots, start);
    ProbeFindsFirst(slots, start, 0);
    var r := Probe(slots, start, 0);
    forall e: nat | e < |slots|
      ensures Nth(cursor, e, |slots|) == At(|slots|, start, e)
    {
      NthIsAt(cursor, e, |slots|);
    }
    if r.Some? {
      var e: nat :| e < |slots| && r.value == At(|slots|, start, e)
                    && forall k: nat | k < e :: slots[At(|slots|, start, k)].Some?;
      assert FindsAt(slots, cursor, e);
    }
  }

  /** One turn of the search loop: wrap at the end, then move on. */
  function Advance(cursor: nat, max: nat): nat {
    (if cursor == max then 0 else cursor) + 1
  }

  function Turns(cursor: nat, max: nat, n: nat): nat {
    if n == 0 then cursor else Advance(Turns(cursor, max, n - 1), max)
  }

  /** Why the history of the cursor matters: a search that starts from 0 and finds no empty slot would
      never be back at 0, while any other start is reached again after one round. */
  lemma {:induction false} BackAtStartIff(cursor: nat, max: nat)
    requires 0 < max && cursor <= max
    ensures (exists n :: n > 0 && Turns(cursor, max, n) == cursor) <==> cursor != 0
  {
    forall n | n > 0
      ensures Turns(cursor, max, n) != 0
    {
    }
    if cursor != 0 {
      TurnsUp(cursor, max, max - cursor);
      TurnsDown(cursor, max, cursor);
      assert Turns(cursor, max, max) == cursor;
    }
  }

  lemma {:induction false} TurnsUp(cursor: nat, max: nat, n: nat)
    requires cursor + n <= max
    ensures Turns(cursor, max, n) == cursor + n
  {
    if n > 0 {
      TurnsUp(cursor, max, n - 1);
    }
  }

  lemma {:induction false} TurnsDown(cursor: nat, max: nat, n: nat)
    requires 0 < max && cursor <= max && 0 < n <= max
    ensures Turns(cursor, max, max - cursor + n) == n
  {
    if n == 1 {
      TurnsUp(cursor, max, max - cursor);
    } else {
      TurnsDown(cursor, max, n - 1);
    }
  }

  class ExtensionManager<T(0)> {
    const instanceList: array<Option<T>>
    var currentId: nat

    /** The cursor is 0 only as long as no instance was ever put in. */
    ghost predicate Valid()
      reads this, instanceList
    {
      && 0 < instanceList.Length
      && currentId <= instanceList.Length
      && (currentId == 0 ==> forall i | 0 <= i < instanceList.Length :: instanceList[i].None?)
    }

    constructor (max: nat)
      requires 0 < max
      ensures Valid() && fresh(instanceList) && instanceList.Length == max && currentId == 0
    {
      instanceList := new Option<T>[max](i => None);
      currentId := 0;
    }

    /** Fills the first empty slot in cyclic order from the cursor, or reports that there is none. */
    method NewInstanceId(instance: T) returns (id: int)
      requires Valid()
      modifies this`currentId, instanceList
      ensures Valid()
      ensures match Probe(old(instanceList[..]), Begin(old(currentId), instanceList.Length), 0)
              case None => id == -1 && instanceList[..] == old(instanceList[..]) && currentId == old(currentId)
              case Some(i) =>
                id == i && instanceList[..] == old(instanceList[..])[i := Some(instance)] && currentId == i + 1
      ensures id == -1 <==> forall i | 0 <= i < instanceList.Length :: old(instanceList[..])[i].Some?
      ensures id == -1 ==> instanceList[..] == old(instanceList[..]) && currentId == old(currentId)
      ensures id != -1 ==>
                && (exists e: nat :: FindsAt(old(instanceList[..]), old(currentId), e)
                                     && id == Nth(old(currentId), e, instanceList.Length))
                && instanceList[..] == old(instanceList[..])[id := Some(instance)] && currentId == id + 1
    {
      ProbeFromCursor(instanceList[..], currentId);
      hide FindsAt, Nth;
      var max := instanceList.Length;
      var newId := currentId;
      ghost var slots := instanceList[..];
      ghost var start := Begin(currentId, max);
      ghost var d := 0;
      while true
        invariant 0 <= d < max && currentId <= max && newId == old(currentId)
        invariant instanceList[..] == slots
        invariant d == 0 ==> currentId == newId
        invariant d > 0 ==> currentId == At(max, start, d - 1) + 1 && newId > 0
        invariant Probe(slots, start, 0) == Probe(slots, start, d)
        decreases max - d
      {
        currentId := if currentId == max then 0 else currentId;
        assert currentId == At(max, start, d);
        assert slots[currentId] == instanceList[currentId];
        if instanceList[currentId].None? {
          instanceList[currentId] := Some(instance);
          id := currentId;
          currentId := currentId + 1;
          return;
        }
        currentId := currentId + 1;
        d := d + 1;
        if currentId == newId {
          return -1;
        }
      }
    }

    method RemoveInstanceReference(id: int) returns (ok: bool, newId: int)
      requires Valid()
      modifies instanceList
      ensures Valid()
      ensures ok <==> 0 <= id < instanceList.Length
      ensures if ok then instanceList[..] == old(instanceList[..])[id := None] && newId == -1
              else instanceList[..] == old(instanceList[..]) && newId == id
    {
      if id < 0 || id >= instanceList.Length {
        return false, id;
      }
      instanceList[id] := None;
      return true, -1;
    }

    method GetInstance(id: int) returns (instance: Option<T>)
      requires Valid()
      ensures instance == if 0 <= id < instanceList.Length then instanceList[id] else None
    {
      if id < 0 || id >= instanceList.Length {
        return None;
      }
      return instanceList[id];
    }
  }
}
