/**
 * The buffer records that travel through the asynchronous frame pipeline, and the
 * queue operations that several of its steps share.
 */
module Buffers {
  import opened Basics

  /** One queue entry. `seqNum` is the surface's number for the buffer; it is None for the
      null buffer of an end-of-stream marker. */
  datatype Info = Info(seqNum: Option<nat>, eos: bool, timestamp: int, isFlushed: bool, flushedTime: int)

  function Id(info: Info): multiset<nat> {
    if info.seqNum.Some? then multiset{info.seqNum.value} else multiset{}
  }

  /** The sequence numbers in a queue, with multiplicity. */
  function Ids(q: seq<Info>): multiset<nat> {
    if q == [] then multiset{} else Ids(q[..|q| - 1]) + Id(q[|q| - 1])
  }

  function IdSet(q: seq<Info>): set<nat> {
    set info | info in q && info.seqNum.Some? :: info.seqNum.value
  }

  predicate AllReal(q: seq<Info>) {
    forall info | info in q :: info.seqNum.Some?
  }

  /** How many entries PopBuffer takes: everything up to and including the first entry
      numbered `index`, or the whole queue when there is none. */
  function PopCount(q: seq<Info>, index: nat): (n: nat)
    ensures n <= |q|
    ensures index in IdSet(q) <==> 0 < n && q[n - 1].seqNum == Some(index)
    ensures forall k | 0 <= k < n - 1 :: q[k].seqNum != Some(index)
    ensures index !in IdSet(q) ==> n == |q|
  {
    if q == [] then 0
    else if q[0].seqNum == Some(index) then assert q[0] in q; 1
    else
      var rest := PopCount(q[1..], index);
      assert q == [q[0]] + q[1..];
      1 + rest
  }

  lemma {:induction false} IdsAppend(a: seq<Info>, b: seq<Info>)
    ensures Ids(a + b) == Ids(a) + Ids(b)
  {
    if b == [] {
      assert a + b == a;
    } else {
      var n := |b| - 1;
      assert (a + b)[..|a + b| - 1] == a + b[..n];
      IdsAppend(a, b[..n]);
    }
  }

  lemma IdsSplit(q: seq<Info>, n: nat)
    requires n <= |q|
    ensures Ids(q) == Ids(q[..n]) + Ids(q[n..])
  {
    assert q == q[..n] + q[n..];
    IdsAppend(q[..n], q[n..]);
  }

  lemma IdsOne(info: Info)
    ensures Ids([info]) == Id(info)
  {
    assert [info][..0] == [];
  }

  lemma {:induction false} IdsMembers(q: seq<Info>)
    ensures forall id :: id in Ids(q) <==> id in IdSet(q)
  {
    if q != [] {
      var n := |q| - 1;
      IdsMembers(q[..n]);
      assert q == q[..n] + [q[n]];
      forall id
        ensures id in Ids(q) <==> id in IdSet(q)
      {
        if id in IdSet(q) {
          var info :| info in q && info.seqNum == Some(id);
          assert info in q[..n] || info == q[n];
        }
        if id in IdSet(q[..n]) {
          var info :| info in q[..n] && info.seqNum == Some(id);
          assert info in q;
        }
      }
    }
  }

  /** A queue whose numbers are pairwise distinct loses, with its first `n` entries, exactly
      the numbers of those entries. */
  lemma IdSetDrop(q: seq<Info>, n: nat)
    requires n <= |q|
    requires forall id :: Ids(q)[id] <= 1
    ensures IdSet(q[n..]) == IdSet(q) - IdSet(q[..n])
  {
    IdsSplit(q, n);
    IdsMembers(q);
    IdsMembers(q[..n]);
    IdsMembers(q[n..]);
    forall id
      ensures id in IdSet(q[n..]) <==> id in IdSet(q) && id !in IdSet(q[..n])
    {
      assert Ids(q)[id] == Ids(q[..n])[id] + Ids(q[n..])[id];
      assert id in IdSet(q[n..]) <==> id in Ids(q[n..]);
    }
  }
}
