/** Client numbers of the processing service: one byte of feature, three bytes of client. */
module ClientIds {
  import opened Basics

  const MAX_CLIENT_GEN_COUNT := 500
  const ID_SPAN := 0x100_0000
  const UINT32_SPAN := 0x1_0000_0000

  /** The packed number for a 32-bit feature number and a 32-bit counter: shifting the feature by 24
      keeps its low byte, and the two parts share no bit. */
  function ClientId(featureId: nat, base: nat): nat {
    (featureId % 256) * ID_SPAN + base % ID_SPAN
  }

  /** The number that the k-th attempt from counter `base` yields; the counter wraps at 32 bits. */
  function Candidate(featureId: nat, base: nat, k: nat): nat {
    ClientId(featureId, (base + k) % UINT32_SPAN)
  }

  lemma Unpack(featureId: nat, base: nat)
    ensures ClientId(featureId, base) / ID_SPAN == featureId % 256
    ensures ClientId(featureId, base) % ID_SPAN == base % ID_SPAN
    ensures ClientId(featureId, base) < UINT32_SPAN
  {
  }

  /** Two numbers are equal only if feature byte and low counter bits are. */
  lemma ClientIdInjective(f: nat, b: nat, g: nat, c: nat)
    ensures ClientId(f, b) == ClientId(g, c) <==> f % 256 == g % 256 && b % ID_SPAN == c % ID_SPAN
  {
    Unpack(f, b);
    Unpack(g, c);
  }

  lemma WrapIsHarmless(n: nat)
    ensures (n % UINT32_SPAN) % ID_SPAN == n % ID_SPAN
  {
    var q := n / UINT32_SPAN;
    assert n == 256 * q * ID_SPAN + n % UINT32_SPAN;
    ModPlusMultiple(n % UINT32_SPAN, 256 * q);
  }

  lemma {:induction false} ModPlusMultiple(r: nat, q: nat)
    ensures (q * ID_SPAN + r) % ID_SPAN == r % ID_SPAN
  {
    if q > 0 {
      ModPlusMultiple(r, q - 1);
      assert q * ID_SPAN + r == (q - 1) * ID_SPAN + r + ID_SPAN;
    }
  }

  /** All attempts of one search differ, also across the wrap of the counter. */
  lemma CandidatesDiffer(featureId: nat, base: nat, i: nat, j: nat)
    requires i < j <= MAX_CLIENT_GEN_COUNT
    ensures Candidate(featureId, base, i) != Candidate(featureId, base, j)
  {
    WrapIsHarmless(base + i);
    WrapIsHarmless(base + j);
    ClientIdInjective(featureId, (base + i) % UINT32_SPAN, featureId, (base + j) % UINT32_SPAN);
    var x, y := base + i, base + j;
    assert x % ID_SPAN != y % ID_SPAN;
  }

  function Candidates(featureId: nat, base: nat, n: nat): set<nat> {
    set k | 0 <= k < n :: Candidate(featureId, base, k)
  }

  lemma {:induction false} CandidateCount(featureId: nat, base: nat, n: nat)
    requires n <= MAX_CLIENT_GEN_COUNT + 1
    ensures |Candidates(featureId, base, n)| == n
  {
    if n == 0 {
      assert Candidates(featureId, base, 0) == {};
    } else {
      CandidateCount(featureId, base, n - 1);
      var last := Candidate(featureId, base, n - 1);
      assert Candidates(featureId, base, n) == Candidates(featureId, base, n - 1) + {last};
      forall k | 0 <= k < n - 1
        ensures Candidate(featureId, base, k) != last
      {
        CandidatesDiffer(featureId, base, k, n - 1);
      }
    }
  }

  /** With at most 500 live clients a search of 501 attempts finds a free number. */
  lemma FreeCandidateExists(featureId: nat, base: nat, taken: set<nat>)
    requires |taken| <= MAX_CLIENT_GEN_COUNT
    ensures exists k :: 0 <= k <= MAX_CLIENT_GEN_COUNT && Candidate(featureId, base, k) !in taken
  {
    var n := MAX_CLIENT_GEN_COUNT + 1;
    CandidateCount(featureId, base, n);
    if forall k | 0 <= k <= MAX_CLIENT_GEN_COUNT :: Candidate(featureId, base, k) in taken {
      assert Candidates(featureId, base, n) <= taken;
      SubsetSize(Candidates(featureId, base, n), taken);
      assert false;
    }
  }

  // ---------- Feature numbers ----------

  type Creators = map<string, nat>

  /** Different features have different low bytes, so their clients never share a number. */
  ghost predicate BytesDiffer(creators: Creators) {
    forall f, g | f in creators && g in creators && f != g :: creators[f] % 256 != creators[g] % 256
  }

  ghost predicate Used(creators: Creators, features: set<string>, n: nat) {
    exists f :: f in features && f in creators && creators[f] == n
  }

  /** The numbers are exactly 1 to the number of features, each used once. */
  ghost predicate Numbered(creators: Creators) {
    && (forall f | f in creators :: 1 <= creators[f] <= |creators|)
    && (forall f, g | f in creators && g in creators && f != g :: creators[f] != creators[g])
    && (forall n | 1 <= n <= |creators| :: Used(creators, creators.Keys, n))
  }

  /** The features outside `todo` are numbered 1 to `id`, each number used once. */
  ghost predicate NumberedSoFar(creators: Creators, todo: set<string>, id: nat) {
    && todo <= creators.Keys && id + |todo| == |creators|
    && (forall f | f in creators && f !in todo :: 1 <= creators[f] <= id)
    && (forall f, g | f in creators && g in creators && f !in todo && g !in todo
        && f != g :: creators[f] != creators[g])
    && (forall n | 1 <= n <= id :: Used(creators, creators.Keys - todo, n))
  }

  lemma NumberNext(creators: Creators, todo: set<string>, f: string, id: nat)
    requires NumberedSoFar(creators, todo, id) && f in todo
    ensures creators[f := id + 1].Keys == creators.Keys
    ensures NumberedSoFar(creators[f := id + 1], todo - {f}, id + 1)
  {
    var after, rest := creators[f := id + 1], todo - {f};
    assert after.Keys == creators.Keys && |after| == |after.Keys| && |creators| == |creators.Keys|;
    forall n | 1 <= n <= id + 1
      ensures Used(after, after.Keys - rest, n)
    {
      if n <= id {
        assert Used(creators, creators.Keys - todo, n);
        var g :| g in creators.Keys - todo && creators[g] == n;
        assert g in after.Keys - rest && after[g] == n;
      } else {
        assert f in after.Keys - rest && after[f] == n;
      }
    }
  }

  lemma AllNumbered(creators: Creators, id: nat)
    requires NumberedSoFar(creators, {}, id)
    ensures Numbered(creators)
  {
    assert creators.Keys - {} == creators.Keys;
  }

  /** One pass over the creator map, in any order, numbers the features upwards from 1. */
  method GenerateFeatureIDs(unnumbered: Creators) returns (creators: Creators)
    ensures creators.Keys == unnumbered.Keys && Numbered(creators)
  {
    creators := unnumbered;
    var todo := unnumbered.Keys;
    var id := 0;
    while todo != {}
      invariant creators.Keys == unnumbered.Keys
      invariant NumberedSoFar(creators, todo, id)
    {
      var f :| f in todo;
      NumberNext(creators, todo, f, id);
      id := id + 1;
      creators := creators[f := id];
      todo := todo - {f};
    }
    AllNumbered(creators, id);
  }

  /** The feature byte tells all features apart exactly up to 256 of them. */
  lemma BytesDifferIff(creators: Creators)
    requires Numbered(creators)
    ensures BytesDiffer(creators) <==> |creators| <= 256
  {
    if |creators| > 256 {
      assert Used(creators, creators.Keys, 1) && Used(creators, creators.Keys, 257);
      var f :| f in creators && creators[f] == 1;
      var g :| g in creators && creators[g] == 257;
      assert creators[f] % 256 == creators[g] % 256;
    }
  }
}
