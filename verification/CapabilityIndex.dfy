/**
 * Looking up an extension by capability: an index is built from the list of extensions and
 * the best entry for a key is picked from it. Keys stand for the tuples of colour spaces and
 * pixel formats, up to the equivalence that orders the source's maps.
 */
module CapabilityIndex {
  import opened Basics

  datatype Rank = RANK_DEFAULT | RANK_HIGH

  /** One capability and the keys that it stands for, in the order in which they are entered. */
  datatype Capability<K> = Capability(rank: Rank, version: int, keys: seq<K>)

  /** `relevant` says that the extension is of the kind that is looked for; a null pointer has no capabilities. */
  datatype Extension<K> = Null | Extension(relevant: bool, capabilities: seq<Capability<K>>)

  datatype Entry = Entry(rank: Rank, version: int, idx: nat)

  type Index<K> = map<K, seq<Entry>>

  // ---------- The plain scan ----------

  predicate Offers<K(==)>(ext: Extension<K>, key: K, rank: Rank) {
    ext.Extension? && ext.relevant && exists cap :: cap in ext.capabilities && cap.rank == rank && key in cap.keys
  }

  predicate Supports<K(==)>(ext: Extension<K>, key: K) {
    Offers(ext, key, RANK_HIGH) || Offers(ext, key, RANK_DEFAULT)
  }

  /** Number `i` is the first of the list with a property. */
  predicate IsFirst(i: nat, holds: seq<bool>) {
    i < |holds| && holds[i] && forall j | 0 <= j < i :: !holds[j]
  }

  predicate IsLast(i: nat, holds: seq<bool>) {
    i < |holds| && holds[i] && forall j | i < j < |holds| :: !holds[j]
  }

  function HighOnes<K(==)>(list: seq<Extension<K>>, key: K): seq<bool> {
    seq(|list|, i requires 0 <= i < |list| => Offers(list[i], key, RANK_HIGH))
  }

  function Ones<K(==)>(list: seq<Extension<K>>, key: K): seq<bool> {
    seq(|list|, i requires 0 <= i < |list| => Supports(list[i], key))
  }

  // ---------- What the index holds ----------

  function FromKeys<K(==)>(keys: seq<K>, key: K, e: Entry): seq<Entry> {
    if keys == [] then []
    else FromKeys(keys[..|keys| - 1], key, e) + (if keys[|keys| - 1] == key then [e] else [])
  }

  function FromCapabilities<K(==)>(caps: seq<Capability<K>>, key: K, idx: nat): seq<Entry> {
    if caps == [] then []
    else
      var cap := caps[|caps| - 1];
      FromCapabilities(caps[..|caps| - 1], key, idx) + FromKeys(cap.keys, key, Entry(cap.rank, cap.version, idx))
  }

  function FromExtension<K(==)>(ext: Extension<K>, key: K, idx: nat): seq<Entry> {
    if ext.Extension? && ext.relevant then FromCapabilities(ext.capabilities, key, idx) else []
  }

  function FromList<K(==)>(list: seq<Extension<K>>, key: K): seq<Entry> {
    if list == [] then []
    else FromList(list[..|list| - 1], key) + FromExtension(list[|list| - 1], key, |list| - 1)
  }

  function At<K(==)>(index: Index<K>, key: K): seq<Entry> {
    if key in index then index[key] else []
  }

  // ---------- Building it ----------

  lemma Associate(a: seq<Entry>, b: seq<Entry>, c: seq<Entry>)
    ensures (a + b) + c == a + (b + c)
  {
  }

  method ExtractCap<K(==, !new)>(cap: Capability<K>, idx: nat, index: Index<K>) returns (filled: Index<K>)
    ensures forall key: K ::
            At(filled, key) == At(index, key) + FromKeys(cap.keys, key, Entry(cap.rank, cap.version, idx))
  {
    filled := index;
    var value := Entry(cap.rank, cap.version, idx);
    for i := 0 to |cap.keys|
      invariant forall key: K :: At(filled, key) == At(index, key) + FromKeys(cap.keys[..i], key, value)
    {
      var k := cap.keys[i];
      ghost var before := filled;
      filled := filled[k := At(filled, k) + [value]];
      forall key: K
        ensures At(filled, key) == At(index, key) + FromKeys(cap.keys[..i + 1], key, value)
      {
        assert cap.keys[..i + 1][..i] == cap.keys[..i];
        assert At(before, key) == At(index, key) + FromKeys(cap.keys[..i], key, value);
        if key == k {
          Associate(At(index, key), FromKeys(cap.keys[..i], key, value), [value]);
        }
      }
    }
    assert cap.keys[..|cap.keys|] == cap.keys;
  }

  /** The key of a conversion: both colour spaces and both pixel formats. */
  datatype ConversionKey<C> = ConversionKey(inColor: C, inFormat: nat, outColor: C, outFormat: nat)

  /** A converter's capability: for each input format of `formats`, in order, the output formats that go with it. */
  datatype Conversion<C> = Conversion(rank: Rank, version: int, inColor: C, outColor: C, formats: seq<(nat, seq<nat>)>)

  function PairKeys<C>(conv: Conversion<C>, inFormat: nat, outFormats: seq<nat>): seq<ConversionKey<C>> {
    if outFormats == [] then []
    else
      var n := |outFormats| - 1;
      PairKeys(conv, inFormat, outFormats[..n]) + [ConversionKey(conv.inColor, inFormat, conv.outColor, outFormats[n])]
  }

  function ConversionKeys<C>(conv: Conversion<C>, formats: seq<(nat, seq<nat>)>): seq<ConversionKey<C>> {
    if formats == [] then []
    else
      var n := |formats| - 1;
      ConversionKeys(conv, formats[..n]) + PairKeys(conv, formats[n].0, formats[n].1)
  }

  function AsCapability<C>(conv: Conversion<C>): Capability<ConversionKey<C>> {
    Capability(conv.rank, conv.version, ConversionKeys(conv, conv.formats))
  }

  lemma {:induction false} PairKeysIff<C>(conv: Conversion<C>, inFormat: nat, outFormats: seq<nat>,
                                          key: ConversionKey<C>)
    ensures key in PairKeys(conv, inFormat, outFormats) <==>
              && key.inColor == conv.inColor && key.outColor == conv.outColor
              && key.inFormat == inFormat && key.outFormat in outFormats
  {
    if outFormats != [] {
      var n := |outFormats| - 1;
      PairKeysIff(conv, inFormat, outFormats[..n], key);
      assert outFormats == outFormats[..n] + [outFormats[n]];
    }
  }

  ghost predicate Pairs(formats: seq<(nat, seq<nat>)>, inFormat: nat, outFormat: nat) {
    exists entry :: entry in formats && entry.0 == inFormat && outFormat in entry.1
  }

  /** A capability offers exactly the conversions between its two colour spaces whose formats it pairs. */
  lemma {:induction false} ConversionKeysIff<C>(conv: Conversion<C>, formats: seq<(nat, seq<nat>)>,
                                                key: ConversionKey<C>)
    ensures key in ConversionKeys(conv, formats) <==>
              && key.inColor == conv.inColor && key.outColor == conv.outColor
              && Pairs(formats, key.inFormat, key.outFormat)
  {
    if formats != [] {
      var n := |formats| - 1;
      ConversionKeysIff(conv, formats[..n], key);
      PairKeysIff(conv, formats[n].0, formats[n].1, key);
      assert formats == formats[..n] + [formats[n]];
      if Pairs(formats, key.inFormat, key.outFormat) {
        var entry :| entry in formats && entry.0 == key.inFormat && key.outFormat in entry.1;
        assert entry in formats[..n] || entry == formats[n];
      }
      if Pairs(formats[..n], key.inFormat, key.outFormat) {
        var entry :| entry in formats[..n] && entry.0 == key.inFormat && key.outFormat in entry.1;
        assert entry in formats;
      }
    }
  }

  lemma {:induction false} FromKeysAppend<K>(a: seq<K>, b: seq<K>, key: K, e: Entry)
    ensures FromKeys(a + b, key, e) == FromKeys(a, key, e) + FromKeys(b, key, e)
  {
    if b == [] {
      assert a + b == a;
    } else {
      var n := |b| - 1;
      assert (a + b)[..|a + b| - 1] == a + b[..n];
      FromKeysAppend(a, b[..n], key, e);
    }
  }

  lemma FromKeysSnoc<K>(keys: seq<K>, k: K, key: K, e: Entry)
    ensures FromKeys(keys + [k], key, e) == FromKeys(keys, key, e) + (if k == key then [e] else [])
  {
    assert (keys + [k])[..|keys|] == keys;
  }

  lemma PairKeysSnoc<C>(conv: Conversion<C>, inFormat: nat, outFormats: seq<nat>, i: nat)
    requires i < |outFormats|
    ensures PairKeys(conv, inFormat, outFormats[..i + 1])
         == PairKeys(conv, inFormat, outFormats[..i])
            + [ConversionKey(conv.inColor, inFormat, conv.outColor, outFormats[i])]
  {
    assert outFormats[..i + 1][..i] == outFormats[..i];
  }

  /** The nested loops over the format map enter the capability under each of its keys, in order. */
  method ExtractColorSpaceConverterCap<C(==, !new)>(conv: Conversion<C>, idx: nat, index: Index<ConversionKey<C>>)
    returns (filled: Index<ConversionKey<C>>)
    ensures var value := Entry(conv.rank, conv.version, idx);
            forall key: ConversionKey<C> ::
              At(filled, key) == At(index, key) + FromKeys(AsCapability(conv).keys, key, value)
  {
    filled := index;
    var value := Entry(conv.rank, conv.version, idx);
    for i := 0 to |conv.formats|
      invariant forall key: ConversionKey<C> ::
                  At(filled, key) == At(index, key) + FromKeys(ConversionKeys(conv, conv.formats[..i]), key, value)
    {
      assert conv.formats[..i + 1][..i] == conv.formats[..i];
      ghost var before, done := filled, ConversionKeys(conv, conv.formats[..i]);
      ghost var more := PairKeys(conv, conv.formats[i].0, conv.formats[i].1);
      filled := ExtractPairs(conv, conv.formats[i].0, conv.formats[i].1, value, filled);
      assert ConversionKeys(conv, conv.formats[..i + 1]) == done + more;
      forall key: ConversionKey<C>
        ensures At(filled, key) == At(index, key) + FromKeys(done + more, key, value)
      {
        assert At(before, key) == At(index, key) + FromKeys(done, key, value);
        FromKeysAppend(done, more, key, value);
        Associate(At(index, key), FromKeys(done, key, value), FromKeys(more, key, value));
      }
    }
    assert conv.formats[..|conv.formats|] == conv.formats;
  }

  method ExtractPairs<C(==, !new)>(conv: Conversion<C>, inFormat: nat, outFormats: seq<nat>, value: Entry,
                                   index: Index<ConversionKey<C>>) returns (filled: Index<ConversionKey<C>>)
    ensures forall key: ConversionKey<C> ::
              At(filled, key) == At(index, key) + FromKeys(PairKeys(conv, inFormat, outFormats), key, value)
  {
    filled := index;
    for i := 0 to |outFormats|
      invariant forall key: ConversionKey<C> ::
                  At(filled, key) == At(index, key) + FromKeys(PairKeys(conv, inFormat, outFormats[..i]), key, value)
    {
      hide PairKeys, FromKeys;
      var k := ConversionKey(conv.inColor, inFormat, conv.outColor, outFormats[i]);
      ghost var before, done := filled, PairKeys(conv, inFormat, outFormats[..i]);
      filled := filled[k := At(filled, k) + [value]];
      PairKeysSnoc(conv, inFormat, outFormats, i);
      forall key: ConversionKey<C>
        ensures At(filled, key) == At(index, key) + FromKeys(done + [k], key, value)
      {
        assert At(before, key) == At(index, key) + FromKeys(done, key, value);
        FromKeysSnoc(done, k, key, value);
        Associate(At(index, key), FromKeys(done, key, value), [value]);
      }
    }
    assert outFormats[..|outFormats|] == outFormats;
  }

  method BuildExtensionCaps<K(==, !new)>(caps: seq<Capability<K>>, idx: nat, index: Index<K>) returns (filled: Index<K>)
    ensures forall key: K :: At(filled, key) == At(index, key) + FromCapabilities(caps, key, idx)
  {
    filled := index;
    for i := 0 to |caps|
      invariant forall key: K :: At(filled, key) == At(index, key) + FromCapabilities(caps[..i], key, idx)
    {
      assert caps[..i + 1][..i] == caps[..i];
      ghost var before := filled;
      filled := ExtractCap(caps[i], idx, filled);
      forall key: K
        ensures At(filled, key) == At(index, key) + FromCapabilities(caps[..i + 1], key, idx)
      {
        var added := FromKeys(caps[i].keys, key, Entry(caps[i].rank, caps[i].version, idx));
        assert At(filled, key) == At(before, key) + added;
        assert At(before, key) == At(index, key) + FromCapabilities(caps[..i], key, idx);
        Associate(At(index, key), FromCapabilities(caps[..i], key, idx), added);
      }
    }
    assert caps[..|caps|] == caps;
  }

  /** A null extension anywhere in the list leaves the whole index empty. */
  method BuildCaps<K(==, !new)>(list: seq<Extension<K>>) returns (index: Index<K>)
    ensures Null in list ==> index == map[]
    ensures Null !in list ==> forall key: K :: At(index, key) == FromList(list, key)
  {
    index := map[];
    for idx := 0 to |list|
      invariant Null !in list[..idx]
      invariant forall key: K :: At(index, key) == FromList(list[..idx], key)
    {
      assert list[..idx + 1][..idx] == list[..idx];
      if list[idx] == Null {
        assert list[idx] in list;
        return map[];
      }
      ghost var before := index;
      if list[idx].relevant {
        index := BuildExtensionCaps(list[idx].capabilities, idx, index);
      }
      forall key: K
        ensures At(index, key) == FromList(list[..idx + 1], key)
      {
        assert At(before, key) == FromList(list[..idx], key);
      }
    }
    assert list[..|list|] == list;
  }

  // ---------- Why the index agrees with the scan ----------

  lemma {:induction false} KeysEntries<K>(keys: seq<K>, key: K, e: Entry)
    ensures FromKeys(keys, key, e) != [] <==> key in keys
    ensures forall x | x in FromKeys(keys, key, e) :: x == e
  {
    if keys != [] {
      KeysEntries(keys[..|keys| - 1], key, e);
      assert keys == keys[..|keys| - 1] + [keys[|keys| - 1]];
    }
  }

  ghost predicate HasEntry(entries: seq<Entry>, idx: nat, rank: Rank) {
    exists e :: e in entries && e.idx == idx && e.rank == rank
  }

  lemma {:induction false} CapabilitiesEntries<K>(caps: seq<Capability<K>>, key: K, idx: nat)
    ensures forall e | e in FromCapabilities(caps, key, idx) :: e.idx == idx
    ensures forall rank :: HasEntry(FromCapabilities(caps, key, idx), idx, rank) <==>
                           exists cap :: cap in caps && cap.rank == rank && key in cap.keys
  {
    if caps != [] {
      var init := caps[..|caps| - 1];
      var cap := caps[|caps| - 1];
      var value := Entry(cap.rank, cap.version, idx);
      CapabilitiesEntries(init, key, idx);
      KeysEntries(cap.keys, key, value);
      assert caps == init + [cap];
      var before, added := FromCapabilities(init, key, idx), FromKeys(cap.keys, key, value);
      forall rank
        ensures HasEntry(before + added, idx, rank) <==> exists c :: c in caps && c.rank == rank && key in c.keys
      {
        if HasEntry(before, idx, rank) {
          var e :| e in before && e.idx == idx && e.rank == rank;
          assert e in before + added;
          var c :| c in init && c.rank == rank && key in c.keys;
          assert c in caps;
        }
        if key in cap.keys && cap.rank == rank {
          assert added[0] in added;
          assert added[0] == value && added[0] in before + added;
          assert cap in caps;
        }
        if c :| c in caps && c.rank == rank && key in c.keys {
          assert c in init || c == cap;
        }
      }
    }
  }

  /** Entries stand in the order of the list, and there is one of rank r for number i exactly when the i-th
      extension offers the key with that rank. */
  lemma {:induction false} ListEntries<K>(list: seq<Extension<K>>, key: K)
    ensures var entries := FromList(list, key);
            && (forall e | e in entries :: e.idx < |list|)
            && (forall a, b | 0 <= a < b < |entries| :: entries[a].idx <= entries[b].idx)
            && (forall i: nat, rank | i < |list| :: HasEntry(entries, i, rank) <==> Offers(list[i], key, rank))
  {
    if list != [] {
      var n := |list| - 1;
      var init := list[..n];
      ListEntries(init, key);
      var before, added := FromList(init, key), FromExtension(list[n], key, n);
      if list[n].Extension? && list[n].relevant {
        CapabilitiesEntries(list[n].capabilities, key, n);
      }
      assert forall e | e in added :: e.idx == n;
      forall i: nat, rank | i < |list|
        ensures HasEntry(before + added, i, rank) <==> Offers(list[i], key, rank)
      {
        EntrySplits(before, added, i, rank);
        if i < n {
          assert init[i] == list[i];
        } else {
          assert !HasEntry(before, n, rank);
          assert HasEntry(added, n, rank) <==> Offers(list[n], key, rank);
        }
      }
    }
  }

  lemma EntrySplits(a: seq<Entry>, b: seq<Entry>, idx: nat, rank: Rank)
    ensures HasEntry(a + b, idx, rank) <==> HasEntry(a, idx, rank) || HasEntry(b, idx, rank)
  {
    if HasEntry(a, idx, rank) {
      var e :| e in a && e.idx == idx && e.rank == rank;
      assert e in a + b;
    }
    if HasEntry(b, idx, rank) {
      var e :| e in b && e.idx == idx && e.rank == rank;
      assert e in a + b;
    }
  }

  /** The first high-rank entry, or else the first entry. */
  function Best(entries: seq<Entry>, fallback: nat): nat {
    if entries == [] then fallback
    else if entries[0].rank == RANK_HIGH then entries[0].idx
    else Best(entries[1..], fallback)
  }

  lemma {:induction false} BestIsFirstHigh(entries: seq<Entry>, fallback: nat)
    ensures (exists e :: e in entries && e.rank == RANK_HIGH) ==>
              exists k :: && 0 <= k < |entries| && entries[k].rank == RANK_HIGH
                  && entries[k].idx == Best(entries, fallback)
                          && forall j | 0 <= j < k :: entries[j].rank != RANK_HIGH
    ensures !(exists e :: e in entries && e.rank == RANK_HIGH) ==> Best(entries, fallback) == fallback
  {
    if entries != [] {
      if entries[0].rank == RANK_HIGH {
        assert entries[0] in entries;
      } else {
        BestIsFirstHigh(entries[1..], fallback);
        assert entries == [entries[0]] + entries[1..];
        if e :| e in entries && e.rank == RANK_HIGH {
          assert e in entries[1..];
          var k :| && 0 <= k < |entries[1..]| && entries[1..][k].rank == RANK_HIGH
                   && entries[1..][k].idx == Best(entries[1..], fallback)
                   && forall j | 0 <= j < k :: entries[1..][j].rank != RANK_HIGH;
          assert entries[k + 1] == entries[1..][k];
          forall j | 0 <= j < k + 1
            ensures entries[j].rank != RANK_HIGH
          {
            if j > 0 {
              assert entries[j] == entries[1..][j - 1];
            }
          }
        }
      }
    }
  }

  /** What the search in the entries of a key finds, said about the list. */
  lemma BestAgrees<K>(list: seq<Extension<K>>, key: K)
    ensures var entries := FromList(list, key);
            && (entries == [] <==> true !in Ones(list, key))
            && (entries != [] ==>
                  var i := Best(entries, entries[0].idx);
                  if true in HighOnes(list, key) then IsFirst(i, HighOnes(list, key)) else IsFirst(i, Ones(list, key)))
  {
    ListEntries(list, key);
    var entries := FromList(list, key);
    SupportersHaveEntries(list, key);
    if entries != [] {
      BestIsFirstHigh(entries, entries[0].idx);
      if true in HighOnes(list, key) {
        HighFirst(list, key);
      } else {
        assert forall e | e in entries :: e.rank != RANK_HIGH;
        assert entries[0] in entries;
        FirstSupports(list, key);
      }
    }
  }

  lemma EntriesAreOffers<K>(list: seq<Extension<K>>, key: K, e: Entry)
    requires e in FromList(list, key)
    ensures e.idx < |list| && Ones(list, key)[e.idx] && (e.rank == RANK_HIGH ==> HighOnes(list, key)[e.idx])
  {
    ListEntries(list, key);
    assert HasEntry(FromList(list, key), e.idx, e.rank);
    assert Offers(list[e.idx], key, e.rank);
  }

  lemma OffersAreEntries<K>(list: seq<Extension<K>>, key: K, i: nat, rank: Rank)
    requires i < |list| && Offers(list[i], key, rank)
    ensures exists e :: e in FromList(list, key) && e.idx == i && e.rank == rank
  {
    ListEntries(list, key);
    assert HasEntry(FromList(list, key), i, rank);
  }

  lemma SupportersHaveEntries<K>(list: seq<Extension<K>>, key: K)
    ensures FromList(list, key) == [] <==> true !in Ones(list, key)
    ensures (exists e :: e in FromList(list, key) && e.rank == RANK_HIGH) <==> true in HighOnes(list, key)
  {
    var entries := FromList(list, key);
    if entries != [] {
      EntriesAreOffers(list, key, entries[0]);
    }
    if e :| e in entries && e.rank == RANK_HIGH {
      EntriesAreOffers(list, key, e);
    }
    if true in Ones(list, key) {
      var i :| 0 <= i < |list| && Ones(list, key)[i];
      OffersAreEntries(list, key, i, if Offers(list[i], key, RANK_HIGH) then RANK_HIGH else RANK_DEFAULT);
    }
    if true in HighOnes(list, key) {
      var i :| 0 <= i < |list| && HighOnes(list, key)[i];
      OffersAreEntries(list, key, i, RANK_HIGH);
    }
  }

  lemma HighFirst<K>(list: seq<Extension<K>>, key: K)
    requires FromList(list, key) != [] && true in HighOnes(list, key)
    ensures IsFirst(Best(FromList(list, key), FromList(list, key)[0].idx), HighOnes(list, key))
  {
    var entries := FromList(list, key);
    ListEntries(list, key);
    SupportersHaveEntries(list, key);
    BestIsFirstHigh(entries, entries[0].idx);
    var i := Best(entries, entries[0].idx);
    var k :| && 0 <= k < |entries| && entries[k].rank == RANK_HIGH && entries[k].idx == i
             && forall j | 0 <= j < k :: entries[j].rank != RANK_HIGH;
    assert entries[k] in entries;
    EntriesAreOffers(list, key, entries[k]);
    forall e | e in entries && e.rank == RANK_HIGH
      ensures i <= e.idx
    {
      var m :| 0 <= m < |entries| && entries[m] == e;
      assert k <= m;
    }
    forall j: nat | j < i
      ensures !HighOnes(list, key)[j]
    {
      assert HighOnes(list, key)[j] ==> HasEntry(entries, j, RANK_HIGH);
    }
  }

  lemma FirstSupports<K>(list: seq<Extension<K>>, key: K)
    requires FromList(list, key) != []
    ensures IsFirst(FromList(list, key)[0].idx, Ones(list, key))
  {
    var entries := FromList(list, key);
    ListEntries(list, key);
    var i := entries[0].idx;
    assert entries[0] in entries;
    assert HasEntry(entries, i, entries[0].rank);
    forall j | 0 <= j < i
      ensures !Ones(list, key)[j]
    {
      forall rank
        ensures !HasEntry(entries, j, rank)
      {
      }
    }
  }

  // ---------- Lookups ----------

  /** The metadata and AI-HDR lookups: the first high-rank supporter in the order of registration, else the
      first supporter; nothing if there is none or the list has a null entry. */
  method FindExtension<K(==, !new)>(list: seq<Extension<K>>, key: K) returns (found: Option<nat>)
    ensures found == None <==> Null in list || true !in Ones(list, key)
    ensures found.Some? ==>
              if true in HighOnes(list, key) then IsFirst(found.value, HighOnes(list, key))
              else IsFirst(found.value, Ones(list, key))
  {
    if list == [] {
      return None;
    }
    var index := BuildCaps(list);
    if Null !in list {
      BestAgrees(list, key);
    }
    found := Lookup(index, key);
  }

  method Lookup<K(==, !new)>(index: Index<K>, key: K) returns (found: Option<nat>)
    ensures var entries := At(index, key);
            found == if entries == [] then None else Some(Best(entries, entries[0].idx))
  {
    if index == map[] || key !in index || index[key] == [] {
      return None;
    }
    var idx := PickBest(index[key]);
    found := Some(idx);
  }

  method PickBest(entries: seq<Entry>) returns (idx: nat)
    requires entries != []
    ensures idx == Best(entries, entries[0].idx)
  {
    idx := entries[0].idx;
    for i := 0 to |entries|
      invariant idx == entries[0].idx
      invariant Best(entries, idx) == Best(entries[i..], idx)
    {
      assert entries[i..][1..] == entries[i + 1..];
      if entries[i].rank == RANK_HIGH {
        idx := entries[i].idx;
        break;
      }
    }
  }

  /** A colour-space converter has conversions; the other kinds of extension are not `relevant`. */
  datatype Converter<C> = NullConverter | Converter(relevant: bool, conversions: seq<Conversion<C>>)

  ghost predicate Converts<C>(ext: Converter<C>, key: ConversionKey<C>, rank: Rank) {
    && ext.Converter? && ext.relevant
    && exists conv ::
         && conv in ext.conversions && conv.rank == rank && conv.inColor == key.inColor
         && conv.outColor == key.outColor && Pairs(conv.formats, key.inFormat, key.outFormat)
  }

  ghost function HighConverters<C>(list: seq<Converter<C>>, key: ConversionKey<C>): seq<bool> {
    seq(|list|, i requires 0 <= i < |list| => Converts(list[i], key, RANK_HIGH))
  }

  ghost function Converters<C>(list: seq<Converter<C>>, key: ConversionKey<C>): seq<bool> {
    seq(|list|, i requires 0 <= i < |list| =>
      Converts(list[i], key, RANK_HIGH) || Converts(list[i], key, RANK_DEFAULT))
  }

  function AsCapabilities<C>(conversions: seq<Conversion<C>>): seq<Capability<ConversionKey<C>>> {
    seq(|conversions|, i requires 0 <= i < |conversions| => AsCapability(conversions[i]))
  }

  function AsExtension<C>(ext: Converter<C>): Extension<ConversionKey<C>> {
    match ext
    case NullConverter => Null
    case Converter(relevant, conversions) => Extension(relevant, AsCapabilities(conversions))
  }

  function AsExtensions<C>(list: seq<Converter<C>>): seq<Extension<ConversionKey<C>>> {
    seq(|list|, i requires 0 <= i < |list| => AsExtension(list[i]))
  }

  /** Offering the key of a conversion means to have a conversion whose format map pairs the two formats. */
  lemma ConvertsIsOffers<C>(ext: Converter<C>, key: ConversionKey<C>, rank: Rank)
    ensures Converts(ext, key, rank) <==> Offers(AsExtension(ext), key, rank)
  {
    if ext.Converter? {
      var caps := AsCapabilities(ext.conversions);
      forall i | 0 <= i < |caps|
        ensures key in caps[i].keys <==>
                  && ext.conversions[i].inColor == key.inColor && ext.conversions[i].outColor == key.outColor
                  && Pairs(ext.conversions[i].formats, key.inFormat, key.outFormat)
      {
        ConversionKeysIff(ext.conversions[i], ext.conversions[i].formats, key);
      }
      if Converts(ext, key, rank) {
        var i :| && 0 <= i < |caps| && ext.conversions[i].rank == rank && key in caps[i].keys;
        assert caps[i] in caps;
      }
    }
  }

  lemma SameSupporters<C>(list: seq<Converter<C>>, key: ConversionKey<C>)
    ensures HighConverters(list, key) == HighOnes(AsExtensions(list), key)
    ensures Converters(list, key) == Ones(AsExtensions(list), key)
    ensures Null in AsExtensions(list) <==> NullConverter in list
  {
    forall i | 0 <= i < |list|
      ensures HighConverters(list, key)[i] == HighOnes(AsExtensions(list), key)[i]
      ensures Converters(list, key)[i] == Ones(AsExtensions(list), key)[i]
    {
      ConvertsIsOffers(list[i], key, RANK_HIGH);
      ConvertsIsOffers(list[i], key, RANK_DEFAULT);
    }
    if NullConverter in list {
      var i :| 0 <= i < |list| && list[i] == NullConverter;
      assert AsExtensions(list)[i] == Null;
    }
  }

  method BuildConversions<C(==, !new)>(conversions: seq<Conversion<C>>, idx: nat, index: Index<ConversionKey<C>>)
    returns (filled: Index<ConversionKey<C>>)
    ensures forall key: ConversionKey<C> ::
              At(filled, key) == At(index, key) + FromCapabilities(AsCapabilities(conversions), key, idx)
  {
    filled := index;
    ghost var caps := AsCapabilities(conversions);
    for i := 0 to |conversions|
      invariant forall key: ConversionKey<C> ::
                  At(filled, key) == At(index, key) + FromCapabilities(caps[..i], key, idx)
    {
      assert caps[..i + 1][..i] == caps[..i];
      ghost var before := filled;
      filled := ExtractColorSpaceConverterCap(conversions[i], idx, filled);
      forall key: ConversionKey<C>
        ensures At(filled, key) == At(index, key) + FromCapabilities(caps[..i + 1], key, idx)
      {
        var added := FromKeys(caps[i].keys, key, Entry(caps[i].rank, caps[i].version, idx));
        assert At(filled, key) == At(before, key) + added;
        assert At(before, key) == At(index, key) + FromCapabilities(caps[..i], key, idx);
        Associate(At(index, key), FromCapabilities(caps[..i], key, idx), added);
      }
    }
    assert caps[..|caps|] == caps;
  }

  lemma FromListSnoc<C>(list: seq<Converter<C>>, idx: nat, key: ConversionKey<C>)
    requires idx < |list| && list[idx].Converter?
    ensures var exts, caps := AsExtensions(list), AsCapabilities(list[idx].conversions);
            FromList(exts[..idx + 1], key)
              == FromList(exts[..idx], key) + if list[idx].relevant then FromCapabilities(caps, key, idx) else []
  {
    var exts := AsExtensions(list);
    assert exts[..idx + 1][..idx] == exts[..idx] && exts[idx] == AsExtension(list[idx]);
  }

  /** BuildCaps for converters. */
  method BuildConverterCaps<C(==, !new)>(list: seq<Converter<C>>) returns (index: Index<ConversionKey<C>>)
    ensures NullConverter in list ==> index == map[]
    ensures NullConverter !in list ==>
              forall key: ConversionKey<C> :: At(index, key) == FromList(AsExtensions(list), key)
  {
    index := map[];
    ghost var exts := AsExtensions(list);
    for idx := 0 to |list|
      invariant NullConverter !in list[..idx]
      invariant forall key: ConversionKey<C> :: At(index, key) == FromList(exts[..idx], key)
    {
      if list[idx].NullConverter? {
        assert list[idx] in list;
        return map[];
      }
      ghost var before := index;
      if list[idx].relevant {
        index := BuildConversions(list[idx].conversions, idx, index);
      }
      forall key: ConversionKey<C>
        ensures At(index, key) == FromList(exts[..idx + 1], key)
      {
        hide FromList, FromCapabilities, AsExtensions, AsCapabilities;
        assert At(before, key) == FromList(exts[..idx], key);
        FromListSnoc(list, idx, key);
      }
    }
    assert exts[..|exts|] == exts && list[..|list|] == list;
  }

  /** The colour-space lookup, said of the format maps: the first converter in the order of registration with a
      high-rank conversion between these spaces that pairs these formats, else the first with any. */
  method FindConverter<C(==, !new)>(list: seq<Converter<C>>, key: ConversionKey<C>) returns (found: Option<nat>)
    ensures found == None <==> NullConverter in list || true !in Converters(list, key)
    ensures found.Some? ==>
              if true in HighConverters(list, key) then IsFirst(found.value, HighConverters(list, key))
              else IsFirst(found.value, Converters(list, key))
  {
    if list == [] {
      return None;
    }
    var index := BuildConverterCaps(list);
    SameSupporters(list, key);
    BestAgrees(AsExtensions(list), key);
    found := Lookup(index, key);
  }

  /** Detail enhancers have one rank per extension. */
  datatype Enhancer = NullEnhancer | Enhancer(relevant: bool, rank: Rank, levels: seq<nat>)

  predicate HasLevel(ext: Enhancer, level: nat) {
    ext.Enhancer? && ext.relevant && level in ext.levels
  }

  function Levels(list: seq<Enhancer>, level: nat): seq<bool> {
    seq(|list|, i requires 0 <= i < |list| => HasLevel(list[i], level))
  }

  function HighLevels(list: seq<Enhancer>, level: nat): seq<bool> {
    seq(|list|, i requires 0 <= i < |list| => HasLevel(list[i], level) && list[i].rank == RANK_HIGH)
  }

  /** What the single slot of a level holds after the extensions of `list`. */
  function Slot(list: seq<Enhancer>, level: nat): Option<nat> {
    if list == [] then None
    else
      var n := |list| - 1;
      var before := Slot(list[..n], level);
      if !HasLevel(list[n], level) then before
      else if before == None || list[n].rank == RANK_HIGH then Some(n)
      else before
  }

  lemma HighIsLevel(list: seq<Enhancer>, level: nat)
    ensures true in HighLevels(list, level) ==> true in Levels(list, level)
  {
    if true in HighLevels(list, level) {
      var i :| 0 <= i < |list| && HighLevels(list, level)[i];
      assert Levels(list, level)[i];
    }
  }

  lemma {:induction false} SlotAgrees(list: seq<Enhancer>, level: nat)
    ensures Slot(list, level) == None <==> true !in Levels(list, level)
    ensures Slot(list, level).Some? ==>
              if true in HighLevels(list, level) then IsLast(Slot(list, level).value, HighLevels(list, level))
              else IsFirst(Slot(list, level).value, Levels(list, level))
  {
    if list != [] {
      var n := |list| - 1;
      SlotAgrees(list[..n], level);
      assert Levels(list, level) == Levels(list[..n], level) + [HasLevel(list[n], level)];
      assert HighLevels(list, level)
          == HighLevels(list[..n], level) + [HasLevel(list[n], level) && list[n].rank == RANK_HIGH];
      HighIsLevel(list[..n], level);
    }
  }

  /** One extension's levels are entered: an empty slot takes any rank, a taken one only a high rank. */
  method BuildDetailEnhancerCaps(ext: Enhancer, idx: nat, slots: map<nat, nat>) returns (filled: map<nat, nat>)
    requires ext.Enhancer?
    requires forall l | l in slots :: slots[l] != idx
    ensures forall l :: l in filled <==> l in slots || l in ext.levels
    ensures forall l | l in filled ::
              filled[l] == if l in ext.levels && (l !in slots || ext.rank == RANK_HIGH) then idx else slots[l]
  {
    filled := slots;
    for i := 0 to |ext.levels|
      invariant forall l :: l in filled <==> l in slots || l in ext.levels[..i]
      invariant forall l | l in filled ::
                  filled[l] == if l in ext.levels[..i] && (l !in slots || ext.rank == RANK_HIGH) then idx else slots[l]
    {
      var level := ext.levels[i];
      if level !in filled {
        filled := filled[level := idx];
      } else if ext.rank == RANK_HIGH {
        filled := filled[level := idx];
      }
    }
    assert ext.levels[..|ext.levels|] == ext.levels;
  }

  /** The detail-enhancer lookup: the last high-rank supporter, else the first supporter. */
  method FindDetailEnhancer(list: seq<Enhancer>, level: nat) returns (found: Option<nat>)
    ensures found == None <==> NullEnhancer in list || true !in Levels(list, level)
    ensures found.Some? ==>
              if true in HighLevels(list, level) then IsLast(found.value, HighLevels(list, level))
              else IsFirst(found.value, Levels(list, level))
  {
    SlotAgrees(list, level);
    var slots: map<nat, nat> := map[];
    for idx := 0 to |list|
      invariant NullEnhancer !in list[..idx]
      invariant forall l :: (if l in slots then Some(slots[l]) else None) == Slot(list[..idx], l)
      invariant forall l | l in slots :: slots[l] < idx
    {
      assert list[..idx + 1][..idx] == list[..idx];
      if list[idx] == NullEnhancer {
        assert list[idx] in list;
        return None;
      }
      if list[idx].relevant {
        slots := BuildDetailEnhancerCaps(list[idx], idx, slots);
      }
    }
    assert list[..|list|] == list;
    if level !in slots {
      return None;
    }
    found := Some(slots[level]);
  }
}
