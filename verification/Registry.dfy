/**
 * The service's client registry. The server maps clients to features and features to
 * algorithm objects; every algorithm object has a table of its own clients. Objects outlive
 * their place in the server, because calls in flight still hold them. Here the objects are
 * the entries of a sequence that only grows, and a reference to one is its index.
 */
module RegistrySpec {
  import opened Basics
  import opened ClientIds

  datatype ErrCode =
    | OK | NO_MEMORY | INVALID_STATE | INVALID_DATA | INVALID_PARAM | INVALID_CLIENT_ID | ALGORITHM_MISSING
    | HOOK_FAILED

  type Table = map<nat, string>

  datatype Algo = Algo(feature: string, featureId: nat, isInitialized: bool, hasClient: bool, base: nat, table: Table)

  // ---------- One algorithm ----------

  /** The first attempt, from the k-th on, that yields a free number. */
  function FirstFree(a: Algo, k: nat): (r: Option<nat>)
    requires k <= MAX_CLIENT_GEN_COUNT + 1
    ensures r.Some? ==> && k <= r.value <= MAX_CLIENT_GEN_COUNT
                        && Candidate(a.featureId, a.base, r.value) !in a.table
                        && forall j | k <= j < r.value :: Candidate(a.featureId, a.base, j) in a.table
    ensures r.None? ==> forall j | k <= j <= MAX_CLIENT_GEN_COUNT :: Candidate(a.featureId, a.base, j) in a.table
    decreases MAX_CLIENT_GEN_COUNT + 1 - k
  {
    if k > MAX_CLIENT_GEN_COUNT then None
    else if Candidate(a.featureId, a.base, k) !in a.table then Some(k)
    else FirstFree(a, k + 1)
  }

  datatype Added = Added(err: ErrCode, algo: Algo, id: nat)

  /** Add: when the context hook fails, the client stays in the table all the same. */
  function AddClient(a: Algo, clientName: string, contextOk: bool): Added {
    if clientName == "" then Added(INVALID_PARAM, a, 0)
    else
      match FirstFree(a, 0)
      case None => Added(INVALID_STATE, a.(base := (a.base + MAX_CLIENT_GEN_COUNT + 1) % UINT32_SPAN), 0)
      case Some(k) =>
        var id := Candidate(a.featureId, a.base, k);
        var b := a.(base := (a.base + k + 1) % UINT32_SPAN, table := a.table[id := clientName]);
        if contextOk then Added(OK, b.(hasClient := true), id) else Added(HOOK_FAILED, b, id)
  }

  function DelClient(a: Algo, id: nat, contextOk: bool): Algo {
    if id !in a.table then a
    else
      var b := a.(table := a.table - {id});
      if contextOk && b.table == map[] then b.(hasClient := false) else b
  }

  /** Deinitialize empties the table even when the hook fails. */
  function Shut(a: Algo, hookOk: bool): Algo {
    if !a.isInitialized then a else a.(table := map[], isInitialized := !hookOk)
  }

  /** What Execute checks before it runs an operation for a client. */
  predicate Passes(a: Algo, id: nat) {
    a.isInitialized && id in a.table && a.table[id] != ""
  }

  // ---------- The server ----------

  /** `creators` is the factory's table. */
  datatype State = State(creators: Creators, clients: map<nat, string>, algorithms: map<string, nat>, isWorking: bool,
                         objects: seq<Algo>)

  function Initial(creators: Creators): State {
    State(creators, map[], map[], false, [])
  }

  datatype Outcome = Outcome(err: ErrCode, s: State, id: nat)

  /** CreateLocked; `provided`, `initOk` and `contextOk` are the answers of the factory and the hooks. A new
      algorithm whose first client cannot be added is thrown away. */
  function Create(s: State, feature: string, clientName: string, provided: bool, initOk: bool,
          contextOk: bool): Outcome {
    if feature !in s.algorithms || s.algorithms[feature] >= |s.objects| then
      if feature !in s.creators || !provided then Outcome(NO_MEMORY, s, 0)
      else if !initOk then Outcome(INVALID_STATE, s, 0)
      else
        var added := AddClient(Algo(feature, s.creators[feature], true, false, 0, map[]), clientName, contextOk);
        if added.err != OK then Outcome(INVALID_DATA, s, 0)
        else
          Outcome(OK, s.(clients := s.clients[added.id := feature], algorithms := s.algorithms[feature := |s.objects|],
                         isWorking := true, objects := s.objects + [added.algo]), added.id)
    else
      var o := s.algorithms[feature];
      var added := AddClient(s.objects[o], clientName, contextOk);
      var t := s.(objects := s.objects[o := added.algo]);
      if added.err != OK then Outcome(INVALID_DATA, t, 0)
      else Outcome(OK, t.(clients := s.clients[added.id := feature], isWorking := true), added.id)
  }

  function Destroy(s: State, id: nat, contextOk: bool, deinitOk: bool): Outcome {
    if id !in s.clients then Outcome(INVALID_CLIENT_ID, s, id)
    else
      var feature := s.clients[id];
      var rest := s.clients - {id};
      var t := s.(clients := rest, isWorking := rest != map[]);
      if feature !in s.algorithms then Outcome(ALGORITHM_MISSING, t, id)
      else if s.algorithms[feature] >= |s.objects| then
        Outcome(ALGORITHM_MISSING, t.(algorithms := s.algorithms - {feature}), id)
      else
        var o := s.algorithms[feature];
        var a := DelClient(s.objects[o], id, contextOk);
        var err := if id !in s.objects[o].table then INVALID_PARAM else if contextOk then OK else HOOK_FAILED;
        if a.hasClient then Outcome(err, t.(objects := s.objects[o := a]), id)
        else
          Outcome(if Shut(a, deinitOk).isInitialized then HOOK_FAILED else OK,
                  t.(objects := s.objects[o := Shut(a, deinitOk)], algorithms := s.algorithms - {feature}), id)
  }

  /** The listed objects of the given features are shut; `failing` are the features whose hook fails. */
  function ShutListed(s: State, failing: set<string>, features: set<string>): seq<Algo> {
    seq(|s.objects|, o requires 0 <= o < |s.objects| =>
      if Listed(s, o) && s.objects[o].feature in features
      then Shut(s.objects[o], s.objects[o].feature !in failing)
      else s.objects[o])
  }

  function Clear(s: State, failing: set<string>): State {
    s.(clients := map[], algorithms := map[], isWorking := false, objects := ShutListed(s, failing, s.algorithms.Keys))
  }

  predicate Listed(s: State, o: nat)
    requires o < |s.objects|
  {
    s.objects[o].feature in s.algorithms && s.algorithms[s.objects[o].feature] == o
  }

  datatype Found = Found(err: ErrCode, at: nat)

  /** The lookup half of Execute: the call goes on holding the object it found. */
  function Lookup(s: State, id: nat): Found {
    if id !in s.clients then Found(INVALID_CLIENT_ID, 0)
    else if s.clients[id] !in s.algorithms || s.algorithms[s.clients[id]] >= |s.objects|
        then Found(ALGORITHM_MISSING, 0)
    else Found(OK, s.algorithms[s.clients[id]])
  }

  datatype Action =
    | CreateClient(feature: string, clientName: string, provided: bool, initOk: bool, contextOk: bool)
    | DestroyClient(id: nat, contextOk: bool, deinitOk: bool)
    | ClearAll(failing: set<string>)

  function Apply(s: State, a: Action): State {
    match a
    case CreateClient(feature, clientName, provided, initOk, contextOk) =>
      Create(s, feature, clientName, provided, initOk, contextOk).s
    case DestroyClient(id, contextOk, deinitOk) => Destroy(s, id, contextOk, deinitOk).s
    case ClearAll(failing) => Clear(s, failing)
  }

  function Run(s: State, actions: seq<Action>): State
    decreases |actions|
  {
    if actions == [] then s else Run(Apply(s, actions[0]), actions[1..])
  }
}

module RegistryTheorems {
  import opened Basics
  import opened ClientIds
  import opened RegistrySpec

  /** Live numbers carry the feature's byte, and clients have names. */
  predicate AlgoOk(a: Algo) {
    && a.base < UINT32_SPAN
    && forall id | id in a.table :: id / ID_SPAN == a.featureId % 256 && a.table[id] != ""
  }

  predicate ListedOk(s: State, f: string)
    requires f in s.algorithms
  {
    var o := s.algorithms[f];
    && o < |s.objects| && s.objects[o].feature == f && s.objects[o].isInitialized && s.objects[o].hasClient
    && f in s.creators && s.objects[o].featureId == s.creators[f]
  }

  /** An object that the server dropped knows nobody any more. */
  predicate ObjectOk(s: State, o: nat)
    requires o < |s.objects|
  {
    AlgoOk(s.objects[o]) && (Listed(s, o) || s.objects[o].table == map[])
  }

  predicate ClientOk(s: State, id: nat)
    requires id in s.clients
  {
    var f := s.clients[id];
    f in s.algorithms && s.algorithms[f] < |s.objects| && id in s.objects[s.algorithms[f]].table
  }

  /** Holds whatever the hooks answer. */
  ghost predicate Inv(s: State) {
    && BytesDiffer(s.creators)
    && (forall f | f in s.algorithms :: ListedOk(s, f))
    && (forall o: nat | o < |s.objects| :: ObjectOk(s, o))
    && (forall id | id in s.clients :: ClientOk(s, id))
    && (s.isWorking <==> s.clients != map[])
  }

  /** The two levels agree on feature `f`. */
  predicate Agrees(s: State, f: string)
    requires f in s.algorithms && s.algorithms[f] < |s.objects|
  {
    var table := s.objects[s.algorithms[f]].table;
    table != map[] && forall id | id in table :: id in s.clients && s.clients[id] == f
  }

  ghost predicate Exact(s: State) {
    forall f | f in s.algorithms :: s.algorithms[f] < |s.objects| && Agrees(s, f)
  }

  lemma AddOk(a: Algo, clientName: string, contextOk: bool)
    requires AlgoOk(a)
    ensures var r := AddClient(a, clientName, contextOk);
            && AlgoOk(r.algo)
            && r.algo.feature == a.feature && r.algo.featureId == a.featureId && r.algo.isInitialized == a.isInitialized
            && (r.err == OK || r.err == HOOK_FAILED ==>
                  r.id !in a.table && r.algo.table == a.table[r.id := clientName]
                      && r.id / ID_SPAN == a.featureId % 256)
            && (r.err != OK && r.err != HOOK_FAILED ==> r.algo.table == a.table)
            && (r.err == OK ==> r.algo.hasClient) && (r.err != OK ==> r.algo.hasClient == a.hasClient)
            && (contextOk ==> r.err != HOOK_FAILED)
  {
    var k := FirstFree(a, 0);
    if k.Some? {
      Unpack(a.featureId, (a.base + k.value) % UINT32_SPAN);
    }
  }

  /** With at most 500 clients of its own and working hooks an algorithm accepts every named client. */
  lemma AddSucceeds(a: Algo, clientName: string)
    requires clientName != "" && |a.table| <= MAX_CLIENT_GEN_COUNT
    ensures AddClient(a, clientName, true).err == OK
  {
    FreeCandidateExists(a.featureId, a.base, a.table.Keys);
    assert |a.table.Keys| == |a.table|;
  }

  /** A number that an algorithm finds free is free in the whole server: it overwrites no live client. */
  lemma FreshEverywhere(s: State, f: string, table: Table, id: nat)
    requires Inv(s) && f in s.creators && id / ID_SPAN == s.creators[f] % 256
    requires f in s.algorithms ==> s.algorithms[f] < |s.objects| && s.objects[s.algorithms[f]].table == table
    requires id !in table
    ensures id !in s.clients
  {
    assert id in s.clients ==> ClientOk(s, id);
    assert id in s.clients ==> ListedOk(s, s.clients[id]);
    assert id in s.clients ==> ObjectOk(s, s.algorithms[s.clients[id]]);
  }

  lemma CreateOk(s: State, feature: string, clientName: string, provided: bool, initOk: bool, contextOk: bool)
    requires Inv(s)
    ensures var r := Create(s, feature, clientName, provided, initOk, contextOk);
            && Inv(r.s)
            && (r.err == OK ==> r.id !in s.clients && r.s.clients == s.clients[r.id := feature])
            && (r.err != OK ==> r.s.clients == s.clients && r.s.algorithms == s.algorithms)
  {
    var r := Create(s, feature, clientName, provided, initOk, contextOk);
    if feature in s.algorithms {
      assert ListedOk(s, feature);
      CreateOld(s, feature, clientName, contextOk);
    } else if feature in s.creators && provided && initOk {
      CreateNew(s, feature, clientName, contextOk);
    }
  }

  /** A new algorithm `a` with its first client `id` has been listed under `feature`. */
  predicate Grown(s: State, t: State, feature: string, a: Algo, id: nat) {
    && feature in s.creators && feature !in s.algorithms && id !in s.clients
    && a.feature == feature && a.featureId == s.creators[feature] && a.isInitialized && a.hasClient && id in a.table
    && t == s.(clients := s.clients[id := feature], algorithms := s.algorithms[feature := |s.objects|],
               isWorking := true, objects := s.objects + [a])
  }

  lemma GrownListed(s: State, t: State, feature: string, a: Algo, id: nat, f: string)
    requires Grown(s, t, feature, a, id) && f in t.algorithms && (f != feature ==> ListedOk(s, f))
    ensures ListedOk(t, f)
  {
  }

  lemma GrownObject(s: State, t: State, feature: string, a: Algo, id: nat, o: nat)
    requires Grown(s, t, feature, a, id) && AlgoOk(a) && o < |t.objects| && (o < |s.objects| ==> ObjectOk(s, o))
    ensures ObjectOk(t, o)
  {
    hide AlgoOk;
    if o < |s.objects| {
      assert t.objects[o] == s.objects[o];
      assert Listed(s, o) ==> Listed(t, o);
    }
  }

  lemma GrownClient(s: State, t: State, feature: string, a: Algo, id: nat, i: nat)
    requires Grown(s, t, feature, a, id) && i in t.clients && (i != id ==> ClientOk(s, i))
    ensures ClientOk(t, i)
  {
  }

  lemma GrownOk(s: State, t: State, feature: string, a: Algo, id: nat)
    requires Inv(s) && Grown(s, t, feature, a, id) && AlgoOk(a)
    ensures Inv(t)
  {
    hide AlgoOk, BytesDiffer, ListedOk, ObjectOk, ClientOk;
    forall f | f in t.algorithms
      ensures ListedOk(t, f)
    {
      GrownListed(s, t, feature, a, id, f);
    }
    forall o: nat | o < |t.objects|
      ensures ObjectOk(t, o)
    {
      GrownObject(s, t, feature, a, id, o);
    }
    forall i | i in t.clients
      ensures ClientOk(t, i)
    {
      GrownClient(s, t, feature, a, id, i);
    }
    assert id in t.clients;
  }

  lemma CreateNew(s: State, feature: string, clientName: string, contextOk: bool)
    requires Inv(s) && feature !in s.algorithms && feature in s.creators
    ensures var r := Create(s, feature, clientName, true, true, contextOk);
            && Inv(r.s) && (r.err == OK ==> r.id !in s.clients)
  {
    var a := Algo(feature, s.creators[feature], true, false, 0, map[]);
    AddOk(a, clientName, contextOk);
    var added := AddClient(a, clientName, contextOk);
    if added.err == OK {
      FreshEverywhere(s, feature, map[], added.id);
      hide AddClient, Inv;
      GrownOk(s, Create(s, feature, clientName, true, true, contextOk).s, feature, added.algo, added.id);
    }
  }

  /** The algorithm of `feature` has become `a`, by which it lost no client but `gone`. */
  predicate Changed(s: State, t: State, feature: string, a: Algo, gone: Option<nat>) {
    && feature in s.algorithms && s.algorithms[feature] < |s.objects|
    && (var b := s.objects[s.algorithms[feature]];
        && a.feature == b.feature && a.featureId == b.featureId && a.isInitialized == b.isInitialized && a.hasClient
        && (forall i | i in b.table && gone != Some(i) :: i in a.table))
    && t == s.(clients := t.clients, isWorking := t.isWorking, objects := s.objects[s.algorithms[feature] := a])
    && (forall i | i in t.clients && i !in s.clients :: t.clients[i] == feature && i in a.table)
    && (forall i | i in t.clients && i in s.clients :: t.clients[i] == s.clients[i] && gone != Some(i))
    && (t.isWorking <==> t.clients != map[])
  }

  lemma ChangedObject(s: State, t: State, feature: string, a: Algo, gone: Option<nat>, o: nat)
    requires Changed(s, t, feature, a, gone) && ListedOk(s, feature) && AlgoOk(a) && o < |t.objects| && ObjectOk(s, o)
    ensures ObjectOk(t, o)
  {
    hide AlgoOk;
    assert o != s.algorithms[feature] ==> t.objects[o] == s.objects[o];
    assert o == s.algorithms[feature] ==> Listed(t, o);
    assert Listed(s, o) ==> Listed(t, o);
  }

  lemma ChangedClient(s: State, t: State, feature: string, a: Algo, gone: Option<nat>, i: nat)
    requires Changed(s, t, feature, a, gone) && i in t.clients && (i in s.clients ==> ClientOk(s, i))
    requires forall f | f in s.algorithms :: ListedOk(s, f)
    ensures ClientOk(t, i)
  {
    if i in s.clients && s.clients[i] != feature {
      assert ListedOk(s, s.clients[i]) && ListedOk(s, feature);
    }
  }

  lemma ChangedListed(s: State, t: State, feature: string, a: Algo, gone: Option<nat>, f: string)
    requires Changed(s, t, feature, a, gone) && f in t.algorithms && ListedOk(s, f) && ListedOk(s, feature)
    ensures ListedOk(t, f)
  {
  }

  lemma ChangedOk(s: State, t: State, feature: string, a: Algo, gone: Option<nat>)
    requires Inv(s) && Changed(s, t, feature, a, gone) && AlgoOk(a)
    ensures Inv(t)
  {
    hide AlgoOk, BytesDiffer, ListedOk, ObjectOk, ClientOk;
    forall f | f in t.algorithms
      ensures ListedOk(t, f)
    {
      ChangedListed(s, t, feature, a, gone, f);
    }
    forall o: nat | o < |t.objects|
      ensures ObjectOk(t, o)
    {
      ChangedObject(s, t, feature, a, gone, o);
    }
    forall i | i in t.clients
      ensures ClientOk(t, i)
    {
      ChangedClient(s, t, feature, a, gone, i);
    }
  }

  lemma CreateOld(s: State, feature: string, clientName: string, contextOk: bool)
    requires Inv(s) && feature in s.algorithms
    ensures var r := Create(s, feature, clientName, true, true, contextOk);
            && Inv(r.s)
            && (r.err == OK ==> r.id !in s.clients && r.s.clients == s.clients[r.id := feature])
            && (r.err != OK ==> r.s.clients == s.clients && r.s.algorithms == s.algorithms)
  {
    assert ListedOk(s, feature);
    var at := s.algorithms[feature];
    assert ObjectOk(s, at);
    AddOk(s.objects[at], clientName, contextOk);
    var added := AddClient(s.objects[at], clientName, contextOk);
    var t := Create(s, feature, clientName, true, true, contextOk).s;
    hide AddClient;
    if added.err == OK {
      FreshEverywhere(s, feature, s.objects[at].table, added.id);
      assert added.id in t.clients;
    }
    hide AlgoOk, Inv;
    assert s.isWorking <==> s.clients != map[] by {
      IsWorking(s);
    }
    ChangedOk(s, t, feature, added.algo, None);
  }

  lemma IsWorking(s: State)
    requires Inv(s)
    ensures s.isWorking <==> s.clients != map[]
  {
  }

  /** Destroying a known client always reaches its algorithm, removes exactly it, and drops the algorithm
      only when none of its clients is left. */
  lemma DestroyOk(s: State, id: nat, contextOk: bool, deinitOk: bool)
    requires Inv(s)
    ensures var r := Destroy(s, id, contextOk, deinitOk);
            && Inv(r.s) && r.err != ALGORITHM_MISSING
            && (r.err == INVALID_CLIENT_ID <==> id !in s.clients)
            && r.s.clients == s.clients - {id}
  {
    if id in s.clients {
      DestroyKnown(s, id, contextOk, deinitOk);
    } else {
      assert s.clients - {id} == s.clients;
    }
  }

  lemma DestroyEffect(s: State, id: nat, contextOk: bool, deinitOk: bool)
    requires Inv(s) && id in s.clients
    ensures ClientOk(s, id) && ListedOk(s, s.clients[id]) && ObjectOk(s, s.algorithms[s.clients[id]])
    ensures var r := Destroy(s, id, contextOk, deinitOk);
            var feature := s.clients[id];
            var at := s.algorithms[feature];
            var a := DelClient(s.objects[at], id, contextOk);
            && r.err != ALGORITHM_MISSING && r.err != INVALID_CLIENT_ID && r.s.clients == s.clients - {id}
            && a.table == s.objects[at].table - {id} && (!a.hasClient ==> a.table == map[])
            && r.s.objects == s.objects[at := if a.hasClient then a else Shut(a, deinitOk)]
            && r.s.algorithms == if a.hasClient then s.algorithms else s.algorithms - {feature}
  {
    assert ClientOk(s, id) && ListedOk(s, s.clients[id]) && ObjectOk(s, s.algorithms[s.clients[id]]);
  }

  /** What is left of an algorithm that a client has left, or that is shut. */
  lemma LeftObject(a: Algo, id: nat, contextOk: bool, deinitOk: bool)
    requires AlgoOk(a) && a.isInitialized
    ensures var b := DelClient(a, id, contextOk);
            var c := Shut(b, deinitOk);
            && AlgoOk(b) && b.feature == a.feature && b.featureId == a.featureId && b.isInitialized
            && AlgoOk(c) && c.feature == a.feature && c.table == map[]
  {
  }

  /** The algorithm of `feature` has become `a`, without clients, and is listed no more. */
  predicate Dropped(s: State, t: State, feature: string, a: Algo, gone: nat) {
    && feature in s.algorithms && s.algorithms[feature] < |s.objects|
    && a.feature == s.objects[s.algorithms[feature]].feature && a.table == map[]
    && s.objects[s.algorithms[feature]].table.Keys <= {gone}
    && t == s.(clients := s.clients - {gone}, isWorking := s.clients - {gone} != map[],
               objects := s.objects[s.algorithms[feature] := a], algorithms := s.algorithms - {feature})
  }

  lemma DroppedOk(s: State, t: State, feature: string, a: Algo, gone: nat)
    requires Inv(s) && Dropped(s, t, feature, a, gone) && AlgoOk(a)
    ensures Inv(t)
  {
    hide AlgoOk, BytesDiffer;
    assert ListedOk(s, feature);
    forall f | f in t.algorithms
      ensures ListedOk(t, f)
    {
      assert ListedOk(s, f);
    }
    forall o: nat | o < |t.objects|
      ensures ObjectOk(t, o)
    {
      assert ObjectOk(s, o);
      assert o != s.algorithms[feature] ==> t.objects[o] == s.objects[o];
    }
    forall i | i in t.clients
      ensures ClientOk(t, i)
    {
      assert ClientOk(s, i);
      assert ListedOk(s, s.clients[i]);
    }
  }

  lemma DestroyKnown(s: State, id: nat, contextOk: bool, deinitOk: bool)
    requires Inv(s) && id in s.clients
    ensures var r := Destroy(s, id, contextOk, deinitOk);
            && Inv(r.s) && r.err != ALGORITHM_MISSING && r.err != INVALID_CLIENT_ID
            && r.s.clients == s.clients - {id}
  {
    var feature := s.clients[id];
    DestroyEffect(s, id, contextOk, deinitOk);
    var at := s.algorithms[feature];
    LeftObject(s.objects[at], id, contextOk, deinitOk);
    var a := DelClient(s.objects[at], id, contextOk);
    var t := Destroy(s, id, contextOk, deinitOk).s;
    assert t == s.(clients := t.clients, isWorking := t.clients != map[], objects := t.objects,
        algorithms := t.algorithms);
    hide Destroy, DelClient, Shut, AlgoOk, Inv;
    if a.hasClient {
      ChangedOk(s, t, feature, a, Some(id));
    } else {
      assert forall i | i in s.objects[at].table && i != id :: i in a.table;
      DroppedOk(s, t, feature, Shut(a, deinitOk), id);
    }
  }

  lemma ClearOk(s: State, failing: set<string>)
    requires Inv(s)
    ensures Inv(Clear(s, failing)) && Exact(Clear(s, failing))
  {
    var t := Clear(s, failing);
    forall o: nat | o < |t.objects|
      ensures ObjectOk(t, o)
    {
      assert ObjectOk(s, o);
      if Listed(s, o) {
        assert ListedOk(s, s.objects[o].feature);
      }
    }
  }

  // ---------- How the calls end ----------

  /** How Destroy ends: an unknown client changes nothing. A known one leaves its algorithm's table whatever its
      hook says. If that hook works and no other client is left, the algorithm goes: it is listed no more, its
      table is empty, and it is uninitialised exactly if its own hook works. The code is OK exactly if every hook
      asked works. */
  predicate LeftWith(s: State, id: nat, contextOk: bool, deinitOk: bool, err: ErrCode, t: State) {
    if id !in s.clients then err == INVALID_CLIENT_ID && t == s
    else
      var f := s.clients[id];
      f in s.algorithms && s.algorithms[f] < |s.objects| &&
      var o := s.algorithms[f];
      var a := s.objects[o];
      var last := contextOk && a.table.Keys == {id};
      && id in a.table && a.isInitialized
      && err == (if contextOk && (last ==> deinitOk) then OK else HOOK_FAILED)
      && t == s.(clients := s.clients - {id}, isWorking := s.clients.Keys != {id},
                 algorithms := if last then s.algorithms - {f} else s.algorithms,
                 objects := s.objects[o := a.(table := a.table - {id}, hasClient := !last,
                                              isInitialized := !last || !deinitOk)])
  }

  lemma DestroySettles(s: State, id: nat, contextOk: bool, deinitOk: bool)
    requires Inv(s)
    ensures var r := Destroy(s, id, contextOk, deinitOk); LeftWith(s, id, contextOk, deinitOk, r.err, r.s)
  {
    if id in s.clients {
      assert ClientOk(s, id) && ListedOk(s, s.clients[id]);
      hide Inv, ClientOk, ObjectOk;
      LastLeaves(s.objects[s.algorithms[s.clients[id]]].table, id);
      LastLeaves(s.clients, id);
    }
  }

  lemma LastLeaves<T>(m: map<nat, T>, id: nat)
    requires id in m
    ensures m - {id} == map[] <==> m.Keys == {id}
  {
    if m.Keys == {id} {
      assert (m - {id}).Keys == {};
    }
    if m - {id} == map[] {
      assert forall k | k in m :: k == id || k in m - {id};
    }
  }

  /** How Clear ends: every listed object loses its clients and is uninitialised exactly if its hook works; the
      others stay as they are, and nothing is listed any more. */
  predicate ClearedWith(s: State, failing: set<string>, t: State) {
    && t.clients == map[] && t.algorithms == map[] && !t.isWorking && t.creators == s.creators
    && |t.objects| == |s.objects|
    && forall o: nat | o < |s.objects| ::
         var a := s.objects[o];
         t.objects[o] == if a.feature in s.algorithms && s.algorithms[a.feature] == o
                         then a.(table := map[], isInitialized := a.feature in failing)
                         else a
  }

  lemma ClearSettles(s: State, failing: set<string>)
    requires Inv(s)
    ensures ClearedWith(s, failing, Clear(s, failing))
  {
    forall o: nat | o < |s.objects|
      ensures Listed(s, o) ==> s.objects[o].isInitialized
    {
      if Listed(s, o) {
        assert ListedOk(s, s.objects[o].feature);
      }
    }
    hide Inv;
  }

  /** Create, for a feature without an algorithm: which code, and on success a new algorithm with this one client,
      which has the algorithm's first number. */
  lemma CreateFirstSettles(s: State, f: string, name: string, provided: bool, initOk: bool, contextOk: bool)
    requires Inv(s) && f !in s.algorithms
    ensures var r := Create(s, f, name, provided, initOk, contextOk);
            && r.err == (if f !in s.creators || !provided then NO_MEMORY
                         else if !initOk then INVALID_STATE
                         else if name == "" || !contextOk then INVALID_DATA
                         else OK)
            && (r.err != OK ==> r.s == s)
            && (r.err == OK ==>
                  var id := (s.creators[f] % 256) * 0x100_0000;
                  && r.id == id
                  && r.s == s.(clients := s.clients[id := f], algorithms := s.algorithms[f := |s.objects|],
                               isWorking := true,
                               objects := s.objects + [Algo(f, s.creators[f], true, true, 1, map[id := name])]))
  {
    if f in s.creators {
      var a := Algo(f, s.creators[f], true, false, 0, map[]);
      assert FirstFree(a, 0) == Some(0);
    }
    hide Inv;
  }

  /** The k-th number of a search: the feature's byte, and below it three bytes of the 32-bit counter. */
  function Nth(a: Algo, k: nat): nat {
    (a.featureId % 256) * 0x100_0000 + (a.base + k) % 0x1_0000_0000 % 0x100_0000
  }

  /** That number is free, and all before it are taken. */
  predicate FirstAt(a: Algo, k: nat) {
    k <= 500 && Nth(a, k) !in a.table && forall j: nat | j < k :: Nth(a, j) in a.table
  }

  /** Create, for a listed feature: the client gets the first free number from the counter on, which moves behind
      it. A client whose hook fails has its number all the same, but only in the algorithm. */
  lemma CreateNextSettles(s: State, f: string, name: string, provided: bool, initOk: bool, contextOk: bool, k: nat)
    requires Inv(s) && f in s.algorithms && s.algorithms[f] < |s.objects|
    requires name != "" && FirstAt(s.objects[s.algorithms[f]], k)
    ensures var a, r := s.objects[s.algorithms[f]], Create(s, f, name, provided, initOk, contextOk);
            var id := Nth(a, k);
            var added := s.objects[s.algorithms[f] := a.(table := a.table[id := name],
                                                         base := (a.base + k + 1) % 0x1_0000_0000)];
            if contextOk
            then r == Outcome(OK, s.(clients := s.clients[id := f], isWorking := true, objects := added), id)
            else r.err == INVALID_DATA && r.s == s.(objects := added)
  {
    assert ListedOk(s, f);
    var a := s.objects[s.algorithms[f]];
    var r := FirstFree(a, 0);
    assert forall j: nat :: Nth(a, j) == Candidate(a.featureId, a.base, j);
    assert r == Some(k);
    hide Inv;
  }

  // ---------- Agreement of the two levels ----------

  lemma HookFailsIff(a: Algo, clientName: string, contextOk: bool)
    ensures AddClient(a, clientName, contextOk).err == HOOK_FAILED <==>
              clientName != "" && !contextOk && FirstFree(a, 0).Some?
  {
  }

  /** Creating a client keeps the agreement unless the context hook fails for a named client in an algorithm
      that is listed and has a number to give. */
  lemma CreateKeepsExactIff(s: State, feature: string, clientName: string, provided: bool, initOk: bool,
          contextOk: bool)
    requires Inv(s) && Exact(s)
    ensures Exact(Create(s, feature, clientName, provided, initOk, contextOk).s) <==>
              !(&& feature in s.algorithms && clientName != "" && !contextOk
                && FirstFree(s.objects[s.algorithms[feature]], 0).Some?)
  {
    if feature in s.algorithms {
      HookFailsIff(s.objects[s.algorithms[feature]], clientName, contextOk);
    }
    hide AddClient, Exact;
    if feature in s.algorithms {
      assert ListedOk(s, feature);
      CreateOldExact(s, feature, clientName, contextOk);
    } else if feature in s.creators && provided && initOk {
      CreateNewExact(s, feature, clientName, contextOk);
    }
  }

  lemma CreateNewExact(s: State, feature: string, clientName: string, contextOk: bool)
    requires Inv(s) && Exact(s) && feature !in s.algorithms && feature in s.creators
    ensures Exact(Create(s, feature, clientName, true, true, contextOk).s)
  {
    var a := Algo(feature, s.creators[feature], true, false, 0, map[]);
    AddOk(a, clientName, contextOk);
    var added := AddClient(a, clientName, contextOk);
    if added.err == OK {
      FreshEverywhere(s, feature, map[], added.id);
      var t := Create(s, feature, clientName, true, true, contextOk).s;
      hide AddClient;
      GrownExact(s, t, feature, added.algo, added.id);
    }
  }

  lemma GrownExact(s: State, t: State, feature: string, a: Algo, id: nat)
    requires Inv(s) && Exact(s) && Grown(s, t, feature, a, id) && a.table.Keys == {id}
    ensures Exact(t)
  {
    forall f | f in t.algorithms
      ensures t.algorithms[f] < |t.objects| && Agrees(t, f)
    {
      if f in s.algorithms {
        assert ListedOk(s, f) && Agrees(s, f);
        assert t.objects[t.algorithms[f]] == s.objects[s.algorithms[f]];
      }
    }
  }

  lemma CreateOldExact(s: State, feature: string, clientName: string, contextOk: bool)
    requires Inv(s) && Exact(s) && feature in s.algorithms && s.algorithms[feature] < |s.objects|
    ensures Exact(Create(s, feature, clientName, true, true, contextOk).s) <==>
              AddClient(s.objects[s.algorithms[feature]], clientName, contextOk).err != HOOK_FAILED
  {
    var at := s.algorithms[feature];
    assert ListedOk(s, feature) && ObjectOk(s, at) && Agrees(s, feature);
    AddOk(s.objects[at], clientName, contextOk);
    CreateOld(s, feature, clientName, contextOk);
    var added := AddClient(s.objects[at], clientName, contextOk);
    var t := Create(s, feature, clientName, true, true, contextOk).s;
    FreshEverywhereIf(s, feature, at, added);
    if added.err == HOOK_FAILED {
      assert added.id in t.objects[at].table && added.id !in t.clients;
      assert !Agrees(t, feature);
    } else {
      forall f | f in t.algorithms
        ensures t.algorithms[f] < |t.objects| && Agrees(t, f)
      {
        CreateOldAgrees(s, feature, clientName, contextOk, f);
      }
    }
  }

  lemma CreateOldAgrees(s: State, feature: string, clientName: string, contextOk: bool, f: string)
    requires Inv(s) && Exact(s) && feature in s.algorithms && s.algorithms[feature] < |s.objects| && f in s.algorithms
    requires AddClient(s.objects[s.algorithms[feature]], clientName, contextOk).err != HOOK_FAILED
    ensures var t := Create(s, feature, clientName, true, true, contextOk).s;
            f in t.algorithms && t.algorithms[f] < |t.objects| && Agrees(t, f)
  {
    var at := s.algorithms[feature];
    assert ListedOk(s, feature) && ObjectOk(s, at) && ListedOk(s, f) && Agrees(s, f);
    AddOk(s.objects[at], clientName, contextOk);
    var added := AddClient(s.objects[at], clientName, contextOk);
    hide AddClient;
    FreshEverywhereIf(s, feature, at, added);
    hide Inv, ObjectOk, AlgoOk;
    var t := Create(s, feature, clientName, true, true, contextOk).s;
    assert t == s.(objects := s.objects[at := added.algo], clients := t.clients, isWorking := t.isWorking);
    assert t.clients == if added.err == OK then s.clients[added.id := feature] else s.clients;
    if f != feature {
      OtherFeature(s, t, at, added, f, feature);
    } else {
      CreatedAgrees(s, t, f, clientName, added);
    }
  }

  lemma OtherFeature(s: State, t: State, at: nat, added: Added, f: string, feature: string)
    requires Inv(s) && f in s.algorithms && feature in s.algorithms && f != feature && s.algorithms[feature] == at
    requires s.algorithms[f] < |s.objects| && Agrees(s, f) && at < |s.objects|
    requires t.algorithms == s.algorithms && t.objects == s.objects[at := added.algo]
    requires t.clients == s.clients || (added.id !in s.clients && t.clients == s.clients[added.id := feature])
    ensures Agrees(t, f)
  {
    assert ListedOk(s, f) && ListedOk(s, feature);
    AgreesElsewhere(s, t, f);
  }

  lemma AgreesElsewhere(s: State, t: State, f: string)
    requires f in s.algorithms && s.algorithms[f] < |s.objects| && Agrees(s, f)
    requires f in t.algorithms && t.algorithms[f] == s.algorithms[f] < |t.objects|
    requires t.objects[t.algorithms[f]] == s.objects[s.algorithms[f]]
    requires forall i | i in s.clients && s.clients[i] == f :: i in t.clients && t.clients[i] == f
    ensures Agrees(t, f)
  {
  }

  lemma CreatedAgrees(s: State, t: State, f: string, name: string, added: Added)
    requires f in s.algorithms && s.algorithms[f] < |s.objects| && Agrees(s, f)
    requires f in t.algorithms && t.algorithms[f] == s.algorithms[f] < |t.objects|
    requires t.objects[t.algorithms[f]] == added.algo
    requires if added.err == OK
             then t.clients == s.clients[added.id := f]
                  && added.algo.table == s.objects[s.algorithms[f]].table[added.id := name]
             else t.clients == s.clients && added.algo.table == s.objects[s.algorithms[f]].table
    ensures Agrees(t, f)
  {
    assert added.err == OK ==> added.id in added.algo.table;
  }

  lemma FreshEverywhereIf(s: State, feature: string, at: nat, added: Added)
    requires Inv(s) && feature in s.algorithms && s.algorithms[feature] == at < |s.objects|
    requires added.err == OK || added.err == HOOK_FAILED ==>
               added.id !in s.objects[at].table && added.id / ID_SPAN == s.objects[at].featureId % 256
    ensures added.err == OK || added.err == HOOK_FAILED ==> added.id !in s.clients
  {
    assert ListedOk(s, feature);
    if added.err == OK || added.err == HOOK_FAILED {
      FreshEverywhere(s, feature, s.objects[at].table, added.id);
    }
  }

  /** Destroying one keeps it unless the context hook fails for the algorithm's last client. */
  lemma DestroyKeepsExactIff(s: State, id: nat, contextOk: bool, deinitOk: bool)
    requires Inv(s) && Exact(s)
    ensures Exact(Destroy(s, id, contextOk, deinitOk).s) <==>
              id !in s.clients || contextOk || exists i :: i in s.clients && i != id && s.clients[i] == s.clients[id]
  {
    if id in s.clients {
      var feature := s.clients[id];
      assert ClientOk(s, id) && ListedOk(s, feature) && Agrees(s, feature);
      var at := s.algorithms[feature];
      var rest := s.objects[at].table - {id};
      if exists i :: i in s.clients && i != id && s.clients[i] == feature {
        var i :| i in s.clients && i != id && s.clients[i] == feature;
        assert ClientOk(s, i);
        assert i in rest;
      } else {
        assert forall i | i in s.clients && s.clients[i] == feature :: i == id;
        assert rest.Keys == {};
      }
      DestroyExact(s, id, contextOk, deinitOk);
    }
  }

  lemma DestroyExact(s: State, id: nat, contextOk: bool, deinitOk: bool)
    requires Inv(s) && Exact(s) && id in s.clients
    requires ClientOk(s, id)
    ensures Exact(Destroy(s, id, contextOk, deinitOk).s) <==>
              contextOk || s.objects[s.algorithms[s.clients[id]]].table - {id} != map[]
  {
    var feature := s.clients[id];
    assert ListedOk(s, feature) && Agrees(s, feature);
    var at := s.algorithms[feature];
    var rest := s.objects[at].table - {id};
    DestroyKnown(s, id, contextOk, deinitOk);
    var t := Destroy(s, id, contextOk, deinitOk).s;
    if contextOk || rest != map[] {
      forall f | f in t.algorithms
        ensures t.algorithms[f] < |t.objects| && Agrees(t, f)
      {
        DestroyAgrees(s, id, contextOk, deinitOk, f);
      }
    } else {
      assert t.objects[at].table == map[] && t.algorithms == s.algorithms;
      assert !Agrees(t, feature);
    }
  }

  lemma DestroyAgrees(s: State, id: nat, contextOk: bool, deinitOk: bool, f: string)
    requires Inv(s) && Exact(s) && id in s.clients && ClientOk(s, id)
    requires contextOk || s.objects[s.algorithms[s.clients[id]]].table - {id} != map[]
    ensures var t := Destroy(s, id, contextOk, deinitOk).s;
            f in t.algorithms ==> t.algorithms[f] < |t.objects| && Agrees(t, f)
  {
    var feature := s.clients[id];
    var t := Destroy(s, id, contextOk, deinitOk).s;
    assert ListedOk(s, feature) && Agrees(s, feature);
    if f in t.algorithms {
      assert ListedOk(s, f) && Agrees(s, f);
      if f != feature {
        AgreesElsewhere(s, t, f);
      } else {
        assert t.objects[s.algorithms[f]].table == s.objects[s.algorithms[f]].table - {id};
      }
    }
  }

  // ---------- Runs ----------

  predicate HooksWork(a: Action) {
    match a
    case CreateClient(_, _, _, _, contextOk) => contextOk
    case DestroyClient(_, contextOk, _) => contextOk
    case ClearAll(_) => true
  }

  lemma InvStep(s: State, a: Action)
    requires Inv(s)
    ensures Inv(Apply(s, a))
    ensures Exact(s) && HooksWork(a) ==> Exact(Apply(s, a))
  {
    match a
    case CreateClient(feature, clientName, provided, initOk, contextOk) =>
      CreateOk(s, feature, clientName, provided, initOk, contextOk);
      if Exact(s) && contextOk {
        if feature in s.algorithms {
          assert ListedOk(s, feature) && ObjectOk(s, s.algorithms[feature]);
          AddOk(s.objects[s.algorithms[feature]], clientName, contextOk);
        }
        CreateKeepsExactIff(s, feature, clientName, provided, initOk, contextOk);
      }
    case DestroyClient(id, contextOk, deinitOk) =>
      DestroyOk(s, id, contextOk, deinitOk);
      if Exact(s) {
        DestroyKeepsExactIff(s, id, contextOk, deinitOk);
      }
    case ClearAll(failing) => ClearOk(s, failing);
  }

  lemma {:induction false} InvRun(s: State, actions: seq<Action>)
    requires Inv(s)
    ensures Inv(Run(s, actions))
    ensures Exact(s) && (forall a | a in actions :: HooksWork(a)) ==> Exact(Run(s, actions))
    decreases |actions|
  {
    if actions != [] {
      InvStep(s, actions[0]);
      InvRun(Apply(s, actions[0]), actions[1..]);
    }
  }

  lemma {:induction false} RunMore(s: State, actions: seq<Action>, a: Action)
    ensures Run(s, actions + [a]) == Apply(Run(s, actions), a)
    decreases |actions|
  {
    if actions == [] {
      assert [] + [a] == [a];
      assert Run(Apply(s, a), []) == Apply(s, a);
    } else {
      assert (actions + [a])[1..] == actions[1..] + [a];
      RunMore(Apply(s, actions[0]), actions[1..], a);
    }
  }

  /** Two-level agreement: after any run with working context hooks, an identifier belongs to feature F in
      the server exactly when the listed algorithm of F, which is initialised, has it in its table; every
      listed algorithm has clients; and the server is working exactly when it has clients. */
  lemma RegistryAgrees(creators: Creators, actions: seq<Action>)
    requires BytesDiffer(creators) && forall a | a in actions :: HooksWork(a)
    ensures var s := Run(Initial(creators), actions);
            && (forall f | f in s.algorithms ::
                  && s.algorithms[f] < |s.objects|
                  && s.objects[s.algorithms[f]].isInitialized
                  && s.objects[s.algorithms[f]].table != map[])
            && (forall id, f :: (id in s.clients && s.clients[id] == f) <==>
                  (f in s.algorithms && id in s.objects[s.algorithms[f]].table))
            && (s.isWorking <==> s.clients != map[])
  {
    InvRun(Initial(creators), actions);
    var s := Run(Initial(creators), actions);
    forall f | f in s.algorithms
      ensures ListedOk(s, f) && Agrees(s, f)
    {
    }
    forall id, f
      ensures (id in s.clients && s.clients[id] == f) <==> (f in s.algorithms && id in s.objects[s.algorithms[f]].table)
    {
      if id in s.clients {
        assert ClientOk(s, id);
      }
      if f in s.algorithms {
        assert Agrees(s, f);
      }
    }
  }

  /** The branches for a missing algorithm are never taken, and no live client is ever overwritten,
      whatever the hooks answer. */
  lemma MissingNeverHappens(creators: Creators, actions: seq<Action>, id: nat, feature: string, clientName: string,
                            provided: bool, initOk: bool, contextOk: bool, deinitOk: bool)
    requires BytesDiffer(creators)
    ensures var s := Run(Initial(creators), actions);
            var made := Create(s, feature, clientName, provided, initOk, contextOk);
            && Lookup(s, id).err != ALGORITHM_MISSING
            && Destroy(s, id, contextOk, deinitOk).err != ALGORITHM_MISSING
            && (made.err == OK ==> made.id !in s.clients)
  {
    InvRun(Initial(creators), actions);
    var s := Run(Initial(creators), actions);
    CreateOk(s, feature, clientName, provided, initOk, contextOk);
    DestroyOk(s, id, contextOk, deinitOk);
    if id in s.clients {
      assert ClientOk(s, id);
    }
  }

  // ---------- Calls in flight ----------

  lemma {:induction false} ObjectsStay(s: State, actions: seq<Action>, o: nat)
    requires Inv(s) && o < |s.objects|
    ensures o < |Run(s, actions).objects| && Run(s, actions).objects[o].feature == s.objects[o].feature
    decreases |actions|
  {
    if actions != [] {
      InvStep(s, actions[0]);
      ObjectStays(s, actions[0], o);
      ObjectsStay(Apply(s, actions[0]), actions[1..], o);
    }
  }

  lemma ObjectStays(s: State, a: Action, o: nat)
    requires Inv(s) && o < |s.objects|
    ensures o < |Apply(s, a).objects| && Apply(s, a).objects[o].feature == s.objects[o].feature
  {
    if a.CreateClient? && a.feature in s.algorithms {
      assert ListedOk(s, a.feature) && ObjectOk(s, s.algorithms[a.feature]);
      AddOk(s.objects[s.algorithms[a.feature]], a.clientName, a.contextOk);
    }
  }

  /** A call looks its object up, anything happens, and then the object checks the client. Even if hooks
      failed, the check passes only if the server still lists that object; and if context hooks work, only
      if the server still has that client under the object's feature. */
  lemma StaleCallsAreRefused(creators: Creators, before: seq<Action>, id: nat, meanwhile: seq<Action>)
    requires BytesDiffer(creators)
    ensures var s := Run(Initial(creators), before);
            var found := Lookup(s, id);
            var t := Run(s, meanwhile);
            found.err == OK ==>
              && found.at < |t.objects|
              && (Passes(t.objects[found.at], id) ==> Listed(t, found.at))
              && ((forall a | a in before + meanwhile :: HooksWork(a)) ==>
                    (Passes(t.objects[found.at], id) <==>
                     Listed(t, found.at) && id in t.clients && t.clients[id] == t.objects[found.at].feature))
  {
    InvRun(Initial(creators), before);
    var s := Run(Initial(creators), before);
    var found := Lookup(s, id);
    if found.err == OK {
      InvRun(s, meanwhile);
      ObjectsStay(s, meanwhile, found.at);
      var t := Run(s, meanwhile);
      assert ObjectOk(t, found.at);
      if forall a | a in before + meanwhile :: HooksWork(a) {
        assert Exact(s) by {
          forall a | a in before
            ensures HooksWork(a)
          {
            assert a in before + meanwhile;
          }
        }
        forall a | a in meanwhile
          ensures HooksWork(a)
        {
          assert a in before + meanwhile;
        }
        assert Exact(t);
        PassesIff(t, found.at, id);
      }
    }
  }

  lemma PassesIff(t: State, o: nat, id: nat)
    requires Inv(t) && Exact(t) && o < |t.objects|
    ensures Passes(t.objects[o], id) <==> Listed(t, o) && id in t.clients && t.clients[id] == t.objects[o].feature
  {
    assert ObjectOk(t, o);
    if Listed(t, o) {
      assert ListedOk(t, t.objects[o].feature) && Agrees(t, t.objects[o].feature);
      if id in t.clients {
        assert ClientOk(t, id);
      }
    }
  }
}

/** Runs of the registry that end where a promise would fail. */
module RegistryRuns {
  import opened Basics
  import opened ClientIds
  import opened RegistrySpec
  import opened RegistryTheorems

  lemma RunOne(s: State, a: Action)
    ensures Run(s, [a]) == Apply(s, a)
  {
    assert Run(Apply(s, a), []) == Apply(s, a);
  }

  lemma RunTwo(s: State, a: Action, b: Action)
    ensures Run(s, [a, b]) == Apply(Apply(s, a), b)
  {
    assert [a, b][1..] == [b];
    RunOne(Apply(s, a), b);
  }

  /** A new algorithm gives its first number. */
  lemma FirstClient(s: State, f: string)
    requires f in s.creators && f !in s.algorithms
    ensures var r := Create(s, f, "a", true, true, true);
            && r.err == OK && r.id == Candidate(s.creators[f], 0, 0)
            && r.s.clients == s.clients[r.id := f] && r.s.algorithms == s.algorithms[f := |s.objects|]
            && r.s.objects == s.objects + [Algo(f, s.creators[f], true, true, 1, map[r.id := "a"])]
            && r.s.creators == s.creators
  {
    var a := Algo(f, s.creators[f], true, false, 0, map[]);
    assert FirstFree(a, 0) == Some(0);
  }

  /** A second client whose context hook fails is known to the algorithm, but not to the server. */
  lemma CreateHookLeaksClient(creators: Creators, f: string)
    requires BytesDiffer(creators) && f in creators
    ensures var actions := [CreateClient(f, "a", true, true, true), CreateClient(f, "b", true, true, false)];
            var t, id := Run(Initial(creators), actions), Candidate(creators[f], 1, 0);
            && !Exact(t) && id !in t.clients
            && f in t.algorithms && t.algorithms[f] < |t.objects| && id in t.objects[t.algorithms[f]].table
  {
    var first, second := CreateClient(f, "a", true, true, true), CreateClient(f, "b", true, true, false);
    var s := Apply(Initial(creators), first);
    FirstClient(Initial(creators), f);
    InvStep(Initial(creators), first);
    AddSucceeds(s.objects[0], "b");
    CreateKeepsExactIff(s, f, "b", true, true, false);
    RunTwo(Initial(creators), first, second);
  }

  /** When the context hook fails for the last client, the algorithm stays listed without one. */
  lemma DestroyHookLeavesEmpty(creators: Creators, f: string, deinitOk: bool)
    requires BytesDiffer(creators) && f in creators
    ensures var id := Candidate(creators[f], 0, 0);
            var t := Run(Initial(creators),
                [CreateClient(f, "a", true, true, true), DestroyClient(id, false, deinitOk)]);
            && !Exact(t) && f in t.algorithms && t.algorithms[f] < |t.objects|
               && t.objects[t.algorithms[f]].table == map[]
  {
    var first := CreateClient(f, "a", true, true, true);
    var s := Apply(Initial(creators), first);
    FirstClient(Initial(creators), f);
    InvStep(Initial(creators), first);
    var id := Candidate(creators[f], 0, 0);
    DestroyKeepsExactIff(s, id, false, deinitOk);
    RunTwo(Initial(creators), first, DestroyClient(id, false, deinitOk));
    assert s.objects[0].table - {id} == map[];
  }

  /** Beyond 256 features two first clients get the same number, and the second one takes the place of the
      first in the server's map. */
  lemma ManyFeaturesOverwrite(creators: Creators) returns (f: string, g: string)
    requires Numbered(creators) && |creators| > 256
    ensures f in creators && g in creators && f != g
    ensures var s := Run(Initial(creators), [CreateClient(f, "a", true, true, true)]);
            var made := Create(s, g, "a", true, true, true);
            && made.err == OK && made.id in s.clients && s.clients[made.id] == f
            && made.s.clients == map[made.id := g] && f in made.s.algorithms && g in made.s.algorithms
  {
    assert Used(creators, creators.Keys, 1) && Used(creators, creators.Keys, 257);
    f :| f in creators && creators[f] == 1;
    g :| g in creators && creators[g] == 257;
    var first := CreateClient(f, "a", true, true, true);
    FirstClient(Initial(creators), f);
    var s := Apply(Initial(creators), first);
    RunOne(Initial(creators), first);
    FirstClient(s, g);
    hide Create, AddClient;
    ClientIdInjective(1, 0, 257, 0);
    assert Candidate(1, 0, 0) == Candidate(257, 0, 0);
  }
}
