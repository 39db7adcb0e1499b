/**
 * The registry as the objects that keep it: algorithms with their client tables, and the server
 * that shares them with calls in flight. A valid server is one that a run of RegistrySpec leads
 * to; every method keeps that and says by which action it goes on.
 */
module RegistryServer {
  import opened Basics
  import opened ClientIds
  import opened RegistrySpec
  import opened RegistryTheorems

  lemma ShutOneMore(s: State, failing: set<string>, features: set<string>, f: string)
    requires Inv(s) && f in s.algorithms && f !in features
    ensures var before := ShutListed(s, failing, features);
            var o := s.algorithms[f];
            && o < |before| && before[o] == s.objects[o]
            && ShutListed(s, failing, features + {f}) == before[o := Shut(before[o], f !in failing)]
  {
    assert ListedOk(s, f);
  }

  lemma ShutNone(s: State, failing: set<string>)
    ensures ShutListed(s, failing, {}) == s.objects
  {
  }

  lemma NextBase(base: nat, i: nat)
    ensures ((base + i) % UINT32_SPAN + 1) % UINT32_SPAN == (base + i + 1) % UINT32_SPAN
    ensures base < UINT32_SPAN ==> base % UINT32_SPAN == base
  {
  }

  lemma NextAttempt(a: Algo, i: nat)
    requires i <= MAX_CLIENT_GEN_COUNT
    ensures FirstFree(a, i) == if Candidate(a.featureId, a.base, i) in a.table then FirstFree(a, i + 1) else Some(i)
    ensures ((a.base + i) % UINT32_SPAN + 1) % UINT32_SPAN == (a.base + i + 1) % UINT32_SPAN
  {
    NextBase(a.base, i);
  }

  class Algorithm {
    const feature: string
    const featureId: nat
    var isInitialized: bool
    var hasClient: bool
    var clientIdBase: nat
    var table: Table

    constructor (feature: string, featureId: nat)
      ensures View() == Algo(feature, featureId, false, false, 0, map[])
    {
      this.feature, this.featureId := feature, featureId;
      isInitialized, hasClient, clientIdBase, table := false, false, 0, map[];
    }

    ghost function View(): Algo
      reads this
    {
      Algo(feature, featureId, isInitialized, hasClient, clientIdBase, table)
    }

    /** The counter wraps at 32 bits. */
    method GenerateOne() returns (id: nat)
      requires clientIdBase < UINT32_SPAN
      modifies this`clientIdBase
      ensures id == ClientId(featureId, old(clientIdBase))
      ensures clientIdBase == (old(clientIdBase) + 1) % UINT32_SPAN
    {
      id := ClientId(featureId, clientIdBase);
      clientIdBase := if clientIdBase + 1 == UINT32_SPAN then 0 else clientIdBase + 1;
    }

    /** At most 501 attempts; the first free number is taken, and only if there is none it fails. */
    method GenerateClientID() returns (found: Option<nat>)
      requires clientIdBase < UINT32_SPAN
      modifies this`clientIdBase
      ensures match FirstFree(old(View()), 0)
              case None =>
                && found == None
                && clientIdBase == (old(clientIdBase) + MAX_CLIENT_GEN_COUNT + 1) % UINT32_SPAN
              case Some(k) =>
                && found == Some(Candidate(featureId, old(clientIdBase), k))
                && clientIdBase == (old(clientIdBase) + k + 1) % UINT32_SPAN
    {
      hide FirstFree, ClientId;
      ghost var a := View();
      NextBase(a.base, 0);
      var i := 0;
      while true
        invariant 0 <= i <= MAX_CLIENT_GEN_COUNT + 1
        invariant clientIdBase == (a.base + i) % UINT32_SPAN
        invariant FirstFree(a, 0) == FirstFree(a, i)
        decreases MAX_CLIENT_GEN_COUNT + 1 - i
      {
        if i > MAX_CLIENT_GEN_COUNT {
          return None;
        }
        NextAttempt(a, i);
        var id := GenerateOne();
        assert id == Candidate(featureId, a.base, i);
        if id !in table {
          return Some(id);
        }
        i := i + 1;
      }
    }

    method Initialize(hookOk: bool) returns (err: ErrCode)
      modifies this`isInitialized
      ensures View() == old(View()).(isInitialized := old(isInitialized) || hookOk)
      ensures err == if isInitialized then OK else HOOK_FAILED
    {
      if isInitialized {
        return OK;
      }
      if !hookOk {
        return HOOK_FAILED;
      }
      isInitialized := true;
      err := OK;
    }

    method Deinitialize(hookOk: bool) returns (err: ErrCode)
      modifies this`isInitialized, this`table
      ensures View() == Shut(old(View()), hookOk)
      ensures isInitialized == (old(isInitialized) && !hookOk)
      ensures table == if old(isInitialized) then map[] else old(table)
      ensures err == if old(isInitialized) && !hookOk then HOOK_FAILED else OK
    {
      if !isInitialized {
        return OK;
      }
      table := map[];
      if !hookOk {
        return HOOK_FAILED;
      }
      isInitialized := false;
      err := OK;
    }

    method Add(clientName: string, contextOk: bool) returns (err: ErrCode, id: nat)
      requires clientIdBase < UINT32_SPAN
      modifies this`clientIdBase, this`table, this`hasClient
      ensures AddClient(old(View()), clientName, contextOk) == Added(err, View(), id) && clientIdBase < UINT32_SPAN
      ensures hasClient == (old(hasClient) || err == OK)
      ensures if err == OK || err == HOOK_FAILED then
                && clientName != "" && contextOk == (err == OK)
                && id !in old(table) && table == old(table)[id := clientName]
              else table == old(table) && err == if clientName == "" then INVALID_PARAM else INVALID_STATE
    {
      id := 0;
      if clientName == "" {
        return INVALID_PARAM, 0;
      }
      var found := GenerateClientID();
      if found.None? {
        return INVALID_STATE, 0;
      }
      id := found.value;
      table := table[id := clientName];
      if !contextOk {
        return HOOK_FAILED, id;
      }
      hasClient := true;
      err := OK;
    }

    method Del(id: nat, contextOk: bool) returns (err: ErrCode)
      modifies this`table, this`hasClient
      ensures View() == DelClient(old(View()), id, contextOk)
      ensures table == old(table) - {id}
      ensures hasClient == (old(hasClient) && !(id in old(table) && contextOk && table == map[]))
      ensures err == if id !in old(table) then INVALID_PARAM else if contextOk then OK else HOOK_FAILED
    {
      if id !in table {
        return INVALID_PARAM;
      }
      table := table - {id};
      if !contextOk {
        return HOOK_FAILED;
      }
      if table == map[] {
        hasClient := false;
      }
      err := OK;
    }

    /** The checks of Execute. */
    method Check(id: nat) returns (err: ErrCode)
      ensures err == OK <==> Passes(View(), id)
      ensures err == if !isInitialized then INVALID_STATE
                     else if id in table && table[id] != "" then OK else INVALID_PARAM
    {
      if !isInitialized {
        return INVALID_STATE;
      }
      if id !in table || table[id] == "" {
        return INVALID_PARAM;
      }
      err := OK;
    }
  }

  ghost function ViewsOf(objects: seq<Algorithm>): (views: seq<Algo>)
    reads objects
    ensures |views| == |objects| && forall i | 0 <= i < |objects| :: views[i] == objects[i].View()
  {
    if objects == [] then []
    else ViewsOf(objects[..|objects| - 1]) + [objects[|objects| - 1].View()]
  }

  /** Of the objects seen `before` only number k looks different now. */
  lemma OneChanged(objects: seq<Algorithm>, before: seq<Algo>, k: nat)
    requires k < |objects| == |before|
    requires forall i | 0 <= i < |objects| && i != k :: objects[i].View() == before[i]
    ensures ViewsOf(objects) == before[k := objects[k].View()]
  {
    hide ViewsOf;
  }

  class VideoProcessingServer {
    const creators: Creators
    var clients: map<nat, string>
    /** References are shared with the calls that are being executed. */
    var algorithms: map<string, Algorithm?>
    var isWorking: bool
    /** Every algorithm that was ever listed, and where in that list those of `algorithms` stand. */
    ghost var objects: seq<Algorithm>
    ghost var places: map<string, nat>
    ghost var history: seq<Action>

    ghost function View(): State
      reads this, objects
    {
      State(creators, clients, places, isWorking, ViewsOf(objects))
    }

    /** Two entries of `objects` are two objects, and `places` says where each listed one stands. */
    ghost predicate Placed()
      reads this`algorithms, this`objects, this`places, objects
    {
      && (forall i, j | 0 <= i < j < |objects| :: objects[i] != objects[j])
      && (forall o | o in objects :: o.clientIdBase < UINT32_SPAN)
      && places.Keys == algorithms.Keys
      && (forall f | f in algorithms ::
            if algorithms[f] == null then places[f] >= |objects|
            else places[f] < |objects| && objects[places[f]] == algorithms[f])
    }

    ghost predicate Valid()
      reads this, objects
    {
      BytesDiffer(creators) && Placed() && View() == Run(Initial(creators), history)
    }

    constructor (creators: Creators)
      requires BytesDiffer(creators)
      ensures Valid() && history == [] && objects == [] && View() == Initial(creators)
    {
      this.creators := creators;
      clients, algorithms, isWorking := map[], map[], false;
      objects, places, history := [], map[], [];
    }

    /** The fields have moved from `s` by action `a`. */
    ghost method Record(s: State, a: Action)
      requires BytesDiffer(creators) && Placed() && s == Run(Initial(creators), history)
      requires View() == Apply(s, a)
      modifies this`history
      ensures Valid() && history == old(history) + [a]
    {
      RunMore(Initial(creators), history, a);
      history := history + [a];
    }

    lemma Holds()
      requires Valid()
      ensures Inv(View())
    {
      InvRun(Initial(creators), history);
    }

    /** The guards against null references never fire. */
    lemma NoNull()
      requires Valid()
      ensures forall f | f in algorithms :: algorithms[f] != null
    {
      Holds();
      forall f | f in algorithms
        ensures algorithms[f] != null
      {
        assert ListedOk(View(), f);
      }
    }

    /** `provided`, `initOk` and `contextOk` are the answers of the factory and the hooks. */
    method CreateLocked(feature: string, clientName: string, provided: bool, initOk: bool, contextOk: bool)
      returns (err: ErrCode, id: nat)
      requires Valid()
      modifies this, objects
      ensures Valid() && forall o | o in objects :: o in old(objects) || fresh(o)
      ensures history == old(history) + [CreateClient(feature, clientName, provided, initOk, contextOk)]
      ensures Create(old(View()), feature, clientName, provided, initOk, contextOk) == Outcome(err, View(), id)
    {
      hide ViewsOf, Run, Inv;
      NoNull();
      ghost var s := View();
      err, id := Admit(feature, clientName, provided, initOk, contextOk);
      hide Create;
      Record(s, CreateClient(feature, clientName, provided, initOk, contextOk));
    }

    method Admit(feature: string, clientName: string, provided: bool, initOk: bool, contextOk: bool)
      returns (err: ErrCode, id: nat)
      requires Placed() && forall f | f in algorithms :: algorithms[f] != null
      modifies this`clients, this`algorithms, this`isWorking, this`objects, this`places, objects
      ensures Placed() && forall o | o in objects :: o in old(objects) || fresh(o)
      ensures Create(old(View()), feature, clientName, provided, initOk, contextOk) == Outcome(err, View(), id)
    {
      hide ViewsOf, AddClient;
      if feature !in algorithms || algorithms[feature] == null {
        err, id := CreateFirst(feature, clientName, provided, initOk, contextOk);
      } else {
        err, id := CreateNext(feature, clientName, contextOk);
      }
    }

    /** A feature without an algorithm: a new one is listed only if its first client can be added. */
    method CreateFirst(feature: string, clientName: string, provided: bool, initOk: bool, contextOk: bool)
      returns (err: ErrCode, id: nat)
      requires Placed() && feature !in algorithms && forall f | f in algorithms :: algorithms[f] != null
      modifies this`clients, this`algorithms, this`isWorking, this`objects, this`places
      ensures Placed() && forall o | o in objects :: o in old(objects) || fresh(o)
      ensures Create(old(View()), feature, clientName, provided, initOk, contextOk) == Outcome(err, View(), id)
    {
      hide ViewsOf, AddClient;
      assert feature !in places;
      hide Placed;
      id := 0;
      if feature !in creators || !provided {
        return NO_MEMORY, 0;
      }
      var algo;
      err, algo, id := MakeAlgorithm(feature, clientName, initOk, contextOk);
      if err == OK {
        Open(feature, algo, id);
      }
    }

    method Open(feature: string, algo: Algorithm, id: nat)
      requires Placed() && forall f | f in algorithms :: algorithms[f] != null
      requires feature !in algorithms && algo !in objects && algo.clientIdBase < UINT32_SPAN
      modifies this`clients, this`algorithms, this`isWorking, this`objects, this`places
      ensures Placed() && objects == old(objects) + [algo]
      ensures View() == old(View()).(clients := old(clients)[id := feature], isWorking := true,
                                     algorithms := old(places)[feature := |old(objects)|],
                                     objects := old(View()).objects + [algo.View()])
    {
      hide ViewsOf, Placed;
      clients := clients[id := feature];
      Enlist(feature, algo);
      isWorking := true;
    }

    method MakeAlgorithm(feature: string, clientName: string, initOk: bool, contextOk: bool)
      returns (err: ErrCode, algo: Algorithm, id: nat)
      requires feature in creators
      ensures fresh(algo) && algo.clientIdBase < UINT32_SPAN
      ensures var added := AddClient(Algo(feature, creators[feature], true, false, 0, map[]), clientName, contextOk);
              if !initOk then err == INVALID_STATE && id == 0
              else if added.err != OK then err == INVALID_DATA && id == 0
              else err == OK && id == added.id && algo.View() == added.algo
    {
      hide AddClient;
      algo := new Algorithm(feature, creators[feature]);
      var started := algo.Initialize(initOk);
      if started != OK {
        return INVALID_STATE, algo, 0;
      }
      err, id := algo.Add(clientName, contextOk);
      if err != OK {
        return INVALID_DATA, algo, 0;
      }
    }

    method Enlist(feature: string, algo: Algorithm)
      requires Placed() && forall f | f in algorithms :: algorithms[f] != null
      requires feature !in algorithms && algo !in objects && algo.clientIdBase < UINT32_SPAN
      modifies this`algorithms, this`objects, this`places
      ensures Placed() && objects == old(objects) + [algo]
      ensures View() == old(View()).(algorithms := old(places)[feature := |old(objects)|],
                                     objects := old(View()).objects + [algo.View()])
    {
      hide ViewsOf;
      algorithms := algorithms[feature := algo];
      places := places[feature := |objects|];
      objects := objects + [algo];
    }

    method CreateNext(feature: string, clientName: string, contextOk: bool) returns (err: ErrCode, id: nat)
      requires Placed() && feature in algorithms && algorithms[feature] != null
      modifies this`clients, this`isWorking, objects
      ensures Placed() && objects == old(objects)
      ensures Create(old(View()), feature, clientName, true, true, contextOk) == Outcome(err, View(), id)
    {
      hide ViewsOf, AddClient;
      id := 0;
      ghost var s := View();
      var algo := algorithms[feature];
      var added, newId := algo.Add(clientName, contextOk);
      OneChanged(objects, s.objects, places[feature]);
      if added != OK {
        return INVALID_DATA, 0;
      }
      id := newId;
      clients := clients[id := feature];
      isWorking := true;
      err := OK;
    }

    method DestroyLocked(id: nat, contextOk: bool, deinitOk: bool) returns (err: ErrCode)
      requires Valid()
      modifies this, objects
      ensures Valid() && objects == old(objects)
      ensures history == old(history) + [DestroyClient(id, contextOk, deinitOk)]
      ensures Destroy(old(View()), id, contextOk, deinitOk) == Outcome(err, View(), id)
      ensures LeftWith(old(View()), id, contextOk, deinitOk, err, View())
    {
      Holds();
      DestroySettles(View(), id, contextOk, deinitOk);
      hide ViewsOf, Run, DelClient, Shut, Inv, LeftWith;
      ghost var s := View();
      err := Erase(id, contextOk, deinitOk);
      hide Destroy;
      Record(s, DestroyClient(id, contextOk, deinitOk));
    }

    method Erase(id: nat, contextOk: bool, deinitOk: bool) returns (err: ErrCode)
      requires Placed()
      modifies this`clients, this`isWorking, this`algorithms, this`places, objects
      ensures Placed() && objects == old(objects)
      ensures Destroy(old(View()), id, contextOk, deinitOk) == Outcome(err, View(), id)
    {
      hide ViewsOf, DelClient, Shut;
      if id !in clients {
        return INVALID_CLIENT_ID;
      }
      var feature := clients[id];
      clients := clients - {id};
      isWorking := clients != map[];
      if feature !in algorithms {
        return ALGORITHM_MISSING;
      }
      if algorithms[feature] == null {
        Unlist(feature);
        return ALGORITHM_MISSING;
      }
      err := Leave(feature, id, contextOk, deinitOk);
      hide Placed;
    }

    method Unlist(feature: string)
      requires Placed() && feature in algorithms
      modifies this`algorithms, this`places
      ensures Placed() && View() == old(View()).(algorithms := old(places) - {feature})
    {
      algorithms := algorithms - {feature};
      places := places - {feature};
    }

    /** The client leaves its algorithm; the last one takes the algorithm with it. */
    method Leave(feature: string, id: nat, contextOk: bool, deinitOk: bool) returns (err: ErrCode)
      requires Placed() && feature in algorithms && algorithms[feature] != null
      modifies this`algorithms, this`places, objects
      ensures Placed() && objects == old(objects)
      ensures var s, o := old(View()), old(places[feature]);
              var a := DelClient(s.objects[o], id, contextOk);
              if a.hasClient
              then && View() == s.(objects := s.objects[o := a])
                   && err == (if id !in s.objects[o].table then INVALID_PARAM
                              else if contextOk then OK else HOOK_FAILED)
              else && View() == s.(objects := s.objects[o := Shut(a, deinitOk)], algorithms := s.algorithms - {feature})
                   && err == if Shut(a, deinitOk).isInitialized then HOOK_FAILED else OK
    {
      hide ViewsOf, DelClient, Shut;
      ghost var s := View();
      var algo := algorithms[feature];
      err := algo.Del(id, contextOk);
      OneChanged(objects, s.objects, places[feature]);
      if !algo.hasClient {
        err := algo.Deinitialize(deinitOk);
        OneChanged(objects, s.objects, places[feature]);
        Unlist(feature);
      }
    }

    /** Shuts the listed algorithms one after another, in any order, then forgets everything. */
    method ClearAlgorithms(failing: set<string>)
      requires Valid()
      modifies this, objects
      ensures Valid() && objects == old(objects) && history == old(history) + [ClearAll(failing)]
      ensures View() == Clear(old(View()), failing)
      ensures ClearedWith(old(View()), failing, View()) && algorithms == map[]
    {
      Holds();
      ClearSettles(View(), failing);
      hide ViewsOf, Run, Inv, ShutListed, Placed, BytesDiffer, ClearedWith;
      ghost var s := View();
      ShutAndForget(failing);
      hide Clear;
      Record(s, ClearAll(failing));
    }

    method ShutAndForget(failing: set<string>)
      requires Placed() && Inv(View())
      modifies this`algorithms, this`places, this`clients, this`isWorking, objects
      ensures Placed() && algorithms == map[] && View() == Clear(old(View()), failing)
    {
      hide ViewsOf, Inv, ShutListed, Placed;
      ShutAll(failing);
      ForgetAll();
    }

    method ForgetAll()
      requires Placed()
      modifies this`algorithms, this`places, this`clients, this`isWorking
      ensures Placed() && algorithms == map[]
      ensures View() == old(View()).(algorithms := map[], clients := map[], isWorking := false)
    {
      hide ViewsOf;
      algorithms, places := map[], map[];
      clients := map[];
      isWorking := false;
    }

    method ShutAll(failing: set<string>)
      requires Placed() && Inv(View())
      modifies objects
      ensures Placed()
      ensures View() == old(View()).(objects := ShutListed(old(View()), failing, old(View()).algorithms.Keys))
    {
      hide ViewsOf, Inv;
      ghost var s := View();
      var todo := algorithms.Keys;
      ShutNone(s, failing);
      hide ShutListed, Shut;
      assert s.algorithms.Keys - todo == {};
      while todo != {}
        invariant Placed() && todo <= algorithms.Keys
        invariant View() == s.(objects := ShutListed(s, failing, s.algorithms.Keys - todo))
      {
        var f :| f in todo;
        ghost var done := s.algorithms.Keys - todo;
        ShutOneMore(s, failing, done, f);
        ShutOne(f, f !in failing);
        todo := todo - {f};
        assert s.algorithms.Keys - todo == done + {f};
      }
      assert s.algorithms.Keys - {} == s.algorithms.Keys;
    }

    method ShutOne(f: string, hookOk: bool)
      requires Placed() && f in algorithms
      modifies objects
      ensures Placed()
      ensures var s := old(View());
              View() == if places[f] < |s.objects|
                        then s.(objects := s.objects[places[f] := Shut(s.objects[places[f]], hookOk)])
                        else s
    {
      hide ViewsOf, Shut;
      ghost var s := View();
      if algorithms[f] != null {
        var _ := algorithms[f].Deinitialize(hookOk);
        OneChanged(objects, s.objects, places[f]);
      }
    }

    /** The lookup half of Execute: the call goes on with the object, whatever happens to the server. */
    method Find(id: nat) returns (err: ErrCode, algorithm: Algorithm?)
      requires Valid()
      ensures var found := Lookup(View(), id);
              err == found.err && (err == OK ==> algorithm != null && algorithm == objects[found.at])
    {
      if id !in clients {
        return INVALID_CLIENT_ID, null;
      }
      if clients[id] !in algorithms || algorithms[clients[id]] == null {
        return ALGORITHM_MISSING, null;
      }
      return OK, algorithms[clients[id]];
    }

    /** Execute without interference: the operation is reached exactly for a client with a listed algorithm that
        knows it. */
    method Execute(id: nat) returns (err: ErrCode)
      requires Valid()
      ensures err == OK <==>
                id in clients && clients[id] in places && places[clients[id]] < |objects|
                && Passes(objects[places[clients[id]]].View(), id)
      ensures err == INVALID_CLIENT_ID <==> id !in clients
    {
      var algorithm;
      err, algorithm := Find(id);
      if err == OK {
        err := algorithm.Check(id);
      }
    }
  }

  /** However old the reference that a call holds: its object lets it through only while the server lists it. */
  lemma DroppedObjectsRefuse(server: VideoProcessingServer, o: nat, id: nat)
    requires server.Valid() && o < |server.objects|
    ensures Passes(server.objects[o].View(), id) ==>
              && server.objects[o].feature in server.algorithms
              && server.algorithms[server.objects[o].feature] == server.objects[o]
  {
    server.Holds();
    assert ObjectOk(server.View(), o);
  }
}
