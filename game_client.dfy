/** GameClient: the client side of scene bookkeeping and pending creations. */
module Client {
  import opened Network
  import opened Lists
  import opened AttachCodes
  import opened Rendezvous

  // ---------------------------------------------------------------------------------------
  // Frames from the server (ReadBinary)

  /** VIEW_INITIALIZE, and VIEW_CHANGE with Add: the frames that halt object creation. */
  predicate HaltsCreates(frame: Frame)
  {
    frame.groupId == ViewInitialize || (frame.groupId == ViewChange && frame.mode == Add.Value())
  }

  predicate IsRemove(frame: Frame)
  {
    frame.groupId == ViewChange && frame.mode == Remove.Value()
  }

  /** The frames on which ReadBinary dereferences the networker. */
  predicate TouchesNetworker(frame: Frame)
  {
    HaltsCreates(frame) || (IsRemove(frame) && frame.sceneId >= 0)
  }

  /** loadingScenes after ReadBinary: a VIEW_INITIALIZE makes its scene the only one loading,
      an Add adds one occurrence, a Remove takes one occurrence away; anything else (another
      group, a VIEW_CHANGE with Reset or an unknown mode) leaves it alone. */
  function LoadingAfter(loading: seq<int32>, frame: Frame): seq<int32>
  {
    match frame.groupId
    case ViewInitialize => [frame.sceneId]
    case ViewChange =>
      if frame.mode == Add.Value() then loading + [frame.sceneId]
      else if frame.mode == Remove.Value() then RemoveFirst(loading, frame.sceneId)
      else loading
    case OtherGroup(_) => loading
  }

  lemma LoadingAfterCases(loading: seq<int32>, frame: Frame)
    ensures var r := LoadingAfter(loading, frame);
      && (frame.groupId == ViewInitialize ==> r == [frame.sceneId])
      && (frame.groupId == ViewChange && frame.mode == Add.Value() ==>
            multiset(r) == multiset(loading) + multiset{frame.sceneId} && r[..|loading|] == loading)
      && (IsRemove(frame) ==> multiset(r) == multiset(loading) - multiset{frame.sceneId})
      && (!HaltsCreates(frame) && !IsRemove(frame) ==> r == loading)
  {
    if frame.groupId == ViewChange && frame.mode == Add.Value() {
      assert (loading + [frame.sceneId])[..|loading|] == loading;
    }
  }

  /** Which scene handlers are set (ResetSceneHandler, AddSceneHandler, RemoveSceneHandler). */
  datatype Handlers = Handlers(reset: bool, add: bool, remove: bool)

  /** The handler invocation ReadBinary queues on the main-thread runner, if that handler is set. */
  function SceneCallbacks(frame: Frame, handlers: Handlers): seq<SceneCallback>
  {
    match frame.groupId
    case ViewInitialize => if handlers.reset then [ResetScene(frame.sceneId)] else []
    case ViewChange =>
      if frame.mode == Add.Value() then (if handlers.add then [AddScene(frame.sceneId)] else [])
      else if frame.mode == Remove.Value() then (if handlers.remove then [RemoveScene(frame.sceneId)] else [])
      else []
    case OtherGroup(_) => []
  }

  // ---------------------------------------------------------------------------------------
  // The networker's objects of one scene (UnloadSceneNetworkObjects)

  /** The object's attached behaviour belongs to the scene. */
  predicate InScene(o: NetworkObject, sceneId: int32)
  {
    o.attachedBehavior != null && o.attachedBehavior.sceneId == sceneId
  }

  /** The objects of the scene, in list order (the IterateNetworkObjects pass). */
  function SceneObjects(objs: seq<NetworkObject>, sceneId: int32): seq<NetworkObject>
    decreases |objs|
  {
    if objs == [] then []
    else
      var init := SceneObjects(objs[..|objs| - 1], sceneId);
      if InScene(objs[|objs| - 1], sceneId) then init + [objs[|objs| - 1]] else init
  }

  /** The objects not of the scene, in list order: the reference for what must be left. */
  function OutsideScene(objs: seq<NetworkObject>, sceneId: int32): seq<NetworkObject>
    decreases |objs|
  {
    if objs == [] then []
    else
      var init := OutsideScene(objs[..|objs| - 1], sceneId);
      if InScene(objs[|objs| - 1], sceneId) then init else init + [objs[|objs| - 1]]
  }

  /** NetWorker.ManualRemove: the list without the given objects. */
  function Without(objs: seq<NetworkObject>, removed: seq<NetworkObject>): seq<NetworkObject>
    decreases |objs|
  {
    if objs == [] then []
    else
      var init := Without(objs[..|objs| - 1], removed);
      if objs[|objs| - 1] in removed then init else init + [objs[|objs| - 1]]
  }

  function CreateCodes(objs: seq<NetworkObject>): set<int32>
  {
    set o | o in objs :: o.createCode
  }

  /** The collected objects are exactly the scene's objects of the list. */
  lemma {:induction false} SceneObjectsMembers(objs: seq<NetworkObject>, sceneId: int32)
    ensures forall o :: o in SceneObjects(objs, sceneId) <==> o in objs && InScene(o, sceneId)
    decreases |objs|
  {
    if objs != [] {
      var init := objs[..|objs| - 1];
      SceneObjectsMembers(init, sceneId);
      assert objs == init + [objs[|objs| - 1]];
    }
  }

  /** What is left has no object of the scene. */
  lemma {:induction false} OutsideSceneMembers(objs: seq<NetworkObject>, sceneId: int32)
    ensures forall o :: o in OutsideScene(objs, sceneId) <==> o in objs && !InScene(o, sceneId)
    decreases |objs|
  {
    if objs != [] {
      var init := objs[..|objs| - 1];
      OutsideSceneMembers(init, sceneId);
      assert objs == init + [objs[|objs| - 1]];
    }
  }

  /** Unloading loses and duplicates nothing: the scene's objects and the rest together are
      the list, counted with multiplicity. */
  lemma {:induction false} ScenePartition(objs: seq<NetworkObject>, sceneId: int32)
    ensures multiset(SceneObjects(objs, sceneId)) + multiset(OutsideScene(objs, sceneId)) == multiset(objs)
    decreases |objs|
  {
    if objs != [] {
      var init := objs[..|objs| - 1];
      ScenePartition(init, sceneId);
      assert objs == init + [objs[|objs| - 1]];
    }
  }

  /** Removing any list that holds exactly the scene's objects leaves the objects not of the scene. */
  lemma {:induction false} WithoutFilter(objs: seq<NetworkObject>, removed: seq<NetworkObject>, sceneId: int32)
    requires forall o :: o in objs ==> (o in removed <==> InScene(o, sceneId))
    ensures Without(objs, removed) == OutsideScene(objs, sceneId)
    decreases |objs|
  {
    if objs != [] {
      var init := objs[..|objs| - 1];
      assert forall o :: o in init ==> o in objs;
      WithoutFilter(init, removed, sceneId);
    }
  }

  /** ManualRemove of the collected objects leaves exactly the objects not of the scene. */
  lemma RemoveSceneObjects(objs: seq<NetworkObject>, sceneId: int32)
    ensures Without(objs, SceneObjects(objs, sceneId)) == OutsideScene(objs, sceneId)
  {
    SceneObjectsMembers(objs, sceneId);
    WithoutFilter(objs, SceneObjects(objs, sceneId), sceneId);
  }

  // ---------------------------------------------------------------------------------------
  // Loading a scene's behaviours (InitializeBehaviours)

  /** The objects NetworkObject.Flush hands to CreatePendingObjects: none when it is called
      without the callback, which happens when nothing was found and no scene is loading. */
  function Deliveries(found: seq<NetworkBehavior>, loading: seq<int32>, flushed: seq<NetworkObject>): seq<NetworkObject>
  {
    if found == [] && loading == [] then [] else flushed
  }

  /** The tables after InitializeBehaviours, the Initialize calls it made, the behaviours it
      destroyed (by code) and whether it unwired CreatePendingObjects. */
  datatype Load = Load(tables: Tables, calls: seq<InitializeCall>, destroy: map<int32, NetworkBehavior>, unsubscribe: bool)

  /** No Dictionary.Add of InitializeBehaviours or of the Flush callback meets a key that is
      already there. */
  predicate CanLoad(t: Tables, loading: seq<int32>, sceneId: int32, mode: ViewUpdateMode,
                    found: seq<NetworkBehavior>, flushed: seq<NetworkObject>)
  {
    && |found| < 0x8000_0000
    && CanRegister(t, TagAll(found, sceneId), mode == Add)
    && CanDeliver(Register(t, TagAll(found, sceneId), mode == Add).tables, Deliveries(found, loading, flushed))
  }

  /** InitializeBehaviours on tables t: register the tagged behaviours (claiming buffered
      objects first in Add mode), deliver what Flush hands over, then, when no scene is still
      loading, either unwire the handler (nothing waits) or destroy whatever still waits.
      With nothing found, registration is a no-op and the drain does not run. */
  function LoadOutcome(t: Tables, loading: seq<int32>, sceneId: int32, mode: ViewUpdateMode,
                       found: seq<NetworkBehavior>, flushed: seq<NetworkObject>): Load
    requires CanLoad(t, loading, sceneId, mode, found, flushed)
  {
    var reg := Register(t, TagAll(found, sceneId), mode == Add);
    var del := Deliver(reg.tables, Deliveries(found, loading, flushed));
    var drain := found != [] && loading == [] && del.tables.behaviors != map[];
    Load(Tables(if drain then map[] else del.tables.behaviors, del.tables.objects),
         reg.calls + del.calls,
         if drain then del.tables.behaviors else map[],
         loading == [] && del.tables.behaviors == map[])
  }

  /** LoadOutcome unfolded for the found case: Flush always runs with the callback, and once
      no scene is loading whatever still waits is destroyed. */
  lemma LoadOutcomeOfFound(t: Tables, loading: seq<int32>, sceneId: int32, mode: ViewUpdateMode,
                           found: seq<NetworkBehavior>, flushed: seq<NetworkObject>)
    requires CanLoad(t, loading, sceneId, mode, found, flushed) && found != []
    ensures var reg := Register(t, TagAll(found, sceneId), mode == Add);
      && CanDeliver(reg.tables, flushed)
      && var del := Deliver(reg.tables, flushed);
      LoadOutcome(t, loading, sceneId, mode, found, flushed)
        == Load(Tables(if loading == [] then map[] else del.tables.behaviors, del.tables.objects),
                reg.calls + del.calls,
                if loading == [] then del.tables.behaviors else map[],
                loading == [] && del.tables.behaviors == map[])
  {
  }

  /** With nothing found, registration is a no-op and nothing is destroyed; Flush delivers
      only while a scene is loading. */
  lemma LoadOutcomeOfNothing(t: Tables, loading: seq<int32>, sceneId: int32, mode: ViewUpdateMode,
                             flushed: seq<NetworkObject>)
    requires CanLoad(t, loading, sceneId, mode, [], flushed)
    ensures loading != [] ==> CanDeliver(t, flushed)
    ensures loading != [] ==> var del := Deliver(t, flushed);
      LoadOutcome(t, loading, sceneId, mode, [], flushed) == Load(del.tables, del.calls, map[], false)
    ensures loading == [] ==>
      LoadOutcome(t, loading, sceneId, mode, [], flushed) == Load(t, [], map[], t.behaviors == map[])
  {
    var pairs := TagAll([], sceneId);
    assert pairs == [];
    assert Consume(pairs, t.objects) == Consumed([], [], t.objects);
    assert Claim(t, pairs, mode == Add) == Consumed([], [], t.objects);
    assert Wait(t.behaviors, []) == t.behaviors;
    assert Register(t, pairs, mode == Add) == Step(t, []);
    if loading == [] {
      assert Deliveries([], loading, flushed) == [];
      assert TryDeliver(t, []) == Some(Step(t, []));
    } else {
      assert Deliveries([], loading, flushed) == flushed;
    }
  }

  /** A load keeps the tables consistent and the counts add up: the behaviours that were
      waiting or were found are as many as those still waiting, initialised and destroyed
      (which one goes where is LoadFates). Once no scene is loading and something was found,
      nothing waits any more; the handler is unwired exactly when nothing waits and nothing
      was destroyed, and only when no scene is loading. */
  lemma LoadAccounts(t: Tables, loading: seq<int32>, sceneId: int32, mode: ViewUpdateMode,
                     found: seq<NetworkBehavior>, flushed: seq<NetworkObject>)
    requires Consistent(t) && CanLoad(t, loading, sceneId, mode, found, flushed)
    requires mode == Add || t.objects == map[]
    ensures var l := LoadOutcome(t, loading, sceneId, mode, found, flushed);
      && Consistent(l.tables)
      && |t.behaviors| + |found| == |l.tables.behaviors| + |l.calls| + |l.destroy|
      && (found != [] && loading == [] ==> l.tables.behaviors == map[])
      && (loading != [] ==> l.destroy == map[] && !l.unsubscribe)
      && (l.unsubscribe <==> loading == [] && l.tables.behaviors == map[] && l.destroy == map[])
  {
    var pairs := TagAll(found, sceneId);
    RegisterAccounts(t, pairs, mode == Add);
    var reg := Register(t, pairs, mode == Add);
    DeliverAccounts(reg.tables, Deliveries(found, loading, flushed));
  }

  /** Where a behaviour filed under code c ends up after a load: still waiting under c,
      initialised with the object created under c, or destroyed under c. */
  predicate Settled(l: Load, c: int32, b: NetworkBehavior)
  {
    || (c in l.tables.behaviors && l.tables.behaviors[c] == b)
    || (c in l.destroy && l.destroy[c] == b)
    || InitializedUnder(l.calls, c, b)
  }

  /** A call stays in the log when more calls are logged before or after it. */
  lemma InitializedUnderAppend(a: seq<InitializeCall>, x: seq<InitializeCall>)
    ensures forall c, b :: InitializedUnder(a, c, b) ==> InitializedUnder(a + x, c, b)
    ensures forall c, b :: InitializedUnder(x, c, b) ==> InitializedUnder(a + x, c, b)
  {
    forall c, b | InitializedUnder(a, c, b) ensures InitializedUnder(a + x, c, b) {
      var j :| 0 <= j < |a| && a[j].InitializeWithObject? && a[j].behavior == b && a[j].obj.createCode == c;
      assert (a + x)[j] == a[j];
    }
    forall c, b | InitializedUnder(x, c, b) ensures InitializedUnder(a + x, c, b) {
      var j :| 0 <= j < |x| && x[j].InitializeWithObject? && x[j].behavior == b && x[j].obj.createCode == c;
      assert (a + x)[|a| + j] == x[j];
    }
  }

  /** After registration: Flush's run and the drain settle every behaviour that waits, and
      keep every call registration made. */
  lemma AfterRegisterFates(t: Tables, loading: seq<int32>, sceneId: int32, mode: ViewUpdateMode,
                           found: seq<NetworkBehavior>, flushed: seq<NetworkObject>)
    requires CanLoad(t, loading, sceneId, mode, found, flushed)
    requires Consistent(Register(t, TagAll(found, sceneId), mode == Add).tables)
    ensures var reg := Register(t, TagAll(found, sceneId), mode == Add);
      var l := LoadOutcome(t, loading, sceneId, mode, found, flushed);
      && (forall c :: c in reg.tables.behaviors ==> Settled(l, c, reg.tables.behaviors[c]))
      && (forall c, b :: InitializedUnder(reg.calls, c, b) ==> InitializedUnder(l.calls, c, b))
  {
    var reg := Register(t, TagAll(found, sceneId), mode == Add);
    var objs := Deliveries(found, loading, flushed);
    var del := Deliver(reg.tables, objs);
    DeliverAccounts(reg.tables, objs);
    DeliverCalls(reg.tables, objs);
    DeliverCovers(reg.tables, objs);
    InitializedUnderAppend(reg.calls, del.calls);
    assert LoadOutcome(t, loading, sceneId, mode, found, flushed).calls == reg.calls + del.calls;
  }

  /** Per behaviour: every behaviour that was waiting, and every behaviour the load found, is
      settled under its own code; none is lost. */
  lemma LoadFates(t: Tables, loading: seq<int32>, sceneId: int32, mode: ViewUpdateMode,
                  found: seq<NetworkBehavior>, flushed: seq<NetworkObject>)
    requires Consistent(t) && CanLoad(t, loading, sceneId, mode, found, flushed)
    requires mode == Add || t.objects == map[]
    ensures var l := LoadOutcome(t, loading, sceneId, mode, found, flushed);
      && (forall c :: c in t.behaviors ==> Settled(l, c, t.behaviors[c]))
      && forall i :: 0 <= i < |found| ==> Settled(l, TagAll(found, sceneId)[i].code, found[i])
  {
    var pairs := TagAll(found, sceneId);
    RegisterAccounts(t, pairs, mode == Add);
    RegisterFates(t, pairs, mode == Add);
    AfterRegisterFates(t, loading, sceneId, mode, found, flushed);
    forall i | 0 <= i < |found| ensures pairs[i].behavior == found[i] { }
  }

  /** After a reset nothing of the previous session can be resolved: everything that waits or
      is destroyed carries a code of this load, and every buffered object is one Flush just
      handed over. */
  lemma ResetForgetsPreviousSession(loading: seq<int32>, sceneId: int32,
                                    found: seq<NetworkBehavior>, flushed: seq<NetworkObject>)
    requires CanLoad(Empty, loading, sceneId, Reset, found, flushed)
    ensures var l := LoadOutcome(Empty, loading, sceneId, Reset, found, flushed);
      && l.tables.behaviors.Keys <= Codes(TagAll(found, sceneId))
      && l.destroy.Keys <= Codes(TagAll(found, sceneId))
      && forall c :: c in l.tables.objects ==> l.tables.objects[c] in flushed
  {
    var pairs := TagAll(found, sceneId);
    WaitKeys(map[], pairs);
    var reg := Register(Empty, pairs, false);
    assert reg.tables == Tables(Wait(map[], pairs), map[]);
    DeliverAccounts(reg.tables, Deliveries(found, loading, flushed));
    DeliverOrigins(reg.tables, Deliveries(found, loading, flushed));
  }

  /** order lists every key of the set exactly once. */
  ghost predicate IsOrdering(order: seq<int32>, keys: set<int32>)
  {
    Distinct(order) && (forall i :: 0 <= i < |order| ==> order[i] in keys) && (forall c :: c in keys ==> c in order)
  }

  /** The values of m in the order of the given keys. */
  function InOrder(m: map<int32, NetworkBehavior>, order: seq<int32>): seq<NetworkBehavior>
    requires forall i :: 0 <= i < |order| ==> order[i] in m
  {
    seq(|order|, i requires 0 <= i < |order| => m[order[i]])
  }

  /** Regrouping of the Initialize log, stated apart so that RegisterAndFlush does not have to
      find it among the heap facts of its own context. */
  lemma AppendAssoc<T>(a: seq<T>, b: seq<T>, c: seq<T>)
    ensures (a + b) + c == a + (b + c)
  {
  }

  /** The foreach over pendingObjects: every waiting behaviour, once each, in the (unspecified)
      order the dictionary enumerates its codes. */
  method Drain(m: map<int32, NetworkBehavior>) returns (gone: seq<NetworkBehavior>, ghost order: seq<int32>)
    ensures IsOrdering(order, m.Keys)
    ensures gone == InOrder(m, order)
    ensures |gone| == |m|
  {
    var remaining := m;
    gone, order := [], [];
    while remaining != map[]
      invariant forall c :: c in remaining ==> c in m && remaining[c] == m[c]
      invariant Distinct(order)
      invariant forall i :: 0 <= i < |order| ==> order[i] in m && order[i] !in remaining
      invariant forall c :: c in m ==> c in remaining || c in order
      invariant |remaining| + |order| == |m|
      invariant gone == InOrder(m, order)
      decreases |remaining|
    {
      var c :| c in remaining;
      DistinctSnoc(order, c);
      gone := gone + [remaining[c]];
      order := order + [c];
      remaining := remaining - {c};
    }
  }

  /** The RemoveAt(i--) loop of InitializeBehaviours: a behaviour whose code is buffered is
      initialised with that object, and both leave their collections; the others stay, in
      order. The result is the claim step Consume specifies. */
  method ClaimBuffered(behaviors: seq<NetworkBehavior>, ghost pairs: seq<Tagged>, objects: map<int32, NetworkObject>)
    returns (rest: seq<NetworkBehavior>, ghost restPairs: seq<Tagged>, left: map<int32, NetworkObject>, calls: seq<InitializeCall>)
    requires |behaviors| == |pairs|
    requires forall i :: 0 <= i < |pairs| ==> pairs[i].behavior == behaviors[i] && behaviors[i].tempAttachCode == pairs[i].code
    ensures Consume(pairs, objects) == Consumed(restPairs, calls, left)
    ensures |rest| == |restPairs|
    ensures forall i :: 0 <= i < |rest| ==> restPairs[i].behavior == rest[i] && rest[i].tempAttachCode == restPairs[i].code
  {
    rest, restPairs, left, calls := behaviors, [], objects, [];
    var i: int := 0;
    ghost var k := 0;
    while i < |rest|
      invariant 0 <= i <= |rest| && 0 <= k <= |pairs|
      invariant |rest| - i == |pairs| - k
      invariant rest[i..] == behaviors[k..]
      invariant |restPairs| == i
      invariant forall j :: 0 <= j < i ==> restPairs[j].behavior == rest[j] && rest[j].tempAttachCode == restPairs[j].code
      invariant Consume(pairs[..k], objects) == Consumed(restPairs, calls, left)
      decreases |rest| - i
    {
      assert rest[i] == behaviors[k];
      assert pairs[..k + 1][..k] == pairs[..k];
      var code := rest[i].tempAttachCode;
      if code in left {
        var foundNetworkObject := left[code];
        calls := calls + [InitializeWithObject(rest[i], foundNetworkObject)];
        left := left - {code};
        rest := rest[..i] + rest[i + 1..];
        i := i - 1;
      } else {
        restPairs := restPairs + [pairs[k]];
      }
      i := i + 1;
      k := k + 1;
    }
    assert pairs[..k] == pairs;
  }

  // ---------------------------------------------------------------------------------------

  predicate Supported(protocol: string)
  {
    protocol == "tcp" || protocol == "udp"
  }

  /** The constructor with ConnectToGameServer: it throws on the first missing collaborator
      (settings, object factory, behaviour manager, thread runner, in that order), on a
      protocol other than tcp and udp, and on a socket that did not bind. */
  method NewGameClient(hasSettings: bool, hasObjectFactory: bool, hasBehaviorManager: bool, hasThreadRunner: bool,
                       protocol: string, bound: bool) returns (r: Construction<GameClient>)
    ensures !hasSettings ==> r == Failed(MissingSettings)
    ensures hasSettings && !hasObjectFactory ==> r == Failed(MissingObjectFactory)
    ensures hasSettings && hasObjectFactory && !hasBehaviorManager ==> r == Failed(MissingBehaviorManager)
    ensures hasSettings && hasObjectFactory && hasBehaviorManager && !hasThreadRunner ==> r == Failed(MissingThreadRunner)
    ensures hasSettings && hasObjectFactory && hasBehaviorManager && hasThreadRunner ==>
      && (!Supported(protocol) ==> r == Failed(NoSocket(protocol)))
      && (Supported(protocol) && !bound ==> r == Failed(NotBound))
      && (Supported(protocol) && bound ==> r.Constructed? && fresh(r.value) && r.value.Valid() && r.value.Initial())
  {
    if !hasSettings {
      return Failed(MissingSettings);
    }
    if !hasObjectFactory {
      return Failed(MissingObjectFactory);
    }
    if !hasBehaviorManager {
      return Failed(MissingBehaviorManager);
    }
    if !hasThreadRunner {
      return Failed(MissingThreadRunner);
    }
    if !Supported(protocol) {
      return Failed(NoSocket(protocol));
    }
    if !bound {
      return Failed(NotBound);
    }
    var client := new GameClient();
    return Constructed(client);
  }

  class GameClient {
    /** Networker != null. */
    var connected: bool
    /** CreatePendingObjects is wired to Networker.objectCreated. */
    var subscribed: bool
    /** Networker.PendCreates; a fresh networker is taken not to be pending creates. */
    var pendCreates: bool
    var pendingObjects: map<int32, NetworkBehavior>
    var pendingNetworkObjects: map<int32, NetworkObject>
    var loadedScenes: seq<int32>
    var loadingScenes: seq<int32>
    /** The networker's network objects, in list order. */
    var networkObjects: seq<NetworkObject>
    var handlers: Handlers
    /** Scene handler invocations queued on the main-thread runner, in order. */
    var scheduled: seq<SceneCallback>
    /** Frames handed to SendFrame, in order. */
    var sent: seq<Frame>
    /** Calls of INetworkBehavior.Initialize, in order. */
    var initializeCalls: seq<InitializeCall>
    /** Behaviours handed to INetworkBehaviorManager.Destroy, in order. */
    var destroyed: seq<NetworkBehavior>

    function Pending(): Tables
      reads this
    {
      Tables(pendingObjects, pendingNetworkObjects)
    }

    ghost predicate Valid()
      reads this
    {
      Consistent(Pending()) && (subscribed ==> connected)
    }

    /** The state right after a successful construction. */
    ghost predicate Initial()
      reads this
    {
      && connected && subscribed && !pendCreates
      && pendingObjects == map[] && pendingNetworkObjects == map[]
      && loadedScenes == [] && loadingScenes == [] && networkObjects == []
      && handlers == Handlers(false, false, false)
      && scheduled == [] && sent == [] && initializeCalls == [] && destroyed == []
    }

    constructor ()
      ensures Valid() && Initial()
    {
      connected, subscribed, pendCreates := true, true, false;
      pendingObjects, pendingNetworkObjects := map[], map[];
      loadedScenes, loadingScenes, networkObjects := [], [], [];
      handlers := Handlers(false, false, false);
      scheduled, sent, initializeCalls, destroyed := [], [], [], [];
    }

    /** CreatePendingObjects: a waiting behaviour with the object's code is initialised with it
        and stops waiting (and the handler is unwired once nothing waits and no scene is
        loading); otherwise a negative code is buffered and a non-negative one ignored. */
    method CreatePendingObjects(obj: NetworkObject)
      requires Valid() && connected && CanArrive(Pending(), obj)
      modifies this`pendingObjects, this`pendingNetworkObjects, this`initializeCalls, this`subscribed
      ensures Valid()
      ensures Pending() == Arrive(old(Pending()), obj).tables
      ensures initializeCalls == old(initializeCalls) + Arrive(old(Pending()), obj).calls
      ensures var c := obj.createCode;
        && (c in old(pendingObjects) ==>
              && pendingObjects == old(pendingObjects) - {c}
              && pendingNetworkObjects == old(pendingNetworkObjects)
              && initializeCalls == old(initializeCalls) + [InitializeWithObject(old(pendingObjects)[c], obj)])
        && (c !in old(pendingObjects) && c < 0 ==>
              && pendingObjects == old(pendingObjects)
              && pendingNetworkObjects == old(pendingNetworkObjects)[c := obj]
              && initializeCalls == old(initializeCalls))
        && (c !in old(pendingObjects) && c >= 0 ==>
              Pending() == old(Pending()) && initializeCalls == old(initializeCalls))
      ensures subscribed == (old(subscribed) && !(obj.createCode in old(pendingObjects) && pendingObjects == map[] && loadingScenes == []))
    {
      ghost var step := Arrive(Pending(), obj);
      ArriveConsistent(Pending(), obj);
      if obj.createCode !in pendingObjects {
        if obj.createCode < 0 {
          pendingNetworkObjects := pendingNetworkObjects[obj.createCode := obj];
        }
        assert Pending() == step.tables;
        return;
      }
      var behavior := pendingObjects[obj.createCode];
      initializeCalls := initializeCalls + [InitializeWithObject(behavior, obj)];
      pendingObjects := pendingObjects - {obj.createCode};
      assert Pending() == step.tables;
      if |pendingObjects| == 0 && |loadingScenes| == 0 {
        subscribed := false;
      }
    }

    /** The networker raising objectCreated: the handler sees the object only while wired. */
    method ObjectCreatedEvent(obj: NetworkObject)
      requires Valid() && (subscribed ==> CanArrive(Pending(), obj))
      modifies this`pendingObjects, this`pendingNetworkObjects, this`initializeCalls, this`subscribed
      ensures Valid()
      ensures !old(subscribed) ==> Pending() == old(Pending()) && initializeCalls == old(initializeCalls) && !subscribed
      ensures old(subscribed) ==>
        && Pending() == Arrive(old(Pending()), obj).tables
        && initializeCalls == old(initializeCalls) + Arrive(old(Pending()), obj).calls
        && subscribed == !(obj.createCode in old(pendingObjects) && pendingObjects == map[] && loadingScenes == [])
    {
      if subscribed {
        CreatePendingObjects(obj);
      }
    }

    /** Disconnect: unwires the handler, clears the networker's objects and both tables and
        drops the networker; the scene lists are kept. */
    method Disconnect()
      requires Valid() && connected
      modifies this`subscribed, this`networkObjects, this`pendingObjects, this`pendingNetworkObjects, this`connected
      ensures Valid()
      ensures !connected && !subscribed
      ensures networkObjects == [] && pendingObjects == map[] && pendingNetworkObjects == map[]
    {
      subscribed := false;
      networkObjects := [];
      pendingObjects := map[];
      pendingNetworkObjects := map[];
      connected := false;
    }

    /** ReadBinary: a VIEW_INITIALIZE or an Add halts creation and records the scene as
        loading; a Remove takes the scene out of loadingScenes and unloads its objects; each
        queues its scene handler when set. */
    method ReadBinary(frame: Frame)
      requires Valid() && (TouchesNetworker(frame) ==> connected)
      modifies this`pendCreates, this`loadingScenes, this`scheduled, this`networkObjects, this`pendingNetworkObjects
      ensures Valid()
      ensures loadingScenes == LoadingAfter(old(loadingScenes), frame)
      ensures pendCreates == (old(pendCreates) || HaltsCreates(frame))
      ensures scheduled == old(scheduled) + SceneCallbacks(frame, handlers)
      ensures IsRemove(frame) && frame.sceneId >= 0 ==>
        && networkObjects == OutsideScene(old(networkObjects), frame.sceneId)
        && pendingNetworkObjects == old(pendingNetworkObjects) - CreateCodes(SceneObjects(old(networkObjects), frame.sceneId))
      ensures !(IsRemove(frame) && frame.sceneId >= 0) ==>
        networkObjects == old(networkObjects) && pendingNetworkObjects == old(pendingNetworkObjects)
    {
      if frame.groupId == ViewInitialize {
        pendCreates := true;
        loadingScenes := [];
        loadingScenes := loadingScenes + [frame.sceneId];
        if handlers.reset {
          scheduled := scheduled + [ResetScene(frame.sceneId)];
        }
        return;
      }
      if frame.groupId == ViewChange {
        if frame.mode == Add.Value() {
          pendCreates := true;
          loadingScenes := loadingScenes + [frame.sceneId];
          if handlers.add {
            scheduled := scheduled + [AddScene(frame.sceneId)];
          }
        } else if frame.mode == Remove.Value() {
          loadingScenes := RemoveFirst(loadingScenes, frame.sceneId);
          UnloadSceneNetworkObjects(frame.sceneId);
          if handlers.remove {
            scheduled := scheduled + [RemoveScene(frame.sceneId)];
          }
        }
      }
    }

    /** UnloadSceneNetworkObjects: for a non-negative scene id, the scene's objects leave the
        networker's list and their codes leave the buffer; a negative id changes nothing. */
    method UnloadSceneNetworkObjects(sceneId: int32)
      requires Valid() && (sceneId >= 0 ==> connected)
      modifies this`networkObjects, this`pendingNetworkObjects
      ensures Valid()
      ensures sceneId < 0 ==> networkObjects == old(networkObjects) && pendingNetworkObjects == old(pendingNetworkObjects)
      ensures sceneId >= 0 ==>
        && networkObjects == OutsideScene(old(networkObjects), sceneId)
        && pendingNetworkObjects == old(pendingNetworkObjects) - CreateCodes(SceneObjects(old(networkObjects), sceneId))
    {
      if sceneId >= 0 {
        var objs := networkObjects;
        var toDestroy := [];
        for i := 0 to |objs|
          invariant toDestroy == SceneObjects(objs[..i], sceneId)
        {
          var networkObject := objs[i];
          assert objs[..i + 1][..i] == objs[..i];
          if networkObject.attachedBehavior != null && networkObject.attachedBehavior.sceneId == sceneId {
            toDestroy := toDestroy + [networkObject];
          }
        }
        assert objs[..|objs|] == objs;
        RemoveSceneObjects(objs, sceneId);
        networkObjects := Without(objs, toDestroy);
        for i := 0 to |toDestroy|
          invariant networkObjects == OutsideScene(objs, sceneId)
          invariant pendingNetworkObjects == old(pendingNetworkObjects) - CreateCodes(toDestroy[..i])
        {
          assert CreateCodes(toDestroy[..i + 1]) == CreateCodes(toDestroy[..i]) + {toDestroy[i].createCode} by {
            assert toDestroy[..i + 1] == toDestroy[..i] + [toDestroy[i]];
          }
          pendingNetworkObjects := pendingNetworkObjects - {toDestroy[i].createCode};
        }
        assert toDestroy[..|toDestroy|] == toDestroy;
      }
    }

    /** OnSceneReset: ignored without a networker; otherwise both tables and the loaded list
        are cleared, the scene leaves loadingScenes (first occurrence) and becomes the only
        loaded scene, a Reset goes to the server and the scene's behaviours are loaded. */
    method OnSceneReset(sceneId: int32, found: seq<NetworkBehavior>, flushed: seq<NetworkObject>)
      returns (ghost destroyOrder: seq<int32>)
      requires Valid()
      requires connected ==> Distinct(found) && CanLoad(Empty, RemoveFirst(loadingScenes, sceneId), sceneId, Reset, found, flushed)
      modifies this`pendingObjects, this`pendingNetworkObjects, this`loadedScenes, this`loadingScenes, this`sent
      modifies this`initializeCalls, this`subscribed, this`destroyed, set i | 0 <= i < |found| :: found[i]
      ensures Valid()
      ensures !connected ==> unchanged(this) && destroyOrder == [] && forall i :: 0 <= i < |found| ==> unchanged(found[i])
      ensures connected ==>
        && loadingScenes == RemoveFirst(old(loadingScenes), sceneId)
        && loadedScenes == [sceneId]
        && sent == old(sent) + [Frame(ViewChange, sceneId, Reset.Value(), Server)]
        && var l := LoadOutcome(Empty, loadingScenes, sceneId, Reset, found, flushed);
        && Pending() == l.tables
        && initializeCalls == old(initializeCalls) + l.calls
        && IsOrdering(destroyOrder, l.destroy.Keys)
        && destroyed == old(destroyed) + InOrder(l.destroy, destroyOrder)
        && subscribed == (old(subscribed) && !l.unsubscribe)
        && forall i :: 0 <= i < |found| ==> found[i].tempAttachCode == TagAll(found, sceneId)[i].code
    {
      if !connected {
        destroyOrder := [];
        return;
      }
      destroyOrder := ResetConnected(sceneId, found, flushed);
    }

    /** OnSceneReset once the networker is known to be there. */
    method ResetConnected(sceneId: int32, found: seq<NetworkBehavior>, flushed: seq<NetworkObject>)
      returns (ghost destroyOrder: seq<int32>)
      requires Valid() && connected
      requires Distinct(found) && CanLoad(Empty, RemoveFirst(loadingScenes, sceneId), sceneId, Reset, found, flushed)
      modifies this`pendingObjects, this`pendingNetworkObjects, this`loadedScenes, this`loadingScenes, this`sent
      modifies this`initializeCalls, this`subscribed, this`destroyed, set i | 0 <= i < |found| :: found[i]
      ensures Valid()
      ensures loadingScenes == RemoveFirst(old(loadingScenes), sceneId)
      ensures loadedScenes == [sceneId]
      ensures sent == old(sent) + [Frame(ViewChange, sceneId, Reset.Value(), Server)]
      ensures var l := LoadOutcome(Empty, loadingScenes, sceneId, Reset, found, flushed);
        && Pending() == l.tables
        && initializeCalls == old(initializeCalls) + l.calls
        && IsOrdering(destroyOrder, l.destroy.Keys)
        && destroyed == old(destroyed) + InOrder(l.destroy, destroyOrder)
        && subscribed == (old(subscribed) && !l.unsubscribe)
      ensures forall i :: 0 <= i < |found| ==> found[i].tempAttachCode == TagAll(found, sceneId)[i].code
    {
      ghost var loading := RemoveFirst(loadingScenes, sceneId);
      assert CanLoad(Empty, loading, sceneId, Reset, found, flushed);
      BeginReset(sceneId);
      ghost var t := Pending();
      assert t == Empty && loadingScenes == loading;
      assert CanLoad(t, loadingScenes, sceneId, Reset, found, flushed);
      destroyOrder := InitializeBehaviours(sceneId, Reset, found, flushed);
      assert LoadOutcome(t, loadingScenes, sceneId, Reset, found, flushed) == LoadOutcome(Empty, loadingScenes, sceneId, Reset, found, flushed);
    }

    /** The bookkeeping OnSceneReset does before loading: clear both tables and the loaded
        list, move the scene from loading to loaded and tell the server. */
    method BeginReset(sceneId: int32)
      modifies this`pendingObjects, this`pendingNetworkObjects, this`loadedScenes, this`loadingScenes, this`sent
      ensures Pending() == Empty
      ensures loadingScenes == RemoveFirst(old(loadingScenes), sceneId) && loadedScenes == [sceneId]
      ensures sent == old(sent) + [Frame(ViewChange, sceneId, Reset.Value(), Server)]
    {
      pendingObjects := map[];
      pendingNetworkObjects := map[];
      loadedScenes := [];
      loadingScenes := RemoveFirst(loadingScenes, sceneId);
      loadedScenes := loadedScenes + [sceneId];
      sent := sent + [Frame(ViewChange, sceneId, Reset.Value(), Server)];
    }

    /** OnSceneAdded: ignored without a networker; otherwise the scene leaves loadingScenes
        (first occurrence), is appended to loadedScenes, an Add goes to the server and the
        scene's behaviours are loaded, claiming buffered objects first. */
    method OnSceneAdded(sceneId: int32, found: seq<NetworkBehavior>, flushed: seq<NetworkObject>)
      returns (ghost destroyOrder: seq<int32>)
      requires Valid()
      requires connected ==> Distinct(found) && CanLoad(Pending(), RemoveFirst(loadingScenes, sceneId), sceneId, Add, found, flushed)
      modifies this`pendingObjects, this`pendingNetworkObjects, this`loadedScenes, this`loadingScenes, this`sent
      modifies this`initializeCalls, this`subscribed, this`destroyed, set i | 0 <= i < |found| :: found[i]
      ensures Valid()
      ensures !connected ==> unchanged(this) && destroyOrder == [] && forall i :: 0 <= i < |found| ==> unchanged(found[i])
      ensures connected ==>
        && loadingScenes == RemoveFirst(old(loadingScenes), sceneId)
        && loadedScenes == old(loadedScenes) + [sceneId]
        && sent == old(sent) + [Frame(ViewChange, sceneId, Add.Value(), Server)]
        && var l := LoadOutcome(old(Pending()), loadingScenes, sceneId, Add, found, flushed);
        && Pending() == l.tables
        && initializeCalls == old(initializeCalls) + l.calls
        && IsOrdering(destroyOrder, l.destroy.Keys)
        && destroyed == old(destroyed) + InOrder(l.destroy, destroyOrder)
        && subscribed == (old(subscribed) && !l.unsubscribe)
        && forall i :: 0 <= i < |found| ==> found[i].tempAttachCode == TagAll(found, sceneId)[i].code
    {
      if !connected {
        destroyOrder := [];
        return;
      }
      destroyOrder := AddConnected(sceneId, found, flushed);
    }

    /** OnSceneAdded once the networker is known to be there. */
    method AddConnected(sceneId: int32, found: seq<NetworkBehavior>, flushed: seq<NetworkObject>)
      returns (ghost destroyOrder: seq<int32>)
      requires Valid() && connected
      requires Distinct(found) && CanLoad(Pending(), RemoveFirst(loadingScenes, sceneId), sceneId, Add, found, flushed)
      modifies this`pendingObjects, this`pendingNetworkObjects, this`loadedScenes, this`loadingScenes, this`sent
      modifies this`initializeCalls, this`subscribed, this`destroyed, set i | 0 <= i < |found| :: found[i]
      ensures Valid()
      ensures loadingScenes == RemoveFirst(old(loadingScenes), sceneId)
      ensures loadedScenes == old(loadedScenes) + [sceneId]
      ensures sent == old(sent) + [Frame(ViewChange, sceneId, Add.Value(), Server)]
      ensures var l := LoadOutcome(old(Pending()), loadingScenes, sceneId, Add, found, flushed);
        && Pending() == l.tables
        && initializeCalls == old(initializeCalls) + l.calls
        && IsOrdering(destroyOrder, l.destroy.Keys)
        && destroyed == old(destroyed) + InOrder(l.destroy, destroyOrder)
        && subscribed == (old(subscribed) && !l.unsubscribe)
      ensures forall i :: 0 <= i < |found| ==> found[i].tempAttachCode == TagAll(found, sceneId)[i].code
    {
      ghost var t := Pending();
      ghost var loading := RemoveFirst(loadingScenes, sceneId);
      assert CanLoad(t, loading, sceneId, Add, found, flushed);
      BeginAdd(sceneId);
      assert Pending() == t && loadingScenes == loading;
      assert CanLoad(Pending(), loadingScenes, sceneId, Add, found, flushed);
      destroyOrder := InitializeBehaviours(sceneId, Add, found, flushed);
    }

    /** The bookkeeping OnSceneAdded does before loading: move the scene from loading to
        loaded and tell the server. */
    method BeginAdd(sceneId: int32)
      modifies this`loadedScenes, this`loadingScenes, this`sent
      ensures loadingScenes == RemoveFirst(old(loadingScenes), sceneId)
      ensures loadedScenes == old(loadedScenes) + [sceneId]
      ensures sent == old(sent) + [Frame(ViewChange, sceneId, Add.Value(), Server)]
    {
      loadingScenes := RemoveFirst(loadingScenes, sceneId);
      loadedScenes := loadedScenes + [sceneId];
      sent := sent + [Frame(ViewChange, sceneId, Add.Value(), Server)];
    }

    /** OnSceneRemoved: ignored without a networker; otherwise the first occurrence of the scene
        leaves loadedScenes and a Remove goes to the server. */
    method OnSceneRemoved(sceneId: int32)
      requires Valid()
      modifies this`loadedScenes, this`sent
      ensures Valid()
      ensures !connected ==> loadedScenes == old(loadedScenes) && sent == old(sent)
      ensures connected ==>
        && loadedScenes == RemoveFirst(old(loadedScenes), sceneId)
        && sent == old(sent) + [Frame(ViewChange, sceneId, Remove.Value(), Server)]
    {
      if !connected {
        return;
      }
      loadedScenes := RemoveFirst(loadedScenes, sceneId);
      sent := sent + [Frame(ViewChange, sceneId, Remove.Value(), Server)];
    }

    /** InitializeBehaviours, with FindUninitializedBehaviors' result as found and the objects
        Flush hands to its callback as flushed. */
    method InitializeBehaviours(sceneId: int32, mode: ViewUpdateMode, found: seq<NetworkBehavior>, flushed: seq<NetworkObject>)
      returns (ghost destroyOrder: seq<int32>)
      requires Valid() && connected && Distinct(found)
      requires mode == Add || pendingNetworkObjects == map[]
      requires CanLoad(Pending(), loadingScenes, sceneId, mode, found, flushed)
      modifies this`pendingObjects, this`pendingNetworkObjects, this`initializeCalls, this`subscribed, this`destroyed
      modifies set i | 0 <= i < |found| :: found[i]
      ensures Valid()
      ensures var l := LoadOutcome(old(Pending()), loadingScenes, sceneId, mode, found, flushed);
        && Pending() == l.tables
        && initializeCalls == old(initializeCalls) + l.calls
        && IsOrdering(destroyOrder, l.destroy.Keys)
        && destroyed == old(destroyed) + InOrder(l.destroy, destroyOrder)
        && subscribed == (old(subscribed) && !l.unsubscribe)
      ensures forall i :: 0 <= i < |found| ==> found[i].tempAttachCode == TagAll(found, sceneId)[i].code
    {
      if |found| == 0 {
        FlushOnly(sceneId, mode, flushed);
        destroyOrder := [];
      } else {
        destroyOrder := LoadFound(sceneId, mode, found, flushed);
      }
    }

    /** The branch of InitializeBehaviours for an empty list: Flush, with the callback only
        while a scene is loading, and otherwise unwire the handler if nothing waits. */
    method FlushOnly(sceneId: int32, mode: ViewUpdateMode, flushed: seq<NetworkObject>)
      requires Valid() && connected
      requires CanLoad(Pending(), loadingScenes, sceneId, mode, [], flushed)
      modifies this`pendingObjects, this`pendingNetworkObjects, this`initializeCalls, this`subscribed
      ensures Valid()
      ensures var l := LoadOutcome(old(Pending()), loadingScenes, sceneId, mode, [], flushed);
        && Pending() == l.tables
        && initializeCalls == old(initializeCalls) + l.calls
        && l.destroy == map[]
        && subscribed == (old(subscribed) && !l.unsubscribe)
    {
      LoadOutcomeOfNothing(Pending(), loadingScenes, sceneId, mode, flushed);
      if |loadingScenes| > 0 {
        DeliverAll(flushed);
      } else if |pendingObjects| == 0 {
        // Flush without the callback hands nothing over
        subscribed := false;
      }
    }

    /** The branch of InitializeBehaviours for a non-empty list: tag, claim (Add mode), wait,
        Flush with the callback, then unwire or drain once no scene is loading. */
    method LoadFound(sceneId: int32, mode: ViewUpdateMode, found: seq<NetworkBehavior>, flushed: seq<NetworkObject>)
      returns (ghost destroyOrder: seq<int32>)
      requires Valid() && connected && Distinct(found) && found != []
      requires mode == Add || pendingNetworkObjects == map[]
      requires CanLoad(Pending(), loadingScenes, sceneId, mode, found, flushed)
      modifies this`pendingObjects, this`pendingNetworkObjects, this`initializeCalls, this`subscribed, this`destroyed
      modifies set i | 0 <= i < |found| :: found[i]
      ensures Valid()
      ensures var l := LoadOutcome(old(Pending()), loadingScenes, sceneId, mode, found, flushed);
        && Pending() == l.tables
        && initializeCalls == old(initializeCalls) + l.calls
        && IsOrdering(destroyOrder, l.destroy.Keys)
        && destroyed == old(destroyed) + InOrder(l.destroy, destroyOrder)
        && subscribed == (old(subscribed) && !l.unsubscribe)
      ensures forall i :: 0 <= i < |found| ==> found[i].tempAttachCode == TagAll(found, sceneId)[i].code
    {
      LoadOutcomeOfFound(Pending(), loadingScenes, sceneId, mode, found, flushed);
      RegisterAndFlush(sceneId, mode, found, flushed);
      destroyOrder := Settle();
    }

    /** Tagging, registration and the Flush callback, before the settling step. */
    method RegisterAndFlush(sceneId: int32, mode: ViewUpdateMode, found: seq<NetworkBehavior>, flushed: seq<NetworkObject>)
      requires Valid() && connected && Distinct(found)
      requires mode == Add || pendingNetworkObjects == map[]
      requires |found| < 0x8000_0000 && CanRegister(Pending(), TagAll(found, sceneId), mode == Add)
      requires CanDeliver(Rendezvous.Register(Pending(), TagAll(found, sceneId), mode == Add).tables, flushed)
      modifies this`pendingObjects, this`pendingNetworkObjects, this`initializeCalls, this`subscribed
      modifies set i | 0 <= i < |found| :: found[i]
      ensures Valid()
      ensures var reg := Rendezvous.Register(old(Pending()), TagAll(found, sceneId), mode == Add);
        var del := Deliver(reg.tables, flushed);
        && Pending() == del.tables
        && initializeCalls == old(initializeCalls) + (reg.calls + del.calls)
        && subscribed == (old(subscribed) && !(loadingScenes == [] && reg.tables.behaviors != map[] && del.tables.behaviors == map[]))
      ensures forall i :: 0 <= i < |found| ==> found[i].tempAttachCode == TagAll(found, sceneId)[i].code
    {
      ghost var t0 := Pending();
      ghost var pairs := TagAll(found, sceneId);
      ghost var reg := Rendezvous.Register(t0, pairs, mode == Add);
      RegisterAccounts(t0, pairs, mode == Add);
      RegisterFound(sceneId, mode, found);
      assert Pending() == reg.tables;
      ghost var calls1 := initializeCalls;
      DeliverAll(flushed);
      ghost var del := Deliver(reg.tables, flushed);
      assert Pending() == del.tables && initializeCalls == calls1 + del.calls;
      AppendAssoc(old(initializeCalls), reg.calls, del.calls);
    }

    /** The end of InitializeBehaviours: once no scene is loading, unwire the handler when
        nothing waits, or else destroy everything that still waits. */
    method Settle() returns (ghost order: seq<int32>)
      requires Valid() && connected
      modifies this`pendingObjects, this`destroyed, this`subscribed
      ensures Valid()
      ensures loadingScenes == [] ==>
        && pendingObjects == map[]
        && IsOrdering(order, old(pendingObjects).Keys)
        && destroyed == old(destroyed) + InOrder(old(pendingObjects), order)
        && subscribed == (old(subscribed) && old(pendingObjects) != map[])
      ensures loadingScenes != [] ==>
        pendingObjects == old(pendingObjects) && destroyed == old(destroyed) && subscribed == old(subscribed) && order == []
    {
      order := [];
      if |pendingObjects| == 0 && |loadingScenes| == 0 {
        subscribed := false;
      } else if |pendingObjects| != 0 && |loadingScenes| == 0 {
        order := DestroyPending();
      }
    }

    /** Tagging and registration: every found behaviour gets its code; in Add mode with
        something buffered, those whose object is already there are initialised with it; the
        rest wait in pendingObjects. */
    method RegisterFound(sceneId: int32, mode: ViewUpdateMode, found: seq<NetworkBehavior>)
      requires Distinct(found) && |found| < 0x8000_0000
      requires CanRegister(Pending(), TagAll(found, sceneId), mode == Add)
      modifies this`pendingObjects, this`pendingNetworkObjects, this`initializeCalls
      modifies set i | 0 <= i < |found| :: found[i]
      ensures Pending() == Rendezvous.Register(old(Pending()), TagAll(found, sceneId), mode == Add).tables
      ensures initializeCalls == old(initializeCalls) + Rendezvous.Register(old(Pending()), TagAll(found, sceneId), mode == Add).calls
      ensures forall i :: 0 <= i < |found| ==> found[i].tempAttachCode == TagAll(found, sceneId)[i].code
    {
      AssignAttachCodes(found, sceneId);
      ghost var pairs := TagAll(found, sceneId);
      var behaviors := found;
      ghost var waiting := pairs;
      if mode == Add && |pendingNetworkObjects| > 0 {
        var left, calls;
        behaviors, waiting, left, calls := ClaimBuffered(found, pairs, pendingNetworkObjects);
        pendingNetworkObjects := left;
        initializeCalls := initializeCalls + calls;
      }
      WaitAll(behaviors, waiting);
    }

    /** The pendingObjects.Add loop over the behaviours that are left. */
    method WaitAll(behaviors: seq<NetworkBehavior>, ghost pairs: seq<Tagged>)
      requires |behaviors| == |pairs|
      requires forall i :: 0 <= i < |pairs| ==> pairs[i].behavior == behaviors[i] && behaviors[i].tempAttachCode == pairs[i].code
      requires CanWait(pendingObjects, pairs)
      modifies this`pendingObjects
      ensures pendingObjects == Wait(old(pendingObjects), pairs)
    {
      for i := 0 to |behaviors|
        invariant pendingObjects == Wait(old(pendingObjects), pairs[..i])
      {
        assert pairs[..i + 1][..i] == pairs[..i];
        pendingObjects := pendingObjects[behaviors[i].tempAttachCode := behaviors[i]];
      }
      assert pairs[..|behaviors|] == pairs;
    }

    /** Flush handing its objects to CreatePendingObjects one after another. */
    method DeliverAll(objs: seq<NetworkObject>)
      requires Valid() && connected && CanDeliver(Pending(), objs)
      modifies this`pendingObjects, this`pendingNetworkObjects, this`initializeCalls, this`subscribed
      ensures Valid()
      ensures Pending() == Deliver(old(Pending()), objs).tables
      ensures initializeCalls == old(initializeCalls) + Deliver(old(Pending()), objs).calls
      ensures subscribed == (old(subscribed) && !(loadingScenes == [] && old(pendingObjects) != map[] && pendingObjects == map[]))
    {
      ghost var t0 := Pending();
      for i := 0 to |objs|
        invariant Valid()
        invariant CanDeliver(t0, objs[..i])
        invariant Pending() == Deliver(t0, objs[..i]).tables
        invariant initializeCalls == old(initializeCalls) + Deliver(t0, objs[..i]).calls
        invariant pendingObjects.Keys <= t0.behaviors.Keys
        invariant subscribed == (old(subscribed) && !(loadingScenes == [] && t0.behaviors != map[] && pendingObjects == map[]))
      {
        CanDeliverPrefix(t0, objs, i + 1);
        assert objs[..i + 1][..i] == objs[..i];
        assert objs[..i + 1] == objs[..i] + [objs[i]];
        DeliverSnoc(t0, objs[..i], objs[i]);
        CreatePendingObjects(objs[i]);
      }
      assert objs[..|objs|] == objs;
    }

    /** The drain: every behaviour still waiting is destroyed, in some order of its codes,
        and the table is emptied. */
    method DestroyPending() returns (ghost order: seq<int32>)
      requires Valid()
      modifies this`pendingObjects, this`destroyed
      ensures Valid()
      ensures pendingObjects == map[]
      ensures IsOrdering(order, old(pendingObjects).Keys)
      ensures destroyed == old(destroyed) + InOrder(old(pendingObjects), order)
    {
      var gone;
      gone, order := Drain(pendingObjects);
      destroyed := destroyed + gone;
      pendingObjects := map[];
    }
  }
}
