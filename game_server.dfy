/** GameServer: the server side of scene bookkeeping and pending creations. */
module Server {
  import opened Network
  import opened Lists
  import opened AttachCodes
  import opened Rendezvous

  /** The frames PlayerAcceptedSceneSetup sends a newly accepted player, one per loaded scene
      in list order: the first as a VIEW_INITIALIZE Reset, every later one as a VIEW_CHANGE Add. */
  function JoinFrames(loadedScenes: seq<int32>, player: nat): seq<Frame>
  {
    seq(|loadedScenes|, i requires 0 <= i < |loadedScenes| =>
      if i == 0 then Frame(ViewInitialize, loadedScenes[i], Reset.Value(), Target(player))
      else Frame(ViewChange, loadedScenes[i], Add.Value(), Target(player)))
  }

  /** The server's Initialize(Networker) call for each tagged behaviour, in order. */
  function InitializeOnNetworkerAll(pairs: seq<Tagged>): seq<InitializeCall>
  {
    seq(|pairs|, i requires 0 <= i < |pairs| => InitializeOnNetworker(pairs[i].behavior, pairs[i].code))
  }

  /** The constructor with Initialize: it throws when the settings or the behaviour manager is
      missing, settings first, and when the networker did not bind. */
  method NewGameServer(hasSettings: bool, hasBehaviorManager: bool, bound: bool) returns (r: Construction<GameServer>)
    ensures !hasSettings ==> r == Failed(MissingSettings)
    ensures hasSettings && !hasBehaviorManager ==> r == Failed(MissingBehaviorManager)
    ensures hasSettings && hasBehaviorManager && !bound ==> r == Failed(NotBound)
    ensures hasSettings && hasBehaviorManager && bound ==> r.Constructed? && fresh(r.value) && r.value.Valid() && r.value.Initial()
  {
    if !hasSettings {
      return Failed(MissingSettings);
    }
    if !hasBehaviorManager {
      return Failed(MissingBehaviorManager);
    }
    if !bound {
      return Failed(NotBound);
    }
    var server := new GameServer();
    return Constructed(server);
  }

  class GameServer {
    /** Set once Initialize has run to its end. */
    var initialized: bool
    /** Networker != null. */
    var connected: bool
    /** Networker_objectCreated is wired to Networker.objectCreated. */
    var subscribed: bool
    var pendingObjects: map<int32, NetworkBehavior>
    var pendingNetworkObjects: map<int32, NetworkObject>
    var loadedScenes: seq<int32>
    var loadingScenes: seq<int32>
    /** Frames handed to SendFrame, in order. */
    var sent: seq<Frame>
    /** Calls of INetworkBehavior.Initialize, in order. */
    var initializeCalls: seq<InitializeCall>

    function Pending(): Tables
      reads this
    {
      Tables(pendingObjects, pendingNetworkObjects)
    }

    ghost predicate Valid()
      reads this
    {
      Consistent(Pending()) && (subscribed ==> connected)
    }

    /** The state Initialize leaves: bound, handler wired, nothing pending, no scene. */
    ghost predicate Initial()
      reads this
    {
      && initialized && connected && subscribed
      && pendingObjects == map[] && pendingNetworkObjects == map[]
      && loadedScenes == [] && loadingScenes == []
      && sent == [] && initializeCalls == []
    }

    constructor ()
      ensures Valid() && Initial()
    {
      initialized, connected, subscribed := true, true, true;
      pendingObjects, pendingNetworkObjects := map[], map[];
      loadedScenes, loadingScenes := [], [];
      sent, initializeCalls := [], [];
    }

    /** Networker_objectCreated. */
    method ObjectCreated(obj: NetworkObject)
      requires Valid() && connected && CanArrive(Pending(), obj)
      modifies this`pendingObjects, this`pendingNetworkObjects, this`initializeCalls, this`subscribed
      ensures Valid()
      ensures Pending() == Arrive(old(Pending()), obj).tables
      ensures initializeCalls == old(initializeCalls) + Arrive(old(Pending()), obj).calls
      ensures var c := obj.createCode;
        && (c in old(pendingObjects) ==>
              && pendingObjects == old(pendingObjects) - {c}
              && pendingNetworkObjects == old(pendingNetworkObjects)
              && initializeCalls == old(initializeCalls) + [InitializeWithObject(old(pendingObjects)[c], obj)])
        && (c !in old(pendingObjects) && c < 0 ==>
              && pendingObjects == old(pendingObjects)
              && pendingNetworkObjects == old(pendingNetworkObjects)[c := obj]
              && initializeCalls == old(initializeCalls))
        && (c !in old(pendingObjects) && c >= 0 ==>
              Pending() == old(Pending()) && initializeCalls == old(initializeCalls))
      ensures subscribed == (old(subscribed) && !(obj.createCode in old(pendingObjects) && pendingObjects == map[] && loadingScenes == []))
      ensures initialized == old(initialized) && connected == old(connected)
      ensures loadedScenes == old(loadedScenes) && loadingScenes == old(loadingScenes) && sent == old(sent)
    {
      ghost var step := Arrive(Pending(), obj);
      ArriveConsistent(Pending(), obj);
      if obj.createCode !in pendingObjects {
        if obj.createCode < 0 {
          pendingNetworkObjects := pendingNetworkObjects[obj.createCode := obj];
        }
        assert Pending() == step.tables;
        return;
      }
      var behavior := pendingObjects[obj.createCode];
      initializeCalls := initializeCalls + [InitializeWithObject(behavior, obj)];
      pendingObjects := pendingObjects - {obj.createCode};
      assert Pending() == step.tables;
      if |pendingObjects| == 0 && |loadingScenes| == 0 {
        subscribed := false;
      }
    }

    /** The networker raising objectCreated: the handler sees the object only while it is
        still subscribed. */
    method ObjectCreatedEvent(obj: NetworkObject)
      requires Valid() && (subscribed ==> CanArrive(Pending(), obj))
      modifies this
      ensures Valid()
      ensures !old(subscribed) ==> Pending() == old(Pending()) && initializeCalls == old(initializeCalls) && !subscribed
      ensures old(subscribed) ==>
        && Pending() == Arrive(old(Pending()), obj).tables
        && initializeCalls == old(initializeCalls) + Arrive(old(Pending()), obj).calls
        && subscribed == !(obj.createCode in old(pendingObjects) && pendingObjects == map[] && loadingScenes == [])
      ensures initialized == old(initialized) && connected == old(connected)
      ensures loadedScenes == old(loadedScenes) && loadingScenes == old(loadingScenes) && sent == old(sent)
    {
      if subscribed {
        ObjectCreated(obj);
      }
    }

    /** Disconnect: unwires the handler, drops the networker and empties both tables; the
        scene lists are kept. */
    method Disconnect()
      requires Valid() && connected
      modifies this
      ensures Valid()
      ensures !connected && !subscribed
      ensures pendingObjects == map[] && pendingNetworkObjects == map[]
      ensures initialized == old(initialized)
      ensures loadedScenes == old(loadedScenes) && loadingScenes == old(loadingScenes)
      ensures sent == old(sent) && initializeCalls == old(initializeCalls)
    {
      subscribed := false;
      pendingObjects := map[];
      pendingNetworkObjects := map[];
      connected := false;
    }

    /** PlayerAcceptedSceneSetup: one frame per loaded scene to the new player, nothing else. */
    method PlayerAcceptedSceneSetup(player: nat)
      requires connected
      modifies this`sent
      ensures sent == old(sent) + JoinFrames(loadedScenes, player)
    {
      var i := 0;
      while i < |loadedScenes|
        invariant 0 <= i <= |loadedScenes|
        invariant sent == old(sent) + JoinFrames(loadedScenes, player)[..i]
      {
        if i == 0 {
          sent := sent + [Frame(ViewInitialize, loadedScenes[i], Reset.Value(), Target(player))];
        } else {
          sent := sent + [Frame(ViewChange, loadedScenes[i], Add.Value(), Target(player))];
        }
        i := i + 1;
      }
    }

    /** OnSceneReset: a non-initialised server ignores it; otherwise both tables and the loaded
        list are cleared, the scene becomes the only loaded one, a Reset is broadcast and the
        scene's behaviours are initialised on the networker. */
    method OnSceneReset(sceneId: int32, found: seq<NetworkBehavior>)
      requires Valid()
      requires initialized ==> connected && |found| < 0x8000_0000 && Distinct(found)
      modifies this, set i | 0 <= i < |found| :: found[i]
      ensures Valid()
      ensures !old(initialized) ==>
        && Pending() == old(Pending()) && loadedScenes == old(loadedScenes)
        && sent == old(sent) && initializeCalls == old(initializeCalls)
        && forall i :: 0 <= i < |found| ==> found[i].tempAttachCode == old(found[i].tempAttachCode)
      ensures old(initialized) ==>
        && pendingObjects == map[] && pendingNetworkObjects == map[]
        && loadedScenes == [sceneId]
        && sent == old(sent) + [Frame(ViewInitialize, sceneId, Reset.Value(), All)]
        && initializeCalls == old(initializeCalls) + InitializeOnNetworkerAll(TagAll(found, sceneId))
        && forall i :: 0 <= i < |found| ==> found[i].tempAttachCode == TagAll(found, sceneId)[i].code
      ensures loadingScenes == old(loadingScenes)
      ensures initialized == old(initialized) && connected == old(connected) && subscribed == old(subscribed)
    {
      if !initialized {
        return;
      }
      pendingObjects := map[];
      pendingNetworkObjects := map[];
      loadedScenes := [];
      loadedScenes := loadedScenes + [sceneId];
      sent := sent + [Frame(ViewInitialize, sceneId, Reset.Value(), All)];
      InitializeBehaviours(sceneId, found);
    }

    /** OnSceneAdded: the scene leaves loadingScenes (first occurrence), is appended to
        loadedScenes, an Add is broadcast and its behaviours are initialised. */
    method OnSceneAdded(sceneId: int32, found: seq<NetworkBehavior>)
      requires Valid()
      requires initialized ==> connected && |found| < 0x8000_0000 && Distinct(found)
      modifies this, set i | 0 <= i < |found| :: found[i]
      ensures Valid()
      ensures Pending() == old(Pending())
      ensures !old(initialized) ==>
        && loadedScenes == old(loadedScenes) && loadingScenes == old(loadingScenes)
        && sent == old(sent) && initializeCalls == old(initializeCalls)
        && forall i :: 0 <= i < |found| ==> found[i].tempAttachCode == old(found[i].tempAttachCode)
      ensures old(initialized) ==>
        && loadingScenes == RemoveFirst(old(loadingScenes), sceneId)
        && loadedScenes == old(loadedScenes) + [sceneId]
        && sent == old(sent) + [Frame(ViewChange, sceneId, Add.Value(), All)]
        && initializeCalls == old(initializeCalls) + InitializeOnNetworkerAll(TagAll(found, sceneId))
        && forall i :: 0 <= i < |found| ==> found[i].tempAttachCode == TagAll(found, sceneId)[i].code
      ensures initialized == old(initialized) && connected == old(connected) && subscribed == old(subscribed)
    {
      if !initialized {
        return;
      }
      loadingScenes := RemoveFirst(loadingScenes, sceneId);
      loadedScenes := loadedScenes + [sceneId];
      sent := sent + [Frame(ViewChange, sceneId, Add.Value(), All)];
      InitializeBehaviours(sceneId, found);
    }

    /** OnSceneRemoved: a non-initialised server ignores it; otherwise only the first
        occurrence of the scene leaves loadedScenes and a Remove is broadcast, which needs the
        networker. Disconnect does not clear initialized, so after a Disconnect this call is
        outside the contract. */
    method OnSceneRemoved(sceneId: int32)
      requires Valid()
      requires initialized ==> connected
      modifies this`loadedScenes, this`sent
      ensures Valid()
      ensures !old(initialized) ==> loadedScenes == old(loadedScenes) && sent == old(sent)
      ensures old(initialized) ==>
        && loadedScenes == RemoveFirst(old(loadedScenes), sceneId)
        && sent == old(sent) + [Frame(ViewChange, sceneId, Remove.Value(), All)]
    {
      if !initialized {
        return;
      }
      loadedScenes := RemoveFirst(loadedScenes, sceneId);
      sent := sent + [Frame(ViewChange, sceneId, Remove.Value(), All)];
    }

    /** InitializeBehaviours: nothing for an empty list; otherwise the counter loop gives the
        k-th behaviour AttachCode(sceneId, k) and each behaviour is initialised on the
        networker under its code. The pending tables are not touched. */
    method InitializeBehaviours(sceneId: int32, found: seq<NetworkBehavior>)
      requires connected && |found| < 0x8000_0000 && Distinct(found)
      modifies this`initializeCalls, set i | 0 <= i < |found| :: found[i]
      ensures initializeCalls == old(initializeCalls) + InitializeOnNetworkerAll(TagAll(found, sceneId))
      ensures forall i :: 0 <= i < |found| ==> found[i].tempAttachCode == TagAll(found, sceneId)[i].code
    {
      if |found| == 0 {
        return;
      }
      AssignAttachCodes(found, sceneId);
      ghost var tags := TagAll(found, sceneId);
      for i := 0 to |found|
        invariant initializeCalls == old(initializeCalls) + InitializeOnNetworkerAll(tags[..i])
        invariant forall j :: 0 <= j < |found| ==> found[j].tempAttachCode == tags[j].code
      {
        initializeCalls := initializeCalls + [InitializeOnNetworker(found[i], found[i].tempAttachCode)];
        assert InitializeOnNetworkerAll(tags[..i + 1]) == InitializeOnNetworkerAll(tags[..i]) + [InitializeOnNetworker(found[i], tags[i].code)];
      }
      assert tags[..|found|] == tags;
    }
  }
}
