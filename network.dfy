/** The entities the two managers exchange with the networker and the behaviour manager. */
module Network {

  /** C#'s int. */
  type int32 = x: int | -0x8000_0000 <= x < 0x8000_0000

  /** INetworkBehavior: an engine-side behaviour that waits to be paired with its network
      object. InitializeBehaviours writes its TempAttachCode in place; its SceneId is fixed. */
  class NetworkBehavior {
    var tempAttachCode: int32
    const sceneId: int32
  }

  /** A network object as the networker reports it: the code it was created with and the
      behaviour attached to it, if any. */
  datatype NetworkObject = NetworkObject(networkId: nat, createCode: int32, attachedBehavior: NetworkBehavior?)

  /** One call of INetworkBehavior.Initialize: with an arrived object (client side, and the
      server's objectCreated handler), or on the networker, which creates the object under the
      behaviour's attach code (server side). */
  datatype InitializeCall =
    | InitializeWithObject(behavior: NetworkBehavior, obj: NetworkObject)
    | InitializeOnNetworker(behavior: NetworkBehavior, attachCode: int32)

  /** A behaviour together with the attach code it was given, as it sits in pendingObjects. */
  datatype Tagged = Tagged(behavior: NetworkBehavior, code: int32)

  /** GameServer.ViewUpdateMode and the integer it is written as on the wire. */
  datatype ViewUpdateMode = Reset | Add | Remove
  {
    function Value(): int32
    {
      match this
      case Reset => 0
      case Add => 1
      case Remove => 2
    }
  }

  /** The message groups the scene protocol uses; any other group is opaque here. */
  datatype GroupId = ViewInitialize | ViewChange | OtherGroup(id: nat)

  /** Who a frame is addressed to. */
  datatype Receivers = All | Server | Target(player: nat)

  /** A Binary frame whose payload is the pair written by ObjectMapper.BMSByte(sceneId, (int)mode). */
  datatype Frame = Frame(groupId: GroupId, sceneId: int32, mode: int32, receivers: Receivers)

  /** A scene handler invocation queued on the main-thread runner. */
  datatype SceneCallback = ResetScene(sceneId: int32) | AddScene(sceneId: int32) | RemoveScene(sceneId: int32)

  /** The errors the constructors throw: a missing collaborator, or (client) a protocol no
      socket exists for, or a socket that did not bind. */
  datatype ConfigError =
    | MissingSettings | MissingObjectFactory | MissingBehaviorManager | MissingThreadRunner
    | NoSocket(protocol: string) | NotBound

  /** A construction that either yields a manager or fails with a configuration error. */
  datatype Construction<T> = Constructed(value: T) | Failed(error: ConfigError)
}
