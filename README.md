# Forge Networking: scene bookkeeping and pending creations

This project models two classes of Forge Networking Remastered: `GameServer` and `GameClient`. It covers the part that pairs engine-side network behaviours with the network objects created for them.

When a scene loads, each manager's `InitializeBehaviours` does the following:

- It gives every uninitialised behaviour of the scene an *attach code*. The code of the k-th behaviour is `-((sceneId << 16) + k)`, computed in 32-bit `int` arithmetic.
- The server initialises each behaviour on the networker, which creates the object under that code.
- The client files each behaviour in `pendingObjects` under its code, and waits for the server's object with that create code.

An object that arrives before its behaviour is buffered in `pendingNetworkObjects`. In Add mode, a behaviour registered later claims that object. When a load found at least one behaviour and no scene is loading afterwards, the client destroys any behaviour that is still waiting. A load that found nothing destroys nothing, even with no scene loading. The client unwires its creation handler only when nothing waits and no scene is loading, and, after a load, only when that load destroyed nothing. A drain leaves the handler wired, and so does a load while a scene is still loading, even when nothing waits.

The other half is the scene messages:

- the server's scene frames to all players;
- the frames the server sends a newly accepted player;
- the client's `ReadBinary` reaction to those frames (halting creation, the `loadingScenes` list, the queued scene handlers, unloading a removed scene's objects);
- the client's acknowledgements to the server.

The model is organised as follows:

- `Network`: the entities. `NetworkBehavior` is a class, because its `TempAttachCode` is written in place. `NetworkObject`, frames and Initialize calls are values.
- `Lists`: `List<T>.Remove` as a function.
- `AttachCodes`: the code scheme, its 32-bit wrap-around and the counter loop.
- `Rendezvous`: the two pending tables. It describes, as left folds, an object's arrival, the Add-mode claim loop, registration, and a run of arrivals. It proves that the tables stay consistent, that the counts add up, and, behaviour by behaviour, where each behaviour ends up: still waiting under its code, or initialised with the object created under that code.
- `Server` and `Client`: the two managers as classes. `pendingObjects`, `pendingNetworkObjects`, `loadedScenes`, `loadingScenes` and the server's `initialized` are the source's fields. The other fields stand for state outside the class: `connected` for `Networker != null`, `subscribed` for the wiring of the objectCreated handler, `pendCreates` and `networkObjects` for the networker's state, and `handlers` for which scene-event delegates are set. The calls a manager makes outward are logs: frames sent, Initialize calls, Destroy calls and `scheduled`, the scene handler invocations queued on the main thread. Each method's new state is tied to those specifications.
- `SceneJoin`: the join handshake end to end.

Inputs from collaborators the model cannot see are parameters:

- what `FindUninitializedBehaviors` returns (`found`);
- the objects `NetworkObject.Flush` hands to the creation callback (`flushed`);
- whether each collaborator was supplied, the protocol name, and whether the socket bound.

A `Dictionary.Add` on a key that is already present throws in C#. The model turns that into a precondition (`CanArrive`, `CanWait`, `CanRegister`, `CanDeliver`, `CanLoad`). A dereference of a null `Networker` becomes `requires connected`. The server's `Disconnect` does not clear `initialized`, so its scene handlers require `initialized ==> connected`.

## Model

S = `ForgeUnity/Assets/BeardedManStudios/Scripts/Networking/Forge/Managers/GameServer.cs`, C = the `GameClient.cs` beside it. The source cells give the full path.

| member | source | states |
|---|---|---|
| Lists.RemoveFirst | ForgeUnity/Assets/BeardedManStudios/Scripts/Networking/Forge/Managers/GameClient.cs:270 | List.Remove takes out only the first occurrence. A list without the element is unchanged. Otherwise the length drops by one, the multiset loses one copy, and the other elements keep their order. |
| Lists.IndexOf | ForgeUnity/Assets/BeardedManStudios/Scripts/Networking/Forge/Managers/GameClient.cs:270 | The position found is the first occurrence. It equals the length exactly when the element is absent. |
| AttachCodes.Wrap | ForgeUnity/Assets/BeardedManStudios/Scripts/Networking/Forge/Managers/GameServer.cs:486-488 | C#'s unchecked int arithmetic: the result is congruent to the input modulo 2^32, and is the input itself when that is in range. |
| AttachCodes.AttachCode | ForgeUnity/Assets/BeardedManStudios/Scripts/Networking/Forge/Managers/GameServer.cs:486-488 | The code of the k-th behaviour of a scene: sceneId shifted left by 16, plus k, negated, each step wrapped to 32 bits. The client computes the same code in the same way. Its properties are in the AttachCode lemmas below. |
| AttachCodes.AttachCodeClosedForm | ForgeUnity/Assets/BeardedManStudios/Scripts/Networking/Forge/Managers/GameServer.cs:486-488 | A scene id below 2^15 with fewer than 2^16 behaviours: nothing wraps, and the code is the negative number -(sceneId·2^16 + k). |
| AttachCodes.AttachCodeDistinct | ForgeUnity/Assets/BeardedManStudios/Scripts/Networking/Forge/Managers/GameClient.cs:344-346 | Within those bounds, two codes differ whenever the scenes or the positions differ. |
| AttachCodes.SceneIdOverflow | ForgeUnity/Assets/BeardedManStudios/Scripts/Networking/Forge/Managers/GameServer.cs:486-488 | Scene 2^15 wraps: its first behaviour gets the positive code 2^31-1. If its object arrives before the behaviour, it is not buffered, because object creation looks in the waiting table first and only buffers negative codes. |
| AttachCodes.SequenceOverflow | ForgeUnity/Assets/BeardedManStudios/Scripts/Networking/Forge/Managers/GameServer.cs:486-488 | The (2^16+1)-th behaviour of a scene collides with the first behaviour of the next scene. |
| AttachCodes.TagAll | ForgeUnity/Assets/BeardedManStudios/Scripts/Networking/Forge/Managers/GameClient.cs:342-347 | One tagged behaviour per found behaviour, same order, same behaviour. |
| AttachCodes.TagAllDistinct | ForgeUnity/Assets/BeardedManStudios/Scripts/Networking/Forge/Managers/GameClient.cs:342-347 | Within the bounds, the codes one scene hands out are pairwise distinct. |
| AttachCodes.TagAllNegative | ForgeUnity/Assets/BeardedManStudios/Scripts/Networking/Forge/Managers/GameClient.cs:342-347 | Within the bounds, every code of a scene is negative, so its object is never treated as foreign. |
| AttachCodes.TagAllForeign | ForgeUnity/Assets/BeardedManStudios/Scripts/Networking/Forge/Managers/GameClient.cs:342-347 | Within the bounds, no code of one scene is a code of another scene. |
| AttachCodes.AssignAttachCodes | ForgeUnity/Assets/BeardedManStudios/Scripts/Networking/Forge/Managers/GameServer.cs:476-489 | The counter loop writes AttachCode(sceneId, i+1) into the TempAttachCode of the i-th behaviour. |
| Rendezvous.Arrive | ForgeUnity/Assets/BeardedManStudios/Scripts/Networking/Forge/Managers/GameClient.cs:59-76 | One object arriving: it pairs with the behaviour waiting under its create code, which leaves the table with one Initialize call. If no behaviour waits, a negative code is buffered. Any other object changes nothing. Proved properties: ArriveConsistent and ArriveAccounts. |
| Rendezvous.ArriveConsistent | ForgeUnity/Assets/BeardedManStudios/Scripts/Networking/Forge/Managers/GameClient.cs:59-76 | An arriving object keeps the tables consistent. A buffered object sits under its own negative code, and no code both waits and is buffered. |
| Rendezvous.ArriveAccounts | ForgeUnity/Assets/BeardedManStudios/Scripts/Networking/Forge/Managers/GameClient.cs:59-76 | An arrival only takes behaviours out of the waiting table. Each behaviour it removes is initialised exactly once, with the arriving object. |
| Rendezvous.Consume | ForgeUnity/Assets/BeardedManStudios/Scripts/Networking/Forge/Managers/GameClient.cs:351-363 | The RemoveAt(i--) loop as a left fold. A behaviour whose code is buffered is initialised with that object, and both leave their collections. The others stay, in order. Proved properties: ConsumeCounts, ConsumeBuffer, ConsumeIsFilter and ConsumeDistinct. |
| Rendezvous.ConsumeCounts | ForgeUnity/Assets/BeardedManStudios/Scripts/Networking/Forge/Managers/GameClient.cs:351-363 | The RemoveAt(i--) loop skips no behaviour: each one stays in the list or is initialised, and each initialisation uses up one buffered object. |
| Rendezvous.ConsumeBuffer | ForgeUnity/Assets/BeardedManStudios/Scripts/Networking/Forge/Managers/GameClient.cs:351-363 | After the loop the buffer is the old buffer without the codes of the list, and nothing else has changed. |
| Rendezvous.ConsumeIsFilter | ForgeUnity/Assets/BeardedManStudios/Scripts/Networking/Forge/Managers/GameClient.cs:351-363 | With distinct codes the loop is exactly a filter. The behaviours whose code is not buffered stay, in order. Every other behaviour gets one Initialize call with its buffered object, in order. |
| Rendezvous.ConsumeFates | ForgeUnity/Assets/BeardedManStudios/Scripts/Networking/Forge/Managers/GameClient.cs:351-363 | Per behaviour, with the buffer keyed by create code: each behaviour of the list either stays in the list or is initialised with the object created under its own code. No distinctness of codes is needed. |
| Rendezvous.Wait | ForgeUnity/Assets/BeardedManStudios/Scripts/Networking/Forge/Managers/GameClient.cs:365-366 | The Add loop: each remaining behaviour is filed under its code, in order. Proved properties: WaitKeys, WaitSize and WaitValues. |
| Rendezvous.WaitKeys | ForgeUnity/Assets/BeardedManStudios/Scripts/Networking/Forge/Managers/GameClient.cs:365-366 | The Add loop adds exactly the behaviours' codes as keys. |
| Rendezvous.WaitSize | ForgeUnity/Assets/BeardedManStudios/Scripts/Networking/Forge/Managers/GameClient.cs:365-366 | The Add loop makes exactly one new entry per behaviour. |
| Rendezvous.WaitValues | ForgeUnity/Assets/BeardedManStudios/Scripts/Networking/Forge/Managers/GameClient.cs:365-366 | The Add loop keeps every earlier entry and files each behaviour under its own code. |
| Rendezvous.Claim | ForgeUnity/Assets/BeardedManStudios/Scripts/Networking/Forge/Managers/GameClient.cs:351 | The buffer is consulted only in Add mode with a non-empty buffer. Otherwise every tagged behaviour goes on to wait. |
| Rendezvous.Register | ForgeUnity/Assets/BeardedManStudios/Scripts/Networking/Forge/Managers/GameClient.cs:349-366 | Claim, then Wait: the new tables and the Initialize calls of registration. Proved properties: RegisterAccounts and RegisterFates. |
| Rendezvous.RegisterAccounts | ForgeUnity/Assets/BeardedManStudios/Scripts/Networking/Forge/Managers/GameClient.cs:349-366 | Registration keeps the tables consistent when the buffer is either consulted (Add) or empty (after a reset). The counts add up: the waiters plus the Initialize calls after registration are as many as the waiters before plus the tagged behaviours, and each initialisation consumes one buffered object. Earlier waiters stay, and none of the new codes remains buffered. Which behaviour goes where is RegisterFates. |
| Rendezvous.RegisterFates | ForgeUnity/Assets/BeardedManStudios/Scripts/Networking/Forge/Managers/GameClient.cs:349-366 | Per behaviour: registration keeps every earlier waiter under its code. Each tagged behaviour either waits under its own code or is initialised with the object buffered under that code. |
| Rendezvous.ConsumeDistinct | ForgeUnity/Assets/BeardedManStudios/Scripts/Networking/Forge/Managers/GameClient.cs:351-363 | The behaviours the RemoveAt(i--) loop leaves in the list still have pairwise distinct codes, and each of them was in the list before. |
| Rendezvous.RegisterSafe | ForgeUnity/Assets/BeardedManStudios/Scripts/Networking/Forge/Managers/GameClient.cs:365-366 | Within the code bounds, the pendingObjects.Add loop never meets a key that is already present, as long as nothing waiting carries a code of this scene. After a reset nothing waits, so it never throws there. |
| Rendezvous.TryDeliver | ForgeUnity/Assets/BeardedManStudios/Scripts/Networking/Forge/Managers/GameClient.cs:368 | The objects Flush hands to CreatePendingObjects, arriving one after another. The result is None when one of them would be buffered under a code already buffered, where Dictionary.Add throws. |
| Rendezvous.Deliver | ForgeUnity/Assets/BeardedManStudios/Scripts/Networking/Forge/Managers/GameClient.cs:368 | The tables and Initialize calls after a run that does not throw. Proved properties: DeliverAccounts, DeliverCalls, DeliverCovers and DeliverOrigins. |
| Rendezvous.DeliverSnoc | ForgeUnity/Assets/BeardedManStudios/Scripts/Networking/Forge/Managers/GameClient.cs:368 | An unfolding of TryDeliver: a run extends by one object, provided that object can arrive. |
| Rendezvous.DeliverAccounts | ForgeUnity/Assets/BeardedManStudios/Scripts/Networking/Forge/Managers/GameClient.cs:368 | The objects Flush hands over keep the tables consistent and only remove waiters. The counts add up: there are as many Initialize calls as waiters removed. |
| Rendezvous.DeliverCalls | ForgeUnity/Assets/BeardedManStudios/Scripts/Networking/Forge/Managers/GameClient.cs:59-76 | Per call, for the callback run of Flush at line 368. Every Initialize call initialises a waiter that the run removed, with the run's object created under that waiter's code. No code is initialised twice. |
| Rendezvous.DeliverCovers | ForgeUnity/Assets/BeardedManStudios/Scripts/Networking/Forge/Managers/GameClient.cs:59-76 | Per waiter, for the same run: every waiter the run removed has its Initialize call, with the object created under its code. |
| Rendezvous.DeliverOrigins | ForgeUnity/Assets/BeardedManStudios/Scripts/Networking/Forge/Managers/GameClient.cs:368 | After a run, every buffered object was already buffered under that code or is one of the run. |
| Rendezvous.BehaviorThenObject | ForgeUnity/Assets/BeardedManStudios/Scripts/Networking/Forge/Managers/GameClient.cs:59-76 | Behaviour first: a behaviour registers under a fresh code and waits, and its object then arrives and finds it. The behaviour gets exactly one Initialize with that object, and the tables are as they were. |
| Rendezvous.ObjectThenBehavior | ForgeUnity/Assets/BeardedManStudios/Scripts/Networking/Forge/Managers/GameClient.cs:351-363 | Object first: the object is buffered under its negative code, and an Add-mode registration then claims it. The behaviour gets exactly one Initialize with that object, and the tables are as they were. |
| Client.LoadingAfter | ForgeUnity/Assets/BeardedManStudios/Scripts/Networking/Forge/Managers/GameClient.cs:140-208 | ReadBinary's effect on loadingScenes, frame by frame. Its cases are proved in LoadingAfterCases. |
| Client.SceneCallbacks | ForgeUnity/Assets/BeardedManStudios/Scripts/Networking/Forge/Managers/GameClient.cs:142-191 | The handler invocation ReadBinary queues for a frame: VIEW_INITIALIZE queues a reset, and A VIEW_CHANGE Add queues an add and a VIEW_CHANGE Remove queues a remove. Any other frame queues nothing. Each is queued only if that handler is set. |
| Client.LoadingAfterCases | ForgeUnity/Assets/BeardedManStudios/Scripts/Networking/Forge/Managers/GameClient.cs:140-208 | VIEW_INITIALIZE makes its scene the only one loading. A VIEW_CHANGE Add appends one occurrence and keeps the earlier list as a prefix. A VIEW_CHANGE Remove takes one occurrence away. Any other frame leaves the list alone. |
| Client.SceneObjects | ForgeUnity/Assets/BeardedManStudios/Scripts/Networking/Forge/Managers/GameClient.cs:417-427 | The networker's objects whose attached behaviour is in the scene, in order. Proved property: SceneObjectsMembers. |
| Client.OutsideScene | ForgeUnity/Assets/BeardedManStudios/Scripts/Networking/Forge/Managers/GameClient.cs:429 | The objects not in the scene, in order. Proved property: OutsideSceneMembers. |
| Client.Without | ForgeUnity/Assets/BeardedManStudios/Scripts/Networking/Forge/Managers/GameClient.cs:429 | ManualRemove: the list without the removed objects. Proved properties: WithoutFilter and RemoveSceneObjects. |
| Client.SceneObjectsMembers | ForgeUnity/Assets/BeardedManStudios/Scripts/Networking/Forge/Managers/GameClient.cs:417-427 | The objects collected are exactly those whose attached behaviour is in the scene. |
| Client.OutsideSceneMembers | ForgeUnity/Assets/BeardedManStudios/Scripts/Networking/Forge/Managers/GameClient.cs:429 | What remains is exactly the objects not in the scene. |
| Client.ScenePartition | ForgeUnity/Assets/BeardedManStudios/Scripts/Networking/Forge/Managers/GameClient.cs:414-429 | Unloading loses and duplicates nothing: the scene's objects plus the rest are the old list, counted with multiplicity. |
| Client.WithoutFilter | ForgeUnity/Assets/BeardedManStudios/Scripts/Networking/Forge/Managers/GameClient.cs:429 | ManualRemove with a list holding exactly the scene's objects leaves exactly the objects not in the scene. |
| Client.RemoveSceneObjects | ForgeUnity/Assets/BeardedManStudios/Scripts/Networking/Forge/Managers/GameClient.cs:414-429 | ManualRemove of the collected objects leaves exactly the objects not in the scene. |
| Client.LoadOutcome | ForgeUnity/Assets/BeardedManStudios/Scripts/Networking/Forge/Managers/GameClient.cs:321-382 | The whole of InitializeBehaviours on values. With nothing found it only flushes, and unwires when nothing waits and no scene is loading. Otherwise it tags, registers, flushes, then unwires or destroys what waits. Unfolded for each case by LoadOutcomeOfFound and LoadOutcomeOfNothing. Proved properties: LoadAccounts and LoadFates. |
| Client.LoadOutcomeOfFound | ForgeUnity/Assets/BeardedManStudios/Scripts/Networking/Forge/Managers/GameClient.cs:368-381 | An unfolding of LoadOutcome for the found case: Flush always delivers, and once no scene is loading, whatever still waits is destroyed. |
| Client.LoadOutcomeOfNothing | ForgeUnity/Assets/BeardedManStudios/Scripts/Networking/Forge/Managers/GameClient.cs:328-340 | When nothing was found, nothing is registered and nothing is destroyed. Flush delivers only while a scene is loading. Otherwise the handler is unwired exactly when nothing waits. |
| Client.LoadAccounts | ForgeUnity/Assets/BeardedManStudios/Scripts/Networking/Forge/Managers/GameClient.cs:321-382 | A load keeps the tables consistent, and the counts add up: the behaviours that waited or were found are as many as those waiting, initialised or destroyed afterwards. With something found and no scene loading, nothing waits afterwards. Nothing is destroyed or unwired while a scene is loading. The handler is unwired exactly when nothing waits, nothing was destroyed and no scene is loading. |
| Client.LoadFates | ForgeUnity/Assets/BeardedManStudios/Scripts/Networking/Forge/Managers/GameClient.cs:321-382 | Per behaviour: every behaviour that was waiting, and every behaviour the load found, is settled under its own code. It is still waiting there, initialised with the object created under that code, or destroyed under it. |
| Client.AfterRegisterFates | ForgeUnity/Assets/BeardedManStudios/Scripts/Networking/Forge/Managers/GameClient.cs:368-381 | After registration, the Flush run and the drain settle every behaviour that waits, and keep every Initialize call registration made. |
| Client.ResetForgetsPreviousSession | ForgeUnity/Assets/BeardedManStudios/Scripts/Networking/Forge/Managers/GameClient.cs:256-281 | After a reset, everything waiting or destroyed carries a code of this load, and every buffered object is one Flush just handed over. |
| Client.NewGameClient | ForgeUnity/Assets/BeardedManStudios/Scripts/Networking/Forge/Managers/GameClient.cs:48-114 | The constructor throws on the first missing collaborator, in source order. It then throws on a protocol other than tcp/udp (naming it) and on a socket that did not bind. Otherwise it returns a fresh client with nothing pending and the handler wired. The constructor does not touch Networker.PendCreates, so the model assumes a fresh networker is not pending creates. |
| Client.GameClient.CreatePendingObjects | ForgeUnity/Assets/BeardedManStudios/Scripts/Networking/Forge/Managers/GameClient.cs:59-76 | The new tables are the arrival step of the old ones. A waiting behaviour is initialised with the object, a negative code is buffered, and anything else is ignored. The handler unwires itself only when it has just paired the last waiter and no scene is loading. |
| Client.GameClient.ObjectCreatedEvent | ForgeUnity/Assets/BeardedManStudios/Scripts/Networking/Forge/Managers/GameClient.cs:112 | The networker's objectCreated event runs CreatePendingObjects only while it is wired. |
| Client.GameClient.Disconnect | ForgeUnity/Assets/BeardedManStudios/Scripts/Networking/Forge/Managers/GameClient.cs:116-129 | Disconnecting unwires the handler, clears both tables and the network objects, and drops the networker. |
| Client.GameClient.ReadBinary | ForgeUnity/Assets/BeardedManStudios/Scripts/Networking/Forge/Managers/GameClient.cs:140-208 | loadingScenes becomes LoadingAfter, and PendCreates is set by VIEW_INITIALIZE and Add. The handler invocation is queued only when that handler is set. A Remove of a non-negative scene unloads that scene's objects. Any other frame leaves the objects and the buffer alone. |
| Client.GameClient.UnloadSceneNetworkObjects | ForgeUnity/Assets/BeardedManStudios/Scripts/Networking/Forge/Managers/GameClient.cs:410-436 | For a non-negative scene id, the networker keeps exactly the objects outside the scene, and the buffer loses the create codes of the removed ones. A negative id changes nothing. |
| Client.GameClient.OnSceneReset | ForgeUnity/Assets/BeardedManStudios/Scripts/Networking/Forge/Managers/GameClient.cs:256-281 | Without a networker nothing changes. Otherwise the tables and loaded list are cleared, and the scene leaves loadingScenes and is the only loaded scene. A Reset goes to the server, and the new tables, Initialize calls, Destroy calls and handler state are the load outcome from empty tables. |
| Client.GameClient.ResetConnected | ForgeUnity/Assets/BeardedManStudios/Scripts/Networking/Forge/Managers/GameClient.cs:264-280 | OnSceneReset with the networker there. The tables are cleared, the scene is the only loaded one and leaves loadingScenes, and a Reset goes to the server. The new state is the load outcome from empty tables. |
| Client.GameClient.BeginReset | ForgeUnity/Assets/BeardedManStudios/Scripts/Networking/Forge/Managers/GameClient.cs:264-278 | Both tables and the loaded list are cleared. The first occurrence of the scene leaves loadingScenes, the scene becomes the only loaded one, and a Reset frame goes to the server. |
| Client.GameClient.OnSceneAdded | ForgeUnity/Assets/BeardedManStudios/Scripts/Networking/Forge/Managers/GameClient.cs:283-301 | Without a networker nothing changes. Otherwise the scene leaves loadingScenes and is appended to the loaded list. An Add goes to the server, and the new state is the Add-mode load outcome from the current tables. |
| Client.GameClient.AddConnected | ForgeUnity/Assets/BeardedManStudios/Scripts/Networking/Forge/Managers/GameClient.cs:288-300 | OnSceneAdded with the networker there. The scene moves from loading to loaded, an Add goes to the server, and the new state is the Add-mode load outcome from the current tables. |
| Client.GameClient.BeginAdd | ForgeUnity/Assets/BeardedManStudios/Scripts/Networking/Forge/Managers/GameClient.cs:288-298 | The first occurrence of the scene leaves loadingScenes, the scene is appended to the loaded list, and an Add frame goes to the server. |
| Client.GameClient.OnSceneRemoved | ForgeUnity/Assets/BeardedManStudios/Scripts/Networking/Forge/Managers/GameClient.cs:307-319 | Without a networker nothing changes. Otherwise the scene's first occurrence leaves the loaded list and a Remove goes to the server. |
| Client.GameClient.InitializeBehaviours | ForgeUnity/Assets/BeardedManStudios/Scripts/Networking/Forge/Managers/GameClient.cs:321-382 | The codes are written, and the tables, Initialize log and handler state are those of LoadOutcome. The Destroy log grows by the destroyed behaviours, each exactly once. |
| Client.GameClient.FlushOnly | ForgeUnity/Assets/BeardedManStudios/Scripts/Networking/Forge/Managers/GameClient.cs:328-340 | With nothing found: deliver while a scene is loading, otherwise unwire when nothing waits. Nothing is destroyed. |
| Client.GameClient.LoadFound | ForgeUnity/Assets/BeardedManStudios/Scripts/Networking/Forge/Managers/GameClient.cs:342-381 | With something found: tag, claim, register, flush and settle, ending in exactly LoadOutcome's state. |
| Client.GameClient.RegisterAndFlush | ForgeUnity/Assets/BeardedManStudios/Scripts/Networking/Forge/Managers/GameClient.cs:342-368 | Tagging, registration and the Flush callback: the tables become those of Deliver after Register. The Initialize log grows by both steps' calls, and the handler unwires exactly when the flush paired the last waiter with no scene loading. |
| Client.GameClient.RegisterFound | ForgeUnity/Assets/BeardedManStudios/Scripts/Networking/Forge/Managers/GameClient.cs:342-366 | The codes are written, then the tables and Initialize log become those of Register, which claims buffered objects only in Add mode with a non-empty buffer. |
| Client.ClaimBuffered | ForgeUnity/Assets/BeardedManStudios/Scripts/Networking/Forge/Managers/GameClient.cs:351-363 | The RemoveAt(i--) loop leaves the behaviours, buffer and Initialize calls that Consume specifies. Each remaining behaviour still carries its own code. |
| Client.GameClient.WaitAll | ForgeUnity/Assets/BeardedManStudios/Scripts/Networking/Forge/Managers/GameClient.cs:365-366 | pendingObjects becomes Wait of the remaining behaviours. |
| Client.GameClient.DeliverAll | ForgeUnity/Assets/BeardedManStudios/Scripts/Networking/Forge/Managers/GameClient.cs:368 | The callback runs once per flushed object: the tables and log follow Deliver, and the handler unwires once the last waiter is paired with no scene loading. |
| Client.GameClient.Settle | ForgeUnity/Assets/BeardedManStudios/Scripts/Networking/Forge/Managers/GameClient.cs:370-381 | With no scene loading, it unwires the handler if nothing waits and otherwise destroys every waiter once and empties the table. While a scene is loading it changes nothing. |
| Client.GameClient.DestroyPending | ForgeUnity/Assets/BeardedManStudios/Scripts/Networking/Forge/Managers/GameClient.cs:376-380 | Every waiting behaviour is handed to Destroy exactly once (in some key order) and the table ends empty. |
| Client.Drain | ForgeUnity/Assets/BeardedManStudios/Scripts/Networking/Forge/Managers/GameClient.cs:376-380 | The foreach over pendingObjects yields every waiting behaviour exactly once, one per key, in some order of the keys. |
| Server.JoinFrames | ForgeUnity/Assets/BeardedManStudios/Scripts/Networking/Forge/Managers/GameServer.cs:345-359 | One frame per loaded scene for the accepted player, in order. The first is VIEW_INITIALIZE Reset and the later ones are VIEW_CHANGE Add. Proved properties: SceneJoin.JoinFramesConverge and SceneJoin.JoinCallbacks. |
| Server.InitializeOnNetworkerAll | ForgeUnity/Assets/BeardedManStudios/Scripts/Networking/Forge/Managers/GameServer.cs:490-493 | One Initialize(Networker) call per tagged behaviour, under its attach code, in order. |
| Server.NewGameServer | ForgeUnity/Assets/BeardedManStudios/Scripts/Networking/Forge/Managers/GameServer.cs:55-134 | The constructor throws on missing settings, then on a missing behaviour manager, then on a socket that did not bind. Otherwise it returns an initialised server with nothing pending and the handler wired. |
| Server.GameServer.ObjectCreated | ForgeUnity/Assets/BeardedManStudios/Scripts/Networking/Forge/Managers/GameServer.cs:136-153 | Same pairing step as the client's: the arrival step of the old tables. The handler unwires when the last waiter is paired and no scene is loading. Scenes and sent frames are untouched. |
| Server.GameServer.ObjectCreatedEvent | ForgeUnity/Assets/BeardedManStudios/Scripts/Networking/Forge/Managers/GameServer.cs:86 | The objectCreated event runs the handler only while it is wired. |
| Server.GameServer.Disconnect | ForgeUnity/Assets/BeardedManStudios/Scripts/Networking/Forge/Managers/GameServer.cs:279-303 | Disconnecting unwires the handler, clears both tables, drops the networker and keeps the scene lists. |
| Server.GameServer.PlayerAcceptedSceneSetup | ForgeUnity/Assets/BeardedManStudios/Scripts/Networking/Forge/Managers/GameServer.cs:340-361 | One frame per loaded scene goes to the new player, in order. The first is a VIEW_INITIALIZE Reset, and every later one a VIEW_CHANGE Add. |
| Server.GameServer.OnSceneReset | ForgeUnity/Assets/BeardedManStudios/Scripts/Networking/Forge/Managers/GameServer.cs:404-427 | Before initialisation nothing changes. Otherwise the tables are cleared and the scene is the only loaded scene. A VIEW_INITIALIZE Reset goes to all, and every found behaviour gets its code and one Initialize on the networker, in order. |
| Server.GameServer.OnSceneAdded | ForgeUnity/Assets/BeardedManStudios/Scripts/Networking/Forge/Managers/GameServer.cs:429-449 | Before initialisation nothing changes. Otherwise the scene leaves loadingScenes and is appended to the loaded list. A VIEW_CHANGE Add goes to all, and the behaviours are initialised on the networker under their codes, with the tables untouched. |
| Server.GameServer.OnSceneRemoved | ForgeUnity/Assets/BeardedManStudios/Scripts/Networking/Forge/Managers/GameServer.cs:455-470 | Before initialisation nothing changes. Otherwise, with the networker there, the scene's first occurrence leaves the loaded list and a VIEW_CHANGE Remove goes to all. |
| Server.GameServer.InitializeBehaviours | ForgeUnity/Assets/BeardedManStudios/Scripts/Networking/Forge/Managers/GameServer.cs:472-494 | The k-th found behaviour gets AttachCode(sceneId, k). After that the Initialize log grows by one networker initialisation per behaviour, under its code, in order. An empty list changes nothing. |
| SceneJoin.JoinFramesConverge | ForgeUnity/Assets/BeardedManStudios/Scripts/Networking/Forge/Managers/GameServer.cs:345-359 | Once a client has read the join frames, its loadingScenes equals the server's loadedScenes, in the server's order, whatever it held before. With no scene loaded nothing is sent and nothing changes. |
| SceneJoin.JoinCallbacks | ForgeUnity/Assets/BeardedManStudios/Scripts/Networking/Forge/Managers/GameClient.cs:142-191 | With both handlers set, the join frames queue a reset of the first loaded scene and then an add of each later one, in order. |

## Left out

- Transport is not modelled: TCP/UDP client and server classes, NAT hole punching, frame encoding, timesteps and SendFrame's dispatch on the networker type. A sent frame is recorded by group, scene id, mode and receivers.
- The master server is not modelled: registering on it, updating its listing and its JSON payloads (GameServer.cs lines 160-277). These are network I/O to a service outside this core.
- The client's NetworkerDisconnected (GameClient.cs lines 78-81) only unwires itself from the disconnected event. It is left out because only the event wiring changes, and that event is not modelled.
- The server's NetworkerDisconnected (GameServer.cs lines 220-225) also disconnects the master-server client and drops it. It is left out with the master server.
- The Server Query Protocol service, `Update`/`InterpolateUpdate` and `Networker_playerTimeout` are left out. They are I/O, timers or logging.
- `GetBehaviorByNetworkId` is left out. It is a lookup in the networker's object dictionary, which is not part of this model.
- `NetworkObject.Flush` is not modelled beyond its effect on the manager. Its internals (which pending creations it releases, clearing PendCreates, taking objects into the networker's list) are not part of this model. The objects it hands to the creation callback are the `flushed` parameter, and `networkObjects` does not grow there.
- `NetworkObject.ClearNetworkObjects` and `NetWorker.EndSession` on disconnect are outside this core. The client's model only empties its `networkObjects`.
- Locks (`PendingCreatesLock`) and the main-thread runner are not modelled. Each call is one atomic step, and a scene handler is a queued `SceneCallback` that is never run.
- `GameServer.ReadBinary` is left out. It returns on VIEW_CHANGE and does nothing otherwise, so the server keeps no state from the client's acknowledgements.
- The websocket branch of `ConnectToGameServer` is left out. It tests `"udp"` a second time and so can never be taken; `NewGameClient` accepts exactly tcp and udp.
- No method shown inserts into the server's `pendingObjects`. The server's pairing step is modelled by `Server.GameServer.ObjectCreated` in its general form.
- Exceptions are not modelled as values. `Dictionary.Add` on a present key becomes the precondition of the method that would throw, and a call through a null `Networker` becomes `requires connected`.
- Client.GameClient.DestroyPending: the Destroy order is only stated to list each waiting behaviour once. C# enumerates the dictionary in an unspecified order, so the model leaves the order unspecified too.
