/** The join handshake end to end: the frames PlayerAcceptedSceneSetup sends, as the client's
    ReadBinary takes them in order. */
module SceneJoin {
  import opened Network
  import opened Server
  import opened Client

  /** loadingScenes after ReadBinary has taken each frame in order. */
  function ReplayLoading(loading: seq<int32>, frames: seq<Frame>): seq<int32>
    decreases |frames|
  {
    if frames == [] then loading
    else LoadingAfter(ReplayLoading(loading, frames[..|frames| - 1]), frames[|frames| - 1])
  }

  /** The scene handler invocations ReadBinary queues for the frames, in order. */
  function ReplayCallbacks(frames: seq<Frame>, handlers: Handlers): seq<SceneCallback>
    decreases |frames|
  {
    if frames == [] then []
    else ReplayCallbacks(frames[..|frames| - 1], handlers) + SceneCallbacks(frames[|frames| - 1], handlers)
  }

  /** One more frame read. */
  lemma ReplaySnoc(loading: seq<int32>, frames: seq<Frame>, f: Frame)
    ensures ReplayLoading(loading, frames + [f]) == LoadingAfter(ReplayLoading(loading, frames), f)
  {
    assert (frames + [f])[..|frames|] == frames;
  }

  /** The shape of the join frames: one per loaded scene, the first a VIEW_INITIALIZE and
      every later one a VIEW_CHANGE Add. */
  predicate JoinShaped(frames: seq<Frame>, loaded: seq<int32>)
  {
    && |frames| == |loaded|
    && (forall i :: 0 <= i < |frames| ==> frames[i].sceneId == loaded[i])
    && (|frames| > 0 ==> frames[0].groupId == ViewInitialize)
    && (forall i :: 0 < i < |frames| ==> frames[i].groupId == ViewChange && frames[i].mode == Add.Value())
  }

  /** Reading a VIEW_INITIALIZE first leaves its scene as the only one loading. */
  lemma ReplayInitialize(loading: seq<int32>, f: Frame)
    requires f.groupId == ViewInitialize
    ensures ReplayLoading(loading, [f]) == [f.sceneId]
  {
    ReplaySnoc(loading, [], f);
  }

  /** Reading a VIEW_CHANGE Add appends its scene. */
  lemma ReplayAdd(loading: seq<int32>, init: seq<Frame>, f: Frame, before: seq<int32>)
    requires ReplayLoading(loading, init) == before
    requires f.groupId == ViewChange && f.mode == Add.Value()
    ensures ReplayLoading(loading, init + [f]) == before + [f.sceneId]
  {
    ReplaySnoc(loading, init, f);
  }

  lemma {:induction false} ReplayJoinShaped(loading: seq<int32>, frames: seq<Frame>, loaded: seq<int32>)
    requires JoinShaped(frames, loaded) && frames != []
    ensures ReplayLoading(loading, frames) == loaded
    decreases |frames|
  {
    var n := |frames|;
    if n == 1 {
      assert frames == [frames[0]];
      ReplayInitialize(loading, frames[0]);
      assert loaded == [loaded[0]];
    } else {
      var init, last := frames[..n - 1], frames[n - 1];
      assert JoinShaped(init, loaded[..n - 1]);
      ReplayJoinShaped(loading, init, loaded[..n - 1]);
      ReplayAdd(loading, init, last, loaded[..n - 1]);
      assert frames == init + [last];
      assert loaded == loaded[..n - 1] + [loaded[n - 1]];
    }
  }

  /** Whatever the client was loading before, once it has read the join frames its loading
      list is the server's loaded list, in the server's order; with no scene loaded no frame
      is sent and nothing changes. */
  lemma JoinFramesConverge(loading: seq<int32>, loaded: seq<int32>, player: nat)
    ensures loaded != [] ==> ReplayLoading(loading, JoinFrames(loaded, player)) == loaded
    ensures loaded == [] ==> ReplayLoading(loading, JoinFrames(loaded, player)) == loading
  {
    var frames := JoinFrames(loaded, player);
    assert JoinShaped(frames, loaded);
    if loaded != [] {
      ReplayJoinShaped(loading, frames, loaded);
    } else {
      assert frames == [];
    }
  }

  lemma {:induction false} JoinPrefixCallbacks(loaded: seq<int32>, player: nat, handlers: Handlers, n: nat)
    requires handlers.reset && handlers.add && n <= |loaded|
    ensures var r := ReplayCallbacks(JoinFrames(loaded, player)[..n], handlers);
      && |r| == n
      && (n > 0 ==> r[0] == ResetScene(loaded[0]))
      && forall i :: 0 < i < n ==> r[i] == AddScene(loaded[i])
  {
    var frames := JoinFrames(loaded, player);
    if n > 0 {
      JoinPrefixCallbacks(loaded, player, handlers, n - 1);
      assert frames[..n][..n - 1] == frames[..n - 1];
    }
  }

  /** With both handlers set, the client queues a reset of the first loaded scene and then an
      add of every other loaded scene, in the server's order. */
  lemma JoinCallbacks(loaded: seq<int32>, player: nat, handlers: Handlers)
    requires handlers.reset && handlers.add
    ensures var r := ReplayCallbacks(JoinFrames(loaded, player), handlers);
      && |r| == |loaded|
      && (loaded != [] ==> r[0] == ResetScene(loaded[0]))
      && forall i :: 0 < i < |loaded| ==> r[i] == AddScene(loaded[i])
  {
    JoinPrefixCallbacks(loaded, player, handlers, |loaded|);
    assert JoinFrames(loaded, player)[..|loaded|] == JoinFrames(loaded, player);
  }
}
