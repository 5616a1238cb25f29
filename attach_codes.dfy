/** The attach codes InitializeBehaviours hands out: the k-th behaviour discovered for scene
    sceneId gets -((sceneId << 16) + k), computed in 32-bit int arithmetic. */
module AttachCodes {
  import opened Network
  import opened Lists

  const TwoTo16: int := 0x1_0000
  const TwoTo32: int := 0x1_0000_0000

  /** Two's-complement truncation to 32 bits, which is what C#'s unchecked int shift, add and
      negation do. */
  function Wrap(x: int): (r: int32)
    ensures (x - r) % TwoTo32 == 0
    ensures -0x8000_0000 <= x < 0x8000_0000 ==> r == x
  {
    var m := x % TwoTo32;
    if m < 0x8000_0000 then m else m - TwoTo32
  }

  /** The code given to the k-th behaviour (k from 1) of scene sceneId. */
  function AttachCode(sceneId: int32, k: int32): int32
  {
    Wrap(-(Wrap(Wrap(sceneId * TwoTo16) + k) as int))
  }

  /** The bounds under which no step of AttachCode wraps: a non-negative scene id below 2^15
      and fewer than 2^16 behaviours. */
  predicate InBounds(sceneId: int, k: int)
  {
    0 <= sceneId < 0x8000 && 1 <= k < TwoTo16
  }

  /** Within the bounds the code is the plain negated sum, and so negative. */
  lemma AttachCodeClosedForm(sceneId: int32, k: int32)
    requires InBounds(sceneId, k)
    ensures AttachCode(sceneId, k) == -(sceneId * TwoTo16 + k)
    ensures AttachCode(sceneId, k) < 0
  {
    assert 0 <= sceneId * TwoTo16 <= 0x7FFF * TwoTo16;
  }

  /** Within the bounds a different scene or a different position gives a different code. */
  lemma AttachCodeDistinct(s1: int32, k1: int32, s2: int32, k2: int32)
    requires InBounds(s1, k1) && InBounds(s2, k2)
    requires s1 != s2 || k1 != k2
    ensures AttachCode(s1, k1) != AttachCode(s2, k2)
  {
    AttachCodeClosedForm(s1, k1);
    AttachCodeClosedForm(s2, k2);
  }

  /** Past the scene bound the shift wraps: the first behaviour of scene 2^15 gets a
      non-negative code, so its object is not buffered when it arrives before the behaviour
      (objectCreated looks in the waiting table first, then tests the sign). */
  lemma SceneIdOverflow()
    ensures AttachCode(0x8000, 1) == 0x7FFF_FFFF
  {
  }

  /** Past the behaviour bound codes collide: the (2^16 + 1)-th behaviour of a scene gets the
      code of the first behaviour of the next scene. */
  lemma SequenceOverflow(sceneId: int32)
    requires 0 <= sceneId < 0x7FFF
    ensures AttachCode(sceneId, (TwoTo16 + 1) as int32) == AttachCode(sceneId + 1, 1)
  {
    assert 0 <= sceneId * TwoTo16 <= 0x7FFE * TwoTo16;
  }

  /** The behaviours found for a scene, each with the code InitializeBehaviours gives it. */
  function TagAll(found: seq<NetworkBehavior>, sceneId: int32): (r: seq<Tagged>)
    requires |found| < 0x8000_0000
    ensures |r| == |found|
    ensures forall i :: 0 <= i < |r| ==> r[i].behavior == found[i]
  {
    seq(|found|, i requires 0 <= i < |found| => Tagged(found[i], AttachCode(sceneId, (i + 1) as int32)))
  }

  /** The codes of a list of tagged behaviours. */
  function Codes(pairs: seq<Tagged>): set<int32>
  {
    set p | p in pairs :: p.code
  }

  /** Within the bounds the codes of one scene's behaviours are pairwise distinct. */
  lemma TagAllDistinct(found: seq<NetworkBehavior>, sceneId: int32)
    requires 0 <= sceneId < 0x8000 && |found| < TwoTo16
    ensures forall i, j :: 0 <= i < j < |found| ==> TagAll(found, sceneId)[i].code != TagAll(found, sceneId)[j].code
  {
    var r := TagAll(found, sceneId);
    forall i, j | 0 <= i < j < |found| ensures r[i].code != r[j].code {
      AttachCodeDistinct(sceneId, (i + 1) as int32, sceneId, (j + 1) as int32);
    }
  }

  /** Within the bounds every code is negative, which is what marks an object as awaited. */
  lemma TagAllNegative(found: seq<NetworkBehavior>, sceneId: int32)
    requires 0 <= sceneId < 0x8000 && |found| < TwoTo16
    ensures forall i :: 0 <= i < |found| ==> TagAll(found, sceneId)[i].code < 0
  {
    var r := TagAll(found, sceneId);
    forall i | 0 <= i < |found| ensures r[i].code < 0 {
      AttachCodeClosedForm(sceneId, (i + 1) as int32);
    }
  }

  /** Within the bounds no code of one scene is a code of another scene. */
  lemma TagAllForeign(found: seq<NetworkBehavior>, sceneId: int32)
    requires 0 <= sceneId < 0x8000 && |found| < TwoTo16
    ensures forall other: int32, k: int32 :: 0 <= other < 0x8000 && other != sceneId && 1 <= k < TwoTo16 ==>
              AttachCode(other, k) !in Codes(TagAll(found, sceneId))
  {
    var r := TagAll(found, sceneId);
    forall other: int32, k: int32 | 0 <= other < 0x8000 && other != sceneId && 1 <= k < TwoTo16
      ensures AttachCode(other, k) !in Codes(r)
    {
      forall i | 0 <= i < |r| ensures r[i].code != AttachCode(other, k) {
        AttachCodeDistinct(sceneId, (i + 1) as int32, other, k);
      }
      assert forall p :: p in r ==> p.code != AttachCode(other, k);
    }
  }

  /** The counter loop of InitializeBehaviours: behaviour i (from 0) gets AttachCode(sceneId, i + 1).
      The behaviours are distinct objects, as FindUninitializedBehaviors returns them. */
  method AssignAttachCodes(found: seq<NetworkBehavior>, sceneId: int32)
    requires |found| < 0x8000_0000 && Distinct(found)
    modifies set i | 0 <= i < |found| :: found[i]
    ensures forall i :: 0 <= i < |found| ==> found[i].tempAttachCode == TagAll(found, sceneId)[i].code
  {
    var currentAttachCode := 1;
    for i := 0 to |found|
      invariant currentAttachCode == i + 1
      invariant forall j :: 0 <= j < i ==> found[j].tempAttachCode == AttachCode(sceneId, (j + 1) as int32)
    {
      var behavior := found[i];
      behavior.tempAttachCode := Wrap(sceneId * TwoTo16);
      behavior.tempAttachCode := Wrap(behavior.tempAttachCode + currentAttachCode);
      currentAttachCode := currentAttachCode + 1;
      behavior.tempAttachCode := Wrap(-(behavior.tempAttachCode as int));
    }
  }
}
