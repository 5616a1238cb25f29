/** The pending-creation tables both managers keep, and the rules that pair a behaviour with
    its network object whichever of the two turns up first. Each rule is a left fold over the
    list the source loops over, so that a loop's invariant is the fold of the prefix done. */
module Rendezvous {
  import opened Network
  import opened AttachCodes

  /** pendingObjects (behaviours waiting for their object) and pendingNetworkObjects (objects
      that arrived before their behaviour), both keyed by attach code. */
  datatype Tables = Tables(behaviors: map<int32, NetworkBehavior>, objects: map<int32, NetworkObject>)

  const Empty := Tables(map[], map[])

  /** A buffered object sits under its own create code, and that code is negative. */
  predicate Keyed(t: Tables)
  {
    forall c :: c in t.objects ==> t.objects[c].createCode == c && c < 0
  }

  /** No code is both waiting for its object and buffered with its object: such a pair would
      be a rendezvous that was missed. */
  predicate Disjoint(t: Tables)
  {
    t.behaviors.Keys !! t.objects.Keys
  }

  predicate Consistent(t: Tables)
  {
    Keyed(t) && Disjoint(t)
  }

  /** The tables after a step, and the Initialize calls the step made, in order. */
  datatype Step = Step(tables: Tables, calls: seq<InitializeCall>)

  // ---------------------------------------------------------------------------------------
  // An object arrives (CreatePendingObjects, Networker_objectCreated)

  /** Dictionary.Add in the buffering branch throws on a code that is already buffered. */
  predicate CanArrive(t: Tables, obj: NetworkObject)
  {
    obj.createCode in t.behaviors || obj.createCode >= 0 || obj.createCode !in t.objects
  }

  /** A waiting behaviour with the object's code is initialised with it and stops waiting;
      otherwise a negative code is buffered and a non-negative one is ignored. */
  function Arrive(t: Tables, obj: NetworkObject): Step
    requires CanArrive(t, obj)
  {
    var c := obj.createCode;
    if c in t.behaviors then Step(Tables(t.behaviors - {c}, t.objects), [InitializeWithObject(t.behaviors[c], obj)])
    else if c < 0 then Step(Tables(t.behaviors, t.objects[c := obj]), [])
    else Step(t, [])
  }

  /** An arrival keeps the tables consistent. */
  lemma ArriveConsistent(t: Tables, obj: NetworkObject)
    requires Consistent(t) && CanArrive(t, obj)
    ensures Consistent(Arrive(t, obj).tables)
  {
  }

  /** An arrival only takes behaviours out of the waiting table, and each behaviour it takes
      out is initialised, exactly once, with the arriving object. */
  lemma ArriveAccounts(t: Tables, obj: NetworkObject)
    requires CanArrive(t, obj)
    ensures var r := Arrive(t, obj);
      && r.tables.behaviors.Keys <= t.behaviors.Keys
      && (forall c :: c in r.tables.behaviors ==> r.tables.behaviors[c] == t.behaviors[c])
      && |t.behaviors| == |r.tables.behaviors| + |r.calls|
      && (forall i :: 0 <= i < |r.calls| ==> r.calls[i] == InitializeWithObject(t.behaviors[obj.createCode], obj))
  {
    var c := obj.createCode;
    if c in t.behaviors {
      assert (t.behaviors - {c}).Keys == t.behaviors.Keys - {c};
    }
  }

  // ---------------------------------------------------------------------------------------
  // Behaviours register (InitializeBehaviours, after the codes are assigned)

  predicate DistinctCodes(pairs: seq<Tagged>)
  {
    forall i, j :: 0 <= i < j < |pairs| ==> pairs[i].code != pairs[j].code
  }

  lemma CodesOfPrefix(pairs: seq<Tagged>)
    requires pairs != []
    ensures Codes(pairs) == Codes(pairs[..|pairs| - 1]) + {pairs[|pairs| - 1].code}
  {
    var init := pairs[..|pairs| - 1];
    assert pairs == init + [pairs[|pairs| - 1]];
    forall c | c in Codes(pairs) ensures c in Codes(init) + {pairs[|pairs| - 1].code} {
      var p :| p in pairs && p.code == c;
    }
  }

  /** What the RemoveAt(i--) loop leaves: the behaviours that found no buffered object (in
      order), the Initialize calls made for those that did, and the buffer without the
      objects consumed. */
  datatype Consumed = Consumed(unmatched: seq<Tagged>, calls: seq<InitializeCall>, objects: map<int32, NetworkObject>)

  /** The RemoveAt(i--) loop over the tagged behaviours: one whose code is buffered is
      initialised with that object and leaves both the list and the buffer. */
  function Consume(pairs: seq<Tagged>, objects: map<int32, NetworkObject>): Consumed
    decreases |pairs|
  {
    if pairs == [] then Consumed([], [], objects)
    else
      var c := Consume(pairs[..|pairs| - 1], objects);
      var p := pairs[|pairs| - 1];
      if p.code in c.objects then
        Consumed(c.unmatched, c.calls + [InitializeWithObject(p.behavior, c.objects[p.code])], c.objects - {p.code})
      else
        Consumed(c.unmatched + [p], c.calls, c.objects)
  }

  /** The loop skips no behaviour: each one either stays in the list or is initialised with a
      consumed object, one object per call. */
  lemma {:induction false} ConsumeCounts(pairs: seq<Tagged>, objects: map<int32, NetworkObject>)
    ensures |Consume(pairs, objects).unmatched| + |Consume(pairs, objects).calls| == |pairs|
    ensures |Consume(pairs, objects).objects| + |Consume(pairs, objects).calls| == |objects|
    ensures forall p :: p in Consume(pairs, objects).unmatched ==> p in pairs
  {
    if pairs != [] {
      var init := pairs[..|pairs| - 1];
      var p := pairs[|pairs| - 1];
      ConsumeCounts(init, objects);
      var c := Consume(init, objects);
      if p.code in c.objects {
        assert (c.objects - {p.code}).Keys == c.objects.Keys - {p.code};
      }
      assert forall q :: q in init ==> q in pairs;
    }
  }

  /** Every code of the list is gone from the buffer afterwards, and nothing else is. */
  lemma {:induction false} ConsumeBuffer(pairs: seq<Tagged>, objects: map<int32, NetworkObject>)
    ensures Consume(pairs, objects).objects == objects - Codes(pairs)
  {
    if pairs != [] {
      var init := pairs[..|pairs| - 1];
      ConsumeBuffer(init, objects);
      CodesOfPrefix(pairs);
    }
  }

  /** Reference reading of the loop: the behaviours whose code is not buffered, in order. */
  function Unbuffered(pairs: seq<Tagged>, objects: map<int32, NetworkObject>): seq<Tagged>
    decreases |pairs|
  {
    if pairs == [] then []
    else
      var p := pairs[|pairs| - 1];
      Unbuffered(pairs[..|pairs| - 1], objects) + (if p.code in objects then [] else [p])
  }

  /** Reference reading of the loop: one Initialize call per behaviour whose code is buffered. */
  function BufferedBindings(pairs: seq<Tagged>, objects: map<int32, NetworkObject>): seq<InitializeCall>
    decreases |pairs|
  {
    if pairs == [] then []
    else
      var p := pairs[|pairs| - 1];
      BufferedBindings(pairs[..|pairs| - 1], objects)
        + (if p.code in objects then [InitializeWithObject(p.behavior, objects[p.code])] else [])
  }

  /** With distinct codes the RemoveAt(i--) loop is exactly a filter: a behaviour stays
      precisely when its code was never buffered, and one that leaves is initialised with the
      object buffered under its code. */
  lemma {:induction false} ConsumeIsFilter(pairs: seq<Tagged>, objects: map<int32, NetworkObject>)
    requires DistinctCodes(pairs)
    ensures Consume(pairs, objects)
         == Consumed(Unbuffered(pairs, objects), BufferedBindings(pairs, objects), objects - Codes(pairs))
  {
    if pairs != [] {
      var init := pairs[..|pairs| - 1];
      var p := pairs[|pairs| - 1];
      assert DistinctCodes(init);
      ConsumeIsFilter(init, objects);
      CodesOfPrefix(pairs);
      assert objects - Codes(init) - {p.code} == objects - Codes(pairs);
    }
  }

  /** Some call of the log initialises behaviour b with an object created under code c. */
  predicate InitializedUnder(calls: seq<InitializeCall>, c: int32, b: NetworkBehavior)
  {
    exists i :: 0 <= i < |calls| && calls[i].InitializeWithObject? && calls[i].behavior == b && calls[i].obj.createCode == c
  }

  /** Per behaviour: with the buffer keyed by create code, each behaviour of the list either
      stays in the list or is initialised with the object created under its own code. */
  lemma {:induction false} ConsumeFates(pairs: seq<Tagged>, objects: map<int32, NetworkObject>)
    requires forall c :: c in objects ==> objects[c].createCode == c
    ensures var r := Consume(pairs, objects);
      forall i :: 0 <= i < |pairs| ==> pairs[i] in r.unmatched || InitializedUnder(r.calls, pairs[i].code, pairs[i].behavior)
  {
    if pairs != [] {
      var init := pairs[..|pairs| - 1];
      var p := pairs[|pairs| - 1];
      ConsumeFates(init, objects);
      ConsumeBuffer(init, objects);
      var c := Consume(init, objects);
      var r := Consume(pairs, objects);
      forall i | 0 <= i < |pairs|
        ensures pairs[i] in r.unmatched || InitializedUnder(r.calls, pairs[i].code, pairs[i].behavior)
      {
        if i < |init| {
          assert pairs[i] == init[i];
          if pairs[i] !in c.unmatched {
            var j :| 0 <= j < |c.calls| && c.calls[j].InitializeWithObject? && c.calls[j].behavior == pairs[i].behavior
                     && c.calls[j].obj.createCode == pairs[i].code;
            assert r.calls[j] == c.calls[j];
          }
        } else if p.code in c.objects {
          assert r.calls[|c.calls|] == InitializeWithObject(p.behavior, c.objects[p.code]);
        }
      }
    }
  }

  /** pendingObjects.Add for each remaining behaviour, in list order. */
  function Wait(m: map<int32, NetworkBehavior>, pairs: seq<Tagged>): map<int32, NetworkBehavior>
    decreases |pairs|
  {
    if pairs == [] then m
    else
      var p := pairs[|pairs| - 1];
      Wait(m, pairs[..|pairs| - 1])[p.code := p.behavior]
  }

  /** Dictionary.Add throws on a code already present: the codes are distinct and new. */
  predicate CanWait(m: map<int32, NetworkBehavior>, pairs: seq<Tagged>)
  {
    DistinctCodes(pairs) && forall i :: 0 <= i < |pairs| ==> pairs[i].code !in m
  }

  /** With distinct codes the last code of a list is not a code of the rest. */
  lemma LastCodeIsNew(pairs: seq<Tagged>)
    requires pairs != [] && DistinctCodes(pairs)
    ensures pairs[|pairs| - 1].code !in Codes(pairs[..|pairs| - 1])
  {
  }

  lemma CanWaitPrefix(m: map<int32, NetworkBehavior>, pairs: seq<Tagged>)
    requires pairs != [] && CanWait(m, pairs)
    ensures CanWait(m, pairs[..|pairs| - 1])
  {
    var init := pairs[..|pairs| - 1];
    forall i | 0 <= i < |init| ensures init[i] == pairs[i] { }
  }

  /** Adding the behaviours makes one new entry per behaviour, under its code. */
  lemma {:induction false} WaitKeys(m: map<int32, NetworkBehavior>, pairs: seq<Tagged>)
    requires CanWait(m, pairs)
    ensures Wait(m, pairs).Keys == m.Keys + Codes(pairs)
  {
    if pairs != [] {
      var init := pairs[..|pairs| - 1];
      CanWaitPrefix(m, pairs);
      WaitKeys(m, init);
      CodesOfPrefix(pairs);
    }
  }

  /** ... and so exactly one new entry per behaviour. */
  lemma {:induction false} WaitSize(m: map<int32, NetworkBehavior>, pairs: seq<Tagged>)
    requires CanWait(m, pairs)
    ensures |Wait(m, pairs)| == |m| + |pairs|
  {
    if pairs != [] {
      var init := pairs[..|pairs| - 1];
      var p := pairs[|pairs| - 1];
      CanWaitPrefix(m, pairs);
      WaitSize(m, init);
      WaitKeys(m, init);
      LastCodeIsNew(pairs);
      var w := Wait(m, init);
      assert p.code !in w;
      assert |w[p.code := p.behavior]| == |w| + 1;
    }
  }

  /** Adding the behaviours keeps every earlier entry and files each behaviour under its own
      code. */
  lemma {:induction false} WaitValues(m: map<int32, NetworkBehavior>, pairs: seq<Tagged>)
    requires CanWait(m, pairs)
    ensures forall c :: c in m ==> c in Wait(m, pairs) && Wait(m, pairs)[c] == m[c]
    ensures forall i :: 0 <= i < |pairs| ==> pairs[i].code in Wait(m, pairs) && Wait(m, pairs)[pairs[i].code] == pairs[i].behavior
  {
    if pairs != [] {
      var init := pairs[..|pairs| - 1];
      var p := pairs[|pairs| - 1];
      assert CanWait(m, init);
      WaitValues(m, init);
      forall i | 0 <= i < |pairs| - 1
        ensures pairs[i].code in Wait(m, pairs) && Wait(m, pairs)[pairs[i].code] == pairs[i].behavior
      {
        assert init[i] == pairs[i];
        assert pairs[i].code != p.code;
      }
    }
  }

  /** The buffer lookup of InitializeBehaviours runs only in Add mode and only when something
      is buffered. */
  function Claim(t: Tables, pairs: seq<Tagged>, consumeFirst: bool): Consumed
  {
    if consumeFirst && |t.objects| > 0 then Consume(pairs, t.objects) else Consumed(pairs, [], t.objects)
  }

  predicate CanRegister(t: Tables, pairs: seq<Tagged>, consumeFirst: bool)
  {
    CanWait(t.behaviors, Claim(t, pairs, consumeFirst).unmatched)
  }

  /** Registration of freshly tagged behaviours: claim buffered objects first (Add mode),
      then wait for the rest. */
  function Register(t: Tables, pairs: seq<Tagged>, consumeFirst: bool): Step
    requires CanRegister(t, pairs, consumeFirst)
  {
    var c := Claim(t, pairs, consumeFirst);
    Step(Tables(Wait(t.behaviors, c.unmatched), c.objects), c.calls)
  }

  /** Registration keeps the tables consistent as long as the buffer is either consulted or
      empty (a reset empties it before registering), and the counts add up: one waiter or one
      Initialize call per tagged behaviour, one buffered object per call. Which behaviour goes
      where is RegisterFates. */
  lemma RegisterAccounts(t: Tables, pairs: seq<Tagged>, consumeFirst: bool)
    requires Consistent(t) && CanRegister(t, pairs, consumeFirst)
    requires consumeFirst || t.objects == map[]
    ensures var r := Register(t, pairs, consumeFirst);
      && Consistent(r.tables)
      && |r.tables.behaviors| + |r.calls| == |t.behaviors| + |pairs|
      && |r.tables.objects| + |r.calls| == |t.objects|
      && t.behaviors.Keys <= r.tables.behaviors.Keys
      && (forall i :: 0 <= i < |pairs| ==> pairs[i].code !in r.tables.objects)
  {
    var c := Claim(t, pairs, consumeFirst);
    WaitKeys(t.behaviors, c.unmatched);
    WaitSize(t.behaviors, c.unmatched);
    if consumeFirst && |t.objects| > 0 {
      ConsumeCounts(pairs, t.objects);
      ConsumeBuffer(pairs, t.objects);
      assert forall i :: 0 <= i < |pairs| ==> pairs[i].code in Codes(pairs);
      forall k | k in Codes(c.unmatched) ensures k !in c.objects {
        var q :| q in c.unmatched && q.code == k;
        assert q in pairs;
      }
    }
  }

  /** Per behaviour: registration keeps every earlier waiter under its code, and each tagged
      behaviour either waits under its own code or is initialised with the object buffered
      under that code. */
  lemma RegisterFates(t: Tables, pairs: seq<Tagged>, consumeFirst: bool)
    requires Consistent(t) && CanRegister(t, pairs, consumeFirst)
    ensures var r := Register(t, pairs, consumeFirst);
      && (forall c :: c in t.behaviors ==> c in r.tables.behaviors && r.tables.behaviors[c] == t.behaviors[c])
      && forall i :: 0 <= i < |pairs| ==>
           (pairs[i].code in r.tables.behaviors && r.tables.behaviors[pairs[i].code] == pairs[i].behavior)
           || InitializedUnder(r.calls, pairs[i].code, pairs[i].behavior)
  {
    var c := Claim(t, pairs, consumeFirst);
    WaitValues(t.behaviors, c.unmatched);
    if consumeFirst && |t.objects| > 0 {
      ConsumeFates(pairs, t.objects);
    }
    forall i | 0 <= i < |pairs| && pairs[i] in c.unmatched
      ensures pairs[i].code in Wait(t.behaviors, c.unmatched) && Wait(t.behaviors, c.unmatched)[pairs[i].code] == pairs[i].behavior
    {
      var j :| 0 <= j < |c.unmatched| && c.unmatched[j] == pairs[i];
    }
  }

  /** The claim loop keeps the codes of the behaviours it leaves distinct. */
  lemma {:induction false} ConsumeDistinct(pairs: seq<Tagged>, objects: map<int32, NetworkObject>)
    requires DistinctCodes(pairs)
    ensures DistinctCodes(Consume(pairs, objects).unmatched)
    ensures forall p :: p in Consume(pairs, objects).unmatched ==> p in pairs
    decreases |pairs|
  {
    if pairs != [] {
      var init := pairs[..|pairs| - 1];
      var p := pairs[|pairs| - 1];
      assert DistinctCodes(init);
      ConsumeDistinct(init, objects);
      var c := Consume(init, objects);
      forall q | q in c.unmatched ensures q.code != p.code {
        var i :| 0 <= i < |init| && init[i] == q;
        assert pairs[i] == q;
      }
    }
  }

  /** Within the code bounds, registering a scene's behaviours never meets a code that is
      already waiting, as long as no waiting behaviour carries a code of this scene; after a
      reset nothing waits, so a reset never throws there. */
  lemma RegisterSafe(t: Tables, found: seq<NetworkBehavior>, sceneId: int32, consumeFirst: bool)
    requires 0 <= sceneId < 0x8000 && |found| < TwoTo16
    requires forall c :: c in t.behaviors ==> c !in Codes(TagAll(found, sceneId))
    ensures CanRegister(t, TagAll(found, sceneId), consumeFirst)
  {
    var pairs := TagAll(found, sceneId);
    TagAllDistinct(found, sceneId);
    var c := Claim(t, pairs, consumeFirst);
    if consumeFirst && |t.objects| > 0 {
      ConsumeDistinct(pairs, t.objects);
    }
    forall i | 0 <= i < |c.unmatched| ensures c.unmatched[i].code !in t.behaviors {
      assert c.unmatched[i] in pairs;
    }
  }

  // ---------------------------------------------------------------------------------------
  // Objects handed over by NetworkObject.Flush to CreatePendingObjects, one after another

  datatype Option<T> = None | Some(value: T)

  /** The objects arriving one after another, or None when one of them would be buffered
      under a code that is already buffered (Dictionary.Add throws). */
  function TryDeliver(t: Tables, objs: seq<NetworkObject>): Option<Step>
    decreases |objs|
  {
    if objs == [] then Some(Step(t, []))
    else
      match TryDeliver(t, objs[..|objs| - 1])
      case None => None
      case Some(s) =>
        if CanArrive(s.tables, objs[|objs| - 1]) then
          var a := Arrive(s.tables, objs[|objs| - 1]);
          Some(Step(a.tables, s.calls + a.calls))
        else None
  }

  predicate CanDeliver(t: Tables, objs: seq<NetworkObject>)
  {
    TryDeliver(t, objs).Some?
  }

  function Deliver(t: Tables, objs: seq<NetworkObject>): Step
    requires CanDeliver(t, objs)
  {
    TryDeliver(t, objs).value
  }

  /** One more arrival after a deliverable run. */
  lemma DeliverSnoc(t: Tables, objs: seq<NetworkObject>, obj: NetworkObject)
    requires CanDeliver(t, objs) && CanArrive(Deliver(t, objs).tables, obj)
    ensures CanDeliver(t, objs + [obj])
    ensures Deliver(t, objs + [obj])
      == Step(Arrive(Deliver(t, objs).tables, obj).tables, Deliver(t, objs).calls + Arrive(Deliver(t, objs).tables, obj).calls)
  {
    assert (objs + [obj])[..|objs|] == objs;
  }

  /** A run of arrivals keeps the tables consistent and only takes behaviours out of the
      waiting table, and the counts add up: one Initialize call per waiter taken out. Which
      call goes to which waiter is DeliverCalls and DeliverCovers. */
  lemma {:induction false} DeliverAccounts(t: Tables, objs: seq<NetworkObject>)
    requires Consistent(t) && CanDeliver(t, objs)
    ensures var r := Deliver(t, objs);
      && Consistent(r.tables)
      && r.tables.behaviors.Keys <= t.behaviors.Keys
      && (forall c :: c in r.tables.behaviors ==> r.tables.behaviors[c] == t.behaviors[c])
      && |t.behaviors| == |r.tables.behaviors| + |r.calls|
  {
    if objs != [] {
      var init := objs[..|objs| - 1];
      assert CanDeliver(t, init);
      DeliverAccounts(t, init);
      var s := Deliver(t, init);
      ArriveConsistent(s.tables, objs[|objs| - 1]);
      ArriveAccounts(s.tables, objs[|objs| - 1]);
    }
  }

  /** Per call: every call of a run initialises a waiter that the run took out, with the
      run's object created under that waiter's code, and no code is initialised twice. */
  lemma {:induction false} DeliverCalls(t: Tables, objs: seq<NetworkObject>)
    requires Consistent(t) && CanDeliver(t, objs)
    ensures var r := Deliver(t, objs);
      && (forall i :: 0 <= i < |r.calls| ==>
            && r.calls[i].InitializeWithObject?
            && r.calls[i].obj in objs
            && r.calls[i].obj.createCode in t.behaviors
            && r.calls[i].obj.createCode !in r.tables.behaviors
            && r.calls[i].behavior == t.behaviors[r.calls[i].obj.createCode])
      && (forall i, j :: 0 <= i < j < |r.calls| ==> r.calls[i].obj.createCode != r.calls[j].obj.createCode)
  {
    if objs != [] {
      var init := objs[..|objs| - 1];
      var o := objs[|objs| - 1];
      assert CanDeliver(t, init);
      DeliverCalls(t, init);
      DeliverAccounts(t, init);
      var s := Deliver(t, init);
      var a := Arrive(s.tables, o);
      ArriveAccounts(s.tables, o);
      DeliverSnoc(t, init, o);
      var r := Deliver(t, objs);
      assert r.tables == a.tables && r.calls == s.calls + a.calls;
      // the new call, if any, is for the waiter under o's code, which has just left
      forall k | 0 <= k < |a.calls|
        ensures && a.calls[k] == InitializeWithObject(s.tables.behaviors[o.createCode], o)
                && o.createCode in s.tables.behaviors && o.createCode !in a.tables.behaviors
      {
      }
      forall i | 0 <= i < |r.calls|
        ensures && r.calls[i].InitializeWithObject?
                && r.calls[i].obj in objs
                && r.calls[i].obj.createCode in t.behaviors
                && r.calls[i].obj.createCode !in r.tables.behaviors
                && r.calls[i].behavior == t.behaviors[r.calls[i].obj.createCode]
      {
        if i < |s.calls| {
          assert r.calls[i] == s.calls[i];
          assert s.calls[i].obj in init;
        } else {
          assert r.calls[i] == a.calls[i - |s.calls|];
        }
      }
      forall i, j | 0 <= i < j < |r.calls| ensures r.calls[i].obj.createCode != r.calls[j].obj.createCode {
        if j < |s.calls| {
          assert r.calls[i] == s.calls[i] && r.calls[j] == s.calls[j];
        } else {
          assert r.calls[i] == s.calls[i];
          assert r.calls[j] == a.calls[j - |s.calls|];
        }
      }
    }
  }

  /** Per waiter: every waiter a run takes out has its call, with the object created under its
      code. */
  lemma {:induction false} DeliverCovers(t: Tables, objs: seq<NetworkObject>)
    requires Consistent(t) && CanDeliver(t, objs)
    ensures var r := Deliver(t, objs);
      forall c :: c in t.behaviors && c !in r.tables.behaviors ==> InitializedUnder(r.calls, c, t.behaviors[c])
  {
    if objs != [] {
      var init := objs[..|objs| - 1];
      var o := objs[|objs| - 1];
      assert CanDeliver(t, init);
      DeliverCovers(t, init);
      DeliverAccounts(t, init);
      var s := Deliver(t, init);
      var a := Arrive(s.tables, o);
      DeliverSnoc(t, init, o);
      var r := Deliver(t, objs);
      assert r.tables == a.tables && r.calls == s.calls + a.calls;
      forall c | c in t.behaviors && c !in r.tables.behaviors
        ensures InitializedUnder(r.calls, c, t.behaviors[c])
      {
        if c in s.tables.behaviors {
          assert c == o.createCode;
          assert r.calls[|s.calls|] == a.calls[0];
        } else {
          var i :| 0 <= i < |s.calls| && s.calls[i].InitializeWithObject? && s.calls[i].behavior == t.behaviors[c]
                   && s.calls[i].obj.createCode == c;
          assert r.calls[i] == s.calls[i];
        }
      }
    }
  }

  /** Every prefix of a deliverable run is deliverable. */
  lemma {:induction false} CanDeliverPrefix(t: Tables, objs: seq<NetworkObject>, n: nat)
    requires CanDeliver(t, objs) && n <= |objs|
    ensures CanDeliver(t, objs[..n])
    decreases |objs|
  {
    if n < |objs| {
      var init := objs[..|objs| - 1];
      assert CanDeliver(t, init);
      assert init[..n] == objs[..n];
      CanDeliverPrefix(t, init, n);
    } else {
      assert objs[..n] == objs;
    }
  }

  /** A run of arrivals buffers nothing but the objects it was handed: every buffered object
      afterwards was buffered before under the same code, or is one of the run. */
  lemma {:induction false} DeliverOrigins(t: Tables, objs: seq<NetworkObject>)
    requires CanDeliver(t, objs)
    ensures var r := Deliver(t, objs);
      forall c :: c in r.tables.objects ==>
        (c in t.objects && r.tables.objects[c] == t.objects[c]) || r.tables.objects[c] in objs
  {
    if objs != [] {
      var init := objs[..|objs| - 1];
      assert CanDeliver(t, init);
      DeliverOrigins(t, init);
      assert forall o :: o in init ==> o in objs;
    }
  }

  // ---------------------------------------------------------------------------------------
  // Either order ends in the same pairing

  /** Behaviour first: a fresh behaviour registers and waits; its object then arrives and
      finds it. The behaviour is initialised with the object exactly once and the tables are
      as they were. */
  lemma BehaviorThenObject(t: Tables, b: NetworkBehavior, obj: NetworkObject)
    requires Consistent(t)
    requires obj.createCode < 0 && obj.createCode !in t.behaviors && obj.createCode !in t.objects
    ensures var tag := [Tagged(b, obj.createCode)];
      && CanRegister(t, tag, true)
      && CanArrive(Register(t, tag, true).tables, obj)
      && Arrive(Register(t, tag, true).tables, obj).tables == t
      && Register(t, tag, true).calls + Arrive(Register(t, tag, true).tables, obj).calls
         == [InitializeWithObject(b, obj)]
  {
    var c := obj.createCode;
    var tag := [Tagged(b, c)];
    assert tag[..0] == [];
    // nothing to claim under a fresh code, so the behaviour waits
    assert Consume(tag, t.objects) == Consumed(tag, [], t.objects);
    assert Claim(t, tag, true) == Consumed(tag, [], t.objects);
    assert Wait(t.behaviors, tag) == t.behaviors[c := b];
    var r := Register(t, tag, true);
    assert r == Step(Tables(t.behaviors[c := b], t.objects), []);
    assert r.tables.behaviors - {c} == t.behaviors;
  }

  /** Object first (Add mode): the object is buffered; the behaviour then registers and
      claims it. The behaviour is initialised with the object exactly once and the tables are
      as they were. */
  lemma ObjectThenBehavior(t: Tables, b: NetworkBehavior, obj: NetworkObject)
    requires Consistent(t)
    requires obj.createCode < 0 && obj.createCode !in t.behaviors && obj.createCode !in t.objects
    ensures var tag := [Tagged(b, obj.createCode)];
      && CanArrive(t, obj)
      && CanRegister(Arrive(t, obj).tables, tag, true)
      && Register(Arrive(t, obj).tables, tag, true).tables == t
      && Arrive(t, obj).calls + Register(Arrive(t, obj).tables, tag, true).calls
         == [InitializeWithObject(b, obj)]
  {
    var c := obj.createCode;
    var tag := [Tagged(b, c)];
    assert tag[..0] == [];
    var a := Arrive(t, obj);
    assert a == Step(Tables(t.behaviors, t.objects[c := obj]), []);
    // the buffered object is claimed at once, so nothing is left to wait
    assert Consume(tag, a.tables.objects) == Consumed([], [InitializeWithObject(b, obj)], t.objects[c := obj] - {c});
    assert t.objects[c := obj] - {c} == t.objects;
    assert Claim(a.tables, tag, true) == Consumed([], [InitializeWithObject(b, obj)], t.objects);
  }
}
