/**
  Calls on objects whose id is not known yet: proved over all runs that none is ever dropped, that
  each goes out once, in the order it was made, and that its octets are those an immediate call has.
 */
module Deferral {
  import opened Bytes
  import opened WireFormat
  import opened Marshal
  import opened Scanner
  import opened Calls
  import opened Spec
  import opened Messages
  import opened ServerModel
  import opened ClientModel
  import opened TwoParty
  import RoundtripSafety
  import ObjectAgreement

  // ---- the invariant ------------------------------------------------------------------------

  /** A waiting message depends on an object of the client; what it creates has a later sequence. */
  predicate WaitsWell(c: ClientState, p: Pending) {
    && p.msg.Generic? && p.msg.objectId == 0 && p.no != 0
    && p.slot < |c.objects| && c.objects[p.slot].seqNo == p.dependsOn
    && (NewSeq(p.msg) != 0 ==> NewSeq(p.msg) > p.dependsOn)
  }

  ghost predicate Waits(c: ClientState) { forall i :: 0 <= i < |c.pending| ==> WaitsWell(c, c.pending[i]) }

  /** Whatever waits has a reason to. */
  ghost predicate Quiet(c: ClientState) {
    forall i :: 0 <= i < |c.pending| && c.pending[i].slot < |c.objects| ==> c.objects[c.pending[i].slot].id == 0
  }

  ghost predicate Inv(st: State) {
    && ObjectAgreement.ClientSeqs(st.client) && Waits(st.client)
    && (!st.cBusy && st.client.connected ==> Quiet(st.client))
  }

  /** The objects of `a` keep their places and sequences. */
  ghost predicate SameSlots(a: ClientState, b: ClientState) {
    |a.objects| <= |b.objects| && forall i :: 0 <= i < |a.objects| ==> b.objects[i].seqNo == a.objects[i].seqNo
  }

  lemma WaitsLonger(c: ClientState, c': ClientState)
    requires Waits(c) && SameSlots(c, c') && c'.pending == c.pending
    ensures Waits(c')
  {
    hide NewSeq;
    forall i | 0 <= i < |c'.pending| ensures WaitsWell(c', c'.pending[i]) { assert WaitsWell(c, c.pending[i]); }
  }

  /** The flush finds the object a message depends on at the slot it was called on. */
  lemma FateAtSlot(c: ClientState, p: Pending)
    requires ObjectAgreement.ClientSeqs(c) && WaitsWell(c, p)
    ensures FateOf(c.objects, p) == (if c.objects[p.slot].id == 0 then Keep else Release(c.objects[p.slot].id))
  {
    assert IndexOfSeq(c.objects, p.dependsOn) == p.slot;
  }

  // ---- the flush, message by message --------------------------------------------------------

  /** How many of the messages are released. */
  function Freed(objects: seq<ClientObject>, pending: seq<Pending>): (n: nat)
    ensures n <= |pending|
    decreases |pending|
  {
    if pending == [] then 0
    else Freed(objects, pending[..|pending| - 1]) + (if FateOf(objects, pending[|pending| - 1]).Release? then 1 else 0)
  }

  lemma KeptHead(objects: seq<ClientObject>, pending: seq<Pending>)
    ensures pending == [] ==> Kept(objects, pending) == []
    ensures pending != [] ==>
              Kept(objects, pending) == (if FateOf(objects, pending[0]).Keep? then
                  [pending[0]] else []) + Kept(objects, pending[1..])
  {
    hide FateOf;
  }

  lemma {:induction false} KeptOne(objects: seq<ClientObject>, pending: seq<Pending>, p: Pending)
    ensures Kept(objects, pending + [p]) == Kept(objects, pending) + (if FateOf(objects, p).Keep? then [p] else [])
    decreases |pending|
  {
    hide FateOf, Kept;
    KeptHead(objects, pending);
    KeptHead(objects, pending + [p]);
    var last := if FateOf(objects, p).Keep? then [p] else [];
    if pending == [] {
      assert (pending + [p])[1..] == [];
      KeptHead(objects, []);
      assert last + [] == last && [] + last == last;
    } else {
      KeptOne(objects, pending[1..], p);
      assert (pending + [p])[0] == pending[0] && (pending + [p])[1..] == pending[1..] + [p];
      var first := if FateOf(objects, pending[0]).Keep? then [pending[0]] else [];
      assert first + (Kept(objects, pending[1..]) + last) == first + Kept(objects, pending[1..]) + last;
    }
  }

  function Freely(p: Pending, id: nat): Sent {
    Sent(if p.msg.Generic? then Resolve(p.msg, id) else p.msg, p.slot, p.no)
  }

  /** The message a waiting one becomes, if it is released. */
  function Freeing(objects: seq<ClientObject>, p: Pending): seq<Sent> {
    if FateOf(objects, p).Release? then [Freely(p, FateOf(objects, p).id)] else []
  }

  lemma ReleasedHead(objects: seq<ClientObject>, pending: seq<Pending>)
    ensures pending == [] ==> Released(objects, pending) == []
    ensures pending != [] ==>
              Released(objects, pending) == Freeing(objects, pending[0]) + Released(objects, pending[1..])
  {
    hide FateOf, Resolve;
  }

  lemma {:induction false} ReleasedOne(objects: seq<ClientObject>, pending: seq<Pending>, p: Pending)
    ensures Released(objects, pending + [p]) == Released(objects, pending) + Freeing(objects, p)
    decreases |pending|
  {
    hide Freeing, Released;
    ReleasedHead(objects, pending);
    ReleasedHead(objects, pending + [p]);
    if pending == [] {
      assert (pending + [p])[1..] == [];
      ReleasedHead(objects, []);
      assert Freeing(objects, p) + [] == Freeing(objects, p) && [] + Freeing(objects, p) == Freeing(objects, p);
    } else {
      ReleasedOne(objects, pending[1..], p);
      assert (pending + [p])[0] == pending[0] && (pending + [p])[1..] == pending[1..] + [p];
      assert Freeing(objects, pending[0]) + (Released(objects, pending[1..]) + Freeing(objects, p))
          == Freeing(objects, pending[0]) + Released(objects, pending[1..]) + Freeing(objects, p);
    }
  }

  /** Message `i` went to its place among the released ones or among the kept ones. */
  predicate Placed(objects: seq<ClientObject>, pending: seq<Pending>, i: nat, released: seq<Sent>, kept: seq<Pending>)
    requires i < |pending|
  {
    var before := Freed(objects, pending[..i]);
    match FateOf(objects, pending[i])
    case Release(id) => before < |released| && released[before] == Freely(pending[i], id)
    case _ => 0 <= i - before < |kept| && kept[i - before] == pending[i]
  }

  lemma PlacedStill(objects: seq<ClientObject>, pending: seq<Pending>, p: Pending, i: nat,
                    released: seq<Sent>, kept: seq<Pending>, r: seq<Sent>, k: seq<Pending>)
    requires i < |pending| && Placed(objects, pending, i, released, kept)
    ensures Placed(objects, pending + [p], i, released + r, kept + k)
  {
    hide FateOf, Freely, Freed;
    assert (pending + [p])[..i] == pending[..i];
  }

  /**
    Exactly what a flush does when nothing is dropped: the i-th message goes out behind the released
    ones before it, or stays behind the kept ones before it; nothing else goes out or stays.
   */
  lemma {:induction false} FlushPlaces(objects: seq<ClientObject>, pending: seq<Pending>)
    requires forall p :: p in pending ==> !FateOf(objects, p).Drop?
    ensures |Released(objects, pending)| == Freed(objects, pending)
    ensures |Kept(objects, pending)| == |pending| - Freed(objects, pending)
    ensures forall i :: 0 <= i < |pending| ==>
          Placed(objects, pending, i, Released(objects, pending), Kept(objects, pending))
    decreases |pending|
  {
    hide FateOf, Freely, Kept, Released, Placed;
    if pending == [] {
      NothingToFlush(objects);
    } else {
      var init, p := pending[..|pending| - 1], pending[|pending| - 1];
      FlushPlaces(objects, init);
      KeptOne(objects, init, p);
      ReleasedOne(objects, init, p);
      assert init + [p] == pending;
      assert p in pending;
      var f := FateOf(objects, p);
      var r := if f.Release? then [Freely(p, f.id)] else [];
      var k := if f.Keep? then [p] else [];
      forall i | 0 <= i < |pending|
        ensures Placed(objects, pending, i, Released(objects, init) + r, Kept(objects, init) + k)
      {
        if i < |init| {
          PlacedStill(objects, init, p, i, Released(objects, init), Kept(objects, init), r, k);
        } else {
          LastPlaced(objects, init, p, Released(objects, init), Kept(objects, init));
        }
      }
    }
  }

  lemma LastPlaced(objects: seq<ClientObject>, init: seq<Pending>, p: Pending, released: seq<Sent>, kept: seq<Pending>)
    requires |released| == Freed(objects, init) && |kept| == |init| - Freed(objects, init) && !FateOf(objects, p).Drop?
    ensures var f := FateOf(objects, p);
            Placed(objects, init + [p], |init|, released + (if f.Release? then
                [Freely(p, f.id)] else []), kept + (if f.Keep? then [p] else []))
  {
    hide FateOf, Freely, Freed;
    assert (init + [p])[..|init|] == init;
  }

  lemma NothingToFlush(objects: seq<ClientObject>)
    ensures Kept(objects, []) == [] && Released(objects, []) == []
  {}

  // ---- calls by object ------------------------------------------------------------------------

  /** Which calls are looked at: all of them, or only those made outside of listeners. */
  datatype Scope = Outside | Any

  predicate Counts(no: int, scope: Scope) { no > 0 || (no < 0 && scope == Any) }

  /** What a call is, apart from the id of the object it is made on. */
  datatype Body = Body(no: int, methodId: u32, args: seq<Arg>, fds: seq<int>)

  function BodyOf(m: Msg, no: int, scope: Scope): seq<Body> {
    if m.Generic? && Counts(no, scope) then [Body(no, m.methodId, m.args, m.fds)] else []
  }

  /** The calls made on one object that are on the wire. */
  function SentCalls(out: seq<Sent>, slot: nat, scope: Scope): seq<Body> {
    if out == [] then [] else (if out[0].slot == slot then
          BodyOf(out[0].msg, out[0].no, scope) else []) + SentCalls(out[1..], slot, scope)
  }

  /** Those that wait. */
  function WaitingCalls(pending: seq<Pending>, slot: nat, scope: Scope): seq<Body> {
    if pending == [] then []
    else (if pending[0].slot == slot then
        BodyOf(pending[0].msg, pending[0].no, scope) else []) + WaitingCalls(pending[1..], slot, scope)
  }

  lemma {:induction false} SentCallsAll(out: seq<Sent>, more: seq<Sent>, slot: nat, scope: Scope)
    ensures SentCalls(out + more, slot, scope) == SentCalls(out, slot, scope) + SentCalls(more, slot, scope)
    decreases |out|
  {
    hide BodyOf, SentCalls;
    if out == [] {
      assert [] + more == more;
      NoneSent(slot, scope);
    } else {
      SentCallsAll(out[1..], more, slot, scope);
      assert (out + more)[1..] == out[1..] + more;
      SentCallsHead(out, slot, scope);
      SentCallsHead(out + more, slot, scope);
    }
  }

  lemma NoneSent(slot: nat, scope: Scope)
    ensures SentCalls([], slot, scope) == []
  {}

  lemma SentCallsHead(out: seq<Sent>, slot: nat, scope: Scope)
    requires out != []
    ensures SentCalls(out, slot, scope) == (if out[0].slot == slot then
          BodyOf(out[0].msg, out[0].no, scope) else []) + SentCalls(out[1..], slot, scope)
  {
    hide BodyOf;
  }

  lemma SentCallsOne(out: seq<Sent>, x: Sent, slot: nat, scope: Scope)
    ensures SentCalls(out + [x], slot, scope) ==
            SentCalls(out, slot, scope) + (if x.slot == slot then BodyOf(x.msg, x.no, scope) else [])
  {
    SentCallsAll(out, [x], slot, scope);
    assert [x][1..] == [];
  }

  lemma WaitingCallsHead(pending: seq<Pending>, slot: nat, scope: Scope)
    ensures pending != [] ==>
              WaitingCalls(pending, slot, scope) ==
              (if pending[0].slot == slot then BodyOf(pending[0].msg, pending[0].no, scope)
                  else []) + WaitingCalls(pending[1..], slot, scope)
    ensures pending == [] ==> WaitingCalls(pending, slot, scope) == []
  {
    hide BodyOf;
  }

  lemma {:induction false} WaitingCallsOne(pending: seq<Pending>, p: Pending, slot: nat, scope: Scope)
    ensures WaitingCalls(pending + [p], slot, scope) == WaitingCalls(pending, slot, scope) + (if p.slot == slot then
          BodyOf(p.msg, p.no, scope) else [])
    decreases |pending|
  {
    hide BodyOf, WaitingCalls;
    WaitingCallsHead(pending, slot, scope);
    WaitingCallsHead(pending + [p], slot, scope);
    var last := if p.slot == slot then BodyOf(p.msg, p.no, scope) else [];
    if pending == [] {
      assert (pending + [p])[1..] == [];
      WaitingCallsHead([], slot, scope);
      assert last + [] == last && [] + last == last;
    } else {
      WaitingCallsOne(pending[1..], p, slot, scope);
      assert (pending + [p])[0] == pending[0] && (pending + [p])[1..] == pending[1..] + [p];
      var first := if pending[0].slot == slot then BodyOf(pending[0].msg, pending[0].no, scope) else [];
      var rest := WaitingCalls(pending[1..], slot, scope);
      assert first + (rest + last) == first + rest + last;
    }
  }

  /** All calls made on an object, sent before waiting. */
  function AllCalls(c: ClientState, slot: nat, scope: Scope): seq<Body> {
    SentCalls(c.out, slot, scope) + WaitingCalls(c.pending, slot, scope)
  }

  /** A flush releases the calls of an object all together or not at all. */
  lemma {:induction false} FlushedCalls(c: ClientState, pending: seq<Pending>, slot: nat, scope: Scope)
    requires ObjectAgreement.ClientSeqs(c) && forall p :: p in pending ==> WaitsWell(c, p)
    ensures var resolved := slot < |c.objects| && c.objects[slot].id != 0;
            var waiting := WaitingCalls(pending, slot, scope);
            && SentCalls(Released(c.objects, pending), slot, scope) == (if resolved then waiting else [])
            && WaitingCalls(Kept(c.objects, pending), slot, scope) == (if resolved then [] else waiting)
    decreases |pending|
  {
    hide FateOf, BodyOf, ObjectAgreement.ClientSeqs, WaitsWell, SentCalls, WaitingCalls, Kept, Released, Freely;
    if pending == [] {
      NothingToFlush(c.objects);
      NoneSent(slot, scope);
      WaitingCallsHead([], slot, scope);
    } else {
      var p, rest := pending[0], pending[1..];
      FlushedCalls(c, rest, slot, scope);
      FateAtSlot(c, p);
      SlotOf(c, p);
      var f := FateOf(c.objects, p);
      SameBody(p, f, scope);
      FlushHead(c.objects, pending);
      WaitingCallsHead(pending, slot, scope);
      if f.Release? {
        var out := [Freely(p, f.id)] + Released(c.objects, rest);
        SentCallsHead(out, slot, scope);
        assert out[1..] == Released(c.objects, rest);
        assert [] + Kept(c.objects, rest) == Kept(c.objects, rest);
      } else {
        var kept := [p] + Kept(c.objects, rest);
        WaitingCallsHead(kept, slot, scope);
        assert kept[1..] == Kept(c.objects, rest);
        assert [] + Released(c.objects, rest) == Released(c.objects, rest);
      }
    }
  }

  lemma FlushHead(objects: seq<ClientObject>, pending: seq<Pending>)
    requires pending != [] && !FateOf(objects, pending[0]).Drop?
    ensures var f := FateOf(objects, pending[0]);
            && Released(objects, pending) == (if f.Release? then
                [Freely(pending[0], f.id)] else []) + Released(objects, pending[1..])
            && Kept(objects, pending) == (if f.Keep? then [pending[0]] else []) + Kept(objects, pending[1..])
  {
    hide FateOf, Freely;
    KeptHead(objects, pending);
    ReleasedHead(objects, pending);
  }

  lemma SlotOf(c: ClientState, p: Pending)
    requires WaitsWell(c, p)
    ensures p.slot < |c.objects| && p.msg.Generic?
  {}

  lemma SameBody(p: Pending, f: Fate, scope: Scope)
    requires p.msg.Generic?
    ensures f.Release? ==>
              Freely(p, f.id).slot == p.slot && BodyOf(Freely(p, f.id).msg, p.no, scope) == BodyOf(p.msg, p.no, scope)
    ensures f.Release? ==> Freely(p, f.id).no == p.no
  {}

  lemma FlushMoves(c: ClientState, slot: nat, scope: Scope)
    requires ObjectAgreement.ClientSeqs(c) && Waits(c) && c.connected
    ensures AllCalls(ClientModel.Flush(c), slot, scope) == AllCalls(c, slot, scope)
    ensures Waits(ClientModel.Flush(c)) && Quiet(ClientModel.Flush(c))
  {
    hide WaitsWell, Kept, Released, AnyWide, ObjectAgreement.ClientSeqs, SentCalls, WaitingCalls, FateOf;
    FlushedCalls(c, c.pending, slot, scope);
    SentCallsAll(c.out, Released(c.objects, c.pending), slot, scope);
    FlushQuiets(c);
  }

  lemma FlushQuiets(c: ClientState)
    requires ObjectAgreement.ClientSeqs(c) && Waits(c)
    ensures Waits(ClientModel.Flush(c)) && Quiet(ClientModel.Flush(c))
  {
    hide WaitsWell, Kept, Released, AnyWide, ObjectAgreement.ClientSeqs, FateOf;
    var c' := ClientModel.Flush(c);
    KeptWaits(c, c.pending);
    forall i | 0 <= i < |c'.pending|
      ensures WaitsWell(c', c'.pending[i])
      ensures c'.pending[i].slot < |c'.objects| ==> c'.objects[c'.pending[i].slot].id == 0
    {
      var p := c'.pending[i];
      assert p in Kept(c.objects, c.pending);
      WaitsSame(c, c', p);
      FateAtSlot(c, p);
      SlotOf(c, p);
    }
  }

  lemma WaitsSame(c: ClientState, c': ClientState, p: Pending)
    requires c'.objects == c.objects && WaitsWell(c, p)
    ensures WaitsWell(c', p)
  {}

  lemma {:induction false} KeptWaits(c: ClientState, pending: seq<Pending>)
    ensures forall p :: p in Kept(c.objects, pending) ==> p in pending && FateOf(c.objects, p).Keep?
    decreases |pending|
  {
    hide FateOf;
    if pending != [] { KeptWaits(c, pending[1..]); }
  }

  // ---- the steps of a run -----------------------------------------------------------------------

  /** The number the call of a step gets. */
  function NumberOf(st: State, step: Step): int {
    match step
    case CallOutside(_, _, _) => st.client.callNo + 1
    case CallInListener(_, _, _) => Inside(st.client.callNo + 1)
    case _ => 0
  }

  ghost predicate Sensible(st: State, step: Step) {
    NumberOf(st, step) != 0 ==>
      step.slot < |st.client.objects| && GoodCall(st.client.objects[step.slot], step.methodId, step.args)
  }

  ghost function BodyMade(c: ClientState, slot: nat, methodId: nat, args: seq<CallArg>, no: int): Body
    requires slot < |c.objects| && GoodCall(c.objects[slot], methodId, args) && Callable(c.objects[slot], methodId)
  {
    var m := c.objects[slot].spec.c2s[methodId];
    var returnSeq := if m.returnsType != [] then Some(Low32(c.seqNo + 1)) else None;
    Body(no, Low32(methodId), CallArgs(m, returnSeq, args), AllSends(args))
  }

  /** The call a step makes on an object. */
  ghost function MadeBy(st: State, step: Step, slot: nat, scope: Scope): seq<Body>
    requires Sensible(st, step)
  {
    var no := NumberOf(st, step);
    if !Counts(no, scope) || step.slot != slot || !Callable(st.client.objects[slot], step.methodId) then []
    else [BodyMade(st.client, slot, step.methodId, step.args, no)]
  }

  /** The calls a run makes on an object, in the order they are made. */
  ghost function CallsOf(w: World, st: State, steps: seq<Step>, end: State, slot: nat, scope: Scope): seq<Body>
    requires Runs(w, st, steps, end)
    decreases |steps|
  {
    if steps == [] then []
    else
      assert Sensible(st, steps[0]);
      MadeBy(st, steps[0], slot, scope) + CallsOf(w, Apply(w, st, steps[0]), steps[1..], end, slot, scope)
  }

  lemma CallKeeps(env: ClientEnv, c: ClientState, slot: nat, methodId: nat, args: seq<CallArg>, no: int)
    requires slot < |c.objects| && GoodCall(c.objects[slot], methodId, args)
    requires Waits(c) && ObjectAgreement.ClientSeqs(c) && c.seqNo < MAX && no != 0
    ensures var c' := Call(env, c, slot, methodId, args, no);
            && SameSlots(c, c') && Waits(c')
            && (Quiet(c) ==> Quiet(c'))
  {
    hide NewSeq, CallMessage, Fits, Known, AllShort, WaitsWell, Call;
    var o := c.objects[slot];
    var c' := Call(env, c, slot, methodId, args, no);
    if Callable(o, methodId) {
      CallShape(env, c, slot, methodId, args, no);
      forall i | 0 <= i < |c.objects| ensures c'.objects[i] == c.objects[i] { assert c'.objects[i]
            == c'.objects[..|c.objects|][i]; }
      forall i | 0 <= i < |c'.pending| ensures WaitsWell(c', c'.pending[i]) {
        if i < |c.pending| { Remains(c, c', c.pending[i]); } else { NewWaits(c, c', slot, methodId, args, no); }
      }
      if Quiet(c) {
        forall i | 0 <= i < |c'.pending|
              && c'.pending[i].slot < |c'.objects| ensures c'.objects[c'.pending[i].slot].id == 0 {
          if i < |c.pending| { SlotOf(c, c.pending[i]); }
        }
      }
    } else {
      assert c' == c by { Uncallable(env, c, slot, methodId, args, no); }
    }
  }

  lemma Remains(c: ClientState, c': ClientState, p: Pending)
    requires WaitsWell(c, p) && SameSlots(c, c')
    ensures WaitsWell(c', p)
  {
    hide NewSeq;
  }

  lemma NewWaits(c: ClientState, c': ClientState, slot: nat, methodId: nat, args: seq<CallArg>, no: int)
    requires slot < |c.objects| && GoodCall(c.objects[slot], methodId, args) && Callable(c.objects[slot], methodId)
    requires ObjectAgreement.ClientSeqs(c) && c.seqNo < MAX && SameSlots(c, c') && c.objects[slot].id == 0
    requires no != 0
    ensures var o := c.objects[slot];
            var m := o.spec.c2s[methodId];
            var msg := CallMessage(o, methodId, if m.returnsType != [] then Some(Low32(c.seqNo + 1)) else None, args);
            WaitsWell(c', Pending(o.seqNo, msg, slot, no))
  {
    hide NewSeq, CallMessage, Fits, Known, AllShort;
    var o := c.objects[slot];
    var m := o.spec.c2s[methodId];
    MessageSeq(o, methodId, if m.returnsType != [] then Some(Low32(c.seqNo + 1)) else None, args);
  }

  lemma MessageSeq(o: ClientObject, methodId: nat, returnSeq: Option<u32>, args: seq<CallArg>)
    requires methodId < |o.spec.c2s| && Known(o.spec.c2s[methodId].params, 0)
          && Fits(o.spec.c2s[methodId].params, 0, args)
    ensures var m := CallMessage(o, methodId, returnSeq, args);
            && m.Generic? && m.objectId == Low32(o.id)
            && NewSeq(m) == (match returnSeq case None => 0 case Some(n) => n)
  {
    hide NewSeq, Known, Fits, CallArgs, AllSends;
    ObjectAgreement.CallNewSeq(o.spec.c2s[methodId], returnSeq, args, Low32(o.id), Low32(methodId));
  }

  /**
    Where a call comes to stand among those of its object: behind all of them, or, if the object has
    its id, behind those on the wire and before those that wait.
   */
  lemma CallMoves(w: World, c: ClientState, slot: nat, methodId: nat, args: seq<CallArg>, no: int, other: nat,
          scope: Scope)
    requires c.connected && slot < |c.objects| && GoodCall(c.objects[slot], methodId, args)
    ensures var made := if !Counts(no, scope) || slot != other || !Callable(c.objects[slot], methodId) then []
                        else [BodyMade(c, slot, methodId, args, no)];
            AllCalls(Call(w.cenv, c, slot, methodId, args, no), other, scope) ==
            if c.objects[slot].id == 0 then AllCalls(c, other, scope) + made
            else SentCalls(c.out, other, scope) + made + WaitingCalls(c.pending, other, scope)
  {
    hide Call, GoodCall, AllCalls, Callable, BodyMade, Counts;
    if Callable(c.objects[slot], methodId) {
      CallGoes(w.cenv, c, slot, methodId, args, no, other, scope);
    } else {
      Uncallable(w.cenv, c, slot, methodId, args, no);
      NoneMade(c, other, scope);
    }
  }

  lemma NoneMade(c: ClientState, slot: nat, scope: Scope)
    ensures AllCalls(c, slot, scope) == AllCalls(c, slot, scope) + []
    ensures AllCalls(c, slot, scope) == SentCalls(c.out, slot, scope) + [] + WaitingCalls(c.pending, slot, scope)
  {
    hide SentCalls, WaitingCalls;
    assert SentCalls(c.out, slot, scope) + [] == SentCalls(c.out, slot, scope);
  }

  /** A call that goes through is put behind those that wait, or behind those on the wire. */
  lemma CallGoes(env: ClientEnv, c: ClientState, slot: nat, methodId: nat, args: seq<CallArg>, no: int, other: nat,
          scope: Scope)
    requires c.connected && slot < |c.objects| && GoodCall(c.objects[slot], methodId, args)
    requires Callable(c.objects[slot], methodId)
    ensures var made := if !Counts(no, scope) || slot != other then [] else [BodyMade(c, slot, methodId, args, no)];
            AllCalls(Call(env, c, slot, methodId, args, no), other, scope) ==
            if c.objects[slot].id == 0 then AllCalls(c, other, scope) + made
            else SentCalls(c.out, other, scope) + made + WaitingCalls(c.pending, other, scope)
  {
    hide Call, Fits, Known, AllShort, SentCalls, WaitingCalls, CallMessage, BodyOf, BodyMade, Counts;
    var o, c' := c.objects[slot], Call(env, c, slot, methodId, args, no);
    var returnSeq := if o.spec.c2s[methodId].returnsType != [] then Some(Low32(c.seqNo + 1)) else None;
    var msg := CallMessage(o, methodId, returnSeq, args);
    CallShape(env, c, slot, methodId, args, no);
    BodyOfCall(c, slot, methodId, args, no, scope);
    var sent, waiting := SentCalls(c.out, other, scope), WaitingCalls(c.pending, other, scope);
    var made := if slot == other then BodyOf(msg, no, scope) else [];
    WaitingCallsOne(c.pending, Pending(o.seqNo, msg, slot, no), other, scope);
    SentCallsOne(c.out, Sent(msg, slot, no), other, scope);
    Associates(sent, waiting, made);
  }

  lemma Associates(a: seq<Body>, b: seq<Body>, c: seq<Body>)
    ensures a + (b + c) == a + b + c
  {}

  lemma BodyOfCall(c: ClientState, slot: nat, methodId: nat, args: seq<CallArg>, no: int, scope: Scope)
    requires slot < |c.objects| && GoodCall(c.objects[slot], methodId, args) && Callable(c.objects[slot], methodId)
    ensures var o := c.objects[slot];
            var returnSeq := if o.spec.c2s[methodId].returnsType != [] then Some(Low32(c.seqNo + 1)) else None;
            BodyOf(CallMessage(o, methodId, returnSeq, args), no, scope) ==
            if Counts(no, scope) then [BodyMade(c, slot, methodId, args, no)] else []
  {
    hide Known, Fits, AllShort, CallMessage, BodyOf, CallArgs, AllSends, Counts;
    var o := c.objects[slot];
    var returnSeq := if o.spec.c2s[methodId].returnsType != [] then Some(Low32(c.seqNo + 1)) else None;
    MessageBody(o, methodId, returnSeq, args, no, scope);
  }

  lemma MessageBody(o: ClientObject, methodId: nat, returnSeq: Option<u32>, args: seq<CallArg>, no: int, scope: Scope)
    requires methodId < |o.spec.c2s| && Known(o.spec.c2s[methodId].params, 0)
          && Fits(o.spec.c2s[methodId].params, 0, args)
    ensures BodyOf(CallMessage(o, methodId, returnSeq, args), no, scope) ==
            if !Counts(no, scope) then []
            else [Body(no, Low32(methodId), CallArgs(o.spec.c2s[methodId], returnSeq, args), AllSends(args))]
  {
    hide Fits, Known, CallArgs, AllSends;
  }

  /** No call waits for an object that has its id, once the client is idle. */
  lemma NothingWaits(c: ClientState, slot: nat, scope: Scope)
    requires Quiet(c) && slot < |c.objects| && c.objects[slot].id != 0
    ensures WaitingCalls(c.pending, slot, scope) == []
  {
    forall i | 0 <= i < |c.pending| ensures c.pending[i].slot != slot {}
    NoneWaits(c.pending, slot, scope);
  }

  lemma {:induction false} NoneWaits(pending: seq<Pending>, slot: nat, scope: Scope)
    requires forall i :: 0 <= i < |pending| ==> pending[i].slot != slot
    ensures WaitingCalls(pending, slot, scope) == []
    decreases |pending|
  {
    if pending != [] { NoneWaits(pending[1..], slot, scope); }
  }

  lemma BindKeeps(env: ClientEnv, c: ClientState, p: Protocol, version: nat, slot: nat, scope: Scope)
    requires p.objects != [] && Waits(c)
    ensures var c' := ClientModel.Bind(env, c, p, version);
            && SameSlots(c, c') && Waits(c') && c'.pending == c.pending && c'.callNo == c.callNo
            && (Quiet(c) ==> Quiet(c'))
            && (c'.connected ==> AllCalls(c', slot, scope) == AllCalls(c, slot, scope) && c.connected)
  {
    hide WaitsWell, SentCalls, WaitingCalls, Listeners;
    var c' := ClientModel.Bind(env, c, p, version);
    WaitsLonger(c, c');
    forall i | 0 <= i < |c.pending| ensures c.pending[i].slot < |c.objects| { SlotOf(c, c.pending[i]); }
    SentCallsOne(c.out, Sent(BindProtocol(p.name, Low32(c.seqNo + 1), Low32(version)), |c.objects|, 0), slot, scope);
  }

  lemma OnSeqShape(c: ClientState, seqNo: nat, id: nat)
    ensures var c' := OnSeq(c, seqNo, id);
            && c' == c.(objects := c'.objects) && |c'.objects| == |c.objects| && SameSlots(c, c')
  {}

  lemma OnGenericShape(c: ClientState, m: Msg)
    requires m.Generic?
    ensures ClientOnGeneric(c, m) == c.(calls := ClientOnGeneric(c, m).calls)
  {
    hide IndexOfObject, CallOf, FdTotal;
  }

  lemma ReceiveShape(c: ClientState, m: Msg)
    requires ToClient(m)
    ensures var c' := Receive(c, m).1;
            && c'.pending == c.pending && SameSlots(c, c') && |c'.objects| == |c.objects|
            && (c'.out == c.out || (c.connected && c'.out == c.out + [Sent(HandshakeAck(PROTOCOL_VERSION), 0, 0)]))
            && (c'.connected ==> c.connected) && c'.callNo == c.callNo
  {
    hide ParseSpecs, OnSeq, ClientOnGeneric;
    match m {
      case NewObject(id, seqNo) => OnSeqShape(c, seqNo, id);
      case Generic(_, _, _, _) => OnGenericShape(c, m);
      case _ =>
    }
  }

  lemma ReceiveKeeps(c: ClientState, m: Msg, slot: nat, scope: Scope)
    requires ToClient(m) && Waits(c)
    ensures var c' := Receive(c, m).1;
            && SameSlots(c, c') && Waits(c') && c'.pending == c.pending && c'.callNo == c.callNo
            && (c'.connected ==> AllCalls(c', slot, scope) == AllCalls(c, slot, scope) && c.connected)
  {
    hide Receive, ToClient, WaitsWell, SentCalls, WaitingCalls, SameSlots, Waits;
    var c' := Receive(c, m).1;
    ReceiveShape(c, m);
    WaitsLonger(c, c');
    SentCallsOne(c.out, Sent(HandshakeAck(PROTOCOL_VERSION), 0, 0), slot, scope);
  }

  lemma DisconnectKeeps(c: ClientState)
    requires Waits(c)
    ensures Waits(Disconnect(c)) && !Disconnect(c).connected
  {
    WaitsLonger(c, Disconnect(c));
  }

  lemma AskKeeps(c: ClientState, slot: nat, scope: Scope)
    requires Waits(c)
    ensures AllCalls(Roundtrip(c), slot, scope) == AllCalls(c, slot, scope)
    ensures Waits(Roundtrip(c)) && (Quiet(c) ==> Quiet(Roundtrip(c))) && Roundtrip(c).connected == c.connected
  {
    hide SentCalls, WaitingCalls, WaitsWell;
    WaitsLonger(c, Roundtrip(c));
    SentCallsOne(c.out, Sent(RoundtripRequest(Low32(c.lastSent + 1)), 0, 0), slot, scope);
  }

  /**
    The step makes a call that does not go behind all others of its object: the object has its id, and
    messages wait for it all the same.
   */
  ghost predicate Hasty(st: State, step: Step, slot: nat, scope: Scope)
    requires Sensible(st, step)
  {
    && MadeBy(st, step, slot, scope) != []
    && st.client.objects[slot].id != 0 && WaitingCalls(st.client.pending, slot, scope) != []
  }

  /** A call adds itself to the calls of its object; what else a step does leaves them alone. */
  ghost predicate Moved(st: State, step: Step, c': ClientState, slot: nat, scope: Scope)
    requires Sensible(st, step)
  {
    var c, made := st.client, MadeBy(st, step, slot, scope);
    AllCalls(c', slot, scope) ==
    if Hasty(st, step, slot, scope) then SentCalls(c.out, slot, scope) + made + WaitingCalls(c.pending, slot, scope)
    else AllCalls(c, slot, scope) + made
  }

  lemma CallStep(w: World, st: State, step: Step, slot: nat, scope: Scope)
    requires Inv(st) && Enabled(w, st, step) && NumberOf(st, step) != 0
    ensures Sensible(st, step)
    ensures var st' := Apply(w, st, step);
            && Waits(st'.client) && (Quiet(st.client) ==> Quiet(st'.client)) && st'.cBusy == st.cBusy
            && st'.client.connected == st.client.connected && st'.client.callNo == st.client.callNo + 1
            && (st.client.connected ==> Moved(st, step, st'.client, slot, scope))
  {
    hide Call, GoodCall, AllCalls, ObjectAgreement.ClientSeqs, Waits, Quiet, SentCalls, WaitingCalls;
    var c, no := st.client.(callNo := st.client.callNo + 1), NumberOf(st, step);
    Renumbered(st, c, slot, scope);
    CallKeeps(w.cenv, c, step.slot, step.methodId, step.args, no);
    CallConnects(w.cenv, c, step.slot, step.methodId, step.args, no);
    if c.connected {
      CallMoves(w, c, step.slot, step.methodId, step.args, no, slot, scope);
      CallPlaces(st, step, c, Apply(w, st, step).client, slot, scope);
    }
  }

  /** Where a call comes to stand, told by whether anything waits. */
  lemma InItsPlace(sent: seq<Body>, waiting: seq<Body>, made: seq<Body>, line: seq<Body>, direct: bool, sooner: bool)
    requires sooner <==> made != [] && direct && waiting != []
    requires line == if direct then sent + made + waiting else sent + waiting + made
    ensures line == if sooner then sent + made + waiting else sent + waiting + made
  {
    assert made == [] ==> sent + made + waiting == sent + waiting + made;
    assert waiting == [] ==> sent + made + waiting == sent + waiting + made;
  }

  /** The count of calls does not enter the call. */
  lemma MadeAlike(st: State, step: Step, c: ClientState, slot: nat, scope: Scope)
    requires Sensible(st, step) && NumberOf(st, step) != 0 && c == st.client.(callNo := st.client.callNo + 1)
    ensures var no := NumberOf(st, step);
            MadeBy(st, step, slot, scope) ==
            if !Counts(no, scope) || step.slot != slot || !Callable(c.objects[step.slot], step.methodId) then []
            else [BodyMade(c, step.slot, step.methodId, step.args, no)]
  {
    hide Counts, Callable, Known, Fits, AllShort, CallArgs, AllSends;
  }

  lemma CallPlaces(st: State, step: Step, c: ClientState, c': ClientState, slot: nat, scope: Scope)
    requires Sensible(st, step) && NumberOf(st, step) != 0 && c == st.client.(callNo := st.client.callNo + 1)
    requires var no := NumberOf(st, step);
             var made := if !Counts(no, scope) || step.slot != slot || !Callable(c.objects[step.slot], step.methodId)
                         then [] else [BodyMade(c, step.slot, step.methodId, step.args, no)];
             AllCalls(c', slot, scope) ==
             if c.objects[step.slot].id == 0 then AllCalls(c, slot, scope) + made
             else SentCalls(c.out, slot, scope) + made + WaitingCalls(c.pending, slot, scope)
    ensures Moved(st, step, c', slot, scope)
  {
    hide SentCalls, WaitingCalls, GoodCall, MadeBy, BodyMade, Callable, Counts;
    MadeAlike(st, step, c, slot, scope);
    MadeHere(st, step, slot, scope);
    var sent, waiting := SentCalls(c.out, slot, scope), WaitingCalls(c.pending, slot, scope);
    InItsPlace(sent, waiting, MadeBy(st, step, slot, scope), AllCalls(c', slot, scope), c.objects[step.slot].id != 0,
        Hasty(st, step, slot, scope));
  }

  lemma MadeHere(st: State, step: Step, slot: nat, scope: Scope)
    requires Sensible(st, step) && NumberOf(st, step) != 0
    ensures MadeBy(st, step, slot, scope) != [] ==> step.slot == slot
  {
    hide GoodCall, BodyMade, Callable, Counts;
  }

  /** Every step keeps the invariant and adds to the calls of an object what it makes. */
  lemma StepKeeps(w: World, st: State, step: Step, slot: nat, scope: Scope)
    requires Inv(st) && Enabled(w, st, step) && ObjectAgreement.ClientSeqs(Apply(w, st, step).client)
    ensures Inv(Apply(w, st, step)) && Sensible(st, step)
    ensures Apply(w, st, step).client.connected ==>
              st.client.connected && Moved(st, step, Apply(w, st, step).client, slot, scope)
    ensures Apply(w, st, step).client.callNo == st.client.callNo + (if NumberOf(st, step) != 0 then 1 else 0)
  {
    hide Receive, Call, ClientModel.Flush, ClientModel.Bind, Handle, FinishServer, GoodCall, Reject, Find, AllCalls,
      ObjectAgreement.ClientSeqs, WithServer, Callable, Waits, Quiet, SameSlots, ToClient, ToServer, MadeBy, Moved;
    if NumberOf(st, step) != 0 {
      CallStep(w, st, step, slot, scope);
    } else {
      OtherStep(w, st, step, slot, scope);
      NothingMade(st, step, Apply(w, st, step).client, slot, scope);
    }
  }

  lemma NothingMade(st: State, step: Step, c': ClientState, slot: nat, scope: Scope)
    requires NumberOf(st, step) == 0
    ensures AllCalls(c', slot, scope) == AllCalls(st.client, slot, scope) ==> Moved(st, step, c', slot, scope)
  {
    hide AllCalls;
    assert AllCalls(st.client, slot, scope) + [] == AllCalls(st.client, slot, scope);
  }

  lemma OtherStep(w: World, st: State, step: Step, slot: nat, scope: Scope)
    requires Inv(st) && Enabled(w, st, step) && ObjectAgreement.ClientSeqs(Apply(w, st, step).client)
    requires NumberOf(st, step) == 0
    ensures Inv(Apply(w, st, step)) && Apply(w, st, step).client.callNo == st.client.callNo
    ensures Apply(w, st, step).client.connected ==>
              st.client.connected && AllCalls(Apply(w, st, step).client, slot, scope) == AllCalls(st.client, slot, scope)
  {
    hide Receive, ClientModel.Flush, ClientModel.Bind, Handle, FinishServer, Reject, Find, AllCalls,
      ObjectAgreement.ClientSeqs, WithServer, Waits, Quiet, SameSlots, ToClient, ToServer;
    match step {
      case Bind(p, version) => BindKeeps(w.cenv, st.client, p, version, slot, scope);
      case AskRoundtrip => AskKeeps(st.client, slot, scope);
      case ClientTake =>
        ReceiveKeeps(st.client, st.server.out[st.cDone], slot, scope);
        DisconnectKeeps(Receive(st.client, st.server.out[st.cDone]).1);
      case ClientFinish =>
        FlushQuiets(st.client);
        FlushConnects(st.client);
        if st.client.connected { FlushMoves(st.client, slot, scope); }
      case ClientDrop => DisconnectKeeps(st.client);
      case _ => ServerLeavesClient(w, st, step);
    }
  }

  lemma ServerLeavesClient(w: World, st: State, step: Step)
    requires Enabled(w, st, step)
    requires step.ClientReceive? || step.ServerReceive? || step.ServerTake? || step.ServerSend?
          || step.ServerComplain? || step.ServerFinish?
    ensures Apply(w, st, step).client == st.client
    ensures !Apply(w, st, step).cBusy ==> !st.cBusy
  {
    hide Handle, FinishServer, Reject;
  }

  lemma Renumbered(st: State, c: ClientState, slot: nat, scope: Scope)
    requires Inv(st) && c == st.client.(callNo := c.callNo)
    ensures Inv(st.(client := c)) && AllCalls(c, slot, scope) == AllCalls(st.client, slot, scope)
    ensures Quiet(c) <==> Quiet(st.client)
  {
    WaitsLonger(st.client, c);
  }

  lemma CallConnects(env: ClientEnv, c: ClientState, slot: nat, methodId: nat, args: seq<CallArg>, no: int)
    requires slot < |c.objects| && GoodCall(c.objects[slot], methodId, args)
    ensures Call(env, c, slot, methodId, args, no).connected == c.connected
    ensures Call(env, c, slot, methodId, args, no).callNo == c.callNo
  {
    hide Find, FindObject, CallMessage, Fits, Known;
  }

  lemma FlushConnects(c: ClientState)
    ensures ClientModel.Flush(c).connected == c.connected && ClientModel.Flush(c).callNo == c.callNo
  {}

  lemma SeqsHold(w: World, st: State)
    requires ObjectAgreement.Inv(w, st)
    ensures ObjectAgreement.ClientSeqs(st.client)
  {}

  /** No call that counts is made on an object ahead of messages that wait for it. */
  ghost predicate NoneHasty(w: World, st: State, steps: seq<Step>, end: State, slot: nat, scope: Scope)
    requires Runs(w, st, steps, end)
    decreases |steps|
  {
    steps == [] || (assert Sensible(st, steps[0]);
                    !Hasty(st, steps[0], slot, scope)
                    && NoneHasty(w, Apply(w, st, steps[0]), steps[1..], end, slot, scope))
  }

  lemma {:induction false} RunKeeps(w: World, st: State, steps: seq<Step>, end: State)
    requires WellFormed(w) && Runs(w, st, steps, end)
    requires Inv(st) && ObjectAgreement.Inv(w, st) && RoundtripSafety.Inv(st)
    ensures Inv(end) && ObjectAgreement.Inv(w, end) && RoundtripSafety.Inv(end)
    ensures end.client.connected ==> st.client.connected
    decreases |steps|
  {
    hide Inv, RoundtripSafety.Inv, ObjectAgreement.Inv, Apply, Enabled, WellFormed, Moved;
    if steps != [] {
      ObjectAgreement.StepKeeps(w, st, steps[0]);
      RoundtripSafety.StepKeeps(w, st, steps[0]);
      SeqsHold(w, Apply(w, st, steps[0]));
      StepKeeps(w, st, steps[0], 0, Outside);
      RunKeeps(w, Apply(w, st, steps[0]), steps[1..], end);
    }
  }

  lemma {:induction false} RunMoves(w: World, st: State, steps: seq<Step>, end: State, slot: nat, scope: Scope)
    requires WellFormed(w) && Runs(w, st, steps, end) && end.client.connected
    requires Inv(st) && ObjectAgreement.Inv(w, st) && RoundtripSafety.Inv(st)
    requires NoneHasty(w, st, steps, end, slot, scope)
    ensures AllCalls(end.client, slot, scope) ==
            AllCalls(st.client, slot, scope) + CallsOf(w, st, steps, end, slot, scope)
    decreases |steps|
  {
    hide Inv, RoundtripSafety.Inv, ObjectAgreement.Inv, Apply, Enabled, WellFormed, AllCalls, MadeBy, Hasty, Sensible;
    if steps != [] {
      var next := Apply(w, st, steps[0]);
      ObjectAgreement.StepKeeps(w, st, steps[0]);
      RoundtripSafety.StepKeeps(w, st, steps[0]);
      SeqsHold(w, next);
      StepKeeps(w, st, steps[0], slot, scope);
      RunMoves(w, next, steps[1..], end, slot, scope);
      RunKeeps(w, next, steps[1..], end);
    }
  }

  /** Calls made outside of listeners are never hasty: an idle client keeps nothing it could send. */
  lemma {:induction false} OutsideIsNeverHasty(w: World, st: State, steps: seq<Step>, end: State, slot: nat)
    requires WellFormed(w) && Runs(w, st, steps, end) && end.client.connected
    requires Inv(st) && ObjectAgreement.Inv(w, st) && RoundtripSafety.Inv(st)
    ensures NoneHasty(w, st, steps, end, slot, Outside)
    decreases |steps|
  {
    hide Inv, RoundtripSafety.Inv, ObjectAgreement.Inv, Apply, Enabled, WellFormed, Hasty, Sensible, Moved;
    if steps != [] {
      var next := Apply(w, st, steps[0]);
      ObjectAgreement.StepKeeps(w, st, steps[0]);
      RoundtripSafety.StepKeeps(w, st, steps[0]);
      SeqsHold(w, next);
      StepKeeps(w, st, steps[0], slot, Outside);
      RunKeeps(w, next, steps[1..], end);
      OutsideStep(w, st, steps[0], slot);
      OutsideIsNeverHasty(w, next, steps[1..], end, slot);
    }
  }

  lemma OutsideStep(w: World, st: State, step: Step, slot: nat)
    requires Inv(st) && st.client.connected && Enabled(w, st, step)
    ensures Sensible(st, step) && !Hasty(st, step, slot, Outside)
  {
    hide WaitingCalls, GoodCall, Waits, ObjectAgreement.ClientSeqs;
    if step.CallOutside? && step.slot == slot && st.client.objects[slot].id != 0 {
      NothingWaits(st.client, slot, Outside);
    }
  }

  lemma NoCallsYet(slot: nat, scope: Scope)
    ensures AllCalls(NewClient, slot, scope) == []
  {
    SentCallsOne([], Sent(Hello, 0, 0), slot, scope);
    assert NewClient.out == [] + [Sent(Hello, 0, 0)];
    assert SentCalls([], slot, scope) == [] && WaitingCalls(NewClient.pending, slot, scope) == [];
  }

  /**
    The drop branch of the flush never fires: in every reachable state the object a waiting message
    depends on is in the list, so each flush keeps or releases every message.
   */
  lemma NothingIsDropped(w: World, steps: seq<Step>, st: State)
    requires WellFormed(w) && Runs(w, Init, steps, st)
    ensures forall p :: p in st.client.pending ==>
              && !FateOf(st.client.objects, p).Drop?
              && p.msg.Generic? && p.msg.objectId == 0
              && exists i :: 0 <= i < |st.client.objects| && st.client.objects[i].seqNo == p.dependsOn
  {
    hide ObjectAgreement.Inv, RoundtripSafety.Inv, Runs, WellFormed, FateOf;
    ObjectAgreement.InitInv(w);
    RoundtripSafety.InitInv();
    RunKeeps(w, Init, steps, st);
    forall p | p in st.client.pending ensures !FateOf(st.client.objects, p).Drop? && WaitsWell(st.client, p) {
      var i :| 0 <= i < |st.client.pending| && st.client.pending[i] == p;
      FateAtSlot(st.client, p);
    }
  }

  /**
    Nothing is lost, doubled or reordered: as long as the connection stands, the calls made on an
    object from outside of listeners are, in the order they were made, the ones of it on the wire
    followed by the ones of it that wait. Once the object has its id and the client is idle, all are
    on the wire.
   */
  lemma CallsGoOutInOrder(w: World, steps: seq<Step>, st: State, slot: nat)
    requires WellFormed(w) && Runs(w, Init, steps, st) && st.client.connected
    ensures SentCalls(st.client.out, slot, Outside) + WaitingCalls(st.client.pending, slot, Outside) ==
            CallsOf(w, Init, steps, st, slot, Outside)
    ensures !st.cBusy && slot < |st.client.objects| && st.client.objects[slot].id != 0 ==>
              SentCalls(st.client.out, slot, Outside) == CallsOf(w, Init, steps, st, slot, Outside)
  {
    hide ObjectAgreement.Inv, RoundtripSafety.Inv, Runs, WellFormed, CallsOf, NoneHasty;
    ObjectAgreement.InitInv(w);
    RoundtripSafety.InitInv();
    RunKeeps(w, Init, steps, st);
    OutsideIsNeverHasty(w, Init, steps, st, slot);
    RunMoves(w, Init, steps, st, slot, Outside);
    NoCallsYet(slot, Outside);
    if !st.cBusy && slot < |st.client.objects| && st.client.objects[slot].id != 0 {
      NothingWaits(st.client, slot, Outside);
    }
  }

  // ---- octet by octet ---------------------------------------------------------------------------

  /** The header with one octet of the id written into it. */
  lemma HeaderPatched(methodId: u32, id: u32)
    ensures Header(0, methodId)[2 := id % 256] == Header(id % 256, methodId)
    ensures Header(id % 256, methodId) == Header(id, methodId) <==> id < 256
  {
    var h, h' := Header(id % 256, methodId), Header(id, methodId);
    assert h[3] == 0 && h[4] == 0 && h[5] == 0;
    assert h'[3] == (id / 256) % 256 && h'[4] == (id / 256 / 256) % 256 && h'[5] == id / 256 / 256 / 256;
  }

  /**
    A call that was deferred and then resolved to `id` has the octets it would have had if the id had
    been known, exactly when the id is below 256.
   */
  lemma DeferralIsTransparent(methodId: u32, m: Method, returnSeq: Option<u32>, args: seq<CallArg>, id: u32)
    requires Known(m.params, 0) && Fits(m.params, 0, args)
    ensures |CallBytes(0, methodId, m, returnSeq, args)| >= 12
    ensures var patched := CallBytes(0, methodId, m, returnSeq, args)[2 := id % 256];
            && patched == CallBytes(id % 256, methodId, m, returnSeq, args)
            && (patched == CallBytes(id, methodId, m, returnSeq, args) <==> id < 256)
  {
    hide Pack, SeqBytes, Header, Known, Fits;
    PackKnown(m.params, 0, args);
    var tail := SeqBytes(returnSeq) + Pack(m.params, 0, args).data + [END];
    HeaderLength(0, methodId);
    HeaderLength(id, methodId);
    HeaderLength(id % 256, methodId);
    HeaderPatched(methodId, id);
    assert CallBytes(0, methodId, m, returnSeq, args) == Header(0, methodId) + tail;
    assert CallBytes(id, methodId, m, returnSeq, args) == Header(id, methodId) + tail;
    assert CallBytes(id % 256, methodId, m, returnSeq, args) == Header(id % 256, methodId) + tail;
    assert (Header(0, methodId) + tail)[2 := id % 256] == Header(0, methodId)[2 := id % 256] + tail;
    SamePrefix(Header(id % 256, methodId), Header(id, methodId), tail);
  }

  lemma SamePrefix(a: seq<byte>, b: seq<byte>, tail: seq<byte>)
    requires |a| == |b|
    ensures a + tail == b + tail <==> a == b
  {
    if a + tail == b + tail { assert a == (a + tail)[..|a|] && b == (b + tail)[..|b|]; }
  }

  /** The message `call` marshals is, octet for octet, the one the message model encodes. */
  lemma CallIsEncoded(o: ClientObject, methodId: nat, returnSeq: Option<u32>, args: seq<CallArg>)
    requires methodId < |o.spec.c2s|
    requires var m := o.spec.c2s[methodId]; Known(m.params, 0) && Fits(m.params, 0, args) && AllShort(args)
    ensures Encodable(CallMessage(o, methodId, returnSeq, args))
    ensures Encode(CallMessage(o, methodId, returnSeq, args)) ==
            CallBytes(Low32(o.id), Low32(methodId), o.spec.c2s[methodId], returnSeq, args)
  {
    hide Encode, Encodable, CallBytes, Known, Fits, CallArgs, AllSends, AllShort;
    MessageIsEncoded(Low32(o.id), Low32(methodId), o.spec.c2s[methodId], returnSeq, args);
  }

  lemma MessageIsEncoded(objectId: u32, methodId: u32, m: Method, returnSeq: Option<u32>, args: seq<CallArg>)
    requires Known(m.params, 0) && Fits(m.params, 0, args) && AllShort(args)
    ensures var msg := Generic(objectId, methodId, CallArgs(m, returnSeq, args), AllSends(args));
            Encodable(msg) && Encode(msg) == CallBytes(objectId, methodId, m, returnSeq, args)
  {
    hide Pack, SeqBytes, Known, Fits, Wire, AllSends, FdTotal, CallArgs, AllShort, ValidArgs, ArgsBytes, Le32;
    PackKnown(m.params, 0, args);
    PackWithSeq(m, returnSeq, args);
    var wire := CallArgs(m, returnSeq, args);
    HeaderFields(objectId, methodId, wire);
    assert Header(objectId, methodId) + (SeqBytes(returnSeq) + Pack(m.params, 0, args).data)
        == Header(objectId, methodId) + SeqBytes(returnSeq) + Pack(m.params, 0, args).data;
  }

  lemma HeaderFields(objectId: u32, methodId: u32, args: seq<Arg>)
    requires ValidArgs(args)
    ensures ValidArgs([Word(OBJECT, objectId), Word(UINT, methodId)] + args)
    ensures [GENERIC] + ArgsBytes([Word(OBJECT, objectId), Word(UINT, methodId)] + args)
         == Header(objectId, methodId) + ArgsBytes(args)
  {
    hide Le32;
    Cons(Word(UINT, methodId), args);
    Cons(Word(OBJECT, objectId), [Word(UINT, methodId)] + args);
    var w := [Word(UINT, methodId)] + args;
    assert [Word(OBJECT, objectId), Word(UINT, methodId)] + args == [Word(OBJECT, objectId)] + w;
    assert w[1..] == args;
    assert ([Word(OBJECT, objectId)] + w)[1..] == w;
    assert ArgsBytes(w) == [UINT] + Le32(methodId) + ArgsBytes(args);
    assert ArgsBytes([Word(OBJECT, objectId)] + w) == [OBJECT] + Le32(objectId) + ArgsBytes(w);
  }

  /** What resolveSeq does to the octets of a message. */
  lemma ResolvePatches(m: Msg, id: u32)
    requires m.Generic? && m.objectId == 0 && Encodable(m)
    ensures Resolve(m, id) == Generic(id % 256, m.methodId, m.args, m.fds) && Encodable(Resolve(m, id))
    ensures |Encode(m)| >= 12 && Encode(Resolve(m, id)) == Encode(m)[2 := id % 256]
  {
    hide ArgsBytes, Header, Encode, ValidArgs, FdTotal;
    EncodedCall(m);
    EncodedCall(Resolve(m, id));
    HeaderPatched(m.methodId, id);
    HeaderLength(0, m.methodId);
    HeaderLength(id % 256, m.methodId);
    Patched(Header(0, m.methodId), Header(id % 256, m.methodId), id % 256, ArgsBytes(m.args) + [END]);
  }

  lemma Patched(a: seq<byte>, b: seq<byte>, octet: byte, tail: seq<byte>)
    requires |a| > 2 && a[2 := octet] == b
    ensures (a + tail)[2 := octet] == b + tail
  {
    assert (a + tail)[2 := octet] == a[2 := octet] + tail;
  }

  lemma EncodedCall(m: Msg)
    requires m.Generic? && Encodable(m)
    ensures Encode(m) == Header(m.objectId, m.methodId) + (ArgsBytes(m.args) + [END])
  {
    hide ArgsBytes, Header, ValidArgs, FdTotal;
    HeaderFields(m.objectId, m.methodId, m.args);
    assert Header(m.objectId, m.methodId) + ArgsBytes(m.args) + [END] == Header(m.objectId,
          m.methodId) + (ArgsBytes(m.args) + [END]);
  }

  /**
    What the flush puts on the wire, parsed at any place with its descriptors first in the queue: the
    same call, on the object of the id modulo 256.
   */
  lemma DeferredIsRead(data: seq<byte>, off: nat, m: Msg, id: u32, more: seq<int>)
    requires m.Generic? && m.objectId == 0 && Encodable(m)
    requires |Encode(m)| >= 12 && At(data, off, Encode(m)[2 := id % 256])
    ensures ReadFrame(data, off, m.fds + more) ==
            Some(FrameEnd(Generic(id % 256, m.methodId, m.args, m.fds), off + |Encode(m)|))
  {
    hide ReadFrame, At, Encode, Encodable, Resolve;
    ResolvePatches(m, id);
    EncodedIsRead(data, off, Resolve(m, id), more);
  }
}
