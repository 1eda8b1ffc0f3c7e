/**
  Objects created on objects that have no id themselves: each was asked for, and the request for the
  first one that has no id is always on the wire.
 */
module Chains {
  import opened Bytes
  import opened Marshal
  import opened Calls
  import opened Spec
  import opened Messages
  import opened ServerModel
  import opened ClientModel
  import opened TwoParty
  import opened ObjectAgreement
  import RoundtripSafety
  import Deferral

  /** Every object was asked for by a message that is on the wire or waits. */
  ghost predicate AllAsked(c: ClientState) {
    forall i :: 0 <= i < |c.objects| ==> c.objects[i].seqNo in Asks(c)
  }

  ghost predicate Inv(st: State) { Deferral.Inv(st) && (st.client.connected ==> AllAsked(st.client)) }

  // ---- the steps ----------------------------------------------------------------------------

  lemma {:induction false} FlushAsksAll(objects: seq<ClientObject>, pending: seq<Pending>)
    requires forall p :: p in pending ==> p.msg.Generic? && !FateOf(objects, p).Drop?
    ensures SeqsSent(Released(objects, pending)) + SeqsWaiting(Kept(objects, pending)) == SeqsWaiting(pending)
    decreases |pending|
  {
    hide FateOf, One, NewSeq, SeqsSent, Kept, Released, Resolve;
    if pending == [] {
      NothingSent();
      Deferral.NothingToFlush(objects);
    } else {
      var p, rest := pending[0], pending[1..];
      FlushAsksAll(objects, rest);
      Deferral.FlushHead(objects, pending);
      var f := FateOf(objects, p);
      if f.Release? {
        var x := Deferral.Freely(p, f.id);
        ResolveKeepsSeq(p.msg, f.id);
        SeqsSentAll([x], Released(objects, rest));
        NothingSent();
        SeqsSentOne([], x);
        assert [] + [x] == [x];
        assert [] + Kept(objects, rest) == Kept(objects, rest);
      } else {
        assert ([p] + Kept(objects, rest))[1..] == Kept(objects, rest);
        assert [] + Released(objects, rest) == Released(objects, rest);
      }
    }
  }

  lemma FlushAskedStill(c: ClientState)
    requires ClientSeqs(c) && Deferral.Waits(c) && c.connected
    ensures Asks(ClientModel.Flush(c)) == Asks(c)
  {
    hide Deferral.WaitsWell, Kept, Released, AnyWide, SeqsSent, SeqsWaiting, FateOf, ClientSeqs;
    forall p | p in c.pending ensures p.msg.Generic? && !FateOf(c.objects, p).Drop? {
      var i :| 0 <= i < |c.pending| && c.pending[i] == p;
      Deferral.FateAtSlot(c, p);
      Deferral.SlotOf(c, p);
    }
    FlushAsksAll(c.objects, c.pending);
    SeqsSentAll(c.out, Released(c.objects, c.pending));
  }

  lemma BindAsks(env: ClientEnv, c: ClientState, p: Protocol, version: nat)
    requires p.objects != [] && AllAsked(c) && c.connected && version <= p.version && c.seqNo < MAX
    ensures AllAsked(ClientModel.Bind(env, c, p, version))
  {
    hide SeqsSent, SeqsWaiting;
    SeqsSentOne(c.out, Sent(BindProtocol(p.name, Low32(c.seqNo + 1), Low32(version)), |c.objects|, 0));
  }

  /** A call adds the sequence of its message to those asked for, if it has one. */
  lemma CallAdds(env: ClientEnv, c: ClientState, slot: nat, methodId: nat, args: seq<CallArg>, no: int)
    requires slot < |c.objects| && GoodCall(c.objects[slot], methodId, args) && Callable(c.objects[slot], methodId)
    requires c.connected
    ensures var returnSeq := if c.objects[slot].spec.c2s[methodId].returnsType != [] then Low32(c.seqNo + 1) else 0;
            Asks(Call(env, c, slot, methodId, args, no)) == Asks(c) + One(returnSeq)
  {
    hide SeqsSent, SeqsWaiting, CallMessage, Fits, Known, AllShort, NewSeq, Call;
    var o := c.objects[slot];
    var returnSeq := if o.spec.c2s[methodId].returnsType != [] then Some(Low32(c.seqNo + 1)) else None;
    var msg := CallMessage(o, methodId, returnSeq, args);
    CallShape(env, c, slot, methodId, args, no);
    Deferral.MessageSeq(o, methodId, returnSeq, args);
    SeqsWaitingOne(c.pending, Pending(o.seqNo, msg, slot, no));
    SeqsSentOne(c.out, Sent(msg, slot, no));
  }

  lemma CallAsks(env: ClientEnv, c: ClientState, slot: nat, methodId: nat, args: seq<CallArg>, no: int)
    requires slot < |c.objects| && GoodCall(c.objects[slot], methodId, args) && c.seqNo < MAX && AllAsked(c)
          && c.connected
    ensures AllAsked(Call(env, c, slot, methodId, args, no))
  {
    hide Asks, CallMessage, Fits, Known, AllShort, NewSeq, Call;
    var c' := Call(env, c, slot, methodId, args, no);
    if Callable(c.objects[slot], methodId) {
      CallShape(env, c, slot, methodId, args, no);
      CallAdds(env, c, slot, methodId, args, no);
      ChildSeq(env, c, slot, methodId, args, no);
      forall i | 0 <= i < |c'.objects| ensures c'.objects[i].seqNo in Asks(c') {
        if i < |c.objects| {
          assert c'.objects[i] == c'.objects[..|c.objects|][i];
        } else {
          assert One(c.seqNo + 1) == multiset{c.seqNo + 1};
        }
      }
    } else {
      Uncallable(env, c, slot, methodId, args, no);
    }
  }

  lemma ChildSeq(env: ClientEnv, c: ClientState, slot: nat, methodId: nat, args: seq<CallArg>, no: int)
    requires slot < |c.objects| && GoodCall(c.objects[slot], methodId, args) && Callable(c.objects[slot], methodId)
    ensures var c' := Call(env, c, slot, methodId, args, no);
            |c'.objects| > |c.objects| ==>
              && |c'.objects| == |c.objects| + 1 && c'.objects[|c.objects|].seqNo == c.seqNo + 1
              && c.objects[slot].spec.c2s[methodId].returnsType != []
  {
    hide CallMessage, Fits, Known, AllShort, Find, FindObject, Listeners;
  }

  lemma ReceiveAsks(c: ClientState, m: Msg)
    requires ToClient(m) && AllAsked(c)
    ensures AllAsked(Receive(c, m).1)
  {
    hide Receive, SeqsSent, SeqsWaiting, NewSeq, ToClient;
    Deferral.ReceiveShape(c, m);
    SeqsSentOne(c.out, Sent(HandshakeAck(PROTOCOL_VERSION), 0, 0));
    assert Asks(c) <= Asks(Receive(c, m).1);
  }

  lemma AskAsks(c: ClientState)
    requires AllAsked(c)
    ensures AllAsked(Roundtrip(c))
  {
    hide SeqsSent, SeqsWaiting;
    SeqsSentOne(c.out, Sent(RoundtripRequest(Low32(c.lastSent + 1)), 0, 0));
    assert Asks(c) <= Asks(Roundtrip(c));
  }

  lemma FlushAsks(c: ClientState)
    requires ClientSeqs(c) && Deferral.Waits(c) && c.connected && AllAsked(c)
    ensures AllAsked(ClientModel.Flush(c))
  {
    hide Asks, ClientSeqs, Deferral.Waits, Kept, Released, AnyWide;
    FlushAskedStill(c);
  }

  /** A call by either kind of step. */
  lemma CallStepAsks(env: ClientEnv, c: ClientState, slot: nat, methodId: nat, args: seq<CallArg>, n: nat, no: int)
    requires slot < |c.objects| && GoodCall(c.objects[slot], methodId, args) && c.seqNo < MAX && AllAsked(c)
          && c.connected
    ensures AllAsked(Call(env, c.(callNo := n), slot, methodId, args, no))
  {
    hide Asks, Call, GoodCall;
    var c1 := c.(callNo := n);
    AsksIgnoresObjects(c, c1);
    CallAsks(env, c1, slot, methodId, args, no);
  }

  lemma StepAsks(w: World, st: State, step: Step)
    requires Deferral.Inv(st) && st.client.connected && AllAsked(st.client)
    requires Enabled(w, st, step) && Apply(w, st, step).client.connected
    ensures AllAsked(Apply(w, st, step).client)
  {
    hide AllAsked, Receive, Call, ClientModel.Flush, Handle, FinishServer, GoodCall, Reject, Find, ClientSeqs, WithServer,
      Deferral.Waits, Deferral.Quiet, Listeners, ToClient, ToServer;
    match step {
      case Bind(p, version) => BindAsks(w.cenv, st.client, p, version);
      case CallOutside(s, methodId, args) =>
        CallStepAsks(w.cenv, st.client, s, methodId, args, st.client.callNo + 1, st.client.callNo + 1);
      case AskRoundtrip => AskAsks(st.client);
      case ClientTake => ReceiveAsks(st.client, st.server.out[st.cDone]);
      case CallInListener(s, methodId, args) =>
        CallStepAsks(w.cenv, st.client, s, methodId, args, st.client.callNo + 1, Inside(st.client.callNo + 1));
      case ClientFinish => FlushAsks(st.client);
      case ClientDrop =>
      case _ => Deferral.ServerLeavesClient(w, st, step);
    }
  }

  lemma StepKeeps(w: World, st: State, step: Step)
    requires Inv(st) && Enabled(w, st, step) && ClientSeqs(Apply(w, st, step).client)
    ensures Inv(Apply(w, st, step))
  {
    hide Enabled, Apply, AllAsked, Deferral.Inv, ClientSeqs;
    Deferral.StepKeeps(w, st, step, 0, Deferral.Outside);
    if Apply(w, st, step).client.connected { StepAsks(w, st, step); }
  }

  lemma {:induction false} RunKeeps(w: World, st: State, steps: seq<Step>, end: State)
    requires WellFormed(w) && Runs(w, st, steps, end)
    requires Inv(st) && ObjectAgreement.Inv(w, st) && RoundtripSafety.Inv(st)
    ensures Inv(end) && ObjectAgreement.Inv(w, end)
    decreases |steps|
  {
    hide Inv, RoundtripSafety.Inv, ObjectAgreement.Inv, Apply, Enabled, WellFormed;
    if steps != [] {
      ObjectAgreement.StepKeeps(w, st, steps[0]);
      RoundtripSafety.StepKeeps(w, st, steps[0]);
      Deferral.SeqsHold(w, Apply(w, st, steps[0]));
      StepKeeps(w, st, steps[0]);
      RunKeeps(w, Apply(w, st, steps[0]), steps[1..], end);
    }
  }

  // ---- the first unresolved object ------------------------------------------------------------

  /** An idle client on a standing connection. */
  ghost predicate Drainable(c: ClientState) {
    c.connected && ClientSeqs(c) && Deferral.Waits(c) && Deferral.Quiet(c) && AllAsked(c)
  }

  function Unresolved(objects: seq<ClientObject>): nat {
    if objects == [] then 0 else (if objects[0].id == 0 then 1 else 0) + Unresolved(objects[1..])
  }

  lemma {:induction false} FirstUnresolved(objects: seq<ClientObject>) returns (i: nat)
    requires Unresolved(objects) > 0
    ensures i < |objects| && objects[i].id == 0 && forall k :: 0 <= k < i ==> objects[k].id != 0
    decreases |objects|
  {
    if objects[0].id == 0 {
      i := 0;
    } else {
      i := FirstUnresolved(objects[1..]);
      i := i + 1;
      forall k | 0 <= k < i ensures objects[k].id != 0 { if k > 0 { assert objects[k] == objects[1..][k - 1]; } }
    }
  }

  lemma {:induction false} NoneUnresolved(objects: seq<ClientObject>, i: nat)
    requires Unresolved(objects) == 0 && i < |objects|
    ensures objects[i].id != 0
    decreases |objects|
  {
    if i > 0 { NoneUnresolved(objects[1..], i - 1); }
  }

  /** Resolving objects, one of them at least, leaves fewer unresolved. */
  lemma {:induction false} FewerUnresolved(a: seq<ClientObject>, b: seq<ClientObject>, i: nat)
    requires |a| == |b| && forall k :: 0 <= k < |a| && a[k].id != 0 ==> b[k].id != 0
    ensures Unresolved(b) <= Unresolved(a)
    ensures i < |a| && a[i].id == 0 && b[i].id != 0 ==> Unresolved(b) < Unresolved(a)
    decreases |a|
  {
    if a != [] { FewerUnresolved(a[1..], b[1..], if i > 0 then i - 1 else |a|); }
  }

  lemma {:induction false} WaitingFor(pending: seq<Pending>, n: nat) returns (i: nat)
    requires n in SeqsWaiting(pending)
    ensures i < |pending| && NewSeq(pending[i].msg) == n != 0
    decreases |pending|
  {
    hide NewSeq;
    if n == NewSeq(pending[0].msg) && n != 0 {
      i := 0;
    } else {
      i := WaitingFor(pending[1..], n);
      i := i + 1;
    }
  }

  /** The request for the first unresolved object cannot wait: what it would wait for is resolved. */
  lemma FirstIsAsked(c: ClientState, i: nat)
    requires Drainable(c) && i < |c.objects| && c.objects[i].id == 0 && forall k :: 0 <= k < i ==> c.objects[k].id != 0
    ensures c.objects[i].seqNo in SeqsSent(c.out)
  {
    hide SeqsSent, SeqsWaiting, NewSeq;
    var n := c.objects[i].seqNo;
    assert n in Asks(c);
    if n in SeqsWaiting(c.pending) {
      var j := WaitingFor(c.pending, n);
      WaitsForUnresolved(c, j);
      assert false;
    }
  }

  lemma WaitsForUnresolved(c: ClientState, j: nat)
    requires Drainable(c) && j < |c.pending| && NewSeq(c.pending[j].msg) != 0
    ensures exists k :: 0 <= k < |c.objects| && c.objects[k].id == 0 && c.objects[k].seqNo < NewSeq(c.pending[j].msg)
  {
    hide NewSeq, Asks;
    assert Deferral.WaitsWell(c, c.pending[j]);
    assert c.objects[c.pending[j].slot].id == 0;
  }

  /** Every waiting message that creates an object waits for one of an earlier sequence. */
  lemma ChainsGoBack(w: World, steps: seq<Step>, st: State)
    requires WellFormed(w) && Runs(w, Init, steps, st)
    ensures forall p :: p in st.client.pending && NewSeq(p.msg) != 0 ==> p.dependsOn < NewSeq(p.msg) <= st.client.seqNo
    ensures forall i, j :: 0 <= i < j < |st.client.objects| ==>
              1 <= st.client.objects[i].seqNo < st.client.objects[j].seqNo <= st.client.seqNo
  {
    hide Runs, WellFormed, RoundtripSafety.Inv, NewSeq, Asks, Table, Born, Replies, Resolved, Kinds, Frames;
    ObjectAgreement.InitInv(w);
    RoundtripSafety.InitInv();
    RunKeeps(w, Init, steps, st);
    forall p | p in st.client.pending && NewSeq(p.msg) != 0 ensures p.dependsOn < NewSeq(p.msg) <= st.client.seqNo {
      var i :| 0 <= i < |st.client.pending| && st.client.pending[i] == p;
      assert Deferral.WaitsWell(st.client, st.client.pending[i]);
      PendingBound(st.client, i);
    }
  }
}
