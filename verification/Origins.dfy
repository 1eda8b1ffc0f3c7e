/**
  Where the calls on the wire come from: over all runs each is the call of one step, found by its
  number, and reaches the listener with just the arguments of that step.
 */
module Origins {
  import opened Bytes
  import opened WireFormat
  import opened Demarshal
  import opened Marshal
  import opened Calls
  import opened Spec
  import opened Messages
  import opened ServerModel
  import opened ClientModel
  import opened TwoParty
  import opened ObjectAgreement
  import RoundtripSafety
  import Deferral

  predicate IsCall(step: Step) { step.CallOutside? || step.CallInListener? }

  function CallCount(steps: seq<Step>): nat {
    if steps == [] then 0 else CallCount(steps[..|steps| - 1]) + if IsCall(steps[|steps| - 1]) then 1 else 0
  }

  /** The number of the call that step `k` makes. */
  function NumberAt(steps: seq<Step>, k: nat): int
    requires k < |steps| && IsCall(steps[k])
  {
    var n := CallCount(steps[..k + 1]);
    if steps[k].CallOutside? then n else Inside(n)
  }

  lemma CountMore(past: seq<Step>, step: Step)
    ensures CallCount(past + [step]) == CallCount(past) + if IsCall(step) then 1 else 0
  {
    assert (past + [step])[..|past|] == past;
  }

  lemma {:induction false} CountGrows(steps: seq<Step>, j: nat)
    requires j <= |steps|
    ensures CallCount(steps[..j]) <= CallCount(steps)
    decreases |steps|
  {
    if j < |steps| {
      CountGrows(steps[..|steps| - 1], j);
      assert steps[..|steps| - 1][..j] == steps[..j];
    } else {
      assert steps[..j] == steps;
    }
  }

  /** No two calls of a run have the same number, inside of listeners or out. */
  lemma NumbersDiffer(steps: seq<Step>, j: nat, k: nat)
    requires j < k < |steps| && IsCall(steps[j]) && IsCall(steps[k])
    ensures NumberAt(steps, j) != NumberAt(steps, k)
  {
    var n := CallCount(steps[..j + 1]);
    assert steps[..k + 1][..k] == steps[..k] && steps[..k][..j + 1] == steps[..j + 1];
    CountGrows(steps[..k], j + 1);
    assert CallCount(steps[..k + 1]) == CallCount(steps[..k]) + 1;
    assert steps[..j + 1][..j] == steps[..j];
    assert n == CallCount(steps[..j]) + 1;
  }

  // ---- the invariant ------------------------------------------------------------------------------

  ghost predicate MarshalledWith(d: Method, m: Msg, args: seq<CallArg>)
    requires m.Generic?
  {
    exists returnSeq :: MarshalledFrom(d, m, returnSeq, args)
  }

  /** The message is the call of step `k`, on the object and the method it names, with its arguments. */
  ghost predicate MadeAt(c: ClientState, slot: nat, no: int, m: Msg, past: seq<Step>, k: nat) {
    && k < |past| && IsCall(past[k]) && no == NumberAt(past, k)
    && past[k].slot == slot < |c.objects|
    && m.Generic? && past[k].methodId == m.methodId < |c.objects[slot].spec.c2s|
    && MarshalledWith(c.objects[slot].spec.c2s[m.methodId], m, past[k].args)
  }

  ghost predicate HasOrigin(c: ClientState, slot: nat, no: int, m: Msg, past: seq<Step>) {
    exists k: nat :: MadeAt(c, slot, no, m, past, k)
  }

  /** Every call on the wire and every one that waits was made by a step. */
  ghost predicate Sourced(c: ClientState, past: seq<Step>) {
    && c.callNo == CallCount(past)
    && (forall x :: x in c.out && x.msg.Generic? ==> HasOrigin(c, x.slot, x.no, x.msg, past))
    && (forall p :: p in c.pending ==> HasOrigin(c, p.slot, p.no, p.msg, past))
  }

  ghost predicate SameSpecs(a: ClientState, b: ClientState) {
    |a.objects| <= |b.objects| && forall i :: 0 <= i < |a.objects| ==> b.objects[i].spec == a.objects[i].spec
  }

  lemma OriginStays(c: ClientState, c': ClientState, past: seq<Step>, step: Step, slot: nat, no: int, m: Msg)
    requires HasOrigin(c, slot, no, m, past) && SameSpecs(c, c')
    ensures HasOrigin(c', slot, no, m, past + [step])
  {
    hide MarshalledWith, CallCount;
    var k: nat :| MadeAt(c, slot, no, m, past, k);
    assert (past + [step])[..k + 1] == past[..k + 1];
    assert MadeAt(c', slot, no, m, past + [step], k);
  }

  /** What a step leaves of the old messages keeps its origin; the others need one of their own. */
  lemma SourcedStill(c: ClientState, c': ClientState, past: seq<Step>, step: Step)
    requires Sourced(c, past) && SameSpecs(c, c') && c'.callNo == c.callNo + if IsCall(step) then 1 else 0
    requires forall x :: x in c'.out && x.msg.Generic? ==>
               x in c.out || HasOrigin(c', x.slot, x.no, x.msg, past + [step])
    requires forall p :: p in c'.pending ==> p in c.pending || HasOrigin(c', p.slot, p.no, p.msg, past + [step])
    ensures Sourced(c', past + [step])
  {
    hide HasOrigin, SameSpecs, CallCount;
    CountMore(past, step);
    forall x | x in c'.out && x.msg.Generic? ensures HasOrigin(c', x.slot, x.no, x.msg, past + [step]) {
      if x in c.out { OriginStays(c, c', past, step, x.slot, x.no, x.msg); }
    }
    forall p | p in c'.pending ensures HasOrigin(c', p.slot, p.no, p.msg, past + [step]) {
      if p in c.pending { OriginStays(c, c', past, step, p.slot, p.no, p.msg); }
    }
  }

  // ---- the steps ----------------------------------------------------------------------------------

  /** The message a call makes is marshalled from its arguments. */
  lemma MessageIsMarshalled(o: ClientObject, methodId: nat, returnSeq: Option<u32>, args: seq<CallArg>)
    requires GoodCall(o, methodId, args) && Callable(o, methodId)
    requires returnSeq.Some? <==> o.spec.c2s[methodId].returnsType != []
    ensures var m := CallMessage(o, methodId, returnSeq, args);
            m.Generic? && m.methodId == methodId && MarshalledWith(o.spec.c2s[methodId], m, args)
  {
    hide Known, Fits, AllShort, CallArgs, AllSends;
    var m := CallMessage(o, methodId, returnSeq, args);
    assert MarshalledFrom(o.spec.c2s[methodId], m, returnSeq, args);
  }

  lemma CallIsSourced(env: ClientEnv, c: ClientState, past: seq<Step>, step: Step)
    requires IsCall(step) && Sourced(c, past)
    requires step.slot < |c.objects| && GoodCall(c.objects[step.slot], step.methodId, step.args)
    ensures var n := c.callNo + 1;
            var c' := Call(env, c.(callNo := n), step.slot, step.methodId, step.args,
                if step.CallOutside? then n else Inside(n));
            Sourced(c', past + [step])
  {
    hide Call, CallMessage, Known, Fits, AllShort, MarshalledWith, CallCount;
    var n, slot, methodId, args := c.callNo + 1, step.slot, step.methodId, step.args;
    var no := if step.CallOutside? then n else Inside(n);
    var c1 := c.(callNo := n);
    var c' := Call(env, c1, slot, methodId, args, no);
    var o := c.objects[slot];
    if Callable(o, methodId) {
      var returnSeq := if o.spec.c2s[methodId].returnsType != [] then Some(Low32(c.seqNo + 1)) else None;
      CallShape(env, c1, slot, methodId, args, no);
      MessageIsMarshalled(o, methodId, returnSeq, args);
      assert c'.objects[slot] == c'.objects[..|c.objects|][slot];
      forall i | 0 <= i < |c.objects| ensures c'.objects[i].spec == c.objects[i].spec {
        assert c'.objects[i] == c'.objects[..|c.objects|][i];
      }
      CountMore(past, step);
      assert (past + [step])[..|past| + 1] == past + [step];
      assert MadeAt(c', slot, no, CallMessage(o, methodId, returnSeq, args), past + [step], |past|);
    } else {
      Uncallable(env, c1, slot, methodId, args, no);
    }
    SourcedStill(c, c', past, step);
  }

  lemma ReceiveKeepsSpecs(c: ClientState, m: Msg)
    requires ToClient(m)
    ensures SameSpecs(c, Receive(c, m).1)
  {
    hide ParseSpecs, IndexOfObject, CallOf, FdTotal;
  }

  /** A released message is one that waited, under its object's id. */
  lemma {:induction false} ReleasedFrom(objects: seq<ClientObject>, pending: seq<Pending>, x: Sent)
    requires x in Released(objects, pending) && forall p :: p in pending ==> p.msg.Generic?
    ensures exists p, id :: p in pending && x == Deferral.Freely(p, id)
    decreases |pending|
  {
    hide FateOf;
    var p := pending[0];
    var f := FateOf(objects, p);
    if f.Release? && x == Deferral.Freely(p, f.id) {
      assert p in pending;
    } else {
      ReleasedFrom(objects, pending[1..], x);
      var q, id :| q in pending[1..] && x == Deferral.Freely(q, id);
      assert q in pending;
    }
  }

  lemma ResolvedOrigin(c: ClientState, c': ClientState, past: seq<Step>, p: Pending, id: nat)
    requires HasOrigin(c, p.slot, p.no, p.msg, past) && c'.objects == c.objects && p.msg.Generic?
    ensures var x := Deferral.Freely(p, id); HasOrigin(c', x.slot, x.no, x.msg, past)
  {
    hide CallCount, Known, Fits, AllShort, CallArgs, AllSends;
    var k: nat :| MadeAt(c, p.slot, p.no, p.msg, past, k);
    var d := c.objects[p.slot].spec.c2s[p.msg.methodId];
    var returnSeq :| MarshalledFrom(d, p.msg, returnSeq, past[k].args);
    var x := Deferral.Freely(p, id);
    assert MarshalledFrom(d, x.msg, returnSeq, past[k].args);
    assert MadeAt(c', x.slot, x.no, x.msg, past, k);
  }

  lemma FlushIsSourced(c: ClientState, past: seq<Step>, step: Step)
    requires Sourced(c, past) && !IsCall(step) && forall p :: p in c.pending ==> p.msg.Generic?
    ensures Sourced(ClientModel.Flush(c), past + [step])
  {
    hide HasOrigin, Released, Kept, AnyWide, CallCount;
    var c' := ClientModel.Flush(c);
    RoundtripSafety.KeptIsPending(c.objects, c.pending);
    forall x | x in c'.out && x.msg.Generic?
      ensures x in c.out || HasOrigin(c', x.slot, x.no, x.msg, past + [step])
    {
      if x !in c.out {
        ReleasedFrom(c.objects, c.pending, x);
        var p, id :| p in c.pending && x == Deferral.Freely(p, id);
        OriginStays(c, c', past, step, p.slot, p.no, p.msg);
        ResolvedOrigin(c', c', past + [step], p, id);
      }
    }
    SourcedStill(c, c', past, step);
  }

  lemma BindIsSourced(env: ClientEnv, c: ClientState, past: seq<Step>, step: Step, p: Protocol, version: nat)
    requires Sourced(c, past) && !IsCall(step) && p.objects != []
    ensures Sourced(ClientModel.Bind(env, c, p, version), past + [step])
  {
    hide Sourced, HasOrigin, Listeners;
    Counts(c, past);
    SourcedStill(c, ClientModel.Bind(env, c, p, version), past, step);
  }

  lemma Counts(c: ClientState, past: seq<Step>)
    requires Sourced(c, past)
    ensures c.callNo == CallCount(past)
  {}

  lemma StepIsSourced(w: World, st: State, past: seq<Step>, step: Step)
    requires Enabled(w, st, step) && Sourced(st.client, past) && RoundtripSafety.Inv(st)
    ensures Sourced(Apply(w, st, step).client, past + [step])
  {
    hide Sourced, Receive, Call, ClientModel.Bind, ClientModel.Flush, Handle, FinishServer, GoodCall, Reject, Find,
      ToClient, ToServer, RoundtripSafety.Requests, RoundtripSafety.Positions, RoundtripSafety.Answers, HasOrigin,
      CallCount;
    var c, c' := st.client, Apply(w, st, step).client;
    match step {
      case Bind(p, version) => BindIsSourced(w.cenv, c, past, step, p, version);
      case CallOutside(_, _, _) => CallIsSourced(w.cenv, c, past, step);
      case CallInListener(_, _, _) => CallIsSourced(w.cenv, c, past, step);
      case AskRoundtrip => SourcedStill(c, c', past, step);
      case ClientTake =>
        var m := st.server.out[st.cDone];
        Deferral.ReceiveShape(c, m);
        ReceiveKeepsSpecs(c, m);
        SourcedStill(c, c', past, step);
      case ClientFinish => FlushIsSourced(c, past, step);
      case ClientDrop => SourcedStill(c, c', past, step);
      case _ =>
        Deferral.ServerLeavesClient(w, st, step);
        SourcedStill(c, c', past, step);
    }
  }

  lemma {:induction false} RunIsSourced(w: World, st: State, past: seq<Step>, steps: seq<Step>, end: State)
    requires Runs(w, st, steps, end) && Sourced(st.client, past) && RoundtripSafety.Inv(st)
    ensures Sourced(end.client, past + steps)
    decreases |steps|
  {
    hide Sourced, RoundtripSafety.Inv, Enabled, Apply;
    if steps == [] {
      assert past + steps == past;
    } else {
      StepIsSourced(w, st, past, steps[0]);
      RoundtripSafety.StepKeeps(w, st, steps[0]);
      RunIsSourced(w, Apply(w, st, steps[0]), past + [steps[0]], steps[1..], end);
      assert past + [steps[0]] + steps[1..] == past + steps;
    }
  }

  lemma NoneYet()
    ensures Sourced(NewClient, [])
  {}

  /**
    No call is refused or mangled: in every reachable state, as long as no deferred message was resolved
    to an id of 256 or more, the next generic frame of the client is the call of a step of the run, the
    one that bears its number. It finds the object the server made for the one that was called, with the
    same spec, and its method at a version that is new enough; and the listener, if there is one, is
    called with exactly the arguments of that step.
   */
  lemma NoCallIsRefused(w: World, steps: seq<Step>, st: State) returns (k: nat, returnSeq: Option<u32>)
    requires WellFormed(w) && Runs(w, Init, steps, st) && !st.client.truncated
    requires st.sDone < |st.client.out| && st.client.out[st.sDone].msg.Generic?
    ensures k < |steps| && IsCall(steps[k]) && NumberAt(steps, k) == st.client.out[st.sDone].no
    ensures var call, m := steps[k], st.client.out[st.sDone].msg;
            var i := IndexOfId(st.server.objects, m.objectId);
            && call.slot < |st.client.objects| && i < |st.server.objects| && FdTotal(m.args) <= |m.fds|
            && var o, so := st.client.objects[call.slot], st.server.objects[i];
            && so.id == o.id && so.born == o.seqNo && so.spec == Some(o.spec)
            && call.methodId == m.methodId < |o.spec.c2s|
            && var d := o.spec.c2s[call.methodId];
            && Known(d.params, 0) && Fits(d.params, 0, call.args)
            && returnSeq == (if d.returnsType != [] then Some(NewSeq(m)) else None)
            && CallOf(o.spec.c2s, so.listeners, so.version, m.methodId, m.args, m.fds) ==
               if Listened(so.listeners, m.methodId) then Delivered([Self] + CallValues(d, returnSeq, call.args))
               else NotListened
  {
    hide ObjectAgreement.Inv, Runs, WellFormed, CallOf, IndexOfId, FdTotal, CallValues, CallCount, NewSeq, Known, Fits,
      AllShort, CallArgs, AllSends, MadeAt, MarshalledFrom, GenericOk;
    ObjectAgreement.InitInv(w);
    RoundtripSafety.InitInv();
    ObjectAgreement.RunKeeps(w, Init, steps, st);
    Addressee(w, st);
    AddresseeIsBorn(w, st);
    k, returnSeq := Maker(w, steps, st, st.sDone);
    var x := st.client.out[st.sDone];
    var so := st.server.objects[x.msg.objectId - 1];
    var _, _ := Witness(w, st.client, x);
    DeliveredAsMarshalled(so.spec.value.c2s, so.listeners, so.version, x.msg, returnSeq, steps[k].args);
  }

  /** The step that made a call on the wire. */
  lemma Maker(w: World, steps: seq<Step>, st: State, i: nat) returns (k: nat, returnSeq: Option<u32>)
    requires Runs(w, Init, steps, st) && i < |st.client.out| && st.client.out[i].msg.Generic?
    ensures var x := st.client.out[i];
            && k < |steps| && IsCall(steps[k]) && NumberAt(steps, k) == x.no
            && steps[k].slot == x.slot < |st.client.objects|
            && steps[k].methodId == x.msg.methodId < |st.client.objects[x.slot].spec.c2s|
            && var d := st.client.objects[x.slot].spec.c2s[x.msg.methodId];
            && MarshalledFrom(d, x.msg, returnSeq, steps[k].args)
            && Known(d.params, 0) && Fits(d.params, 0, steps[k].args)
            && returnSeq == (if d.returnsType != [] then Some(NewSeq(x.msg)) else None)
  {
    hide RoundtripSafety.Inv, Runs, CallCount, NewSeq, Known, Fits, AllShort, CallArgs, AllSends;
    RoundtripSafety.InitInv();
    NoneYet();
    RunIsSourced(w, Init, [], steps, st);
    assert [] + steps == steps;
    var x := st.client.out[i];
    assert x in st.client.out;
    k :| MadeAt(st.client, x.slot, x.no, x.msg, steps, k);
    var d := st.client.objects[x.slot].spec.c2s[x.msg.methodId];
    returnSeq :| MarshalledFrom(d, x.msg, returnSeq, steps[k].args);
    CallNewSeq(d, returnSeq, steps[k].args, x.msg.objectId, x.msg.methodId);
  }

  /** The object a frame is addressed to was made for the one it was called on. */
  lemma AddresseeIsBorn(w: World, st: State)
    requires ObjectAgreement.Inv(w, st) && !st.client.truncated
    requires st.sDone < |st.client.out| && st.client.out[st.sDone].msg.Generic?
    ensures var x := st.client.out[st.sDone];
            && x.slot < |st.client.objects| && 1 <= x.msg.objectId <= |st.server.objects|
            && var so := st.server.objects[x.msg.objectId - 1];
            && so.id == x.msg.objectId == st.client.objects[x.slot].id && so.born == st.client.objects[x.slot].seqNo
  {
    hide GenericOk, PendingOk, Declared, BindOk, ClientSeqs, Fresh, SameKind;
    var x := st.client.out[st.sDone];
    assert FrameOk(w, st.client, x);
    SlotExists(w, st.client, x.slot, x.msg);
    assert Names(w, st.server, st.client.objects[x.slot].id, st.client.objects[x.slot].seqNo);
  }
}
