/**
  What the server's listeners hear: over all runs just the calls it has handled, each once, in the
  order of the wire, with the arguments of the step that made it.
 */
module Delivery {
  import opened Bytes
  import opened WireFormat
  import opened Demarshal
  import opened Marshal
  import opened Calls
  import opened Spec
  import opened Messages
  import opened ServerModel
  import opened ClientModel
  import opened TwoParty
  import opened ObjectAgreement
  import opened Origins
  import RoundtripSafety
  import Scanner
  import Progress

  /** Whether the server's implementations listen to a method of the objects of a client's object's kind. */
  predicate IsHeard(w: World, o: ClientObject, methodId: nat) {
    Listened(ListenersFor(w.senv, o.protocol, o.spec), methodId)
  }

  /** What a message on the wire makes the server's listeners hear: one call, or nothing. */
  function Heard(w: World, c: ClientState, x: Sent): seq<ListenerCall> {
    if x.msg.Generic? && x.slot < |c.objects| && IsHeard(w, c.objects[x.slot], x.msg.methodId)
       && FdTotal(x.msg.args) <= |x.msg.fds|
    then [ListenerCall(x.msg.objectId, x.msg.methodId, [Self] + ArgsValues(x.msg.args, x.msg.fds))]
    else []
  }

  function HeardAll(w: World, c: ClientState, out: seq<Sent>): seq<ListenerCall> {
    if out == [] then [] else HeardAll(w, c, out[..|out| - 1]) + Heard(w, c, out[|out| - 1])
  }

  lemma HeardMore(w: World, c: ClientState, out: seq<Sent>, x: Sent)
    ensures HeardAll(w, c, out + [x]) == HeardAll(w, c, out) + Heard(w, c, x)
  {
    hide Heard;
    assert (out + [x])[..|out|] == out;
  }

  // ---- the invariant ------------------------------------------------------------------------------

  ghost predicate Inv(w: World, st: State) {
    && (forall i :: 0 <= i < |st.client.out| && st.client.out[i].msg.Generic? ==>
          st.client.out[i].slot < |st.client.objects|)
    && st.sDone <= |st.client.out|
    && (!st.client.truncated ==> st.server.calls == HeardAll(w, st.client, st.client.out[..st.sDone]))
  }

  ghost predicate SameKinds(a: ClientState, b: ClientState) {
    |a.objects| <= |b.objects|
    && forall i :: 0 <= i < |a.objects| ==>
         b.objects[i].spec == a.objects[i].spec && b.objects[i].protocol == a.objects[i].protocol
  }

  lemma {:induction false} HeardStays(w: World, a: ClientState, b: ClientState, out: seq<Sent>)
    requires SameKinds(a, b) && forall i :: 0 <= i < |out| && out[i].msg.Generic? ==> out[i].slot < |a.objects|
    ensures HeardAll(w, b, out) == HeardAll(w, a, out)
    decreases |out|
  {
    hide ArgsValues, FdTotal, ListenersFor;
    if out != [] { HeardStays(w, a, b, out[..|out| - 1]); }
  }

  lemma CallKeepsKinds(env: ClientEnv, c: ClientState, slot: nat, methodId: nat, args: seq<CallArg>, no: int)
    requires slot < |c.objects| && GoodCall(c.objects[slot], methodId, args)
    ensures SameKinds(c, Call(env, c, slot, methodId, args, no))
  {
    hide Call, CallMessage, Known, Fits, AllShort;
    var c' := Call(env, c, slot, methodId, args, no);
    if Callable(c.objects[slot], methodId) {
      CallShape(env, c, slot, methodId, args, no);
      forall i | 0 <= i < |c.objects|
        ensures c'.objects[i].spec == c.objects[i].spec && c'.objects[i].protocol == c.objects[i].protocol
      {
        assert c'.objects[i] == c'.objects[..|c.objects|][i];
      }
    } else {
      Uncallable(env, c, slot, methodId, args, no);
    }
  }

  lemma ReceiveKeepsKinds(c: ClientState, m: Msg)
    requires ToClient(m)
    ensures SameKinds(c, Receive(c, m).1)
  {
    hide ParseSpecs, IndexOfObject, CallOf, FdTotal;
  }

  lemma StepKeepsKinds(w: World, st: State, step: Step)
    requires Enabled(w, st, step)
    ensures SameKinds(st.client, Apply(w, st, step).client)
  {
    hide Call, Receive, Handle, FinishServer, GoodCall, Find, Listeners, ToClient, ToServer, Reject, Released, Kept,
      AnyWide;
    match step {
      case CallOutside(slot, methodId, args) =>
        var c := st.client.(callNo := st.client.callNo + 1);
        CallKeepsKinds(w.cenv, c, slot, methodId, args, c.callNo);
      case CallInListener(slot, methodId, args) =>
        var c := st.client.(callNo := st.client.callNo + 1);
        CallKeepsKinds(w.cenv, c, slot, methodId, args, Inside(c.callNo));
      case ClientTake => ReceiveKeepsKinds(st.client, st.server.out[st.cDone]);
      case _ =>
    }
  }

  /** What handling one call adds to what was heard. */
  lemma GenericIsHeard(w: World, st: State)
    requires ObjectAgreement.Inv(w, st) && !st.client.truncated
    requires st.sDone < |st.client.out| && st.client.out[st.sDone].msg.Generic?
    ensures Handle(w.senv, st.server, st.client.out[st.sDone].msg).calls ==
            st.server.calls + Heard(w, st.client, st.client.out[st.sDone])
  {
    hide ObjectAgreement.Inv, GenericOk, CallOf, FdTotal, ArgsValues, CallValues, IndexOfId, MarshalledFrom, CreateObject,
      ListenersFor, Find;
    Addressee(w, st);
    TableOf(w, st);
    var x := st.client.out[st.sDone];
    var so := st.server.objects[x.msg.objectId - 1];
    var o := st.client.objects[x.slot];
    var returnSeq, args := Witness(w, st.client, x);
    DeliveredAsMarshalled(so.spec.value.c2s, so.listeners, so.version, x.msg, returnSeq, args);
    MarshalledValues(o.spec.c2s[x.msg.methodId], x.msg, returnSeq, args);
    IdOfPlace(w.senv, st.server, x.msg.objectId - 1);
    CreateHearsNothing(w.senv);
  }

  lemma IdOfPlace(env: ServerEnv, s: ServerState, k: nat)
    requires Table(env, s) && k < |s.objects|
    ensures s.objects[k].id == k + 1
  {}

  lemma CreateHearsNothing(env: ServerEnv)
    ensures forall s1: ServerState, p: Name, name: Name, version: nat, n: nat ::
              CreateObject(env, s1, p, name, version, n).calls == s1.calls
  {
    hide Creatable, Made;
  }

  /** The values of a frame are those of the arguments it was marshalled from. */
  lemma MarshalledValues(d: Method, m: Msg, returnSeq: Option<u32>, args: seq<CallArg>)
    requires m.Generic? && MarshalledFrom(d, m, returnSeq, args)
    ensures FdTotal(m.args) <= |m.fds|
    ensures Known(d.params, 0) && Fits(d.params, 0, args)
    ensures ArgsValues(m.args, m.fds) == CallValues(d, returnSeq, args)
  {
    hide ArgsValues, CallValues, CallArgs, AllSends, FdTotal, Known, Fits, AllShort, CallBytes, Scanner.ReadGeneric,
      CheckFrom;
    var bytes := CallBytes(0, 0, d, returnSeq, args);
    AtSelf(bytes);
    CallArrives(bytes, 0, [], 0, 0, d, returnSeq, args);
    assert AllSends(args) + [] == AllSends(args);
  }

  lemma OthersAreNotHeard(env: ServerEnv, s: ServerState, m: Msg)
    requires ToServer(m) && !m.Generic?
    ensures Handle(env, s, m).calls == s.calls
  {
    hide Creatable, Made, SpecStrings;
  }

  lemma TakeIsHeard(w: World, st: State)
    requires ObjectAgreement.Inv(w, st) && Inv(w, st) && Enabled(w, st, ServerTake)
    ensures Inv(w, Apply(w, st, ServerTake))
  {
    hide ObjectAgreement.Inv, Handle, Heard, HeardAll, Reject;
    var st', x := Apply(w, st, ServerTake), st.client.out[st.sDone];
    if Malformed(x.msg) {
      RejectionIsNotHeard(st.server);
    } else if !st.client.truncated {
      assert st.client.out[..st.sDone + 1] == st.client.out[..st.sDone] + [x];
      HeardMore(w, st.client, st.client.out[..st.sDone], x);
      if x.msg.Generic? {
        GenericIsHeard(w, st);
      } else {
        OthersAreNotHeard(w.senv, st.server, x.msg);
        assert Heard(w, st.client, x) == [] by { NotACall(w, st.client, x); }
      }
    }
  }

  lemma NotACall(w: World, c: ClientState, x: Sent)
    requires !x.msg.Generic?
    ensures Heard(w, c, x) == []
  {}

  lemma RejectionIsNotHeard(s: ServerState)
    ensures Reject(s).calls == s.calls
  {}

  lemma ServerSpeaksUnheard(w: World, st: State, step: Step)
    requires Enabled(w, st, step) && !step.ServerTake?
    ensures Apply(w, st, step).server.calls == st.server.calls && Apply(w, st, step).sDone == st.sDone
  {
    hide Call, Receive, ClientModel.Bind, ClientModel.Flush, GoodCall, Find, LeftoverFds, ToClient, ToServer;
  }

  /** Every call on the wire was made on an object of the client. */
  lemma SlotsOfSourced(c: ClientState, past: seq<Step>)
    requires Sourced(c, past)
    ensures forall i :: 0 <= i < |c.out| && c.out[i].msg.Generic? ==> c.out[i].slot < |c.objects|
  {
    hide CallCount, MarshalledWith;
    forall i | 0 <= i < |c.out| && c.out[i].msg.Generic? ensures c.out[i].slot < |c.objects| {
      var x := c.out[i];
      assert x in c.out;
      assert HasOrigin(c, x.slot, x.no, x.msg, past);
    }
  }

  lemma StepKeeps(w: World, st: State, step: Step, past: seq<Step>)
    requires ObjectAgreement.Inv(w, st) && RoundtripSafety.Inv(st) && Inv(w, st) && Enabled(w, st, step)
    requires Sourced(Apply(w, st, step).client, past)
    ensures Inv(w, Apply(w, st, step))
  {
    hide ObjectAgreement.Inv, RoundtripSafety.Inv, Enabled, Apply, Sourced, HeardAll;
    if step.ServerTake? {
      TakeIsHeard(w, st);
    } else {
      var st' := Apply(w, st, step);
      Progress.StepGrows(w, st, step);
      StepKeepsKinds(w, st, step);
      SlotsOfSourced(st'.client, past);
      ServerSpeaksUnheard(w, st, step);
      assert st'.client.out[..st.sDone] == st.client.out[..st.sDone];
      HeardStays(w, st.client, st'.client, st.client.out[..st.sDone]);
    }
  }

  lemma {:induction false} RunKeeps(w: World, st: State, past: seq<Step>, steps: seq<Step>, end: State)
    requires WellFormed(w) && Runs(w, st, steps, end)
    requires ObjectAgreement.Inv(w, st) && RoundtripSafety.Inv(st) && Inv(w, st) && Sourced(st.client, past)
    ensures Inv(w, end)
    decreases |steps|
  {
    hide WellFormed, ObjectAgreement.Inv, RoundtripSafety.Inv, Inv, Sourced, Enabled, Apply;
    if steps != [] {
      ObjectAgreement.StepKeeps(w, st, steps[0]);
      RoundtripSafety.StepKeeps(w, st, steps[0]);
      StepIsSourced(w, st, past, steps[0]);
      StepKeeps(w, st, steps[0], past + [steps[0]]);
      RunKeeps(w, Apply(w, st, steps[0]), past + [steps[0]], steps[1..], end);
    }
  }

  lemma InitInv(w: World)
    ensures Inv(w, Init)
  {}

  /**
    In every reachable state, as long as no deferred message was resolved to an id of 256 or more: the
    listeners of the server have heard just the calls it has handled, each once, in the order of the wire.
   */
  lemma CallsAreHeardOnce(w: World, steps: seq<Step>, st: State)
    requires WellFormed(w) && Runs(w, Init, steps, st) && !st.client.truncated
    ensures st.sDone <= |st.client.out| && st.server.calls == HeardAll(w, st.client, st.client.out[..st.sDone])
  {
    hide WellFormed, ObjectAgreement.Inv, RoundtripSafety.Inv, Sourced, Runs;
    ObjectAgreement.InitInv(w);
    RoundtripSafety.InitInv();
    NoneYet();
    InitInv(w);
    RunKeeps(w, Init, [], steps, st);
  }

  /** And what is heard of a call is the object, the method and the arguments of the step that made it. */
  lemma HeardAsMade(w: World, steps: seq<Step>, st: State, i: nat) returns (k: nat, returnSeq: Option<u32>)
    requires Runs(w, Init, steps, st) && i < |st.client.out| && st.client.out[i].msg.Generic?
    ensures k < |steps| && IsCall(steps[k]) && NumberAt(steps, k) == st.client.out[i].no
    ensures var x, call := st.client.out[i], steps[k];
            && call.slot == x.slot < |st.client.objects|
            && var o := st.client.objects[call.slot];
            && call.methodId < |o.spec.c2s|
            && var d := o.spec.c2s[call.methodId];
            && Known(d.params, 0) && Fits(d.params, 0, call.args)
            && returnSeq == (if d.returnsType != [] then Some(NewSeq(x.msg)) else None)
            && Heard(w, st.client, x) ==
               if IsHeard(w, o, call.methodId) then
                 [ListenerCall(x.msg.objectId, call.methodId, [Self] + CallValues(d, returnSeq, call.args))]
               else []
  {
    hide Runs, CallCount, ArgsValues, CallValues, FdTotal, MarshalledFrom, NewSeq, Known, Fits, IsHeard;
    k, returnSeq := Maker(w, steps, st, i);
    var x := st.client.out[i];
    MarshalledValues(st.client.objects[x.slot].spec.c2s[x.msg.methodId], x.msg, returnSeq, steps[k].args);
  }
}
