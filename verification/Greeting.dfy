/**
  The handshake in the runs of both parties: whatever else is called and sent meanwhile, its four
  messages pass at most once each, and the client knows the server's protocols exactly when it is done.
 */
module Greeting {
  import opened Bytes
  import opened WireFormat
  import opened Marshal
  import opened Calls
  import opened Spec
  import opened Messages
  import opened ServerModel
  import opened ClientModel
  import opened TwoParty
  import opened Handshake
  import opened Waiting
  import opened Refinement
  import opened Returns
  import RoundtripSafety

  /** The messages of the client among its first `upTo` that answer the server's greeting. */
  ghost predicate Acked(out: seq<Sent>, upTo: nat) {
    exists i :: 0 <= i < upTo && i < |out| && out[i].msg.HandshakeAck?
  }

  ghost predicate Begun(out: seq<Msg>, upTo: nat) {
    exists i :: 0 <= i < upTo && i < |out| && out[i].HandshakeBegin?
  }

  ghost predicate Listed(out: seq<Msg>, upTo: nat) {
    exists i :: 0 <= i < upTo && i < |out| && out[i].HandshakeProtocols?
  }

  /** One greeting, the first message; one acknowledgement, of version 1, once the server has begun. */
  ghost predicate ClientSide(st: State) {
    && (forall i :: 0 <= i < |st.client.out| && st.client.out[i].msg.Hello? ==> i == 0)
    && (forall i, j :: 0 <= i < j < |st.client.out| ==>
          !(st.client.out[i].msg.HandshakeAck? && st.client.out[j].msg.HandshakeAck?))
    && (forall i :: 0 <= i < |st.client.out| && st.client.out[i].msg.HandshakeAck? ==>
          st.client.out[i].msg.version == 1 && Begun(st.server.out, st.cDone))
  }

  /** One beginning, behind the greeting; one list, the server's own, behind the acknowledgement. */
  ghost predicate ServerSide(w: World, st: State) {
    && (forall i :: 0 <= i < |st.server.out| && st.server.out[i].HandshakeBegin? ==>
          st.server.out[i].versions == [1] && st.sDone > 0)
    && (forall i, j :: 0 <= i < j < |st.server.out| ==>
          !(st.server.out[i].HandshakeBegin? && st.server.out[j].HandshakeBegin?))
    && (forall i :: 0 <= i < |st.server.out| && st.server.out[i].HandshakeProtocols? ==>
          && st.server.out[i].names == SpecStrings(w.senv.protocols) && st.server.version == 1
          && Acked(st.client.out, st.sDone))
    && (forall i, j :: 0 <= i < j < |st.server.out| ==>
          !(st.server.out[i].HandshakeProtocols? && st.server.out[j].HandshakeProtocols?))
  }

  ghost predicate Informed(w: World, st: State) {
    && (st.client.handshakeDone <==> Listed(st.server.out, st.cDone))
    && st.client.serverSpecs == if st.client.handshakeDone then SpecsOf(w.senv.protocols) else []
  }

  ghost predicate Inv(w: World, st: State) {
    && ClientSide(st) && ServerSide(w, st) && Informed(w, st)
    && st.sDone <= |st.client.out| && st.cDone <= |st.server.out|
  }

  // ---- the client's steps ---------------------------------------------------------------------------

  /** More was sent, none of it part of the handshake. */
  ghost predicate Talks(c: ClientState, c': ClientState) {
    && Continues(c.out, c'.out)
    && (forall i :: |c.out| <= i < |c'.out| ==> !c'.out[i].msg.Hello? && !c'.out[i].msg.HandshakeAck?)
    && c'.handshakeDone == c.handshakeDone && c'.serverSpecs == c.serverSpecs
  }

  lemma AckedLater(out: seq<Sent>, upTo: nat, out': seq<Sent>, upTo': nat)
    requires Acked(out, upTo) && Continues(out, out') && upTo <= upTo'
    ensures Acked(out', upTo')
  {
    var i :| 0 <= i < upTo && i < |out| && out[i].msg.HandshakeAck?;
    assert out'[i].msg.HandshakeAck?;
  }

  lemma ClientTalks(w: World, st: State, c': ClientState)
    requires Inv(w, st) && Talks(st.client, c')
    ensures Inv(w, st.(client := c'))
  {
    hide Acked, Begun, Listed, SpecStrings, SpecsOf;
    if Acked(st.client.out, st.sDone) { AckedLater(st.client.out, st.sDone, c'.out, st.sDone); }
  }

  lemma CallTalks(env: ClientEnv, c: ClientState, slot: nat, methodId: nat, args: seq<CallArg>, no: int)
    requires slot < |c.objects| && GoodCall(c.objects[slot], methodId, args)
    ensures Talks(c, Call(env, c, slot, methodId, args, no))
  {
    hide Call, CallMessage, Known, Fits, AllShort;
    if Callable(c.objects[slot], methodId) {
      CallShape(env, c, slot, methodId, args, no);
      var hasReturn := c.objects[slot].spec.c2s[methodId].returnsType != [];
      RoundtripSafety.CallIsGeneric(c.objects[slot], methodId, args, if hasReturn then Some(Low32(c.seqNo + 1)) else None);
    } else {
      Uncallable(env, c, slot, methodId, args, no);
    }
  }

  lemma FlushTalks(c: ClientState)
    requires RoundtripSafety.PendingGeneric(c)
    ensures Talks(c, ClientModel.Flush(c))
  {
    hide Released, Kept, AnyWide;
    RoundtripSafety.ReleasedHasNoRequest(c.objects, c.pending);
    var more := Released(c.objects, c.pending);
    assert forall i :: 0 <= i < |more| ==> more[i] in more;
  }

  lemma BindTalks(env: ClientEnv, c: ClientState, p: Protocol, version: nat)
    requires p.objects != []
    ensures Talks(c, ClientModel.Bind(env, c, p, version))
  {
    hide Listeners;
  }

  lemma ReceiveTalks(c: ClientState, m: Msg)
    requires ToClient(m) && !m.HandshakeBegin? && !m.HandshakeProtocols?
    ensures Talks(c, Receive(c, m).1)
  {
    hide IndexOfSeq, IndexOfObject, CallOf, FdTotal;
  }

  lemma MoreTaken(w: World, st: State, c: ClientState)
    requires Inv(w, st) && Talks(st.client, c) && st.cDone < |st.server.out|
    requires !st.server.out[st.cDone].HandshakeProtocols?
    ensures Inv(w, st.(client := c, cDone := st.cDone + 1))
  {
    hide Acked, SpecStrings, SpecsOf;
    ClientTalks(w, st, c);
  }

  /** The server's beginning is the first of its kind and is answered once. */
  lemma BeginIsTaken(w: World, st: State)
    requires Inv(w, st) && st.cDone < |st.server.out| && st.server.out[st.cDone].HandshakeBegin?
    ensures var (ok, c) := Receive(st.client, st.server.out[st.cDone]);
            ok && Inv(w, st.(client := c, cDone := st.cDone + 1))
  {
    hide SpecStrings, SpecsOf, Acked;
    var c := Receive(st.client, st.server.out[st.cDone]).1;
    assert Begun(st.server.out, st.cDone + 1);
    assert !Begun(st.server.out, st.cDone);
    if Acked(st.client.out, st.sDone) { AckedLater(st.client.out, st.sDone, c.out, st.sDone); }
  }

  /** The server's list is the first of its kind, and is read as what the server offers. */
  lemma ListIsHeard(w: World, st: State)
    requires Inv(w, st) && st.cDone < |st.server.out| && st.server.out[st.cDone].HandshakeProtocols?
    requires Versions32(w.senv.protocols)
    ensures var (ok, c) := Receive(st.client, st.server.out[st.cDone]);
            ok && Inv(w, st.(client := c, cDone := st.cDone + 1))
  {
    hide SpecStrings, SpecsOf, Acked, ParseSpecs;
    SpecsAreParsed(w.senv.protocols);
    assert Listed(st.server.out, st.cDone + 1);
    assert !Listed(st.server.out, st.cDone);
    assert [] + SpecsOf(w.senv.protocols) == SpecsOf(w.senv.protocols);
  }

  lemma TakeKeeps(w: World, st: State)
    requires Inv(w, st) && Versions32(w.senv.protocols) && Enabled(w, st, ClientTake)
    ensures Inv(w, Apply(w, st, ClientTake))
  {
    hide Receive, ClientSide, ServerSide, Informed, Room;
    var m := st.server.out[st.cDone];
    if m.HandshakeBegin? {
      BeginIsTaken(w, st);
    } else if m.HandshakeProtocols? {
      ListIsHeard(w, st);
    } else {
      ReceiveTalks(st.client, m);
      var (ok, c) := Receive(st.client, m);
      var c' := if ok then c else Disconnect(c);
      MoreTaken(w, st, c');
      BusyIsNoMatter(w, st.(client := c', cDone := st.cDone + 1), st.sBusy, ok);
    }
  }

  lemma BusyIsNoMatter(w: World, st: State, sBusy: bool, cBusy: bool)
    requires Inv(w, st)
    ensures Inv(w, st.(sBusy := sBusy, cBusy := cBusy))
  {
    hide Acked, Begun, Listed;
  }

  // ---- the server's steps ---------------------------------------------------------------------------

  /** More was sent, none of it part of the handshake. */
  ghost predicate Serves(s: ServerState, s': ServerState) {
    && s.out <= s'.out && s'.version == s.version
    && forall j :: |s.out| <= j < |s'.out| ==> !s'.out[j].HandshakeBegin? && !s'.out[j].HandshakeProtocols?
  }

  lemma SameSoFar(out: seq<Msg>, out': seq<Msg>, upTo: nat)
    requires out <= out' && upTo <= |out|
    ensures Begun(out', upTo) == Begun(out, upTo) && Listed(out', upTo) == Listed(out, upTo)
  {
    assert forall i :: 0 <= i < upTo ==> out'[i] == out[i];
  }

  lemma ServerServes(w: World, st: State, s': ServerState, cause: nat, done: nat)
    requires Inv(w, st) && Serves(st.server, s') && st.sDone <= done <= |st.client.out|
    ensures Inv(w, WithServer(st, s', cause).(sDone := done))
  {
    hide Acked, Begun, Listed, SpecStrings, SpecsOf;
    SameSoFar(st.server.out, s'.out, st.cDone);
    if Acked(st.client.out, st.sDone) { AckedLater(st.client.out, st.sDone, st.client.out, done); }
  }

  lemma HandleServes(env: ServerEnv, s: ServerState, m: Msg)
    requires ToServer(m) && !m.Hello? && !m.HandshakeAck?
    ensures Serves(s, Handle(env, s, m))
  {
    hide Find, SpecFor, CallOf, FdTotal, IndexOfId, ListenersFor;
  }

  lemma HelloIsHandled(w: World, st: State, cause: nat)
    requires Inv(w, st) && st.sDone < |st.client.out| && st.client.out[st.sDone].msg.Hello?
    ensures var s' := Handle(w.senv, st.server, Hello);
            s'.out == st.server.out + [HandshakeBegin([1])] && Inv(w, WithServer(st, s', cause).(sDone := st.sDone + 1))
  {
    hide Acked, Begun, Listed, SpecStrings, SpecsOf;
    var s' := Handle(w.senv, st.server, Hello);
    SameSoFar(st.server.out, s'.out, st.cDone);
    if Acked(st.client.out, st.sDone) { AckedLater(st.client.out, st.sDone, st.client.out, st.sDone + 1); }
  }

  lemma AckIsHandled(w: World, st: State, cause: nat)
    requires Inv(w, st) && st.sDone < |st.client.out| && st.client.out[st.sDone].msg.HandshakeAck?
    ensures var s' := Handle(w.senv, st.server, st.client.out[st.sDone].msg);
            && s'.out == st.server.out + [HandshakeProtocols(SpecStrings(w.senv.protocols))]
            && Inv(w, WithServer(st, s', cause).(sDone := st.sDone + 1))
  {
    hide Begun, Listed, SpecStrings, SpecsOf;
    var s' := Handle(w.senv, st.server, st.client.out[st.sDone].msg);
    SameSoFar(st.server.out, s'.out, st.cDone);
    assert Acked(st.client.out, st.sDone + 1);
    assert !Acked(st.client.out, st.sDone);
  }

  lemma PlacesHold(w: World, st: State)
    requires Inv(w, st)
    ensures st.sDone <= |st.client.out|
  {}

  lemma WaitingIsGeneric(st: State)
    requires RoundtripSafety.Inv(st)
    ensures RoundtripSafety.PendingGeneric(st.client)
  {}

  lemma ServerTakeKeeps(w: World, st: State)
    requires Inv(w, st) && Enabled(w, st, ServerTake)
    ensures Inv(w, Apply(w, st, ServerTake))
  {
    hide Handle, ClientSide, ServerSide, Informed, Room;
    var m := st.client.out[st.sDone].msg;
    HandleSends(w.senv, st.server, m);
    if Malformed(m) {
      ServerServes(w, st, Reject(st.server), st.sDone, st.sDone);
      var st' := WithServer(st, Reject(st.server), st.sDone).(sDone := st.sDone);
      BusyIsNoMatter(w, st', false, st'.cBusy);
    } else if m.Hello? {
      HelloIsHandled(w, st, st.sDone + 1);
    } else if m.HandshakeAck? {
      AckIsHandled(w, st, st.sDone + 1);
    } else {
      HandleServes(w.senv, st.server, m);
      ServerServes(w, st, Handle(w.senv, st.server, m), st.sDone + 1, st.sDone + 1);
    }
  }

  lemma ServerFinishKeeps(w: World, st: State)
    requires Inv(w, st) && Enabled(w, st, ServerFinish)
    ensures Inv(w, Apply(w, st, ServerFinish))
  {
    hide Inv, Room, LeftoverFds;
    PlacesHold(w, st);
    var s' := FinishServer(st);
    ServerServes(w, st, s', st.sDone, st.sDone);
    var st' := WithServer(st, s', st.sDone).(sDone := st.sDone);
    BusyIsNoMatter(w, st', false, st'.cBusy);
  }

  lemma ServerSpeaksKeeps(w: World, st: State, step: Step)
    requires Inv(w, st) && Enabled(w, st, step) && (step.ServerSend? || step.ServerComplain?)
    ensures Inv(w, Apply(w, st, step))
  {
    hide Inv, Room;
    PlacesHold(w, st);
    var s' := if step.ServerSend? then Sending(st.server, step.msg) else Complain(st.server, st.server.objects[step.k]);
    ServerServes(w, st, s', st.sDone, st.sDone);
  }

  // ---- all runs -------------------------------------------------------------------------------------

  lemma StepKeeps(w: World, st: State, step: Step)
    requires Inv(w, st) && RoundtripSafety.Inv(st) && Versions32(w.senv.protocols) && Enabled(w, st, step)
    ensures Inv(w, Apply(w, st, step))
  {
    hide Inv, RoundtripSafety.Inv, Call, ClientModel.Bind, ClientModel.Flush, Handle, Receive, GoodCall, Room,
      FinishServer, Talks;
    match step {
      case Bind(p, version) =>
        BindTalks(w.cenv, st.client, p, version);
        ClientTalks(w, st, ClientModel.Bind(w.cenv, st.client, p, version));
      case CallOutside(slot, methodId, args) => CallKeeps(w, st, slot, methodId, args, st.client.callNo + 1);
      case CallInListener(slot, methodId, args) => CallKeeps(w, st, slot, methodId, args, Inside(st.client.callNo + 1));
      case AskRoundtrip => AskTalks(st.client); ClientTalks(w, st, Roundtrip(st.client));
      case ClientDrop => DropTalks(st.client); ClientTalks(w, st, Disconnect(st.client));
      case ClientReceive(upTo) => ReceiveMore(w, st, upTo, st.sIn, st.sFrom, st.sBusy, true);
      case ServerReceive(upTo) => ReceiveMore(w, st, st.cIn, upTo, st.sIn, true, st.cBusy);
      case ClientTake => TakeKeeps(w, st);
      case ClientFinish =>
        WaitingIsGeneric(st);
        FlushTalks(st.client);
        ClientTalks(w, st, ClientModel.Flush(st.client));
        ReceiveMore(w, st.(client := ClientModel.Flush(st.client)), st.cIn, st.sIn, st.sFrom, st.sBusy, false);
      case ServerTake => ServerTakeKeeps(w, st);
      case ServerFinish => ServerFinishKeeps(w, st);
      case _ => ServerSpeaksKeeps(w, st, step);
    }
  }

  lemma AskTalks(c: ClientState)
    ensures Talks(c, Roundtrip(c))
  {}

  lemma DropTalks(c: ClientState)
    ensures Talks(c, Disconnect(c))
  {}

  lemma CallKeeps(w: World, st: State, slot: nat, methodId: nat, args: seq<CallArg>, no: int)
    requires Inv(w, st) && slot < |st.client.objects| && GoodCall(st.client.objects[slot], methodId, args)
    ensures var c := st.client.(callNo := st.client.callNo + 1);
            Inv(w, st.(client := Call(w.cenv, c, slot, methodId, args, no)))
  {
    hide Inv, Call, Known, Fits, AllShort;
    var c := st.client.(callNo := st.client.callNo + 1);
    CallTalks(w.cenv, c, slot, methodId, args, no);
    ClientTalks(w, st, Call(w.cenv, c, slot, methodId, args, no));
  }

  lemma ReceiveMore(w: World, st: State, cIn: nat, sIn: nat, sFrom: nat, sBusy: bool, cBusy: bool)
    requires Inv(w, st)
    ensures Inv(w, st.(cIn := cIn, sIn := sIn, sFrom := sFrom, sBusy := sBusy, cBusy := cBusy))
  {
    hide Acked, Begun, Listed;
  }

  lemma {:induction false} RunKeeps(w: World, st: State, steps: seq<Step>, end: State)
    requires Inv(w, st) && RoundtripSafety.Inv(st) && Versions32(w.senv.protocols) && Runs(w, st, steps, end)
    ensures Inv(w, end)
    decreases |steps|
  {
    hide Inv, RoundtripSafety.Inv, Apply, Enabled;
    if steps != [] {
      StepKeeps(w, st, steps[0]);
      RoundtripSafety.StepKeeps(w, st, steps[0]);
      RunKeeps(w, Apply(w, st, steps[0]), steps[1..], end);
    }
  }

  /**
    In every reachable state, whatever else the parties do and however batches are cut: the client counts
    the handshake as done exactly if it has taken the server's list, and then knows what the server offers,
    protocol by protocol, and the server has its version; before that it knows of none.
   */
  lemma HandshakeIsHeldOnce(w: World, steps: seq<Step>, st: State)
    requires Runs(w, Init, steps, st) && Versions32(w.senv.protocols)
    ensures st.client.serverSpecs == if st.client.handshakeDone then SpecsOf(w.senv.protocols) else []
    ensures st.client.handshakeDone <==>
            exists j :: 0 <= j < st.cDone && j < |st.server.out| && st.server.out[j].HandshakeProtocols?
    ensures st.client.handshakeDone ==> st.server.version == 1
    ensures forall i, j :: 0 <= i < j < |st.server.out| ==>
              && !(st.server.out[i].HandshakeBegin? && st.server.out[j].HandshakeBegin?)
              && !(st.server.out[i].HandshakeProtocols? && st.server.out[j].HandshakeProtocols?)
  {
    hide Acked, Begun, SpecsOf, SpecStrings;
    InitInv(w);
    RoundtripSafety.InitInv();
    RunKeeps(w, Init, steps, st);
  }

  lemma InitInv(w: World)
    ensures Inv(w, Init)
  {}

  /**
    waitForHandshake, from any reachable state to its return: if it is over without an error and no dispatch
    failed, the client knows the server's protocols and versions, in order.
   */
  lemma HandshakeIsDone(w: World, polls: seq<Polled>, states: seq<State>)
    requires Transmissible(w) && Course(w, states, polls) && Reachable(w, states[0]) && Waits(states[0])
    ensures var r := Wait(states[0].client, ForHandshake, polls);
            && r.state == states[r.used].client
            && (r.over && !r.state.error && !LastFailed(states[0].client, polls, r.used) ==>
                  r.state.serverSpecs == SpecsOf(w.senv.protocols) && states[r.used].server.version == 1)
  {
    hide Turn, Wait, LastFailed, After, DispatchEvents, SpecsOf, Runs;
    WaitIsRun(w, ForHandshake, polls, states);
    HandshakeIsAwaited(states[0].client, polls);
    var end := states[Wait(states[0].client, ForHandshake, polls).used];
    var steps :| Runs(w, Init, steps, end);
    HandshakeIsHeldOnce(w, steps, end);
  }
}
