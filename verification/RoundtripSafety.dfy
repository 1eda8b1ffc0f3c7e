/** A roundtrip that is over has flushed everything before it: proved over all runs. */
module RoundtripSafety {
  import opened Bytes
  import opened WireFormat
  import opened Marshal
  import opened Calls
  import opened Spec
  import opened Messages
  import opened ServerModel
  import opened ClientModel
  import opened TwoParty

  // ---- what the parties' steps do to the messages they have sent --------------------------

  /** The client has sent more, but asked for no further roundtrip. */
  ghost predicate SendsNoRequest(c: ClientState, c': ClientState) {
    && Continues(c.out, c'.out)
    && (forall i :: |c.out| <= i < |c'.out| ==> !c'.out[i].msg.RoundtripRequest?)
    && c'.lastSent == c.lastSent && c'.lastAcked == c.lastAcked
  }

  lemma CallIsGeneric(o: ClientObject, methodId: nat, args: seq<CallArg>, returnSeq: Option<u32>)
    requires GoodCall(o, methodId, args) && Callable(o, methodId)
    ensures CallMessage(o, methodId, returnSeq, args).Generic?
  {
    hide CallArgs, AllSends, Fits, Known, AllShort;
  }

  lemma CallSendsNoRequest(env: ClientEnv, c: ClientState, slot: nat, methodId: nat, args: seq<CallArg>, no: int)
    requires slot < |c.objects| && GoodCall(c.objects[slot], methodId, args)
    ensures SendsNoRequest(c, Call(env, c, slot, methodId, args, no))
  {
    hide Call, CallMessage, Fits, Known, AllShort;
    if Callable(c.objects[slot], methodId) {
      CallShape(env, c, slot, methodId, args, no);
      CallIsGeneric(c.objects[slot], methodId, args, if c.objects[slot].spec.c2s[methodId].returnsType != [] then
          Some(Low32(c.seqNo + 1)) else None);
    } else {
      Uncallable(env, c, slot, methodId, args, no);
    }
  }

  lemma {:induction false} ReleasedHasNoRequest(objects: seq<ClientObject>, pending: seq<Pending>)
    requires forall p :: p in pending ==> p.msg.Generic?
    ensures forall s :: s in Released(objects, pending) ==> s.msg.Generic?
    decreases |pending|
  {
    hide FateOf;
    if pending != [] { ReleasedHasNoRequest(objects, pending[1..]); }
  }

  /** Only generic messages wait. */
  ghost predicate PendingGeneric(c: ClientState) { forall p :: p in c.pending ==> p.msg.Generic? }

  lemma {:induction false} KeptIsPending(objects: seq<ClientObject>, pending: seq<Pending>)
    ensures forall p :: p in Kept(objects, pending) ==> p in pending
    decreases |pending|
  {
    hide FateOf;
    if pending != [] { KeptIsPending(objects, pending[1..]); }
  }

  lemma CallKeepsPendingGeneric(env: ClientEnv, c: ClientState, slot: nat, methodId: nat, args: seq<CallArg>, no: int)
    requires PendingGeneric(c) && slot < |c.objects| && GoodCall(c.objects[slot], methodId, args)
    ensures PendingGeneric(Call(env, c, slot, methodId, args, no))
  {
    hide Find, FindObject, CallArgs, AllSends, Fits, Known;
  }

  lemma ReceiveSends(c: ClientState, m: Msg)
    requires ToClient(m)
    ensures var c' := Receive(c, m).1;
            && Continues(c.out, c'.out)
            && (forall i :: |c.out| <= i < |c'.out| ==> !c'.out[i].msg.RoundtripRequest?)
            && c'.lastSent == c.lastSent && c'.pending == c.pending
            && c'.lastAcked == (if m.RoundtripDone? then m.seqNo else c.lastAcked)
  {
    hide ParseSpecs, IndexOfSeq, IndexOfObject, CallOf, FdTotal;
  }

  // ---- the invariant ------------------------------------------------------------------------

  /** Requests are numbered upwards and their numbers do not exceed the last one used. */
  ghost predicate Requests(c: ClientState) {
    && c.lastSent <= MAX
    && (forall i :: 0 <= i < |c.out| && c.out[i].msg.RoundtripRequest? ==> 1 <= c.out[i].msg.seqNo <= c.lastSent)
    && (forall i, j :: 0 <= i < j < |c.out| && c.out[i].msg.RoundtripRequest? && c.out[j].msg.RoundtripRequest? ==>
          c.out[i].msg.seqNo < c.out[j].msg.seqNo)
  }

  /** The request numbered `n` is among the first `upTo` messages of the client. */
  ghost predicate Asked(out: seq<Sent>, upTo: nat, n: nat) {
    exists i :: 0 <= i < upTo && i < |out| && out[i].msg.RoundtripRequest? && out[i].msg.seqNo == n
  }

  ghost predicate Positions(st: State) {
    && st.sDone <= st.sIn <= |st.client.out| && st.cDone <= st.cIn <= |st.server.out|
    && |st.causes| == |st.server.out|
    && (forall j :: 0 <= j < |st.causes| ==> st.causes[j] <= st.sDone)
    && (forall j, k :: 0 <= j < k < |st.causes| ==> st.causes[j] <= st.causes[k])
  }

  ghost predicate Answers(st: State) {
    && (st.server.scheduled == 0 || (st.server.scheduled <= MAX && Asked(st.client.out, st.sDone, st.server.scheduled)))
    && (forall j :: 0 <= j < |st.server.out| && j < |st.causes| && st.server.out[j].RoundtripDone? ==>
          Asked(st.client.out, st.causes[j], st.server.out[j].seqNo))
    && (st.client.lastAcked == 0
        || exists j :: 0 <= j < st.cDone && j < |st.server.out|
            && st.server.out[j] == RoundtripDone(Low32(st.client.lastAcked))
                       && st.client.lastAcked <= MAX)
  }

  ghost predicate Inv(st: State) {
    Requests(st.client) && Positions(st) && Answers(st) && PendingGeneric(st.client)
  }

  lemma AskedLater(out: seq<Sent>, upTo: nat, n: nat, out': seq<Sent>, upTo': nat)
    requires Asked(out, upTo, n) && Continues(out, out') && upTo <= upTo'
    ensures Asked(out', upTo', n)
  {
    var i :| 0 <= i < upTo && i < |out| && out[i].msg.RoundtripRequest? && out[i].msg.seqNo == n;
    assert out'[i].msg.RoundtripRequest? && out'[i].msg.seqNo == n;
  }

  lemma ClientSends(st: State, c': ClientState)
    requires Inv(st) && SendsNoRequest(st.client, c') && PendingGeneric(c')
    ensures Inv(st.(client := c'))
  {
    var st' := st.(client := c');
    ClientExtends(st, c');
  }

  /** A client that has only sent more, and acknowledged nothing, keeps the answers. */
  lemma ClientExtends(st: State, c': ClientState)
    requires Positions(st) && Answers(st) && Continues(st.client.out, c'.out) && c'.lastAcked == st.client.lastAcked
    ensures Positions(st.(client := c')) && Answers(st.(client := c'))
  {
    hide Asked;
    var st' := st.(client := c');
    if st.server.scheduled != 0 { AskedLater(st.client.out, st.sDone, st.server.scheduled, c'.out, st.sDone); }
    forall j | 0 <= j < |st.server.out| && j < |st.causes| && st.server.out[j].RoundtripDone?
      ensures Asked(c'.out, st.causes[j], st.server.out[j].seqNo)
    {
      AskedLater(st.client.out, st.causes[j], st.server.out[j].seqNo, c'.out, st.causes[j]);
    }
  }

  lemma AskKeeps(st: State)
    requires Inv(st) && Room(st)
    ensures Inv(st.(client := Roundtrip(st.client)))
  {
    hide Positions, Answers;
    ClientExtends(st, Roundtrip(st.client));
  }

  lemma FlushKeeps(st: State)
    requires Inv(st)
    ensures Inv(st.(client := ClientModel.Flush(st.client), cBusy := false))
  {
    hide Kept, Released, AnyWide, Requests, Positions, Answers;
    ReleasedHasNoRequest(st.client.objects, st.client.pending);
    KeptIsPending(st.client.objects, st.client.pending);
    var c' := ClientModel.Flush(st.client);
    assert SendsNoRequest(st.client, c') by {
      forall i | |st.client.out| <= i < |c'.out| ensures !c'.out[i].msg.RoundtripRequest? {
        assert c'.out[i] in Released(st.client.objects, st.client.pending);
      }
    }
    ClientSends(st, c');
    BusyIsNoMatter(st.(client := c'));
  }

  lemma BusyIsNoMatter(st: State)
    requires Inv(st)
    ensures Inv(st.(cBusy := false)) && Inv(st.(sBusy := false)) && Inv(st.(client := Disconnect(st.client)))
  {
    ClientExtends(st, Disconnect(st.client));
  }

  lemma TakeKeeps(w: World, st: State)
    requires Inv(st) && Enabled(w, st, ClientTake)
    ensures Inv(Apply(w, st, ClientTake))
  {
    hide Receive, Room, Inv, ToClient;
    var m := st.server.out[st.cDone];
    var (ok, c) := Receive(st.client, m);
    ReceiveSends(st.client, m);
    Taken(st, c);
    var st1 := st.(client := c, cDone := st.cDone + 1);
    if !ok { BusyIsNoMatter(st1); BusyIsNoMatter(st1.(client := Disconnect(c))); }
  }

  lemma Taken(st: State, c: ClientState)
    requires Inv(st) && st.cDone < st.cIn <= |st.server.out|
    requires Continues(st.client.out, c.out) && c.lastSent == st.client.lastSent && c.pending == st.client.pending
    requires forall i :: |st.client.out| <= i < |c.out| ==> !c.out[i].msg.RoundtripRequest?
    requires var m := st.server.out[st.cDone]; c.lastAcked == (if m.RoundtripDone? then
          m.seqNo else st.client.lastAcked)
    ensures Inv(st.(client := c, cDone := st.cDone + 1))
  {
    hide Answers;
    ClientExtends(st, c.(lastAcked := st.client.lastAcked));
    AckStep(st, c);
  }

  lemma AckStep(st: State, c: ClientState)
    requires st.cDone < |st.server.out| && Answers(st.(client := c.(lastAcked := st.client.lastAcked)))
    requires var m := st.server.out[st.cDone]; c.lastAcked == (if m.RoundtripDone? then
          m.seqNo else st.client.lastAcked)
    ensures Answers(st.(client := c, cDone := st.cDone + 1))
  {
    hide Asked;
    var m := st.server.out[st.cDone];
    if m.RoundtripDone? { assert st.server.out[st.cDone] == RoundtripDone(Low32(c.lastAcked)); }
  }

  /** The server has sent more; every DONE among it answers a request handled by then. */
  lemma ServerSends(st: State, s': ServerState, cause: nat, done: nat)
    requires Inv(st) && st.server.out <= s'.out && st.sDone <= cause == done <= st.sIn
    requires s'.scheduled == 0 || (s'.scheduled <= MAX && Asked(st.client.out, done, s'.scheduled))
    requires forall j :: |st.server.out| <= j < |s'.out| && s'.out[j].RoundtripDone? ==>
          Asked(st.client.out, cause, s'.out[j].seqNo)
    ensures Inv(WithServer(st, s', cause).(sDone := done))
  {
    hide Asked;
    var st' := WithServer(st, s', cause).(sDone := done);
    assert Positions(st');
    forall j | 0 <= j < |s'.out| && j < |st'.causes| && s'.out[j].RoundtripDone?
      ensures Asked(st'.client.out, st'.causes[j], s'.out[j].seqNo)
    {
      if j < |st.server.out| { assert s'.out[j] == st.server.out[j] && st'.causes[j] == st.causes[j]; }
    }
    if st.client.lastAcked != 0 {
      var j :| 0 <= j < st.cDone && j < |st.server.out|
            && st.server.out[j] == RoundtripDone(Low32(st.client.lastAcked));
      assert s'.out[j] == st.server.out[j];
    }
  }

  lemma HandleAnswersNothing(env: ServerEnv, s: ServerState, m: Msg)
    requires ToServer(m)
    ensures var s' := Handle(env, s, m);
            && s.out <= s'.out
            && (forall j :: |s.out| <= j < |s'.out| ==> !s'.out[j].RoundtripDone?)
            && s'.scheduled == (if m.RoundtripRequest? then m.seqNo else s.scheduled)
  {
    hide Find, SpecFor, CallOf, FdTotal, IndexOfId;
  }

  lemma ServerTakeKeeps(w: World, st: State)
    requires Inv(st) && Enabled(w, st, ServerTake)
    ensures Inv(Apply(w, st, ServerTake))
  {
    hide Handle, Room, Requests, WithServer;
    var m := st.client.out[st.sDone].msg;
    if Malformed(m) {
      Rejected(st);
      return;
    }
    var s' := Handle(w.senv, st.server, m);
    HandleAnswersNothing(w.senv, st.server, m);
    if m.RoundtripRequest? {
      assert Asked(st.client.out, st.sDone + 1, m.seqNo) by { assert st.client.out[st.sDone].msg == m; }
    } else if st.server.scheduled != 0 {
      AskedLater(st.client.out, st.sDone, st.server.scheduled, st.client.out, st.sDone + 1);
    }
    ServerSends(st, s', st.sDone + 1, st.sDone + 1);
  }

  lemma Rejected(st: State)
    requires Inv(st)
    ensures Inv(WithServer(st, Reject(st.server), st.sDone).(sBusy := false))
  {
    hide Requests, Asked;
    ServerSends(st, Reject(st.server), st.sDone, st.sDone);
    BusyIsNoMatter(WithServer(st, Reject(st.server), st.sDone).(sDone := st.sDone));
  }

  lemma ServerFinishKeeps(w: World, st: State)
    requires Inv(st) && Enabled(w, st, ServerFinish)
    ensures Inv(Apply(w, st, ServerFinish))
  {
    hide Room, Requests, Asked, LeftoverFds;
    var s' := FinishServer(st);
    assert forall j :: |st.server.out| <= j < |s'.out| && s'.out[j].RoundtripDone? ==>
          s'.out[j].seqNo == st.server.scheduled;
    ServerSends(st, s', st.sDone, st.sDone);
    BusyIsNoMatter(WithServer(st, s', st.sDone).(sDone := st.sDone));
  }

  lemma ServerSpeaksKeeps(w: World, st: State, step: Step)
    requires Inv(st) && Enabled(w, st, step) && (step.ServerSend? || step.ServerComplain?)
    ensures Inv(Apply(w, st, step))
  {
    hide Room, Requests, Asked;
    var s' := if step.ServerSend? then Sending(st.server, step.msg) else Complain(st.server, st.server.objects[step.k]);
    ServerSends(st, s', st.sDone, st.sDone);
  }

  lemma StepKeeps(w: World, st: State, step: Step)
    requires Inv(st) && Enabled(w, st, step)
    ensures Inv(Apply(w, st, step))
  {
    hide Handle, Receive, Call, ClientModel.Flush, ClientModel.Bind, FinishServer, Requests, Answers, PendingGeneric;
    match step {
      case Bind(p, version) =>
        BindSends(w.cenv, st.client, p, version);
        ClientSends(st, ClientModel.Bind(w.cenv, st.client, p, version));
      case CallOutside(slot, methodId, args) =>
        var c := st.client.(callNo := st.client.callNo + 1);
        CountIsNoMatter(st.client, c);
        CallSendsNoRequest(w.cenv, c, slot, methodId, args, c.callNo);
        CallKeepsPendingGeneric(w.cenv, c, slot, methodId, args, c.callNo);
        ClientSends(st, Call(w.cenv, c, slot, methodId, args, c.callNo));
      case AskRoundtrip => AskKeeps(st);
      case ClientReceive(upTo) => ReceiveMore(st, upTo, st.sIn);
      case ClientTake => TakeKeeps(w, st);
      case CallInListener(slot, methodId, args) =>
        var c := st.client.(callNo := st.client.callNo + 1);
        CountIsNoMatter(st.client, c);
        CallSendsNoRequest(w.cenv, c, slot, methodId, args, Inside(c.callNo));
        CallKeepsPendingGeneric(w.cenv, c, slot, methodId, args, Inside(c.callNo));
        ClientSends(st, Call(w.cenv, c, slot, methodId, args, Inside(c.callNo)));
      case ClientFinish => FlushKeeps(st);
      case ClientDrop => BusyIsNoMatter(st);
      case ServerReceive(upTo) => ReceiveMore(st, st.cIn, upTo);
      case ServerTake => ServerTakeKeeps(w, st);
      case ServerSend(_) => ServerSpeaksKeeps(w, st, step);
      case ServerComplain(_) => ServerSpeaksKeeps(w, st, step);
      case ServerFinish => ServerFinishKeeps(w, st);
    }
  }

  lemma CountIsNoMatter(c: ClientState, c': ClientState)
    requires c' == c.(callNo := c.callNo + 1)
    ensures PendingGeneric(c) ==> PendingGeneric(c')
    ensures forall d :: SendsNoRequest(c', d) ==> SendsNoRequest(c, d)
  {}

  lemma BindSends(env: ClientEnv, c: ClientState, p: Protocol, version: nat)
    requires p.objects != []
    ensures SendsNoRequest(c, ClientModel.Bind(env, c, p, version))
    ensures PendingGeneric(c) ==> PendingGeneric(ClientModel.Bind(env, c, p, version))
  {}

  lemma ReceiveMore(st: State, cIn: nat, sIn: nat)
    requires Inv(st) && st.cIn <= cIn <= |st.server.out| && st.sIn <= sIn <= |st.client.out|
    ensures forall c, s, from :: Inv(st.(cIn := cIn, sFrom := from, sIn := sIn, cBusy := c, sBusy := s))
  {}

  lemma {:induction false} RunKeeps(w: World, st: State, steps: seq<Step>, end: State)
    requires Inv(st) && Runs(w, st, steps, end)
    ensures Inv(end)
    decreases |steps|
  {
    hide Inv, Apply, Enabled;
    if steps != [] {
      StepKeeps(w, st, steps[0]);
      RunKeeps(w, Apply(w, st, steps[0]), steps[1..], end);
    }
  }

  lemma InitInv()
    ensures Inv(Init)
  {}

  lemma NumbersArePositive(st: State)
    requires Inv(st)
    ensures forall i :: 0 <= i < |st.client.out| && st.client.out[i].msg.RoundtripRequest? ==>
          st.client.out[i].msg.seqNo >= 1
  {}

  lemma AckedIsSent(st: State)
    requires Inv(st)
    ensures st.client.lastAcked <= st.client.lastSent
  {
    if st.client.lastAcked != 0 { var i0, j0 := Acknowledged(st); }
  }

  /**
    In every reachable state, a roundtrip acknowledged up to `n` or further means that the server has
    handled every message the client put on the wire before request n, and the client every message
    the server sent in answer to them. Nothing is acknowledged that was not asked for.
   */
  lemma RoundtripFlushes(w: World, steps: seq<Step>, st: State)
    requires Runs(w, Init, steps, st)
    ensures st.client.lastAcked <= st.client.lastSent
    ensures forall i :: 0 <= i < |st.client.out| && st.client.out[i].msg.RoundtripRequest?
                        && st.client.out[i].msg.seqNo <= st.client.lastAcked ==>
              && i < st.sDone
              && |st.causes| == |st.server.out|
              && forall j :: 0 <= j < |st.causes| && st.causes[j] <= i ==> j < st.cDone
  {
    hide Requests, Answers, PendingGeneric;
    InitInv();
    RunKeeps(w, Init, steps, st);
    AckedIsSent(st);
    NumbersArePositive(st);
    var n := st.client.lastAcked;
    if n != 0 {
      var i0, j0 := Acknowledged(st);
      forall i | 0 <= i < |st.client.out| && st.client.out[i].msg.RoundtripRequest? && st.client.out[i].msg.seqNo <= n
        ensures i <= i0 < st.sDone && forall j :: 0 <= j < |st.causes| && st.causes[j] <= i ==> j < st.cDone
      {
        InOrder(st, i, i0);
        CausesBefore(st, i, i0, j0);
      }
    }
  }

  /** The last request acknowledged, and the message that did so. */
  lemma Acknowledged(st: State) returns (i0: nat, j0: nat)
    requires Inv(st) && st.client.lastAcked != 0
    ensures j0 < st.cDone && j0 < |st.causes| && i0 < st.causes[j0] <= st.sDone && i0 < |st.client.out|
    ensures st.client.out[i0].msg == RoundtripRequest(Low32(st.client.lastAcked)) && st.client.lastAcked <= MAX
  {
    hide Requests, PendingGeneric;
    j0 :| 0 <= j0 < st.cDone && j0 < |st.server.out| && st.server.out[j0] == RoundtripDone(Low32(st.client.lastAcked))
          && st.client.lastAcked <= MAX;
    assert Asked(st.client.out, st.causes[j0], st.client.lastAcked);
    i0 :| 0 <= i0 < st.causes[j0] && i0 < |st.client.out| && st.client.out[i0].msg.RoundtripRequest?
          && st.client.out[i0].msg.seqNo == st.client.lastAcked;
  }

  lemma InOrder(st: State, i: nat, i0: nat)
    requires Inv(st) && i < |st.client.out| && i0 < |st.client.out|
    requires st.client.out[i].msg.RoundtripRequest? && st.client.out[i0].msg.RoundtripRequest?
    requires st.client.out[i].msg.seqNo <= st.client.out[i0].msg.seqNo
    ensures i <= i0
  {
    hide Positions, Answers, PendingGeneric;
  }

  lemma CausesBefore(st: State, i: nat, i0: nat, j0: nat)
    requires Inv(st) && i <= i0 && j0 < st.cDone && j0 < |st.causes| && i0 < st.causes[j0]
    ensures forall j :: 0 <= j < |st.causes| && st.causes[j] <= i ==> j < st.cDone
  {
    hide Requests, Answers, PendingGeneric;
  }
}
