/**
  What every run moves towards: a server that creates what it is asked for answers each request on
  the wire, each answer gives an object its id, and chains of objects created on one another resolve.
 */
module Progress {
  import opened WireFormat
  import opened Marshal
  import opened Calls
  import opened Spec
  import opened Messages
  import opened ServerModel
  import opened ClientModel
  import opened TwoParty
  import opened ObjectAgreement
  import opened Chains
  import RoundtripSafety
  import Deferral

  // ---- what no step takes back --------------------------------------------------------------------

  /** Objects keep their places and sequences, and their ids once they have one. */
  ghost predicate OnlyAdds(a: ClientState, b: ClientState) {
    && |a.objects| <= |b.objects| && a.seqNo <= b.seqNo
    && (forall i :: 0 <= i < |a.objects| ==>
          b.objects[i].seqNo == a.objects[i].seqNo && (a.objects[i].id != 0 ==> b.objects[i].id != 0))
    && (forall i :: |a.objects| <= i < |b.objects| ==> b.objects[i].seqNo > a.seqNo)
  }

  ghost predicate ClientGrows(a: ClientState, b: ClientState) {
    && OnlyAdds(a, b) && Continues(a.out, b.out)
    && (a.truncated ==> b.truncated) && (b.connected ==> a.connected)
  }

  ghost predicate ServerGrows(a: ServerState, b: ServerState) { Continues(a.out, b.out) && (a.error ==> b.error) }

  ghost predicate Grows(a: State, b: State) {
    ClientGrows(a.client, b.client) && ServerGrows(a.server, b.server) && a.sDone <= b.sDone && a.cDone <= b.cDone
  }

  lemma GrowsOn(a: State, b: State, c: State)
    requires Grows(a, b) && Grows(b, c)
    ensures Grows(a, c)
  {}

  lemma CallGrows(env: ClientEnv, c: ClientState, slot: nat, methodId: nat, args: seq<CallArg>, no: int)
    requires slot < |c.objects| && GoodCall(c.objects[slot], methodId, args)
    ensures ClientGrows(c, Call(env, c, slot, methodId, args, no))
  {
    hide CallMessage, Fits, Known, AllShort, Find, FindObject, Listeners;
  }

  lemma BindGrows(env: ClientEnv, c: ClientState, p: Protocol, version: nat)
    requires p.objects != []
    ensures ClientGrows(c, ClientModel.Bind(env, c, p, version))
  {
    hide Listeners;
  }

  lemma OnSeqGrows(c: ClientState, seqNo: nat, id: nat)
    requires id != 0
    ensures ClientGrows(c, OnSeq(c, seqNo, id))
  {}

  lemma ReceiveGrows(c: ClientState, m: Msg)
    requires ToClient(m) && (m.NewObject? ==> m.id != 0)
    ensures ClientGrows(c, Receive(c, m).1)
  {
    hide ParseSpecs, IndexOfObject, CallOf, FdTotal, OnSeq;
    if m.NewObject? { OnSeqGrows(c, m.seqNo, m.id); }
  }

  lemma HandleGrows(env: ServerEnv, s: ServerState, m: Msg)
    requires ToServer(m)
    ensures ServerGrows(s, Handle(env, s, m))
  {
    hide Find, SpecFor, CallOf, FdTotal, IndexOfId, SpecStrings, ListenersFor;
  }

  lemma ServerStepGrows(w: World, st: State, step: Step)
    requires Enabled(w, st, step)
    requires step.ServerReceive? || step.ServerTake? || step.ServerSend? || step.ServerComplain? || step.ServerFinish?
    ensures Grows(st, Apply(w, st, step))
  {
    hide Handle, ToServer, LeftoverFds;
    if step.ServerTake? { HandleGrows(w.senv, st.server, st.client.out[st.sDone].msg); }
  }

  lemma StepGrows(w: World, st: State, step: Step)
    requires ObjectAgreement.Inv(w, st) && Enabled(w, st, step)
    ensures Grows(st, Apply(w, st, step))
  {
    hide ObjectAgreement.Inv, Call, ClientModel.Bind, Receive, Handle, FinishServer, ToClient, ToServer, GoodCall, Find,
      Released, Kept, AnyWide, Reject;
    match step {
      case Bind(p, version) => BindGrows(w.cenv, st.client, p, version);
      case CallOutside(slot, methodId, args) =>
        var c := st.client.(callNo := st.client.callNo + 1);
        CallGrows(w.cenv, c, slot, methodId, args, c.callNo);
      case CallInListener(slot, methodId, args) =>
        var c := st.client.(callNo := st.client.callNo + 1);
        CallGrows(w.cenv, c, slot, methodId, args, Inside(c.callNo));
      case ClientTake =>
        AnswerHasId(w, st);
        ReceiveGrows(st.client, st.server.out[st.cDone]);
      case AskRoundtrip =>
      case ClientReceive(_) =>
      case ClientFinish =>
      case ClientDrop =>
      case _ => ServerStepGrows(w, st, step);
    }
  }

  lemma AnswerHasId(w: World, st: State)
    requires ObjectAgreement.Inv(w, st) && st.cDone < |st.server.out|
    ensures st.server.out[st.cDone].NewObject? ==> st.server.out[st.cDone].id != 0
  {
    if st.server.out[st.cDone].NewObject? { ReplyNames(w, st, st.cDone); }
  }

  // ---- answers ------------------------------------------------------------------------------------

  /** Whatever a method is declared to return the protocol declares, and somebody listens to the method. */
  ghost predicate Obliging(w: World) {
    forall p, o, k :: p in w.senv.protocols && o in p.objects && 0 <= k < |o.c2s| && o.c2s[k].returnsType != [] ==>
      FindObject(p.objects, o.c2s[k].returnsType).Some? && Listened(ListenersFor(w.senv, p.name, o), k)
  }

  /** The answer to the request of sequence `n` is on the wire. */
  ghost predicate Answered(out: seq<Msg>, n: nat) {
    exists j :: 0 <= j < |out| && out[j].NewObject? && out[j].seqNo == n
  }

  /** The server has answered every request for an object it has handled. */
  ghost predicate Answering(st: State) {
    !st.server.error && !st.client.truncated ==>
      forall k :: 0 <= k < st.sDone && k < |st.client.out| && NewSeq(st.client.out[k].msg) != 0 ==>
        Answered(st.server.out, NewSeq(st.client.out[k].msg))
  }

  /** The objects the client has heard an answer for have their ids. */
  ghost predicate Hearing(st: State) {
    forall j, i :: 0 <= j < st.cDone && j < |st.server.out| && st.server.out[j].NewObject?
                   && 0 <= i < |st.client.objects| && st.client.objects[i].seqNo == st.server.out[j].seqNo ==>
      st.client.objects[i].id != 0
  }

  lemma AnsweredStill(out: seq<Msg>, out': seq<Msg>, n: nat)
    requires Answered(out, n) && Continues(out, out')
    ensures Answered(out', n)
  {
    var j :| 0 <= j < |out| && out[j].NewObject? && out[j].seqNo == n;
    assert out'[j].NewObject? && out'[j].seqNo == n;
  }

  lemma AnsweringStill(st: State, st': State)
    requires Answering(st) && Grows(st, st') && st'.sDone == st.sDone <= |st.client.out|
    ensures Answering(st')
  {
    hide Answered, NewSeq;
    if !st'.server.error && !st'.client.truncated {
      forall k | 0 <= k < st'.sDone && k < |st'.client.out| && NewSeq(st'.client.out[k].msg) != 0
        ensures Answered(st'.server.out, NewSeq(st'.client.out[k].msg))
      {
        assert st'.client.out[k] == st.client.out[k];
        AnsweredStill(st.server.out, st'.server.out, NewSeq(st.client.out[k].msg));
      }
    }
  }

  lemma SeqMeansReturn(d: Method, m: Msg)
    requires m.Generic? && Marshalled(d, m) && NewSeq(m) != 0
    ensures d.returnsType != []
  {
    hide Known, Fits, AllShort, CallArgs, AllSends, NewSeq;
    var returnSeq, args :| MarshalledFrom(d, m, returnSeq, args);
    CallNewSeq(d, returnSeq, args, m.objectId, m.methodId);
  }

  /** A call of a method that returns an object is delivered, and the object can be created. */
  lemma CreatingCall(w: World, st: State)
    requires ObjectAgreement.Inv(w, st) && Obliging(w) && !st.client.truncated
    requires st.sDone < |st.client.out| && st.client.out[st.sDone].msg.Generic?
    ensures var m := st.client.out[st.sDone].msg; var i := IndexOfId(st.server.objects, m.objectId);
            && i < |st.server.objects| && st.server.objects[i].spec.Some? && FdTotal(m.args) <= |m.fds|
            && var o := st.server.objects[i]; var methods := o.spec.value.c2s;
            && m.methodId < |methods|
            && var r := CallOf(methods, o.listeners, o.version, m.methodId, m.args, m.fds);
            && (r.Delivered? || r.NotListened?)
            && (NewSeq(m) != 0 ==> methods[m.methodId].returnsType != [])
            && (methods[m.methodId].returnsType != [] ==>
                  r.Delivered? && Creatable(w.senv, o.protocol, methods[m.methodId].returnsType, o.version))
  {
    hide ObjectAgreement.Inv, GenericOk, CallOf, IndexOfId, MarshalledFrom, FdTotal, CallValues, NewSeq, Find,
      FindObject, ListenersFor;
    Addressee(w, st);
    var x := st.client.out[st.sDone];
    var o := st.server.objects[x.msg.objectId - 1];
    var returnSeq, args := Witness(w, st.client, x);
    DeliveredAsMarshalled(o.spec.value.c2s, o.listeners, o.version, x.msg, returnSeq, args);
    var d := o.spec.value.c2s[x.msg.methodId];
    if NewSeq(x.msg) != 0 { SeqMeansReturn(d, x.msg); }
    var p := Find(w.senv.protocols, o.protocol);
    assert p.value in w.senv.protocols && o.spec.value in p.value.objects;
  }

  /** What the server does for a request, unless it runs into an error. */
  lemma RequestIsAnswered(w: World, st: State)
    requires ObjectAgreement.Inv(w, st) && Obliging(w) && !st.client.truncated && !st.server.error
    requires st.sDone < |st.client.out| && ToServer(st.client.out[st.sDone].msg)
    ensures var m := st.client.out[st.sDone].msg; var s' := Handle(w.senv, st.server, m);
            && (NewSeq(m) != 0 && !s'.error ==> Answered(s'.out, NewSeq(m)))
            && (s'.error ==> m.BindProtocol? && !Creatable(w.senv, m.protocol, [], m.version))
  {
    hide ObjectAgreement.Inv, CallOf, IndexOfId, FdTotal, Creatable, Made, SpecStrings, Obliging, Answered;
    var m := st.client.out[st.sDone].msg;
    var s' := Handle(w.senv, st.server, m);
    if m.Generic? {
      CreatingCall(w, st);
      if NewSeq(m) != 0 { LastAnswers(s'.out, NewSeq(m)); }
    } else if m.BindProtocol? && !s'.error {
      LastAnswers(s'.out, NewSeq(m));
    }
  }

  lemma LastAnswers(out: seq<Msg>, n: nat)
    requires out != [] && out[|out| - 1].NewObject? && out[|out| - 1].seqNo == n
    ensures Answered(out, n)
  {}

  lemma TakeAnswers(w: World, st: State)
    requires ObjectAgreement.Inv(w, st) && Obliging(w) && Answering(st) && Enabled(w, st, ServerTake)
    ensures Answering(Apply(w, st, ServerTake))
  {
    hide ObjectAgreement.Inv, Obliging, Handle, NewSeq, Answered, Grows;
    var st' := Apply(w, st, ServerTake);
    StepGrows(w, st, ServerTake);
    var m := st.client.out[st.sDone].msg;
    if !st'.server.error && !st'.client.truncated {
      assert !Malformed(m) && st'.server == Handle(w.senv, st.server, m);
      RequestIsAnswered(w, st);
      forall k | 0 <= k < st'.sDone && k < |st'.client.out| && NewSeq(st'.client.out[k].msg) != 0
        ensures Answered(st'.server.out, NewSeq(st'.client.out[k].msg))
      {
        if k < st.sDone {
          ServerGrew(st, st');
          AnsweredStill(st.server.out, st'.server.out, NewSeq(st.client.out[k].msg));
        }
      }
    }
  }

  lemma ServerGrew(a: State, b: State)
    requires Grows(a, b)
    ensures Continues(a.server.out, b.server.out) && (!b.server.error ==> !a.server.error)
  {}

  // ---- ids ----------------------------------------------------------------------------------------

  /** No answer is for a sequence the client has not used. */
  lemma AnswerIsOld(w: World, st: State, j: nat)
    requires ObjectAgreement.Inv(w, st) && j < |st.server.out| && st.server.out[j].NewObject?
    ensures st.server.out[j].seqNo <= st.client.seqNo
  {
    hide Table, Replies, Resolved, Kinds, Frames, ClientSeqs, NewSeq;
    ReplyNames(w, st, j);
    var m := st.server.out[j];
    assert st.server.objects[m.id - 1].born == m.seqNo;
    if m.seqNo != 0 {
      var i :| 0 <= i < st.sDone && i < |st.client.out| && NewSeq(st.client.out[i].msg) == m.seqNo;
      NewSeqBound(st.client, i);
    }
  }

  lemma HearingStill(w: World, st: State, st': State)
    requires ObjectAgreement.Inv(w, st) && Hearing(st) && Grows(st, st') && st'.cDone == st.cDone <= |st.server.out|
    ensures Hearing(st')
  {
    hide ObjectAgreement.Inv;
    forall j, i | 0 <= j < st'.cDone && j < |st'.server.out| && st'.server.out[j].NewObject?
                  && 0 <= i < |st'.client.objects| && st'.client.objects[i].seqNo == st'.server.out[j].seqNo
      ensures st'.client.objects[i].id != 0
    {
      assert st.server.out[j] == st'.server.out[j];
      AnswerIsOld(w, st, j);
    }
  }

  lemma TakeHears(w: World, st: State)
    requires ObjectAgreement.Inv(w, st) && Hearing(st) && Enabled(w, st, ClientTake)
    ensures Hearing(Apply(w, st, ClientTake))
  {
    hide ObjectAgreement.Inv, Receive, ToClient;
    var m, st' := st.server.out[st.cDone], Apply(w, st, ClientTake);
    StepGrows(w, st, ClientTake);
    Deferral.ReceiveShape(st.client, m);
    Deferral.SeqsHold(w, st);
    if m.NewObject? { AnswerHasId(w, st); IdArrives(st.client, m); }
    forall j, i | 0 <= j < st'.cDone && j < |st'.server.out| && st'.server.out[j].NewObject?
                  && 0 <= i < |st'.client.objects| && st'.client.objects[i].seqNo == st'.server.out[j].seqNo
      ensures st'.client.objects[i].id != 0
    {
      if j < st.cDone { assert st.server.out[j] == st'.server.out[j]; }
    }
  }

  lemma IdArrives(c: ClientState, m: Msg)
    requires ToClient(m) && m.NewObject? && m.id != 0 && ClientSeqs(c)
    ensures var c' := Receive(c, m).1;
            && Receive(c, m).0
            && forall i :: 0 <= i < |c'.objects| && c'.objects[i].seqNo == m.seqNo ==> c'.objects[i].id != 0
  {}

  // ---- all runs -----------------------------------------------------------------------------------

  ghost predicate Live(w: World, st: State) {
    && WellFormed(w) && Obliging(w)
    && ObjectAgreement.Inv(w, st) && RoundtripSafety.Inv(st) && Chains.Inv(st) && Answering(st) && Hearing(st)
  }

  lemma StepLives(w: World, st: State, step: Step)
    requires Live(w, st) && Enabled(w, st, step)
    ensures Live(w, Apply(w, st, step)) && Grows(st, Apply(w, st, step))
  {
    hide WellFormed, Obliging, ObjectAgreement.Inv, RoundtripSafety.Requests, RoundtripSafety.Answers, Chains.Inv,
      Answering, Hearing, Grows, Handle, Receive, Call, GoodCall, ClientModel.Bind, FinishServer, ToClient,
      ToServer, Reject, Find;
    var st' := Apply(w, st, step);
    ObjectAgreement.StepKeeps(w, st, step);
    RoundtripSafety.StepKeeps(w, st, step);
    Deferral.SeqsHold(w, st');
    Chains.StepKeeps(w, st, step);
    StepGrows(w, st, step);
    if step.ServerTake? { TakeAnswers(w, st); } else { AnsweringStill(st, st'); }
    if step.ClientTake? { TakeHears(w, st); } else { HearingStill(w, st, st'); }
  }

  lemma {:induction false} RunLives(w: World, st: State, steps: seq<Step>, end: State)
    requires Live(w, st) && Runs(w, st, steps, end)
    ensures Live(w, end) && Grows(st, end)
    decreases |steps|
  {
    hide Live, Enabled, Apply, Grows;
    if steps == [] {
      GrowsNot(st);
    } else {
      StepLives(w, st, steps[0]);
      RunLives(w, Apply(w, st, steps[0]), steps[1..], end);
      GrowsOn(st, Apply(w, st, steps[0]), end);
    }
  }

  lemma GrowsNot(st: State)
    ensures Grows(st, st)
  {}

  lemma Lives(w: World, before: seq<Step>, st: State)
    requires WellFormed(w) && Obliging(w) && Runs(w, Init, before, st)
    ensures Live(w, st)
  {
    hide WellFormed, Obliging, ObjectAgreement.Inv, RoundtripSafety.Inv, Chains.Inv, Runs;
    ObjectAgreement.InitInv(w);
    RoundtripSafety.InitInv();
    ChainsBegin();
    RunLives(w, Init, before, st);
  }

  lemma ChainsBegin()
    ensures Chains.Inv(Init)
  {}

  // ---- laps ---------------------------------------------------------------------------------------

  /**
    A stretch of a run, whatever happens on it: at `mid` the server has handled all that was on the wire
    at the beginning, and at `end` the client is idle and has handled all that was on the wire at `mid`.
   */
  datatype Lap = Lap(there: seq<Step>, mid: State, back: seq<Step>, end: State)

  ghost predicate IsLap(w: World, st: State, lap: Lap) {
    && Runs(w, st, lap.there, lap.mid) && Runs(w, lap.mid, lap.back, lap.end)
    && lap.mid.sDone >= |st.client.out| && lap.end.cDone >= |lap.mid.server.out|
    && !lap.end.cBusy
  }

  /** The laps follow one another. */
  ghost predicate AreLaps(w: World, st: State, laps: seq<Lap>)
    decreases |laps|
  {
    laps == [] || (IsLap(w, st, laps[0]) && AreLaps(w, laps[0].end, laps[1..]))
  }

  function EndOf(st: State, laps: seq<Lap>): State { if laps == [] then st else laps[|laps| - 1].end }

  lemma {:induction false} SentAt(out: seq<Sent>, n: nat) returns (k: nat)
    requires n in SeqsSent(out)
    ensures k < |out| && NewSeq(out[k].msg) == n != 0
    decreases |out|
  {
    hide NewSeq;
    var last := |out| - 1;
    if n == NewSeq(out[last].msg) && n != 0 { k := last; } else { k := SentAt(out[..last], n); }
  }

  /** What was asked for on the wire before a lap has its id behind it. */
  lemma LapResolves(w: World, st: State, lap: Lap, i: nat)
    requires Live(w, st) && IsLap(w, st, lap) && !lap.end.server.error && !lap.end.client.truncated
    requires i < |st.client.objects| && st.client.objects[i].seqNo in SeqsSent(st.client.out)
    ensures i < |lap.end.client.objects| && lap.end.client.objects[i].id != 0
  {
    hide WellFormed, Obliging, ObjectAgreement.Inv, RoundtripSafety.Inv, Chains.Inv, Runs, SeqsSent, NewSeq;
    RunLives(w, st, lap.there, lap.mid);
    RunLives(w, lap.mid, lap.back, lap.end);
    var n := st.client.objects[i].seqNo;
    var k := SentAt(st.client.out, n);
    assert lap.mid.client.out[k] == st.client.out[k];
    assert Answered(lap.mid.server.out, n);
    var j :| 0 <= j < |lap.mid.server.out| && lap.mid.server.out[j].NewObject? && lap.mid.server.out[j].seqNo == n;
    assert lap.end.server.out[j] == lap.mid.server.out[j];
    assert lap.end.client.objects[i].seqNo == n;
  }

  lemma IdleIsDrainable(w: World, st: State)
    requires Live(w, st) && !st.cBusy && st.client.connected
    ensures Drainable(st.client)
  {
    hide WellFormed, Obliging, ObjectAgreement.Inv, RoundtripSafety.Inv, Deferral.Waits, Deferral.Quiet, AllAsked,
      ClientSeqs;
  }

  /** A lap leaves fewer of the first `n` objects without an id. */
  lemma LapHelps(w: World, st: State, lap: Lap, n: nat)
    requires Live(w, st) && !st.cBusy && st.client.connected && n <= |st.client.objects|
    requires IsLap(w, st, lap) && !lap.end.server.error && !lap.end.client.truncated
    ensures Live(w, lap.end) && Grows(st, lap.end) && n <= |lap.end.client.objects|
    ensures var before, after := Unresolved(st.client.objects[..n]), Unresolved(lap.end.client.objects[..n]);
            after <= before && (before > 0 ==> after < before)
  {
    hide Live, Runs, Unresolved, Drainable, SeqsSent;
    RunLives(w, st, lap.there, lap.mid);
    RunLives(w, lap.mid, lap.back, lap.end);
    GrowsOn(st, lap.mid, lap.end);
    var a, b := st.client.objects[..n], lap.end.client.objects[..n];
    FewerUnresolved(a, b, 0);
    if Unresolved(a) > 0 {
      var i := FirstUnresolved(a);
      IdleIsDrainable(w, st);
      forall k | 0 <= k < i ensures st.client.objects[k].id != 0 { assert a[k] == st.client.objects[k]; }
      FirstIsAsked(st.client, i);
      LapResolves(w, st, lap, i);
      FewerUnresolved(a, b, i);
    }
  }

  lemma {:induction false} LapsGrow(w: World, st: State, laps: seq<Lap>)
    requires Live(w, st) && AreLaps(w, st, laps)
    ensures Live(w, EndOf(st, laps)) && Grows(st, EndOf(st, laps))
    decreases |laps|
  {
    hide Live, Runs, Grows;
    GrowsNot(st);
    if laps != [] {
      var lap := laps[0];
      RunLives(w, st, lap.there, lap.mid);
      RunLives(w, lap.mid, lap.back, lap.end);
      GrowsOn(st, lap.mid, lap.end);
      LapsGrow(w, lap.end, laps[1..]);
      GrowsOn(st, lap.end, EndOf(st, laps));
    }
  }

  lemma {:induction false} LapsDrain(w: World, st: State, laps: seq<Lap>, n: nat)
    requires Live(w, st) && !st.cBusy && n <= |st.client.objects| && AreLaps(w, st, laps)
    requires var end := EndOf(st, laps); end.client.connected && !end.server.error && !end.client.truncated
    requires |laps| >= Unresolved(st.client.objects[..n])
    ensures n <= |EndOf(st, laps).client.objects| && Unresolved(EndOf(st, laps).client.objects[..n]) == 0
    decreases |laps|
  {
    hide Live, Unresolved, Runs;
    LapsGrow(w, st, laps);
    if laps != [] {
      var lap := laps[0];
      RunLives(w, st, lap.there, lap.mid);
      RunLives(w, lap.mid, lap.back, lap.end);
      LapsGrow(w, lap.end, laps[1..]);
      LapHelps(w, st, lap, n);
      LapsDrain(w, lap.end, laps[1..], n);
    }
  }

  /** Nothing waits for objects all of which have ids. */
  lemma NoneWaitsBelow(w: World, st: State, n: nat)
    requires Live(w, st) && !st.cBusy && st.client.connected && n <= |st.client.objects|
    requires Unresolved(st.client.objects[..n]) == 0
    ensures forall i :: 0 <= i < n ==> st.client.objects[i].id != 0
    ensures forall p :: p in st.client.pending ==> p.slot >= n
  {
    hide Live, Unresolved;
    forall i | 0 <= i < n ensures st.client.objects[i].id != 0 { NoneUnresolved(st.client.objects[..n], i); }
    IdleIsDrainable(w, st);
    forall p | p in st.client.pending ensures p.slot >= n {
      var j :| 0 <= j < |st.client.pending| && st.client.pending[j] == p;
      assert Deferral.WaitsWell(st.client, st.client.pending[j]);
    }
  }

  /**
    Over all runs with a server that creates what its protocols declare: as many laps from any idle
    state as there are objects without an id, however deep those were created on one another and
    whatever else is called meanwhile, and every one of them has its id and no message waits for it.
   */
  lemma ChainsDrain(w: World, before: seq<Step>, st: State, laps: seq<Lap>)
    requires WellFormed(w) && Obliging(w) && Runs(w, Init, before, st) && !st.cBusy
    requires AreLaps(w, st, laps) && |laps| >= Unresolved(st.client.objects)
    requires var end := EndOf(st, laps); end.client.connected && !end.server.error && !end.client.truncated
    ensures var c := EndOf(st, laps).client;
            && |c.objects| >= |st.client.objects|
            && (forall i :: 0 <= i < |st.client.objects| ==> c.objects[i].id != 0)
            && (forall p :: p in c.pending ==> p.slot >= |st.client.objects|)
  {
    hide WellFormed, Obliging, Live, Unresolved, Runs, IsLap;
    Lives(w, before, st);
    var n := |st.client.objects|;
    assert st.client.objects[..n] == st.client.objects;
    LapsDrain(w, st, laps, n);
    LapsGrow(w, st, laps);
    LapsEndIdle(w, st, laps);
    NoneWaitsBelow(w, EndOf(st, laps), n);
  }

  lemma {:induction false} LapsEndIdle(w: World, st: State, laps: seq<Lap>)
    requires AreLaps(w, st, laps) && !st.cBusy
    ensures !EndOf(st, laps).cBusy
    decreases |laps|
  {
    hide Runs;
    if laps != [] { LapsEndIdle(w, laps[0].end, laps[1..]); }
  }
}
