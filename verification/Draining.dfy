/**
  That chains of objects can always be drained: from every calm state there is a run, of reads and
  answers alone, behind which every object has its id and nothing waits. A client that has used fewer
  than 256 sequences is on the safe side of the one octet a deferred message has for its id.
 */
module Draining {
  import opened WireFormat
  import opened Demarshal
  import opened Marshal
  import opened Calls
  import opened Spec
  import opened Messages
  import opened ServerModel
  import opened ClientModel
  import opened TwoParty
  import opened ObjectAgreement
  import opened Chains
  import opened Progress
  import RoundtripSafety
  import Deferral
  import Handshake
  import Refinement

  // ---- as many objects as sequences ---------------------------------------------------------------

  /** Distinct numbers from 1 to `n` are `n` at most. */
  lemma {:induction false} Pigeonhole(xs: seq<nat>, n: nat)
    requires forall i :: 0 <= i < |xs| ==> 1 <= xs[i] <= n
    requires forall i, j :: 0 <= i < j < |xs| ==> xs[i] != xs[j]
    ensures |xs| <= n
    decreases n
  {
    if xs != [] {
      assert 1 <= xs[0] <= n;
      if i :| 0 <= i < |xs| && xs[i] == n {
        var ys := xs[..i] + xs[i + 1..];
        forall k | 0 <= k < |ys| ensures 1 <= ys[k] <= n - 1 { assert ys[k] == xs[if k < i then k else k + 1]; }
        Pigeonhole(ys, n - 1);
      } else {
        Pigeonhole(xs, n - 1);
      }
    }
  }

  /** Every object the server has made was asked for by a sequence. */
  ghost predicate Begotten(s: ServerState) { forall k :: 0 <= k < |s.objects| ==> s.objects[k].born != 0 }

  ghost predicate Few(st: State) {
    (!st.client.truncated ==> Begotten(st.server)) && (st.client.seqNo < 256 ==> !st.client.truncated)
  }

  lemma {:induction false} ObjectsAreFew(w: World, st: State)
    requires ObjectAgreement.Inv(w, st) && Begotten(st.server)
    ensures st.server.maxId == |st.server.objects| + 1 && |st.server.objects| <= st.client.seqNo
  {
    hide Replies, Resolved, Kinds, Frames, ClientSeqs, NewSeq, Declared, Fresh;
    var xs: seq<nat> := seq(|st.server.objects|, k requires 0 <= k < |st.server.objects| => st.server.objects[k].born);
    forall k | 0 <= k < |xs| ensures 1 <= xs[k] <= st.client.seqNo {
      assert st.server.objects[k].born != 0;
      var i :| 0 <= i < st.sDone && i < |st.client.out| && NewSeq(st.client.out[i].msg) == st.server.objects[k].born;
      NewSeqBound(st.client, i);
    }
    forall k, l | 0 <= k < l < |xs| ensures xs[k] != xs[l] {
      assert st.server.objects[k].born != st.server.objects[l].born;
    }
    Pigeonhole(xs, st.client.seqNo);
  }

  /** A bind, or a call of a method that returns an object. */
  predicate Requests(s: ServerState, m: Msg) {
    || m.BindProtocol?
    || (m.Generic? && var i := IndexOfId(s.objects, m.objectId);
        && i < |s.objects| && s.objects[i].spec.Some?
        && var methods := s.objects[i].spec.value.c2s;
        m.methodId < |methods| && methods[m.methodId].returnsType != [])
  }

  /** What a handled message adds to the server's objects. */
  lemma HandleBegets(env: ServerEnv, s: ServerState, m: Msg)
    requires ToServer(m)
    ensures var s' := Handle(env, s, m);
            || s'.objects == s.objects
            || (|s'.objects| == |s.objects| + 1 && s'.objects[..|s.objects|] == s.objects
                && s'.objects[|s.objects|].born == NewSeq(m) && Requests(s, m))
  {
    hide Find, SpecFor, CallOf, FdTotal, IndexOfId, SpecStrings, ListenersFor, NewSeq;
    if m.Generic? {
      var i := IndexOfId(s.objects, m.objectId);
      if i < |s.objects| && s.objects[i].spec.Some? && FdTotal(m.args) <= |m.fds| {
        var o := s.objects[i];
        if CallOf(o.spec.value.c2s, o.listeners, o.version, m.methodId, m.args, m.fds).Delivered? {
          DeliveredMethod(o.spec.value.c2s, o.listeners, o.version, m.methodId, m.args, m.fds);
        }
      }
    } else if m.BindProtocol? {
      BindSeq(m);
    }
  }

  lemma BindSeq(m: Msg)
    requires m.BindProtocol?
    ensures NewSeq(m) == m.seqNo
  {}

  /** The request at hand carries a sequence if it makes an object. */
  lemma RequestHasSeq(w: World, st: State)
    requires ObjectAgreement.Inv(w, st) && !st.client.truncated && st.sDone < |st.client.out|
    ensures var x := st.client.out[st.sDone];
            Requests(st.server, x.msg) ==> NewSeq(x.msg) != 0
  {
    hide ObjectAgreement.Inv, CheckFrom, Params, FdTotal, ChildSpec, Marshalled, IndexOfId, NewSeq, Find;
    var x := st.client.out[st.sDone];
    if x.msg.Generic? {
      Addressee(w, st);
    } else if x.msg.BindProtocol? {
      BindSeq(x.msg);
      BindHasSeq(w, st);
    }
  }

  lemma BindHasSeq(w: World, st: State)
    requires ObjectAgreement.Inv(w, st) && !st.client.truncated
    requires st.sDone < |st.client.out| && st.client.out[st.sDone].msg.BindProtocol?
    ensures st.client.out[st.sDone].msg.seqNo != 0
  {
    hide GenericOk, PendingOk, Table, Fresh, Born, Replies, Resolved, Kinds, Find;
    assert FrameOk(w, st.client, st.client.out[st.sDone]);
  }

  lemma TakeBegets(w: World, st: State)
    requires ObjectAgreement.Inv(w, st) && Enabled(w, st, ServerTake) && !st.client.truncated && Begotten(st.server)
    ensures Begotten(Apply(w, st, ServerTake).server)
  {
    hide ObjectAgreement.Inv, Handle, NewSeq, Requests;
    var m := st.client.out[st.sDone].msg;
    RequestHasSeq(w, st);
    HandleBegets(w.senv, st.server, m);
    var s' := Apply(w, st, ServerTake).server;
    forall k | 0 <= k < |s'.objects| ensures s'.objects[k].born != 0 {
      var n := |st.server.objects|;
      if !Malformed(m) && k < n { assert s'.objects[..n][k] == st.server.objects[k]; }
    }
  }

  lemma CallCutsNothing(env: ClientEnv, c: ClientState, slot: nat, methodId: nat, args: seq<CallArg>, no: int)
    requires slot < |c.objects| && GoodCall(c.objects[slot], methodId, args)
    ensures Call(env, c, slot, methodId, args, no).truncated == c.truncated
  {
    hide Call, CallMessage, Known, Fits, AllShort;
    if Callable(c.objects[slot], methodId) { CallShape(env, c, slot, methodId, args, no); }
    else { Uncallable(env, c, slot, methodId, args, no); }
  }

  lemma ReceiveCutsNothing(c: ClientState, m: Msg)
    requires ToClient(m)
    ensures Receive(c, m).1.truncated == c.truncated
  {
    hide ParseSpecs, CallOf, FdTotal, IndexOfObject, IndexOfSeq;
  }

  /** Ids are cut by flushing. */
  lemma OnlyFlushCuts(w: World, st: State, step: Step)
    requires Enabled(w, st, step) && !step.ClientFinish?
    ensures Apply(w, st, step).client.truncated == st.client.truncated
  {
    hide Call, Receive, Handle, GoodCall, Find, LeftoverFds, Listeners, ToClient, ToServer;
    match step {
      case CallOutside(slot, methodId, args) =>
        var c := st.client.(callNo := st.client.callNo + 1);
        CallCutsNothing(w.cenv, c, slot, methodId, args, c.callNo);
      case CallInListener(slot, methodId, args) =>
        var c := st.client.(callNo := st.client.callNo + 1);
        CallCutsNothing(w.cenv, c, slot, methodId, args, Inside(c.callNo));
      case ClientTake => ReceiveCutsNothing(st.client, st.server.out[st.cDone]);
      case _ =>
    }
  }

  /** Objects are made by taking a message. */
  lemma OnlyTakeMakes(w: World, st: State, step: Step)
    requires Enabled(w, st, step) && !step.ServerTake?
    ensures var s' := Apply(w, st, step).server; s'.objects == st.server.objects && s'.maxId == st.server.maxId
  {
    hide Call, Receive, ClientModel.Bind, ClientModel.Flush, GoodCall, Find, LeftoverFds, ToClient, ToServer;
  }

  lemma StepFew(w: World, st: State, step: Step)
    requires ObjectAgreement.Inv(w, st) && Enabled(w, st, step) && Few(st) && ObjectAgreement.Inv(w, Apply(w, st, step))
    ensures Few(Apply(w, st, step))
  {
    hide ObjectAgreement.Inv, Enabled, Apply, Begotten;
    var st' := Apply(w, st, step);
    StepGrows(w, st, step);
    if !step.ClientFinish? { OnlyFlushCuts(w, st, step); }
    if !step.ServerTake? { OnlyTakeMakes(w, st, step); }
    if !st'.client.truncated {
      if step.ServerTake? { TakeBegets(w, st); } else { SameObjectsBegotten(st.server, st'.server); }
    }
    if st'.client.seqNo < 256 && step.ClientFinish? {
      ObjectsAreFew(w, st);
      WideNeedsRoom(w, st');
    }
  }

  lemma SameObjectsBegotten(s: ServerState, s': ServerState)
    requires Begotten(s) && s'.objects == s.objects
    ensures Begotten(s')
  {}

  lemma WideNeedsRoom(w: World, st: State)
    requires ObjectAgreement.Inv(w, st)
    ensures st.client.truncated ==> st.server.maxId > 256
  {}

  lemma {:induction false} RunFew(w: World, st: State, steps: seq<Step>, end: State)
    requires WellFormed(w) && ObjectAgreement.Inv(w, st) && RoundtripSafety.Inv(st) && Few(st)
    requires Runs(w, st, steps, end)
    ensures ObjectAgreement.Inv(w, end) && Few(end)
    decreases |steps|
  {
    hide WellFormed, ObjectAgreement.Inv, RoundtripSafety.Inv, Few, Enabled, Apply;
    if steps != [] {
      ObjectAgreement.StepKeeps(w, st, steps[0]);
      RoundtripSafety.StepKeeps(w, st, steps[0]);
      StepFew(w, st, steps[0]);
      RunFew(w, Apply(w, st, steps[0]), steps[1..], end);
    }
  }

  /**
    The bound a client can see for itself: over all runs, while it has used fewer than 256 sequences,
    whatever for, no deferred message is resolved to an id it cannot hold; the server has at most as many
    objects as the client has used sequences.
   */
  lemma FewSequencesSuffice(w: World, steps: seq<Step>, st: State)
    requires WellFormed(w) && Runs(w, Init, steps, st)
    ensures st.client.seqNo < 256 ==> !st.client.truncated
    ensures !st.client.truncated ==> |st.server.objects| <= st.client.seqNo
  {
    hide WellFormed, ObjectAgreement.Inv, RoundtripSafety.Inv, Runs, Begotten;
    ObjectAgreement.InitInv(w);
    RoundtripSafety.InitInv();
    NoneYet();
    RunFew(w, Init, steps, st);
    if !st.client.truncated { ObjectsAreFew(w, st); }
  }

  lemma NoneYet()
    ensures Few(Init)
  {}

  // ---- what a server without error sends ----------------------------------------------------------

  /** Nothing that would make the client give up. */
  predicate Civil(env: ServerEnv, s: ServerState, m: Msg) {
    && (m.HandshakeBegin? ==> PROTOCOL_VERSION in m.versions)
    && (m.HandshakeProtocols? ==> m.names == SpecStrings(env.protocols))
    && (m.FatalError? ==> s.error)
  }

  ghost predicate AllCivil(env: ServerEnv, s: ServerState) {
    forall j :: 0 <= j < |s.out| ==> Civil(env, s, s.out[j])
  }

  lemma SendingCivil(env: ServerEnv, s: ServerState, s': ServerState)
    requires AllCivil(env, s) && (s.error ==> s'.error)
    requires s'.out == s.out
             || (|s'.out| == |s.out| + 1 && s'.out[..|s.out|] == s.out && Civil(env, s', s'.out[|s.out|]))
    ensures AllCivil(env, s')
  {
    hide SpecStrings;
    forall j | 0 <= j < |s'.out| ensures Civil(env, s', s'.out[j]) {
      if j < |s.out| { assert s'.out[j] == s'.out[..|s.out|][j] == s.out[j]; }
    }
  }

  lemma HandleCivil(env: ServerEnv, s: ServerState, m: Msg)
    requires ToServer(m) && AllCivil(env, s)
    ensures AllCivil(env, Handle(env, s, m))
  {
    hide AllCivil, Find, SpecFor, CallOf, FdTotal, IndexOfId, SpecStrings, ListenersFor;
    SendingCivil(env, s, Handle(env, s, m));
  }

  lemma StepCivil(w: World, st: State, step: Step)
    requires Enabled(w, st, step) && AllCivil(w.senv, st.server)
    ensures AllCivil(w.senv, Apply(w, st, step).server)
  {
    hide AllCivil, Handle, Call, ClientModel.Bind, Receive, GoodCall, Find, LeftoverFds, SpecStrings, ToClient,
      ToServer;
    var s' := Apply(w, st, step).server;
    match step {
      case ServerTake =>
        if Malformed(st.client.out[st.sDone].msg) { SendingCivil(w.senv, st.server, s'); }
        else { HandleCivil(w.senv, st.server, st.client.out[st.sDone].msg); }
      case ServerSend(_) => SendingCivil(w.senv, st.server, s');
      case ServerComplain(_) => SendingCivil(w.senv, st.server, s');
      case ServerFinish => SendingCivil(w.senv, st.server, s');
      case _ =>
    }
  }

  // ---- all that holds in every reachable state ----------------------------------------------------

  ghost predicate Hale(w: World, st: State) {
    && Refinement.Transmissible(w) && Live(w, st) && Few(st) && AllCivil(w.senv, st.server) && Refinement.Proper(st)
  }

  lemma StepHale(w: World, st: State, step: Step)
    requires Hale(w, st) && Enabled(w, st, step)
    ensures Hale(w, Apply(w, st, step))
  {
    hide Few, AllCivil, Refinement.Proper, Refinement.Transmissible, Enabled, Apply, ObjectAgreement.Inv, WellFormed,
      Obliging, RoundtripSafety.Inv, Chains.Inv, Progress.Answering, Hearing;
    StepLives(w, st, step);
    StepFew(w, st, step);
    StepCivil(w, st, step);
    Refinement.RunKeeps(w, st, [step], Apply(w, st, step)) by { Refinement.One(w, st, step); }
  }

  lemma {:induction false} RunHale(w: World, st: State, steps: seq<Step>, end: State)
    requires Hale(w, st) && Runs(w, st, steps, end)
    ensures Hale(w, end)
    decreases |steps|
  {
    hide Hale, Enabled, Apply;
    if steps != [] {
      StepHale(w, st, steps[0]);
      RunHale(w, Apply(w, st, steps[0]), steps[1..], end);
    }
  }

  lemma Hales(w: World, before: seq<Step>, st: State)
    requires WellFormed(w) && Obliging(w) && Refinement.Transmissible(w) && Runs(w, Init, before, st)
    ensures Hale(w, st)
  {
    hide WellFormed, Obliging, Refinement.Transmissible, Runs, Live;
    Lives(w, [], Init) by { Nowhere(w); }
    NoneYet();
    Refinement.InitProper();
    RunHale(w, Init, before, st);
  }

  lemma Nowhere(w: World)
    ensures Runs(w, Init, [], Init)
  {}

  // ---- a lap that can always be made --------------------------------------------------------------

  /** Idle parties on a standing connection, few sequences, and only binds the server can do ahead of it. */
  ghost predicate Calm(w: World, st: State) {
    && !st.sBusy && !st.cBusy && Standing(st) && BindsStand(w, st)
  }

  predicate Standing(st: State) {
    st.client.connected && !st.client.error && !st.server.error && st.client.seqNo < 256 && st.client.lastSent < MAX
  }

  predicate BindStands(w: World, m: Msg) {
    m.BindProtocol? ==> m.version != 0 && Creatable(w.senv, m.protocol, [], m.version)
  }

  ghost predicate BindsStand(w: World, st: State) {
    forall k :: st.sDone <= k < |st.client.out| ==> BindStands(w, st.client.out[k].msg)
  }

  lemma RoomToDo(w: World, st: State)
    requires Hale(w, st) && Standing(st)
    ensures Room(st) && !st.client.truncated
  {
    hide Live, AllCivil, Refinement.Proper, Refinement.Transmissible, ObjectAgreement.Inv, Begotten;
    Agrees(w, st);
    ObjectsAreFew(w, st);
  }

  lemma Agrees(w: World, st: State)
    requires Hale(w, st)
    ensures ObjectAgreement.Inv(w, st) && Obliging(w) && st.sDone <= st.sIn <= |st.client.out|
            && st.cDone <= st.cIn <= |st.server.out|
  {
    hide ObjectAgreement.Inv, Obliging, RoundtripSafety.Requests, RoundtripSafety.Answers, Chains.Inv, Few, AllCivil,
      Refinement.Proper;
  }

  lemma ForTheServer(w: World, st: State, k: nat)
    requires Hale(w, st) && k < |st.client.out|
    ensures ToServer(st.client.out[k].msg)
  {
    hide ToServer, Postable, Live, Few, AllCivil, Refinement.Transmissible;
    assert Refinement.Speakable(st.client.out[k].msg);
  }

  /** The server takes the next message without an error. */
  lemma TakeCalmly(w: World, st: State) returns (end: State)
    requires Hale(w, st) && Standing(st) && BindsStand(w, st) && st.sBusy && st.sDone < st.sIn
    ensures Enabled(w, st, ServerTake) && end == Apply(w, st, ServerTake)
    ensures Hale(w, end) && Standing(end) && BindsStand(w, end) && end.sBusy && Refinement.SameClientSide(st, end)
    ensures end.sDone == st.sDone + 1 && end.sIn == st.sIn
  {
    hide Hale, Handle, ToServer, Creatable, ObjectAgreement.Inv, Obliging, Progress.Answered, NewSeq;
    RoomToDo(w, st);
    Agrees(w, st);
    ForTheServer(w, st, st.sDone);
    assert BindStands(w, st.client.out[st.sDone].msg);
    RequestIsAnswered(w, st);
    Refinement.TakeOne(w, st);
    end := Apply(w, st, ServerTake);
    StepHale(w, st, ServerTake);
  }

  lemma {:induction false} TakeAllCalmly(w: World, st: State) returns (steps: seq<Step>, end: State)
    requires Hale(w, st) && Standing(st) && BindsStand(w, st) && st.sBusy && st.sDone <= st.sIn
    ensures Runs(w, st, steps, end)
    ensures Hale(w, end) && Standing(end) && BindsStand(w, end) && end.sBusy && Refinement.SameClientSide(st, end)
    ensures end.sDone == end.sIn == st.sIn
    decreases st.sIn - st.sDone
  {
    hide Hale, Standing, BindsStand, Enabled, Apply;
    if st.sDone == st.sIn {
      steps, end := [], st;
    } else {
      var next := TakeCalmly(w, st);
      steps, end := TakeAllCalmly(w, next);
      Refinement.One(w, st, ServerTake);
      Refinement.Concat(w, st, [ServerTake], next, steps, end);
      steps := [ServerTake] + steps;
    }
  }

  lemma BetweenBatches(w: World, st: State)
    requires Hale(w, st) && Calm(w, st)
    ensures st.sDone == st.sIn <= |st.client.out| && st.cDone == st.cIn <= |st.server.out|
  {
    hide Refinement.Speaks, Refinement.Answering, Live, Few, AllCivil, BindsStand;
    Agrees(w, st);
  }

  /** The server catches up with the client. */
  lemma ServerCatchesUp(w: World, st: State) returns (steps: seq<Step>, end: State)
    requires Hale(w, st) && Calm(w, st)
    ensures Runs(w, st, steps, end) && Hale(w, end) && Calm(w, end) && Refinement.SameClientSide(st, end)
    ensures end.sDone == |st.client.out|
  {
    hide Hale, BindStands, Runs, Room;
    BetweenBatches(w, st);
    var all := |st.client.out|;
    if st.sIn == all {
      steps, end := [], st;
      assert Runs(w, st, [], st) by { Refinement.Nothing(w, st); }
    } else {
      RoomToDo(w, st);
      var st1 := Refinement.Begin(w, st, all);
      StepHale(w, st, ServerReceive(all));
      Refinement.One(w, st, ServerReceive(all));
      var more, st2 := TakeAllCalmly(w, st1);
      Refinement.Concat(w, st, [ServerReceive(all)], st1, more, st2);
      RoomToDo(w, st2);
      end := Refinement.Finish(w, st2);
      StepHale(w, st2, ServerFinish);
      Refinement.One(w, st2, ServerFinish);
      Refinement.Concat(w, st, [ServerReceive(all)] + more, st2, [ServerFinish], end);
      steps := [ServerReceive(all)] + more + [ServerFinish];
    }
  }

  // ---- the client's half of a lap -----------------------------------------------------------------

  lemma ForTheClient(w: World, st: State, j: nat)
    requires Hale(w, st) && j < |st.server.out|
    ensures ToClient(st.server.out[j]) && Civil(w.senv, st.server, st.server.out[j])
    ensures Handshake.Versions32(w.senv.protocols)
  {
    hide ToClient, Encodable, Live, Few, Civil, Refinement.Speaks, Handshake.Versions32, Handshake.Sendable;
    assert Refinement.Answerable(st.server.out[j]);
  }

  /** What the client makes of a civil message. */
  lemma ReceiveCalmly(env: ServerEnv, s: ServerState, c: ClientState, m: Msg)
    requires ToClient(m) && Civil(env, s, m) && !s.error && Handshake.Versions32(env.protocols)
    ensures var (ok, c') := Receive(c, m);
            && ok && c'.connected == c.connected && c'.error == c.error
            && c'.seqNo == c.seqNo && c'.lastSent == c.lastSent
            && |c'.objects| == |c.objects|
            && (c'.out == c.out || c'.out == c.out + [Sent(HandshakeAck(PROTOCOL_VERSION), 0, 0)])
  {
    hide ParseSpecs, SpecStrings, IndexOfObject, IndexOfSeq, CallOf, FdTotal;
    if m.HandshakeProtocols? { Handshake.SpecsAreParsed(env.protocols); }
  }

  /** The client has not moved but for answers heard. */
  ghost predicate Quietly(a: State, b: State) {
    && Refinement.SameServerSide(a, b)
    && |b.client.objects| == |a.client.objects| && Continues(a.client.out, b.client.out)
    && forall k :: |a.client.out| <= k < |b.client.out| ==> !b.client.out[k].msg.BindProtocol?
  }

  lemma BindsStandStill(w: World, a: State, b: State)
    requires BindsStand(w, a) && Quietly(a, b)
    ensures BindsStand(w, b)
  {
    hide Creatable;
    forall k | b.sDone <= k < |b.client.out| ensures BindStands(w, b.client.out[k].msg) {
      if k < |a.client.out| { assert b.client.out[k] == a.client.out[k]; }
    }
  }

  lemma QuietlyOn(a: State, b: State, c: State)
    requires Quietly(a, b) && Quietly(b, c)
    ensures Quietly(a, c)
  {}

  lemma HearCalmly(w: World, st: State) returns (end: State)
    requires Hale(w, st) && Standing(st) && st.cBusy && st.cDone < st.cIn
    ensures Enabled(w, st, ClientTake) && end == Apply(w, st, ClientTake)
    ensures Hale(w, end) && Standing(end) && end.cBusy && Quietly(st, end)
    ensures end.cDone == st.cDone + 1 && end.cIn == st.cIn
  {
    hide Hale, Receive, ToClient, Civil;
    RoomToDo(w, st);
    Agrees(w, st);
    ForTheClient(w, st, st.cDone);
    ReceiveCalmly(w.senv, st.server, st.client, st.server.out[st.cDone]);
    end := Apply(w, st, ClientTake);
    StepHale(w, st, ClientTake);
  }

  lemma {:induction false} HearAllCalmly(w: World, st: State) returns (steps: seq<Step>, end: State)
    requires Hale(w, st) && Standing(st) && st.cBusy && st.cDone <= st.cIn
    ensures Runs(w, st, steps, end)
    ensures Hale(w, end) && Standing(end) && end.cBusy && Quietly(st, end)
    ensures end.cDone == end.cIn == st.cIn
    decreases st.cIn - st.cDone
  {
    hide Hale, Standing, Enabled, Apply;
    if st.cDone == st.cIn {
      steps, end := [], st;
    } else {
      var next := HearCalmly(w, st);
      steps, end := HearAllCalmly(w, next);
      QuietlyOn(st, next, end);
      Refinement.One(w, st, ClientTake);
      Refinement.Concat(w, st, [ClientTake], next, steps, end);
      steps := [ClientTake] + steps;
    }
  }

  /** The flush sends calls alone. */
  lemma FlushesCalls(w: World, st: State)
    requires Hale(w, st)
    ensures var c, c' := st.client, ClientModel.Flush(st.client);
            && Continues(c.out, c'.out)
            && (forall k :: |c.out| <= k < |c'.out| ==> !c'.out[k].msg.BindProtocol?)
            && c'.connected == c.connected && c'.error == c.error && c'.seqNo == c.seqNo && c'.lastSent == c.lastSent
            && c'.objects == c.objects
  {
    hide Released, Kept, AnyWide, Few, AllCivil, Refinement.Proper, Refinement.Transmissible, ObjectAgreement.Inv,
      RoundtripSafety.Requests, RoundtripSafety.Answers, RoundtripSafety.Positions, Chains.Inv, Obliging, WellFormed;
    var c, c' := st.client, ClientModel.Flush(st.client);
    RoundtripSafety.ReleasedHasNoRequest(c.objects, c.pending);
    forall k | |c.out| <= k < |c'.out| ensures !c'.out[k].msg.BindProtocol? {
      assert c'.out[k] in Released(c.objects, c.pending);
    }
  }

  /** The client catches up with the server. */
  lemma ClientCatchesUp(w: World, st: State) returns (steps: seq<Step>, end: State)
    requires Hale(w, st) && Calm(w, st)
    ensures Runs(w, st, steps, end) && Hale(w, end) && Calm(w, end) && Quietly(st, end)
    ensures end.cDone == |st.server.out|
  {
    hide Hale, BindStands, Runs, Room, ClientModel.Flush;
    BetweenBatches(w, st);
    var all := |st.server.out|;
    if st.cIn == all {
      steps, end := [], st;
      assert Runs(w, st, [], st) by { Refinement.Nothing(w, st); }
    } else {
      RoomToDo(w, st);
      var st1 := Apply(w, st, ClientReceive(all));
      StepHale(w, st, ClientReceive(all));
      Refinement.One(w, st, ClientReceive(all));
      var more, st2 := HearAllCalmly(w, st1);
      Refinement.Concat(w, st, [ClientReceive(all)], st1, more, st2);
      RoomToDo(w, st2);
      FlushesCalls(w, st2);
      end := Apply(w, st2, ClientFinish);
      StepHale(w, st2, ClientFinish);
      Refinement.One(w, st2, ClientFinish);
      Refinement.Concat(w, st, [ClientReceive(all)] + more, st2, [ClientFinish], end);
      steps := [ClientReceive(all)] + more + [ClientFinish];
      QuietlyOn(st, st2, end);
      BindsStandStill(w, st, end);
    }
  }

  /** From every calm state a lap leads to a calm state with the same objects. */
  lemma CalmLap(w: World, st: State) returns (lap: Lap)
    requires Hale(w, st) && Calm(w, st)
    ensures IsLap(w, st, lap) && Hale(w, lap.end) && Calm(w, lap.end)
    ensures |lap.end.client.objects| == |st.client.objects|
  {
    hide Hale, BindsStand, Standing, Runs;
    var there, mid := ServerCatchesUp(w, st);
    var back, end := ClientCatchesUp(w, mid);
    lap := Lap(there, mid, back, end);
  }

  lemma {:induction false} CalmlyDrained(w: World, st: State, n: nat) returns (steps: seq<Step>, end: State)
    requires Hale(w, st) && Calm(w, st) && Unresolved(st.client.objects) <= n
    ensures Runs(w, st, steps, end) && Hale(w, end) && Calm(w, end)
    ensures |end.client.objects| == |st.client.objects| && Unresolved(end.client.objects) == 0
    decreases n
  {
    hide Hale, BindsStand, Standing, Unresolved;
    if Unresolved(st.client.objects) == 0 {
      steps, end := [], st;
    } else {
      var lap := CalmLap(w, st);
      Prepared(w, st, lap);
      steps, end := CalmlyDrained(w, lap.end, n - 1);
      Refinement.Concat(w, st, lap.there, lap.mid, lap.back, lap.end);
      Refinement.Concat(w, st, lap.there + lap.back, lap.end, steps, end);
      steps := lap.there + lap.back + steps;
    }
  }

  lemma Prepared(w: World, st: State, lap: Lap)
    requires Hale(w, st) && Calm(w, st) && IsLap(w, st, lap) && Hale(w, lap.end) && Calm(w, lap.end)
    requires |lap.end.client.objects| == |st.client.objects| && Unresolved(st.client.objects) > 0
    ensures Unresolved(lap.end.client.objects) < Unresolved(st.client.objects)
  {
    hide Hale, BindsStand, Unresolved, IsLap, Live;
    RoomToDo(w, lap.end);
    IsLive(w, st);
    var n := |st.client.objects|;
    assert st.client.objects[..n] == st.client.objects && lap.end.client.objects[..n] == lap.end.client.objects;
    LapHelps(w, st, lap, n);
  }

  lemma IsLive(w: World, st: State)
    requires Hale(w, st)
    ensures Live(w, st)
  {
    hide Live, Few, AllCivil, Refinement.Proper, Refinement.Transmissible;
  }

  /**
    From every reachable state without error in which both parties are idle, the binds on the wire can
    be done and the client has used fewer than 256 sequences, there is a run behind which every object
    has its id and no message waits.
   */
  lemma CanBeDrained(w: World, before: seq<Step>, st: State) returns (steps: seq<Step>, end: State)
    requires WellFormed(w) && Obliging(w) && Refinement.Transmissible(w)
    requires Runs(w, Init, before, st) && Calm(w, st)
    ensures Runs(w, st, steps, end) && Calm(w, end) && |end.client.objects| == |st.client.objects|
    ensures end.client.pending == [] && forall i :: 0 <= i < |end.client.objects| ==> end.client.objects[i].id != 0
  {
    hide WellFormed, Obliging, Refinement.Transmissible, Runs, Hale, BindsStand, Unresolved;
    Hales(w, before, st);
    steps, end := CalmlyDrained(w, st, Unresolved(st.client.objects));
    NoneIsLeft(w, end);
  }

  /** What waits does so for an object of the client. */
  lemma WaitsForObject(c: ClientState)
    requires Drainable(c) && c.pending != []
    ensures c.pending[0] in c.pending && c.pending[0].slot < |c.objects|
  {
    assert Deferral.WaitsWell(c, c.pending[0]);
  }

  lemma NoneIsLeft(w: World, st: State)
    requires Hale(w, st) && Calm(w, st) && Unresolved(st.client.objects) == 0
    ensures st.client.pending == [] && forall i :: 0 <= i < |st.client.objects| ==> st.client.objects[i].id != 0
  {
    hide Hale, BindsStand, Unresolved, Live, Drainable;
    IsLive(w, st);
    IdleIsDrainable(w, st);
    if st.client.pending != [] { WaitsForObject(st.client); }
    var n := |st.client.objects|;
    assert st.client.objects[..n] == st.client.objects;
    NoneWaitsBelow(w, st, n);
  }
}
