/**
  The steps of `TwoParty` against the octets: in every reachable state, dispatching the octets of the
  other party's next messages, descriptors and all, is a run of those steps, on either side.
 */
module Refinement {
  import opened Bytes
  import opened WireFormat
  import opened Marshal
  import opened Calls
  import VarInt
  import opened Spec
  import opened Messages
  import opened ServerModel
  import opened ClientModel
  import opened TwoParty
  import opened Stream
  import opened Handshake
  import Deferral
  import RoundtripSafety

  /** The messages of a stretch of the client's output. */
  function MsgsOf(out: seq<Sent>): (ms: seq<Msg>)
    ensures |ms| == |out| && forall k :: 0 <= k < |ms| ==> ms[k] == out[k].msg
  {
    if out == [] then [] else [out[0].msg] + MsgsOf(out[1..])
  }

  lemma MsgsStep(out: seq<Sent>, a: nat, b: nat)
    requires a < b <= |out|
    ensures MsgsOf(out[a..b]) != [] && MsgsOf(out[a..b])[0] == out[a].msg
          && MsgsOf(out[a..b])[1..] == MsgsOf(out[a + 1..b])
  {
    assert out[a..b][0] == out[a] && out[a..b][1..] == out[a + 1..b];
  }

  lemma {:induction false} Concat(w: World, a: State, first: seq<Step>, b: State, second: seq<Step>, c: State)
    requires Runs(w, a, first, b) && Runs(w, b, second, c)
    ensures Runs(w, a, first + second, c)
    decreases |first|
  {
    hide Enabled, Apply;
    if first == [] {
      assert first + second == second;
    } else {
      assert (first + second)[0] == first[0] && (first + second)[1..] == first[1..] + second;
      Concat(w, Apply(w, a, first[0]), first[1..], b, second, c);
    }
  }

  lemma One(w: World, a: State, step: Step)
    requires Enabled(w, a, step)
    ensures Runs(w, a, [step], Apply(w, a, step))
  {
    hide Enabled, Apply;
    assert [step][1..] == [];
  }

  lemma Nothing(w: World, st: State)
    ensures Runs(w, st, [], st)
  {}

  // ---- what the parties put on the wire ---------------------------------------------------------

  /** No name or list of a registered protocol is too long to be sent. */
  predicate Transmissible(w: World) {
    && (forall p :: p in w.cenv.protocols ==> |p.name| < VarInt.LIMIT)
    && Versions32(w.senv.protocols) && Sendable(w.senv.protocols)
  }

  predicate Speakable(m: Msg) { ToServer(m) && Postable(m) }

  /** A client sends messages a server may get, and keeps calls that can be sent. */
  ghost predicate Speaks(c: ClientState) {
    && (forall i :: 0 <= i < |c.out| ==> Speakable(c.out[i].msg))
    && (forall i :: 0 <= i < |c.pending| ==> c.pending[i].msg.Generic? && Encodable(c.pending[i].msg))
  }

  predicate Answerable(m: Msg) { ToClient(m) && Encodable(m) }

  ghost predicate Answering(s: ServerState) { forall j :: 0 <= j < |s.out| ==> Answerable(s.out[j]) }

  /** A party that is not dispatching has dispatched all it has read, or is at its end. */
  ghost predicate Proper(st: State) {
    && Speaks(st.client) && Answering(st.server)
    && (!st.sBusy ==> st.sDone == st.sIn || st.server.error)
    && (!st.cBusy ==> st.cDone == st.cIn || !st.client.connected)
  }

  lemma CallSpeaks(env: ClientEnv, c: ClientState, slot: nat, methodId: nat, args: seq<CallArg>, no: int)
    requires Speaks(c) && slot < |c.objects| && GoodCall(c.objects[slot], methodId, args)
    ensures Speaks(Call(env, c, slot, methodId, args, no))
    ensures Call(env, c, slot, methodId, args, no).connected == c.connected
  {
    hide Call, CallMessage, Encodable, Known, Fits, AllShort;
    var o := c.objects[slot];
    if Callable(o, methodId) {
      var returnSeq := if o.spec.c2s[methodId].returnsType != [] then Some(Low32(c.seqNo + 1)) else None;
      CallShape(env, c, slot, methodId, args, no);
      Deferral.CallIsEncoded(o, methodId, returnSeq, args);
      RoundtripSafety.CallIsGeneric(o, methodId, args, returnSeq);
    } else {
      Uncallable(env, c, slot, methodId, args, no);
    }
  }

  lemma {:induction false} ReleasedSpeaks(objects: seq<ClientObject>, pending: seq<Pending>)
    requires forall p :: p in pending ==> p.msg.Generic? && Encodable(p.msg)
    ensures forall x :: x in Released(objects, pending) ==> Speakable(x.msg)
    decreases |pending|
  {
    hide FateOf;
    if pending != [] { ReleasedSpeaks(objects, pending[1..]); }
  }

  lemma FlushSpeaks(c: ClientState)
    requires Speaks(c)
    ensures Speaks(ClientModel.Flush(c)) && ClientModel.Flush(c).connected == c.connected
  {
    hide Released, Kept, AnyWide, Speakable, Encodable;
    var c' := ClientModel.Flush(c);
    ReleasedSpeaks(c.objects, c.pending);
    RoundtripSafety.KeptIsPending(c.objects, c.pending);
    forall i | 0 <= i < |c'.out| ensures Speakable(c'.out[i].msg) {
      if i >= |c.out| { assert c'.out[i] in Released(c.objects, c.pending); }
    }
    forall i | 0 <= i < |c'.pending| ensures c'.pending[i].msg.Generic? && Encodable(c'.pending[i].msg) {
      assert c'.pending[i] in Kept(c.objects, c.pending);
    }
  }

  lemma BindSpeaks(w: World, c: ClientState, p: Protocol, version: nat)
    requires Transmissible(w) && Speaks(c) && Find(w.cenv.protocols, p.name) == Some(p) && p.objects != []
    ensures Speaks(ClientModel.Bind(w.cenv, c, p, version))
    ensures ClientModel.Bind(w.cenv, c, p, version).connected ==> c.connected
  {
    hide Find, Listeners;
    assert p in w.cenv.protocols;
  }

  lemma ReceiveSpeaks(c: ClientState, m: Msg)
    requires ToClient(m) && Speaks(c)
    ensures Speaks(Receive(c, m).1)
  {
    hide Receive, ToClient;
    Deferral.ReceiveShape(c, m);
  }

  lemma HandleAnswers(env: ServerEnv, s: ServerState, m: Msg)
    requires ToServer(m) && Answering(s) && Versions32(env.protocols) && Sendable(env.protocols)
    ensures Answering(Handle(env, s, m))
    ensures s.error ==> Handle(env, s, m).error
  {
    hide Find, SpecFor, CallOf, FdTotal, IndexOfId, SpecStrings, ListenersFor, Versions32, Sendable;
    assert Encodable(HandshakeProtocols(SpecStrings(env.protocols))) by { ListIsEncodable(env.protocols); }
  }

  lemma ListIsEncodable(protocols: seq<Protocol>)
    requires Versions32(protocols) && Sendable(protocols)
    ensures Encodable(HandshakeProtocols(SpecStrings(protocols)))
  {
    hide SpecStrings;
    StringsAreShort(protocols);
  }

  lemma ClientKeeps(w: World, st: State, step: Step)
    requires Transmissible(w) && Proper(st) && Enabled(w, st, step)
    requires step.Bind? || step.CallOutside? || step.AskRoundtrip? || step.ClientReceive? || step.ClientTake?
             || step.CallInListener? || step.ClientFinish? || step.ClientDrop?
    ensures Proper(Apply(w, st, step))
  {
    hide Transmissible, Answering, Receive, Call, ClientModel.Flush, ClientModel.Bind, GoodCall, Find, ToClient,
      Speaks;
    match step {
      case Bind(p, version) => BindSpeaks(w, st.client, p, version);
      case CallOutside(slot, methodId, args) =>
        var c := st.client.(callNo := st.client.callNo + 1);
        SpeaksAlike(st.client, c);
        CallSpeaks(w.cenv, c, slot, methodId, args, c.callNo);
      case AskRoundtrip => AskSpeaks(st.client);
      case ClientTake =>
        ReceiveSpeaks(st.client, st.server.out[st.cDone]);
        var c := Receive(st.client, st.server.out[st.cDone]).1;
        SpeaksAlike(c, Disconnect(c));
      case CallInListener(slot, methodId, args) =>
        var c := st.client.(callNo := st.client.callNo + 1);
        SpeaksAlike(st.client, c);
        CallSpeaks(w.cenv, c, slot, methodId, args, Inside(c.callNo));
      case ClientFinish => FlushSpeaks(st.client);
      case ClientDrop => SpeaksAlike(st.client, Disconnect(st.client));
      case _ =>
    }
  }

  lemma SpeaksAlike(c: ClientState, c': ClientState)
    requires Speaks(c) && c'.out == c.out && c'.pending == c.pending
    ensures Speaks(c')
  {}

  lemma AskSpeaks(c: ClientState)
    requires Speaks(c)
    ensures Speaks(Roundtrip(c)) && Roundtrip(c).connected == c.connected
  {}

  lemma ServerKeeps(w: World, st: State, step: Step)
    requires Transmissible(w) && Proper(st) && Enabled(w, st, step)
    requires step.ServerReceive? || step.ServerTake? || step.ServerSend? || step.ServerComplain? || step.ServerFinish?
    ensures Proper(Apply(w, st, step))
  {
    hide Handle, Speaks, ToServer, LeftoverFds, Versions32, Sendable;
    if step.ServerTake? {
      HandleSends(w.senv, st.server, st.client.out[st.sDone].msg);
      HandleAnswers(w.senv, st.server, st.client.out[st.sDone].msg);
    }
  }

  lemma {:induction false} RunKeeps(w: World, st: State, steps: seq<Step>, end: State)
    requires Transmissible(w) && Runs(w, st, steps, end) && Proper(st) && RoundtripSafety.Inv(st)
    ensures Proper(end) && RoundtripSafety.Inv(end)
    decreases |steps|
  {
    hide Proper, RoundtripSafety.Inv, Apply, Enabled, Transmissible;
    if steps != [] {
      match steps[0] {
        case ServerReceive(_) => ServerKeeps(w, st, steps[0]);
        case ServerTake => ServerKeeps(w, st, steps[0]);
        case ServerSend(_) => ServerKeeps(w, st, steps[0]);
        case ServerComplain(_) => ServerKeeps(w, st, steps[0]);
        case ServerFinish => ServerKeeps(w, st, steps[0]);
        case _ => ClientKeeps(w, st, steps[0]);
      }
      RoundtripSafety.StepKeeps(w, st, steps[0]);
      RunKeeps(w, Apply(w, st, steps[0]), steps[1..], end);
    }
  }

  lemma InitProper()
    ensures Proper(Init)
  {}

  /** What every reachable state owes to the refinement. */
  lemma Reached(w: World, before: seq<Step>, st: State)
    requires Transmissible(w) && Runs(w, Init, before, st)
    ensures Proper(st) && st.sDone <= st.sIn <= |st.client.out| && st.cDone <= st.cIn <= |st.server.out|
  {
    hide Proper, Runs, Transmissible, RoundtripSafety.Requests, RoundtripSafety.Answers;
    InitProper();
    RoundtripSafety.InitInv();
    RunKeeps(w, Init, before, st);
  }

  // ---- the server -------------------------------------------------------------------------------

  /** A message makes one object at most. */
  lemma MaxIdGrows(env: ServerEnv, s: ServerState, m: Msg)
    requires ToServer(m)
    ensures Handle(env, s, m).maxId <= s.maxId + 1
  {
    hide Find, SpecFor, CallOf, FdTotal, IndexOfId, SpecStrings, ListenersFor;
  }

  /** The client's side of a state. */
  predicate SameClientSide(a: State, b: State) {
    b.client == a.client && b.cIn == a.cIn && b.cDone == a.cDone && b.cBusy == a.cBusy
  }

  lemma TakeOne(w: World, st: State)
    requires st.sBusy && !st.server.error && st.sDone < st.sIn <= |st.client.out| && Room(st)
    requires ToServer(st.client.out[st.sDone].msg)
    ensures Enabled(w, st, ServerTake)
    ensures var st', m := Apply(w, st, ServerTake), st.client.out[st.sDone].msg;
            && SameClientSide(st, st') && st'.sIn == st.sIn && st'.sFrom == st.sFrom
            && if Malformed(m) then st'.server == Reject(st.server) && !st'.sBusy && st'.sDone == st.sDone
               else st'.server == Handle(w.senv, st.server, m) && st'.sBusy && st'.sDone == st.sDone + 1
  {
    hide Handle, Room;
    HandleSends(w.senv, st.server, st.client.out[st.sDone].msg);
  }

  /** The steps that take messages of a batch, one after the other, up to a refusal, an error or the end. */
  lemma {:induction false} TakeAll(w: World, st: State) returns (steps: seq<Step>, end: State)
    requires st.sBusy && st.sDone <= st.sIn <= |st.client.out| && AllPostable(MsgsOf(st.client.out[st.sDone..st.sIn]))
    requires st.client.seqNo < MAX && st.client.lastSent < MAX && st.server.maxId + (st.sIn - st.sDone) < MAX
    ensures Runs(w, st, steps, end)
    ensures var t := TakeUpTo(w.senv, st.server, MsgsOf(st.client.out[st.sDone..st.sIn]));
            && SameClientSide(st, end) && end.sIn == st.sIn && end.sFrom == st.sFrom
            && end.server.maxId <= st.server.maxId + (st.sIn - st.sDone)
            && end.sDone == st.sDone + t.count
            && if t.refused then end.server == Reject(t.state) && !end.sBusy
               else end.server == t.state && end.sBusy && (t.state.error || end.sDone == end.sIn)
    decreases st.sIn - st.sDone
  {
    hide Handle, Enabled, Apply, Postable, ToServer, Malformed;
    if st.server.error || st.sDone == st.sIn {
      steps, end := [], st;
    } else {
      MsgsStep(st.client.out, st.sDone, st.sIn);
      var m := st.client.out[st.sDone].msg;
      assert m in MsgsOf(st.client.out[st.sDone..st.sIn]);
      TakeOne(w, st);
      MaxIdGrows(w.senv, st.server, m);
      var next := Apply(w, st, ServerTake);
      One(w, st, ServerTake);
      if Malformed(m) {
        steps, end := [ServerTake], next;
      } else {
        PostedRest(MsgsOf(st.client.out[st.sDone..st.sIn]));
        steps, end := TakeAll(w, next);
        Concat(w, st, [ServerTake], next, steps, end);
        steps := [ServerTake] + steps;
      }
    }
  }

  lemma PostedRest(ms: seq<Msg>)
    requires ms != [] && AllPostable(ms)
    ensures AllPostable(ms[1..])
  {}

  lemma {:induction false} FdsLeft(out: seq<Sent>, a: nat, b: nat)
    requires a <= b <= |out|
    ensures FdsOfAll(MsgsOf(out[a..b])) != [] <==> exists i :: a <= i < b && FdsOfMsg(out[i].msg) != []
    decreases b - a
  {
    if a < b {
      MsgsStep(out, a, b);
      FdsLeft(out, a + 1, b);
    }
  }

  lemma SpokenIsPosted(c: ClientState, a: nat, b: nat)
    requires Speaks(c) && a <= b <= |c.out|
    ensures AllPostable(MsgsOf(c.out[a..b]))
  {
    var ms := MsgsOf(c.out[a..b]);
    forall m | m in ms ensures ToServer(m) && Postable(m) {
      var k :| 0 <= k < |ms| && ms[k] == m;
      assert Speakable(c.out[a + k].msg);
    }
  }

  /** A server in error reads on, but takes nothing more. */
  lemma NothingTaken(env: ServerEnv, s: ServerState, ms: seq<Msg>)
    requires ForServer(ms) && s.error
    ensures TakeUpTo(env, s, ms) == Taken(s, 0, false)
  {}

  lemma Begin(w: World, st: State, upTo: nat) returns (st1: State)
    requires !st.sBusy && st.sIn < upTo <= |st.client.out| && Room(st)
    ensures Enabled(w, st, ServerReceive(upTo)) && st1 == Apply(w, st, ServerReceive(upTo))
    ensures st1 == st.(sFrom := st.sIn, sIn := upTo, sBusy := true)
  {
    st1 := Apply(w, st, ServerReceive(upTo));
  }

  lemma Finish(w: World, st: State) returns (end: State)
    requires st.sBusy && (st.server.error || st.sDone == st.sIn) && Room(st) && st.sIn <= |st.client.out|
    ensures Enabled(w, st, ServerFinish) && end == Apply(w, st, ServerFinish)
    ensures SameClientSide(st, end) && !end.sBusy && end.sIn == st.sIn && end.sDone == st.sDone
    ensures end.server == if LeftoverFds(st) then Reject(st.server) else Acknowledge(st.server)
  {
    hide LeftoverFds, Room;
    end := Apply(w, st, ServerFinish);
  }

  lemma RoomOf(st: State)
    ensures Room(st) <==> st.client.seqNo < MAX && st.client.lastSent < MAX && st.server.maxId < MAX
  {}

  /** Left over are the descriptors of the batch that were not taken. */
  lemma LeftIsLeft(st: State, a: nat)
    requires st.sIn <= |st.client.out| && a <= st.sIn && a == if st.sDone < st.sFrom then st.sFrom else st.sDone
    ensures LeftoverFds(st) <==> FdsOfAll(MsgsOf(st.client.out[a..st.sIn])) != []
  {
    hide FdsOfMsg, FdsOfAll, MsgsOf;
    FdsLeft(st.client.out, a, st.sIn);
  }

  /** The steps of one batch, from a state that has taken what it has read or is in error. */
  lemma BatchIsRun(w: World, st: State, upTo: nat) returns (steps: seq<Step>, end: State)
    requires !st.sBusy && st.sDone <= st.sIn < upTo <= |st.client.out| && (st.sDone == st.sIn || st.server.error)
    requires Room(st) && st.server.maxId + (upTo - st.sIn) < MAX && AllPostable(MsgsOf(st.client.out[st.sIn..upTo]))
    ensures Runs(w, st, steps, end) && SameClientSide(st, end) && !end.sBusy && end.sIn == upTo
    ensures var ms := MsgsOf(st.client.out[st.sIn..upTo]);
            var t := TakeUpTo(w.senv, st.server, ms);
            && end.server ==
               (if t.refused || FdsOfAll(ms[t.count..]) != [] then Reject(t.state) else Acknowledge(t.state))
            && (!st.server.error ==> end.sDone == st.sIn + t.count)
            && end.server.maxId <= st.server.maxId + (upTo - st.sIn)
  {
    hide TakeUpTo, FdsOfAll, AllPostable, Runs, Enabled, Apply, MsgsOf, Room, LeftoverFds;
    RoomOf(st);
    var ms := MsgsOf(st.client.out[st.sIn..upTo]);
    PostedForServer(ms);
    var st1 := Begin(w, st, upTo);
    One(w, st, ServerReceive(upTo));
    if st.server.error {
      NothingTaken(w.senv, st.server, ms);
      RoomOf(st1);
      end := Finish(w, st1);
      LeftIsLeft(st1, st.sIn);
      assert ms[0..] == ms;
      One(w, st1, ServerFinish);
      Concat(w, st, [ServerReceive(upTo)], st1, [ServerFinish], end);
      steps := [ServerReceive(upTo)] + [ServerFinish];
    } else {
      var more, st2 := TakeAll(w, st1);
      Concat(w, st, [ServerReceive(upTo)], st1, more, st2);
      steps, end := [ServerReceive(upTo)] + more, st2;
      var t := TakeUpTo(w.senv, st.server, ms);
      if !t.refused {
        RoomOf(st2);
        end := Finish(w, st2);
        LeftIsLeft(st2, st2.sDone);
        Tail(st.client.out, st.sIn, upTo, t.count);
        One(w, st2, ServerFinish);
        Concat(w, st, steps, st2, [ServerFinish], end);
        steps := steps + [ServerFinish];
      }
    }
  }

  lemma PostedForServer(ms: seq<Msg>)
    requires AllPostable(ms)
    ensures ForServer(ms) && forall m :: m in ms ==> Postable(m)
  {}

  lemma Tail(out: seq<Sent>, a: nat, b: nat, n: nat)
    requires a <= b <= |out| && n <= b - a
    ensures MsgsOf(out[a..b])[n..] == MsgsOf(out[a + n..b])
  {
    var all, rest := out[a..b], out[a + n..b];
    forall k | 0 <= k < |rest| ensures MsgsOf(all)[n..][k] == MsgsOf(rest)[k] {
      assert all[n + k] == out[a + n + k] && rest[k] == out[a + n + k];
    }
  }

  /**
    Server side: in every reachable state between batches, what dispatchClient does to the octets and
    descriptors of the client's next messages is what a run of steps does. Binds to version 0 and
    batches that arrive behind an error are covered.
   */
  lemma ServerBatchIsRun(w: World, before: seq<Step>, st: State, upTo: nat) returns (steps: seq<Step>, end: State)
    requires Transmissible(w) && Runs(w, Init, before, st)
    requires !st.sBusy && st.sIn < upTo <= |st.client.out| && Room(st) && st.server.maxId + (upTo - st.sIn) < MAX
    ensures Runs(w, st, steps, end) && SameClientSide(st, end) && !end.sBusy && end.sIn == upTo
    ensures var ms := MsgsOf(st.client.out[st.sIn..upTo]);
            && AllPostable(ms) && end.server == DispatchBatch(w.senv, st.server, OctetsOf(ms), FdsOfAll(ms))
  {
    hide TakeUpTo, FdsOfAll, AllPostable, Runs, MsgsOf, OctetsOf, DispatchBatch, Transmissible, Speaks, Answering;
    Reached(w, before, st);
    SpokenIsPosted(st.client, st.sIn, upTo);
    var ms := MsgsOf(st.client.out[st.sIn..upTo]);
    PostedForServer(ms);
    PostedOutcome(w.senv, st.server, ms);
    steps, end := BatchIsRun(w, st, upTo);
  }

  // ---- the client ---------------------------------------------------------------------------------

  /** The server's side of a state. */
  predicate SameServerSide(a: State, b: State) {
    && b.server == a.server && b.causes == a.causes
    && b.sFrom == a.sFrom && b.sIn == a.sIn && b.sDone == a.sDone && b.sBusy == a.sBusy
  }

  /** How many of the messages a client takes: all of them, or those up to the first it refuses. */
  function TakenOf(c: ClientState, ms: seq<Msg>): (n: nat)
    requires forall m :: m in ms ==> ToClient(m)
    ensures n <= |ms|
    decreases |ms|
  {
    if ms == [] then 0
    else var (ok, c') := Receive(c, ms[0]); if ok then 1 + TakenOf(c', ms[1..]) else 1
  }

  /** The steps that take messages of a batch on the client, up to one it refuses or the end. */
  lemma {:induction false} ReceiveSome(w: World, st: State, ms: seq<Msg>) returns (steps: seq<Step>, end: State)
    requires st.cBusy && st.cDone <= st.cIn <= |st.server.out| && ms == st.server.out[st.cDone..st.cIn] && Room(st)
    requires forall m :: m in ms ==> ToClient(m)
    ensures Runs(w, st, steps, end)
    ensures var (ok, c) := ReceiveAll(st.client, ms);
            && SameServerSide(st, end) && end.cIn == st.cIn
            && end.client == (if ok then c else Disconnect(c)) && end.cBusy == ok && (ok ==> end.cDone == end.cIn)
            && end.cDone == st.cDone + TakenOf(st.client, ms)
            && Room(end)
    decreases |ms|
  {
    hide Receive, ToClient;
    if ms == [] {
      steps, end := [], st;
    } else {
      assert st.server.out[st.cDone] == ms[0] && ms[0] in ms;
      One(w, st, ClientTake);
      ReceiveKeepsRoom(st.client, ms[0]);
      var next := Apply(w, st, ClientTake);
      assert ms[1..] == st.server.out[st.cDone + 1..st.cIn];
      if Receive(st.client, ms[0]).0 {
        steps, end := ReceiveSome(w, next, ms[1..]);
        Concat(w, st, [ClientTake], next, steps, end);
        steps := [ClientTake] + steps;
      } else {
        steps, end := [ClientTake], next;
      }
    }
  }

  lemma ReceiveKeepsRoom(c: ClientState, m: Msg)
    requires ToClient(m)
    ensures Receive(c, m).1.seqNo == c.seqNo && Receive(c, m).1.lastSent == c.lastSent
  {
    hide ParseSpecs, IndexOfSeq, IndexOfObject, CallOf, FdTotal;
  }

  /** The steps of one batch of the client. */
  lemma HearIsRun(w: World, st: State, upTo: nat) returns (steps: seq<Step>, end: State)
    requires !st.cBusy && !st.client.error && st.client.connected && st.cDone == st.cIn < upTo <= |st.server.out|
    requires Room(st)
    requires forall m :: m in st.server.out[st.cIn..upTo] ==> ToClient(m)
    ensures Runs(w, st, steps, end) && SameServerSide(st, end) && !end.cBusy && end.cIn == upTo
    ensures var (ok, c) := ReceiveAll(st.client, st.server.out[st.cIn..upTo]);
            end.client == (if ok then ClientModel.Flush(c) else Disconnect(c)) && (ok ==> end.cDone == upTo)
            && end.cDone == st.cDone + TakenOf(st.client, st.server.out[st.cIn..upTo])
  {
    hide Receive, Runs, ReceiveAll, ToClient, ClientModel.Flush, Room;
    var ms := st.server.out[st.cIn..upTo];
    var st1 := Apply(w, st, ClientReceive(upTo));
    One(w, st, ClientReceive(upTo));
    SameRoom(st, st1);
    var more, st2 := ReceiveSome(w, st1, ms);
    Concat(w, st, [ClientReceive(upTo)], st1, more, st2);
    steps, end := [ClientReceive(upTo)] + more, st2;
    if st2.cBusy {
      One(w, st2, ClientFinish);
      end := Apply(w, st2, ClientFinish);
      Concat(w, st, steps, st2, [ClientFinish], end);
      steps := steps + [ClientFinish];
    }
  }

  /**
    Client side: in every reachable state between batches, what dispatchEvents does to the octets and
    descriptors of the server's next messages is what a run of steps does.
   */
  lemma ClientBatchIsRun(w: World, before: seq<Step>, st: State, upTo: nat) returns (steps: seq<Step>, end: State)
    requires Transmissible(w) && Runs(w, Init, before, st)
    requires !st.cBusy && !st.client.error && st.client.connected && st.cIn < upTo <= |st.server.out| && Room(st)
    ensures Runs(w, st, steps, end) && SameServerSide(st, end) && !end.cBusy && end.cIn == upTo
    ensures var ms := st.server.out[st.cIn..upTo];
            && (forall m :: m in ms ==> Answerable(m))
            && end.client == ClientDispatch(st.client, BytesOf(ms), FdsOfAll(ms))
            && end.cDone == st.cDone + TakenOf(st.client, ms)
  {
    hide TakenOf, Runs, BytesOf, FdsOfAll, ClientParse, ReceiveAll, At, Encodable, ToClient, ClientModel.Flush, Room,
      Transmissible, Speaks;
    Reached(w, before, st);
    var ms := st.server.out[st.cIn..upTo];
    steps, end := HearIsRun(w, st, upTo);
    AtSelf(BytesOf(ms));
    ClientStream(st.client, BytesOf(ms), 0, ms, []);
    assert FdsOfAll(ms) + [] == FdsOfAll(ms);
  }

  lemma SameRoom(st: State, st': State)
    requires Room(st) && st'.client == st.client && st'.server == st.server
    ensures Room(st')
  {}
}
