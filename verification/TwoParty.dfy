/**
  Client and server joined by two FIFO channels. A channel is the list of all messages ever put
  into it with a count of those taken out and of those handled; a batch is what one read takes out.
  Every interleaving of the two parties, of any batches, of calls inside and outside of listeners
  and of errors on either side is a run of these steps.
 */
module TwoParty {
  import opened Bytes
  import opened WireFormat
  import opened Marshal
  import opened Calls
  import opened Spec
  import opened Messages
  import opened ServerModel
  import opened ClientModel

  /** Which implementations the two programs have registered. */
  datatype World = World(cenv: ClientEnv, senv: ServerEnv)

  /** A protocol as the generator emits it. */
  ghost predicate WellFormedProtocol(p: Protocol) {
    && p.objects != []
    && forall o :: o in p.objects ==>
         && (forall m :: m in o.c2s ==> Known(m.params, 0))
         && (forall m :: m in o.s2c ==> Known(m.params, 0))
  }

  /** Both parties were generated from the same description of each protocol they share. */
  ghost predicate WellFormed(w: World) {
    && (forall p :: p in w.cenv.protocols ==> WellFormedProtocol(p))
    && (forall p :: p in w.senv.protocols ==> WellFormedProtocol(p))
    && (forall p, q :: p in w.cenv.protocols && q in w.senv.protocols && p.name == q.name ==> p.objects == q.objects)
  }

  /**
    `sIn` messages of the client have been taken out by the server and `sDone` handled; the batch at
    hand begins at `sFrom`. `cIn` and `cDone` likewise for the client. `sBusy` and `cBusy`: a batch is
    being dispatched. `causes[j]` is history: how many client messages the server had begun to handle
    when it sent its j-th.
   */
  datatype State = State(
    client: ClientState, server: ServerState, causes: seq<nat>,
    sFrom: nat, sIn: nat, sDone: nat, sBusy: bool,
    cIn: nat, cDone: nat, cBusy: bool)

  const Init := State(NewClient, NewServer, [], 0, 0, 0, false, 0, 0, false)

  datatype Step =
    | Bind(protocol: Protocol, version: nat)
    | CallOutside(slot: nat, methodId: nat, args: seq<CallArg>)
    | AskRoundtrip
    | ClientReceive(upTo: nat)
    | ClientTake
    | CallInListener(slot: nat, methodId: nat, args: seq<CallArg>)
    | ClientFinish
    | ClientDrop
    | ServerReceive(upTo: nat)
    | ServerTake
    | ServerSend(msg: Msg)
    | ServerComplain(k: nat)
    | ServerFinish

  const MAX := 0xffff_ffff

  /** No counter of either party is about to wrap around. */
  predicate Room(st: State) {
    st.client.seqNo < MAX && st.client.lastSent < MAX && st.server.maxId < MAX
  }

  /** The arguments are those the method takes, none 2^28 or more long. */
  ghost predicate GoodCall(o: ClientObject, methodId: nat, args: seq<CallArg>) {
    && methodId < 0x1_0000_0000
    && (Callable(o, methodId) ==>
          var m := o.spec.c2s[methodId];
          Known(m.params, 0) && Fits(m.params, 0, args) && AllShort(args))
  }

  /** Where the message of a call goes. */
  function Posted(c: ClientState, slot: nat, msg: Msg, no: int): ClientState
    requires slot < |c.objects|
  {
    var o := c.objects[slot];
    if o.id == 0 then c.(pending := c.pending + [Pending(o.seqNo, msg, slot, no)]) else Send(c, Sent(msg, slot, no))
  }

  /** A call with a return type allocates a sequence first and adds the child last. */
  lemma CallParts(env: ClientEnv, c: ClientState, slot: nat, methodId: nat, args: seq<CallArg>, no: int)
    requires slot < |c.objects| && GoodCall(c.objects[slot], methodId, args) && Callable(c.objects[slot], methodId)
    ensures var o := c.objects[slot];
            var m := o.spec.c2s[methodId];
            var c1 := c.(seqNo := c.seqNo + 1);
            Call(env, c, slot, methodId, args, no) ==
            if m.returnsType == [] then Posted(c, slot, CallMessage(o, methodId, None, args), no)
            else MakeObject(env, Posted(c1, slot, CallMessage(o, methodId, Some(Low32(c1.seqNo)), args), no),
                o.protocol, m.returnsType, c1.seqNo)
  {
    hide MakeObject, CallMessage, Fits, Known, AllShort;
  }

  /** What a call does to the lists of a client. */
  lemma CallShape(env: ClientEnv, c: ClientState, slot: nat, methodId: nat, args: seq<CallArg>, no: int)
    requires slot < |c.objects| && GoodCall(c.objects[slot], methodId, args) && Callable(c.objects[slot], methodId)
    ensures var c' := Call(env, c, slot, methodId, args, no);
            var o := c.objects[slot];
            var m := o.spec.c2s[methodId];
            var msg := CallMessage(o, methodId, if m.returnsType != [] then Some(Low32(c.seqNo + 1)) else None, args);
            && c'.pending == (if o.id == 0 then c.pending + [Pending(o.seqNo, msg, slot, no)] else c.pending)
            && c'.out == (if o.id != 0 && c.connected then c.out + [Sent(msg, slot, no)] else c.out)
            && |c'.objects| >= |c.objects| && c'.objects[..|c.objects|] == c.objects
            && c' == c.(seqNo := c'.seqNo, objects := c'.objects, pending := c'.pending, out := c'.out)
  {
    hide Find, FindObject, CallMessage, Fits, Known, AllShort, Listeners;
  }

  lemma Uncallable(env: ClientEnv, c: ClientState, slot: nat, methodId: nat, args: seq<CallArg>, no: int)
    requires slot < |c.objects| && GoodCall(c.objects[slot], methodId, args) && !Callable(c.objects[slot], methodId)
    ensures Call(env, c, slot, methodId, args, no) == c
  {}

  ghost predicate Enabled(w: World, st: State, step: Step) {
    && Room(st)
    && match step
       case Bind(p, version) => !st.cBusy && Find(w.cenv.protocols, p.name) == Some(p) && p.objects != []
           && version <= MAX
       case CallOutside(slot, methodId, args) =>
         !st.cBusy && slot < |st.client.objects| && GoodCall(st.client.objects[slot], methodId, args)
       case AskRoundtrip => !st.cBusy
       case ClientReceive(upTo) =>
         !st.cBusy && !st.client.error && st.client.connected && st.cIn < upTo <= |st.server.out|
       case ClientTake => st.cBusy && st.cDone < st.cIn <= |st.server.out| && ToClient(st.server.out[st.cDone])
       case CallInListener(slot, methodId, args) =>
         st.cBusy && slot < |st.client.objects| && GoodCall(st.client.objects[slot], methodId, args)
       case ClientFinish => st.cBusy && st.cDone == st.cIn
       case ClientDrop => true
       case ServerReceive(upTo) => !st.sBusy && st.sIn < upTo <= |st.client.out|
       case ServerTake =>
         && st.sBusy && !st.server.error && st.sDone < st.sIn <= |st.client.out|
         && ToServer(st.client.out[st.sDone].msg)
       case ServerSend(msg) => msg.Generic? && Encodable(msg)
       case ServerComplain(k) => k < |st.server.objects|
       case ServerFinish => st.sBusy && (st.server.error || st.sDone == st.sIn)
  }

  /** The server's state moves to `s`; what it sent meanwhile is due to the first `cause` messages. */
  function WithServer(st: State, s: ServerState, cause: nat): State
    requires |s.out| >= |st.server.out|
  {
    st.(server := s, causes := st.causes + seq(|s.out| - |st.server.out|, _ => cause))
  }

  predicate LeftoverFds(st: State)
    requires st.sIn <= |st.client.out|
  {
    exists i :: st.sDone <= i < st.sIn && st.sFrom <= i && FdsOfMsg(st.client.out[i].msg) != []
  }

  /** A batch that leaves descriptors behind is answered with a fatal error, any other by its roundtrip. */
  ghost function FinishServer(st: State): ServerState {
    if st.sIn <= |st.client.out| && LeftoverFds(st) then Reject(st.server)
    else Acknowledge(st.server)
  }

  /** A frame the receiving constructor gives up: binding to version 0. */
  predicate Malformed(m: Msg) { m.BindProtocol? && m.version == 0 }

  /** The answer to a batch that cannot be parsed to its end. */
  function Reject(s: ServerState): ServerState { Sending(s, FatalError(0, MAX, [])).(error := true) }

  lemma HandleSends(env: ServerEnv, s: ServerState, m: Msg)
    requires ToServer(m)
    ensures s.out <= Handle(env, s, m).out
  {
    hide Find, SpecFor, CallOf, FdTotal, IndexOfId;
  }

  ghost function Apply(w: World, st: State, step: Step): State
    requires Enabled(w, st, step)
  {
    match step
    case Bind(p, version) => st.(client := ClientModel.Bind(w.cenv, st.client, p, version))
    case CallOutside(slot, methodId, args) =>
      var c := st.client.(callNo := st.client.callNo + 1);
      st.(client := Call(w.cenv, c, slot, methodId, args, c.callNo))
    case AskRoundtrip => st.(client := Roundtrip(st.client))
    case ClientReceive(upTo) => st.(cIn := upTo, cBusy := true)
    case ClientTake =>
      var (ok, c) := Receive(st.client, st.server.out[st.cDone]);
      if ok then st.(client := c, cDone := st.cDone + 1)
      else st.(client := Disconnect(c), cDone := st.cDone + 1, cBusy := false)
    case CallInListener(slot, methodId, args) =>
      var c := st.client.(callNo := st.client.callNo + 1);
      st.(client := Call(w.cenv, c, slot, methodId, args, Inside(c.callNo)))
    case ClientFinish => st.(client := ClientModel.Flush(st.client), cBusy := false)
    case ClientDrop => st.(client := Disconnect(st.client))
    case ServerReceive(upTo) => st.(sFrom := st.sIn, sIn := upTo, sBusy := true)
    case ServerTake =>
      HandleSends(w.senv, st.server, st.client.out[st.sDone].msg);
      if Malformed(st.client.out[st.sDone].msg) then WithServer(st, Reject(st.server), st.sDone).(sBusy := false)
      else WithServer(st, Handle(w.senv, st.server, st.client.out[st.sDone].msg), st.sDone + 1).(sDone := st.sDone + 1)
    case ServerSend(msg) => WithServer(st, Sending(st.server, msg), st.sDone)
    case ServerComplain(k) => WithServer(st, Complain(st.server, st.server.objects[k]), st.sDone)
    case ServerFinish => WithServer(st, FinishServer(st), st.sDone).(sBusy := false)
  }

  /** `steps` leads from `st` to `end`. */
  ghost predicate Runs(w: World, st: State, steps: seq<Step>, end: State)
    decreases |steps|
  {
    if steps == [] then st == end
    else Enabled(w, st, steps[0]) && Runs(w, Apply(w, st, steps[0]), steps[1..], end)
  }

  // ---- what a client step can do to the messages sent -------------------------------------

  /** `b` continues `a`. */
  ghost predicate Continues<T>(a: seq<T>, b: seq<T>) { |a| <= |b| && forall i :: 0 <= i < |a| ==> b[i] == a[i] }
}
