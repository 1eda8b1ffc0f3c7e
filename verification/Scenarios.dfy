/**
  Runs of two small programs, step by step from the first octet, that show the two ways in which a
  deferred call goes astray: one call overtaken by a later one, and one resolved to an id of 256.
 */
module Scenarios {
  import opened Bytes
  import opened WireFormat
  import opened Demarshal
  import opened Marshal
  import opened Calls
  import opened Spec
  import opened Messages
  import opened ServerModel
  import opened ClientModel
  import opened TwoParty
  import opened Stream
  import CallOrder
  import Deferral
  import Handshake
  import Refinement

  /** Protocol `p` with the object `a`: its method 0 makes another `a`, its method 1 and its one event carry nothing. */
  const NAME: Name := [97]
  const MAKE := Method([], NAME, 0)
  const PLAIN := Method([], [], 0)
  const SPEC := ObjectSpec(NAME, [MAKE, PLAIN], [PLAIN])
  const PROTOCOL := Protocol([112], 1, [SPEC])

  const SMALL := World(ClientEnv([PROTOCOL], map[([112], NAME) := [true]]),
                       ServerEnv([PROTOCOL], map[([112], NAME) := [true, true]]))

  lemma SmallIsWellFormed()
    ensures WellFormed(SMALL)
    ensures Find([PROTOCOL], [112]) == Some(PROTOCOL) && FindObject([SPEC], NAME) == Some(SPEC)
  {
    assert [PROTOCOL][0].name == [112];
    assert [SPEC][0].name == NAME;
    assert Known([], 0);
  }

  /** The n-th object, by either party; a child takes no version on the client. */
  function OurObject(n: nat, id: nat): ClientObject {
    ClientObject(id, n, if n == 1 then 1 else 0, [112], SPEC, [true])
  }

  function TheirObject(n: nat): ServerObject { ServerObject(n, 1, [112], Some(SPEC), [true, true], n) }

  /** Both parties are idle and have `n` objects. */
  ghost predicate Tidy(st: State, n: nat) {
    && !st.sBusy && !st.cBusy && st.sDone == st.sIn == |st.client.out| && st.cDone == st.cIn == |st.server.out|
    && TidyClient(st.client, n) && TidyServer(st.server, n)
  }

  ghost predicate TidyClient(c: ClientState, n: nat) {
    && c.connected && !c.error && !c.truncated && c.pending == [] && c.calls == []
    && c.seqNo == n && c.callNo + 1 == n && c.lastSent == 0
    && |c.objects| == n && forall k :: 0 <= k < n ==> c.objects[k] == OurObject(k + 1, k + 1)
  }

  ghost predicate TidyServer(s: ServerState, n: nat) {
    && !s.error && s.scheduled == 0 && s.maxId == n + 1
    && |s.objects| == n && (forall k :: 0 <= k < n ==> s.objects[k] == TheirObject(k + 1))
    && forall x :: x in s.calls ==> x.methodId == 0
  }

  // ---- one message each way -----------------------------------------------------------------------

  /** The server dispatches the one message that is on the wire. */
  lemma ServerTurn(st: State, m: Msg) returns (steps: seq<Step>, end: State)
    requires !st.sBusy && st.sDone == st.sIn && |st.client.out| == st.sIn + 1 && st.client.out[st.sIn].msg == m
    requires ToServer(m) && Encodable(m) && Room(st) && st.server.maxId + 1 < MAX && !st.server.error
    requires !Handle(SMALL.senv, st.server, m).error && Handle(SMALL.senv, st.server, m).scheduled == 0
    ensures Runs(SMALL, st, steps, end) && Refinement.SameClientSide(st, end)
    ensures end.server == Handle(SMALL.senv, st.server, m)
    ensures !end.sBusy && end.sDone == end.sIn == |end.client.out|
  {
    hide Handle, Runs, Room, ToServer, Encodable;
    var out := st.client.out;
    assert out[st.sIn..] == [out[st.sIn]];
    var ms := Refinement.MsgsOf(out[st.sIn..|out|]);
    assert ms == [m];
    OneTaken(SMALL.senv, st.server, m);
    steps, end := Refinement.BatchIsRun(SMALL, st, |out|);
  }

  lemma OneTaken(env: ServerEnv, s: ServerState, m: Msg)
    requires ToServer(m) && Encodable(m) && !s.error
    ensures AllPostable([m]) && TakeUpTo(env, s, [m]) == Taken(Handle(env, s, m), 1, false) && FdsOfAll([m][1..]) == []
  {
    hide Handle;
    assert [m][1..] == [];
  }

  /** The client dispatches the one message that is on the wire. */
  lemma ClientTurn(st: State, m: Msg) returns (steps: seq<Step>, end: State)
    requires !st.cBusy && !st.client.error && st.client.connected && st.cDone == st.cIn && Room(st)
    requires |st.server.out| == st.cIn + 1 && st.server.out[st.cIn] == m && ToClient(m) && Receive(st.client, m).0
    ensures Runs(SMALL, st, steps, end) && Refinement.SameServerSide(st, end)
    ensures end.client == ClientModel.Flush(Receive(st.client, m).1)
    ensures !end.cBusy && end.cDone == end.cIn == |end.server.out|
  {
    hide Receive, Runs, Room, ToClient, ClientModel.Flush;
    assert st.server.out[st.cIn..|st.server.out|] == [m] && [m][1..] == [];
    assert ReceiveAll(st.client, [m]) == (true, Receive(st.client, m).1);
    steps, end := Refinement.HearIsRun(SMALL, st, |st.server.out|);
  }

  /** A message, its answer and nothing else on the way. */
  lemma Exchange(st: State, m: Msg, a: Msg) returns (steps: seq<Step>, end: State)
    requires !st.sBusy && st.sDone == st.sIn && |st.client.out| == st.sIn + 1 && st.client.out[st.sIn].msg == m
    requires ToServer(m) && Encodable(m) && Room(st) && st.server.maxId + 2 < MAX && !st.server.error
    requires !st.cBusy && !st.client.error && st.client.connected && st.cDone == st.cIn == |st.server.out|
    requires ToClient(a) && Receive(st.client, a).0
    requires var s := Handle(SMALL.senv, st.server, m); s.out == st.server.out + [a] && !s.error && s.scheduled == 0
    ensures Runs(SMALL, st, steps, end)
    ensures end.server == Handle(SMALL.senv, st.server, m) && end.client == ClientModel.Flush(Receive(st.client, a).1)
    ensures !end.sBusy && end.sDone == end.sIn == |st.client.out|
    ensures !end.cBusy && end.cDone == end.cIn == |end.server.out|
  {
    hide Receive, Handle, Runs, ToClient, ToServer, Encodable, ClientModel.Flush;
    var there, st1 := ServerTurn(st, m);
    Refinement.MaxIdGrows(SMALL.senv, st.server, m);
    var back, st2 := ClientTurn(st1, a);
    Refinement.Concat(SMALL, st, there, st1, back, st2);
    steps, end := there + back, st2;
  }

  lemma FlushNothing(c: ClientState)
    requires c.pending == []
    ensures ClientModel.Flush(c) == c
  {
    assert Released(c.objects, []) == [] && c.out + [] == c.out;
  }

  // ---- the beginning ------------------------------------------------------------------------------

  /** The server creates the object that was bound. */
  lemma Bound(st: State) returns (steps: seq<Step>, end: State)
    requires !st.sBusy && !st.cBusy && st.cDone == st.cIn == |st.server.out| && st.sDone == st.sIn
    requires |st.client.out| == st.sIn + 1 && st.client.out[st.sIn].msg == BindProtocol([112], 1, 1)
    requires TidyServer(st.server, 0)
    requires TidyClient(st.client.(objects := [OurObject(1, 1)]), 1) && st.client.objects == [OurObject(1, 0)]
    ensures Runs(SMALL, st, steps, end) && Tidy(end, 1)
  {
    hide Runs;
    SmallIsWellFormed();
    steps, end := Exchange(st, BindProtocol([112], 1, 1), NewObject(1, 1));
    FlushNothing(Receive(st.client, NewObject(1, 1)).1);
  }

  /** Handshake and bind. */
  lemma Start() returns (steps: seq<Step>, end: State)
    ensures Runs(SMALL, Init, steps, end) && Tidy(end, 1)
  {
    hide ParseSpecs, SpecStrings, Runs;
    SmallIsWellFormed();
    var hello, st1 := Exchange(Init, Hello, HandshakeBegin([PROTOCOL_VERSION]));
    FlushNothing(Receive(NewClient, HandshakeBegin([PROTOCOL_VERSION])).1);
    Handshake.SpecsAreParsed([PROTOCOL]);
    var list := HandshakeProtocols(SpecStrings([PROTOCOL]));
    var ack, st2 := Exchange(st1, HandshakeAck(PROTOCOL_VERSION), list);
    FlushNothing(Receive(st1.client, list).1);
    Refinement.Concat(SMALL, Init, hello, st1, ack, st2);
    var bind := Bind(PROTOCOL, 1);
    Refinement.One(SMALL, st2, bind);
    var st3 := Apply(SMALL, st2, bind);
    Refinement.Concat(SMALL, Init, hello + ack, st2, [bind], st3);
    steps, end := Bound(st3);
    Refinement.Concat(SMALL, Init, hello + ack + [bind], st3, steps, end);
    steps := hello + ack + [bind] + steps;
  }

  // ---- creating objects ---------------------------------------------------------------------------

  /** A call that makes an object: method 0 of the first one. */
  function Make(seqNo: nat): Msg { Generic(1, 0, [Word(SEQ, Low32(seqNo))], []) }

  /** A call of method 1, with the object's id or, while it waits for it, 0. */
  function Plain(id: u32): Msg { Generic(id, 1, [], []) }

  lemma MakeIsSent(c: ClientState, n: nat)
    requires 1 <= n < MAX && TidyClient(c.(callNo := n - 1), n)
    ensures GoodCall(c.objects[0], 0, []) && Callable(c.objects[0], 0)
    ensures Call(SMALL.cenv, c, 0, 0, [], c.callNo) ==
            c.(seqNo := n + 1, objects := c.objects + [OurObject(n + 1, 0)],
               out := c.out + [Sent(Make(n + 1), 0, c.callNo)])
  {
    SmallIsWellFormed();
    assert [] + [Word(SEQ, Low32(n + 1))] == [Word(SEQ, Low32(n + 1))] == [Word(SEQ, Low32(n + 1))] + [];
  }

  lemma MakeIsHandled(s: ServerState, n: nat)
    requires 1 <= n < MAX && TidyServer(s, n)
    ensures ToServer(Make(n + 1)) && Encodable(Make(n + 1))
    ensures var s' := Handle(SMALL.senv, s, Make(n + 1));
            TidyServer(s', n + 1) && s'.out == s.out + [NewObject(n + 1, n + 1)]
  {
    hide CallOf, FdTotal, CreateObject;
    var m := Make(n + 1);
    assert m.args[1..] == [];
    assert IndexOfId(s.objects, 1) == 0 by { assert s.objects[0] == TheirObject(1); }
    MakeIsDelivered(n + 1);
    var s1 := s.(calls := s.calls + [ListenerCall(1, 0, [Self, U32(SEQ, n + 1)])]);
    TheirObjectIsMade(s1, n);
  }

  lemma TheirObjectIsMade(s: ServerState, n: nat)
    requires 1 <= n < MAX && TidyServer(s, n)
    ensures var s' := CreateObject(SMALL.senv, s, [112], NAME, 1, n + 1);
            TidyServer(s', n + 1) && s'.out == s.out + [NewObject(n + 1, n + 1)]
  {
    hide Find, FindObject;
    SmallIsWellFormed();
  }

  lemma MakeIsDelivered(n: nat)
    requires n <= MAX
    ensures FdTotal(Make(n).args) == 0
    ensures CallOf(SPEC.c2s, [true, true], 1, 0, Make(n).args, []) == Delivered([Self, U32(SEQ, n)])
  {
    var args := Make(n).args;
    assert args[1..] == [];
    assert Params(MAKE) == [SEQ];
    assert CheckFrom([SEQ], 1, []) == Pass([]);
    assert CheckFrom([SEQ], 0, args) == Pass([UInt32]);
    assert ArgsValues(args, []) == [U32(SEQ, n)];
  }

  /** The new object got its id. */
  lemma MakeIsAnswered(c: ClientState, n: nat, m: nat)
    requires 1 <= n < MAX && |c.objects| == n + 1 && c.objects[n] == OurObject(n + 1, 0)
    requires forall k :: 0 <= k < n ==> c.objects[k] == OurObject(k + 1, k + 1)
    ensures Receive(c, NewObject(n + 1, n + 1)) == (true, c.(objects := c.objects[n := OurObject(n + 1, n + 1)]))
  {
    assert IndexOfSeq(c.objects, n + 1) == n;
  }

  /** One more object, a message each way. */
  lemma Grow(st: State, n: nat) returns (steps: seq<Step>, end: State)
    requires Tidy(st, n) && 1 <= n < 1000
    ensures Runs(SMALL, st, steps, end) && Tidy(end, n + 1)
  {
    hide Runs, Handle, Receive, Call, ToServer, Encodable, ToClient, GoodCall, Callable;
    var call := CallOutside(0, 0, []);
    var c := st.client.(callNo := n);
    MakeIsSent(c, n);
    var st1 := Apply(SMALL, st, call);
    Refinement.One(SMALL, st, call);
    MakeIsHandled(st.server, n);
    MakeIsAnswered(st1.client, n, n);
    AnswerIsForClient(n + 1);
    steps, end := Exchange(st1, Make(n + 1), NewObject(n + 1, n + 1));
    FlushNothing(Receive(st1.client, NewObject(n + 1, n + 1)).1);
    Refinement.Concat(SMALL, st, [call], st1, steps, end);
    steps := [call] + steps;
  }

  lemma AnswerIsForClient(n: u32)
    ensures ToClient(NewObject(n, n))
  {}

  /** As many objects as one likes. */
  lemma {:induction false} Grown(n: nat) returns (steps: seq<Step>, end: State)
    requires 1 <= n < 1000
    ensures Runs(SMALL, Init, steps, end) && Tidy(end, n)
    decreases n
  {
    hide Runs, Tidy;
    if n == 1 {
      steps, end := Start();
    } else {
      var before, st := Grown(n - 1);
      steps, end := Grow(st, n - 1);
      Refinement.Concat(SMALL, Init, before, st, steps, end);
      steps := before + steps;
    }
  }

  // ---- a deferred call ----------------------------------------------------------------------------

  lemma PlainIsPosted(c: ClientState, slot: nat, id: u32, no: int)
    requires slot < |c.objects| && c.objects[slot] == OurObject(slot + 1, id)
    ensures GoodCall(c.objects[slot], 1, []) && Callable(c.objects[slot], 1)
    ensures Call(SMALL.cenv, c, slot, 1, [], no) == TwoParty.Posted(c, slot, Plain(id), no)
  {
    SmallIsWellFormed();
    var args: seq<Arg> := [];
    assert args + [] == [];
  }

  /** An object is asked for and, before it has its id, called. */
  lemma MakeAndCall(st: State, n: nat) returns (steps: seq<Step>, end: State)
    requires Tidy(st, n) && 1 <= n < 1000
    ensures Runs(SMALL, st, steps, end)
    ensures end == st.(client := end.client)
    ensures var c := st.client;
            end.client == c.(seqNo := n + 1, callNo := n + 1, objects := c.objects + [OurObject(n + 1, 0)],
                out := c.out + [Sent(Make(n + 1), 0, n)], pending := [Pending(n + 1, Plain(0), n, n + 1)])
  {
    hide Runs, Call, GoodCall, Callable;
    var call, plain := CallOutside(0, 0, []), CallOutside(n, 1, []);
    MakeIsSent(st.client.(callNo := n), n);
    var st1 := Apply(SMALL, st, call);
    Refinement.One(SMALL, st, call);
    PlainIsPosted(st1.client.(callNo := n + 1), n, 0, n + 1);
    end := Apply(SMALL, st1, plain);
    Refinement.One(SMALL, st1, plain);
    Refinement.Concat(SMALL, st, [call], st1, [plain], end);
    steps := [call] + [plain];
  }

  /** What the flush makes of the deferred call. */
  lemma PlainIsFlushed(c: ClientState, n: nat, id: u32)
    requires |c.objects| == n + 1 && c.objects[n] == OurObject(n + 1, id) && id != 0 && c.connected
    requires forall k :: 0 <= k < n ==> c.objects[k] == OurObject(k + 1, k + 1)
    requires c.pending == [Pending(n + 1, Plain(0), n, n + 1)]
    ensures ClientModel.Flush(c) ==
            c.(pending := [], out := c.out + [Sent(Plain(id % 256), n, n + 1)], truncated := c.truncated || id >= 256)
  {
    assert IndexOfSeq(c.objects, n + 1) == n;
    assert c.pending[1..] == [];
    assert FateOf(c.objects, c.pending[0]) == Release(id);
    assert Resolve(Plain(0), id) == Plain(id % 256);
    assert Kept(c.objects, c.pending) == [];
    assert Released(c.objects, c.pending) == [Sent(Plain(id % 256), n, n + 1)];
    assert AnyWide(c.objects, c.pending) == (id >= 256);
  }

  /**
    With 255 objects in the tables a call waits for the 256th. It goes out for object 0, which is none:
    the server drops it.
   */
  lemma CallIsLost() returns (steps: seq<Step>, st: State)
    ensures Runs(SMALL, Init, steps, st) && st.client.truncated && !st.server.error && st.client.connected
    ensures |st.client.objects| == 256 && st.client.objects[255].id == 256
    ensures st.client.out != [] && st.client.out[|st.client.out| - 1] == Sent(Plain(0), 255, 256)
    ensures st.sDone == |st.client.out| && forall x :: x in st.server.calls ==> x.methodId == 0
  {
    hide Runs, Handle, Receive, ToServer, Encodable, ToClient, ClientModel.Flush;
    var before, st0 := Grown(255);
    var making, st1 := MakeAndCall(st0, 255);
    Refinement.Concat(SMALL, Init, before, st0, making, st1);
    MakeIsHandled(st1.server, 255);
    MakeIsAnswered(st1.client, 255, 255);
    AnswerIsForClient(256);
    var exchange, st2 := Exchange(st1, Make(256), NewObject(256, 256));
    PlainIsFlushed(Receive(st1.client, NewObject(256, 256)).1, 255, 256);
    Refinement.Concat(SMALL, Init, before + making, st1, exchange, st2);
    PlainForNone(st2.server, 256);
    steps, st := ServerTurn(st2, Plain(0));
    Refinement.Concat(SMALL, Init, before + making + exchange, st2, steps, st);
    steps := before + making + exchange + steps;
  }

  lemma PlainForNone(s: ServerState, n: nat)
    requires TidyServer(s, n)
    ensures ToServer(Plain(0)) && Encodable(Plain(0)) && Handle(SMALL.senv, s, Plain(0)) == s
  {}

  // ---- a call overtaken ---------------------------------------------------------------------------

  /** The event of the first object. */
  const EVENT := Generic(1, 0, [], [])

  lemma EventIsHeard(c: ClientState)
    requires c.objects != [] && c.objects[0] == OurObject(1, 1)
    ensures ToClient(EVENT) && Encodable(EVENT)
    ensures Receive(c, EVENT) == (true, c.(calls := c.calls + [ListenerCall(1, 0, [Self])]))
  {
    assert Params(PLAIN) == [];
    var args: seq<Arg> := [];
    assert IndexOfObject(c.objects, 1) == 0;
    assert CallOf(SPEC.s2c, [true], c.objects[0].version, 0, args, []) == Delivered([Self]);
  }

  /** The server makes the object and, in the same batch, sends an event. */
  lemma MadeWithEvent() returns (steps: seq<Step>, st: State)
    ensures Runs(SMALL, Init, steps, st) && Room(st)
    ensures !st.cBusy && st.cDone == st.cIn <= |st.server.out| && st.server.out[st.cIn..] == [NewObject(2, 2), EVENT]
    ensures var c := st.client;
            && c.objects == [OurObject(1, 1), OurObject(2, 0)] && c.pending == [Pending(2, Plain(0), 1, 2)]
            && c.connected && !c.error && !c.truncated && c.calls == [] && c.callNo == 2
  {
    hide Runs, Handle, Receive, ToServer, Encodable, ToClient, ClientModel.Flush;
    var before, st0 := Grown(1);
    var making, st1 := MakeAndCall(st0, 1);
    Refinement.Concat(SMALL, Init, before, st0, making, st1);
    MakeIsHandled(st1.server, 1);
    var there, st2 := ServerTurn(st1, Make(2));
    Refinement.Concat(SMALL, Init, before + making, st1, there, st2);
    EventIsHeard(st0.client);
    st := Apply(SMALL, st2, ServerSend(EVENT));
    Refinement.One(SMALL, st2, ServerSend(EVENT));
    Refinement.Concat(SMALL, Init, before + making + there, st2, [ServerSend(EVENT)], st);
    steps := before + making + there + [ServerSend(EVENT)];
  }

  lemma Then(st: State, step: Step, next: State, steps: seq<Step>, end: State)
    requires Enabled(SMALL, st, step) && Apply(SMALL, st, step) == next && Runs(SMALL, next, steps, end)
    ensures Runs(SMALL, st, [step] + steps, end)
  {
    hide Enabled, Apply;
    assert ([step] + steps)[1..] == steps;
  }

  /** The client takes both messages of the batch. */
  lemma HearsBoth(st: State) returns (steps: seq<Step>, end: State)
    requires Room(st) && !st.cBusy && st.cDone == st.cIn <= |st.server.out|
    requires st.server.out[st.cIn..] == [NewObject(2, 2), EVENT]
    requires var c := st.client;
             && c.objects == [OurObject(1, 1), OurObject(2, 0)] && c.connected && !c.error && c.calls == []
    ensures Runs(SMALL, st, steps, end) && Room(end) && end.cBusy && end.cDone == end.cIn
    ensures end.client == st.client.(objects := [OurObject(1, 1), OurObject(2, 2)], calls := [ListenerCall(1, 0, [Self])])
  {
    hide Runs, Handle, Receive, ToServer, Encodable, ToClient;
    var all := |st.server.out|;
    var tail := st.server.out[st.cIn..];
    assert tail[0] == st.server.out[st.cIn] && tail[1] == st.server.out[st.cIn + 1];
    AnswerIsForClient(2);
    MakeIsAnswered(st.client, 1, 1);
    var st1 := Apply(SMALL, st, ClientReceive(all));
    var st2 := Apply(SMALL, st1, ClientTake);
    EventIsHeard(st2.client);
    end := Apply(SMALL, st2, ClientTake);
    Refinement.One(SMALL, st2, ClientTake);
    Then(st1, ClientTake, st2, [ClientTake], end);
    steps := [ClientTake] + [ClientTake];
    Then(st, ClientReceive(all), st1, steps, end);
    steps := [ClientReceive(all)] + steps;
  }

  /** The listener of the event calls the object that has just got its id. */
  lemma ListenerCalls(st: State) returns (steps: seq<Step>, end: State)
    requires Room(st) && st.cBusy && st.cDone == st.cIn
    requires var c := st.client;
             && c.objects == [OurObject(1, 1), OurObject(2, 2)] && c.pending == [Pending(2, Plain(0), 1, 2)]
             && c.connected && !c.truncated && c.callNo == 2
    ensures Runs(SMALL, st, steps, end)
    ensures end.client == st.client.(pending := [], callNo := 3,
                out := st.client.out + [Sent(Plain(2), 1, -3), Sent(Plain(2), 1, 2)])
  {
    hide Runs, Call, ClientModel.Flush, GoodCall, Callable;
    PlainIsPosted(st.client.(callNo := 3), 1, 2, -3);
    var call := CallInListener(1, 1, []);
    var st1 := Apply(SMALL, st, call);
    PlainIsFlushed(st1.client, 1, 2);
    end := Apply(SMALL, st1, ClientFinish);
    Refinement.One(SMALL, st1, ClientFinish);
    Then(st, call, st1, [ClientFinish], end);
    steps := [call] + [ClientFinish];
  }

  /**
    A call made outside waits for its object's id. In the batch that brings the id a listener calls the
    same object: its call, the third, is on the wire before the second.
   */
  lemma CallIsOvertaken() returns (steps: seq<Step>, st: State)
    ensures Runs(SMALL, Init, steps, st) && st.client.connected && !st.client.truncated
    ensures var out := st.client.out;
            |out| >= 2 && out[|out| - 2..] == [Sent(Plain(2), 1, Inside(3)), Sent(Plain(2), 1, 2)]
    ensures !Deferral.NoneHasty(SMALL, Init, steps, st, 1, Deferral.Any)
  {
    hide Runs, Deferral.NoneHasty;
    var before, st0 := MadeWithEvent();
    var heard, st1 := HearsBoth(st0);
    Refinement.Concat(SMALL, Init, before, st0, heard, st1);
    steps, st := ListenerCalls(st1);
    Refinement.Concat(SMALL, Init, before + heard, st1, steps, st);
    steps := before + heard + steps;
    SmallIsWellFormed();
    ThirdBeforeSecond(st.client, st0.client.out);
    CallOrder.OrderIsKeptExactly(SMALL, steps, st, 1);
  }

  lemma ThirdBeforeSecond(c: ClientState, out: seq<Sent>)
    requires c.pending == [] && c.out == out + [Sent(Plain(2), 1, Inside(3)), Sent(Plain(2), 1, 2)]
    ensures !CallOrder.InOrder(Deferral.AllCalls(c, 1, Deferral.Any))
  {
    var last := [Sent(Plain(2), 1, Inside(3)), Sent(Plain(2), 1, 2)];
    Deferral.SentCallsAll(out, last, 1, Deferral.Any);
    var calls, end := Deferral.SentCalls(out, 1, Deferral.Any), Deferral.SentCalls(last, 1, Deferral.Any);
    assert last[1..] == [Sent(Plain(2), 1, 2)] && last[1..][1..] == [];
    assert end == [Deferral.Body(-3, 1, [], []), Deferral.Body(2, 1, [], [])];
    var all := Deferral.AllCalls(c, 1, Deferral.Any);
    assert all[|calls|] == end[0] && all[|calls| + 1] == end[1];
  }
}
