/**
  The client's waits as part of the runs of both parties: what poll and read give is what the server has
  put on the wire meanwhile, and a wait that is over has brought about what it was for.
 */
module Returns {
  import opened Bytes
  import opened WireFormat
  import opened Calls
  import opened Spec
  import opened Messages
  import opened ClientModel
  import opened TwoParty
  import opened Stream
  import opened Waiting
  import opened Refinement
  import RoundtripSafety
  import ObjectAgreement

  predicate AllAnswerable(ms: seq<Msg>) { forall m :: m in ms ==> ToClient(m) && Encodable(m) }

  /** Nothing sent is taken back, no object changed but for its id, and no connection given up without an error. */
  ghost predicate GoesOn(a: ClientState, b: ClientState) {
    && Continues(a.out, b.out) && |a.objects| == |b.objects|
    && (forall i :: 0 <= i < |a.objects| ==> b.objects[i] == a.objects[i].(id := b.objects[i].id))
    && (a.error || a.connected ==> b.error || b.connected)
  }

  lemma ReceiveGoesOn(c: ClientState, m: Msg)
    requires ToClient(m)
    ensures GoesOn(c, Receive(c, m).1)
  {
    hide ParseSpecs, IndexOfSeq, IndexOfObject, CallOf, FdTotal;
  }

  lemma {:induction false} ParseGoesOn(c: ClientState, data: seq<byte>, off: nat, fds: seq<int>)
    ensures GoesOn(c, ClientParse(c, data, off, fds).state)
    decreases |data| - off
  {
    hide ReadFrame, Receive, ToClient, FdsOfMsg;
    if off < |data| && ReadFrame(data, off, fds).Some? && ToClient(ReadFrame(data, off, fds).value.msg) {
      var f := ReadFrame(data, off, fds).value;
      Stream.TakeOne(c, data, off, fds, f);
      ReceiveGoesOn(c, f.msg);
      var (ok, c') := Receive(c, f.msg);
      if ok { ParseGoesOn(c', data, f.next, fds[|FdsOfMsg(f.msg)|..]); }
    }
  }

  lemma BatchGoesOn(c: ClientState, data: seq<byte>, fds: seq<int>)
    ensures GoesOn(c, ClientDispatch(c, data, fds))
  {
    hide ClientParse, Kept, Released, AnyWide;
    ParseGoesOn(c, data, 0, fds);
  }

  lemma DispatchGoesOn(c: ClientState, p: Polled)
    ensures GoesOn(c, DispatchEvents(c, true, p).state)
  {
    hide ClientDispatch;
    if p.Readable? { BatchGoesOn(c, p.data, p.fds); }
  }

  /** The client has read and dispatched what the server had sent, up to its `upTo`-th message. */
  function Read(st: State, upTo: nat): State
    requires st.cIn < upTo <= |st.server.out| && AllAnswerable(st.server.out[st.cIn..upTo])
  {
    var ms := st.server.out[st.cIn..upTo];
    st.(client := ClientDispatch(st.client, BytesOf(ms), FdsOfAll(ms)),
        cIn := upTo, cDone := st.cDone + TakenOf(st.client, ms))
  }

  /** One poll in `st`, and the state behind its dispatch: what is read is what the server has sent. */
  ghost predicate Given(st: State, p: Polled, next: State) {
    if p.Readable? && !p.bad && p.data != [] then
      exists upTo ::
        && st.cIn < upTo <= |st.server.out|
        && var ms := st.server.out[st.cIn..upTo];
        AllAnswerable(ms) && p.data == BytesOf(ms) && p.fds == FdsOfAll(ms)
        && next == Read(st, upTo)
    else next == st.(client := DispatchEvents(st.client, true, p).state)
  }

  /** Up to the poll anything may happen on the server's side, and nothing on the waiting client's. */
  ghost predicate Turn(w: World, st: State, p: Polled, next: State) {
    exists meanwhile, mid :: Runs(w, st, meanwhile, mid) && SameClientSide(st, mid) && Room(mid) && Given(mid, p, next)
  }

  /** The states of both parties along a wait: one before each poll and one behind the last. */
  ghost predicate Course(w: World, states: seq<State>, polls: seq<Polled>) {
    |states| == |polls| + 1 && forall k :: 0 <= k < |polls| ==> Turn(w, states[k], polls[k], states[k + 1])
  }

  ghost predicate Reachable(w: World, st: State) { exists steps :: Runs(w, Init, steps, st) }

  /** A client that is about to poll. */
  predicate Waits(st: State) { !st.cBusy && (st.client.error || st.client.connected) }

  lemma ReadIsRun(w: World, st: State, upTo: nat)
    requires Transmissible(w) && Reachable(w, st) && Waits(st) && Room(st) && !st.client.error
    requires st.cIn < upTo <= |st.server.out| && AllAnswerable(st.server.out[st.cIn..upTo])
    ensures Reachable(w, Read(st, upTo)) && Waits(Read(st, upTo))
  {
    hide Runs, BytesOf, FdsOfAll, ClientDispatch, TakenOf, Transmissible, Room, Encodable, ToClient;
    var before :| Runs(w, Init, before, st);
    var steps, end := ClientBatchIsRun(w, before, st, upTo);
    assert end == Read(st, upTo);
    Concat(w, Init, before, st, steps, end);
    var ms := st.server.out[st.cIn..upTo];
    BatchGoesOn(st.client, BytesOf(ms), FdsOfAll(ms));
  }

  lemma DropIsRun(w: World, st: State)
    requires Reachable(w, st) && Room(st)
    ensures Reachable(w, st.(client := Disconnect(st.client)))
  {
    hide Runs, Room;
    var before :| Runs(w, Init, before, st);
    One(w, st, ClientDrop);
    Concat(w, Init, before, st, [ClientDrop], Apply(w, st, ClientDrop));
  }

  /** A poll that is not in error is a run of both parties' steps. */
  lemma GivenIsRun(w: World, st: State, p: Polled, next: State)
    requires Transmissible(w) && Reachable(w, st) && Waits(st) && Room(st) && !st.client.error && Given(st, p, next)
    ensures Reachable(w, next) && Waits(next) && next.client == DispatchEvents(st.client, true, p).state
  {
    hide Reachable, BytesOf, FdsOfAll, ClientDispatch, TakenOf, Transmissible, Room, Encodable, ToClient;
    if p.Readable? && !p.bad && p.data != [] {
      var upTo :| && st.cIn < upTo <= |st.server.out| && AllAnswerable(st.server.out[st.cIn..upTo])
                  && p.data == BytesOf(st.server.out[st.cIn..upTo]) && p.fds == FdsOfAll(st.server.out[st.cIn..upTo])
                  && next == Read(st, upTo);
      ReadIsRun(w, st, upTo);
    } else if next.client != st.client {
      DropIsRun(w, st);
    } else {
      assert next == st;
    }
  }

  /** A wait is part of a run: it leaves the client in the state of that run behind the polls it has used. */
  lemma {:induction false} WaitIsRun(w: World, wish: Wish, polls: seq<Polled>, states: seq<State>)
    requires Transmissible(w) && Course(w, states, polls) && Reachable(w, states[0]) && Waits(states[0])
    requires wish.ForAnswer? ==> !states[0].client.error
    ensures var r := Wait(states[0].client, wish, polls);
            && Reachable(w, states[r.used]) && Waits(states[r.used])
            && r.state == states[r.used].client && GoesOn(states[0].client, r.state)
    decreases |polls|
  {
    hide Reachable, Transmissible, Waits, Turn, Granted, GivesUp, Insists, DispatchEvents;
    var c := states[0].client;
    if !Granted(c, wish) && !GivesUp(c, wish) && polls != [] {
      NotGivenUp(c, wish);
      assert Turn(w, states[0], polls[0], states[1]);
      TurnIsRun(w, states[0], polls[0], states[1]);
      DispatchGoesOn(c, polls[0]);
      var d := DispatchEvents(c, true, polls[0]);
      if d.ok || Insists(wish) {
        if Insists(wish) { WhoInsists(wish); }
        SuccessIsSound(c, polls[0]);
        CourseBehind(w, states, polls);
        WaitIsRun(w, wish, polls[1..], states[1..]);
      }
    }
  }

  lemma NotGivenUp(c: ClientState, wish: Wish)
    requires !GivesUp(c, wish) && (wish.ForAnswer? ==> !c.error)
    ensures !c.error
  {}

  lemma WhoInsists(wish: Wish)
    requires Insists(wish)
    ensures !wish.ForAnswer?
  {}

  lemma CourseBehind(w: World, states: seq<State>, polls: seq<Polled>)
    requires Course(w, states, polls) && polls != []
    ensures Course(w, states[1..], polls[1..])
  {
    hide Turn;
    forall k | 0 <= k < |polls| - 1 ensures Turn(w, states[1..][k], polls[1..][k], states[1..][k + 1]) {
      assert Turn(w, states[k + 1], polls[k + 1], states[k + 2]);
    }
  }

  lemma SuccessIsSound(c: ClientState, p: Polled)
    ensures var d := DispatchEvents(c, true, p); d.ok ==> !d.state.error
  {
    hide ClientDispatch;
  }

  lemma TurnIsRun(w: World, st: State, p: Polled, next: State)
    requires Transmissible(w) && Reachable(w, st) && Waits(st) && !st.client.error && Turn(w, st, p, next)
    ensures Reachable(w, next) && Waits(next) && next.client == DispatchEvents(st.client, true, p).state
  {
    hide Transmissible, Room, Given, DispatchEvents, Runs;
    var before :| Runs(w, Init, before, st);
    var meanwhile, mid :| Runs(w, st, meanwhile, mid) && SameClientSide(st, mid) && Room(mid) && Given(mid, p, next);
    Concat(w, Init, before, st, meanwhile, mid);
    assert Reachable(w, mid);
    GivenIsRun(w, mid, p, next);
  }

  // ---- what the waits were for ----------------------------------------------------------------------

  /** Asking for a roundtrip is a step; the request is the next message of the client. */
  lemma AskIsRun(w: World, st: State)
    requires Reachable(w, st) && Waits(st) && Room(st) && !st.client.error
    ensures var st' := st.(client := ClientModel.Roundtrip(st.client));
            && Reachable(w, st') && Waits(st') && !st'.client.error
            && st'.client.out == st.client.out + [Sent(RoundtripRequest(st.client.lastSent + 1), 0, 0)]
  {
    hide Runs;
    var steps :| Runs(w, Init, steps, st);
    One(w, st, AskRoundtrip);
    Concat(w, Init, steps, st, [AskRoundtrip], Apply(w, st, AskRoundtrip));
  }

  /** What an acknowledged request at a place of the client's output means. */
  lemma Flushed(w: World, st: State, i: nat)
    requires Reachable(w, st) && i < |st.client.out| && st.client.out[i].msg.RoundtripRequest?
    requires st.client.out[i].msg.seqNo <= st.client.lastAcked
    ensures i < st.sDone && |st.causes| == |st.server.out|
    ensures forall j :: 0 <= j < |st.causes| && st.causes[j] <= i ==> j < st.cDone
  {
    hide Runs;
    var steps :| Runs(w, Init, steps, st);
    RoundtripSafety.RoundtripFlushes(w, steps, st);
  }

  /**
    roundtrip, from any reachable state to its return: behind it, unless a dispatch failed, the server has
    handled every message the client had put on the wire before, and the client has taken every answer.
   */
  lemma RoundtripIsDone(w: World, before: State, polls: seq<Polled>, states: seq<State>)
    requires Transmissible(w) && Reachable(w, before) && Waits(before) && Room(before) && !before.client.error
    requires Course(w, states, polls) && states[0] == before.(client := ClientModel.Roundtrip(before.client))
    ensures var n := before.client.lastSent + 1;
            var r := Wait(states[0].client, ForAnswer(n), polls);
            var end := states[r.used];
            && r.state == end.client
            && (r.over && !LastFailed(states[0].client, polls, r.used) ==>
                  && |before.client.out| < end.sDone
                  && |end.causes| == |end.server.out|
                  && forall j :: 0 <= j < |end.causes| && end.causes[j] <= |before.client.out| ==> j < end.cDone)
  {
    hide Reachable, Transmissible, Room, Turn, Wait, LastFailed, After, DispatchEvents;
    var n := before.client.lastSent + 1;
    var c := states[0].client;
    AskIsRun(w, before);
    WaitIsRun(w, ForAnswer(n), polls, states);
    AnswerIsAwaited(c, n, polls);
    var r := Wait(c, ForAnswer(n), polls);
    if r.over && !LastFailed(c, polls, r.used) {
      Flushed(w, states[r.used], |before.client.out|);
    }
  }

  /** A bind that goes out is a step; the object without an id is the last of the client. */
  lemma BindIsRun(w: World, st: State, p: Protocol, version: nat)
    requires Reachable(w, st) && Waits(st) && Room(st)
    requires Find(w.cenv.protocols, p.name) == Some(p) && p.objects != [] && version <= p.version && version <= MAX
    ensures var st' := st.(client := ClientModel.Bind(w.cenv, st.client, p, version));
            && Reachable(w, st') && Waits(st')
            && |st'.client.objects| == |st.client.objects| + 1
            && var o := st'.client.objects[|st.client.objects|];
            o.seqNo == st.client.seqNo + 1 && o.version == version && o.protocol == p.name && o.spec == p.objects[0]
  {
    hide Runs, Find, Listeners;
    var steps :| Runs(w, Init, steps, st);
    One(w, st, Step.Bind(p, version));
    Concat(w, Init, steps, st, [Step.Bind(p, version)], Apply(w, st, Step.Bind(p, version)));
  }

  /**
    bindProtocol, from any reachable state to its return: behind it, unless the connection is in error, the
    client's new object stands for the one the server has made for this bind, of the protocol's first spec
    while no deferred id was cut.
   */
  lemma BindIsDone(w: World, before: State, p: Protocol, version: nat, polls: seq<Polled>, states: seq<State>)
    requires WellFormed(w) && Transmissible(w) && Reachable(w, before) && Waits(before) && Room(before)
    requires Find(w.cenv.protocols, p.name) == Some(p) && p.objects != [] && version <= p.version && version <= MAX
    requires Course(w, states, polls)
    requires states[0] == before.(client := ClientModel.Bind(w.cenv, before.client, p, version))
    ensures var slot := |before.client.objects|;
            var r := Wait(states[0].client, ForObject(slot), polls);
            var end := states[r.used];
            && r.state == end.client && slot < |end.client.objects|
            && (r.over && !end.client.error ==>
                  var id := end.client.objects[slot].id;
                  && 1 <= id <= |end.server.objects|
                  && var so := end.server.objects[id - 1];
                  && so.id == id && so.born == before.client.seqNo + 1
                  && (!end.client.truncated ==>
                        so.protocol == p.name && so.spec == Some(p.objects[0]) && version <= so.version))
  {
    hide Reachable, Transmissible, WellFormed, Room, Turn, Wait, After, DispatchEvents, Find;
    var slot := |before.client.objects|;
    BindIsRun(w, before, p, version);
    WaitIsRun(w, ForObject(slot), polls, states);
    ObjectIsAwaited(states[0].client, slot, polls);
    Agreeing(w, states[Wait(states[0].client, ForObject(slot), polls).used]);
  }

  lemma Agreeing(w: World, st: State)
    requires WellFormed(w) && Reachable(w, st)
    ensures forall i :: 0 <= i < |st.client.objects| && st.client.objects[i].id != 0 ==>
              var o := st.client.objects[i];
              && o.id <= |st.server.objects|
              && var so := st.server.objects[o.id - 1];
              && so.id == o.id && so.born == o.seqNo
              && (!st.client.truncated ==>
                    so.protocol == o.protocol && so.spec == Some(o.spec) && o.version <= so.version)
  {
    hide Runs, WellFormed;
    var steps :| Runs(w, Init, steps, st);
    ObjectAgreement.TablesAgree(w, steps, st);
  }
}
