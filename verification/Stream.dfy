/**
  handleMessage: dispatching the frames of a received batch one after the other. On the octets of any
  list of messages it dispatches just that list; on any octets whatever, what it accepts is a row of
  frames without gaps.
 */
module Stream {
  import opened Bytes
  import opened WireFormat
  import opened Messages
  import opened ServerModel
  import opened ClientModel
  import opened TwoParty

  datatype Outcome = Accepted | Refused | StrayFds

  datatype ServerBatch = ServerBatch(state: ServerState, fds: seq<int>, needle: nat, outcome: Outcome)

  /** The server's loop: it stops at the end, at a frame it cannot take, or once an error is raised. */
  function ServerParse(env: ServerEnv, s: ServerState, data: seq<byte>, off: nat, fds: seq<int>): ServerBatch
    decreases |data| - off
  {
    if off >= |data| || s.error then ServerBatch(s, fds, off, if fds == [] then Accepted else StrayFds)
    else
      match ReadFrame(data, off, fds)
      case None => ServerBatch(s, fds, off, Refused)
      case Some(f) =>
        if !ToServer(f.msg) then ServerBatch(s, fds, off, Refused)
        else ServerParse(env, Handle(env, s, f.msg), data, f.next, fds[|FdsOfMsg(f.msg)|..])
  }

  datatype ClientBatch = ClientBatch(state: ClientState, fds: seq<int>, needle: nat, outcome: Outcome)

  /** The client's loop; it takes a frame it refuses for the end of the connection. */
  function ClientParse(c: ClientState, data: seq<byte>, off: nat, fds: seq<int>): ClientBatch
    decreases |data| - off
  {
    if off >= |data| then ClientBatch(c, fds, off, if fds == [] then Accepted else StrayFds)
    else
      match ReadFrame(data, off, fds)
      case None => ClientBatch(c, fds, off, Refused)
      case Some(f) =>
        if !ToClient(f.msg) then ClientBatch(c, fds, off, Refused)
        else
          var (ok, c') := Receive(c, f.msg);
          var rest := fds[|FdsOfMsg(f.msg)|..];
          if !ok then ClientBatch(c', rest, off, Refused) else ClientParse(c', data, f.next, rest)
  }

  /** dispatchClient on a batch that was read: the batch, then a fatal error or the roundtrip's answer. */
  function DispatchBatch(env: ServerEnv, s: ServerState, data: seq<byte>, fds: seq<int>): ServerState {
    var b := ServerParse(env, s, data, 0, fds);
    if b.outcome.Accepted? then Acknowledge(b.state) else Reject(b.state)
  }

  /** dispatchEvents on a batch that was read: the batch, then the deferred messages or the end. */
  function ClientDispatch(c: ClientState, data: seq<byte>, fds: seq<int>): ClientState {
    var b := ClientParse(c, data, 0, fds);
    if b.outcome.Accepted? then ClientModel.Flush(b.state) else Disconnect(b.state)
  }

  // ---- what a server sends --------------------------------------------------------------------

  function BytesOf(ms: seq<Msg>): seq<byte>
    requires forall m :: m in ms ==> Encodable(m)
  {
    if ms == [] then [] else Encode(ms[0]) + BytesOf(ms[1..])
  }

  function FdsOfAll(ms: seq<Msg>): seq<int> {
    if ms == [] then [] else FdsOfMsg(ms[0]) + FdsOfAll(ms[1..])
  }

  predicate ForServer(ms: seq<Msg>) { forall m :: m in ms ==> ToServer(m) }

  function ReceiveAll(c: ClientState, ms: seq<Msg>): (bool, ClientState)
    requires forall m :: m in ms ==> ToClient(m)
    decreases |ms|
  {
    if ms == [] then (true, c)
    else
      var (ok, c') := Receive(c, ms[0]);
      if ok then ReceiveAll(c', ms[1..]) else (false, c')
  }

  lemma BytesStep(data: seq<byte>, off: nat, ms: seq<Msg>)
    requires ms != [] && (forall m :: m in ms ==> Encodable(m)) && At(data, off, BytesOf(ms))
    ensures At(data, off, Encode(ms[0])) && At(data, off + |Encode(ms[0])|, BytesOf(ms[1..]))
    ensures |BytesOf(ms)| == |Encode(ms[0])| + |BytesOf(ms[1..])| && |Encode(ms[0])| >= 2
  {
    hide Encode, Encodable, At;
    AtSplit(data, off, Encode(ms[0]), BytesOf(ms[1..]));
    TwoOctets(ms[0]);
  }

  lemma TwoOctets(m: Msg)
    requires Encodable(m)
    ensures |Encode(m)| >= 2
  {
    hide ArgsBytes, Encodable, Fields, Code;
  }

  /** The first frame of a stream of encoded messages is the first message, with its own descriptors. */
  lemma FirstFrame(data: seq<byte>, off: nat, ms: seq<Msg>, stray: seq<int>)
    requires ms != [] && (forall m :: m in ms ==> Encodable(m)) && At(data, off, BytesOf(ms))
    ensures off < |data|
    ensures ReadFrame(data, off, FdsOfAll(ms) + stray) == Some(FrameEnd(ms[0], off + |Encode(ms[0])|))
    ensures (FdsOfAll(ms) + stray)[|FdsOfMsg(ms[0])|..] == FdsOfAll(ms[1..]) + stray
  {
    hide ReadFrame, Encode, Encodable, FdsOfMsg;
    BytesStep(data, off, ms);
    var own, rest := FdsOfMsg(ms[0]), FdsOfAll(ms[1..]) + stray;
    assert FdsOfAll(ms) + stray == own + rest;
    EncodedIsRead(data, off, ms[0], rest);
    assert (own + rest)[|own|..] == rest;
  }

  lemma NoBytes()
    ensures BytesOf([]) == []
  {}

  lemma {:induction false} ClientStream(c: ClientState, data: seq<byte>, off: nat, ms: seq<Msg>, stray: seq<int>)
    requires forall m :: m in ms ==> Encodable(m) && ToClient(m)
    requires At(data, off, BytesOf(ms)) && |data| == off + |BytesOf(ms)|
    ensures var (ok, c') := ReceiveAll(c, ms);
            var b := ClientParse(c, data, off, FdsOfAll(ms) + stray);
            && b.state == c'
            && (!ok ==> b.outcome == Refused)
            && (ok ==> b.needle == |data| && b.fds == stray && b.outcome == (if stray == [] then Accepted else StrayFds))
    decreases |ms|
  {
    hide ReadFrame, Encode, Encodable, FdsOfMsg, Receive, At, ToClient, BytesOf;
    if ms == [] {
      NoBytes();
      assert FdsOfAll([]) + stray == stray;
    } else {
      FirstFrame(data, off, ms, stray);
      BytesStep(data, off, ms);
      var next := off + |Encode(ms[0])|;
      var r := Receive(c, ms[0]);
      if r.0 { ClientStream(r.1, data, next, ms[1..], stray); }
      TakeOne(c, data, off, FdsOfAll(ms) + stray, FrameEnd(ms[0], next));
    }
  }

  lemma TakeOne(c: ClientState, data: seq<byte>, off: nat, fds: seq<int>, f: FrameEnd)
    requires off < |data| && ReadFrame(data, off, fds) == Some(f) && ToClient(f.msg)
    ensures off < f.next <= |data| && |FdsOfMsg(f.msg)| <= |fds|
    ensures var r := Receive(c, f.msg);
            var rest := fds[|FdsOfMsg(f.msg)|..];
            ClientParse(c, data, off, fds) == if r.0 then
                ClientParse(r.1, data, f.next, rest) else ClientBatch(r.1, rest, off, Refused)
  {
    hide ReadFrame, Receive, ToClient, FdsOfMsg;
  }

  // ---- whatever a client may post ---------------------------------------------------------------

  /** Messages for the server that have octets; a bind to version 0 among them ends the batch it is in. */
  predicate AllPostable(ms: seq<Msg>) { ForServer(ms) && forall m :: m in ms ==> Postable(m) }

  function OctetsOf(ms: seq<Msg>): seq<byte>
    requires forall m :: m in ms ==> Postable(m)
  {
    if ms == [] then [] else Octets(ms[0]) + OctetsOf(ms[1..])
  }

  /** Where the stream stands after the first `n` messages. */
  function LengthOf(ms: seq<Msg>, n: nat): nat
    requires n <= |ms| && forall m :: m in ms ==> Postable(m)
  {
    if n == 0 then 0 else |Octets(ms[0])| + LengthOf(ms[1..], n - 1)
  }

  /** `refused`: the next message is one that cannot be read. */
  datatype Taken = Taken(state: ServerState, count: nat, refused: bool)

  /** The server handles the messages in order, up to the first it cannot read or that raises an error. */
  function TakeUpTo(env: ServerEnv, s: ServerState, ms: seq<Msg>): (t: Taken)
    requires ForServer(ms)
    ensures t.count <= |ms|
    decreases |ms|
  {
    if ms == [] || s.error then Taken(s, 0, false)
    else if Malformed(ms[0]) then Taken(s, 0, true)
    else var t := TakeUpTo(env, Handle(env, s, ms[0]), ms[1..]); Taken(t.state, t.count + 1, t.refused)
  }

  /** The first message of a stream is read with its own descriptors, or not at all. */
  lemma FirstOctets(data: seq<byte>, off: nat, ms: seq<Msg>, stray: seq<int>)
    requires ms != [] && (forall m :: m in ms ==> Postable(m)) && At(data, off, OctetsOf(ms))
    ensures off < |data| && At(data, off + |Octets(ms[0])|, OctetsOf(ms[1..]))
    ensures |OctetsOf(ms)| == |Octets(ms[0])| + |OctetsOf(ms[1..])|
    ensures var fds := FdsOfAll(ms) + stray;
            var f := FrameEnd(ms[0], off + |Octets(ms[0])|);
            && ReadFrame(data, off, fds) == (if Malformed(ms[0]) then None else Some(f))
            && fds[|FdsOfMsg(ms[0])|..] == FdsOfAll(ms[1..]) + stray
  {
    hide ReadFrame, Octets, Encode, Encodable, At, FdsOfMsg, Malformed;
    AtSplit(data, off, Octets(ms[0]), OctetsOf(ms[1..]));
    MalformedIsNoMessage(ms[0]);
    OctetsAreThere(data, off, ms[0]);
    var own, rest := FdsOfMsg(ms[0]), FdsOfAll(ms[1..]) + stray;
    assert FdsOfAll(ms) + stray == own + rest;
    assert (own + rest)[|own|..] == rest;
    if Encodable(ms[0]) {
      EncodedIsRead(data, off, ms[0], rest);
    } else {
      BindToZeroIsRefused(data, off, ms[0], FdsOfAll(ms) + stray);
    }
  }

  lemma OctetsAreThere(data: seq<byte>, off: nat, m: Msg)
    requires Postable(m) && At(data, off, Octets(m))
    ensures off < |data|
  {
    hide ArgsBytes, Fields, Code, Postable;
  }

  lemma MalformedIsNoMessage(m: Msg)
    requires Postable(m)
    ensures Malformed(m) <==> !Encodable(m)
  {}

  lemma ParseOne(env: ServerEnv, s: ServerState, data: seq<byte>, off: nat, fds: seq<int>, f: FrameEnd)
    requires off < |data| && !s.error && ReadFrame(data, off, fds) == Some(f) && ToServer(f.msg)
    ensures off < f.next <= |data| && |FdsOfMsg(f.msg)| <= |fds|
    ensures ServerParse(env, s, data, off, fds) ==
            ServerParse(env, Handle(env, s, f.msg), data, f.next, fds[|FdsOfMsg(f.msg)|..])
  {
    hide ReadFrame, Handle, ToServer, FdsOfMsg;
  }

  /**
    The octets of any list of messages a client may post, descriptors in their order and perhaps more
    behind them: exactly that list is handled, in order, each message with its own descriptors. A bind
    to version 0 ends the batch where it begins, an error right behind the message that raised it;
    otherwise everything is consumed, and descriptors are stray exactly when more came than the
    messages own.
   */
  lemma {:induction false} ServerStream(env: ServerEnv, s: ServerState, data: seq<byte>, off: nat, ms: seq<Msg>,
          stray: seq<int>)
    requires AllPostable(ms) && At(data, off, OctetsOf(ms)) && |data| == off + |OctetsOf(ms)|
    ensures var t := TakeUpTo(env, s, ms);
            var b := ServerParse(env, s, data, off, FdsOfAll(ms) + stray);
            && b.state == t.state
            && b.needle == off + LengthOf(ms, t.count)
            && b.fds == FdsOfAll(ms[t.count..]) + stray
            && b.outcome == (if t.refused then Refused else if b.fds == [] then Accepted else StrayFds)
            && (!t.refused && !t.state.error ==> t.count == |ms| && b.needle == |data| && b.fds == stray)
    decreases |ms|
  {
    hide ReadFrame, Octets, Postable, FdsOfMsg, Handle, At, ToServer, OctetsOf, Malformed;
    if ms == [] {
      NoOctets();
      assert FdsOfAll([]) + stray == stray;
    } else if s.error {
      assert ms[0..] == ms;
    } else {
      FirstOctets(data, off, ms, stray);
      if Malformed(ms[0]) {
        assert ms[0..] == ms;
      } else {
        var s', next := Handle(env, s, ms[0]), off + |Octets(ms[0])|;
        ServerStream(env, s', data, next, ms[1..], stray);
        var n := TakeUpTo(env, s', ms[1..]).count;
        assert ms[1 + n..] == ms[1..][n..];
        ParseOne(env, s, data, off, FdsOfAll(ms) + stray, FrameEnd(ms[0], next));
        LengthStep(ms, n);
      }
    }
  }

  lemma NoOctets()
    ensures OctetsOf([]) == []
  {}

  lemma LengthStep(ms: seq<Msg>, n: nat)
    requires ms != [] && n <= |ms| - 1 && forall m :: m in ms ==> Postable(m)
    ensures LengthOf(ms, 1 + n) == |Octets(ms[0])| + LengthOf(ms[1..], n)
  {
    hide Octets, Postable;
  }

  /** What dispatchClient makes of anything a client may post. */
  lemma PostedOutcome(env: ServerEnv, s: ServerState, ms: seq<Msg>)
    requires AllPostable(ms)
    ensures var t := TakeUpTo(env, s, ms);
            DispatchBatch(env, s, OctetsOf(ms), FdsOfAll(ms)) ==
            if t.refused || FdsOfAll(ms[t.count..]) != [] then Reject(t.state) else Acknowledge(t.state)
  {
    hide Handle, OctetsOf, FdsOfAll, ServerParse, TakeUpTo, At, Postable, ToServer, Acknowledge, Reject, LengthOf;
    AtSelf(OctetsOf(ms));
    ServerStream(env, s, OctetsOf(ms), 0, ms, []);
    assert FdsOfAll(ms) + [] == FdsOfAll(ms);
    var rest := FdsOfAll(ms[TakeUpTo(env, s, ms).count..]);
    assert rest + [] == rest;
  }

  // ---- framing of arbitrary octets -----------------------------------------------------------

  /** The octets from `cuts[k]` to `cuts[k + 1]` are one frame. */
  ghost predicate FrameBetween(data: seq<byte>, from: nat, to: nat) {
    && from + 1 < to <= |data| && data[to - 1] == END
    && exists args :: ValidArgs(args) && At(data, from, [data[from]] + ArgsBytes(args) + [END])
        && to == from + 2 + |ArgsBytes(args)|
  }

  ghost predicate Tiles(data: seq<byte>, from: nat, to: nat, cuts: seq<nat>) {
    && cuts != [] && cuts[0] == from && cuts[|cuts| - 1] == to
    && forall k :: 0 <= k < |cuts| - 1 ==> FrameBetween(data, cuts[k], cuts[k + 1])
  }

  lemma FrameFound(data: seq<byte>, off: nat, fds: seq<int>)
    requires ReadFrame(data, off, fds).Some?
    ensures FrameBetween(data, off, ReadFrame(data, off, fds).value.next)
  {
    hide ArgsBytes, At, ValidArgs, ReadArgs, Interpret;
    ReadFrameIsThere(data, off, fds);
    var args := ReadArgs(data, off + 1).value.args;
    assert ValidArgs(args) && At(data, off, [data[off]] + ArgsBytes(args) + [END]);
  }

  lemma TilesMore(data: seq<byte>, from: nat, next: nat, to: nat, cuts: seq<nat>)
    requires FrameBetween(data, from, next) && Tiles(data, next, to, cuts)
    ensures Tiles(data, from, to, [from] + cuts)
  {
    hide FrameBetween;
    var all := [from] + cuts;
    forall k | 0 <= k < |all| - 1 ensures FrameBetween(data, all[k], all[k + 1]) {
      if k > 0 { assert FrameBetween(data, cuts[k - 1], cuts[k - 1 + 1]); }
    }
  }

  /**
    Whatever octets a client gets: what its loop has passed is a row of whole frames inside the
    buffer, each with END for its last octet, and a batch is accepted only if they fill the buffer.
   */
  lemma {:induction false} ClientTiles(c: ClientState, data: seq<byte>, off: nat, fds: seq<int>)
    returns (cuts: seq<nat>)
    requires off <= |data|
    ensures var b := ClientParse(c, data, off, fds);
            && Tiles(data, off, b.needle, cuts) && off <= b.needle <= |data|
            && (!b.outcome.Refused? ==> b.needle == |data|)
            && |b.fds| <= |fds| && b.fds == fds[|fds| - |b.fds|..]
    decreases |data| - off
  {
    hide ReadFrame, FdsOfMsg, Receive, ToClient, FrameBetween;
    cuts := [off];
    if off < |data| && ReadFrame(data, off, fds).Some? {
      var f := ReadFrame(data, off, fds).value;
      if ToClient(f.msg) && Receive(c, f.msg).0 {
        var rest := fds[|FdsOfMsg(f.msg)|..];
        cuts := ClientTiles(Receive(c, f.msg).1, data, f.next, rest);
        FrameFound(data, off, fds);
        TilesMore(data, off, f.next, ClientParse(c, data, off, fds).needle, cuts);
        cuts := [off] + cuts;
      }
    }
  }

  /** The same of the server, whose loop may also stop at an error. */
  lemma {:induction false} ServerTiles(env: ServerEnv, s: ServerState, data: seq<byte>, off: nat,
          fds: seq<int>) returns (cuts: seq<nat>)
    requires off <= |data|
    ensures var b := ServerParse(env, s, data, off, fds);
            && Tiles(data, off, b.needle, cuts) && off <= b.needle <= |data|
            && (!b.outcome.Refused? && !b.state.error ==> b.needle == |data|)
            && |b.fds| <= |fds| && b.fds == fds[|fds| - |b.fds|..]
    decreases |data| - off
  {
    hide ReadFrame, FdsOfMsg, Handle, ToServer, FrameBetween;
    cuts := [off];
    if off < |data| && !s.error && ReadFrame(data, off, fds).Some? {
      var f := ReadFrame(data, off, fds).value;
      if ToServer(f.msg) {
        var rest := fds[|FdsOfMsg(f.msg)|..];
        cuts := ServerTiles(env, Handle(env, s, f.msg), data, f.next, rest);
        FrameFound(data, off, fds);
        TilesMore(data, off, f.next, ServerParse(env, s, data, off, fds).needle, cuts);
        cuts := [off] + cuts;
      }
    }
  }
}
