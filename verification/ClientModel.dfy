/**
  The client's side of a connection as values: calls, binds, deferred messages and what each
  received message does. `ClientSocket` holds the same state in fields.
 */
module ClientModel {
  import opened Bytes
  import opened WireFormat
  import opened Marshal
  import opened Calls
  import opened Spec
  import opened Messages
  import opened ServerModel

  datatype ClientEnv = ClientEnv(protocols: seq<Protocol>, handlers: map<(Name, Name), seq<bool>>)

  /** An object is unresolved while its `id` is 0. */
  datatype ClientObject = ClientObject(
    id: nat, seqNo: nat, version: nat, protocol: Name, spec: ObjectSpec, listeners: seq<bool>)

  /**
    A sent message. `slot` and `no` are history: the index of the object it was called on, and the
    number of the call, negative if it was made inside of a listener; 0 if it is no call.
   */
  datatype Sent = Sent(msg: Msg, slot: nat, no: int)

  /** A message waiting for its object's id; `slot` and `no` as in `Sent`. */
  datatype Pending = Pending(dependsOn: nat, msg: Msg, slot: nat, no: int)

  datatype ServerSpec = ServerSpec(name: Name, version: nat)

  /**
    `out` lists the messages that reached the wire; `callNo` counts calls and `truncated` tells whether a
    deferred message was ever resolved to an id of 256 or more.
   */
  datatype ClientState = ClientState(
    objects: seq<ClientObject>,
    pending: seq<Pending>,
    seqNo: nat,
    lastSent: nat,
    lastAcked: nat,
    error: bool,
    connected: bool,
    handshakeDone: bool,
    serverSpecs: seq<ServerSpec>,
    calls: seq<ListenerCall>,
    out: seq<Sent>,
    callNo: nat,
    truncated: bool)

  /** How the call numbered `n` is marked if it is made inside of a listener. */
  function Inside(n: nat): int { -(n as int) }

  /** A client that has just connected: Hello is on its way. */
  const NewClient :=
    ClientState([], [], 0, 0, 0, false, true, false, [], [], [Sent(Hello, 0, 0)], 0, false)

  /** sendMessage: nothing is written once the descriptor is closed. */
  function Send(c: ClientState, m: Sent): ClientState {
    if c.connected then c.(out := c.out + [m]) else c
  }

  function Disconnect(c: ClientState): ClientState { c.(error := true, connected := false) }

  // ---- objects ----------------------------------------------------------------------------

  function IndexOfSeq(objects: seq<ClientObject>, seqNo: nat): (i: nat)
    ensures i <= |objects|
    ensures i < |objects| ==> objects[i].seqNo == seqNo
    ensures forall k :: 0 <= k < i ==> objects[k].seqNo != seqNo
  {
    if objects == [] then 0
    else if objects[0].seqNo == seqNo then 0
    else
      var i := IndexOfSeq(objects[1..], seqNo);
      assert forall k :: 1 <= k < i + 1 ==> objects[k] == objects[1..][k - 1];
      i + 1
  }

  function IndexOfObject(objects: seq<ClientObject>, id: nat): (i: nat)
    ensures i <= |objects|
    ensures i < |objects| ==> objects[i].id == id
    ensures forall k :: 0 <= k < i ==> objects[k].id != id
  {
    if objects == [] then 0
    else if objects[0].id == id then 0
    else
      var i := IndexOfObject(objects[1..], id);
      assert forall k :: 1 <= k < i + 1 ==> objects[k] == objects[1..][k - 1];
      i + 1
  }

  function Listeners(env: ClientEnv, protocol: Name, spec: ObjectSpec): seq<bool> {
    if (protocol, spec.name) in env.handlers then env.handlers[(protocol, spec.name)] else []
  }

  /** makeObject: a child is added only if an implementation knows its spec. */
  function MakeObject(env: ClientEnv, c: ClientState, protocol: Name, name: Name, seqNo: nat): ClientState {
    match Find(env.protocols, protocol)
    case None => c
    case Some(p) =>
      match FindObject(p.objects, name)
      case None => c
      case Some(spec) =>
        c.(objects := c.objects + [ClientObject(0, seqNo, 0, protocol, spec, Listeners(env, protocol, spec))])
  }

  /** bindProtocol up to the wait for the answer. */
  function Bind(env: ClientEnv, c: ClientState, p: Protocol, version: nat): ClientState
    requires p.objects != []
  {
    if version > p.version then Disconnect(c)
    else
      var seqNo := c.seqNo + 1;
      var spec := p.objects[0];
      var o := ClientObject(0, seqNo, version, p.name, spec, Listeners(env, p.name, spec));
      Send(c.(seqNo := seqNo, objects := c.objects + [o]),
           Sent(BindProtocol(p.name, Low32(seqNo), Low32(version)), |c.objects|, 0))
  }

  /** The message `call` marshals; `objectId` is 0 while the object is unresolved. */
  function CallMessage(o: ClientObject, methodId: nat, returnSeq: Option<u32>, args: seq<CallArg>): Msg
    requires methodId < |o.spec.c2s|
    requires Known(o.spec.c2s[methodId].params, 0) && Fits(o.spec.c2s[methodId].params, 0, args)
  {
    Generic(Low32(o.id), Low32(methodId), CallArgs(o.spec.c2s[methodId], returnSeq, args), AllSends(args))
  }

  /** The call goes through: the method exists and is not newer than the object. */
  predicate Callable(o: ClientObject, methodId: nat) {
    methodId < |o.spec.c2s| && o.spec.c2s[methodId].since <= o.version
  }

  /** IWireObject::call on the client: marshal, allocate a sequence, defer or send, add the child. */
  function Call(env: ClientEnv, c: ClientState, slot: nat, methodId: nat, args: seq<CallArg>, no: int): ClientState
    requires slot < |c.objects|
    requires Callable(c.objects[slot], methodId) ==>
               var m := c.objects[slot].spec.c2s[methodId]; Known(m.params, 0) && Fits(m.params, 0, args)
  {
    var o := c.objects[slot];
    if !Callable(o, methodId) then c
    else
      var m := o.spec.c2s[methodId];
      var hasReturn := m.returnsType != [];
      var c1 := if hasReturn then c.(seqNo := c.seqNo + 1) else c;
      var msg := CallMessage(o, methodId, if hasReturn then Some(Low32(c1.seqNo)) else None, args);
      var c2 := if o.id == 0 then c1.(pending := c1.pending + [Pending(o.seqNo, msg, slot, no)])
                else Send(c1, Sent(msg, slot, no));
      if hasReturn then MakeObject(env, c2, o.protocol, m.returnsType, c2.seqNo) else c2
  }

  // ---- the deferred flush -----------------------------------------------------------------

  /** CGenericProtocolMessage::resolveSeq: one octet of the id is written. */
  function Resolve(m: Msg, id: nat): Msg
    requires m.Generic?
  {
    Generic(m.objectId - m.objectId % 256 + id % 256, m.methodId, m.args, m.fds)
  }

  datatype Fate = Drop | Keep | Release(id: nat)

  /** What the flush decides about one pending message. */
  function FateOf(objects: seq<ClientObject>, p: Pending): Fate {
    var i := IndexOfSeq(objects, p.dependsOn);
    if i == |objects| then Drop else if objects[i].id == 0 then Keep else Release(objects[i].id)
  }

  function Kept(objects: seq<ClientObject>, pending: seq<Pending>): seq<Pending> {
    if pending == [] then []
    else (if FateOf(objects, pending[0]).Keep? then [pending[0]] else []) + Kept(objects, pending[1..])
  }

  function Released(objects: seq<ClientObject>, pending: seq<Pending>): seq<Sent> {
    if pending == [] then []
    else
      var p := pending[0];
      match FateOf(objects, p)
      case Release(id) =>
        [Sent(if p.msg.Generic? then Resolve(p.msg, id) else p.msg, p.slot, p.no)] + Released(objects, pending[1..])
      case _ => Released(objects, pending[1..])
  }

  predicate AnyWide(objects: seq<ClientObject>, pending: seq<Pending>) {
    if pending == [] then false
    else
      var f := FateOf(objects, pending[0]);
      (f.Release? && f.id >= 256) || AnyWide(objects, pending[1..])
  }

  /** The erase_if at the end of dispatchEvents. */
  function Flush(c: ClientState): ClientState {
    c.(pending := Kept(c.objects, c.pending),
       out := if c.connected then c.out + Released(c.objects, c.pending) else c.out,
       truncated := c.truncated || AnyWide(c.objects, c.pending))
  }

  // ---- received messages ------------------------------------------------------------------

  predicate ToClient(m: Msg) {
    m.HandshakeBegin? || m.HandshakeProtocols? || m.NewObject? || m.Generic? || m.FatalError? || m.RoundtripDone?
  }

  /** onSeq: the first object of the sequence gets the id. */
  function OnSeq(c: ClientState, seqNo: nat, id: nat): ClientState {
    var i := IndexOfSeq(c.objects, seqNo);
    if i == |c.objects| then c else c.(objects := c.objects[i := c.objects[i].(id := id)])
  }

  /** onGeneric: errors of `called` change nothing on a client. */
  function ClientOnGeneric(c: ClientState, m: Msg): ClientState
    requires m.Generic?
  {
    var i := IndexOfObject(c.objects, m.objectId);
    if i == |c.objects| || FdTotal(m.args) > |m.fds| then c
    else
      var o := c.objects[i];
      match CallOf(o.spec.s2c, o.listeners, o.version, m.methodId, m.args, m.fds)
      case Delivered(values) => c.(calls := c.calls + [ListenerCall(o.id, m.methodId, values)])
      case _ => c
  }

  // std::stoul on the text behind the '@'.

  predicate IsDigit(b: byte) { 48 <= b <= 57 }

  predicate IsSpace(b: byte) { b == 32 || 9 <= b <= 13 }

  function SkipSpace(s: seq<byte>): seq<byte> {
    if s != [] && IsSpace(s[0]) then SkipSpace(s[1..]) else s
  }

  function Digits(s: seq<byte>): seq<byte> {
    if s != [] && IsDigit(s[0]) then [s[0]] + Digits(s[1..]) else []
  }

  function DigitsValue(s: seq<byte>): int {
    if s == [] then 0 else 10 * DigitsValue(s[..|s| - 1]) + (s[|s| - 1] as int - 48)
  }

  const ULONG := 0x1_0000_0000_0000_0000

  /** `None` is std::invalid_argument or std::out_of_range. */
  function Stoul(s: seq<byte>): Option<nat> {
    var t := SkipSpace(s);
    var negative := t != [] && t[0] == 45;
    var u := if t != [] && (t[0] == 45 || t[0] == 43) then t[1..] else t;
    var d := Digits(u);
    if d == [] || DigitsValue(d) >= ULONG || DigitsValue(d) < 0 then None
    else Some(if negative then (ULONG - DigitsValue(d)) % ULONG else DigitsValue(d))
  }

  /** find_last_of('@'); the length of the string stands for npos. */
  function LastAt(s: seq<byte>): (i: nat)
    ensures i <= |s|
    ensures i < |s| ==> s[i] == AT && AT !in s[i + 1..]
    ensures i == |s| ==> AT !in s
  {
    if s == [] then 0
    else
      var i := LastAt(s[1..]);
      if i < |s| - 1 then assert s[i + 2..] == s[1..][i + 1..]; i + 1
      else if s[0] == AT then 0
      else assert s == [s[0]] + s[1..]; |s|
  }

  function ParseSpec(s: seq<byte>): Option<ServerSpec> {
    var at := LastAt(s);
    match Stoul(if at < |s| then s[at + 1..] else s)
    case None => None
    case Some(v) => Some(ServerSpec(s[..at], Low32(v)))
  }

  /** The specs before the first one that fails to parse, and whether there was none. */
  function ParseSpecs(names: seq<seq<byte>>): (bool, seq<ServerSpec>) {
    if names == [] then (true, [])
    else
      match ParseSpec(names[0])
      case None => (false, [])
      case Some(spec) => var (ok, rest) := ParseSpecs(names[1..]); (ok, [spec] + rest)
  }

  /** serverSpecs: the handshake counts as done even when an entry fails. */
  function ServerSpecs(c: ClientState, names: seq<seq<byte>>): ClientState {
    var (ok, specs) := ParseSpecs(names);
    var c1 := c.(serverSpecs := c.serverSpecs + specs, handshakeDone := true);
    if ok then c1 else Disconnect(c1)
  }

  /** What one received message does; `false` ends the batch with an error. */
  function Receive(c: ClientState, m: Msg): (bool, ClientState)
    requires ToClient(m)
  {
    match m
    case HandshakeBegin(versions) =>
      if PROTOCOL_VERSION !in versions then (false, c)
      else (true, Send(c, Sent(HandshakeAck(PROTOCOL_VERSION), 0, 0)))
    case HandshakeProtocols(names) => (true, ServerSpecs(c, names))
    case NewObject(id, seqNo) => (true, OnSeq(c, seqNo, id))
    case Generic(_, _, _, _) => (true, ClientOnGeneric(c, m))
    case FatalError(_, _, _) => (true, c.(error := true))
    case RoundtripDone(seqNo) => (true, c.(lastAcked := seqNo))
  }

  /** roundtrip up to the wait for its answer. */
  function Roundtrip(c: ClientState): ClientState {
    if c.error then c
    else Send(c.(lastSent := c.lastSent + 1), Sent(RoundtripRequest(Low32(c.lastSent + 1)), 0, 0))
  }
}
