/**
  The server's side of a connection as values: what each received message does to the object table
  and which messages it sends. `ServerClient` holds the same state in fields.
 */
module ServerModel {
  import opened Bytes
  import opened WireFormat
  import opened Demarshal
  import opened Marshal
  import opened Calls
  import opened Spec
  import opened Messages

  const PROTOCOL_VERSION: u32 := 1

  /** A counter as it is put on the wire. */
  function Low32(n: nat): u32 { n % 0x1_0000_0000 }

  /**
    The implementations a server offers: their protocols, and for each (protocol, object) the
    methods its bind callback listens to.
   */
  datatype ServerEnv = ServerEnv(protocols: seq<Protocol>, handlers: map<(Name, Name), seq<bool>>)

  /** `born` is history: the sequence the object was created for. */
  datatype ServerObject = ServerObject(
    id: nat, version: nat, protocol: Name, spec: Option<ObjectSpec>, listeners: seq<bool>, born: nat)

  datatype ListenerCall = ListenerCall(objectId: nat, methodId: nat, values: seq<Value>)

  /** `out` lists the messages sent so far, `calls` the listener invocations. */
  datatype ServerState = ServerState(
    version: nat,
    objects: seq<ServerObject>,
    maxId: nat,
    error: bool,
    scheduled: nat,
    calls: seq<ListenerCall>,
    out: seq<Msg>)

  const NewServer := ServerState(0, [], 1, false, 0, [], [])

  function Sending(s: ServerState, m: Msg): ServerState { s.(out := s.out + [m]) }

  // ---- createObject -----------------------------------------------------------------------

  /** The object spec a protocol has under a name; the empty name stands for the first one. */
  function SpecFor(p: Protocol, name: Name): Option<ObjectSpec> {
    if name == [] then (if p.objects == [] then None else Some(p.objects[0])) else FindObject(p.objects, name)
  }

  function ListenersFor(env: ServerEnv, protocol: Name, spec: ObjectSpec): seq<bool> {
    if (protocol, spec.name) in env.handlers then env.handlers[(protocol, spec.name)] else []
  }

  /** Whether the server can create the object asked for. */
  predicate Creatable(env: ServerEnv, protocol: Name, name: Name, version: nat) {
    var p := Find(env.protocols, protocol);
    p.Some? && SpecFor(p.value, name).Some? && version <= p.value.version
  }

  function Made(env: ServerEnv, s: ServerState, protocol: Name, name: Name, version: nat, seqNo: nat): ServerObject {
    var p := Find(env.protocols, protocol);
    if p.None? then ServerObject(s.maxId, version, [], None, [], seqNo)
    else
      var spec := SpecFor(p.value, name);
      ServerObject(s.maxId, version, protocol, spec,
                   if Creatable(env, protocol, name, version) then
                         ListenersFor(env, protocol, spec.value) else [], seqNo)
  }

  /** CServerClient::createObject with the bind callback it ends in. */
  function CreateObject(env: ServerEnv, s: ServerState, protocol: Name, name: Name, version: nat,
          seqNo: nat): ServerState {
    var s1 := s.(objects := s.objects + [Made(env, s, protocol, name, version, seqNo)], maxId := s.maxId + 1);
    if Creatable(env, protocol, name, version) then Sending(s1, NewObject(Low32(s.maxId), Low32(seqNo)))
    else s1.(error := true)
  }

  // ---- received messages ------------------------------------------------------------------

  /** The first object of an id, as an index; the number of objects if there is none. */
  function IndexOfId(objects: seq<ServerObject>, id: nat): (i: nat)
    ensures i <= |objects|
    ensures i < |objects| ==> objects[i].id == id
    ensures forall k :: 0 <= k < i ==> objects[k].id != id
  {
    if objects == [] then 0
    else if objects[0].id == id then 0
    else
      var i := IndexOfId(objects[1..], id);
      assert forall k :: 1 <= k < i + 1 ==> objects[k] == objects[1..][k - 1];
      i + 1
  }

  /** CServerObject::error: a fatal error naming the object, whose text is not modelled. */
  function Complain(s: ServerState, o: ServerObject): ServerState {
    Sending(s, FatalError(Low32(o.id), Low32(o.id), [])).(error := true)
  }

  /** The sequence a frame asks the server to create an object for; 0 if it does not. */
  function NewSeq(m: Msg): nat {
    match m
    case BindProtocol(_, seqNo, _) => seqNo
    case Generic(_, _, args, _) => if args != [] && args[0].Word? && args[0].kind == SEQ then args[0].value else 0
    case _ => 0
  }

  /**
    CServerClient::onGeneric and the `called` behind it. The handler of a method with a return type
    creates the declared object once, for the sequence it was handed.
   */
  function OnGeneric(env: ServerEnv, s: ServerState, m: Msg): ServerState
    requires m.Generic?
  {
    var i := IndexOfId(s.objects, m.objectId);
    if i == |s.objects| || s.objects[i].spec.None? || FdTotal(m.args) > |m.fds| then s
    else
      var o := s.objects[i];
      var methods := o.spec.value.c2s;
      match CallOf(methods, o.listeners, o.version, m.methodId, m.args, m.fds)
      case NotListened => s
      case Escaped => s
      case Delivered(values) =>
        var s1 := s.(calls := s.calls + [ListenerCall(o.id, m.methodId, values)]);
        if methods[m.methodId].returnsType == [] then s1
        else CreateObject(env, s1, o.protocol, methods[m.methodId].returnsType, o.version, NewSeq(m))
      case _ => Complain(s, o)
  }

  predicate ToServer(m: Msg) {
    m.Hello? || m.HandshakeAck? || m.BindProtocol? || m.Generic? || m.RoundtripRequest?
  }

  /** The decimal digits of a number, as std::format writes them. */
  function Decimal(n: nat): seq<byte> {
    if n < 10 then [48 + n] else Decimal(n / 10) + [48 + n % 10]
  }

  const AT: byte := 64

  /** `name@version`. */
  function SpecString(p: Protocol): seq<byte> { p.name + [AT] + Decimal(p.version) }

  function SpecStrings(protocols: seq<Protocol>): seq<seq<byte>> {
    if protocols == [] then [] else [SpecString(protocols[0])] + SpecStrings(protocols[1..])
  }

  function Handle(env: ServerEnv, s: ServerState, m: Msg): ServerState
    requires ToServer(m)
  {
    match m
    case Hello => Sending(s, HandshakeBegin([PROTOCOL_VERSION]))
    case HandshakeAck(version) => Sending(s.(version := version), HandshakeProtocols(SpecStrings(env.protocols)))
    case BindProtocol(protocol, seqNo, version) => CreateObject(env, s, protocol, [], version, seqNo)
    case Generic(_, _, _, _) => OnGeneric(env, s, m)
    case RoundtripRequest(seqNo) => s.(scheduled := seqNo)
  }

  /** After a batch: the one answer to all roundtrip requests in it. */
  function Acknowledge(s: ServerState): ServerState {
    if s.scheduled > 0 then Sending(s, RoundtripDone(Low32(s.scheduled))).(scheduled := 0) else s
  }

  // ---- events -----------------------------------------------------------------------------

  /** The server may call the method: it exists, is not newer than the object and returns nothing. */
  predicate Emittable(o: ServerObject, methodId: nat)
    requires o.spec.Some?
  {
    var methods := o.spec.value.s2c;
    methodId < |methods| && methods[methodId].since <= o.version && methods[methodId].returnsType == []
  }

  /** IWireObject::call on the server's `k`-th object: the event is sent, or a fatal error about the object. */
  function Emit(s: ServerState, k: nat, methodId: nat, args: seq<CallArg>): ServerState
    requires k < |s.objects| && s.objects[k].spec.Some?
    requires Emittable(s.objects[k], methodId) ==>
               var m := s.objects[k].spec.value.s2c[methodId]; Known(m.params, 0) && Fits(m.params, 0, args)
  {
    var o := s.objects[k];
    if !Emittable(o, methodId) then Complain(s, o)
    else
      var m := o.spec.value.s2c[methodId];
      Sending(s, Generic(Low32(o.id), Low32(methodId), CallArgs(m, None, args), AllSends(args)))
  }

  // ---- the object table -------------------------------------------------------------------

  /** Ids are handed out in order and never again. */
  ghost predicate Numbered(s: ServerState) {
    s.maxId == |s.objects| + 1 && forall k :: 0 <= k < |s.objects| ==> s.objects[k].id == k + 1
  }

  /** The object is one its protocol declares, at a version the server has. */
  predicate Declared(env: ServerEnv, o: ServerObject) {
    var p := Find(env.protocols, o.protocol);
    && p.Some? && o.spec.Some? && o.spec.value in p.value.objects
    && 1 <= o.version <= p.value.version
    && o.listeners == ListenersFor(env, o.protocol, o.spec.value)
  }

  ghost predicate Table(env: ServerEnv, s: ServerState) {
    Numbered(s) && (!s.error ==> forall k :: 0 <= k < |s.objects| ==> Declared(env, s.objects[k]))
  }

  lemma CreateKeepsTable(env: ServerEnv, s: ServerState, protocol: Name, name: Name, version: nat, seqNo: nat)
    requires Table(env, s) && version >= 1
    ensures Table(env, CreateObject(env, s, protocol, name, version, seqNo))
    ensures var s' := CreateObject(env, s, protocol, name, version, seqNo);
            s'.error <==> s.error || !Creatable(env, protocol, name, version)
  {}

  /**
    Every message keeps the table: ids are 1, 2, 3, ... and, until an error is raised, each object has
    a spec its protocol declares and a version between 1 and the one offered.
   */
  lemma HandleKeepsTable(env: ServerEnv, s: ServerState, m: Msg)
    requires Table(env, s) && ToServer(m) && !s.error
    requires m.BindProtocol? ==> m.version >= 1
    ensures Table(env, Handle(env, s, m))
    ensures m.Generic? && IndexOfId(s.objects, m.objectId) < |s.objects| ==>
              s.objects[IndexOfId(s.objects, m.objectId)].spec.Some?
  {
    hide Find, SpecFor, CallOf, FdTotal;
    if m.BindProtocol? {
      CreateKeepsTable(env, s, m.protocol, [], m.version, m.seqNo);
    } else if m.Generic? {
      var i := IndexOfId(s.objects, m.objectId);
      if i < |s.objects| {
        var o := s.objects[i];
        var methods := o.spec.value.c2s;
        var r := if FdTotal(m.args) <= |m.fds| then
              CallOf(methods, o.listeners, o.version, m.methodId, m.args, m.fds) else NotListened;
        if r.Delivered? {
          var s1 := s.(calls := s.calls + [ListenerCall(o.id, m.methodId, r.values)]);
          DeliveredMethod(methods, o.listeners, o.version, m.methodId, m.args, m.fds);
          CreateKeepsTable(env, s1, o.protocol, methods[m.methodId].returnsType, o.version, NewSeq(m));
        }
      }
    }
  }

  lemma DeliveredMethod(methods: seq<Method>, listeners: seq<bool>, version: nat, id: nat, args: seq<Arg>,
          fds: seq<int>)
    requires FdTotal(args) <= |fds| && CallOf(methods, listeners, version, id, args, fds).Delivered?
    ensures id < |methods| && Listened(listeners, id)
  {}

  /** A child belongs to its creator's protocol and carries the version that was bound. */
  lemma ChildrenInherit(env: ServerEnv, s: ServerState, m: Msg)
    requires Table(env, s) && m.Generic? && !s.error
    ensures var s' := OnGeneric(env, s, m);
            && |s'.objects| <= |s.objects| + 1
            && s'.objects[..|s.objects|] == s.objects
            && (|s'.objects| > |s.objects| ==>
                  var o, child := s.objects[IndexOfId(s.objects, m.objectId)], s'.objects[|s.objects|];
                  && child.version == o.version
                  && (!s'.error ==> child.protocol == o.protocol)
                  && child.born == NewSeq(m))
  {
    hide CallOf, FdTotal, Find, SpecFor;
    var i := IndexOfId(s.objects, m.objectId);
    if i < |s.objects| && s.objects[i].spec.Some? && FdTotal(m.args) <= |m.fds| {
      var o := s.objects[i];
      if CallOf(o.spec.value.c2s, o.listeners, o.version, m.methodId, m.args, m.fds).Delivered? {
        DeliveredMethod(o.spec.value.c2s, o.listeners, o.version, m.methodId, m.args, m.fds);
      }
    }
  }
}
