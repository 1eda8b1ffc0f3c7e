/**
  CServerClient with the server half of the message parser, on fields: proved to do what the
  functions of `ServerModel` and `Stream` say, and to send the octets of the messages they list.
 */
module ServerParty {
  import opened Bytes
  import opened WireFormat
  import opened Scanner
  import opened Demarshal
  import opened Marshal
  import opened Calls
  import opened Spec
  import opened Messages
  import opened ControlMessages
  import opened ServerModel
  import opened TwoParty
  import opened Stream
  import opened Handshake
  import Deferral

  // ---- searching the implementations ----------------------------------------------------------

  lemma {:induction false} FindAt(protocols: seq<Protocol>, name: Name, i: nat)
    requires i <= |protocols| && forall k :: 0 <= k < i ==> protocols[k].name != name
    requires i < |protocols| ==> protocols[i].name == name
    ensures Find(protocols, name) == if i < |protocols| then Some(protocols[i]) else None
    decreases i
  {
    if i > 0 { FindAt(protocols[1..], name, i - 1); }
  }

  lemma {:induction false} FindObjectAt(objects: seq<ObjectSpec>, name: Name, i: nat)
    requires i <= |objects| && forall k :: 0 <= k < i ==> objects[k].name != name
    requires i < |objects| ==> objects[i].name == name
    ensures FindObject(objects, name) == if i < |objects| then Some(objects[i]) else None
    decreases i
  {
    if i > 0 { FindObjectAt(objects[1..], name, i - 1); }
  }

  predicate NoEndIn(methods: seq<Method>) { forall m :: m in methods ==> END !in m.params }

  /** Implementations that can be announced, with methods that can be checked. */
  predicate Serviceable(protocols: seq<Protocol>) {
    && Versions32(protocols) && Sendable(protocols)
    && forall p :: p in protocols ==> forall o :: o in p.objects ==> NoEndIn(o.c2s)
  }

  lemma SpecIsDeclared(p: Protocol, name: Name)
    ensures SpecFor(p, name).Some? ==> SpecFor(p, name).value in p.objects
  {}

  // ---- what a frame is, by its first octet -------------------------------------------------------

  predicate ServerCode(code: byte) {
    code == SUP || code == HANDSHAKE_ACK || code == BIND_PROTOCOL || code == GENERIC || code == ROUNDTRIP_REQUEST
  }

  lemma KindByCode(data: seq<byte>, off: nat, fds: seq<int>)
    requires ReadFrame(data, off, fds).Some?
    ensures off < |data| && (ToServer(ReadFrame(data, off, fds).value.msg) <==> ServerCode(data[off]))
    ensures data[off] == Code(ReadFrame(data, off, fds).value.msg)
  {
    hide ReadFrame;
    ReadFrameIsThere(data, off, fds);
  }

  /** Control messages have no descriptors. */
  lemma ControlFrame(data: seq<byte>, off: nat, fds: seq<int>)
    requires off < |data| && data[off] != GENERIC
    ensures ReadFrame(data, off, fds) == ReadFrame(data, off, [])
    ensures ReadFrame(data, off, fds).Some? ==> FdsOfMsg(ReadFrame(data, off, fds).value.msg) == []
  {
    hide ReadArgs;
  }

  /** The handler of a method with a return type is handed the caller's sequence first. */
  lemma SeqHandedOver(methods: seq<Method>, listeners: seq<bool>, version: nat, m: Msg)
    requires m.Generic? && FdTotal(m.args) <= |m.fds| && ValidArgs(m.args)
    requires CallOf(methods, listeners, version, m.methodId, m.args, m.fds).Delivered?
    requires m.methodId < |methods| && methods[m.methodId].returnsType != []
    ensures var values := CallOf(methods, listeners, version, m.methodId, m.args, m.fds).values;
            |values| >= 2 && values[1] == U32(SEQ, NewSeq(m))
  {
    hide CheckFrom, ArgsValues, FdTotal;
    var params := Params(methods[m.methodId]);
    FirstIsSeq(params, m.args);
    FirstValue(m.args, m.fds);
  }

  lemma FirstIsSeq(params: seq<byte>, args: seq<Arg>)
    requires params != [] && params[0] == SEQ && CheckFrom(params, 0, args).Pass? && ValidArgs(args)
    ensures args != [] && args[0].Word? && args[0].kind == SEQ && CheckFrom(params, 0, args).types != []
  {
    NextMagicOfNone();
  }

  lemma FirstValue(args: seq<Arg>, fds: seq<int>)
    requires FdTotal(args) <= |fds| && args != [] && args[0].Word?
    ensures ArgsValues(args, fds) != [] && ArgsValues(args, fds)[0] == U32(args[0].kind, args[0].value)
  {}

  /** `Unclear` is a run the source leaves open: it reads a count past its bounds. */
  datatype Verdict = ParsedOk | ParsedError | ParsedStrayFds | Unclear

  predicate Agrees(v: Verdict, o: Outcome) {
    match o
    case Accepted => v == ParsedOk
    case StrayFds => v == ParsedStrayFds
    case Refused => v == ParsedError || v == Unclear
  }

  class ServerClient {
    const env: ServerEnv
    var version: nat
    var objects: seq<ServerObject>
    var maxId: nat
    var error: bool
    var scheduled: nat
    var wire: seq<Packet>
    ghost var calls: seq<ListenerCall>
    ghost var out: seq<Msg>

    ghost predicate Valid()
      reads this
    {
      && Serviceable(env.protocols)
      && (forall k :: 0 <= k < |objects| && objects[k].spec.Some? ==> NoEndIn(objects[k].spec.value.c2s))
      && |wire| == |out|
      && (forall k :: 0 <= k < |out| ==> Encodable(out[k]) && wire[k] == Packet(Encode(out[k]), FdsOfMsg(out[k])))
    }

    ghost function State(): ServerState
      reads this
    {
      ServerState(version, objects, maxId, error, scheduled, calls, out)
    }

    constructor (env: ServerEnv)
      requires Serviceable(env.protocols)
      ensures this.env == env && Valid() && State() == NewServer
    {
      this.env := env;
      version, objects, maxId, error, scheduled, wire := 0, [], 1, false, 0, [];
      calls, out := [], [];
    }

    method SendMessage(data: seq<byte>, fds: seq<int>, ghost m: Msg)
      requires Valid() && Encodable(m) && data == Encode(m) && fds == FdsOfMsg(m)
      modifies this`wire, this`out
      ensures Valid() && State() == Sending(old(State()), m) && wire == old(wire) + [Packet(data, fds)]
    {
      wire := wire + [Packet(data, fds)];
      out := out + [m];
    }

    /** The search through one protocol's objects; the empty name takes the first. */
    method SpecOf(p: Protocol, name: Name) returns (spec: Option<ObjectSpec>)
      ensures spec == SpecFor(p, name)
    {
      hide FindObject;
      spec := None;
      var j := 0;
      while j < |p.objects|
        invariant 0 <= j <= |p.objects|
        invariant j > 0 ==> name != []
        invariant forall k :: 0 <= k < j ==> p.objects[k].name != name
      {
        if p.objects[j].name != name && name != [] {
          j := j + 1;
          continue;
        }
        spec := Some(p.objects[j]);
        if name != [] { FindObjectAt(p.objects, name, j); }
        return;
      }
      if name != [] { FindObjectAt(p.objects, name, j); }
    }

    method CreateObject(protocol: Name, name: Name, version: nat, seqNo: nat)
      requires Valid()
      modifies this
      ensures Valid()
      ensures State() == ServerModel.CreateObject(env, old(State()), protocol, name, version, seqNo)
    {
      hide Find, SpecFor, ListenersFor, Encode, Encodable, NoEndIn;
      var obj := ServerObject(maxId, version, [], None, [], seqNo);
      maxId := maxId + 1;
      objects := objects + [obj];
      var i := 0;
      while i < |env.protocols|
        invariant 0 <= i <= |env.protocols|
        invariant forall k :: 0 <= k < i ==> env.protocols[k].name != protocol
      {
        if env.protocols[i].name != protocol {
          i := i + 1;
          continue;
        }
        break;
      }
      FindAt(env.protocols, protocol, i);
      if i < |env.protocols| {
        var p := env.protocols[i];
        var spec := SpecOf(p, name);
        SpecIsDeclared(p, name);
        obj := obj.(spec := spec, protocol := protocol);
        objects := objects[|objects| - 1 := obj];
        if spec.None? {
          error := true;
          return;
        }
        if p.version < version {
          error := true;
          return;
        }
      }
      if obj.spec.None? {
        error := true;
        return;
      }
      var data := EncodeNewObject(Low32(seqNo), Low32(obj.id));
      SendMessage(data, [], NewObject(Low32(obj.id), Low32(seqNo)));
      OnBind();
    }

    /** The bind callback attaches its listeners to the object just made. */
    method OnBind()
      requires Valid() && objects != [] && objects[|objects| - 1].spec.Some?
      modifies this`objects
      ensures Valid()
      ensures var o := old(objects[|objects| - 1]);
              var listeners := ListenersFor(env, o.protocol, o.spec.value);
              objects == old(objects)[|old(objects)| - 1 := o.(listeners := listeners)]
    {
      var o := objects[|objects| - 1];
      objects := objects[|objects| - 1 := o.(listeners := ListenersFor(env, o.protocol, o.spec.value))];
    }

    method OnGeneric(msg: GenericMessage, ghost args: seq<Arg>)
      requires Valid()
      requires ReadArgs(msg.span, 0) == Some(ArgsEnd(args, |msg.span|)) && ValidArgs(args) && FdTotal(args) == |msg.fds|
      modifies this
      ensures Valid()
      ensures State() == ServerModel.OnGeneric(env, old(State()), Generic(msg.objectId, msg.methodId, args, msg.fds))
    {
      hide ReadArgs, ValidArgs, FdTotal, CallOf, NewSeq, ServerModel.CreateObject;
      ghost var m := Generic(msg.objectId, msg.methodId, args, msg.fds);
      var i := 0;
      while i < |objects|
        invariant 0 <= i <= |objects| && forall k :: 0 <= k < i ==> objects[k].id != msg.objectId
      {
        if objects[i].id == msg.objectId { break; }
        i := i + 1;
      }
      assert i == IndexOfId(objects, msg.objectId);
      if i == |objects| || objects[i].spec.None? { return; }
      var o := objects[i];
      var methods := o.spec.value.c2s;
      assert NoEndIn(methods);
      var r := Called(methods, o.listeners, o.version, msg.methodId, msg.span, msg.fds, args);
      match r {
        case NotListened =>
        case Escaped =>
        case Delivered(values) =>
          DeliveredMethod(methods, o.listeners, o.version, msg.methodId, args, msg.fds);
          calls := calls + [ListenerCall(o.id, msg.methodId, values)];
          if methods[msg.methodId].returnsType != [] {
            SeqHandedOver(methods, o.listeners, o.version, m);
            CreateObject(o.protocol, methods[msg.methodId].returnsType, o.version, values[1].word);
          }
        case _ =>
          Complain(o);
      }
    }

    /** CServerObject::error. */
    method Complain(o: ServerObject)
      requires Valid()
      modifies this
      ensures Valid() && State() == ServerModel.Complain(old(State()), o)
    {
      var data := EncodeFatalError(Some(Low32(o.id)), Low32(o.id), []);
      SendMessage(data, [], FatalError(Low32(o.id), Low32(o.id), []));
      error := true;
    }

    /** IWireObject::call on the server's `k`-th object. */
    method Emit(k: nat, methodId: nat, args: seq<CallArg>)
      requires Valid() && k < |objects| && objects[k].spec.Some? && methodId < 0x1_0000_0000
      requires Emittable(objects[k], methodId) ==>
                 var m := objects[k].spec.value.s2c[methodId];
                 Known(m.params, 0) && Fits(m.params, 0, args) && AllShort(args)
      modifies this
      ensures Valid() && State() == ServerModel.Emit(old(State()), k, methodId, args)
    {
      hide Known, Fits, AllShort, Encode, Encodable, CallArgs, AllSends, NoEndIn, Serviceable;
      var o := objects[k];
      var methods := o.spec.value.s2c;
      if |methods| <= methodId || methods[methodId].since > o.version || methods[methodId].returnsType != [] {
        Complain(o);
        return;
      }
      var m := methods[methodId];
      var r := MarshalCall(Low32(o.id), Low32(methodId), m.params, None, args);
      Emitted(Low32(o.id), Low32(methodId), m, args, r);
      SendMessage(r.data, r.fds, Generic(Low32(o.id), Low32(methodId), CallArgs(m, None, args), AllSends(args)));
    }

    static lemma Emitted(objectId: u32, methodId: u32, m: Method, args: seq<CallArg>, r: Packed)
      requires Known(m.params, 0) && Fits(m.params, 0, args) && AllShort(args)
      requires r == match Pack(m.params, 0, args)
                    case Bytes(body, fds) => Bytes(Header(objectId, methodId) + SeqBytes(None) + body + [END], fds)
                    case other => other
      ensures var msg := Generic(objectId, methodId, CallArgs(m, None, args), AllSends(args));
              Encodable(msg) && r == Bytes(Encode(msg), msg.fds)
    {
      hide Pack, Fits, Known, AllShort, Encode, CallArgs, AllSends, Header, SeqBytes, Encodable;
      PackKnown(m.params, 0, args);
      Deferral.MessageIsEncoded(objectId, methodId, m, None, args);
    }

    /** `len` is 0 when the frame is not taken; then only the error flag may have changed. */
    ghost predicate Stepped(before: ServerState, data: seq<byte>, off: nat, fds: seq<int>, fds': seq<int>, len: nat)
      reads this
    {
      var f := ReadFrame(data, off, fds);
      if f.Some? && ToServer(f.value.msg) then
        && len == f.value.next - off
        && |FdsOfMsg(f.value.msg)| <= |fds| && fds' == fds[|FdsOfMsg(f.value.msg)|..]
        && State() == Handle(env, before, f.value.msg)
      else
        len == 0 && State() == before.(error := error)
    }

    lemma NotTaken(before: ServerState, data: seq<byte>, off: nat, fds: seq<int>, fds': seq<int>)
      requires off < |data| && State() == before.(error := error)
      requires ReadFrame(data, off, fds).None? || !ServerCode(data[off])
      ensures Stepped(before, data, off, fds, fds', 0)
    {
      hide ReadFrame, ToServer, Handle;
      if ReadFrame(data, off, fds).Some? { KindByCode(data, off, fds); }
    }

    /** A control message was parsed, or was not, as the grammar has it. */
    lemma Control(before: ServerState, data: seq<byte>, off: nat, fds: seq<int>, code: byte, r: Parsed)
      requires ParsedAs(code, data, off, r) && code != GENERIC && ServerCode(code) && off < |data| && data[off] == code
      ensures r.Message? ==> ToServer(r.msg) && Code(r.msg) == code
      ensures r.Message? && State() == Handle(env, before, r.msg) ==> Stepped(before, data, off, fds, fds, r.len)
      ensures !r.Message? && State() == before.(error := error) ==> Stepped(before, data, off, fds, fds, 0)
    {
      hide ReadFrame, Handle, ToServer;
      ControlFrame(data, off, fds);
      if r.Message? { KindByCode(data, off, []); }
      assert fds[0..] == fds;
    }

    method ParseSingleMessage(raw: RawMessage, off: nat) returns (len: nat, open: bool)
      requires Valid() && off < |raw.data|
      modifies this, raw`fds
      ensures Valid() && Stepped(old(State()), raw.data, off, old(raw.fds), raw.fds, len)
      ensures open ==> len == 0
    {
      hide Stepped, ParsedAs, Handle, Valid, ToServer, ServerCode;
      assert forall code :: ServerCode(code) <==>
        code == SUP || code == HANDSHAKE_ACK || code == BIND_PROTOCOL || code == GENERIC
            || code == ROUNDTRIP_REQUEST by { Codes(); }
      ghost var before, fds := State(), raw.fds;
      var code := raw.data[off];
      len, open := 0, false;
      if code == SUP {
        var r := ParseHello(raw.data, off);
        Control(before, raw.data, off, fds, SUP, r);
        if r.Message? { TakeHello(r.msg); len := r.len; }
        Control(before, raw.data, off, fds, SUP, r);
        open := r.Open?;
      } else if code == HANDSHAKE_ACK {
        var r := ParseHandshakeAck(raw.data, off);
        Control(before, raw.data, off, fds, HANDSHAKE_ACK, r);
        if r.Message? { TakeAck(r.msg); len := r.len; }
        Control(before, raw.data, off, fds, HANDSHAKE_ACK, r);
        open := r.Open?;
      } else if code == BIND_PROTOCOL {
        var r := ParseBindProtocol(raw.data, off);
        Control(before, raw.data, off, fds, BIND_PROTOCOL, r);
        if r.Message? { TakeBind(r.msg); len := r.len; }
        Control(before, raw.data, off, fds, BIND_PROTOCOL, r);
        open := r.Open?;
      } else if code == GENERIC {
        len, open := TakeGeneric(raw, off);
      } else if code == ROUNDTRIP_REQUEST {
        var r := ParseRoundtripRequest(raw.data, off);
        Control(before, raw.data, off, fds, ROUNDTRIP_REQUEST, r);
        if r.Message? { TakeRequest(r.msg); len := r.len; }
        Control(before, raw.data, off, fds, ROUNDTRIP_REQUEST, r);
        open := r.Open?;
      } else {
        Erroneous();
        NotTaken(before, raw.data, off, fds, raw.fds);
      }
    }

    /** A message only clients may get, or of no known type. */
    method Erroneous()
      requires Valid()
      modifies this`error
      ensures Valid() && error && State() == old(State()).(error := true)
    {
      error := true;
    }

    lemma Codes()
      ensures forall code :: ServerCode(code) <==>
                code == SUP || code == HANDSHAKE_ACK || code == BIND_PROTOCOL || code == GENERIC
                    || code == ROUNDTRIP_REQUEST
    {}

    method TakeHello(ghost m: Msg)
      requires Valid() && ToServer(m) && Code(m) == SUP
      modifies this
      ensures Valid() && State() == Handle(env, old(State()), m)
    {
      var data := EncodeHandshakeBegin([PROTOCOL_VERSION]);
      SendMessage(data, [], HandshakeBegin([PROTOCOL_VERSION]));
    }

    method TakeAck(m: Msg)
      requires Valid() && ToServer(m) && Code(m) == HANDSHAKE_ACK
      modifies this
      ensures Valid() && State() == Handle(env, old(State()), m)
    {
      hide SpecStrings, Encode;
      version := m.version;
      var names: seq<seq<byte>> := [];
      var i := 0;
      assert env.protocols[0..] == env.protocols;
      while i < |env.protocols|
        invariant 0 <= i <= |env.protocols|
        invariant SpecStrings(env.protocols) == names + SpecStrings(env.protocols[i..])
        invariant Valid() && State() == old(State()).(version := m.version) && version == m.version
      {
        NextString(env.protocols[i..]);
        assert env.protocols[i..][1..] == env.protocols[i + 1..];
        names := names + [SpecString(env.protocols[i])];
        i := i + 1;
      }
      NextString([]);
      StringsAreShort(env.protocols);
      assert names + [] == names;
      var data := EncodeHandshakeProtocols(names);
      SendMessage(data, [], HandshakeProtocols(names));
    }

    lemma NextString(protocols: seq<Protocol>)
      ensures protocols == [] ==> SpecStrings(protocols) == []
      ensures protocols != [] ==> SpecStrings(protocols) == [SpecString(protocols[0])] + SpecStrings(protocols[1..])
    {}

    method TakeBind(m: Msg)
      requires Valid() && ToServer(m) && Code(m) == BIND_PROTOCOL
      modifies this
      ensures Valid() && State() == Handle(env, old(State()), m)
    {
      CreateObject(m.protocol, [], m.version, m.seqNo);
    }

    method TakeRequest(m: Msg)
      requires Valid() && ToServer(m) && Code(m) == ROUNDTRIP_REQUEST
      modifies this
      ensures Valid() && State() == Handle(env, old(State()), m)
    {
      scheduled := m.seqNo;
    }

    method TakeGeneric(raw: RawMessage, off: nat) returns (len: nat, open: bool)
      requires Valid() && off < |raw.data| && raw.data[off] == GENERIC
      modifies this, raw`fds
      ensures Valid() && Stepped(old(State()), raw.data, off, old(raw.fds), raw.fds, len)
      ensures open ==> len == 0
    {
      hide Valid, ServerModel.OnGeneric, FdTotal, ValidArgs, ReadArgs, ReadGeneric, ReadFrame, Starts;
      ghost var fds := raw.fds;
      ghost var stops;
      var r;
      r, stops := ScanFrame(raw, off);
      GenericFrame(raw.data, off, fds);
      match r {
        case Malformed => return 0, false;
        case Undefined => return 0, true;
        case Frame(msg) =>
          ghost var g := ReadGeneric(raw.data, off).value;
          SpanOfFrame(raw.data, off);
          assert raw.data[off + 11..g.next] == msg.span;
          OnGeneric(msg, g.args);
          len, open := msg.len, false;
      }
    }

    /** The loop goes on behind a frame that was taken, and ends at one that was not. */
    lemma Resumes(before: ServerState, data: seq<byte>, off: nat, fds: seq<int>, fds': seq<int>, len: nat)
      requires off < |data| && !before.error && Stepped(before, data, off, fds, fds', len)
      ensures len > 0 ==>
                && off + len <= |data|
                && ServerParse(env, before, data, off, fds) == ServerParse(env, State(), data, off + len, fds')
      ensures len == 0 ==>
                var b := ServerParse(env, before, data, off, fds);
                b.outcome == Refused && State() == b.state.(error := error)
    {
      hide Handle, ToServer, ReadFrame, FdsOfMsg;
    }

    method HandleMessage(raw: RawMessage) returns (r: Verdict)
      requires Valid()
      modifies this, raw
      ensures Valid()
      ensures var b := ServerParse(env, old(State()), old(raw.data), 0, old(raw.fds));
              && Agrees(r, b.outcome)
              && State() == b.state.(error := if b.outcome == Refused then error else b.state.error)
              && (b.outcome != Refused ==> raw.fds == b.fds)
    {
      hide Valid, Stepped, ServerParse;
      var needle := 0;
      ghost var b := ServerParse(env, State(), raw.data, 0, raw.fds);
      while needle < |raw.data| && !error
        invariant Valid() && raw.data == old(raw.data) && needle <= |raw.data|
        invariant ServerParse(env, State(), raw.data, needle, raw.fds) == b
        decreases |raw.data| - needle
      {
        ghost var before, fds := State(), raw.fds;
        var ret, open := ParseSingleMessage(raw, needle);
        Resumes(before, raw.data, needle, fds, raw.fds, ret);
        if ret == 0 {
          return if open then Unclear else ParsedError;
        }
        needle := needle + ret;
      }
      Ends(raw.data, needle, raw.fds);
      if raw.fds != [] { return ParsedStrayFds; }
      return ParsedOk;
    }

    lemma Ends(data: seq<byte>, off: nat, fds: seq<int>)
      requires off >= |data| || error
      ensures ServerParse(env, State(), data, off, fds) ==
              ServerBatch(State(), fds, off, if fds == [] then Accepted else StrayFds)
    {}

    /** CServerSocket::dispatchClient on what was read; `bad` is a failed read. */
    method Dispatch(raw: RawMessage, bad: bool)
      requires Valid()
      modifies this, raw
      ensures Valid()
      ensures State() == if bad then Reject(old(State()))
                         else if old(raw.data) == [] then old(State())
                         else DispatchBatch(env, old(State()), old(raw.data), old(raw.fds))
    {
      hide Valid, ServerParse;
      if bad {
        Refuse();
        return;
      }
      if raw.data == [] { return; }
      var r := HandleMessage(raw);
      if r != ParsedOk {
        Refuse();
        return;
      }
      if scheduled > 0 {
        var data := EncodeRoundtripDone(Low32(scheduled));
        SendMessage(data, [], RoundtripDone(Low32(scheduled)));
        label Sent:
        scheduled := 0;
        StillValid@Sent();
      }
    }

    /** A fatal error that names no object. */
    method Refuse()
      requires Valid()
      modifies this
      ensures Valid() && State() == Reject(old(State()))
    {
      var data := EncodeFatalError(None, MAX, []);
      SendMessage(data, [], FatalError(0, MAX, []));
      error := true;
    }

    twostate lemma StillValid()
      requires old(Valid())
      requires objects == old(objects) && wire == old(wire) && out == old(out)
      ensures Valid()
    {}
  }
}
