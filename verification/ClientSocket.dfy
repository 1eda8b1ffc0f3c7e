/**
  CClientSocket with the client half of the message parser and the client half of
  IWireObject::call, on fields: proved to do what the functions of `ClientModel` and `Stream` say,
  down to the octets put on the wire and those kept in the queue of deferred messages.
 */
module ClientParty {
  import opened Bytes
  import opened VarInt
  import opened WireFormat
  import opened Scanner
  import opened Marshal
  import opened Calls
  import opened Spec
  import opened Messages
  import opened ControlMessages
  import opened ServerModel
  import opened ClientModel
  import opened TwoParty
  import opened Stream
  import Deferral
  import opened ServerParty
  import opened Waiting

  /** A marshalled call in the queue of deferred messages. */
  datatype Deferred = Deferred(dependsOn: nat, data: seq<byte>, fds: seq<int>)

  /** The octets in the queue are those of the message it stands for. */
  predicate Carries(d: Deferred, p: Pending) {
    && p.msg.Generic? && p.msg.objectId == 0 && Encodable(p.msg)
    && d == Deferred(p.dependsOn, Encode(p.msg), p.msg.fds)
  }

  predicate OnWire(packet: Packet, x: Sent) {
    Postable(x.msg) && packet == Packet(Octets(x.msg), FdsOfMsg(x.msg))
  }

  predicate Usable(protocols: seq<Protocol>) {
    forall p :: p in protocols ==> |p.name| < LIMIT && forall o :: o in p.objects ==> NoEndIn(o.s2c)
  }

  predicate ClientCode(code: byte) {
    code == HANDSHAKE_BEGIN || code == HANDSHAKE_PROTOCOLS || code == NEW_OBJECT || code == GENERIC
    || code == FATAL_PROTOCOL_ERROR || code == ROUNDTRIP_DONE
  }

  lemma ClientKindByCode(data: seq<byte>, off: nat, fds: seq<int>)
    requires ReadFrame(data, off, fds).Some?
    ensures off < |data| && (ToClient(ReadFrame(data, off, fds).value.msg) <==> ClientCode(data[off]))
    ensures data[off] == Code(ReadFrame(data, off, fds).value.msg)
  {
    hide ReadFrame;
    ReadFrameIsThere(data, off, fds);
  }

  class ClientSocket {
    const env: ClientEnv
    var objects: seq<ClientObject>
    var pending: seq<Deferred>
    var seqNo: nat
    var lastSent: nat
    var lastAcked: nat
    var error: bool
    var connected: bool
    var handshakeDone: bool
    var serverSpecs: seq<ServerSpec>
    var wire: seq<Packet>
    ghost var waiting: seq<Pending>
    ghost var out: seq<Sent>
    ghost var calls: seq<ListenerCall>
    ghost var callNo: nat
    ghost var truncated: bool

    ghost predicate Valid()
      reads this
    {
      && Usable(env.protocols)
      && (forall k :: 0 <= k < |objects| ==> objects[k].id <= MAX && NoEndIn(objects[k].spec.s2c))
      && |pending| == |waiting| && |wire| == |out|
      && (forall k :: 0 <= k < |pending| ==> Carries(pending[k], waiting[k]))
      && (forall k :: 0 <= k < |out| ==> OnWire(wire[k], out[k]))
    }

    ghost function State(): ClientState
      reads this
    {
      ClientState(objects, waiting, seqNo, lastSent, lastAcked, error, connected, handshakeDone, serverSpecs,
                  calls, out, callNo, truncated)
    }

    constructor (env: ClientEnv)
      requires Usable(env.protocols)
      ensures this.env == env && Valid() && State() == NewClient
    {
      var hello := EncodeHello();
      this.env := env;
      objects, pending, waiting, seqNo, lastSent, lastAcked := [], [], [], 0, 0, 0;
      error, connected, handshakeDone, serverSpecs := false, true, false, [];
      wire := [Packet(hello, [])];
      out, calls, callNo, truncated := [Sent(Hello, 0, 0)], [], 0, false;
    }

    /** sendMessage: the loop around sendmsg ends at once when the descriptor is closed. */
    method SendMessage(data: seq<byte>, fds: seq<int>, ghost x: Sent)
      requires Valid() && OnWire(Packet(data, fds), x)
      modifies this`wire, this`out
      ensures Valid() && State() == Send(old(State()), x)
      ensures wire == old(wire) + (if connected then [Packet(data, fds)] else [])
    {
      hide OnWire, Carries, NoEndIn, Usable;
      if connected {
        wire := wire + [Packet(data, fds)];
        out := out + [x];
      }
    }

    method DisconnectOnError()
      requires Valid()
      modifies this`error, this`connected
      ensures Valid() && State() == Disconnect(old(State()))
    {
      error := true;
      connected := false;
    }

    // ---- objects ------------------------------------------------------------------------------

    /** The search of makeObject, through the implementations and the objects of the one found. */
    method SpecNamed(protocol: Name, name: Name) returns (spec: Option<ObjectSpec>)
      requires Valid()
      ensures spec == match Find(env.protocols, protocol) case None => None case Some(p) => FindObject(p.objects, name)
      ensures spec.Some? ==> NoEndIn(spec.value.s2c)
    {
      hide Find, FindObject, NoEndIn, OnWire, Carries;
      spec := None;
      var i := 0;
      while i < |env.protocols|
        invariant 0 <= i <= |env.protocols| && forall k :: 0 <= k < i ==> env.protocols[k].name != protocol
      {
        if env.protocols[i].name == protocol { break; }
        i := i + 1;
      }
      FindAt(env.protocols, protocol, i);
      if i < |env.protocols| {
        var p := env.protocols[i];
        var j := 0;
        while j < |p.objects|
          invariant 0 <= j <= |p.objects| && forall k :: 0 <= k < j ==> p.objects[k].name != name
        {
          if p.objects[j].name == name { break; }
          j := j + 1;
        }
        FindObjectAt(p.objects, name, j);
        if j < |p.objects| {
          assert p in env.protocols && p.objects[j] in p.objects;
          spec := Some(p.objects[j]);
        }
      }
    }

    method MakeObject(protocol: Name, name: Name, seqNo: nat)
      requires Valid()
      modifies this`objects
      ensures Valid() && State() == ClientModel.MakeObject(env, old(State()), protocol, name, seqNo)
    {
      hide Find, FindObject, NoEndIn, OnWire, Carries, Usable;
      var spec := SpecNamed(protocol, name);
      if spec.Some? {
        objects := objects + [ClientObject(0, seqNo, 0, protocol, spec.value, Listeners(env, protocol, spec.value))];
      }
    }

    /** bindProtocol up to the wait for its object. */
    method SendBind(p: Protocol, version: nat)
      requires Valid() && Usable([p]) && p.objects != [] && version <= MAX && seqNo < MAX
      modifies this
      ensures Valid() && State() == ClientModel.Bind(env, old(State()), p, version)
    {
      hide Encode, Octets, BindLaid, Postable, Carries, NoEndIn;
      if version > p.version {
        DisconnectOnError();
        return;
      }
      var spec := p.objects[0];
      assert spec in p.objects && p in [p];
      seqNo := seqNo + 1;
      ghost var slot := |objects|;
      objects := objects + [ClientObject(0, seqNo, version, p.name, spec, Listeners(env, p.name, spec))];
      var data := EncodeBindProtocol(p.name, Low32(seqNo), Low32(version));
      SendMessage(data, [], Sent(Messages.BindProtocol(p.name, Low32(seqNo), Low32(version)), slot, 0));
    }

    /** IWireObject::call on the object at `slot`; `no` is the number of the call. */
    method Call(slot: nat, methodId: nat, args: seq<CallArg>, ghost no: int) returns (returnSeq: nat)
      requires Valid() && slot < |objects| && seqNo < MAX
      requires GoodCall(objects[slot], methodId, args)
      modifies this
      ensures Valid() && State() == ClientModel.Call(env, old(State()), slot, methodId, args, no)
      ensures var o := old(objects)[slot];
              returnSeq == if methodId < |o.spec.c2s| && o.spec.c2s[methodId].since <= o.version
                              && o.spec.c2s[methodId].returnsType != [] then old(seqNo) + 1 else 0
    {
      hide Fits, Known, AllShort, Encode, Encodable, NoEndIn, Usable, CallMessage, Carries, OnWire, Find, FindObject,
            Listeners;
      var o := objects[slot];
      returnSeq := 0;
      if |o.spec.c2s| <= methodId { return; }
      var m := o.spec.c2s[methodId];
      if m.since > o.version { return; }
      var seqVal: Option<u32> := None;
      if m.returnsType != [] {
        seqNo := seqNo + 1;
        seqVal := Some(Low32(seqNo));
        returnSeq := seqNo;
      }
      var packed := Marshalled(o, methodId, seqVal, args);
      ghost var msg := CallMessage(o, methodId, seqVal, args);
      if o.id == 0 {
        Enqueue(Deferred(o.seqNo, packed.data, packed.fds), Pending(o.seqNo, msg, slot, no));
      } else {
        SendMessage(packed.data, packed.fds, Sent(msg, slot, no));
      }
      if returnSeq != 0 {
        MakeObject(o.protocol, m.returnsType, returnSeq);
      }
    }

    method Enqueue(d: Deferred, ghost p: Pending)
      requires Valid() && Carries(d, p)
      modifies this`pending, this`waiting
      ensures Valid() && State() == old(State()).(pending := old(waiting) + [p])
    {
      hide Carries, OnWire, NoEndIn, Usable;
      pending := pending + [d];
      waiting := waiting + [p];
    }

    /** The octets and descriptors of a call, marshalled one argument after the other. */
    static method Marshalled(o: ClientObject, methodId: nat, seqVal: Option<u32>, args: seq<CallArg>)
      returns (packed: Packet)
      requires GoodCall(o, methodId, args) && Callable(o, methodId)
      ensures var msg := CallMessage(o, methodId, seqVal, args);
              && Encodable(msg) && packed == Packet(Encode(msg), msg.fds)
              && (forall slot, no :: OnWire(packed, Sent(msg, slot, no)))
              && (o.id == 0 ==>
                    forall slot, no ::
                      Carries(Deferred(o.seqNo, packed.data, packed.fds), Pending(o.seqNo, msg, slot, no)))
    {
      hide Pack, Fits, Known, AllShort, Encode, Encodable, CallArgs, AllSends, Header, SeqBytes;
      var m := o.spec.c2s[methodId];
      PackKnown(m.params, 0, args);
      var r := MarshalCall(Low32(o.id), Low32(methodId), m.params, seqVal, args);
      Packed(o, methodId, seqVal, args, r);
      packed := Packet(r.data, r.fds);
    }

    static lemma Packed(o: ClientObject, methodId: nat, seqVal: Option<u32>, args: seq<CallArg>, packed: Packed)
      requires GoodCall(o, methodId, args) && Callable(o, methodId)
      requires var m := o.spec.c2s[methodId];
               packed == match Pack(m.params, 0, args)
                         case Bytes(body, fds) => Bytes(Header(Low32(o.id),
                             Low32(methodId)) + SeqBytes(seqVal) + body + [END], fds)
                         case other => other
      ensures packed.Bytes? && Encodable(CallMessage(o, methodId, seqVal, args))
      ensures packed.data == Encode(CallMessage(o, methodId, seqVal, args)) && packed.fds == AllSends(args)
    {
      hide Pack, Fits, Known, AllShort, Encode, CallArgs, AllSends, Header, SeqBytes, Encodable;
      PackKnown(o.spec.c2s[methodId].params, 0, args);
      Deferral.CallIsEncoded(o, methodId, seqVal, args);
    }

    method ObjectForSeq(seqNo: nat) returns (i: nat)
      ensures i == IndexOfSeq(objects, seqNo)
    {
      i := 0;
      while i < |objects|
        invariant 0 <= i <= |objects| && forall k :: 0 <= k < i ==> objects[k].seqNo != seqNo
      {
        if objects[i].seqNo == seqNo { return; }
        i := i + 1;
      }
    }

    method OnSeq(seqNo: nat, id: nat)
      requires Valid() && id <= MAX
      modifies this`objects
      ensures Valid() && State() == ClientModel.OnSeq(old(State()), seqNo, id)
    {
      hide Carries, OnWire, NoEndIn, Usable;
      var i := ObjectForSeq(seqNo);
      if i < |objects| {
        objects := objects[i := objects[i].(id := id)];
      }
    }

    // ---- the deferred flush ---------------------------------------------------------------------

    /** resolveSeq: one octet of the marshalled header is overwritten. */
    static method ResolveSeq(d: Deferred, id: u32, ghost p: Pending) returns (r: Deferred)
      requires Carries(d, p)
      ensures Encodable(Resolve(p.msg, id)) && r == d.(data := Encode(Resolve(p.msg, id)))
    {
      hide Encode, Encodable;
      Deferral.ResolvePatches(p.msg, id);
      r := d;
      if |r.data| > 2 {
        r := r.(data := r.data[2 := id % 256]);
      }
    }

    /** The predicate of the erase_if: whether a deferred message is done with, sent or dropped. */
    method Settle(d: Deferred, ghost p: Pending) returns (done: bool)
      requires Valid() && Carries(d, p)
      modifies this`wire, this`out, this`truncated
      ensures Valid() && (done <==> !FateOf(objects, p).Keep?)
      ensures var f := FateOf(objects, p);
              && out == (if f.Release? && connected then old(out) + [Deferral.Freely(p, f.id)] else old(out))
              && truncated == (old(truncated) || (f.Release? && f.id >= 256))
    {
      hide Carries, OnWire, NoEndIn, Usable, FateOf, Resolve, Encode, Encodable, Deferral.Freely;
      var i := ObjectForSeq(d.dependsOn);
      FateHere(objects, p, d, i);
      if i == |objects| { return true; }
      if objects[i].id == 0 { return false; }
      var id := objects[i].id;
      var r := ResolveSeq(d, id, p);
      ReleasedOnWire(d, r, p, id);
      SendMessage(r.data, r.fds, Deferral.Freely(p, id));
      truncated := truncated || id >= 256;
      done := true;
    }

    /** The erase_if of dispatchEvents over the deferred messages. */
    method Flush()
      requires Valid()
      modifies this
      ensures Valid() && State() == ClientModel.Flush(old(State()))
    {
      hide Valid, Carries, FateOf, Midway, ClientModel.Flush, Deferral.Freely;
      var keep: seq<Deferred> := [];
      ghost var kept: seq<Pending> := [];
      var k := 0;
      ghost var before := State();
      FlushStart(before);
      Queued();
      while k < |pending|
        invariant 0 <= k <= |pending| == |waiting| && Valid()
        invariant forall j :: 0 <= j < |pending| ==> Carries(pending[j], waiting[j])
        invariant |keep| == |kept| && forall j :: 0 <= j < |keep| ==> Carries(keep[j], kept[j])
        invariant Midway(before, k, kept, out, truncated)
        invariant State() == before.(out := out, truncated := truncated)
      {
        ghost var p := waiting[k];
        FlushOne(before, k, kept, out, truncated);
        var done := Settle(pending[k], p);
        if !done { keep, kept := keep + [pending[k]], kept + [p]; }
        k := k + 1;
      }
      FlushEnd(before, kept, out, truncated);
      Retain(keep, kept);
    }

    lemma Queued()
      requires Valid()
      ensures |pending| == |waiting| && forall j :: 0 <= j < |pending| ==> Carries(pending[j], waiting[j])
    {}

    method Retain(keep: seq<Deferred>, ghost kept: seq<Pending>)
      requires Valid() && |keep| == |kept| && forall j :: 0 <= j < |keep| ==> Carries(keep[j], kept[j])
      modifies this`pending, this`waiting
      ensures Valid() && State() == old(State()).(pending := kept)
    {
      hide Carries, OnWire, NoEndIn, Usable;
      pending, waiting := keep, kept;
    }

    /** The first `k` waiting messages have been dealt with. */
    static ghost predicate Midway(c: ClientState, k: nat, kept: seq<Pending>, out: seq<Sent>, truncated: bool) {
      && k <= |c.pending|
      && Kept(c.objects, c.pending) == kept + Kept(c.objects, c.pending[k..])
      && (if c.connected then c.out + Released(c.objects, c.pending) == out + Released(c.objects, c.pending[k..])
          else out == c.out)
      && (c.truncated || AnyWide(c.objects, c.pending) <==> truncated || AnyWide(c.objects, c.pending[k..]))
    }

    static lemma FlushStart(c: ClientState)
      ensures Midway(c, 0, [], c.out, c.truncated)
    {
      hide Kept, Released, AnyWide;
      assert c.pending[0..] == c.pending;
      assert [] + Kept(c.objects, c.pending) == Kept(c.objects, c.pending);
    }

    static lemma FlushOne(c: ClientState, k: nat, kept: seq<Pending>, out: seq<Sent>, truncated: bool)
      requires Midway(c, k, kept, out, truncated) && k < |c.pending|
      ensures var f := FateOf(c.objects, c.pending[k]);
              Midway(c, k + 1,
                     if f.Keep? then kept + [c.pending[k]] else kept,
                     if f.Release? && c.connected then out + [Deferral.Freely(c.pending[k], f.id)] else out,
                     truncated || (f.Release? && f.id >= 256))
    {
      hide FateOf, Resolve, Kept, Released, AnyWide, Deferral.Freely;
      var rest := c.pending[k..];
      assert rest[0] == c.pending[k] && rest[1..] == c.pending[k + 1..];
      RestStep(c.objects, rest);
      var f := FateOf(c.objects, c.pending[k]);
      if f.Keep? {
        var more := Kept(c.objects, rest[1..]);
        assert kept + ([rest[0]] + more) == kept + [rest[0]] + more;
      }
      if f.Release? {
        var x := Deferral.Freely(c.pending[k], f.id);
        assert out + ([x] + Released(c.objects, rest[1..])) == out + [x] + Released(c.objects, rest[1..]);
      }
    }

    static lemma RestStep(objects: seq<ClientObject>, rest: seq<Pending>)
      requires rest != []
      ensures var f := FateOf(objects, rest[0]);
              && Kept(objects, rest) == (if f.Keep? then
                  [rest[0]] + Kept(objects, rest[1..]) else Kept(objects, rest[1..]))
              && Released(objects, rest) ==
                 (if f.Release? then [Deferral.Freely(rest[0], f.id)] + Released(objects, rest[1..])
                     else Released(objects, rest[1..]))
              && (AnyWide(objects, rest) <==> (f.Release? && f.id >= 256) || AnyWide(objects, rest[1..]))
    {
      hide FateOf, Resolve;
      assert [] + Kept(objects, rest[1..]) == Kept(objects, rest[1..]);
    }

    static lemma FlushEnd(c: ClientState, kept: seq<Pending>, out: seq<Sent>, truncated: bool)
      requires Midway(c, |c.pending|, kept, out, truncated)
      ensures ClientModel.Flush(c) == c.(pending := kept, out := out, truncated := truncated)
    {
      assert c.pending[|c.pending|..] == [];
      assert kept + [] == kept && out + [] == out;
    }

    static lemma {:induction false} FateHere(objects: seq<ClientObject>, p: Pending, d: Deferred, i: nat)
      requires Carries(d, p) && i == IndexOfSeq(objects, d.dependsOn)
      ensures FateOf(objects, p) ==
              if i == |objects| then Drop else if objects[i].id == 0 then Keep else Release(objects[i].id)
    {}

    static lemma ReleasedOnWire(d: Deferred, r: Deferred, p: Pending, id: nat)
      requires Carries(d, p) && Encodable(Resolve(p.msg, id)) && r == d.(data := Encode(Resolve(p.msg, id)))
      ensures OnWire(Packet(r.data, r.fds), Deferral.Freely(p, id))
    {
      hide Encode, Encodable;
    }

    // ---- received messages ------------------------------------------------------------------------

    method OnGeneric(msg: GenericMessage, ghost args: seq<Arg>)
      requires Valid()
      requires ReadArgs(msg.span, 0) == Some(ArgsEnd(args, |msg.span|)) && ValidArgs(args) && FdTotal(args) == |msg.fds|
      modifies this`calls
      ensures Valid()
      ensures State() == ClientOnGeneric(old(State()), Generic(msg.objectId, msg.methodId, args, msg.fds))
    {
      hide ReadArgs, ValidArgs, FdTotal, CallOf, Carries, OnWire, Usable;
      var i := 0;
      while i < |objects|
        invariant 0 <= i <= |objects| && forall k :: 0 <= k < i ==> objects[k].id != msg.objectId
      {
        if objects[i].id == msg.objectId { break; }
        i := i + 1;
      }
      assert i == IndexOfObject(objects, msg.objectId);
      if i == |objects| { return; }
      var o := objects[i];
      var r := Called(o.spec.s2c, o.listeners, o.version, msg.methodId, msg.span, msg.fds, args);
      if r.Delivered? {
        calls := calls + [ListenerCall(o.id, msg.methodId, r.values)];
      }
    }

    method ServerSpecs(names: seq<seq<byte>>)
      requires Valid()
      modifies this
      ensures Valid() && State() == ClientModel.ServerSpecs(old(State()), names)
    {
      hide Valid, ParseSpec, ParseSpecs;
      var specs, ok := ParseAll(names);
      AddSpecs(specs);
      if !ok { DisconnectOnError(); }
      FinishHandshake();
    }

    /** The try block: the entries up to the first that throws. */
    static method ParseAll(names: seq<seq<byte>>) returns (specs: seq<ServerSpec>, ok: bool)
      ensures ParseSpecs(names) == (ok, specs)
    {
      hide ParseSpec, ParseSpecs;
      specs, ok := [], true;
      var i := 0;
      NextSpec(names);
      assert names[0..] == names && [] + ParseSpecs(names).1 == ParseSpecs(names).1;
      while i < |names|
        invariant 0 <= i <= |names|
        invariant ParseSpecs(names) == (ParseSpecs(names[i..]).0, specs + ParseSpecs(names[i..]).1)
      {
        NextSpec(names[i..]);
        assert names[i..][1..] == names[i + 1..];
        match ParseSpec(names[i]) {
          case None =>
            assert specs + [] == specs;
            return specs, false;
          case Some(spec) =>
            assert specs + ([spec] + ParseSpecs(names[i + 1..]).1) == specs + [spec] + ParseSpecs(names[i + 1..]).1;
            specs := specs + [spec];
            i := i + 1;
        }
      }
      NextSpec(names[i..]);
      assert specs + [] == specs;
    }

    method AddSpecs(specs: seq<ServerSpec>)
      requires Valid()
      modifies this`serverSpecs
      ensures Valid() && State() == old(State()).(serverSpecs := old(serverSpecs) + specs)
    {
      hide Carries, OnWire, NoEndIn, Usable;
      serverSpecs := serverSpecs + specs;
    }

    method FinishHandshake()
      requires Valid()
      modifies this`handshakeDone
      ensures Valid() && State() == old(State()).(handshakeDone := true)
    {
      hide Carries, OnWire, NoEndIn, Usable;
      handshakeDone := true;
    }

    static lemma NextSpec(names: seq<seq<byte>>)
      ensures names == [] ==> ParseSpecs(names) == (true, [])
      ensures names != [] ==>
                ParseSpecs(names) ==
                match ParseSpec(names[0])
                case None => (false, [])
                case Some(spec) => (ParseSpecs(names[1..]).0, [spec] + ParseSpecs(names[1..]).1)
    {
      hide ParseSpec;
    }

    /** `len` is 0 when the frame is not taken. */
    ghost predicate Stepped(before: ClientState, data: seq<byte>, off: nat, fds: seq<int>, fds': seq<int>, len: nat)
      reads this
    {
      var f := ReadFrame(data, off, fds);
      if f.Some? && ToClient(f.value.msg) then
        && |FdsOfMsg(f.value.msg)| <= |fds|
        && var (ok, after) := Receive(before, f.value.msg);
        && State() == after
        && if ok then len == f.value.next - off && fds' == fds[|FdsOfMsg(f.value.msg)|..] else len == 0
      else
        len == 0 && State() == before.(error := error)
    }

    lemma NotTaken(before: ClientState, data: seq<byte>, off: nat, fds: seq<int>, fds': seq<int>)
      requires off < |data| && State() == before.(error := error)
      requires ReadFrame(data, off, fds).None? || !ClientCode(data[off])
      ensures Stepped(before, data, off, fds, fds', 0)
    {
      hide ReadFrame, ToClient, Receive;
      if ReadFrame(data, off, fds).Some? { ClientKindByCode(data, off, fds); }
    }

    lemma Control(before: ClientState, data: seq<byte>, off: nat, fds: seq<int>, code: byte, r: Parsed, len: nat)
      requires ParsedAs(code, data, off, r) && code != GENERIC && ClientCode(code) && off < |data| && data[off] == code
      ensures r.Message? ==> ToClient(r.msg) && Code(r.msg) == code && r.len > 0
      ensures r.Message? ==>
                var (ok, after) := Receive(before, r.msg);
                (State() == after && len == (if ok then r.len else 0) ==> Stepped(before, data, off, fds, fds, len))
      ensures !r.Message? && State() == before.(error := error) && len == 0 ==>
            Stepped(before, data, off, fds, fds, len)
    {
      hide ReadFrame, Receive, ToClient;
      ControlFrame(data, off, fds);
      if r.Message? { ClientKindByCode(data, off, []); }
      assert fds[0..] == fds;
    }

    /** The two messages of the handshake. */
    method ParseHandshake(raw: RawMessage, off: nat) returns (len: nat, open: bool)
      requires Valid() && off < |raw.data|
      requires raw.data[off] == HANDSHAKE_BEGIN || raw.data[off] == HANDSHAKE_PROTOCOLS
      modifies this
      ensures Valid() && Stepped(old(State()), raw.data, off, raw.fds, raw.fds, len)
      ensures open ==> len == 0
    {
      hide Stepped, ParsedAs, Receive, Valid, ToClient, ClientCode, Code;
      Codes();
      ghost var before, fds := State(), raw.fds;
      var code := raw.data[off];
      var r: Parsed;
      len := 0;
      if code == HANDSHAKE_BEGIN {
        r := ParseHandshakeBegin(raw.data, off);
        Control(before, raw.data, off, fds, code, r, 0);
        if r.Message? {
          var ok := TakeBegin(r.msg);
          len := if ok then r.len else 0;
        }
      } else {
        r := ParseHandshakeProtocols(raw.data, off);
        Control(before, raw.data, off, fds, code, r, 0);
        if r.Message? { TakeProtocols(r.msg); len := r.len; }
      }
      Control(before, raw.data, off, fds, code, r, len);
      open := r.Open?;
    }

    method ParseSingleMessage(raw: RawMessage, off: nat) returns (len: nat, open: bool)
      requires Valid() && off < |raw.data|
      modifies this, raw`fds
      ensures Valid() && Stepped(old(State()), raw.data, off, old(raw.fds), raw.fds, len)
      ensures open ==> len == 0
    {
      hide Stepped, ParsedAs, Receive, Valid, ToClient, ClientCode, Code;
      Codes();
      ghost var before, fds := State(), raw.fds;
      var code := raw.data[off];
      var r: Parsed;
      len, open := 0, false;
      if code == HANDSHAKE_BEGIN || code == HANDSHAKE_PROTOCOLS {
        len, open := ParseHandshake(raw, off);
        return;
      } else if code == NEW_OBJECT {
        r := ParseNewObject(raw.data, off);
        Control(before, raw.data, off, fds, code, r, 0);
        if r.Message? { TakeNewObject(r.msg); len := r.len; }
      } else if code == GENERIC {
        len, open := TakeGeneric(raw, off);
        return;
      } else if code == FATAL_PROTOCOL_ERROR {
        r := ParseFatalError(raw.data, off);
        Control(before, raw.data, off, fds, code, r, 0);
        TakeFatal(if r.Message? then Some(r.msg) else None);
        if r.Message? { len := r.len; }
      } else if code == ROUNDTRIP_DONE {
        r := ParseRoundtripDone(raw.data, off);
        Control(before, raw.data, off, fds, code, r, 0);
        if r.Message? { TakeDone(r.msg); len := r.len; }
      } else {
        Unexpected(code);
        NotTaken(before, raw.data, off, fds, raw.fds);
        return;
      }
      Control(before, raw.data, off, fds, code, r, len);
      open := r.Open?;
    }

    lemma Codes()
      ensures forall code :: ClientCode(code) <==>
                code == HANDSHAKE_BEGIN || code == HANDSHAKE_PROTOCOLS || code == NEW_OBJECT || code == GENERIC
                || code == FATAL_PROTOCOL_ERROR || code == ROUNDTRIP_DONE
    {}

    /** A message only servers may get raises an error; one of no known type does not. */
    method Unexpected(code: byte)
      requires Valid()
      modifies this`error
      ensures Valid() && State() == old(State()).(error := error)
    {
      if code == SUP || code == HANDSHAKE_ACK || code == BIND_PROTOCOL || code == ROUNDTRIP_REQUEST {
        error := true;
      }
    }

    method TakeBegin(m: Msg) returns (ok: bool)
      requires Valid() && ToClient(m) && Code(m) == HANDSHAKE_BEGIN
      modifies this
      ensures Valid() && (ok, State()) == Receive(old(State()), m)
    {
      hide Carries, NoEndIn, Usable;
      if PROTOCOL_VERSION !in m.versions { return false; }
      var data := EncodeHandshakeAck(PROTOCOL_VERSION);
      SendMessage(data, [], Sent(HandshakeAck(PROTOCOL_VERSION), 0, 0));
      ok := true;
    }

    method TakeProtocols(m: Msg)
      requires Valid() && ToClient(m) && Code(m) == HANDSHAKE_PROTOCOLS
      modifies this
      ensures Valid() && Receive(old(State()), m) == (true, State())
    {
      hide Valid, ClientModel.ServerSpecs;
      ServerSpecs(m.names);
    }

    method TakeNewObject(m: Msg)
      requires Valid() && ToClient(m) && Code(m) == NEW_OBJECT
      modifies this
      ensures Valid() && Receive(old(State()), m) == (true, State())
    {
      hide Valid, ClientModel.OnSeq;
      OnSeq(m.seqNo, m.id);
    }

    method TakeFatal(ghost m: Option<Msg>)
      requires Valid() && (m.Some? ==> ToClient(m.value) && Code(m.value) == FATAL_PROTOCOL_ERROR)
      modifies this`error
      ensures Valid() && State() == old(State()).(error := true)
      ensures m.Some? ==> Receive(old(State()), m.value) == (true, State())
    {
      hide Carries, OnWire, NoEndIn, Usable;
      error := true;
    }

    method TakeDone(m: Msg)
      requires Valid() && ToClient(m) && Code(m) == ROUNDTRIP_DONE
      modifies this`lastAcked
      ensures Valid() && Receive(old(State()), m) == (true, State())
    {
      hide Carries, OnWire, NoEndIn, Usable;
      lastAcked := m.seqNo;
    }

    method TakeGeneric(raw: RawMessage, off: nat) returns (len: nat, open: bool)
      requires Valid() && off < |raw.data| && raw.data[off] == GENERIC
      modifies this, raw`fds
      ensures Valid() && Stepped(old(State()), raw.data, off, old(raw.fds), raw.fds, len)
      ensures open ==> len == 0
    {
      hide Valid, ClientOnGeneric, FdTotal, ValidArgs, ReadArgs, ReadGeneric, ReadFrame, Starts;
      ghost var fds := raw.fds;
      ghost var stops;
      var r;
      r, stops := ScanFrame(raw, off);
      GenericFrame(raw.data, off, fds);
      match r {
        case Malformed => return 0, false;
        case Undefined => return 0, true;
        case Frame(msg) =>
          ghost var g := ReadGeneric(raw.data, off).value;
          SpanOfFrame(raw.data, off);
          assert raw.data[off + 11..g.next] == msg.span;
          OnGeneric(msg, g.args);
          len, open := msg.len, false;
      }
    }

    /** The loop goes on behind a frame that was taken, and ends at one that was not. */
    lemma Resumes(before: ClientState, data: seq<byte>, off: nat, fds: seq<int>, fds': seq<int>, len: nat)
      requires off < |data| && Stepped(before, data, off, fds, fds', len)
      ensures len > 0 ==>
                && off + len <= |data|
                && ClientParse(before, data, off, fds) == ClientParse(State(), data, off + len, fds')
      ensures len == 0 ==>
                var b := ClientParse(before, data, off, fds);
                b.outcome == Refused && State() == b.state.(error := error)
    {
      hide Receive, ToClient, ReadFrame, FdsOfMsg;
    }

    method HandleMessage(raw: RawMessage) returns (r: Verdict)
      requires Valid()
      modifies this, raw
      ensures Valid()
      ensures var b := ClientParse(old(State()), old(raw.data), 0, old(raw.fds));
              && Agrees(r, b.outcome)
              && State() == b.state.(error := if b.outcome == Refused then error else b.state.error)
              && (b.outcome != Refused ==> raw.fds == b.fds)
    {
      hide Valid, Stepped, ClientParse;
      var needle := 0;
      ghost var b := ClientParse(State(), raw.data, 0, raw.fds);
      while needle < |raw.data|
        invariant Valid() && raw.data == old(raw.data) && needle <= |raw.data|
        invariant ClientParse(State(), raw.data, needle, raw.fds) == b
        decreases |raw.data| - needle
      {
        ghost var before, fds := State(), raw.fds;
        var ret, open := ParseSingleMessage(raw, needle);
        Resumes(before, raw.data, needle, fds, raw.fds, ret);
        if ret == 0 {
          return if open then Unclear else ParsedError;
        }
        needle := needle + ret;
      }
      Ends(raw.data, needle, raw.fds);
      if raw.fds != [] { return ParsedStrayFds; }
      return ParsedOk;
    }

    lemma Ends(data: seq<byte>, off: nat, fds: seq<int>)
      requires off >= |data|
      ensures ClientParse(State(), data, off, fds) ==
              ClientBatch(State(), fds, off, if fds == [] then Accepted else StrayFds)
    {}

    /** dispatchEvents behind the read; `bad` is a failed one. */
    method Dispatch(raw: RawMessage, bad: bool) returns (ok: bool)
      requires Valid()
      modifies this, raw
      ensures Valid() && (ok <==> !bad && old(raw.data) != [] && !error)
      ensures State() == if bad then Disconnect(old(State()))
                         else if old(raw.data) == [] then old(State())
                         else ClientDispatch(old(State()), old(raw.data), old(raw.fds))
    {
      hide Valid, ClientParse, ClientModel.Flush;
      if bad {
        DisconnectOnError();
        return false;
      }
      if raw.data == [] { return false; }
      var r := HandleMessage(raw);
      if r != ParsedOk {
        DisconnectOnError();
        return false;
      }
      Flush();
      return !error;
    }

    method DispatchEvents(block: bool, p: Polled) returns (ok: bool)
      requires Valid()
      modifies this
      ensures Valid() && Dispatched(ok, State()) == Waiting.DispatchEvents(old(State()), block, p)
    {
      hide Valid, ClientParse, ClientModel.Flush, ClientDispatch;
      if error { return false; }
      if !handshakeDone && block && p.TimedOut? {
        DisconnectOnError();
        return false;
      }
      if p.HungUp? { return false; }
      if !p.Readable? { return true; }
      var raw := new RawMessage(p.data, p.fds);
      ok := Dispatch(raw, p.bad);
    }

    // ---- waits; the loops end where the list of polls does, and are then not over -----------------

    method WaitForHandshake(polls: seq<Polled>) returns (ok: bool, over: bool)
      requires Valid()
      modifies this
      ensures Valid()
      ensures var r := Wait(old(State()), ForHandshake, polls); State() == r.state && over == r.over
      ensures over ==> (ok <==> handshakeDone && !error)
    {
      hide Valid, Waiting.DispatchEvents;
      ghost var all := Wait(State(), ForHandshake, polls);
      var i := 0;
      while !error && !handshakeDone && i < |polls|
        invariant Valid() && i <= |polls|
        invariant var r := Wait(State(), ForHandshake, polls[i..]); r.state == all.state && r.over == all.over
        decreases |polls| - i
      {
        assert polls[i..][1..] == polls[i + 1..];
        FailureShows(State(), polls[i]);
        var dispatched := DispatchEvents(true, polls[i]);
        if !dispatched { return false, true; }
        i := i + 1;
      }
      return !error, error || handshakeDone;
    }

    method WaitForObject(slot: nat, polls: seq<Polled>) returns (over: bool)
      requires Valid() && slot < |objects|
      modifies this
      ensures Valid()
      ensures var r := Wait(old(State()), ForObject(slot), polls); State() == r.state && over == r.over
      ensures slot < |objects| && (over <==> objects[slot].id != 0 || error)
    {
      hide Valid, Waiting.DispatchEvents;
      ghost var all := Wait(State(), ForObject(slot), polls);
      var i := 0;
      while objects[slot].id == 0 && !error && i < |polls|
        invariant Valid() && i <= |polls| && slot < |objects|
        invariant var r := Wait(State(), ForObject(slot), polls[i..]); r.state == all.state && r.over == all.over
        decreases |polls| - i
      {
        assert polls[i..][1..] == polls[i + 1..];
        KeepsObjects(State(), polls[i]);
        var _ := DispatchEvents(true, polls[i]);
        i := i + 1;
      }
      over := objects[slot].id != 0 || error;
    }

    /** bindProtocol; behind a wait that is over the object has its id, or there is an error. */
    method BindProtocol(p: Protocol, version: nat, polls: seq<Polled>) returns (over: bool)
      requires Valid() && Usable([p]) && p.objects != [] && version <= MAX && seqNo < MAX
      modifies this
      ensures Valid()
      ensures var c := ClientModel.Bind(env, old(State()), p, version);
              if version > p.version then State() == c && over
              else var r := Wait(c, ForObject(|old(objects)|), polls); State() == r.state && over == r.over
      ensures version <= p.version ==>
                |old(objects)| < |objects| && (over <==> objects[|old(objects)|].id != 0 || error)
    {
      hide Valid, Wait;
      var slot := |objects|;
      SendBind(p, version);
      if version > p.version { return true; }
      over := WaitForObject(slot, polls);
    }

    /** roundtrip up to the wait for its answer. */
    method SendRoundtrip()
      requires Valid() && lastSent < MAX && !error
      modifies this
      ensures Valid() && State() == ClientModel.Roundtrip(old(State()))
    {
      hide Carries, NoEndIn, Usable, Encode;
      lastSent := lastSent + 1;
      var data := EncodeRoundtripRequest(Low32(lastSent));
      SendMessage(data, [], Sent(RoundtripRequest(Low32(lastSent)), 0, 0));
    }

    /**
      roundtrip; behind a wait that is over the answer to the request just sent, or to a later one, has
      come, or the last dispatch failed.
     */
    method Roundtrip(polls: seq<Polled>) returns (over: bool)
      requires Valid() && lastSent < MAX
      modifies this
      ensures Valid()
      ensures if old(error) then State() == old(State()) && over
              else var r := Wait(ClientModel.Roundtrip(old(State())), ForAnswer(old(lastSent) + 1), polls);
                   State() == r.state && over == r.over
      ensures !old(error) ==>
                var c := ClientModel.Roundtrip(old(State()));
                var used := Wait(c, ForAnswer(old(lastSent) + 1), polls).used;
                over <==> lastAcked >= old(lastSent) + 1 || LastFailed(c, polls, used)
    {
      hide Valid, Waiting.DispatchEvents, LastFailed, After;
      if error { return true; }
      var nextSeq := lastSent + 1;
      SendRoundtrip();
      AnswerIsAwaited(State(), nextSeq, polls);
      ghost var all := Wait(State(), ForAnswer(nextSeq), polls);
      var i := 0;
      while lastAcked < nextSeq && i < |polls|
        invariant Valid() && i <= |polls|
        invariant var r := Wait(State(), ForAnswer(nextSeq), polls[i..]); r.state == all.state && r.over == all.over
        decreases |polls| - i
      {
        assert polls[i..][1..] == polls[i + 1..];
        var dispatched := DispatchEvents(true, polls[i]);
        if !dispatched { return true; }
        i := i + 1;
      }
      over := lastAcked >= nextSeq;
    }
  }

  /** No object is ever taken from the list. */
  lemma {:induction false} ParseKeepsObjects(c: ClientState, data: seq<byte>, off: nat, fds: seq<int>)
    ensures |ClientParse(c, data, off, fds).state.objects| == |c.objects|
    decreases |data| - off
  {
    hide ReadFrame, Receive, ToClient, FdsOfMsg;
    if off < |data| && ReadFrame(data, off, fds).Some? {
      var f := ReadFrame(data, off, fds).value;
      if ToClient(f.msg) {
        Deferral.ReceiveShape(c, f.msg);
        if Receive(c, f.msg).0 {
          ParseKeepsObjects(Receive(c, f.msg).1, data, f.next, fds[|FdsOfMsg(f.msg)|..]);
        }
      }
    }
  }

  lemma KeepsObjects(c: ClientState, p: Polled)
    ensures |Waiting.DispatchEvents(c, true, p).state.objects| == |c.objects|
  {
    hide ClientParse, Kept, Released, AnyWide;
    if p.Readable? { ParseKeepsObjects(c, p.data, 0, p.fds); }
  }
}
