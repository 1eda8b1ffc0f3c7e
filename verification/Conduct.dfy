/**
  What one call, one bind and one received message come to, told from their inputs and from the source's
  own conditions: on either side, when they go through and when they are refused.
 */
module Conduct {
  import opened Bytes
  import opened WireFormat
  import opened Demarshal
  import opened Marshal
  import opened Calls
  import opened Spec
  import opened Messages
  import opened ServerModel
  import opened ClientModel
  import opened Stream

  // ---- the client's calls and binds ---------------------------------------------------------------

  /** Which methods the application listens to: none of an object it has registered nothing for. */
  function Registered(handlers: map<(Name, Name), seq<bool>>, protocol: Name, name: Name): seq<bool> {
    if (protocol, name) in handlers then handlers[(protocol, name)] else []
  }

  /** The child a call adds to the client's objects: one, if its protocol and spec are known there. */
  function Child(env: ClientEnv, o: ClientObject, name: Name, seqNo: nat): seq<ClientObject> {
    match Find(env.protocols, o.protocol)
    case None => []
    case Some(p) =>
      match FindObject(p.objects, name)
      case None => []
      case Some(spec) => [ClientObject(0, seqNo, 0, o.protocol, spec, Registered(env.handlers, o.protocol, name))]
  }

  /**
    A call goes through exactly if the object has the method and is as new: then one message is put
    behind those that wait, if the object has no id, and behind those on the wire if it has one and the
    connection stands; a return value takes the next sequence, in the message and for the child. Any
    other call leaves the client as it was.
   */
  lemma CallDoes(env: ClientEnv, c: ClientState, slot: nat, methodId: nat, args: seq<CallArg>, no: int)
    requires slot < |c.objects| && methodId < 0x1_0000_0000
    requires var o := c.objects[slot];
             methodId < |o.spec.c2s| && o.spec.c2s[methodId].since <= o.version ==>
               Known(o.spec.c2s[methodId].params, 0) && Fits(o.spec.c2s[methodId].params, 0, args)
    ensures var o, c' := c.objects[slot], Call(env, c, slot, methodId, args, no);
            if methodId < |o.spec.c2s| && o.spec.c2s[methodId].since <= o.version then
              var m := o.spec.c2s[methodId];
              var hasReturn := m.returnsType != [];
              var n := if hasReturn then c.seqNo + 1 else c.seqNo;
              var msg := Generic(Low32(o.id), methodId, SeqArgs(if hasReturn then Some(Low32(n)) else None)
                                 + Wire(m.params, 0, args), AllSends(args));
              c' == c.(seqNo := n,
                       objects := c.objects + (if hasReturn then Child(env, o, m.returnsType, n) else []),
                       pending := c.pending + (if o.id == 0 then [Pending(o.seqNo, msg, slot, no)] else []),
                       out := c.out + (if o.id != 0 && c.connected then [Sent(msg, slot, no)] else []))
            else c' == c
  {
    hide Known, Fits, Wire, AllSends, Find, FindObject;
    assert c.objects + [] == c.objects && c.pending + [] == c.pending && c.out + [] == c.out;
  }

  /**
    A bind goes out, with the next sequence, exactly if the client's own protocol is as new as the version
    asked for; a newer version disconnects.
   */
  lemma BindDoes(env: ClientEnv, c: ClientState, p: Protocol, version: nat)
    requires p.objects != [] && version < 0x1_0000_0000 && c.seqNo + 1 < 0x1_0000_0000
    ensures var c' := ClientModel.Bind(env, c, p, version);
            if version <= p.version then
              var n := c.seqNo + 1;
              var o := ClientObject(0, n, version, p.name, p.objects[0],
                                    Registered(env.handlers, p.name, p.objects[0].name));
              var x := Sent(BindProtocol(p.name, n, version), |c.objects|, 0);
              c' == c.(seqNo := n, objects := c.objects + [o], out := c.out + if c.connected then [x] else [])
            else c' == c.(error := true, connected := false)
  {
    assert c.out + [] == c.out;
  }

  /** A request for a roundtrip bears the next number; a client in error asks for none. */
  lemma AskDoes(c: ClientState)
    requires c.lastSent + 1 < 0x1_0000_0000
    ensures var n := c.lastSent + 1;
            ClientModel.Roundtrip(c) ==
            if c.error then c
            else c.(lastSent := n, out := c.out + if c.connected then [Sent(RoundtripRequest(n), 0, 0)] else [])
  {
    assert c.out + [] == c.out;
  }

  // ---- the flush of deferred messages -------------------------------------------------------------

  /** The object a waiting message is for: the first of its sequence. */
  predicate IsFor(objects: seq<ClientObject>, p: Pending, i: nat) {
    i < |objects| && objects[i].seqNo == p.dependsOn && forall k :: 0 <= k < i ==> objects[k].seqNo != p.dependsOn
  }

  lemma {:induction false} FateIs(objects: seq<ClientObject>, p: Pending)
    ensures FateOf(objects, p).Keep? <==> exists i: nat :: IsFor(objects, p, i) && objects[i].id == 0
    ensures forall id: nat :: FateOf(objects, p) == Release(id) <==>
                           id != 0 && exists i: nat :: IsFor(objects, p, i) && objects[i].id == id
  {
    var i := IndexOfSeq(objects, p.dependsOn);
    assert forall j: nat :: IsFor(objects, p, j) ==> j == i;
    assert i < |objects| ==> IsFor(objects, p, i);
  }

  lemma {:induction false} KeptAre(objects: seq<ClientObject>, pending: seq<Pending>)
    ensures forall p :: p in Kept(objects, pending) <==> p in pending && FateOf(objects, p).Keep?
    decreases |pending|
  {
    hide FateOf;
    if pending != [] { KeptAre(objects, pending[1..]); }
  }

  /** A released message, with the id's last octet in its header. */
  predicate IsReleased(p: Pending, id: nat, x: Sent) {
    x == Sent(if p.msg.Generic? then
                Generic(p.msg.objectId - p.msg.objectId % 256 + id % 256, p.msg.methodId, p.msg.args, p.msg.fds)
              else p.msg, p.slot, p.no)
  }

  lemma {:induction false} ReleasedAre(objects: seq<ClientObject>, pending: seq<Pending>)
    ensures forall x :: x in Released(objects, pending) <==>
              exists p, id: nat :: p in pending && FateOf(objects, p) == Release(id) && IsReleased(p, id, x)
    decreases |pending|
  {
    hide FateOf, IsReleased;
    if pending != [] {
      ReleasedAre(objects, pending[1..]);
      var p := pending[0];
      var f := FateOf(objects, p);
      if f.Release? { ReleasedIs(objects, pending); }
      assert forall q :: q in pending <==> q == p || q in pending[1..];
    }
  }

  lemma ReleasedIs(objects: seq<ClientObject>, pending: seq<Pending>)
    requires pending != [] && FateOf(objects, pending[0]).Release?
    ensures Released(objects, pending) != [] && Released(objects, pending)[1..] == Released(objects, pending[1..])
    ensures forall x :: IsReleased(pending[0], FateOf(objects, pending[0]).id, x) <==> x == Released(objects, pending)[0]
  {
    hide FateOf;
  }

  /**
    What a flush does to any queue: the messages stay whose object still has no id; those whose object has
    one go out, with its last octet in their header, if the connection stands; the others are dropped.
    Where each stands is said by `Deferral.FlushPlaces`.
   */
  lemma FlushDoes(c: ClientState)
    ensures var c' := ClientModel.Flush(c);
            && c' == c.(pending := c'.pending, out := c'.out, truncated := c'.truncated)
            && (forall p :: p in c'.pending <==>
                  p in c.pending && exists i: nat :: IsFor(c.objects, p, i) && c.objects[i].id == 0)
            && c.out <= c'.out && (!c.connected ==> c'.out == c.out)
            && (c.connected ==> forall x :: x in c'.out[|c.out|..] <==>
                  exists p, i: nat :: p in c.pending && IsFor(c.objects, p, i) && c.objects[i].id != 0
                                 && IsReleased(p, c.objects[i].id, x))
  {
    hide FateOf, Kept, Released, AnyWide, IsReleased;
    KeptAre(c.objects, c.pending);
    ReleasedAre(c.objects, c.pending);
    var released := Released(c.objects, c.pending);
    assert (c.out + released)[|c.out|..] == released;
    forall p | p in c.pending
      ensures FateOf(c.objects, p).Keep? <==> exists i: nat :: IsFor(c.objects, p, i) && c.objects[i].id == 0
    {
      FateIs(c.objects, p);
    }
    forall x
      ensures x in released <==> exists p, i: nat :: p in c.pending && IsFor(c.objects, p, i) && c.objects[i].id != 0
                                                  && IsReleased(p, c.objects[i].id, x)
    {
      ReleasedFor(c, x);
    }
  }

  lemma ReleasedFor(c: ClientState, x: Sent)
    requires x in Released(c.objects, c.pending) <==>
             exists p, id: nat :: p in c.pending && FateOf(c.objects, p) == Release(id) && IsReleased(p, id, x)
    ensures x in Released(c.objects, c.pending) <==>
            exists p, i: nat :: p in c.pending && IsFor(c.objects, p, i) && c.objects[i].id != 0
                                && IsReleased(p, c.objects[i].id, x)
  {
    hide FateOf, Released, IsReleased;
    if p, id: nat :| p in c.pending && FateOf(c.objects, p) == Release(id) && IsReleased(p, id, x) {
      FateIs(c.objects, p);
      var i: nat :| IsFor(c.objects, p, i) && c.objects[i].id == id;
    } else if p, i: nat :| p in c.pending && IsFor(c.objects, p, i) && c.objects[i].id != 0
                           && IsReleased(p, c.objects[i].id, x) {
      FateIs(c.objects, p);
      assert FateOf(c.objects, p) == Release(c.objects[i].id);
    }
  }

  // ---- what a client receives ---------------------------------------------------------------------

  /** The first object of an id. */
  predicate FoundAt(c: ClientState, id: nat, i: nat) {
    i < |c.objects| && c.objects[i].id == id && forall k :: 0 <= k < i ==> c.objects[k].id != id
  }

  lemma FirstOfId(c: ClientState, id: nat, i: nat)
    requires FoundAt(c, id, i)
    ensures IndexOfObject(c.objects, id) == i
  {}

  /**
    An event for an object of the client: its listener is called once, with the object and exactly the
    arguments that were sent, if the method is listened to and not too new for the object; nothing else
    changes, and nothing at all if it is not.
   */
  lemma EventIsDelivered(c: ClientState, i: nat, methodId: u32, args: seq<CallArg>)
    requires i < |c.objects| && c.objects[i].id < 0x1_0000_0000 && FoundAt(c, c.objects[i].id, i)
    requires methodId < |c.objects[i].spec.s2c| && c.objects[i].spec.s2c[methodId].returnsType == []
    requires var m := c.objects[i].spec.s2c[methodId];
             Known(m.params, 0) && Fits(m.params, 0, args) && AllShort(args)
    ensures var o := c.objects[i];
            var m := o.spec.s2c[methodId];
            var event := Generic(o.id, methodId, CallArgs(m, None, args), AllSends(args));
            Receive(c, event) ==
            (true, if methodId < |o.listeners| && o.listeners[methodId] && m.since <= o.version
                   then c.(calls := c.calls + [ListenerCall(o.id, methodId, [Self] + CallValues(m, None, args))])
                   else c)
  {
    hide CallOf, CallArgs, CallValues, AllSends, FdTotal, Known, Fits, AllShort;
    var o := c.objects[i];
    FirstOfId(c, o.id, i);
    if Listened(o.listeners, methodId) && o.spec.s2c[methodId].since <= o.version {
      CallIsDelivered(o.spec.s2c, o.listeners, o.version, methodId, None, args);
    } else if FdTotal(CallArgs(o.spec.s2c[methodId], None, args)) <= |AllSends(args)| {
      NotForUs(o, methodId, CallArgs(o.spec.s2c[methodId], None, args), AllSends(args));
    }
  }

  lemma NotForUs(o: ClientObject, methodId: u32, args: seq<Arg>, fds: seq<int>)
    requires methodId < |o.spec.s2c| && FdTotal(args) <= |fds|
    requires !Listened(o.listeners, methodId) || o.spec.s2c[methodId].since > o.version
    ensures !CallOf(o.spec.s2c, o.listeners, o.version, methodId, args, fds).Delivered?
  {
    hide CheckFrom, ArgsValues, FdTotal;
  }

  /** An event for no object, for no method, or with other arguments than declared changes nothing. */
  lemma StrayEventIsIgnored(c: ClientState, m: Msg)
    requires m.Generic? && ValidArgs(m.args) && |m.fds| == FdTotal(m.args)
    requires forall o :: o in c.objects ==> forall d :: d in o.spec.s2c ==> END !in d.params
    requires forall i: nat :: FoundAt(c, m.objectId, i) ==>
               var methods := c.objects[i].spec.s2c;
               || m.methodId >= |methods|
               || forall n :: 0 <= n <= |m.args| ==> Params(methods[m.methodId]) != TypeBytes(m.args[..n])
    ensures Receive(c, m) == (true, c)
  {
    hide CallOf, TypeBytes, FdTotal, ValidArgs;
    var i := IndexOfObject(c.objects, m.objectId);
    if i < |c.objects| {
      var o := c.objects[i];
      assert FoundAt(c, m.objectId, i) && o in c.objects;
      CalledExactly(o.spec.s2c, o.listeners, o.version, m.methodId, m.args, m.fds);
    }
  }

  /** Only a server that speaks version 1 is answered; any other ends the connection's handshake. */
  lemma VersionsAreMet(c: ClientState, versions: seq<u32>)
    ensures Receive(c, HandshakeBegin(versions)) ==
            if 1 in versions then
              (true, c.(out := c.out + if c.connected then [Sent(HandshakeAck(1), 0, 0)] else []))
            else (false, c)
  {
    assert c.out + [] == c.out;
  }

  /** A fatal error is noted, an answer to a roundtrip remembered, and nothing else done. */
  lemma NoticesAreNoted(c: ClientState, id: u32, errorId: u32, text: seq<byte>, n: u32)
    ensures Receive(c, FatalError(id, errorId, text)) == (true, c.(error := true))
    ensures Receive(c, RoundtripDone(n)) == (true, c.(lastAcked := n))
  {}

  /** The id goes to the one object of the sequence, if there is one; all others keep theirs. */
  lemma IdIsTaken(c: ClientState, seqNo: u32, id: u32)
    requires forall i, j :: 0 <= i < j < |c.objects| ==> c.objects[i].seqNo != c.objects[j].seqNo
    ensures var (ok, c') := Receive(c, NewObject(id, seqNo));
            && ok && c' == c.(objects := c'.objects) && |c'.objects| == |c.objects|
            && forall i :: 0 <= i < |c.objects| ==>
                 c'.objects[i] == if c.objects[i].seqNo == seqNo then c.objects[i].(id := id) else c.objects[i]
  {}

  /** A batch with descriptors that belong to no message ends the connection, whatever was in it. */
  lemma StraysDisconnect(c: ClientState, ms: seq<Msg>, stray: seq<int>)
    requires (forall m :: m in ms ==> Encodable(m) && ToClient(m)) && ReceiveAll(c, ms).0
    ensures var c' := ClientDispatch(c, BytesOf(ms), FdsOfAll(ms) + stray);
            c' == if stray == [] then ClientModel.Flush(ReceiveAll(c, ms).1)
                  else ReceiveAll(c, ms).1.(error := true, connected := false)
  {
    hide BytesOf, FdsOfAll, ClientParse, ReceiveAll, Encodable, ToClient, ClientModel.Flush, At;
    AtSelf(BytesOf(ms));
    ClientStream(c, BytesOf(ms), 0, ms, stray);
  }

  // ---- what a server receives ---------------------------------------------------------------------

  /** The spec a protocol has for an object: the first one, or the first of a name. */
  predicate Declares(p: Protocol, name: Name, spec: ObjectSpec) {
    if name == [] then p.objects != [] && spec == p.objects[0]
    else exists k :: 0 <= k < |p.objects| && p.objects[k] == spec && spec.name == name
                     && forall j :: 0 <= j < k ==> p.objects[j].name != name
  }

  lemma {:induction false} FirstOfName(objects: seq<ObjectSpec>, name: Name, k: nat)
    requires k < |objects| && objects[k].name == name && forall j :: 0 <= j < k ==> objects[j].name != name
    ensures FindObject(objects, name) == Some(objects[k])
    decreases k
  {
    if k > 0 {
      forall j | 0 <= j < k - 1 ensures objects[1..][j].name != name { assert objects[1..][j] == objects[j + 1]; }
      FirstOfName(objects[1..], name, k - 1);
    }
  }

  /** Of several protocols of a name the first is the one that is meant. */
  lemma {:induction false} FirstProtocolCounts(protocols: seq<Protocol>, name: Name, k: nat)
    requires k < |protocols| && protocols[k].name == name && forall j :: 0 <= j < k ==> protocols[j].name != name
    ensures Find(protocols, name) == Some(protocols[k])
    decreases k
  {
    if k > 0 {
      forall j | 0 <= j < k - 1 ensures protocols[1..][j].name != name {
        assert protocols[1..][j] == protocols[j + 1];
      }
      FirstProtocolCounts(protocols[1..], name, k - 1);
    }
  }

  /**
    An object is made exactly if its protocol is offered, declares it, and is as new as the version asked
    for: it gets the next id, and the id goes out with the sequence. Otherwise an entry nobody listens for
    stays behind, with what was found for it, an error and no answer.
   */
  lemma CreationDoes(env: ServerEnv, s: ServerState, protocol: Name, name: Name, version: nat, seqNo: u32)
    requires s.maxId < 0x1_0000_0000
    ensures var s' := CreateObject(env, s, protocol, name, version, seqNo);
            var p := Find(env.protocols, protocol);
            && |s'.objects| == |s.objects| + 1 && s'.objects[..|s.objects|] == s.objects
            && (p.Some? && version <= p.value.version ==>
                  forall spec :: Declares(p.value, name, spec) ==>
                    && s'.objects[|s.objects|] ==
                       ServerObject(s.maxId, version, protocol, Some(spec),
                                    Registered(env.handlers, protocol, spec.name), seqNo)
                    && s' == s.(objects := s'.objects, maxId := s.maxId + 1,
                                out := s.out + [NewObject(s.maxId, seqNo)]))
            && (p.None? || version > p.value.version || (forall spec :: !Declares(p.value, name, spec)) ==>
                  && s' == s.(objects := s'.objects, maxId := s.maxId + 1, error := true)
                  && var rest := s'.objects[|s.objects|];
                  && rest == ServerObject(s.maxId, version, if p.None? then [] else protocol, rest.spec, [], seqNo)
                  && forall spec :: rest.spec == Some(spec) <==> p.Some? && Declares(p.value, name, spec))
  {
    hide Find;
    var p := Find(env.protocols, protocol);
    if p.Some? {
      SpecIsDeclared(p.value, name);
    }
  }

  lemma SpecIsDeclared(p: Protocol, name: Name)
    ensures forall spec :: Declares(p, name, spec) <==> SpecFor(p, name) == Some(spec)
  {
    forall spec | Declares(p, name, spec) ensures SpecFor(p, name) == Some(spec) {
      if name != [] {
        var k :| 0 <= k < |p.objects| && p.objects[k] == spec && spec.name == name
                 && forall j :: 0 <= j < k ==> p.objects[j].name != name;
        FirstOfName(p.objects, name, k);
      }
    }
    if name != [] && SpecFor(p, name).Some? {
      var k := PlaceOf(p.objects, name);
      FirstOfName(p.objects, name, k);
      assert Declares(p, name, p.objects[k]);
    }
  }

  lemma {:induction false} PlaceOf(objects: seq<ObjectSpec>, name: Name) returns (k: nat)
    requires FindObject(objects, name).Some?
    ensures k < |objects| && objects[k].name == name && forall j :: 0 <= j < k ==> objects[j].name != name
    decreases |objects|
  {
    if objects[0].name == name {
      k := 0;
    } else {
      k := PlaceOf(objects[1..], name);
      k := k + 1;
      forall j | 0 <= j < k ensures objects[j].name != name { if j > 0 { assert objects[j] == objects[1..][j - 1]; } }
    }
  }

  /** A bind asks for the first object of the protocol. */
  lemma BindIsServed(env: ServerEnv, s: ServerState, name: Name, seqNo: u32, version: u32)
    ensures Handle(env, s, BindProtocol(name, seqNo, version)) == CreateObject(env, s, name, [], version, seqNo)
  {}

  /**
    A call is answered by the object it names, or by none: the listener hears the object and the values
    of the declared arguments, and the object a method returns is made at the caller's sequence; a method
    that is unknown, too new, or called with other arguments is a fatal error about the object, unless its
    parameters break off inside of an array, where the exception that escapes has changed nothing.
   */
  lemma CallIsServed(env: ServerEnv, s: ServerState, m: Msg, i: nat)
    requires m.Generic? && ValidArgs(m.args) && FdTotal(m.args) <= |m.fds|
    requires i < |s.objects| && s.objects[i].id == m.objectId
    requires forall k :: 0 <= k < i ==> s.objects[k].id != m.objectId
    requires s.objects[i].spec.Some? && forall d :: d in s.objects[i].spec.value.c2s ==> END !in d.params
    ensures var o, s' := s.objects[i], Handle(env, s, m);
            var methods := o.spec.value.c2s;
            var refused := s.(out := s.out + [FatalError(m.objectId, m.objectId, [])], error := true);
            if m.methodId >= |methods| then s' == refused
            else
              var d := methods[m.methodId];
              if m.methodId >= |o.listeners| || !o.listeners[m.methodId] then s' == s
              else if d.since > o.version then s' == refused
              else if exists n :: 0 <= n <= |m.args| && Params(d) == TypeBytes(m.args[..n]) then
                var n :| 0 <= n <= |m.args| && Params(d) == TypeBytes(m.args[..n]);
                && FdTotal(m.args[..n]) <= |m.fds|
                && var heard := ListenerCall(m.objectId, m.methodId, [Self] + ArgsValues(m.args[..n], m.fds));
                && var s1 := s.(calls := s.calls + [heard]);
                s' == if d.returnsType == [] then s1
                      else CreateObject(env, s1, o.protocol, d.returnsType, o.version, NewSeq(m))
              else if exists n :: BreaksOff(Params(d), m.args, n) then s' == s
              else s' == refused
  {
    hide BreaksOff, CallOf, TypeBytes, FdTotal, ArgsValues, NewSeq, CreateObject, ValidArgs;
    assert IndexOfId(s.objects, m.objectId) == i;
    var o := s.objects[i];
    CalledExactly(o.spec.value.c2s, o.listeners, o.version, m.methodId, m.args, m.fds);
  }

  // ---- what a server sends of itself --------------------------------------------------------------

  /**
    An event goes out exactly if the object has the method, is as new, and the method returns nothing;
    anything else is a fatal error about the object.
   */
  lemma EmitDoes(s: ServerState, k: nat, methodId: nat, args: seq<CallArg>)
    requires k < |s.objects| && s.objects[k].spec.Some? && s.objects[k].id < 0x1_0000_0000 && methodId < 0x1_0000_0000
    requires var methods := s.objects[k].spec.value.s2c;
             methodId < |methods| && methods[methodId].since <= s.objects[k].version ==>
               Known(methods[methodId].params, 0) && Fits(methods[methodId].params, 0, args)
    ensures var o := s.objects[k];
            var methods := o.spec.value.s2c;
            Emit(s, k, methodId, args) ==
            if methodId < |methods| && methods[methodId].since <= o.version && methods[methodId].returnsType == [] then
              s.(out := s.out + [Generic(o.id, methodId, Wire(methods[methodId].params, 0, args), AllSends(args))])
            else s.(out := s.out + [FatalError(o.id, o.id, [])], error := true)
  {
    hide Known, Fits, Wire, AllSends;
    assert forall m: seq<Arg> :: [] + m == m;
  }
}
