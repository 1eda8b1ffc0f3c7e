/**
  Both parties agree on what an id stands for: proved over all runs in which no deferred message
  was resolved to an id of 256 or more.
 */
module ObjectAgreement {
  import opened Bytes
  import opened WireFormat
  import opened Demarshal
  import opened Marshal
  import opened Calls
  import opened Spec
  import opened Messages
  import opened ServerModel
  import opened ClientModel
  import opened TwoParty
  import RoundtripSafety

  // ---- sequences are used once --------------------------------------------------------------

  function One(n: nat): multiset<nat> { if n == 0 then multiset{} else multiset{n} }

  function SeqsSent(out: seq<Sent>): multiset<nat> {
    if out == [] then multiset{} else SeqsSent(out[..|out| - 1]) + One(NewSeq(out[|out| - 1].msg))
  }

  function SeqsWaiting(pending: seq<Pending>): multiset<nat> {
    if pending == [] then multiset{} else One(NewSeq(pending[0].msg)) + SeqsWaiting(pending[1..])
  }

  lemma SeqsSentOne(out: seq<Sent>, s: Sent)
    ensures SeqsSent(out + [s]) == SeqsSent(out) + One(NewSeq(s.msg))
  {
    assert (out + [s])[..|out|] == out;
  }

  lemma {:induction false} SeqsSentAll(out: seq<Sent>, more: seq<Sent>)
    ensures SeqsSent(out + more) == SeqsSent(out) + SeqsSent(more)
    decreases |more|
  {
    hide SeqsSent, NewSeq, One;
    if more == [] {
      NothingSent();
      assert out + [] == out;
    } else {
      var init, last := more[..|more| - 1], more[|more| - 1];
      SeqsSentAll(out, init);
      SeqsSentOne(out + init, last);
      SeqsSentOne(init, last);
      assert more == init + [last];
      assert out + more == out + init + [last];
    }
  }

  lemma NothingSent()
    ensures SeqsSent([]) == multiset{}
  {}

  lemma {:induction false} SeqsWaitingOne(pending: seq<Pending>, p: Pending)
    ensures SeqsWaiting(pending + [p]) == SeqsWaiting(pending) + One(NewSeq(p.msg))
    decreases |pending|
  {
    if pending == [] {
      assert [p][1..] == [];
    } else {
      SeqsWaitingOne(pending[1..], p);
      assert (pending + [p])[0] == pending[0] && (pending + [p])[1..] == pending[1..] + [p];
    }
  }

  lemma {:induction false} SentTwice(out: seq<Sent>, i: nat, j: nat)
    requires i < j < |out| && NewSeq(out[i].msg) == NewSeq(out[j].msg) != 0
    ensures SeqsSent(out)[NewSeq(out[i].msg)] >= 2
    decreases |out|
  {
    var init := out[..|out| - 1];
    if j == |out| - 1 { SentOnce(init, i); } else { SentTwice(init, i, j); }
  }

  lemma {:induction false} SentOnce(out: seq<Sent>, i: nat)
    requires i < |out| && NewSeq(out[i].msg) != 0
    ensures NewSeq(out[i].msg) in SeqsSent(out)
    decreases |out|
  {
    if i < |out| - 1 { SentOnce(out[..|out| - 1], i); }
  }

  /** All sequences a client has asked objects for, on the wire or waiting. */
  function Asks(c: ClientState): multiset<nat> { SeqsSent(c.out) + SeqsWaiting(c.pending) }

  ghost predicate Fresh(c: ClientState) {
    forall n :: n in Asks(c) ==> Asks(c)[n] == 1 && n <= c.seqNo
  }

  ghost predicate ClientSeqs(c: ClientState) {
    && c.seqNo <= MAX
    && (forall i :: 0 <= i < |c.objects| ==> 1 <= c.objects[i].seqNo <= c.seqNo)
    && (forall i, j :: 0 <= i < j < |c.objects| ==> c.objects[i].seqNo < c.objects[j].seqNo)
  }

  // ---- what a message on its way is worth ---------------------------------------------------

  function ChildSpec(w: World, protocol: Name, name: Name): Option<ObjectSpec> {
    match Find(w.cenv.protocols, protocol)
    case None => None
    case Some(p) => FindObject(p.objects, name)
  }

  /** A client object made for the sequence in `m` is the child its method declares. */
  ghost predicate ChildOk(w: World, c: ClientState, m: Msg, protocol: Name, name: Name) {
    && NewSeq(m) != 0
    && forall i :: 0 <= i < |c.objects| && c.objects[i].seqNo == NewSeq(m) ==>
         && c.objects[i].protocol == protocol && c.objects[i].version == 0
         && ChildSpec(w, protocol, name) == Some(c.objects[i].spec)
  }

  /** The message is what `call` makes of some arguments the method takes. */
  ghost predicate Marshalled(d: Method, m: Msg)
    requires m.Generic?
  {
    exists returnSeq: Option<u32>, args: seq<CallArg> :: MarshalledFrom(d, m, returnSeq, args)
  }

  ghost predicate MarshalledFrom(d: Method, m: Msg, returnSeq: Option<u32>, args: seq<CallArg>)
    requires m.Generic?
  {
    && Known(d.params, 0) && Fits(d.params, 0, args) && AllShort(args)
    && (returnSeq.Some? <==> d.returnsType != [])
    && m.args == CallArgs(d, returnSeq, args) && m.fds == AllSends(args)
  }

  /** A generic message answers to the method it was marshalled for. */
  ghost predicate GenericOk(w: World, c: ClientState, slot: nat, m: Msg) {
    && m.Generic? && slot < |c.objects|
    && var o := c.objects[slot];
    && m.methodId < |o.spec.c2s|
    && var d := o.spec.c2s[m.methodId];
    && d.since <= o.version
    && FdTotal(m.args) <= |m.fds|
    && CheckFrom(Params(d), 0, m.args).Pass?
    && Marshalled(d, m)
    && (d.returnsType != [] ==> ChildOk(w, c, m, o.protocol, d.returnsType))
  }

  ghost predicate BindOk(w: World, c: ClientState, slot: nat, m: Msg) {
    && m.BindProtocol? && slot < |c.objects|
    && var o := c.objects[slot];
    && o.seqNo == m.seqNo && o.protocol == m.protocol && o.version == m.version
    && var p := Find(w.cenv.protocols, m.protocol);
    && p.Some? && p.value.objects != [] && p.value.objects[0] == o.spec
  }

  ghost predicate FrameOk(w: World, c: ClientState, x: Sent) {
    && (x.msg.Generic? ==> GenericOk(w, c, x.slot, x.msg) && c.objects[x.slot].id == x.msg.objectId != 0)
    && (x.msg.BindProtocol? ==> BindOk(w, c, x.slot, x.msg))
  }

  ghost predicate PendingOk(w: World, c: ClientState, p: Pending) {
    GenericOk(w, c, p.slot, p.msg) && c.objects[p.slot].seqNo == p.dependsOn && p.msg.objectId == 0
  }

  /** A server object is the one a client object stands for. */
  predicate SameKind(o: ClientObject, so: ServerObject) {
    so.protocol == o.protocol && so.spec == Some(o.spec) && o.version <= so.version
  }

  // ---- the invariant ------------------------------------------------------------------------

  /** Every object the server made for a sequence was asked for by a message it has handled. */
  ghost predicate Born(st: State) {
    && (forall k :: 0 <= k < |st.server.objects| && st.server.objects[k].born != 0 ==>
          exists i :: 0 <= i < st.sDone && i < |st.client.out|
              && NewSeq(st.client.out[i].msg) == st.server.objects[k].born)
    && (forall k, l :: 0 <= k < l < |st.server.objects| && st.server.objects[k].born != 0 ==>
          st.server.objects[k].born != st.server.objects[l].born)
  }

  /** `id` names an object the server succeeded to make for `seqNo`. */
  predicate Names(w: World, s: ServerState, id: nat, seqNo: nat) {
    1 <= id <= |s.objects| && s.objects[id - 1].born == seqNo && Declared(w.senv, s.objects[id - 1])
  }

  ghost predicate Replies(w: World, st: State) {
    forall j :: 0 <= j < |st.server.out| && st.server.out[j].NewObject? ==>
      Names(w, st.server, st.server.out[j].id, st.server.out[j].seqNo)
  }

  ghost predicate Resolved(w: World, st: State) {
    forall i :: 0 <= i < |st.client.objects| && st.client.objects[i].id != 0 ==>
      Names(w, st.server, st.client.objects[i].id, st.client.objects[i].seqNo)
  }

  ghost predicate Kinds(w: World, st: State) {
    forall i, k :: 0 <= i < |st.client.objects| && 0 <= k < |st.server.objects|
                   && Declared(w.senv, st.server.objects[k])
                       && st.server.objects[k].born == st.client.objects[i].seqNo ==>
      SameKind(st.client.objects[i], st.server.objects[k])
  }

  ghost predicate Frames(w: World, st: State) {
    && (forall i :: st.sDone <= i < |st.client.out| ==> FrameOk(w, st.client, st.client.out[i]))
    && (forall i :: 0 <= i < |st.client.pending| ==> PendingOk(w, st.client, st.client.pending[i]))
  }

  ghost predicate Sound(w: World, st: State) {
    && Table(w.senv, st.server) && st.server.maxId <= MAX
    && st.sDone <= |st.client.out|
    && ClientSeqs(st.client) && Fresh(st.client)
    && (st.client.truncated ==> st.server.maxId > 256)
    && Born(st) && Replies(w, st) && Resolved(w, st)
  }

  ghost predicate Inv(w: World, st: State) {
    Sound(w, st) && (!st.client.truncated ==> Kinds(w, st) && Frames(w, st))
  }

  // ---- objects are only ever added, and only their ids set ----------------------------------

  /** `b` has the objects of `a`, ids aside, and perhaps more of later sequences. */
  ghost predicate Extends(a: ClientState, b: ClientState) {
    && |a.objects| <= |b.objects|
    && (forall i :: 0 <= i < |a.objects| ==>
          && b.objects[i] == a.objects[i].(id := b.objects[i].id)
          && (a.objects[i].id != 0 ==> b.objects[i].id == a.objects[i].id))
    && (forall i :: |a.objects| <= i < |b.objects| ==> b.objects[i].id == 0 && b.objects[i].seqNo > a.seqNo)
  }

  lemma GenericStays(w: World, a: ClientState, b: ClientState, slot: nat, m: Msg)
    requires GenericOk(w, a, slot, m) && Extends(a, b) && NewSeq(m) <= a.seqNo
    ensures GenericOk(w, b, slot, m)
  {
    hide CheckFrom, Params, FdTotal, ChildSpec, Marshalled;
  }

  lemma FrameStays(w: World, a: ClientState, b: ClientState, x: Sent)
    requires FrameOk(w, a, x) && Extends(a, b) && NewSeq(x.msg) <= a.seqNo
    ensures FrameOk(w, b, x)
  {
    hide GenericOk;
    if x.msg.Generic? {
      GenericStays(w, a, b, x.slot, x.msg);
      SlotExists(w, a, x.slot, x.msg);
      SlotExists(w, b, x.slot, x.msg);
    }
  }

  lemma SlotExists(w: World, c: ClientState, slot: nat, m: Msg)
    requires GenericOk(w, c, slot, m)
    ensures m.Generic? && slot < |c.objects|
  {}

  lemma PendingStays(w: World, a: ClientState, b: ClientState, p: Pending)
    requires PendingOk(w, a, p) && Extends(a, b) && NewSeq(p.msg) <= a.seqNo
    ensures PendingOk(w, b, p)
  {
    hide GenericOk;
    GenericStays(w, a, b, p.slot, p.msg);
    SlotExists(w, a, p.slot, p.msg);
    SlotExists(w, b, p.slot, p.msg);
  }

  lemma NewSeqBound(c: ClientState, i: nat)
    requires Fresh(c) && i < |c.out|
    ensures NewSeq(c.out[i].msg) <= c.seqNo
  {
    if NewSeq(c.out[i].msg) != 0 { SentOnce(c.out, i); assert NewSeq(c.out[i].msg) in Asks(c); }
  }

  lemma {:induction false} WaitsOnce(pending: seq<Pending>, i: nat)
    requires i < |pending| && NewSeq(pending[i].msg) != 0
    ensures NewSeq(pending[i].msg) in SeqsWaiting(pending)
    decreases |pending|
  {
    if i > 0 { WaitsOnce(pending[1..], i - 1); }
  }

  lemma PendingBound(c: ClientState, i: nat)
    requires Fresh(c) && i < |c.pending|
    ensures NewSeq(c.pending[i].msg) <= c.seqNo
  {
    if NewSeq(c.pending[i].msg) != 0 { WaitsOnce(c.pending, i); assert NewSeq(c.pending[i].msg) in Asks(c); }
  }

  /** Frames and waiting messages outlive any extension of the object list. */
  lemma FramesStay(w: World, st: State, c': ClientState)
    requires Frames(w, st) && Fresh(st.client) && Extends(st.client, c')
    requires st.sDone <= |st.client.out| && c'.out == st.client.out && c'.pending == st.client.pending
    ensures Frames(w, st.(client := c'))
  {
    hide FrameOk, PendingOk, Fresh, Extends;
    forall i | st.sDone <= i < |c'.out| ensures FrameOk(w, c', c'.out[i]) {
      NewSeqBound(st.client, i);
      FrameStays(w, st.client, c', c'.out[i]);
    }
    forall i | 0 <= i < |c'.pending| ensures PendingOk(w, c', c'.pending[i]) {
      PendingBound(st.client, i);
      PendingStays(w, st.client, c', c'.pending[i]);
    }
  }

  // ---- the parts of a call, one after the other ----------------------------------------------

  /** Nothing the server knows of changes; frames stay as good as they were. */
  lemma ClientMoves(w: World, st: State, c': ClientState)
    requires Inv(w, st) && Continues(st.client.out, c'.out)
    requires c'.objects == st.client.objects && ClientSeqs(c') && Fresh(c')
    requires c'.truncated || (!st.client.truncated && Frames(w, st.(client := c')))
    requires c'.truncated ==> st.client.truncated || st.server.maxId > 256
    ensures Inv(w, st.(client := c'))
  {
    hide Table, Fresh, ClientSeqs, FrameOk, PendingOk, Extends;
    var st' := st.(client := c');
    assert Born(st') by { BornStays(st, c'); }
  }

  lemma BornStays(st: State, c': ClientState)
    requires Born(st) && Continues(st.client.out, c'.out)
    ensures Born(st.(client := c'))
  {
    forall k | 0 <= k < |st.server.objects| && st.server.objects[k].born != 0
      ensures exists i :: 0 <= i < st.sDone && i < |c'.out| && NewSeq(c'.out[i].msg) == st.server.objects[k].born
    {
      var i :| 0 <= i < st.sDone && i < |st.client.out| && NewSeq(st.client.out[i].msg) == st.server.objects[k].born;
      assert c'.out[i] == st.client.out[i];
    }
  }

  lemma SeqAllocated(w: World, st: State)
    requires Inv(w, st) && st.client.seqNo < MAX
    ensures Inv(w, st.(client := st.client.(seqNo := st.client.seqNo + 1)))
  {
    var c' := st.client.(seqNo := st.client.seqNo + 1);
    assert Asks(c') == Asks(st.client);
    if !st.client.truncated { SameObjects(w, st, c'); }
    ClientMoves(w, st, c');
  }

  /** Fields no message depends on. */
  lemma SameObjects(w: World, st: State, c': ClientState)
    requires Frames(w, st) && c'.objects == st.client.objects && c'.out == st.client.out
          && c'.pending == st.client.pending
    ensures Frames(w, st.(client := c'))
  {
    hide FdTotal, CheckFrom, Params, ChildSpec, Marshalled;
  }

  /** A good message goes onto the wire (if there is one) or onto the queue. */
  lemma MessageSent(w: World, st: State, x: Sent)
    requires Inv(w, st) && NewSeq(x.msg) <= st.client.seqNo && NewSeq(x.msg) !in Asks(st.client)
    requires !st.client.truncated ==> FrameOk(w, st.client, x)
    ensures Inv(w, st.(client := Send(st.client, x)))
  {
    hide Table, FrameOk, PendingOk, NewSeq, Born, Replies, Resolved, Kinds, SeqsSent, SeqsWaiting, One;
    var c' := Send(st.client, x);
    if st.client.connected {
      SeqsSentOne(st.client.out, x);
      assert Asks(c') == Asks(st.client) + One(NewSeq(x.msg));
      FreshPlus(st.client, c', NewSeq(x.msg));
      if !st.client.truncated { FramesIgnoreOut(w, st, c', x); }
      ClientMoves(w, st, c');
    }
  }

  lemma FreshPlus(c: ClientState, c': ClientState, n: nat)
    requires Fresh(c) && Asks(c') == Asks(c) + One(n) && c'.seqNo == c.seqNo && n <= c.seqNo && n !in Asks(c)
    ensures Fresh(c')
  {}

  lemma FramesIgnoreOut(w: World, st: State, c': ClientState, x: Sent)
    requires Frames(w, st) && FrameOk(w, st.client, x) && c' == st.client.(out := st.client.out + [x])
    ensures Frames(w, st.(client := c'))
  {
    forall i | st.sDone <= i < |c'.out| ensures FrameOk(w, c', c'.out[i]) {
      SameFrame(w, st.client, c', c'.out[i]);
    }
    forall i | 0 <= i < |c'.pending| ensures PendingOk(w, c', c'.pending[i]) {
      SamePending(w, st.client, c', c'.pending[i]);
    }
  }

  lemma SameFrame(w: World, a: ClientState, b: ClientState, x: Sent)
    requires a.objects == b.objects
    ensures FrameOk(w, a, x) <==> FrameOk(w, b, x)
  {
    hide FdTotal, CheckFrom, Params, ChildSpec, Marshalled;
  }

  lemma SamePending(w: World, a: ClientState, b: ClientState, p: Pending)
    requires a.objects == b.objects
    ensures PendingOk(w, a, p) <==> PendingOk(w, b, p)
  {
    hide FdTotal, CheckFrom, Params, ChildSpec, Marshalled;
  }

  lemma MessageQueued(w: World, st: State, p: Pending)
    requires Inv(w, st) && NewSeq(p.msg) <= st.client.seqNo && NewSeq(p.msg) !in Asks(st.client)
    requires !st.client.truncated ==> PendingOk(w, st.client, p)
    ensures Inv(w, st.(client := st.client.(pending := st.client.pending + [p])))
  {
    hide Table, FrameOk, PendingOk, NewSeq, Born, Replies, Resolved, Kinds, SeqsSent, SeqsWaiting, One;
    var c' := st.client.(pending := st.client.pending + [p]);
    SeqsWaitingOne(st.client.pending, p);
    assert Asks(c') == Asks(st.client) + One(NewSeq(p.msg));
    FreshPlus(st.client, c', NewSeq(p.msg));
    if !st.client.truncated {
      forall i | st.sDone <= i < |c'.out| ensures FrameOk(w, c', c'.out[i]) { SameFrame(w, st.client, c', c'.out[i]); }
      forall i | 0 <= i < |c'.pending| ensures PendingOk(w, c', c'.pending[i]) {
        SamePending(w, st.client, c', c'.pending[i]);
      }
    }
    ClientMoves(w, st, c');
  }

  /** An object of the newest sequence joins the list; the server has made nothing for it yet. */
  lemma ObjectAdded(w: World, st: State, o: ClientObject)
    requires Inv(w, st) && o.id == 0 && o.seqNo == st.client.seqNo >= 1
    requires forall i :: 0 <= i < |st.client.objects| ==> st.client.objects[i].seqNo < o.seqNo
    requires forall k :: 0 <= k < |st.server.objects| ==> st.server.objects[k].born != o.seqNo
    requires !st.client.truncated ==> Frames(w, st.(client := st.client.(objects := st.client.objects + [o])))
    ensures Inv(w, st.(client := st.client.(objects := st.client.objects + [o])))
  {
    hide Table, FrameOk, PendingOk, Asks;
    var c' := st.client.(objects := st.client.objects + [o]);
    assert Asks(c') == Asks(st.client) by { AsksIgnoresObjects(st.client, c'); }
    BornStays(st, c');
  }

  lemma AsksIgnoresObjects(a: ClientState, b: ClientState)
    requires a.out == b.out && a.pending == b.pending
    ensures Asks(a) == Asks(b)
  {}

  lemma NotBorn(st: State, n: nat)
    requires Born(st) && n != 0 && forall i :: 0 <= i < st.sDone && i < |st.client.out| ==>
          NewSeq(st.client.out[i].msg) != n
    ensures forall k :: 0 <= k < |st.server.objects| ==> st.server.objects[k].born != n
  {}

  // ---- bind -----------------------------------------------------------------------------------

  lemma BoundKeeps(w: World, st: State, p: Protocol, version: nat)
    requires Inv(w, st) && st.client.seqNo < MAX && version <= MAX && version <= p.version
    requires Find(w.cenv.protocols, p.name) == Some(p) && p.objects != []
    ensures Inv(w, st.(client := ClientModel.Bind(w.cenv, st.client, p, version)))
  {
    hide Table, FrameOk, PendingOk, Asks, Born, Replies, Resolved, Kinds, Find, Listeners;
    SeqAllocated(w, st);
    var c1 := st.client.(seqNo := st.client.seqNo + 1);
    var st1 := st.(client := c1);
    var o := ClientObject(0, c1.seqNo, version, p.name, p.objects[0], Listeners(w.cenv, p.name, p.objects[0]));
    NeverAsked(w, st, st1);
    var c2 := c1.(objects := c1.objects + [o]);
    if !st.client.truncated { NewestIsHarmless(w, st, st1, o); }
    ObjectAdded(w, st1, o);
    var st2 := st1.(client := c2);
    var x := Sent(BindProtocol(p.name, Low32(c1.seqNo), Low32(version)), |c1.objects|, 0);
    AsksIgnoresObjects(st.client, c2);
    FreshIsNew(st.client, c1.seqNo);
    assert FrameOk(w, c2, x) by { NewBind(w, c2, x, p, version); }
    MessageSent(w, st2, x);
  }

  lemma BindKeeps(w: World, st: State, p: Protocol, version: nat)
    requires Inv(w, st) && Enabled(w, st, Step.Bind(p, version))
    ensures Inv(w, Apply(w, st, Step.Bind(p, version)))
  {
    hide Inv, Find, Listeners;
    if version > p.version { DisconnectKeeps(w, st); } else { BoundKeeps(w, st, p, version); }
  }

  lemma NewBind(w: World, c: ClientState, x: Sent, p: Protocol, version: nat)
    requires Find(w.cenv.protocols, p.name) == Some(p) && p.objects != [] && version <= MAX && c.seqNo <= MAX
    requires |c.objects| > 0
    requires var o := c.objects[|c.objects| - 1];
             o.seqNo == c.seqNo && o.protocol == p.name && o.version == version && o.spec == p.objects[0]
    requires x == Sent(BindProtocol(p.name, Low32(c.seqNo), Low32(version)), |c.objects| - 1, 0)
    ensures FrameOk(w, c, x)
  {
    hide Find;
  }

  lemma FreshIsNew(c: ClientState, n: nat)
    requires Fresh(c) && n > c.seqNo
    ensures n !in Asks(c)
  {}

  /** A sequence just allocated was never asked for, so the server has made nothing for it. */
  lemma NeverAsked(w: World, st: State, st1: State)
    requires Inv(w, st) && st1 == st.(client := st.client.(seqNo := st.client.seqNo + 1))
    ensures forall k :: 0 <= k < |st1.server.objects| ==> st1.server.objects[k].born != st1.client.seqNo
    ensures forall i :: 0 <= i < |st1.client.objects| ==> st1.client.objects[i].seqNo < st1.client.seqNo
  {
    hide Table, Replies, Resolved, Kinds, FrameOk, PendingOk, NewSeq, Fresh;
    forall i | 0 <= i < |st.client.out| ensures NewSeq(st.client.out[i].msg) != st1.client.seqNo {
      NewSeqBound(st.client, i);
    }
    NotBorn(st, st1.client.seqNo);
  }

  /** Messages sent before a sequence was allocated do not mind the object made for it. */
  lemma NewestIsHarmless(w: World, st: State, st1: State, o: ClientObject)
    requires Sound(w, st) && Frames(w, st) && st1 == st.(client := st.client.(seqNo := st.client.seqNo + 1))
    requires o.id == 0 && o.seqNo == st1.client.seqNo
    ensures Frames(w, st1.(client := st1.client.(objects := st1.client.objects + [o])))
  {
    hide FrameOk, PendingOk, Frames, Table, Born, Replies, Resolved;
    var c' := st1.client.(objects := st1.client.objects + [o]);
    FramesStay(w, st, c');
  }

  lemma DisconnectKeeps(w: World, st: State)
    requires Inv(w, st)
    ensures Inv(w, st.(client := Disconnect(st.client)))
  {
    Incidental(w, st, Disconnect(st.client));
  }

  /** Anything that leaves objects, messages and sequences alone. */
  lemma Incidental(w: World, st: State, c': ClientState)
    requires Inv(w, st) && c'.objects == st.client.objects && c'.out == st.client.out && c'.pending == st.client.pending
    requires c'.seqNo == st.client.seqNo && c'.truncated == st.client.truncated
    ensures Inv(w, st.(client := c'))
  {
    hide Table, FrameOk, PendingOk;
    assert Asks(c') == Asks(st.client);
    if !st.client.truncated { SameObjects(w, st, c'); }
    ClientMoves(w, st, c');
  }

  // ---- call -----------------------------------------------------------------------------------

  lemma CallIsGeneric(w: World, c: ClientState, slot: nat, methodId: nat, args: seq<CallArg>, returnSeq: Option<u32>)
    requires slot < |c.objects| && GoodCall(c.objects[slot], methodId, args) && Callable(c.objects[slot], methodId)
    requires c.objects[slot].id <= MAX
    requires returnSeq.Some? <==> c.objects[slot].spec.c2s[methodId].returnsType != []
    requires returnSeq.Some? ==> 1 <= returnSeq.value && forall i :: 0 <= i < |c.objects| ==>
          c.objects[i].seqNo != returnSeq.value
    ensures var m := CallMessage(c.objects[slot], methodId, returnSeq, args);
            && GenericOk(w, c, slot, m)
            && m.objectId == c.objects[slot].id
            && (returnSeq.Some? ==> NewSeq(m) == returnSeq.value)
            && (returnSeq.None? ==> NewSeq(m) == 0)
  {
    hide CheckFrom, FdTotal, Fits, Known, Wire, AllSends, CallArgs, CallValues, ChildSpec, Pack, NewSeq, ArgsBytes,
          ValidArgs, Short;
    var d := c.objects[slot].spec.c2s[methodId];
    PackWithSeq(d, returnSeq, args);
    ChecksWithSeq(d, returnSeq, args);
    CallNewSeq(d, returnSeq, args, Low32(c.objects[slot].id), Low32(methodId));
    assert MarshalledFrom(d, CallMessage(c.objects[slot], methodId, returnSeq, args), returnSeq, args);
  }

  lemma CallNewSeq(d: Method, returnSeq: Option<u32>, args: seq<CallArg>, id: u32, methodId: u32)
    requires Known(d.params, 0) && Fits(d.params, 0, args)
    ensures NewSeq(Generic(id, methodId, CallArgs(d, returnSeq, args), AllSends(args))) ==
            (match returnSeq case None => 0 case Some(n) => n)
  {
    hide Known, Fits, Wire, AllSends;
    if returnSeq.None? { NoSeqInside(d, args); }
  }

  lemma NoSeqInside(d: Method, args: seq<CallArg>)
    requires Known(d.params, 0) && Fits(d.params, 0, args)
    ensures var a := CallArgs(d, None, args); a != [] && a[0].Word? ==> a[0].kind != SEQ
  {
    hide FitsArray, CString;
    var w := Wire(d.params, 0, args);
    assert [] + w == w;
  }

  lemma CallKeeps(w: World, st: State, slot: nat, methodId: nat, args: seq<CallArg>, no: int)
    requires Inv(w, st) && st.client.seqNo < MAX && slot < |st.client.objects|
          && GoodCall(st.client.objects[slot], methodId, args)
    ensures Inv(w, st.(client := Call(w.cenv, st.client, slot, methodId, args, no)))
  {
    hide Inv, Call, MakeObject, CallMessage, AllShort, Known, Fits, Posted;
    var o := st.client.objects[slot];
    if Callable(o, methodId) {
      CallParts(w.cenv, st.client, slot, methodId, args, no);
      if o.spec.c2s[methodId].returnsType == [] {
        PlainCallKeeps(w, st, slot, methodId, args, no);
      } else {
        CreatingCallKeeps(w, st, slot, methodId, args, no);
      }
    } else {
      Uncallable(w.cenv, st.client, slot, methodId, args, no);
    }
  }

  lemma PlainCallKeeps(w: World, st: State, slot: nat, methodId: nat, args: seq<CallArg>, no: int)
    requires Inv(w, st) && slot < |st.client.objects| && GoodCall(st.client.objects[slot], methodId, args)
    requires Callable(st.client.objects[slot], methodId) && st.client.objects[slot].spec.c2s[methodId].returnsType == []
    ensures var msg := CallMessage(st.client.objects[slot], methodId, None, args);
            Inv(w, st.(client := Posted(st.client, slot, msg, no)))
  {
    hide Inv, Asks, CallMessage, AllShort, Known, Fits, GenericOk, Fresh;
    var o := st.client.objects[slot];
    FreshNow(w, st);
    IdInRange(w, st, slot);
    CallIsGeneric(w, st.client, slot, methodId, args, None);
    MessageMethod(o, methodId, None, args);
    ZeroIsNew(st.client);
    CallSent(w, st, slot, CallMessage(o, methodId, None, args), no);
  }

  lemma FreshNow(w: World, st: State)
    requires Inv(w, st)
    ensures Sound(w, st) && Fresh(st.client)
  {}

  lemma CreatingCallKeeps(w: World, st: State, slot: nat, methodId: nat, args: seq<CallArg>, no: int)
    requires Inv(w, st) && st.client.seqNo < MAX && slot < |st.client.objects|
          && GoodCall(st.client.objects[slot], methodId, args)
    requires Callable(st.client.objects[slot], methodId) && st.client.objects[slot].spec.c2s[methodId].returnsType != []
    ensures var o, c1 := st.client.objects[slot], st.client.(seqNo := st.client.seqNo + 1);
            var msg := CallMessage(o, methodId, Some(Low32(c1.seqNo)), args);
            Inv(w, st.(client := MakeObject(w.cenv, Posted(c1, slot, msg, no),
                                            o.protocol, o.spec.c2s[methodId].returnsType, c1.seqNo)))
  {
    hide Inv, Asks, CallMessage, AllShort, Known, Fits, GenericOk, Fresh, MakeObject;
    var o := st.client.objects[slot];
    FreshNow(w, st);
    IdInRange(w, st, slot);
    SeqAllocated(w, st);
    var c1 := st.client.(seqNo := st.client.seqNo + 1);
    var st1 := st.(client := c1);
    NeverAsked(w, st, st1);
    var msg := CallMessage(o, methodId, Some(Low32(c1.seqNo)), args);
    CallIsGeneric(w, c1, slot, methodId, args, Some(Low32(c1.seqNo)));
    MessageMethod(o, methodId, Some(Low32(c1.seqNo)), args);
    AsksIgnoresObjects(st.client, c1);
    FreshIsNew(st.client, c1.seqNo);
    CallSent(w, st1, slot, msg, no);
    ChildAdded(w, st, st1, Posted(c1, slot, msg, no), slot, msg, o.spec.c2s[methodId], no);
  }

  lemma MessageMethod(o: ClientObject, methodId: nat, returnSeq: Option<u32>, args: seq<CallArg>)
    requires methodId < |o.spec.c2s| && methodId < 0x1_0000_0000
    requires Known(o.spec.c2s[methodId].params, 0) && Fits(o.spec.c2s[methodId].params, 0, args)
    ensures CallMessage(o, methodId, returnSeq, args).Generic?
          && CallMessage(o, methodId, returnSeq, args).methodId == methodId
  {
    hide CallArgs, AllSends;
  }

  lemma ZeroIsNew(c: ClientState)
    requires Fresh(c)
    ensures 0 !in Asks(c)
  {
    NoZeroSent(c.out);
    NoZeroWaits(c.pending);
  }

  lemma {:induction false} NoZeroSent(out: seq<Sent>)
    ensures 0 !in SeqsSent(out)
    decreases |out|
  {
    if out != [] { NoZeroSent(out[..|out| - 1]); }
  }

  lemma {:induction false} NoZeroWaits(pending: seq<Pending>)
    ensures 0 !in SeqsWaiting(pending)
    decreases |pending|
  {
    if pending != [] { NoZeroWaits(pending[1..]); }
  }

  lemma IdInRange(w: World, st: State, slot: nat)
    requires Sound(w, st) && slot < |st.client.objects|
    ensures st.client.objects[slot].id <= MAX
  {
    hide Born, Replies, Fresh, Declared;
  }

  /** The message of a call, deferred or sent. */
  lemma CallSent(w: World, st: State, slot: nat, msg: Msg, no: int)
    requires Inv(w, st) && slot < |st.client.objects|
    requires GenericOk(w, st.client, slot, msg) && msg.objectId == st.client.objects[slot].id
    requires NewSeq(msg) <= st.client.seqNo && NewSeq(msg) !in Asks(st.client)
    ensures var o := st.client.objects[slot];
            Inv(w, st.(client := if o.id == 0 then
                st.client.(pending := st.client.pending + [Pending(o.seqNo, msg, slot, no)])
                                 else Send(st.client, Sent(msg, slot, no))))
  {
    hide Inv, GenericOk, Asks;
    SlotExists(w, st.client, slot, msg);
    var o := st.client.objects[slot];
    if o.id == 0 {
      MessageQueued(w, st, Pending(o.seqNo, msg, slot, no));
    } else {
      MessageSent(w, st, Sent(msg, slot, no));
    }
  }

  /** makeObject behind a call: the child is what the message's method declares. */
  lemma ChildAdded(w: World, st: State, st1: State, c2: ClientState, slot: nat, msg: Msg, d: Method, no: int)
    requires Inv(w, st) && st1 == st.(client := st.client.(seqNo := st.client.seqNo + 1))
    requires slot < |st.client.objects|
    requires var o := st.client.objects[slot];
             && msg.Generic? && msg.methodId < |o.spec.c2s| && d == o.spec.c2s[msg.methodId] && d.returnsType != []
             && GenericOk(w, st1.client, slot, msg) && msg.objectId == o.id && NewSeq(msg) == st1.client.seqNo
             && c2 == (if o.id == 0 then st1.client.(pending := st1.client.pending + [Pending(o.seqNo, msg, slot, no)])
                       else Send(st1.client, Sent(msg, slot, no)))
    requires Inv(w, st.(client := c2))
    ensures Inv(w, st.(client := MakeObject(w.cenv, c2, st.client.objects[slot].protocol, d.returnsType, c2.seqNo)))
  {
    hide Table, Asks, Born, Replies, Resolved, Kinds, FrameOk, PendingOk, Fresh, GenericOk, Find, FindObject, NewSeq;
    var o := st.client.objects[slot];
    var spec := ChildSpec(w, o.protocol, d.returnsType);
    if spec.Some? {
      var child := ClientObject(0, c2.seqNo, 0, o.protocol, spec.value, Listeners(w.cenv, o.protocol, spec.value));
      NeverAsked(w, st, st1);
      var st2 := st.(client := c2);
      var c3 := c2.(objects := c2.objects + [child]);
      if !st.client.truncated { ChildIsHarmless(w, st, st1, c2, c3, slot, msg, d, no); }
      ObjectAdded(w, st2, child);
    }
  }

  lemma ChildIsHarmless(w: World, st: State, st1: State, c2: ClientState, c3: ClientState, slot: nat, msg: Msg,
          d: Method, no: int)
    requires Sound(w, st) && Frames(w, st) && st1 == st.(client := st.client.(seqNo := st.client.seqNo + 1))
    requires slot < |st.client.objects| && c2.objects == st1.client.objects
    requires c3 == c2.(objects := c3.objects) && |c3.objects| == |c2.objects| + 1
          && c3.objects[..|c2.objects|] == c2.objects
    requires var o, child := st.client.objects[slot], c3.objects[|c2.objects|];
             && msg.Generic? && msg.methodId < |o.spec.c2s| && d == o.spec.c2s[msg.methodId] && d.returnsType != []
             && GenericOk(w, st1.client, slot, msg) && msg.objectId == o.id && NewSeq(msg) == st1.client.seqNo
             && child.id == 0 && child.seqNo == st1.client.seqNo && child.protocol == o.protocol && child.version == 0
             && ChildSpec(w, o.protocol, d.returnsType) == Some(child.spec)
             && c2 == (if o.id == 0 then st1.client.(pending := st1.client.pending + [Pending(o.seqNo, msg, slot, no)])
                       else Send(st1.client, Sent(msg, slot, no)))
    ensures Frames(w, st.(client := c3))
  {
    hide FrameOk, PendingOk, Frames, Table, Born, Replies, Resolved, NewSeq, GenericOk, ChildSpec, Fresh;
    var cOld := c3.(out := st.client.out, pending := st.client.pending);
    assert Extends(st.client, cOld) by {
      forall i | 0 <= i < |st.client.objects| ensures cOld.objects[i] == st.client.objects[i] {
        assert cOld.objects[i] == c3.objects[..|c2.objects|][i];
      }
    }
    FramesStay(w, st, cOld);
    NewCallOk(w, st.client, st1.client, c3, slot, msg, d);
    FramesAppended(w, st, cOld, c3, slot, msg, no);
  }

  lemma NewCallOk(w: World, c: ClientState, c1: ClientState, c3: ClientState, slot: nat, msg: Msg, d: Method)
    requires slot < |c.objects| && c1.objects == c.objects && ClientSeqs(c) && c1.seqNo == c.seqNo + 1
    requires |c3.objects| == |c.objects| + 1 && c3.objects[..|c.objects|] == c.objects
    requires var o, child := c.objects[slot], c3.objects[|c.objects|];
             && GenericOk(w, c1, slot, msg) && NewSeq(msg) == c1.seqNo
             && msg.methodId < |o.spec.c2s| && d == o.spec.c2s[msg.methodId]
             && child.seqNo == c1.seqNo && child.protocol == o.protocol && child.version == 0
             && ChildSpec(w, o.protocol, d.returnsType) == Some(child.spec)
    ensures GenericOk(w, c3, slot, msg) && c3.objects[slot] == c.objects[slot]
  {
    hide FdTotal, CheckFrom, Params, ChildSpec, Marshalled;
    assert c3.objects[slot] == c3.objects[..|c.objects|][slot];
    forall i | 0 <= i < |c.objects| ensures c3.objects[i] == c.objects[i] {
      assert c3.objects[i] == c3.objects[..|c.objects|][i];
    }
  }

  lemma FramesAppended(w: World, st: State, cOld: ClientState, c3: ClientState, slot: nat, msg: Msg, no: int)
    requires Frames(w, st.(client := cOld)) && slot < |c3.objects|
    requires GenericOk(w, c3, slot, msg) && msg.objectId == c3.objects[slot].id
    requires cOld.objects == c3.objects
    requires var o := c3.objects[slot];
             if o.id == 0 then c3.out == cOld.out && c3.pending == cOld.pending + [Pending(o.seqNo, msg, slot, no)]
             else c3.pending == cOld.pending && (c3.out == cOld.out || c3.out == cOld.out + [Sent(msg, slot, no)])
    ensures Frames(w, st.(client := c3))
  {
    hide GenericOk;
    SlotExists(w, c3, slot, msg);
    forall i | st.sDone <= i < |c3.out| ensures FrameOk(w, c3, c3.out[i]) {
      if i < |cOld.out| { assert c3.out[i] == cOld.out[i]; SameFrame(w, cOld, c3, c3.out[i]); }
    }
    forall i | 0 <= i < |c3.pending| ensures PendingOk(w, c3, c3.pending[i]) {
      if i < |cOld.pending| { assert c3.pending[i] == cOld.pending[i]; SamePending(w, cOld, c3, c3.pending[i]); }
    }
  }

  // ---- the flush ------------------------------------------------------------------------------

  /** What is released and what is kept together ask for nothing that was not waiting. */
  lemma {:induction false} FlushAsks(objects: seq<ClientObject>, pending: seq<Pending>)
    requires forall p :: p in pending ==> p.msg.Generic?
    ensures SeqsSent(Released(objects, pending)) + SeqsWaiting(Kept(objects, pending)) <= SeqsWaiting(pending)
    decreases |pending|
  {
    hide FateOf, One, NewSeq, SeqsSent;
    if pending == [] {
      NothingSent();
    } else {
      var p, rest := pending[0], pending[1..];
      FlushAsks(objects, rest);
      match FateOf(objects, p) {
        case Release(id) =>
          var x := Sent(Resolve(p.msg, id), p.slot, p.no);
          ResolveKeepsSeq(p.msg, id);
          SeqsSentAll([x], Released(objects, rest));
          NothingSent();
          SeqsSentOne([], x);
          assert [] + [x] == [x];
        case Keep =>
          assert ([p] + Kept(objects, rest))[1..] == Kept(objects, rest);
        case Drop =>
          assert [] + Kept(objects, rest) == Kept(objects, rest);
      }
    }
  }

  lemma ResolveKeepsSeq(m: Msg, id: nat)
    requires m.Generic?
    ensures NewSeq(Resolve(m, id)) == NewSeq(m) && Resolve(m, id).Generic?
  {}

  lemma FlushFresh(c: ClientState)
    requires Fresh(c) && forall p :: p in c.pending ==> p.msg.Generic?
    ensures Fresh(ClientModel.Flush(c))
  {
    hide Kept, Released, SeqsSent, SeqsWaiting, AnyWide;
    FlushAsks(c.objects, c.pending);
    SeqsSentAll(c.out, Released(c.objects, c.pending));
    var c' := ClientModel.Flush(c);
    assert Asks(c') <= Asks(c);
    forall n | n in Asks(c') ensures Asks(c')[n] == 1 && n <= c'.seqNo {
      assert Asks(c')[n] <= Asks(c)[n];
    }
  }

  lemma MarshalledIgnoresId(d: Method, m: Msg, m': Msg)
    requires m.Generic? && m'.Generic? && m'.args == m.args && m'.fds == m.fds && Marshalled(d, m)
    ensures Marshalled(d, m')
  {
    hide Known, Fits, AllShort, CallArgs, AllSends;
    var returnSeq: Option<u32>, args: seq<CallArg> :| MarshalledFrom(d, m, returnSeq, args);
    assert MarshalledFrom(d, m', returnSeq, args);
  }

  /** A waiting message that is released to an id below 256 names its object. */
  lemma ReleasedOk(w: World, c: ClientState, p: Pending)
    requires ClientSeqs(c) && PendingOk(w, c, p) && FateOf(c.objects, p).Release? && FateOf(c.objects, p).id < 256
    ensures p.msg.Generic? && FrameOk(w, c, Sent(Resolve(p.msg, FateOf(c.objects, p).id), p.slot, p.no))
  {
    hide FdTotal, CheckFrom, Params, ChildSpec, Marshalled;
    var i := IndexOfSeq(c.objects, p.dependsOn);
    assert i == p.slot;
    ResolveKeepsSeq(p.msg, FateOf(c.objects, p).id);
    MarshalledIgnoresId(c.objects[p.slot].spec.c2s[p.msg.methodId], p.msg, Resolve(p.msg, FateOf(c.objects, p).id));
  }

  lemma {:induction false} ReleasedAllOk(w: World, c: ClientState, pending: seq<Pending>)
    requires ClientSeqs(c) && (forall p :: p in pending ==> PendingOk(w, c, p)) && !AnyWide(c.objects, pending)
    ensures forall x :: x in Released(c.objects, pending) ==> FrameOk(w, c, x)
    decreases |pending|
  {
    hide PendingOk, FrameOk, FateOf, ClientSeqs, Resolve;
    if pending != [] {
      var p := pending[0];
      ReleasedAllOk(w, c, pending[1..]);
      if FateOf(c.objects, p).Release? { ReleasedOk(w, c, p); }
    }
  }

  lemma {:induction false} WideOne(objects: seq<ClientObject>, pending: seq<Pending>) returns (i: nat)
    requires AnyWide(objects, pending)
    ensures i < |objects| && objects[i].id >= 256
    decreases |pending|
  {
    if FateOf(objects, pending[0]).Release? && FateOf(objects, pending[0]).id >= 256 {
      i := IndexOfSeq(objects, pending[0].dependsOn);
    } else {
      i := WideOne(objects, pending[1..]);
    }
  }

  /** An id of 256 or more takes as many objects. */
  lemma WideNeedsMany(w: World, st: State)
    requires Sound(w, st)
    ensures AnyWide(st.client.objects, st.client.pending) ==> st.server.maxId > 256
  {
    hide Born, Replies, Fresh, ClientSeqs, AnyWide, Declared;
    if AnyWide(st.client.objects, st.client.pending) {
      var i := WideOne(st.client.objects, st.client.pending);
      assert Names(w, st.server, st.client.objects[i].id, st.client.objects[i].seqNo);
    }
  }

  lemma FlushKeeps(w: World, st: State)
    requires Inv(w, st) && forall p :: p in st.client.pending ==> p.msg.Generic?
    ensures Inv(w, st.(client := ClientModel.Flush(st.client)))
  {
    hide Table, FrameOk, PendingOk, Fresh, Kept, Released, AnyWide, Born, Replies, Resolved, Kinds, ClientSeqs;
    var c, c' := st.client, ClientModel.Flush(st.client);
    FlushFresh(c);
    WideNeedsMany(w, st);
    assert ClientSeqs(c') by { SameSeqs(c, c'); }
    if !c'.truncated {
      ReleasedAllOk(w, c, c.pending);
      RoundtripSafety.KeptIsPending(c.objects, c.pending);
      forall i | st.sDone <= i < |c'.out| ensures FrameOk(w, c', c'.out[i]) {
        if i >= |c.out| { assert c'.out[i] in Released(c.objects, c.pending); }
        SameFrame(w, c, c', c'.out[i]);
      }
      forall i | 0 <= i < |c'.pending| ensures PendingOk(w, c', c'.pending[i]) {
        assert c'.pending[i] in c.pending;
        SamePending(w, c, c', c'.pending[i]);
      }
    }
    ClientMoves(w, st, c');
  }

  lemma SameSeqs(c: ClientState, c': ClientState)
    requires ClientSeqs(c) && c'.objects == c.objects && c'.seqNo == c.seqNo
    ensures ClientSeqs(c')
  {}

  // ---- messages the client receives -----------------------------------------------------------

  lemma OnSeqKeeps(w: World, st: State, seqNo: nat, id: nat)
    requires Inv(w, st) && Names(w, st.server, id, seqNo)
    ensures Inv(w, st.(client := OnSeq(st.client, seqNo, id)))
  {
    hide Table, FrameOk, PendingOk, Fresh, Asks, Replies, Born, Kinds, ClientSeqs;
    var c, c' := st.client, OnSeq(st.client, seqNo, id);
    var i := IndexOfSeq(c.objects, seqNo);
    if i < |c.objects| {
      SameId(w, st, i, id);
      assert Extends(c, c');
      if !c.truncated { FramesStay(w, st, c'); KindsIgnoreIds(w, st, c'); }
      OnlyIds(w, st, c');
    }
  }

  /** An object that has an id has the one the server gave the object it made for its sequence. */
  lemma SameId(w: World, st: State, i: nat, id: nat)
    requires Born(st) && Resolved(w, st) && ClientSeqs(st.client) && i < |st.client.objects|
    requires Names(w, st.server, id, st.client.objects[i].seqNo)
    ensures st.client.objects[i].id != 0 ==> st.client.objects[i].id == id
  {
    hide Declared;
    if st.client.objects[i].id != 0 { NamesOne(w, st, st.client.objects[i].id, id, st.client.objects[i].seqNo); }
  }

  lemma NamesOne(w: World, st: State, a: nat, b: nat, seqNo: nat)
    requires Born(st) && seqNo != 0 && Names(w, st.server, a, seqNo) && Names(w, st.server, b, seqNo)
    ensures a == b
  {
    hide Declared;
  }

  lemma KindsIgnoreIds(w: World, st: State, c': ClientState)
    requires Kinds(w, st) && Extends(st.client, c') && |c'.objects| == |st.client.objects|
    ensures Kinds(w, st.(client := c'))
  {}

  lemma OnlyIds(w: World, st: State, c': ClientState)
    requires Inv(w, st) && Extends(st.client, c') && |c'.objects| == |st.client.objects|
    requires c' == st.client.(objects := c'.objects) && Resolved(w, st.(client := c'))
    requires !st.client.truncated ==> Kinds(w, st.(client := c')) && Frames(w, st.(client := c'))
    ensures Inv(w, st.(client := c'))
  {
    hide Table, Frames, Kinds, Resolved, Asks;
    AsksIgnoresObjects(st.client, c');
    BornStays(st, c');
  }

  lemma TakeKeeps(w: World, st: State)
    requires Inv(w, st) && Enabled(w, st, ClientTake)
    ensures Inv(w, Apply(w, st, ClientTake))
  {
    hide Inv, ParseSpecs, IndexOfObject, CallOf, FdTotal, Names, Room, OnSeq;
    var m := st.server.out[st.cDone];
    var (ok, c) := Receive(st.client, m);
    var st1 := st.(client := c);
    match m {
      case HandshakeBegin(versions) =>
        if PROTOCOL_VERSION in versions { Greeting(w, st); }
      case HandshakeProtocols(names) => Incidental(w, st, c);
      case NewObject(id, seqNo) =>
        assert Names(w, st.server, id, seqNo) by { ReplyNames(w, st, st.cDone); }
        OnSeqKeeps(w, st, seqNo, id);
      case Generic(_, _, _, _) => Incidental(w, st, c);
      case FatalError(_, _, _) => Incidental(w, st, c);
      case RoundtripDone(_) => Incidental(w, st, c);
    }
    if !ok { DisconnectKeeps(w, st1); }
    Bookkeeping(w, Apply(w, st, ClientTake), if ok then st1 else st1.(client := Disconnect(c)));
  }

  lemma ReplyNames(w: World, st: State, j: nat)
    requires Inv(w, st) && j < |st.server.out| && st.server.out[j].NewObject?
    ensures Names(w, st.server, st.server.out[j].id, st.server.out[j].seqNo)
  {}

  lemma Greeting(w: World, st: State)
    requires Inv(w, st)
    ensures Inv(w, st.(client := Send(st.client, Sent(HandshakeAck(PROTOCOL_VERSION), 0, 0))))
  {
    hide Table, Asks, Born, Replies, Resolved, Kinds, Frames, ClientSeqs;
    ZeroIsNew(st.client);
    MessageSent(w, st, Sent(HandshakeAck(PROTOCOL_VERSION), 0, 0));
  }

  /** Counts of what was read, and who is busy, do not enter the invariant. */
  lemma Bookkeeping(w: World, st: State, st0: State)
    requires Inv(w, st0) && st.client == st0.client && st.server == st0.server && st.sDone == st0.sDone
    ensures Inv(w, st)
  {
    hide Table, ClientSeqs, Fresh, FrameOk, PendingOk, Names, SameKind, NewSeq;
  }

  // ---- messages the server receives -----------------------------------------------------------

  /** The server has sent messages that announce no object, or raised an error. */
  lemma ServerTalks(w: World, st: State, s': ServerState, done: nat)
    requires Inv(w, st) && st.server.out <= s'.out && s'.objects == st.server.objects && s'.maxId == st.server.maxId
    requires st.server.error ==> s'.error
    requires forall j :: |st.server.out| <= j < |s'.out| ==> !s'.out[j].NewObject?
    requires st.sDone <= done <= |st.client.out|
    ensures Inv(w, WithServer(st, s', 0).(sDone := done))
  {
    hide Declared, ClientSeqs, Fresh, FrameOk, PendingOk, SameKind, NewSeq;
    var st' := WithServer(st, s', 0).(sDone := done);
    forall j | 0 <= j < |s'.out| && s'.out[j].NewObject? ensures Names(w, s', s'.out[j].id, s'.out[j].seqNo) {
      assert s'.out[j] == st.server.out[j];
    }
    BornLater(st, st');
  }

  lemma BornLater(st: State, st': State)
    requires Born(st) && st'.client == st.client && st'.server.objects == st.server.objects && st.sDone <= st'.sDone
    ensures Born(st')
  {
    forall k | 0 <= k < |st.server.objects| && st.server.objects[k].born != 0
      ensures exists i :: 0 <= i < st'.sDone && i < |st'.client.out| && NewSeq(st'.client.out[i].msg) == st'.server.objects[k].born
    {
      var i :| 0 <= i < st.sDone && i < |st.client.out| && NewSeq(st.client.out[i].msg) == st.server.objects[k].born;
    }
  }

  /** What the client knows of the object the server makes for the message it handles. */
  ghost predicate Fitting(w: World, st: State, protocol: Name, name: Name, version: nat, n: nat) {
    Creatable(w.senv, protocol, name, version) ==>
      forall i :: 0 <= i < |st.client.objects| && st.client.objects[i].seqNo == n ==>
        var o := st.client.objects[i];
        o.protocol == protocol && Some(o.spec) == SpecFor(Find(w.senv.protocols, protocol).value, name)
            && o.version <= version
  }

  /** createObject for the message at hand. `calls` may have grown before it. */
  lemma CreationKeeps(w: World, st: State, s: ServerState, protocol: Name, name: Name, version: nat)
    requires Inv(w, st) && st.sDone < |st.client.out| && st.server.maxId < MAX && version >= 1 && !st.server.error
    requires s == st.server.(calls := s.calls)
    requires !st.client.truncated ==> Fitting(w, st, protocol, name, version, NewSeq(st.client.out[st.sDone].msg))
    ensures var s' := CreateObject(w.senv, s, protocol, name, version, NewSeq(st.client.out[st.sDone].msg));
            st.server.out <= s'.out && Inv(w, WithServer(st, s', 0).(sDone := st.sDone + 1))
  {
    hide ClientSeqs, Fresh, FrameOk, PendingOk, Born, Replies, Resolved, Kinds, Declared, NewSeq;
    var n := NewSeq(st.client.out[st.sDone].msg);
    NewSeqBound(st.client, st.sDone);
    assert n <= MAX by { SeqLimit(st.client); }
    var s' := CreateObject(w.senv, s, protocol, name, version, n);
    CreateKeepsTable(w.senv, s, protocol, name, version, n);
    CreationShape(w.senv, s, protocol, name, version, n);
    var st' := st.(server := s', sDone := st.sDone + 1);
    BornAt(st, s', n);
    RepliesAt(w, st, s', n);
    ResolvedAt(w, st, s');
    if !st.client.truncated { KindsAt(w, st, s', protocol, name, version, n); }
    FramesLater(w, st, st');
    assert Inv(w, st');
    Bookkeeping(w, WithServer(st, s', 0).(sDone := st.sDone + 1), st');
  }

  lemma SeqLimit(c: ClientState)
    requires ClientSeqs(c)
    ensures c.seqNo <= MAX
  {}

  lemma FramesLater(w: World, st: State, st': State)
    requires st'.client == st.client && st.sDone <= st'.sDone
    ensures Frames(w, st) ==> Frames(w, st')
  {
    hide FrameOk, PendingOk;
  }

  lemma CreationShape(env: ServerEnv, s: ServerState, protocol: Name, name: Name, version: nat, n: nat)
    ensures var s' := CreateObject(env, s, protocol, name, version, n);
            && s'.maxId == s.maxId + 1 && s'.objects == s.objects + [Made(env, s, protocol, name, version, n)]
            && s'.objects[|s.objects|].born == n
            && (version >= 1 ==> (Declared(env, s'.objects[|s.objects|]) <==> Creatable(env, protocol, name, version)))
            && (Creatable(env, protocol, name, version) ==>
                  && s'.out == s.out + [NewObject(Low32(s.maxId), Low32(n))]
                  && s'.objects[|s.objects|].protocol == protocol && s'.objects[|s.objects|].version == version
                  && s'.objects[|s.objects|].spec == SpecFor(Find(env.protocols, protocol).value, name)
                  && s'.objects[|s.objects|].spec.Some?)
            && (!Creatable(env, protocol, name, version) ==> s'.out == s.out && s'.error)
  {
    hide Find, ListenersFor;
  }

  lemma NotAgain(c: ClientState, i: nat, j: nat)
    requires Fresh(c) && i < j < |c.out| && NewSeq(c.out[i].msg) != 0
    ensures NewSeq(c.out[i].msg) != NewSeq(c.out[j].msg)
  {
    hide NewSeq, SeqsWaiting, SeqsSent;
    SentOnce(c.out, i);
    var n := NewSeq(c.out[i].msg);
    assert Asks(c)[n] == 1;
    if SeqsSent(c.out)[n] < 2 && n == NewSeq(c.out[j].msg) { SentTwice(c.out, i, j); }
  }

  lemma BornAt(st: State, s': ServerState, n: nat)
    requires Born(st) && Fresh(st.client) && st.sDone < |st.client.out| && NewSeq(st.client.out[st.sDone].msg) == n
    requires |s'.objects| == |st.server.objects| + 1 && s'.objects[..|st.server.objects|] == st.server.objects
    requires s'.objects[|st.server.objects|].born == n
    ensures Born(st.(server := s', sDone := st.sDone + 1))
  {
    hide NewSeq;
    forall k | 0 <= k < |st.server.objects| ensures s'.objects[k] == st.server.objects[k] {
      assert s'.objects[k] == s'.objects[..|st.server.objects|][k];
    }
    forall k | 0 <= k < |s'.objects| && s'.objects[k].born != 0
      ensures exists i :: 0 <= i < st.sDone + 1 && i < |st.client.out| && NewSeq(st.client.out[i].msg) == s'.objects[k].born
    {
      if k == |st.server.objects| { assert NewSeq(st.client.out[st.sDone].msg) == s'.objects[k].born; }
    }
    forall k | 0 <= k < |st.server.objects| && st.server.objects[k].born != 0 ensures st.server.objects[k].born != n {
      var i :| 0 <= i < st.sDone && i < |st.client.out| && NewSeq(st.client.out[i].msg) == st.server.objects[k].born;
      NotAgain(st.client, i, st.sDone);
    }
  }

  lemma RepliesAt(w: World, st: State, s': ServerState, n: nat)
    requires Replies(w, st) && Table(w.senv, st.server) && st.server.maxId < MAX
    requires |s'.objects| == |st.server.objects| + 1 && s'.objects[..|st.server.objects|] == st.server.objects
    requires s'.objects[|st.server.objects|].born == n <= MAX
    requires s'.out == st.server.out
             || (s'.out == st.server.out + [NewObject(Low32(st.server.maxId), Low32(n))]
                 && Declared(w.senv, s'.objects[|st.server.objects|]))
    ensures Replies(w, st.(server := s', sDone := st.sDone + 1))
  {
    hide Declared;
    forall k | 0 <= k < |st.server.objects| ensures s'.objects[k] == st.server.objects[k] {
      assert s'.objects[k] == s'.objects[..|st.server.objects|][k];
    }
    forall j | 0 <= j < |s'.out| && s'.out[j].NewObject? ensures Names(w, s', s'.out[j].id, s'.out[j].seqNo) {
      if j < |st.server.out| {
        assert s'.out[j] == st.server.out[j];
        assert Names(w, st.server, s'.out[j].id, s'.out[j].seqNo);
      }
    }
  }

  lemma ResolvedAt(w: World, st: State, s': ServerState)
    requires Resolved(w, st)
    requires |s'.objects| == |st.server.objects| + 1 && s'.objects[..|st.server.objects|] == st.server.objects
    ensures Resolved(w, st.(server := s', sDone := st.sDone + 1))
  {
    forall k | 0 <= k < |st.server.objects| ensures s'.objects[k] == st.server.objects[k] {
      assert s'.objects[k] == s'.objects[..|st.server.objects|][k];
    }
  }

  lemma KindsAt(w: World, st: State, s': ServerState, protocol: Name, name: Name, version: nat, n: nat)
    requires Kinds(w, st) && Fitting(w, st, protocol, name, version, n)
    requires |s'.objects| == |st.server.objects| + 1 && s'.objects[..|st.server.objects|] == st.server.objects
    requires var o := s'.objects[|st.server.objects|];
             && o.born == n
             && (Creatable(w.senv, protocol, name, version) ==>
                   o.protocol == protocol && o.version == version
                       && o.spec == SpecFor(Find(w.senv.protocols, protocol).value, name))
             && (Declared(w.senv, o) <==> Creatable(w.senv, protocol, name, version))
    ensures Kinds(w, st.(server := s', sDone := st.sDone + 1))
  {
    hide SpecFor, Find, Creatable, Declared;
    forall k | 0 <= k < |st.server.objects| ensures s'.objects[k] == st.server.objects[k] {
      assert s'.objects[k] == s'.objects[..|st.server.objects|][k];
    }
  }

  // ---- a generic message reaches the object it was meant for ----------------------------------

  lemma IndexIsIdMinusOne(s: ServerState, id: nat)
    requires Numbered(s) && 1 <= id <= |s.objects|
    ensures IndexOfId(s.objects, id) == id - 1
  {
    var i := IndexOfId(s.objects, id);
    assert s.objects[id - 1].id == id;
  }

  /** The object an honest frame is addressed to, as both parties see it. */
  lemma Addressee(w: World, st: State)
    requires Inv(w, st) && !st.client.truncated && st.sDone < |st.client.out| && st.client.out[st.sDone].msg.Generic?
    ensures var x := st.client.out[st.sDone]; var id := x.msg.objectId;
            && GenericOk(w, st.client, x.slot, x.msg)
            && x.slot < |st.client.objects| && 1 <= id <= |st.server.objects|
            && IndexOfId(st.server.objects, id) == id - 1
            && Declared(w.senv, st.server.objects[id - 1])
            && SameKind(st.client.objects[x.slot], st.server.objects[id - 1])
  {
    hide GenericOk, PendingOk, Declared, BindOk, ClientSeqs, Fresh, SameKind, IndexOfId;
    var x := st.client.out[st.sDone];
    assert FrameOk(w, st.client, x);
    SlotExists(w, st.client, x.slot, x.msg);
    IndexIsIdMinusOne(st.server, x.msg.objectId);
    assert Names(w, st.server, st.client.objects[x.slot].id, st.client.objects[x.slot].seqNo);
  }

  lemma SameSpec(w: World, protocol: Name, name: Name)
    requires WellFormed(w) && name != [] && ChildSpec(w, protocol, name).Some?
    requires Find(w.senv.protocols, protocol).Some?
    ensures SpecFor(Find(w.senv.protocols, protocol).value, name) == ChildSpec(w, protocol, name)
  {}

  /** The object the next frame's method would create fits what the client expects. */
  ghost predicate ChildFit(w: World, st: State, version: nat)
    requires st.sDone < |st.client.out| && st.client.out[st.sDone].msg.Generic?
  {
    var x := st.client.out[st.sDone];
    var id := x.msg.objectId;
    && 1 <= id <= |st.server.objects| && IndexOfId(st.server.objects, id) == id - 1
    && var o := st.server.objects[id - 1];
    && o.spec.Some? && x.msg.methodId < |o.spec.value.c2s|
    && var name := o.spec.value.c2s[x.msg.methodId].returnsType;
    (name != [] ==> Fitting(w, st, o.protocol, name, version, NewSeq(x.msg)))
  }

  lemma ChildFits(w: World, st: State, version: nat)
    requires Inv(w, st) && WellFormed(w) && !st.client.truncated
    requires st.sDone < |st.client.out| && st.client.out[st.sDone].msg.Generic?
    ensures ChildFit(w, st, version)
  {
    hide CheckFrom, Params, FdTotal, ChildSpec, Marshalled, Find, WellFormed, SpecFor, NewSeq, Inv, IndexOfId,
          FindObject, Declared;
    Addressee(w, st);
    var x := st.client.out[st.sDone];
    var o := st.server.objects[x.msg.objectId - 1];
    var name := o.spec.value.c2s[x.msg.methodId].returnsType;
    if name != [] && Creatable(w.senv, o.protocol, name, version) {
      forall i | 0 <= i < |st.client.objects| && st.client.objects[i].seqNo == NewSeq(x.msg)
        ensures var c := st.client.objects[i];
                c.protocol == o.protocol && Some(c.spec) == SpecFor(Find(w.senv.protocols, o.protocol).value, name)
                    && c.version <= version
      {
        assert ChildSpec(w, o.protocol, name) == Some(st.client.objects[i].spec);
        SameSpec(w, o.protocol, name);
      }
    }
  }

  lemma BoundFits(w: World, st: State)
    requires Inv(w, st) && WellFormed(w) && !st.client.truncated
    requires st.sDone < |st.client.out| && st.client.out[st.sDone].msg.BindProtocol?
    ensures var m := st.client.out[st.sDone].msg; Fitting(w, st, m.protocol, [], m.version, NewSeq(m))
  {
    hide GenericOk, PendingOk, Declared, Fresh, Find;
    var x := st.client.out[st.sDone];
    assert FrameOk(w, st.client, x);
    SlotOfBind(w, st.client, x);
    if Creatable(w.senv, x.msg.protocol, [], x.msg.version) { SameFirst(w, x.msg.protocol); }
  }

  lemma SlotOfBind(w: World, c: ClientState, x: Sent)
    requires ClientSeqs(c) && BindOk(w, c, x.slot, x.msg)
    ensures forall i :: 0 <= i < |c.objects| && c.objects[i].seqNo == NewSeq(x.msg) ==> i == x.slot
  {
    hide Find;
  }

  lemma SameFirst(w: World, protocol: Name)
    requires WellFormed(w) && Find(w.cenv.protocols, protocol).Some? && Find(w.senv.protocols, protocol).Some?
    ensures Find(w.cenv.protocols, protocol).value.objects == Find(w.senv.protocols, protocol).value.objects
  {}

  lemma ServerTakeKeeps(w: World, st: State)
    requires Inv(w, st) && WellFormed(w) && Enabled(w, st, ServerTake)
    ensures Inv(w, Apply(w, st, ServerTake))
  {
    hide Inv, OnGeneric, CreateObject, SpecStrings, Find, WellFormed;
    var m := st.client.out[st.sDone].msg;
    HandleSends(w.senv, st.server, m);
    var end := Apply(w, st, ServerTake);
    if Malformed(m) {
      ServerTalks(w, st, Reject(st.server), st.sDone);
      Bookkeeping(w, end, WithServer(st, Reject(st.server), 0).(sDone := st.sDone));
    } else {
      var s' := Handle(w.senv, st.server, m);
      if m.BindProtocol? {
        if !st.client.truncated { BoundFits(w, st); }
        CreationKeeps(w, st, st.server, m.protocol, [], m.version);
      } else if m.Generic? {
        GenericKeeps(w, st);
      } else {
        ServerTalks(w, st, s', st.sDone + 1);
      }
      Bookkeeping(w, end, WithServer(st, s', 0).(sDone := st.sDone + 1));
    }
  }

  lemma TableOf(w: World, st: State)
    requires Inv(w, st)
    ensures Table(w.senv, st.server)
  {}

  lemma GenericKeeps(w: World, st: State)
    requires Inv(w, st) && WellFormed(w) && !st.server.error && st.server.maxId < MAX
    requires st.sDone < |st.client.out| && st.client.out[st.sDone].msg.Generic?
    ensures var s' := OnGeneric(w.senv, st.server, st.client.out[st.sDone].msg);
            st.server.out <= s'.out && Inv(w, WithServer(st, s', 0).(sDone := st.sDone + 1))
  {
    hide Inv, CreateObject, CallOf, FdTotal, NewSeq, WellFormed, Find, ListenersFor, IndexOfId, Fitting;
    TableOf(w, st);
    var m := st.client.out[st.sDone].msg;
    var i := IndexOfId(st.server.objects, m.objectId);
    var s' := OnGeneric(w.senv, st.server, m);
    if i == |st.server.objects| || st.server.objects[i].spec.None? || FdTotal(m.args) > |m.fds| {
      ServerTalks(w, st, s', st.sDone + 1);
    } else {
      var o := st.server.objects[i];
      var r := CallOf(o.spec.value.c2s, o.listeners, o.version, m.methodId, m.args, m.fds);
      if r.Delivered? {
        DeliveredMethod(o.spec.value.c2s, o.listeners, o.version, m.methodId, m.args, m.fds);
        var s1 := st.server.(calls := st.server.calls + [ListenerCall(o.id, m.methodId, r.values)]);
        var name := o.spec.value.c2s[m.methodId].returnsType;
        if name == [] {
          ServerTalks(w, st, s1, st.sDone + 1);
        } else {
          if !st.client.truncated { ChildFits(w, st, o.version); }
          CreationKeeps(w, st, s1, o.protocol, name, o.version);
        }
      } else {
        ServerTalks(w, st, s', st.sDone + 1);
      }
    }
  }

  // ---- all runs ---------------------------------------------------------------------------------

  lemma ServerSpeaksKeeps(w: World, st: State, step: Step)
    requires Inv(w, st) && Enabled(w, st, step) && (step.ServerSend? || step.ServerComplain? || step.ServerFinish?)
    ensures Inv(w, Apply(w, st, step))
  {
    hide Inv, LeftoverFds;
    SomeDone(w, st);
    var s' := match step
      case ServerSend(msg) => Sending(st.server, msg)
      case ServerComplain(k) => Complain(st.server, st.server.objects[k])
      case _ => FinishServer(st);
    ServerTalks(w, st, s', st.sDone);
    Bookkeeping(w, Apply(w, st, step), WithServer(st, s', 0).(sDone := st.sDone));
  }

  lemma SomeDone(w: World, st: State)
    requires Inv(w, st)
    ensures st.sDone <= |st.client.out|
  {}

  lemma StepKeeps(w: World, st: State, step: Step)
    requires WellFormed(w) && Inv(w, st) && RoundtripSafety.Inv(st) && Enabled(w, st, step)
    ensures Inv(w, Apply(w, st, step))
  {
    hide Inv, WellFormed, RoundtripSafety.Requests, RoundtripSafety.Positions, RoundtripSafety.Answers;
    hide Receive, Call, ClientModel.Flush, ClientModel.Bind, Handle, FinishServer, GoodCall, Reject, Find;
    match step {
      case Bind(p, version) => BindKeeps(w, st, p, version);
      case CallOutside(slot, methodId, args) =>
        var c := st.client.(callNo := st.client.callNo + 1);
        Incidental(w, st, c);
        CallKeeps(w, st.(client := c), slot, methodId, args, c.callNo);
      case AskRoundtrip => AskKeeps(w, st);
      case ClientReceive(_) => Bookkeeping(w, Apply(w, st, step), st);
      case ClientTake => TakeKeeps(w, st);
      case CallInListener(slot, methodId, args) =>
        var c := st.client.(callNo := st.client.callNo + 1);
        Incidental(w, st, c);
        CallKeeps(w, st.(client := c), slot, methodId, args, Inside(c.callNo));
      case ClientFinish =>
        FlushKeeps(w, st);
        Bookkeeping(w, Apply(w, st, step), st.(client := ClientModel.Flush(st.client)));
      case ClientDrop => DisconnectKeeps(w, st);
      case ServerReceive(_) => Bookkeeping(w, Apply(w, st, step), st);
      case ServerTake => ServerTakeKeeps(w, st);
      case _ => ServerSpeaksKeeps(w, st, step);
    }
  }

  lemma AskKeeps(w: World, st: State)
    requires Inv(w, st)
    ensures Inv(w, st.(client := Roundtrip(st.client)))
  {
    hide Table, Asks, Born, Replies, Resolved, Kinds, Frames, ClientSeqs;
    if !st.client.error {
      var c := st.client.(lastSent := st.client.lastSent + 1);
      Incidental(w, st, c);
      ZeroIsNew(c);
      MessageSent(w, st.(client := c), Sent(RoundtripRequest(Low32(c.lastSent)), 0, 0));
    }
  }

  lemma {:induction false} RunKeeps(w: World, st: State, steps: seq<Step>, end: State)
    requires WellFormed(w) && Inv(w, st) && RoundtripSafety.Inv(st) && Runs(w, st, steps, end)
    ensures Inv(w, end)
    decreases |steps|
  {
    hide Inv, RoundtripSafety.Inv, Apply, Enabled, WellFormed;
    if steps != [] {
      StepKeeps(w, st, steps[0]);
      RoundtripSafety.StepKeeps(w, st, steps[0]);
      RunKeeps(w, Apply(w, st, steps[0]), steps[1..], end);
    }
  }

  lemma InitInv(w: World)
    ensures Inv(w, Init)
  {
    assert SeqsSent(NewClient.out) == multiset{} by {
      assert NewClient.out[..0] == [];
      assert SeqsSent(NewClient.out[..0]) == multiset{};
    }
    assert SeqsWaiting(NewClient.pending) == multiset{};
  }

  /**
    Object tables agree in every reachable state. No two client objects share an id. The id of a client
    object is the number of a server object created for the very sequence the client chose. As long as
    no deferred message was resolved to an id of 256 or more, that object has the same protocol and the
    same object spec.
   */
  lemma TablesAgree(w: World, steps: seq<Step>, st: State)
    requires WellFormed(w) && Runs(w, Init, steps, st)
    ensures forall i, j :: 0 <= i < j < |st.client.objects| && st.client.objects[i].id != 0 ==>
              st.client.objects[i].id != st.client.objects[j].id
    ensures forall i :: 0 <= i < |st.client.objects| && st.client.objects[i].id != 0 ==>
              var o := st.client.objects[i];
              && o.id <= |st.server.objects|
              && var so := st.server.objects[o.id - 1];
              && so.id == o.id && so.born == o.seqNo
              && (!st.client.truncated ==> so.protocol == o.protocol && so.spec == Some(o.spec) && o.version <= so.version)
  {
    hide Frames, Fresh, Declared;
    InitInv(w);
    RunKeeps(w, Init, steps, st);
    forall i | 0 <= i < |st.client.objects| && st.client.objects[i].id != 0
      ensures Names(w, st.server, st.client.objects[i].id, st.client.objects[i].seqNo)
    {}
  }

  /** The table of the server in every reachable state; no frame ever meets an object without a spec. */
  lemma ServerTableHolds(w: World, steps: seq<Step>, st: State)
    requires WellFormed(w) && Runs(w, Init, steps, st)
    ensures st.server.maxId == |st.server.objects| + 1
    ensures forall k :: 0 <= k < |st.server.objects| ==>
              && st.server.objects[k].id == k + 1
              && (!st.server.error ==> Declared(w.senv, st.server.objects[k]))
    ensures forall id: nat :: !st.server.error && IndexOfId(st.server.objects, id) < |st.server.objects| ==>
              st.server.objects[IndexOfId(st.server.objects, id)].spec.Some?
  {
    hide Frames, Fresh, Kinds, Born, Replies, Resolved, IndexOfId, Runs;
    InitInv(w);
    RunKeeps(w, Init, steps, st);
  }

  lemma DeliveredAsMarshalled(methods: seq<Method>, listeners: seq<bool>, version: nat, m: Msg, returnSeq: Option<u32>,
          args: seq<CallArg>)
    requires m.Generic? && m.methodId < |methods| && methods[m.methodId].since <= version && FdTotal(m.args) <= |m.fds|
    requires MarshalledFrom(methods[m.methodId], m, returnSeq, args)
    ensures CallOf(methods, listeners, version, m.methodId, m.args, m.fds) ==
            if Listened(listeners, m.methodId) then
                  Delivered([Self] + CallValues(methods[m.methodId], returnSeq, args)) else NotListened
  {
    hide CheckFrom, ArgsValues, FdTotal, Known, Fits, AllShort, CallArgs, CallValues, AllSends;
    if Listened(listeners, m.methodId) { CallIsDelivered(methods, listeners, version, m.methodId, returnSeq, args); }
  }

  /** A server that has made 255 objects at most keeps the client on the safe side. */
  lemma FewObjectsSuffice(w: World, steps: seq<Step>, st: State)
    requires WellFormed(w) && Runs(w, Init, steps, st)
    ensures |st.server.objects| < 256 ==> !st.client.truncated
  {
    hide Frames, Fresh, Kinds, Born, Replies, Resolved, Declared, Runs;
    InitInv(w);
    RunKeeps(w, Init, steps, st);
  }

  /** A deferred message finds the object it was meant for exactly when that has an id below 256. */
  lemma WideIdsGoAstray(s: ServerState, m: Msg, id: nat)
    requires Numbered(s) && m.Generic? && m.objectId == 0 && 1 <= id <= |s.objects|
    ensures IndexOfId(s.objects, Resolve(m, id).objectId) == id - 1 <==> id < 256
  {
    hide IndexOfId;
    var low := Resolve(m, id).objectId;
    if low != 0 { IndexIsIdMinusOne(s, low); }
  }

  /** The arguments a frame was marshalled from. */
  lemma Witness(w: World, c: ClientState, x: Sent) returns (returnSeq: Option<u32>, args: seq<CallArg>)
    requires GenericOk(w, c, x.slot, x.msg)
    ensures x.slot < |c.objects| && x.msg.Generic? && FdTotal(x.msg.args) <= |x.msg.fds|
    ensures var o := c.objects[x.slot];
            && x.msg.methodId < |o.spec.c2s| && o.spec.c2s[x.msg.methodId].since <= o.version
            && MarshalledFrom(o.spec.c2s[x.msg.methodId], x.msg, returnSeq, args)
  {
    hide CheckFrom, Params, FdTotal, ChildSpec, MarshalledFrom;
    var d := c.objects[x.slot].spec.c2s[x.msg.methodId];
    returnSeq, args :| MarshalledFrom(d, x.msg, returnSeq, args);
  }
}
