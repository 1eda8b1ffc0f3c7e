/**
  The server's events: over all runs an event sent on an object finds that object on the client, whose
  id has arrived ahead of it, and its listener hears exactly the arguments that were sent.
 */
module Events {
  import opened Bytes
  import opened WireFormat
  import opened Demarshal
  import opened Marshal
  import opened Calls
  import opened Spec
  import opened Messages
  import opened ServerModel
  import opened ClientModel
  import opened TwoParty
  import opened ObjectAgreement
  import opened Progress
  import Conduct
  import Deferral
  import RoundtripSafety

  // ---- every object is announced ------------------------------------------------------------------

  /** The id of the k-th object is on the wire, with the sequence the object was made for. */
  ghost predicate IsAnnounced(s: ServerState, k: nat)
    requires k < |s.objects|
  {
    exists j :: 0 <= j < |s.out| && s.out[j].NewObject? && s.out[j].id == k + 1 && s.out[j].seqNo == s.objects[k].born
  }

  /** So is that of every object with which anything can be done. */
  ghost predicate AllAnnounced(env: ServerEnv, s: ServerState) {
    forall k :: 0 <= k < |s.objects| && Declared(env, s.objects[k]) ==> IsAnnounced(s, k)
  }

  ghost predicate ObjectsStay(a: ServerState, b: ServerState) {
    |a.objects| <= |b.objects| && forall k :: 0 <= k < |a.objects| ==> b.objects[k] == a.objects[k]
  }

  lemma AnnouncedStill(a: ServerState, b: ServerState, k: nat)
    requires k < |a.objects| && IsAnnounced(a, k) && ObjectsStay(a, b) && Continues(a.out, b.out)
    ensures IsAnnounced(b, k)
  {
    var j :| 0 <= j < |a.out| && a.out[j].NewObject? && a.out[j].id == k + 1 && a.out[j].seqNo == a.objects[k].born;
    assert b.out[j] == a.out[j];
  }

  lemma AllAnnouncedStill(env: ServerEnv, a: ServerState, b: ServerState)
    requires AllAnnounced(env, a) && ObjectsStay(a, b) && Continues(a.out, b.out)
    requires forall k :: |a.objects| <= k < |b.objects| && Declared(env, b.objects[k]) ==> IsAnnounced(b, k)
    ensures AllAnnounced(env, b)
  {
    hide IsAnnounced, Declared;
    forall k | 0 <= k < |b.objects| && Declared(env, b.objects[k]) ensures IsAnnounced(b, k) {
      if k < |a.objects| { AnnouncedStill(a, b, k); }
    }
  }

  /** An object that is made is announced at once, or is none with which anything can be done. */
  lemma CreationAnnounces(env: ServerEnv, s: ServerState, protocol: Name, name: Name, version: nat, seqNo: u32)
    requires Numbered(s) && s.maxId < MAX && version >= 1
    ensures var s' := CreateObject(env, s, protocol, name, version, seqNo);
            && |s'.objects| == |s.objects| + 1 && ObjectsStay(s, s') && Continues(s.out, s'.out)
            && (Declared(env, s'.objects[|s.objects|]) ==> IsAnnounced(s', |s.objects|))
  {
    hide Find, SpecFor, ListenersFor;
    var s' := CreateObject(env, s, protocol, name, version, seqNo);
    if Creatable(env, protocol, name, version) {
      assert s'.out[|s.out|] == NewObject(s.maxId, seqNo);
    } else {
      NoUse(env, s, protocol, name, version, seqNo);
    }
  }

  lemma NoUse(env: ServerEnv, s: ServerState, protocol: Name, name: Name, version: nat, seqNo: nat)
    requires !Creatable(env, protocol, name, version)
    ensures !Declared(env, Made(env, s, protocol, name, version, seqNo))
  {}

  lemma HandleAnnounces(env: ServerEnv, s: ServerState, m: Msg)
    requires ToServer(m) && !Malformed(m) && Table(env, s) && !s.error && s.maxId < MAX && AllAnnounced(env, s)
    ensures AllAnnounced(env, Handle(env, s, m)) && ObjectsStay(s, Handle(env, s, m))
  {
    hide AllAnnounced, IsAnnounced, Declared, CreateObject, CallOf, FdTotal, IndexOfId, SpecStrings, ListenersFor;
    var s' := Handle(env, s, m);
    if m.BindProtocol? {
      CreationAnnounces(env, s, m.protocol, [], m.version, m.seqNo);
      AllAnnouncedStill(env, s, s');
    } else if m.Generic? {
      GenericAnnounces(env, s, m);
    } else {
      AllAnnouncedStill(env, s, s');
    }
  }

  lemma GenericAnnounces(env: ServerEnv, s: ServerState, m: Msg)
    requires m.Generic? && Table(env, s) && !s.error && s.maxId < MAX && AllAnnounced(env, s)
    ensures AllAnnounced(env, OnGeneric(env, s, m)) && ObjectsStay(s, OnGeneric(env, s, m))
  {
    hide AllAnnounced, IsAnnounced, CreateObject, CallOf, FdTotal, ListenersFor, Find, NewSeq;
    var s' := OnGeneric(env, s, m);
    var i := IndexOfId(s.objects, m.objectId);
    if i < |s.objects| && s.objects[i].spec.Some? && FdTotal(m.args) <= |m.fds| {
      var o := s.objects[i];
      var methods := o.spec.value.c2s;
      var r := CallOf(methods, o.listeners, o.version, m.methodId, m.args, m.fds);
      if r.Delivered? {
        DeliveredMethod(methods, o.listeners, o.version, m.methodId, m.args, m.fds);
        var s1 := s.(calls := s.calls + [ListenerCall(o.id, m.methodId, r.values)]);
        CallsAreNoMatter(env, s, s1);
        if methods[m.methodId].returnsType != [] {
          SeqIsWord(m);
          CreationAnnounces(env, s1, o.protocol, methods[m.methodId].returnsType, o.version, NewSeq(m));
          AllAnnouncedStill(env, s1, s');
        }
      } else {
        AllAnnouncedStill(env, s, s');
      }
    }
  }

  lemma SeqIsWord(m: Msg)
    ensures NewSeq(m) < 0x1_0000_0000
  {}

  lemma CallsAreNoMatter(env: ServerEnv, s: ServerState, s1: ServerState)
    requires AllAnnounced(env, s) && s1 == s.(calls := s1.calls)
    ensures AllAnnounced(env, s1)
  {
    hide Declared;
    forall k | 0 <= k < |s1.objects| && Declared(env, s1.objects[k]) ensures IsAnnounced(s1, k) {
      assert IsAnnounced(s, k);
    }
  }

  // ---- over all runs ------------------------------------------------------------------------------

  ghost predicate Inv(w: World, st: State) { AllAnnounced(w.senv, st.server) && Hearing(st) }

  lemma StepAnnounces(w: World, st: State, step: Step)
    requires ObjectAgreement.Inv(w, st) && AllAnnounced(w.senv, st.server) && Enabled(w, st, step)
    ensures AllAnnounced(w.senv, Apply(w, st, step).server) && ObjectsStay(st.server, Apply(w, st, step).server)
  {
    hide ObjectAgreement.Inv, AllAnnounced, Handle, Call, Receive, ClientModel.Bind, ClientModel.Flush, GoodCall, Find,
      LeftoverFds, ToClient, ToServer, Table;
    TableOf(w, st);
    if step.ServerTake? && !Malformed(st.client.out[st.sDone].msg) {
      HandleAnnounces(w.senv, st.server, st.client.out[st.sDone].msg);
    } else {
      AllAnnouncedStill(w.senv, st.server, Apply(w, st, step).server);
    }
  }

  lemma StepKeeps(w: World, st: State, step: Step)
    requires ObjectAgreement.Inv(w, st) && RoundtripSafety.Inv(st) && Inv(w, st) && Enabled(w, st, step)
    ensures Inv(w, Apply(w, st, step)) && ObjectsStay(st.server, Apply(w, st, step).server)
    ensures Grows(st, Apply(w, st, step))
  {
    hide ObjectAgreement.Inv, RoundtripSafety.Requests, RoundtripSafety.Answers, AllAnnounced, Hearing, Handle, Call,
      Receive, ClientModel.Bind, ClientModel.Flush, GoodCall, Find, FinishServer, ToClient, ToServer, Grows;
    StepAnnounces(w, st, step);
    StepGrows(w, st, step);
    if step.ClientTake? { TakeHears(w, st); } else { HearingStill(w, st, Apply(w, st, step)); }
  }

  lemma {:induction false} RunKeeps(w: World, st: State, steps: seq<Step>, end: State)
    requires WellFormed(w) && Runs(w, st, steps, end)
    requires ObjectAgreement.Inv(w, st) && RoundtripSafety.Inv(st) && Inv(w, st)
    ensures ObjectAgreement.Inv(w, end) && RoundtripSafety.Inv(end) && Inv(w, end)
    ensures ObjectsStay(st.server, end.server) && Grows(st, end)
    decreases |steps|
  {
    hide WellFormed, ObjectAgreement.Inv, RoundtripSafety.Inv, Inv, Enabled, Apply, Grows;
    if steps == [] {
      GrowsNot(st);
    } else {
      var next := Apply(w, st, steps[0]);
      ObjectAgreement.StepKeeps(w, st, steps[0]);
      RoundtripSafety.StepKeeps(w, st, steps[0]);
      StepKeeps(w, st, steps[0]);
      RunKeeps(w, next, steps[1..], end);
      GrowsOn(st, next, end);
    }
  }

  lemma InitInv(w: World)
    ensures Inv(w, Init)
  {}

  /** An answer that was heard gave the object just the id in it. */
  lemma HeardExactly(w: World, st: State, j: nat, i: nat)
    requires ObjectAgreement.Inv(w, st) && Hearing(st) && j < st.cDone <= |st.server.out| && st.server.out[j].NewObject?
    requires i < |st.client.objects| && st.client.objects[i].seqNo == st.server.out[j].seqNo
    ensures st.client.objects[i].id == st.server.out[j].id
  {
    hide Table, Frames, Kinds, Fresh, Born;
    ReplyNames(w, st, j);
    assert st.client.objects[i].id != 0;
    assert Names(w, st.server, st.client.objects[i].id, st.client.objects[i].seqNo);
    NamesOne(w, st, st.client.objects[i].id, st.server.out[j].id, st.client.objects[i].seqNo);
  }

  lemma IdsDiffer(w: World, st: State, i: nat)
    requires ObjectAgreement.Inv(w, st) && i < |st.client.objects| && st.client.objects[i].id != 0
    ensures Conduct.FoundAt(st.client, st.client.objects[i].id, i)
  {
    hide Table, Frames, Kinds, Fresh, Born, Declared;
    var c := st.client;
    assert Names(w, st.server, c.objects[i].id, c.objects[i].seqNo);
    forall k | 0 <= k < i ensures c.objects[k].id != c.objects[i].id {
      if c.objects[k].id != 0 { assert Names(w, st.server, c.objects[k].id, c.objects[k].seqNo); }
    }
  }

  lemma KindOf(w: World, st: State, i: nat, k: nat)
    requires ObjectAgreement.Inv(w, st) && !st.client.truncated
    requires i < |st.client.objects| && k < |st.server.objects| && Declared(w.senv, st.server.objects[k])
    requires st.server.objects[k].born == st.client.objects[i].seqNo
    ensures SameKind(st.client.objects[i], st.server.objects[k]) && st.client.objects[i].seqNo != 0
  {
    hide Table, Fresh, Born, Replies, Resolved, Frames, Declared;
  }

  /** What the event is: a call of a method the server's object has, with arguments that fit. */
  ghost predicate IsEvent(so: ServerObject, m: Msg, methodId: u32, args: seq<CallArg>) {
    && so.spec.Some? && methodId < |so.spec.value.s2c|
    && var d := so.spec.value.s2c[methodId];
    && d.returnsType == [] && Known(d.params, 0) && Fits(d.params, 0, args) && AllShort(args)
    && so.id < 0x1_0000_0000 && m == Generic(so.id, methodId, CallArgs(d, None, args), AllSends(args))
  }

  /** What `call` does on the server is a step of the runs: an event or a complaint. */
  lemma EmitIsStep(w: World, st: State, k: nat, methodId: u32, args: seq<CallArg>)
    requires Room(st) && k < |st.server.objects| && st.server.objects[k].spec.Some? && st.server.objects[k].id <= MAX
    requires Emittable(st.server.objects[k], methodId) ==>
               var d := st.server.objects[k].spec.value.s2c[methodId];
               Known(d.params, 0) && Fits(d.params, 0, args) && AllShort(args)
    ensures var o := st.server.objects[k];
            var step := if Emittable(o, methodId)
                        then ServerSend(Generic(o.id, methodId, CallArgs(o.spec.value.s2c[methodId], None, args),
                                                AllSends(args)))
                        else ServerComplain(k);
            && Enabled(w, st, step) && (step.ServerSend? ==> IsEvent(o, step.msg, methodId, args))
            && Apply(w, st, step) == WithServer(st, Emit(st.server, k, methodId, args), st.sDone)
  {
    hide Known, Fits, AllShort, CallArgs, AllSends, Encodable, Room, Encode, CallBytes;
    var o := st.server.objects[k];
    if Emittable(o, methodId) {
      Deferral.MessageIsEncoded(o.id, methodId, o.spec.value.s2c[methodId], None, args);
    }
  }

  /**
    Over all runs in which no deferred message was resolved to an id of 256 or more: an event the server
    sends on an object it has made finds, when the client comes to it, the client's object of the same
    sequence, which has had its id by then and has the same spec; and its listener, if there is one and
    the method is not too new for it, is called once with the arguments that were sent.
   */
  lemma EventReachesObject(w: World, before: seq<Step>, sent: State, m: Msg, methodId: u32, args: seq<CallArg>,
          after: seq<Step>, st: State, i: nat)
    requires WellFormed(w) && Runs(w, Init, before, sent) && Enabled(w, sent, ServerSend(m))
    requires m.Generic? && 1 <= m.objectId <= |sent.server.objects|
    requires var so := sent.server.objects[m.objectId - 1]; Declared(w.senv, so) && IsEvent(so, m, methodId, args)
    requires Runs(w, Apply(w, sent, ServerSend(m)), after, st) && !st.client.truncated
    requires st.cBusy && st.cDone == |sent.server.out| < st.cIn && Room(st)
    requires i < |st.client.objects| && st.client.objects[i].seqNo == sent.server.objects[m.objectId - 1].born
    ensures Enabled(w, st, ClientTake)
    ensures var o, so := st.client.objects[i], sent.server.objects[m.objectId - 1];
            && o.id == m.objectId && so.spec == Some(o.spec) && so.protocol == o.protocol
            && var d := o.spec.s2c[methodId];
            && var c := Apply(w, st, ClientTake).client;
            c == if methodId < |o.listeners| && o.listeners[methodId] && d.since <= o.version
                 then st.client.(calls := st.client.calls
                                          + [ListenerCall(o.id, methodId, [Self] + CallValues(d, None, args))])
                 else st.client
  {
    hide WellFormed, ObjectAgreement.Inv, Runs, Declared, Receive, CallArgs, CallValues, AllSends, Known, Fits, AllShort,
      Hearing, AllAnnounced, IsAnnounced, RoundtripSafety.Requests, RoundtripSafety.Answers, SameKind, Encodable;
    Arrived(w, before, sent, m, after, st);
    var so := sent.server.objects[m.objectId - 1];
    HasId(w, sent, st, m.objectId - 1, i);
    KindOf(w, st, i, m.objectId - 1);
    SameSpecs(st.client.objects[i], so);
    IdsDiffer(w, st, i);
    Conduct.EventIsDelivered(st.client, i, methodId, args);
    EventIsForClient(m);
  }

  lemma SameSpecs(o: ClientObject, so: ServerObject)
    requires SameKind(o, so)
    ensures so.spec == Some(o.spec) && so.protocol == o.protocol
  {}

  lemma EventIsForClient(m: Msg)
    requires m.Generic?
    ensures ToClient(m)
  {}

  /** What is left of the state the event was sent in when the client comes to it. */
  lemma Arrived(w: World, before: seq<Step>, sent: State, m: Msg, after: seq<Step>, st: State)
    requires WellFormed(w) && Runs(w, Init, before, sent) && Enabled(w, sent, ServerSend(m))
    requires Runs(w, Apply(w, sent, ServerSend(m)), after, st)
    ensures ObjectAgreement.Inv(w, st) && RoundtripSafety.Inv(st) && Inv(w, st)
    ensures AllAnnounced(w.senv, sent.server) && ObjectAgreement.Inv(w, sent)
    ensures ObjectsStay(sent.server, st.server) && Continues(sent.server.out, st.server.out)
    ensures |sent.server.out| < |st.server.out| && st.server.out[|sent.server.out|] == m
  {
    hide WellFormed, ObjectAgreement.Inv, RoundtripSafety.Inv, AllAnnounced, Hearing, Runs;
    ObjectAgreement.InitInv(w);
    RoundtripSafety.InitInv();
    InitInv(w);
    RunKeeps(w, Init, before, sent);
    var next := Apply(w, sent, ServerSend(m));
    ObjectAgreement.StepKeeps(w, sent, ServerSend(m));
    RoundtripSafety.StepKeeps(w, sent, ServerSend(m));
    StepKeeps(w, sent, ServerSend(m));
    RunKeeps(w, next, after, st);
    assert next.server.out[|sent.server.out|] == m;
  }

  /** An object that was announced ahead of where the client is has its id there. */
  lemma HasId(w: World, sent: State, st: State, k: nat, i: nat)
    requires ObjectAgreement.Inv(w, st) && Hearing(st) && AllAnnounced(w.senv, sent.server)
    requires k < |sent.server.objects| && Declared(w.senv, sent.server.objects[k])
    requires Continues(sent.server.out, st.server.out) && |sent.server.out| <= st.cDone <= |st.server.out|
    requires i < |st.client.objects| && st.client.objects[i].seqNo == sent.server.objects[k].born
    ensures st.client.objects[i].id == k + 1
  {
    hide ObjectAgreement.Inv, Hearing, Declared;
    assert IsAnnounced(sent.server, k);
    var s := sent.server;
    var j :| 0 <= j < |s.out| && s.out[j].NewObject? && s.out[j].id == k + 1 && s.out[j].seqNo == s.objects[k].born;
    assert st.server.out[j] == s.out[j];
    HeardExactly(w, st, j, i);
  }
}
