/**
  One stream of messages, cut into batches in different ways: exactly when the cut makes no difference
  to what the server does.
 */
module Batches {
  import opened Bytes
  import opened VarInt
  import opened WireFormat
  import opened Calls
  import opened Spec
  import opened Messages
  import opened ServerModel
  import opened TwoParty
  import opened Stream
  import RoundtripSafety

  /** The messages apart from answers to roundtrips. */
  function WithoutDone(out: seq<Msg>): seq<Msg> {
    if out == [] then []
    else WithoutDone(out[..|out| - 1]) + (if out[|out| - 1].RoundtripDone? then [] else [out[|out| - 1]])
  }

  /** The last answer to a roundtrip; 0 if there is none. */
  function LastDone(out: seq<Msg>): u32 {
    if out == [] then 0
    else if out[|out| - 1].RoundtripDone? then out[|out| - 1].seqNo
    else LastDone(out[..|out| - 1])
  }

  lemma OneMore(out: seq<Msg>, m: Msg)
    ensures WithoutDone(out + [m]) == WithoutDone(out) + (if m.RoundtripDone? then [] else [m])
    ensures LastDone(out + [m]) == if m.RoundtripDone? then m.seqNo else LastDone(out)
  {
    assert (out + [m])[..|out|] == out;
  }

  /** Up to answers to roundtrips, the same server. */
  ghost predicate Alike(a: ServerState, b: ServerState) {
    && b == a.(out := b.out, scheduled := b.scheduled)
    && WithoutDone(a.out) == WithoutDone(b.out)
  }

  /** The two servers, alike but for their output and what is scheduled, have made the same step. */
  ghost predicate SameStep(a: ServerState, b: ServerState, a': ServerState, b': ServerState) {
    && b' == a'.(out := b'.out, scheduled := b'.scheduled)
    && (forall i :: |a.out| <= i < |a'.out| ==> !a'.out[i].RoundtripDone?)
    && a.out <= a'.out && b.out <= b'.out && |a'.out| <= |a.out| + 1
    && a'.out[|a.out|..] == b'.out[|b.out|..]
  }

  lemma CreateLooksAway(env: ServerEnv, a: ServerState, b: ServerState, protocol: Name, name: Name, version: nat,
          seqNo: nat)
    requires b == a.(out := b.out, scheduled := b.scheduled)
    ensures var a', b' := CreateObject(env, a, protocol, name, version, seqNo), CreateObject(env, b, protocol, name,
          version, seqNo);
            SameStep(a, b, a', b') && a'.scheduled == a.scheduled && b'.scheduled == b.scheduled
  {
    hide Find, SpecFor, ListenersFor, Creatable;
  }

  lemma GenericLooksAway(env: ServerEnv, a: ServerState, b: ServerState, m: Msg)
    requires m.Generic? && b == a.(out := b.out, scheduled := b.scheduled)
    ensures var a', b' := OnGeneric(env, a, m), OnGeneric(env, b, m);
            SameStep(a, b, a', b') && a'.scheduled == a.scheduled && b'.scheduled == b.scheduled
  {
    hide CallOf, FdTotal, IndexOfId, CreateObject;
    var i := IndexOfId(a.objects, m.objectId);
    if i < |a.objects| && a.objects[i].spec.Some? && FdTotal(m.args) <= |m.fds| {
      var o := a.objects[i];
      var methods := o.spec.value.c2s;
      var r := CallOf(methods, o.listeners, o.version, m.methodId, m.args, m.fds);
      if r.Delivered? {
        DeliveredMethod(methods, o.listeners, o.version, m.methodId, m.args, m.fds);
        var calls := a.calls + [ListenerCall(o.id, m.methodId, r.values)];
        CreateLooksAway(env, a.(calls := calls), b.(calls := calls), o.protocol, methods[m.methodId].returnsType,
            o.version, NewSeq(m));
      }
    }
  }

  /** What a message adds to the server's output does not depend on what is there. */
  lemma HandleLooksAway(env: ServerEnv, a: ServerState, b: ServerState, m: Msg)
    requires ToServer(m) && b == a.(out := b.out, scheduled := b.scheduled)
    ensures var a', b' := Handle(env, a, m), Handle(env, b, m);
            && SameStep(a, b, a', b')
            && a'.scheduled == (if m.RoundtripRequest? then m.seqNo else a.scheduled)
            && b'.scheduled == (if m.RoundtripRequest? then m.seqNo else b.scheduled)
  {
    hide OnGeneric, CreateObject, SpecStrings;
    if m.Generic? { GenericLooksAway(env, a, b, m); }
    if m.BindProtocol? { CreateLooksAway(env, a, b, m.protocol, [], m.version, m.seqNo); }
  }

  lemma AppendedSame(a: seq<Msg>, a': seq<Msg>, b: seq<Msg>, b': seq<Msg>)
    requires a <= a' && b <= b' && |a'| <= |a| + 1 && a'[|a|..] == b'[|b|..]
    requires forall i :: |a| <= i < |a'| ==> !a'[i].RoundtripDone?
    ensures WithoutDone(a) == WithoutDone(b) ==> WithoutDone(a') == WithoutDone(b')
    ensures LastDone(a') == LastDone(a) && LastDone(b') == LastDone(b)
  {
    hide WithoutDone, LastDone;
    if |a'| == |a| {
      assert a' == a && b' == b;
    } else {
      assert a' == a + [a'[|a|]] && b' == b + [b'[|b|]] && a'[|a|..][0] == b'[|b|..][0];
      OneMore(a, a'[|a|]);
      OneMore(b, b'[|b|]);
    }
  }

  // ---- messages handled in a row --------------------------------------------------------------

  /** What the messages add does not depend on what was sent and scheduled before. */
  lemma {:induction false} TakeAlike(env: ServerEnv, a: ServerState, b: ServerState, ms: seq<Msg>)
    requires ForServer(ms) && Alike(a, b)
    ensures var t, t' := TakeUpTo(env, a, ms), TakeUpTo(env, b, ms);
            Alike(t.state, t'.state) && t'.count == t.count && t'.refused == t.refused
    decreases |ms|
  {
    hide Handle, WithoutDone, ToServer, Malformed;
    if ms != [] && !a.error && !Malformed(ms[0]) {
      var m := ms[0];
      HandleLooksAway(env, a, b, m);
      AppendedSame(a.out, Handle(env, a, m).out, b.out, Handle(env, b, m).out);
      TakeAlike(env, Handle(env, a, m), Handle(env, b, m), ms[1..]);
    }
  }

  /** The numbers of the roundtrip requests among the messages. */
  function Requests(ms: seq<Msg>): seq<u32> {
    if ms == [] then [] else (if ms[0].RoundtripRequest? then [ms[0].seqNo] else []) + Requests(ms[1..])
  }

  function LastOf(asked: seq<u32>, otherwise: nat): nat { if asked == [] then otherwise else asked[|asked| - 1] }

  lemma {:induction false} RequestsParts(a: seq<Msg>, b: seq<Msg>)
    ensures Requests(a + b) == Requests(a) + Requests(b)
    decreases |a|
  {
    if a == [] {
      assert a + b == b;
    } else {
      RequestsParts(a[1..], b);
      assert (a + b)[0] == a[0] && (a + b)[1..] == a[1..] + b;
    }
  }

  /** What is scheduled behind the messages is the last request that was handled; nothing is answered yet. */
  lemma {:induction false} TakeSchedules(env: ServerEnv, s: ServerState, ms: seq<Msg>)
    requires ForServer(ms)
    ensures var t := TakeUpTo(env, s, ms);
            && t.state.scheduled == LastOf(Requests(ms[..t.count]), s.scheduled)
            && LastDone(t.state.out) == LastDone(s.out)
            && (!t.refused && !t.state.error ==> t.count == |ms|)
    decreases |ms|
  {
    hide Handle, LastDone, WithoutDone, ToServer, Malformed;
    if ms != [] && !s.error && !Malformed(ms[0]) {
      var s1 := Handle(env, s, ms[0]);
      HandleLooksAway(env, s, s, ms[0]);
      AppendedSame(s.out, s1.out, s.out, s1.out);
      TakeSchedules(env, s1, ms[1..]);
      var n := TakeUpTo(env, s1, ms[1..]).count;
      assert ms[..1 + n][0] == ms[0] && ms[..1 + n][1..] == ms[1..][..n];
    }
  }

  function Flatten(batches: seq<seq<Msg>>): seq<Msg> {
    if batches == [] then [] else batches[0] + Flatten(batches[1..])
  }

  lemma NothingTaken(env: ServerEnv, s: ServerState, ms: seq<Msg>)
    requires ForServer(ms) && (s.error || ms == [])
    ensures TakeUpTo(env, s, ms) == Taken(s, 0, false)
  {}

  /** Taking stops in the first part, or goes on in the second. */
  lemma {:induction false} TakeParts(env: ServerEnv, s: ServerState, a: seq<Msg>, b: seq<Msg>)
    requires ForServer(a) && ForServer(b) && ForServer(a + b)
    ensures var t := TakeUpTo(env, s, a);
            var more := TakeUpTo(env, t.state, b);
            && TakeUpTo(env, s, a + b) == (if t.refused then t else Taken(more.state, t.count + more.count, more.refused))
            && (t.refused ==> t.count < |a|)
            && (!t.refused && !t.state.error ==> t.count == |a|)
    decreases |a|
  {
    hide Handle, ToServer, Malformed;
    if a == [] {
      assert a + b == b;
    } else {
      assert (a + b)[0] == a[0] && (a + b)[1..] == a[1..] + b;
      if s.error {
        NothingTaken(env, s, b);
      } else if !Malformed(a[0]) {
        TakeParts(env, Handle(env, s, a[0]), a[1..], b);
      }
    }
  }

  // ---- cuts -----------------------------------------------------------------------------------

  /** Batches a server may read; a read that brings nothing is no batch. */
  predicate Readable(batches: seq<seq<Msg>>) { forall b :: b in batches ==> b != [] && AllPostable(b) }

  lemma ReadableRest(batches: seq<seq<Msg>>)
    requires Readable(batches) && batches != []
    ensures batches[0] != [] && AllPostable(batches[0]) && Readable(batches[1..])
  {
    hide AllPostable;
    forall b | b in batches[1..] ensures b != [] && AllPostable(b) { assert b in batches; }
    assert batches[0] in batches;
  }

  predicate IsCut(batches: seq<seq<Msg>>, ms: seq<Msg>) { Readable(batches) && Flatten(batches) == ms }

  /** dispatchClient on one batch after the other, octets and descriptors. */
  function DispatchAll(env: ServerEnv, s: ServerState, batches: seq<seq<Msg>>): ServerState
    requires Readable(batches)
    decreases |batches|
  {
    if batches == [] then s
    else
      ReadableRest(batches);
      var b := batches[0];
      DispatchAll(env, DispatchBatch(env, s, OctetsOf(b), FdsOfAll(b)), batches[1..])
  }

  /**
    The same objects, listener invocations and counters, the same messages sent, answers to roundtrips
    aside, and the same last answer.
   */
  ghost predicate SameOutcome(a: ServerState, b: ServerState) { Alike(a, b) && LastDone(a.out) == LastDone(b.out) }

  ghost predicate AllCutsAgree(env: ServerEnv, s: ServerState, ms: seq<Msg>) {
    forall one, other :: IsCut(one, ms) && IsCut(other, ms) ==>
      SameOutcome(DispatchAll(env, s, one), DispatchAll(env, s, other))
  }

  /** How many of the messages carry descriptors. */
  function Carriers(ms: seq<Msg>): nat {
    if ms == [] then 0 else (if FdsOfMsg(ms[0]) != [] then 1 else 0) + Carriers(ms[1..])
  }

  /** Nothing is asked for but 0 or what was answered last. */
  predicate Repeats(asked: seq<u32>, answered: nat) { forall r :: r in asked ==> r == 0 || r == answered }

  /**
    How many messages the batch leaves that it is refused for: the one that cannot be read, and those
    behind it, or behind the error, that carry descriptors.
   */
  function Left(t: Taken, ms: seq<Msg>): nat
    requires t.count <= |ms|
  {
    (if t.refused then 1 else 0) + Carriers(ms[t.count..])
  }

  /**
    At most one message is left to refuse the stream for; and of the requests taken, either the last is
    not 0 and nothing is left, or none asks for more than was answered already.
   */
  predicate Steady(env: ServerEnv, s: ServerState, ms: seq<Msg>)
    requires ForServer(ms)
  {
    var t := TakeUpTo(env, s, ms);
    var asked, left := Requests(ms[..t.count]), Left(t, ms);
    left <= 1 && (Repeats(asked, LastDone(s.out)) || (left == 0 && LastOf(asked, 0) != 0))
  }

  lemma {:induction false} CarriersParts(a: seq<Msg>, b: seq<Msg>)
    ensures Carriers(a + b) == Carriers(a) + Carriers(b)
    decreases |a|
  {
    hide FdsOfMsg;
    if a == [] {
      assert a + b == b;
    } else {
      CarriersParts(a[1..], b);
      assert (a + b)[0] == a[0] && (a + b)[1..] == a[1..] + b;
    }
  }

  lemma {:induction false} NoCarriers(ms: seq<Msg>)
    ensures Carriers(ms) == 0 <==> FdsOfAll(ms) == []
    decreases |ms|
  {
    hide FdsOfMsg;
    if ms != [] { NoCarriers(ms[1..]); }
  }

  /** A batch ends in the roundtrip's answer, or in a fatal error if anything is left. */
  function Served(env: ServerEnv, s: ServerState, b: seq<Msg>): ServerState
    requires ForServer(b)
  {
    var t := TakeUpTo(env, s, b);
    if Left(t, b) == 0 then Acknowledge(t.state) else Reject(t.state)
  }

  lemma BatchIsServed(env: ServerEnv, s: ServerState, b: seq<Msg>)
    requires AllPostable(b)
    ensures DispatchBatch(env, s, OctetsOf(b), FdsOfAll(b)) == Served(env, s, b)
  {
    hide DispatchBatch, OctetsOf, FdsOfAll, TakeUpTo, ToServer, Postable, Carriers;
    PostedOutcome(env, s, b);
    NoCarriers(b[TakeUpTo(env, s, b).count..]);
  }

  lemma {:induction false} TakeAnswersNothing(env: ServerEnv, s: ServerState, ms: seq<Msg>)
    requires ForServer(ms)
    ensures var out := TakeUpTo(env, s, ms).state.out;
            s.out <= out && forall j :: |s.out| <= j < |out| ==> !out[j].RoundtripDone?
    decreases |ms|
  {
    hide Handle, ToServer, Malformed;
    if ms != [] && !s.error && !Malformed(ms[0]) {
      RoundtripSafety.HandleAnswersNothing(env, s, ms[0]);
      TakeAnswersNothing(env, Handle(env, s, ms[0]), ms[1..]);
    }
  }

  /**
    A batch that raises no error is answered once, behind everything else, with the number of its last
    request; without a request, or if that is 0, not at all. Nothing is left to be answered later.
   */
  lemma BatchIsAnsweredOnce(env: ServerEnv, s: ServerState, ms: seq<Msg>)
    requires AllPostable(ms) && s.scheduled == 0
    ensures var s' := DispatchBatch(env, s, OctetsOf(ms), FdsOfAll(ms));
            !s'.error ==>
              var asked := Requests(ms);
              && s'.scheduled == 0 && s.out <= s'.out
              && if asked == [] || asked[|asked| - 1] == 0 then
                   forall j :: |s.out| <= j < |s'.out| ==> !s'.out[j].RoundtripDone?
                 else
                   && |s.out| < |s'.out| && s'.out[|s'.out| - 1] == RoundtripDone(asked[|asked| - 1])
                   && forall j :: |s.out| <= j < |s'.out| - 1 ==> !s'.out[j].RoundtripDone?
  {
    hide DispatchBatch, OctetsOf, FdsOfAll, TakeUpTo, Requests, Postable, ToServer;
    PostedOutcome(env, s, ms);
    TakeSchedules(env, s, ms);
    TakeAnswersNothing(env, s, ms);
    assert ms[..|ms|] == ms;
  }

  lemma DispatchOne(env: ServerEnv, s: ServerState, batches: seq<seq<Msg>>)
    requires Readable(batches)
    ensures batches == [] ==> DispatchAll(env, s, batches) == s
    ensures batches != [] ==>
              && AllPostable(batches[0]) && batches[0] != [] && Readable(batches[1..])
              && DispatchAll(env, s, batches) == DispatchAll(env, Served(env, s, batches[0]), batches[1..])
  {
    hide DispatchBatch, OctetsOf, FdsOfAll, Served, AllPostable, Readable;
    if batches != [] {
      ReadableRest(batches);
      BatchIsServed(env, s, batches[0]);
    }
  }

  lemma AcknowledgeAlike(a: ServerState)
    requires a.scheduled < 0x1_0000_0000
    ensures Alike(a, Acknowledge(a)) && Acknowledge(a).scheduled == 0
    ensures LastDone(Acknowledge(a).out) == if a.scheduled > 0 then a.scheduled else LastDone(a.out)
  {
    hide WithoutDone, LastDone;
    if a.scheduled > 0 { OneMore(a.out, RoundtripDone(Low32(a.scheduled))); }
  }

  lemma RejectAlike(a: ServerState)
    ensures Reject(a) == a.(out := Reject(a).out, error := true)
    ensures WithoutDone(Reject(a).out) == WithoutDone(a.out) + [FatalError(0, MAX, [])]
    ensures LastDone(Reject(a).out) == LastDone(a.out)
  {
    hide WithoutDone, LastDone;
    OneMore(a.out, FatalError(0, MAX, []));
  }

  lemma CutBothParts(a: seq<Msg>, b: seq<Msg>, na: nat, nb: nat)
    requires na <= |a| && nb <= |b| && (nb == 0 || na == |a|)
    ensures Requests((a + b)[..na + nb]) == Requests(a[..na]) + Requests(b[..nb])
    ensures Carriers((a + b)[na + nb..]) == Carriers(a[na..]) + Carriers(b[nb..])
  {
    hide Requests, Carriers;
    assert (a + b)[..na + nb] == a[..na] + b[..nb];
    assert (a + b)[na + nb..] == a[na..] + b[nb..];
    RequestsParts(a[..na], b[..nb]);
    CarriersParts(a[na..], b[nb..]);
  }

  /** A stream in two parts: what is taken, asked for and left. */
  lemma Splits(env: ServerEnv, s: ServerState, a: seq<Msg>, b: seq<Msg>)
    requires ForServer(a) && ForServer(b)
    ensures ForServer(a + b)
    ensures var t, all := TakeUpTo(env, s, a), TakeUpTo(env, s, a + b);
            var more := if t.refused then Taken(t.state, 0, false) else TakeUpTo(env, t.state, b);
            && all == Taken(more.state, t.count + more.count, t.refused || more.refused)
            && more.count <= |b|
            && Requests((a + b)[..all.count]) == Requests(a[..t.count]) + Requests(b[..more.count])
            && Left(all, a + b) == Left(t, a) + Left(more, b)
            && (t.state.error ==> more == Taken(t.state, 0, false))
            && (t.refused ==> t.count < |a|)
            && (!t.refused && !t.state.error ==> t.count == |a|)
  {
    hide TakeUpTo, Requests, Left, ToServer;
    BothForServer(a, b);
    TakeParts(env, s, a, b);
    var t := TakeUpTo(env, s, a);
    if t.state.error { NothingTaken(env, t.state, b); }
    var more := if t.refused then Taken(t.state, 0, false) else TakeUpTo(env, t.state, b);
    LeftInParts(a, b, t, more, TakeUpTo(env, s, a + b));
  }

  lemma BothForServer(a: seq<Msg>, b: seq<Msg>)
    requires ForServer(a) && ForServer(b)
    ensures ForServer(a + b)
  {
    hide ToServer;
  }

  lemma LeftInParts(a: seq<Msg>, b: seq<Msg>, t: Taken, more: Taken, all: Taken)
    requires t.count <= |a| && more.count <= |b| && (more.count == 0 || t.count == |a|)
    requires all == Taken(more.state, t.count + more.count, t.refused || more.refused) && !(t.refused && more.refused)
    ensures Requests((a + b)[..all.count]) == Requests(a[..t.count]) + Requests(b[..more.count])
    ensures Left(all, a + b) == Left(t, a) + Left(more, b)
  {
    hide Requests, Carriers;
    CutBothParts(a, b, t.count, more.count);
  }

  /** What refuses the batch is no error yet. */
  lemma {:induction false} NotBoth(env: ServerEnv, s: ServerState, ms: seq<Msg>)
    requires ForServer(ms)
    ensures var t := TakeUpTo(env, s, ms); t.refused ==> !t.state.error && t.count < |ms| && Malformed(ms[t.count])
    decreases |ms|
  {
    hide Handle, ToServer, Malformed;
    if ms != [] && !s.error && !Malformed(ms[0]) { NotBoth(env, Handle(env, s, ms[0]), ms[1..]); }
  }

  lemma {:induction false} FlatIsPostable(batches: seq<seq<Msg>>)
    requires Readable(batches)
    ensures AllPostable(Flatten(batches))
    decreases |batches|
  {
    hide Readable;
    if batches != [] {
      ReadableRest(batches);
      FlatIsPostable(batches[1..]);
    }
  }

  /** A server in error, with nothing but one old answer due, is only sent what it does not read. */
  lemma {:induction false} DeadOutcome(env: ServerEnv, t: ServerState, batches: seq<seq<Msg>>)
    requires Readable(batches) && t.error && Carriers(Flatten(batches)) == 0
    requires t.scheduled == 0 || t.scheduled == LastDone(t.out)
    ensures SameOutcome(t, DispatchAll(env, t, batches))
    decreases |batches|
  {
    hide TakeUpTo, WithoutDone, LastDone, AllPostable, Readable, Carriers, DispatchAll;
    DispatchOne(env, t, batches);
    if batches != [] {
      ReadableRest(batches);
      var b, rest := batches[0], batches[1..];
      PostableIsForServer(b);
      NothingTaken(env, t, b);
      CarriersParts(b, Flatten(rest));
      assert b[0..] == b;
      AcknowledgeAlike(t);
      DeadOutcome(env, Acknowledge(t), rest);
    }
  }

  lemma PostableIsForServer(ms: seq<Msg>)
    requires AllPostable(ms)
    ensures ForServer(ms)
  {}

  ghost predicate Outcome(env: ServerEnv, s: ServerState, ms: seq<Msg>, end: ServerState)
    requires ForServer(ms)
  {
    var t := TakeUpTo(env, s, ms);
    var last, left := LastOf(Requests(ms[..t.count]), 0), Left(t, ms);
    && end == t.state.(out := end.out, scheduled := end.scheduled, error := t.state.error || t.refused)
    && WithoutDone(end.out) == WithoutDone(t.state.out) + (if left == 0 then [] else [FatalError(0, MAX, [])])
    && LastDone(end.out) == if left == 0 && last != 0 then last else LastDone(s.out)
  }

  /** What every cut of a steady stream comes to. */
  lemma {:induction false} CutOutcome(env: ServerEnv, s: ServerState, batches: seq<seq<Msg>>, ms: seq<Msg>)
    requires IsCut(batches, ms) && ForServer(ms) && s.scheduled == 0 && Steady(env, s, ms)
    ensures Outcome(env, s, ms, DispatchAll(env, s, batches))
    decreases |batches|
  {
    hide TakeUpTo, WithoutDone, LastDone, AllPostable, Readable, Carriers, Requests, DispatchAll, Acknowledge, Reject;
    DispatchOne(env, s, batches);
    if batches == [] {
      NothingAtAll(env, s);
      assert WithoutDone(s.out) + [] == WithoutDone(s.out);
    } else {
      var b, rest := batches[0], batches[1..];
      FlatIsPostable(rest);
      var more := Flatten(rest);
      PostableIsForServer(b);
      PostableIsForServer(more);
      Splits(env, s, b, more);
      TakeSchedules(env, s, b);
      var t := TakeUpTo(env, s, b);
      var later := if t.refused then Taken(t.state, 0, false) else TakeUpTo(env, t.state, more);
      var here, behind := Requests(b[..t.count]), Requests(more[..later.count]);
      var left := Left(TakeUpTo(env, s, ms), ms);
      if Left(t, b) == 0 {
        AcknowledgeAlike(t.state);
        TakeAlike(env, t.state, Acknowledge(t.state), more);
        StillSteady(here, behind, left, LastDone(s.out));
        CutOutcome(env, Acknowledge(t.state), rest, more);
      } else {
        SomethingLeft(b, t);
        RejectAlike(t.state);
        assert more[0..] == more;
        RepeatsParts(here, behind, LastDone(s.out));
        DeadOutcome(env, Reject(t.state), rest);
      }
    }
  }

  lemma SomethingLeft(b: seq<Msg>, t: Taken)
    requires t.count <= |b| && Left(t, b) > 0 && (t.refused ==> t.count < |b|)
    ensures t.count < |b|
  {
    assert b[|b|..] == [];
  }

  lemma RepeatsParts(here: seq<u32>, later: seq<u32>, answered: nat)
    requires Repeats(here + later, answered)
    ensures Repeats(here, answered) && Repeats(later, answered)
    ensures LastOf(here, 0) == 0 || LastOf(here, 0) == answered
  {
    forall r | r in here ensures r == 0 || r == answered { assert r in here + later; }
    forall r | r in later ensures r == 0 || r == answered { assert r in here + later; }
    LastRepeats(here, answered);
  }

  /** What makes a stream steady makes its rest steady, and the last answer is the same. */
  lemma StillSteady(here: seq<u32>, later: seq<u32>, left: nat, answered: nat)
    requires left <= 1 && (Repeats(here + later, answered) || (left == 0 && LastOf(here + later, 0) != 0))
    ensures var now := if LastOf(here, 0) != 0 then LastOf(here, 0) else answered;
            && (Repeats(later, now) || (left == 0 && LastOf(later, 0) != 0))
            && (if left == 0 && LastOf(later, 0) != 0 then LastOf(later, 0) else now)
               == (if left == 0 && LastOf(here + later, 0) != 0 then LastOf(here + later, 0) else answered)
  {
    hide Repeats;
    assert later == [] ==> here + later == here;
    assert later != [] ==> LastOf(here + later, 0) == LastOf(later, 0);
    NoneRepeats(answered);
    NoneRepeats(LastOf(here, 0));
    if Repeats(here + later, answered) { RepeatsParts(here, later, answered); }
    LastRepeats(later, answered);
  }

  lemma NoneRepeats(answered: nat)
    ensures Repeats([], answered)
  {}

  lemma LastRepeats(asked: seq<u32>, answered: nat)
    ensures Repeats(asked, answered) ==> LastOf(asked, 0) == 0 || LastOf(asked, 0) == answered
  {
    if asked != [] { assert asked[|asked| - 1] in asked; }
  }

  lemma NothingAtAll(env: ServerEnv, s: ServerState)
    ensures TakeUpTo(env, s, []) == Taken(s, 0, false)
    ensures Requests([]) == [] && Carriers([]) == 0
  {}

  lemma NobodyCarries()
    ensures Carriers([]) == 0
  {}

  // ---- streams that are not steady --------------------------------------------------------------

  lemma Whole(env: ServerEnv, s: ServerState, ms: seq<Msg>)
    requires AllPostable(ms) && ms != []
    ensures IsCut([ms], ms) && DispatchAll(env, s, [ms]) == Served(env, s, ms)
  {
    hide Served, AllPostable, DispatchAll;
    assert [ms][1..] == [] && ms + [] == ms && Flatten([]) == [];
    assert Flatten([ms]) == ms + Flatten([]);
    PostableIsForServer(ms);
    DispatchOne(env, s, [ms]);
    DispatchOne(env, Served(env, s, ms), []);
  }

  lemma Halves(env: ServerEnv, s: ServerState, a: seq<Msg>, b: seq<Msg>)
    requires AllPostable(a) && AllPostable(b) && a != [] && b != []
    ensures IsCut([a, b], a + b) && DispatchAll(env, s, [a, b]) == Served(env, Served(env, s, a), b)
  {
    hide Served, AllPostable, DispatchAll;
    assert [a, b][1..] == [b] && [b][1..] == [] && b + [] == b && Flatten([]) == [];
    assert Flatten([b]) == b + Flatten([]) && Flatten([a, b]) == a + Flatten([b]);
    PostableIsForServer(a);
    DispatchOne(env, s, [a, b]);
    Whole(env, Served(env, s, a), b);
  }

  lemma PostableParts(a: seq<Msg>, b: seq<Msg>)
    requires AllPostable(a + b)
    ensures AllPostable(a) && AllPostable(b)
  {
    hide Postable, ToServer;
    forall m | m in a ensures ToServer(m) && Postable(m) { assert m in a + b; }
    forall m | m in b ensures ToServer(m) && Postable(m) { assert m in a + b; }
  }

  /** Two batches that leave something to refuse them for are refused one by one, or together. */
  lemma TwiceRefused(env: ServerEnv, s: ServerState, a: seq<Msg>, b: seq<Msg>)
    requires AllPostable(a + b) && ForServer(a) && ForServer(b)
    requires Left(TakeUpTo(env, s, a), a) >= 1 && Carriers(b) >= 1
    ensures !SameOutcome(DispatchAll(env, s, [a + b]), DispatchAll(env, s, [a, b]))
  {
    hide TakeUpTo, WithoutDone, LastDone, AllPostable, Carriers, Requests, DispatchAll, Reject, IsCut;
    NobodyCarries();
    PostableParts(a, b);
    var t := TakeUpTo(env, s, a);
    Splits(env, s, a, b);
    SomethingLeft(a, t);
    Whole(env, s, a + b);
    Halves(env, s, a, b);
    assert b[0..] == b;
    RejectAlike(t.state);
    NothingTaken(env, Reject(t.state), b);
    RejectAlike(Reject(t.state));
  }

  /** A request cut off from what follows it is answered; together with what follows it is not. */
  lemma CutBehindRequest(env: ServerEnv, s: ServerState, a: seq<Msg>, b: seq<Msg>)
    requires AllPostable(a + b) && ForServer(a) && ForServer(b) && a != [] && b != [] && s.scheduled == 0
    requires TakeUpTo(env, s, a).count == |a|
    requires LastOf(Requests(a), 0) != 0 && LastOf(Requests(a), 0) != LastDone(s.out)
    requires var t := TakeUpTo(env, s, a + b);
             Left(t, a + b) > 0 || LastOf(Requests((a + b)[..t.count]), 0) == 0
    ensures !SameOutcome(DispatchAll(env, s, [a + b]), DispatchAll(env, s, [a, b]))
  {
    hide TakeUpTo, WithoutDone, LastDone, AllPostable, Carriers, Requests, DispatchAll, Reject, Acknowledge, IsCut, Left;
    PostableParts(a, b);
    Splits(env, s, a, b);
    AllTaken(env, s, a);
    Whole(env, s, a + b);
    Halves(env, s, a, b);
    TakeSchedules(env, s, a);
    var t := TakeUpTo(env, s, a);
    AcknowledgeAlike(t.state);
    TakeAlike(env, t.state, Acknowledge(t.state), b);
    SameLeft(TakeUpTo(env, t.state, b), TakeUpTo(env, Acknowledge(t.state), b), b);
    assert Served(env, s, a) == Acknowledge(t.state);
    AnswerOf(env, s, a + b);
    AnswerOf(env, Acknowledge(t.state), b);
  }

  lemma SameLeft(t: Taken, t': Taken, ms: seq<Msg>)
    requires t.count == t'.count <= |ms| && t.refused == t'.refused
    ensures Left(t, ms) == Left(t', ms)
  {
    hide Carriers;
  }

  /** Where all is taken nothing is left. */
  lemma AllTaken(env: ServerEnv, s: ServerState, ms: seq<Msg>)
    requires ForServer(ms) && TakeUpTo(env, s, ms).count == |ms|
    ensures var t := TakeUpTo(env, s, ms); !t.refused && Left(t, ms) == 0
    ensures ms[..|ms|] == ms
  {
    hide TakeUpTo, ToServer, Carriers;
    NotBoth(env, s, ms);
    assert ms[|ms|..] == [];
    NobodyCarries();
  }

  /** The last answer behind one batch. */
  lemma AnswerOf(env: ServerEnv, s: ServerState, b: seq<Msg>)
    requires ForServer(b) && s.scheduled == 0
    ensures var t := TakeUpTo(env, s, b);
            var last := LastOf(Requests(b[..t.count]), 0);
            LastDone(Served(env, s, b).out) == if Left(t, b) == 0 && last != 0 then last else LastDone(s.out)
  {
    hide TakeUpTo, WithoutDone, LastDone, ToServer, Left, Requests, Reject, Acknowledge;
    TakeSchedules(env, s, b);
    AcknowledgeAlike(TakeUpTo(env, s, b).state);
    RejectAlike(TakeUpTo(env, s, b).state);
  }

  lemma {:induction false} FirstCarrier(ms: seq<Msg>) returns (i: nat)
    requires Carriers(ms) > 0
    ensures i < |ms| && FdsOfMsg(ms[i]) != [] && Carriers(ms[..i + 1]) == 1 && Carriers(ms[i + 1..]) == Carriers(ms) - 1
    decreases |ms|
  {
    hide FdsOfMsg;
    if FdsOfMsg(ms[0]) != [] {
      i := 0;
      assert ms[..1][1..] == [];
    } else {
      i := FirstCarrier(ms[1..]);
      assert ms[..i + 2][1..] == ms[1..][..i + 1] && ms[i + 2..] == ms[1..][i + 1..];
      i := i + 1;
    }
  }

  /** A request for something new, and the messages up to it. */
  lemma {:induction false} NewRequest(ms: seq<Msg>, answered: nat) returns (i: nat)
    requires !Repeats(Requests(ms), answered)
    ensures i < |ms| && ms[i].RoundtripRequest? && ms[i].seqNo != 0 && ms[i].seqNo != answered
    ensures LastOf(Requests(ms[..i + 1]), 0) == ms[i].seqNo
    decreases |ms|
  {
    var m := ms[0];
    if m.RoundtripRequest? && m.seqNo != 0 && m.seqNo != answered {
      i := 0;
      assert ms[..1][1..] == [];
    } else {
      i := NewRequest(ms[1..], answered);
      assert ms[..i + 2][0] == m && ms[..i + 2][1..] == ms[1..][..i + 1];
      i := i + 1;
    }
  }

  lemma CountOfPrefix(env: ServerEnv, s: ServerState, ms: seq<Msg>, i: nat)
    requires ForServer(ms) && i <= |ms|
    ensures ForServer(ms[..i]) && ForServer(ms[i..]) && ms[..i] + ms[i..] == ms
    ensures var t, t' := TakeUpTo(env, s, ms), TakeUpTo(env, s, ms[..i]);
            && t'.count == (if i <= t.count then i else t.count)
            && (t'.refused <==> t.refused && t.count < i)
  {
    hide TakeUpTo, ToServer, Left, Requests;
    assert ms[..i] + ms[i..] == ms;
    Splits(env, s, ms[..i], ms[i..]);
  }

  /** Two cuts of a stream with two messages left are told apart. */
  lemma LeftShows(env: ServerEnv, s: ServerState, ms: seq<Msg>) returns (i: nat)
    requires AllPostable(ms) && Left(TakeUpTo(env, s, ms), ms) > 1
    ensures 0 < i < |ms|
    ensures !SameOutcome(DispatchAll(env, s, [ms]), DispatchAll(env, s, [ms[..i], ms[i..]]))
  {
    hide TakeUpTo, WithoutDone, LastDone, Postable, ToServer, Carriers, Requests, DispatchAll, FdsOfMsg, SameOutcome;
    NobodyCarries();
    var t := TakeUpTo(env, s, ms);
    var n: nat := t.count;
    if t.refused {
      NotBoth(env, s, ms);
      i := n + 1;
      OneCarrier(ms[n..]);
      assert ms[n..][1..] == ms[i..];
      CountOfPrefix(env, s, ms, i);
    } else {
      var k := FirstCarrier(ms[n..]);
      i := n + k + 1;
      assert ms[..i][n..] == ms[n..][..k + 1] && ms[i..] == ms[n..][k + 1..];
      CountOfPrefix(env, s, ms, i);
    }
    SomeCarrier(ms[i..]);
    TwiceRefused(env, s, ms[..i], ms[i..]);
  }

  lemma SomeCarrier(ms: seq<Msg>)
    requires Carriers(ms) > 0
    ensures ms != []
  {}

  lemma OneCarrier(ms: seq<Msg>)
    requires ms != [] && Malformed(ms[0])
    ensures Carriers(ms) == Carriers(ms[1..])
  {}

  /** A request for something new that a later one hides shows as well. */
  lemma RequestShows(env: ServerEnv, s: ServerState, ms: seq<Msg>) returns (i: nat)
    requires AllPostable(ms) && s.scheduled == 0
    requires var t := TakeUpTo(env, s, ms);
             && !Repeats(Requests(ms[..t.count]), LastDone(s.out))
             && (Left(t, ms) > 0 || LastOf(Requests(ms[..t.count]), 0) == 0)
    ensures 0 < i < |ms|
    ensures !SameOutcome(DispatchAll(env, s, [ms]), DispatchAll(env, s, [ms[..i], ms[i..]]))
  {
    hide TakeUpTo, WithoutDone, LastDone, Postable, ToServer, Carriers, Requests, DispatchAll, Repeats, SameOutcome;
    var n: nat := TakeUpTo(env, s, ms).count;
    var k := NewRequest(ms[..n], LastDone(s.out));
    i := k + 1;
    CountOfPrefix(env, s, ms, i);
    assert ms[..n][..k + 1] == ms[..i];
    if i == |ms| {
      assert ms[..n] == ms[..i];
      AllTaken(env, s, ms);
    }
    CutBehindRequest(env, s, ms[..i], ms[i..]);
  }

  /** Two cuts of a stream that is not steady, told apart. */
  lemma UnsteadyShows(env: ServerEnv, s: ServerState, ms: seq<Msg>) returns (one: seq<seq<Msg>>, other: seq<seq<Msg>>)
    requires AllPostable(ms) && s.scheduled == 0 && !Steady(env, s, ms)
    ensures IsCut(one, ms) && IsCut(other, ms) && !SameOutcome(DispatchAll(env, s, one), DispatchAll(env, s, other))
  {
    hide TakeUpTo, LastDone, AllPostable, Carriers, Requests, DispatchAll, Repeats, SameOutcome, Left, IsCut;
    PostableIsForServer(ms);
    var i: nat;
    if Left(TakeUpTo(env, s, ms), ms) > 1 { i := LeftShows(env, s, ms); } else { i := RequestShows(env, s, ms); }
    assert ms[..i] + ms[i..] == ms;
    PostableParts(ms[..i], ms[i..]);
    Whole(env, s, ms);
    Halves(env, s, ms[..i], ms[i..]);
    one, other := [ms], [ms[..i], ms[i..]];
  }

  /**
    Exactly when the cut of a stream into batches makes no difference to the server, whatever a client
    may post. `Steady` looks at the requests taken and at what is left, and nowhere else.
   */
  lemma BatchIndependence(env: ServerEnv, s: ServerState, ms: seq<Msg>)
    requires AllPostable(ms) && s.scheduled == 0
    ensures Steady(env, s, ms) <==> AllCutsAgree(env, s, ms)
  {
    hide Steady, SameOutcome, DispatchAll, Outcome, AllPostable, Readable;
    PostableIsForServer(ms);
    if Steady(env, s, ms) {
      forall one, other | IsCut(one, ms) && IsCut(other, ms)
        ensures SameOutcome(DispatchAll(env, s, one), DispatchAll(env, s, other))
      {
        CutOutcome(env, s, one, ms);
        CutOutcome(env, s, other, ms);
        OneOutcome(env, s, ms, DispatchAll(env, s, one), DispatchAll(env, s, other));
      }
    } else {
      var one, other := UnsteadyShows(env, s, ms);
    }
  }

  lemma OneOutcome(env: ServerEnv, s: ServerState, ms: seq<Msg>, t: ServerState, t': ServerState)
    requires ForServer(ms) && Outcome(env, s, ms, t) && Outcome(env, s, ms, t')
    ensures SameOutcome(t, t')
  {
    hide TakeUpTo, WithoutDone, LastDone, Left, Requests;
  }

  // ---- what is left to the requests, and two streams that are not steady -------------------------

  /**
    While nothing is refused and no error raised only the requests matter: the cut makes no difference
    exactly when the last one is not numbered 0, or all are numbered 0 or like the last answer there was.
   */
  lemma RequestsDecide(env: ServerEnv, s: ServerState, ms: seq<Msg>)
    requires AllPostable(ms) && s.scheduled == 0
    requires var t := TakeUpTo(env, s, ms); !t.refused && !t.state.error
    ensures AllCutsAgree(env, s, ms) <==> LastOf(Requests(ms), 0) != 0 || Repeats(Requests(ms), LastDone(s.out))
  {
    hide TakeUpTo, LastDone, AllPostable, Requests, Left, AllCutsAgree, Repeats;
    PostableIsForServer(ms);
    BatchIndependence(env, s, ms);
    TakeSchedules(env, s, ms);
    AllTaken(env, s, ms);
  }

  /** A client numbers its requests from 1, so without an error its batches may be cut anywhere. */
  lemma NumberedRequests(env: ServerEnv, s: ServerState, ms: seq<Msg>)
    requires AllPostable(ms) && s.scheduled == 0
    requires var t := TakeUpTo(env, s, ms); !t.refused && !t.state.error
    requires forall m :: m in ms && m.RoundtripRequest? ==> m.seqNo > 0
    ensures AllCutsAgree(env, s, ms)
  {
    hide TakeUpTo, LastDone, AllPostable, AllCutsAgree;
    RequestsDecide(env, s, ms);
    RequestsPositive(ms);
    if Requests(ms) != [] { assert Requests(ms)[|Requests(ms)| - 1] in Requests(ms); }
  }

  lemma {:induction false} RequestsPositive(ms: seq<Msg>)
    requires forall m :: m in ms && m.RoundtripRequest? ==> m.seqNo > 0
    ensures forall r :: r in Requests(ms) ==> r > 0
    decreases |ms|
  {
    if ms != [] { RequestsPositive(ms[1..]); }
  }

  /** The answers to a first batch that is taken as a whole and a second one that adds none. */
  lemma TwoAnswers(env: ServerEnv, s: ServerState, a: seq<Msg>, b: seq<Msg>)
    requires AllPostable(a) && AllPostable(b) && a != [] && b != [] && s.scheduled == 0
    requires ForServer(a) && ForServer(b) && TakeUpTo(env, s, a).count == |a|
    requires var t := TakeUpTo(env, TakeUpTo(env, s, a).state, b);
             LastOf(Requests(b[..t.count]), 0) == 0 || Left(t, b) > 0
    ensures IsCut([a, b], a + b)
    ensures LastDone(DispatchAll(env, s, [a, b]).out) ==
            if LastOf(Requests(a), 0) != 0 then LastOf(Requests(a), 0) else LastDone(s.out)
  {
    hide TakeUpTo, WithoutDone, LastDone, AllPostable, Left, Requests, DispatchAll, Reject, Acknowledge, IsCut;
    Halves(env, s, a, b);
    TakeSchedules(env, s, a);
    AllTaken(env, s, a);
    var t := TakeUpTo(env, s, a);
    AcknowledgeAlike(t.state);
    TakeAlike(env, t.state, Acknowledge(t.state), b);
    SameLeft(TakeUpTo(env, t.state, b), TakeUpTo(env, Acknowledge(t.state), b), b);
    AnswerOf(env, s, a);
    AnswerOf(env, Acknowledge(t.state), b);
  }

  /** Two batches on a new server, and both as one. */
  lemma TwoCuts(env: ServerEnv, a: seq<Msg>, b: seq<Msg>)
    requires AllPostable(a) && AllPostable(b) && a != [] && b != [] && ForServer(a) && ForServer(b)
    requires var t := TakeUpTo(env, NewServer, a); t.count == |a| && !t.state.error
    requires var t := TakeUpTo(env, TakeUpTo(env, NewServer, a).state, b);
             Left(t, b) > 0 || (t.count > 0 && Requests(b[..t.count]) == [0])
    ensures IsCut([a + b], a + b) && IsCut([a, b], a + b)
    ensures LastDone(DispatchAll(env, NewServer, [a + b]).out) == 0
    ensures LastDone(DispatchAll(env, NewServer, [a, b]).out) == LastOf(Requests(a), 0)
  {
    hide TakeUpTo, LastDone, Postable, ToServer, Left, Requests, DispatchAll;
    assert LastDone(NewServer.out) == 0 by { NothingAnswered(); }
    AllTaken(env, NewServer, a);
    Splits(env, NewServer, a, b);
    TwoAnswers(env, NewServer, a, b);
    Whole(env, NewServer, a + b);
    AnswerOf(env, NewServer, a + b);
  }

  lemma NothingAnswered()
    ensures LastDone([]) == 0
  {}

  /** A request numbered 0 behind another one: together they are not answered, apart the first one is. */
  lemma ZeroIsNotAnswered(env: ServerEnv)
    ensures var a, b := [RoundtripRequest(5)], [RoundtripRequest(0)];
            && IsCut([a + b], a + b) && IsCut([a, b], a + b)
            && LastDone(DispatchAll(env, NewServer, [a + b]).out) == 0
            && LastDone(DispatchAll(env, NewServer, [a, b]).out) == 5
  {
    hide DispatchAll, LastDone, TakeUpTo, IsCut;
    var a, b := [RoundtripRequest(5)], [RoundtripRequest(0)];
    OneRequest(env, NewServer, 5);
    OneRequest(env, TakeUpTo(env, NewServer, a).state, 0);
    assert b[..1] == b;
    TwoCuts(env, a, b);
  }

  lemma OneRequest(env: ServerEnv, s: ServerState, seqNo: u32)
    requires !s.error
    ensures var b := [RoundtripRequest(seqNo)];
            && AllPostable(b) && Requests(b) == [seqNo]
            && TakeUpTo(env, s, b) == Taken(s.(scheduled := seqNo), 1, false)
  {
    hide SpecStrings, Find;
    var b := [RoundtripRequest(seqNo)];
    assert b[1..] == [];
  }

  /**
    A request, a bind that fails and a call with a descriptor behind it: read together, the descriptor
    left behind turns the answer into a fatal error; read apart, the request has been answered.
   */
  lemma StraysHideAnswer(env: ServerEnv, name: Name)
    requires Find(env.protocols, name).None? && |name| < LIMIT
    ensures var a, b := [RoundtripRequest(5)], [BindProtocol(name, 1, 1), Generic(1, 0, [Arg.Fd], [7])];
            && IsCut([a + b], a + b) && IsCut([a, b], a + b)
            && LastDone(DispatchAll(env, NewServer, [a + b]).out) == 0
            && LastDone(DispatchAll(env, NewServer, [a, b]).out) == 5
  {
    hide DispatchAll, LastDone, TakeUpTo, Find, IsCut;
    var a, b := [RoundtripRequest(5)], [BindProtocol(name, 1, 1), Generic(1, 0, [Arg.Fd], [7])];
    OneRequest(env, NewServer, 5);
    BadBind(env, TakeUpTo(env, NewServer, a).state, name);
    TwoCuts(env, a, b);
  }

  lemma BadBind(env: ServerEnv, s: ServerState, name: Name)
    requires !s.error && Find(env.protocols, name).None? && |name| < LIMIT
    ensures var b := [BindProtocol(name, 1, 1), Generic(1, 0, [Arg.Fd], [7])];
            AllPostable(b) && var t := TakeUpTo(env, s, b); Left(t, b) > 0
  {
    hide SpecStrings, Find;
    var bind, call := BindProtocol(name, 1, 1), Generic(1, 0, [Arg.Fd], [7]);
    var b := [bind, call];
    assert b[1..] == [call] && [call][1..] == [];
    assert FdTotal([Arg.Fd]) == 1 by { assert [Arg.Fd][1..] == []; }
    var s1 := Handle(env, s, bind);
    assert s1.error;
    NothingTaken(env, s1, [call]);
  }

  /**
    A request and a bind to version 0: read together, the bind turns the answer into a fatal error; read
    apart, the request has been answered.
   */
  lemma RefusalHidesAnswer(env: ServerEnv, name: Name)
    requires |name| < LIMIT
    ensures var a, b := [RoundtripRequest(5)], [BindProtocol(name, 1, 0)];
            && IsCut([a + b], a + b) && IsCut([a, b], a + b)
            && LastDone(DispatchAll(env, NewServer, [a + b]).out) == 0
            && LastDone(DispatchAll(env, NewServer, [a, b]).out) == 5
  {
    hide DispatchAll, LastDone, IsCut;
    var a, b := [RoundtripRequest(5)], [BindProtocol(name, 1, 0)];
    OneRequest(env, NewServer, 5);
    TwoCuts(env, a, b);
  }
}
