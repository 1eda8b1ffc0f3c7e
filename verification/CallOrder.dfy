/**
  Exactly when calls reach the wire in the order they were made, calls made inside of listeners
  included: unless one is made on an object that has its id while messages still wait for it.
 */
module CallOrder {
  import opened Calls
  import opened Marshal
  import opened ClientModel
  import opened TwoParty
  import opened Deferral
  import RoundtripSafety
  import ObjectAgreement

  function Number(b: Body): nat { if b.no < 0 then -b.no else b.no }

  ghost predicate InOrder(line: seq<Body>) {
    forall i, j :: 0 <= i < j < |line| ==> Number(line[i]) <= Number(line[j])
  }

  /** No call is numbered beyond the count of calls. */
  ghost predicate Counted(c: ClientState, slot: nat) {
    forall i :: 0 <= i < |AllCalls(c, slot, Any)| ==> Number(AllCalls(c, slot, Any)[i]) <= c.callNo
  }

  /** What is out of order stays so, wherever more is put. */
  lemma StillOutOfOrder(x: seq<Body>, made: seq<Body>, y: seq<Body>)
    requires !InOrder(x + y)
    ensures !InOrder(x + made + y)
  {
    var i, j :| 0 <= i < j < |x + y| && Number((x + y)[i]) > Number((x + y)[j]);
    var all := x + made + y;
    var i' := if i < |x| then i else i + |made|;
    var j' := if j < |x| then j else j + |made|;
    assert all[i'] == (x + y)[i] && all[j'] == (x + y)[j];
  }

  lemma NewBeforeOld(x: seq<Body>, b: Body, y: seq<Body>)
    requires y != [] && Number(y[0]) < Number(b)
    ensures !InOrder(x + [b] + y)
  {
    var all := x + [b] + y;
    assert all[|x|] == b && all[|x| + 1] == y[0];
  }

  /** The calls a step makes: one at most, with the next number. */
  lemma MadeNumber(st: State, step: Step, slot: nat)
    requires Sensible(st, step)
    ensures |MadeBy(st, step, slot, Any)| <= 1
    ensures forall b :: b in MadeBy(st, step, slot, Any) ==> Number(b) == st.client.callNo + 1
    ensures MadeBy(st, step, slot, Any) != [] ==> NumberOf(st, step) != 0
  {
    hide GoodCall, CallArgs, AllSends;
  }

  lemma StepCounts(w: World, st: State, step: Step, slot: nat)
    requires Deferral.Inv(st) && Enabled(w, st, step) && ObjectAgreement.ClientSeqs(Apply(w, st, step).client)
    requires Apply(w, st, step).client.connected && Counted(st.client, slot)
    ensures Sensible(st, step) && st.client.connected && Counted(Apply(w, st, step).client, slot)
    ensures !InOrder(AllCalls(st.client, slot, Any)) || Hasty(st, step, slot, Any) ==>
              !InOrder(AllCalls(Apply(w, st, step).client, slot, Any))
  {
    hide Deferral.Inv, Enabled, Apply, InOrder, SentCalls, WaitingCalls, MadeBy, ObjectAgreement.ClientSeqs, Sensible;
    Deferral.StepKeeps(w, st, step, slot, Any);
    MadeNumber(st, step, slot);
    var c := st.client;
    var sent, waiting := SentCalls(c.out, slot, Any), WaitingCalls(c.pending, slot, Any);
    var made := MadeBy(st, step, slot, Any);
    CountedParts(c, slot);
    if Hasty(st, step, slot, Any) {
      assert waiting[0] in waiting;
      assert made == [made[0]] && made[0] in made;
      NewBeforeOld(sent, made[0], waiting);
    } else if !InOrder(sent + waiting) {
      assert sent + waiting + [] == sent + waiting;
      StillOutOfOrder(sent + waiting, made, []);
      assert sent + waiting + made + [] == sent + waiting + made;
    }
    AllCounted(sent, waiting, made, c.callNo, Apply(w, st, step).client, slot);
  }

  ghost predicate UpTo(line: seq<Body>, n: nat) { forall b :: b in line ==> Number(b) <= n }

  lemma CountedParts(c: ClientState, slot: nat)
    requires Counted(c, slot)
    ensures UpTo(SentCalls(c.out, slot, Any), c.callNo) && UpTo(WaitingCalls(c.pending, slot, Any), c.callNo)
  {
    hide SentCalls, WaitingCalls;
    var sent, line := SentCalls(c.out, slot, Any), AllCalls(c, slot, Any);
    forall b | b in sent ensures Number(b) <= c.callNo {
      var i :| 0 <= i < |sent| && sent[i] == b;
      assert line[i] == b;
    }
    var waiting := WaitingCalls(c.pending, slot, Any);
    forall b | b in waiting ensures Number(b) <= c.callNo {
      var i :| 0 <= i < |waiting| && waiting[i] == b;
      assert line[|sent| + i] == b;
    }
  }

  lemma AllCounted(sent: seq<Body>, waiting: seq<Body>, made: seq<Body>, n: nat, c': ClientState, slot: nat)
    requires UpTo(sent, n) && UpTo(waiting, n) && |made| <= 1 && forall b :: b in made ==> Number(b) == n + 1
    requires c'.callNo >= n && (made != [] ==> c'.callNo >= n + 1)
    requires AllCalls(c', slot, Any) == sent + made + waiting || AllCalls(c', slot, Any) == sent + waiting + made
    ensures Counted(c', slot)
  {
    hide AllCalls;
    var all := AllCalls(c', slot, Any);
    forall i | 0 <= i < |all| ensures Number(all[i]) <= c'.callNo { assert all[i] in all; }
  }

  /** Once a call was hasty, the calls of its object are out of order for good. */
  lemma {:induction false} HastyShows(w: World, st: State, steps: seq<Step>, end: State, slot: nat)
    requires WellFormed(w) && Runs(w, st, steps, end) && end.client.connected
    requires Deferral.Inv(st) && ObjectAgreement.Inv(w, st) && RoundtripSafety.Inv(st) && Counted(st.client, slot)
    requires !InOrder(AllCalls(st.client, slot, Any)) || !NoneHasty(w, st, steps, end, slot, Any)
    ensures !InOrder(AllCalls(end.client, slot, Any))
    decreases |steps|
  {
    hide Deferral.Inv, RoundtripSafety.Inv, ObjectAgreement.Inv, Apply, Enabled, WellFormed, AllCalls, Hasty,
      Sensible, InOrder, Counted, Moved;
    if steps != [] {
      var next := Apply(w, st, steps[0]);
      ObjectAgreement.StepKeeps(w, st, steps[0]);
      RoundtripSafety.StepKeeps(w, st, steps[0]);
      SeqsHold(w, next);
      Deferral.StepKeeps(w, st, steps[0], slot, Any);
      Deferral.RunKeeps(w, next, steps[1..], end);
      StepCounts(w, st, steps[0], slot);
      HastyShows(w, next, steps[1..], end, slot);
    }
  }

  /** The calls of a run are numbered upwards. */
  lemma {:induction false} CallsAreInOrder(w: World, st: State, steps: seq<Step>, end: State, slot: nat)
    requires WellFormed(w) && Runs(w, st, steps, end)
    requires Deferral.Inv(st) && ObjectAgreement.Inv(w, st) && RoundtripSafety.Inv(st)
    ensures InOrder(CallsOf(w, st, steps, end, slot, Any))
    ensures forall b :: b in CallsOf(w, st, steps, end, slot, Any) ==> Number(b) > st.client.callNo
    decreases |steps|
  {
    hide Deferral.Inv, RoundtripSafety.Inv, ObjectAgreement.Inv, Apply, Enabled, WellFormed, MadeBy, Sensible, Moved;
    if steps != [] {
      var next := Apply(w, st, steps[0]);
      ObjectAgreement.StepKeeps(w, st, steps[0]);
      RoundtripSafety.StepKeeps(w, st, steps[0]);
      SeqsHold(w, next);
      Deferral.StepKeeps(w, st, steps[0], slot, Any);
      CallsAreInOrder(w, next, steps[1..], end, slot);
      MadeNumber(st, steps[0], slot);
      Prepended(MadeBy(st, steps[0], slot, Any), CallsOf(w, next, steps[1..], end, slot, Any), st.client.callNo + 1);
    }
  }

  lemma Prepended(made: seq<Body>, calls: seq<Body>, n: nat)
    requires InOrder(calls) && |made| <= 1 && forall b :: b in made ==> Number(b) == n
    requires made != [] ==> forall b :: b in calls ==> Number(b) > n
    ensures InOrder(made + calls)
  {
    var all := made + calls;
    forall i, j | 0 <= i < j < |all| ensures Number(all[i]) <= Number(all[j]) {
      if i < |made| {
        assert made[i] in made && all[j] == calls[j - |made|] && calls[j - |made|] in calls;
      } else {
        assert all[i] == calls[i - |made|] && all[j] == calls[j - |made|];
      }
    }
  }

  /**
    Over all runs on a standing connection: the calls made on an object, of either origin, are those of
    it on the wire followed by those that wait, in the order they were made, if and only if none was
    hasty, made on the object after it got its id while a message still waited for it.
   */
  lemma OrderIsKeptExactly(w: World, steps: seq<Step>, st: State, slot: nat)
    requires WellFormed(w) && Runs(w, Init, steps, st) && st.client.connected
    ensures AllCalls(st.client, slot, Any) == CallsOf(w, Init, steps, st, slot, Any)
            <==> NoneHasty(w, Init, steps, st, slot, Any)
    ensures InOrder(AllCalls(st.client, slot, Any)) <==> NoneHasty(w, Init, steps, st, slot, Any)
  {
    hide ObjectAgreement.Inv, RoundtripSafety.Inv, Runs, WellFormed, CallsOf, NoneHasty, InOrder;
    ObjectAgreement.InitInv(w);
    RoundtripSafety.InitInv();
    NoCallsYet(slot, Any);
    CallsAreInOrder(w, Init, steps, st, slot);
    if NoneHasty(w, Init, steps, st, slot, Any) {
      RunMoves(w, Init, steps, st, slot, Any);
      assert [] + CallsOf(w, Init, steps, st, slot, Any) == CallsOf(w, Init, steps, st, slot, Any);
    } else {
      HastyShows(w, Init, steps, st, slot);
    }
  }

  // ---- the guard of a single call -----------------------------------------------------------------

  lemma {:induction false} SomethingWaits(c: ClientState, pending: seq<Pending>, slot: nat)
    requires forall p :: p in pending ==> WaitsWell(c, p)
    ensures WaitingCalls(pending, slot, Any) == [] <==> forall p :: p in pending ==> p.slot != slot
    decreases |pending|
  {
    if pending != [] {
      assert WaitsWell(c, pending[0]);
      SomethingWaits(c, pending[1..], slot);
    }
  }

  /** The guard, as a caller can check it before the call. */
  predicate GoesBehindAll(c: ClientState, slot: nat)
    requires slot < |c.objects|
  {
    c.objects[slot].id == 0 || forall p :: p in c.pending ==> p.slot != slot
  }

  lemma HastyIsTheGuard(st: State, step: Step)
    requires Deferral.Inv(st) && Sensible(st, step) && NumberOf(st, step) != 0
    requires Callable(st.client.objects[step.slot], step.methodId)
    ensures Hasty(st, step, step.slot, Any) <==> !GoesBehindAll(st.client, step.slot)
  {
    hide WaitsWell, WaitingCalls, GoodCall, CallArgs, AllSends, ObjectAgreement.ClientSeqs;
    forall p | p in st.client.pending ensures WaitsWell(st.client, p) {
      var i :| 0 <= i < |st.client.pending| && st.client.pending[i] == p;
    }
    SomethingWaits(st.client, st.client.pending, step.slot);
  }

  /**
    In every reachable state with a standing connection: a call of either origin is, behind the next
    flush, the last among the calls of its object and leaves them in their order, if and only if the
    object had no id yet or nothing waited for it.
   */
  lemma NextFlushKeepsOrder(w: World, steps: seq<Step>, st: State, step: Step)
    requires WellFormed(w) && Runs(w, Init, steps, st) && st.client.connected
    requires Enabled(w, st, step) && NumberOf(st, step) != 0 && Callable(st.client.objects[step.slot], step.methodId)
    ensures Sensible(st, step)
    ensures var flushed := ClientModel.Flush(Apply(w, st, step).client);
            AllCalls(flushed, step.slot, Any) == AllCalls(st.client, step.slot, Any) + MadeBy(st, step, step.slot, Any)
            <==> GoesBehindAll(st.client, step.slot)
  {
    hide ObjectAgreement.Inv, RoundtripSafety.Inv, Runs, WellFormed, Apply, Enabled, ClientModel.Flush, AllCalls,
      Sensible, GoesBehindAll, Callable, MadeBy;
    ObjectAgreement.InitInv(w);
    RoundtripSafety.InitInv();
    NoCallsYet(step.slot, Any);
    Deferral.RunKeeps(w, Init, steps, st);
    CountedNow(w, Init, steps, st, step.slot);
    ObjectAgreement.StepKeeps(w, st, step);
    SeqsHold(w, Apply(w, st, step));
    CallStep(w, st, step, step.slot, Any);
    FlushMoves(Apply(w, st, step).client, step.slot, Any);
    HastyIsTheGuard(st, step);
    HastyOrLast(st, step, Apply(w, st, step).client);
  }

  lemma HastyOrLast(st: State, step: Step, c': ClientState)
    requires NumberOf(st, step) != 0 && Sensible(st, step)
    requires Moved(st, step, c', step.slot, Any) && Counted(st.client, step.slot)
    ensures AllCalls(c', step.slot, Any) == AllCalls(st.client, step.slot, Any) + MadeBy(st, step, step.slot, Any)
            <==> !Hasty(st, step, step.slot, Any)
  {
    hide SentCalls, WaitingCalls, MadeBy, Sensible;
    var slot := step.slot;
    if Hasty(st, step, slot, Any) {
      MadeNumber(st, step, slot);
      CountedParts(st.client, slot);
      var made := MadeBy(st, step, slot, Any);
      assert made == [made[0]] && made[0] in made;
      var c := st.client;
      Displaced(SentCalls(c.out, slot, Any), made[0], WaitingCalls(c.pending, slot, Any), c.callNo);
    }
  }

  lemma Displaced(x: seq<Body>, b: Body, y: seq<Body>, n: nat)
    requires y != [] && Number(b) > n && UpTo(y, n)
    ensures x + [b] + y != x + y + [b]
  {
    assert (x + [b] + y)[|x|] == b && (x + y + [b])[|x|] == y[0] && y[0] in y;
  }

  lemma {:induction false} CountedNow(w: World, st: State, steps: seq<Step>, end: State, slot: nat)
    requires WellFormed(w) && Runs(w, st, steps, end) && end.client.connected
    requires Deferral.Inv(st) && ObjectAgreement.Inv(w, st) && RoundtripSafety.Inv(st) && Counted(st.client, slot)
    ensures Counted(end.client, slot)
    decreases |steps|
  {
    hide Deferral.Inv, RoundtripSafety.Inv, ObjectAgreement.Inv, Apply, Enabled, WellFormed, Counted, Hasty, Sensible,
      Moved;
    if steps != [] {
      var next := Apply(w, st, steps[0]);
      ObjectAgreement.StepKeeps(w, st, steps[0]);
      RoundtripSafety.StepKeeps(w, st, steps[0]);
      SeqsHold(w, next);
      Deferral.StepKeeps(w, st, steps[0], slot, Any);
      Deferral.RunKeeps(w, next, steps[1..], end);
      StepCounts(w, st, steps[0], slot);
      CountedNow(w, next, steps[1..], end, slot);
    }
  }
}
