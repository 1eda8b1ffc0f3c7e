/**
  The client's waits: dispatchEvents around its polls, and the loops on it in waitForHandshake,
  waitForObject and roundtrip. What poll and read give is a list; the loops here end where it does.
 */
module Waiting {
  import opened Bytes
  import opened ClientModel
  import opened Stream

  /** What poll reports, POLLHUP first, with what is read after POLLIN; `bad` is a failed read. */
  datatype Polled = TimedOut | HungUp | Idle | Readable(data: seq<byte>, fds: seq<int>, bad: bool)

  datatype Dispatched = Dispatched(ok: bool, state: ClientState)

  /** dispatchEvents; only a blocking poll during the handshake has a time limit. */
  function DispatchEvents(c: ClientState, block: bool, p: Polled): Dispatched {
    if c.error then Dispatched(false, c)
    else
      match p
      case TimedOut => if block && !c.handshakeDone then Dispatched(false, Disconnect(c)) else Dispatched(true, c)
      case HungUp => Dispatched(false, c)
      case Idle => Dispatched(true, c)
      case Readable(data, fds, bad) =>
        if bad then Dispatched(false, Disconnect(c))
        else if data == [] then Dispatched(false, c)
        else var c' := ClientDispatch(c, data, fds); Dispatched(!c'.error, c')
  }

  /** A dispatch that fails has changed nothing, or left an error. */
  lemma FailureShows(c: ClientState, p: Polled)
    ensures var d := DispatchEvents(c, true, p); d.ok || d.state.error || d.state == c
  {
    hide ClientDispatch;
  }

  /** What a wait is for. */
  datatype Wish = ForHandshake | ForObject(slot: nat) | ForAnswer(seqNo: nat)

  predicate Granted(c: ClientState, wish: Wish) {
    match wish
    case ForHandshake => c.handshakeDone
    case ForObject(slot) => slot < |c.objects| && c.objects[slot].id != 0
    case ForAnswer(seqNo) => c.lastAcked >= seqNo
  }

  /** The loops look at the error before they poll, but for roundtrip. */
  predicate GivesUp(c: ClientState, wish: Wish) { c.error && !wish.ForAnswer? }

  /** A dispatch that fails ends the loop, but for waitForObject. */
  predicate Insists(wish: Wish) { wish.ForObject? }

  /** `over`: the loop has ended by itself, and not because the list did. */
  datatype Waited = Waited(state: ClientState, used: nat, over: bool)

  function Wait(c: ClientState, wish: Wish, polls: seq<Polled>): (r: Waited)
    ensures r.used <= |polls|
    decreases |polls|
  {
    if Granted(c, wish) || GivesUp(c, wish) then Waited(c, 0, true)
    else if polls == [] then Waited(c, 0, false)
    else
      var d := DispatchEvents(c, true, polls[0]);
      if !d.ok && !Insists(wish) then Waited(d.state, 1, true)
      else var r := Wait(d.state, wish, polls[1..]); Waited(r.state, r.used + 1, r.over)
  }

  /** The state after all of the polls, whatever dispatchEvents returns. */
  function After(c: ClientState, polls: seq<Polled>): ClientState
    decreases |polls|
  {
    if polls == [] then c else After(DispatchEvents(c, true, polls[0]).state, polls[1..])
  }

  lemma AfterOne(c: ClientState, polls: seq<Polled>, k: nat)
    requires 1 <= k <= |polls|
    ensures After(c, polls[..k]) == After(DispatchEvents(c, true, polls[0]).state, polls[1..][..k - 1])
  {
    hide DispatchEvents;
    assert polls[..k][0] == polls[0] && polls[..k][1..] == polls[1..][..k - 1];
  }

  lemma AfterNone(c: ClientState, polls: seq<Polled>)
    ensures After(c, polls[..0]) == c
  {}

  /** The dispatch of the k-th poll of the wait fails. */
  predicate Fails(c: ClientState, polls: seq<Polled>, k: nat)
    requires k < |polls|
  {
    !DispatchEvents(After(c, polls[..k]), true, polls[k]).ok
  }

  /** The wait has reason to end behind `k` polls. */
  predicate Ends(c: ClientState, wish: Wish, polls: seq<Polled>, k: nat)
    requires k <= |polls|
  {
    || Granted(After(c, polls[..k]), wish) || GivesUp(After(c, polls[..k]), wish)
    || (k > 0 && !Insists(wish) && Fails(c, polls, k - 1))
  }

  lemma EndsOne(c: ClientState, wish: Wish, polls: seq<Polled>, k: nat)
    requires 2 <= k <= |polls| || (k == 1 <= |polls| && (Insists(wish) || DispatchEvents(c, true, polls[0]).ok))
    ensures Ends(c, wish, polls, k) <==> Ends(DispatchEvents(c, true, polls[0]).state, wish, polls[1..], k - 1)
  {
    hide DispatchEvents, After, Granted, GivesUp;
    AfterOne(c, polls, k);
    AfterNone(c, polls);
    if k > 1 { AfterOne(c, polls, k - 1); }
  }

  /**
    A wait ends exactly when there is reason to: it is over if and only if there is one behind some
    number of polls, it has then used the smallest such number, and leaves the state behind these.
   */
  lemma {:induction false} WaitEnds(c: ClientState, wish: Wish, polls: seq<Polled>)
    ensures var r := Wait(c, wish, polls);
            && r.state == After(c, polls[..r.used])
            && (r.over <==> exists k :: 0 <= k <= |polls| && Ends(c, wish, polls, k))
            && (r.over ==> Ends(c, wish, polls, r.used))
            && (!r.over ==> r.used == |polls|)
            && forall k :: 0 <= k < r.used ==> !Ends(c, wish, polls, k)
    decreases |polls|
  {
    hide DispatchEvents, After, Granted, GivesUp, Insists, Fails;
    AfterNone(c, polls);
    var r := Wait(c, wish, polls);
    if Granted(c, wish) || GivesUp(c, wish) {
      assert Ends(c, wish, polls, 0);
    } else if polls != [] {
      var d := DispatchEvents(c, true, polls[0]);
      assert !Ends(c, wish, polls, 0);
      AfterOne(c, polls, 1);
      AfterNone(d.state, polls[1..]);
      if !d.ok && !Insists(wish) {
        FirstFails(c, wish, polls);
      } else {
        WaitEnds(d.state, wish, polls[1..]);
        AfterOne(c, polls, r.used);
        forall k | 1 <= k <= |polls| ensures Ends(c, wish, polls, k) <==> Ends(d.state, wish, polls[1..], k - 1) {
          EndsOne(c, wish, polls, k);
        }
        if r.over {
          assert Ends(c, wish, polls, r.used);
        } else {
          forall k | 0 <= k <= |polls| ensures !Ends(c, wish, polls, k) {
            if k > 0 { assert !Ends(d.state, wish, polls[1..], k - 1); }
          }
        }
      }
    }
  }

  lemma FirstFails(c: ClientState, wish: Wish, polls: seq<Polled>)
    requires polls != [] && !DispatchEvents(c, true, polls[0]).ok && !Insists(wish)
    ensures Ends(c, wish, polls, 1)
  {
    hide DispatchEvents, Granted, GivesUp, After;
    AfterNone(c, polls);
  }

  // ---- what a wait that is over has achieved ------------------------------------------------------

  /** The last of the polls used was not dispatched: an error, a hangup, a failed read or one of nothing. */
  predicate LastFailed(c: ClientState, polls: seq<Polled>, used: nat) {
    0 < used <= |polls| && !DispatchEvents(After(c, polls[..used - 1]), true, polls[used - 1]).ok
  }

  /**
    roundtrip: it is over exactly when the answer to its request, or a later one, has come, or a dispatch
    has failed; it uses no more polls than that takes.
   */
  lemma AnswerIsAwaited(c: ClientState, n: nat, polls: seq<Polled>)
    ensures var r := Wait(c, ForAnswer(n), polls);
            && r.state == After(c, polls[..r.used])
            && (r.over <==> r.state.lastAcked >= n || LastFailed(c, polls, r.used))
            && (!r.over ==> r.used == |polls|)
            && forall k :: 0 <= k < r.used ==> After(c, polls[..k]).lastAcked < n && !LastFailed(c, polls, k)
  {
    hide Wait, After, DispatchEvents;
    WaitEnds(c, ForAnswer(n), polls);
    var r := Wait(c, ForAnswer(n), polls);
    AwaitedWell(c, ForAnswer(n), polls, r);
    forall k | 0 <= k < r.used ensures After(c, polls[..k]).lastAcked < n && !LastFailed(c, polls, k) {
      assert !Ends(c, ForAnswer(n), polls, k);
    }
  }

  /** waitForHandshake: exactly when the handshake is done, an error was raised or a dispatch has failed. */
  lemma HandshakeIsAwaited(c: ClientState, polls: seq<Polled>)
    ensures var r := Wait(c, ForHandshake, polls);
            && r.state == After(c, polls[..r.used])
            && (r.over <==> r.state.handshakeDone || r.state.error || LastFailed(c, polls, r.used))
            && (!r.over ==> r.used == |polls|)
            && forall k :: 0 <= k < r.used ==>
                 var before := After(c, polls[..k]);
                 !before.handshakeDone && !before.error && !LastFailed(c, polls, k)
  {
    hide Wait, After, DispatchEvents;
    WaitEnds(c, ForHandshake, polls);
    var r := Wait(c, ForHandshake, polls);
    AwaitedWell(c, ForHandshake, polls, r);
    forall k | 0 <= k < r.used
      ensures var before := After(c, polls[..k]); !before.handshakeDone && !before.error && !LastFailed(c, polls, k)
    {
      assert !Ends(c, ForHandshake, polls, k);
    }
  }

  /** waitForObject: exactly when the object has its id or an error was raised, failed dispatches or not. */
  lemma ObjectIsAwaited(c: ClientState, slot: nat, polls: seq<Polled>)
    requires slot < |c.objects|
    ensures var r := Wait(c, ForObject(slot), polls);
            && r.state == After(c, polls[..r.used])
            && (r.over <==> r.state.error || (slot < |r.state.objects| && r.state.objects[slot].id != 0))
            && (!r.over ==> r.used == |polls|)
            && forall k :: 0 <= k < r.used ==>
                 var before := After(c, polls[..k]);
                 !before.error && (slot < |before.objects| ==> before.objects[slot].id == 0)
  {
    hide Wait, After, DispatchEvents;
    WaitEnds(c, ForObject(slot), polls);
    var r := Wait(c, ForObject(slot), polls);
    AwaitedWell(c, ForObject(slot), polls, r);
    forall k | 0 <= k < r.used
      ensures var before := After(c, polls[..k]);
              !before.error && (slot < |before.objects| ==> before.objects[slot].id == 0)
    {
      assert !Ends(c, ForObject(slot), polls, k);
    }
  }

  lemma AwaitedWell(c: ClientState, wish: Wish, polls: seq<Polled>, r: Waited)
    requires r == Wait(c, wish, polls) && r.state == After(c, polls[..r.used])
    requires r.over <==> exists k :: 0 <= k <= |polls| && Ends(c, wish, polls, k)
    requires r.over ==> Ends(c, wish, polls, r.used)
    ensures r.over <==> Granted(r.state, wish) || GivesUp(r.state, wish)
                        || (!Insists(wish) && LastFailed(c, polls, r.used))
  {
    hide Wait, After, DispatchEvents, Granted, GivesUp, Insists;
    if Granted(r.state, wish) || GivesUp(r.state, wish) || (!Insists(wish) && LastFailed(c, polls, r.used)) {
      assert Ends(c, wish, polls, r.used);
    }
  }

  /** What one poll does to a client that is not in error, and when the dispatch of it succeeds. */
  lemma PollDoes(c: ClientState, block: bool, p: Polled)
    requires !c.error
    ensures var d := DispatchEvents(c, block, p);
            && (p.TimedOut? && block && !c.handshakeDone ==> !d.ok && d.state == c.(error := true, connected := false))
            && (p.TimedOut? && !(block && !c.handshakeDone) ==> d.ok && d.state == c)
            && (p.HungUp? ==> !d.ok && d.state == c)
            && (p.Idle? ==> d.ok && d.state == c)
            && (p.Readable? && p.bad ==> !d.ok && d.state == c.(error := true, connected := false))
            && (p.Readable? && !p.bad && p.data == [] ==> !d.ok && d.state == c)
            && (p.Readable? && !p.bad && p.data != [] ==>
                  d.state == ClientDispatch(c, p.data, p.fds) && (d.ok <==> !d.state.error))
  {
    hide ClientDispatch;
  }

  /** A client in error polls no more. */
  lemma ErrorStays(c: ClientState, block: bool, p: Polled)
    requires c.error
    ensures DispatchEvents(c, block, p) == Dispatched(false, c)
  {}

  /** A handshake that is not done in time ends the connection, whatever had come before. */
  lemma LateHandshakeDisconnects(c: ClientState, polls: seq<Polled>, k: nat)
    requires k < |polls| && polls[k].TimedOut?
    ensures var r := Wait(c, ForHandshake, polls);
            && r.over && r.used <= k + 1
            && (r.used == k + 1 && !r.state.handshakeDone ==> r.state.error && !r.state.connected)
  {
    hide Wait, After;
    WaitEnds(c, ForHandshake, polls);
    var r := Wait(c, ForHandshake, polls);
    var before := After(c, polls[..k]);
    assert Ends(c, ForHandshake, polls, k) || Fails(c, polls, k);
    if Fails(c, polls, k) { assert Ends(c, ForHandshake, polls, k + 1); }
    if r.used == k + 1 {
      assert !Ends(c, ForHandshake, polls, k);
      AfterNext(c, polls, k);
    }
  }

  lemma {:induction false} AfterNext(c: ClientState, polls: seq<Polled>, k: nat)
    requires k < |polls|
    ensures After(c, polls[..k + 1]) == DispatchEvents(After(c, polls[..k]), true, polls[k]).state
    decreases k
  {
    hide DispatchEvents;
    if k == 0 {
      AfterNone(c, polls);
      AfterOne(c, polls, 1);
      AfterNone(DispatchEvents(c, true, polls[0]).state, polls[1..]);
    } else {
      AfterNext(DispatchEvents(c, true, polls[0]).state, polls[1..], k - 1);
      AfterOne(c, polls, k + 1);
      AfterOne(c, polls, k);
    }
  }

  /**
    waitForObject does not see that the server has gone: hangups alone, however many, change nothing, and
    it polls on unless the id or an error was there before.
   */
  lemma {:induction false} HangupIsWaitedOut(c: ClientState, slot: nat, polls: seq<Polled>)
    requires slot < |c.objects| && forall p :: p in polls ==> p.HungUp?
    ensures var r := Wait(c, ForObject(slot), polls);
            && r.state == c && (r.over <==> c.error || c.objects[slot].id != 0)
            && r.used == if r.over then 0 else |polls|
    decreases |polls|
  {
    if polls != [] {
      assert polls[0] in polls;
      HangupIsWaitedOut(c, slot, polls[1..]);
    }
  }

  /** The other two loops end with the first hangup, unless they have ended before. */
  lemma HangupEnds(c: ClientState, wish: Wish, polls: seq<Polled>, k: nat)
    requires !wish.ForObject? && k < |polls| && polls[k].HungUp?
    ensures Wait(c, wish, polls).over && Wait(c, wish, polls).used <= k + 1
  {
    hide After, Wait, Granted, GivesUp;
    WaitEnds(c, wish, polls);
    assert Fails(c, polls, k);
    assert Ends(c, wish, polls, k + 1);
  }
}
