/**
  The server's poll thread and its dispatcher. They share a flag, a pipe, two mutexes and a condition
  variable; a run is any interleaving of their steps, timeouts and the destructor's steps included.
 */
module EventLoop {
  /** Where the poll thread is. From `Marking` to `Committed` it holds the export mutex. */
  datatype Thread =
    | Starting      // at the head of its loop
    | Copying       // holds the poll mutex
    | Polling
    | Polled        // poll has returned
    | Entering      // wants the export mutex
    | Marking
    | Writing       // m_pollEvent is set, nothing written yet
    | Checking      // about to look at m_pollEvent, in wait_for
    | Committed     // has seen it set and is about to sleep
    | Parked        // asleep in wait_for, the export mutex released
    | Gone

  /** Where dispatchEvents is. It holds the poll mutex from `Serving` to `Drained`. */
  datatype Dispatcher =
    | Outside
    | Called        // wants the poll mutex
    | Serving
    | Draining      // in clearEventFd
    | Drained
    | Closing       // wants the export mutex
    | Acking        // holds it, m_pollEvent as it was
    | Acked         // holds it, m_pollEvent cleared, nobody notified yet

  datatype State = State(
    thread: Thread, dispatcher: Dispatcher,
    pollEvent: bool,        // m_pollEvent
    pipe: nat,              // octets in the export pipe
    notified: bool,         // the sleeping thread has been notified
    stopped: nat)           // steps the destructor has made

  const Init := State(Starting, Outside, false, 0, false, 0)

  predicate ThreadHoldsExport(t: Thread) { t.Marking? || t.Writing? || t.Checking? || t.Committed? }

  predicate ThreadHoldsPoll(t: Thread) { t.Copying? }

  predicate DispatcherHoldsExport(d: Dispatcher) { d.Acking? || d.Acked? }

  predicate DispatcherHoldsPoll(d: Dispatcher) { d.Serving? || d.Draining? || d.Drained? }

  predicate ExportFree(st: State) { !ThreadHoldsExport(st.thread) && !DispatcherHoldsExport(st.dispatcher) }

  predicate PollFree(st: State) { !ThreadHoldsPoll(st.thread) && !DispatcherHoldsPoll(st.dispatcher) }

  datatype Step =
    | ThreadLocks | ThreadQuits | ThreadCopied | ThreadPolled | ThreadLooks | ThreadEnters | ThreadMarks | ThreadWrites
    | ThreadChecks | ThreadParks | ThreadWakes | ThreadStirs | ThreadTimesOut
    | DispatchCalled | DispatchLocks | DispatchServed | DrainSome | DrainDone | DispatchUnlocks | DispatchEnters
    | DispatchAcks | DispatchNotifies
    | StopFlag | StopClears | StopNotifies

  /**
    `ThreadLocks` stays enabled behind a stop: the flag may have been looked at before it. `ThreadStirs`
    is a wake-up without a notification, which a condition variable is free to give.
   */
  predicate Enabled(st: State, step: Step) {
    match step
    case ThreadLocks => st.thread.Starting? && PollFree(st)
    case ThreadQuits => st.thread.Starting? && st.stopped > 0
    case ThreadCopied => st.thread.Copying?
    case ThreadPolled => st.thread.Polling?
    case ThreadLooks => st.thread.Polled?
    case ThreadEnters => st.thread.Entering? && ExportFree(st)
    case ThreadMarks => st.thread.Marking?
    case ThreadWrites => st.thread.Writing?
    case ThreadChecks => st.thread.Checking?
    case ThreadParks => st.thread.Committed?
    case ThreadWakes => st.thread.Parked? && st.notified && ExportFree(st)
    case ThreadStirs => st.thread.Parked? && ExportFree(st)
    case ThreadTimesOut => st.thread.Parked? && ExportFree(st)
    case DispatchCalled => st.dispatcher.Outside? && st.stopped == 0
    case DispatchLocks => st.dispatcher.Called? && PollFree(st)
    case DispatchServed => st.dispatcher.Serving?
    case DrainSome => st.dispatcher.Draining? && st.pipe > 0
    case DrainDone => st.dispatcher.Draining? && st.pipe == 0
    case DispatchUnlocks => st.dispatcher.Drained?
    case DispatchEnters => st.dispatcher.Closing? && ExportFree(st)
    case DispatchAcks => st.dispatcher.Acking?
    case DispatchNotifies => st.dispatcher.Acked?
    case StopFlag => st.dispatcher.Outside? && st.stopped == 0
    case StopClears => st.stopped == 1
    case StopNotifies => st.stopped == 2
  }

  /** clearFd reads up to 127 octets at a time. */
  const CHUNK := 127

  function Apply(st: State, step: Step): State
    requires Enabled(st, step)
  {
    match step
    case ThreadLocks => st.(thread := Copying)
    case ThreadQuits => st.(thread := Gone)
    case ThreadCopied => st.(thread := Polling)
    case ThreadPolled => st.(thread := Polled)
    case ThreadLooks => if st.stopped > 0 then st.(thread := Gone) else st.(thread := Entering)
    case ThreadEnters => st.(thread := Marking)
    case ThreadMarks => st.(thread := Writing, pollEvent := true)
    case ThreadWrites => st.(thread := Checking, pipe := st.pipe + 1)
    case ThreadChecks => if st.pollEvent then st.(thread := Committed) else st.(thread := Starting)
    case ThreadParks => st.(thread := Parked, notified := false)
    case ThreadWakes => st.(thread := Checking, notified := false)
    case ThreadStirs => st.(thread := Checking, notified := false)
    case ThreadTimesOut => st.(thread := Starting, notified := false)
    case DispatchCalled => st.(dispatcher := Called)
    case DispatchLocks => st.(dispatcher := Serving)
    case DispatchServed => st.(dispatcher := Draining)
    case DrainSome => st.(pipe := if st.pipe > CHUNK then st.pipe - CHUNK else 0)
    case DrainDone => st.(dispatcher := Drained)
    case DispatchUnlocks => st.(dispatcher := Closing)
    case DispatchEnters => st.(dispatcher := Acking)
    case DispatchAcks => st.(dispatcher := Acked, pollEvent := false)
    case DispatchNotifies => st.(dispatcher := Outside, notified := st.notified || st.thread.Parked?)
    case StopFlag => st.(stopped := 1)
    case StopClears => st.(stopped := 2, pollEvent := false)
    case StopNotifies => st.(stopped := 3, notified := st.notified || st.thread.Parked?)
  }

  ghost predicate Runs(st: State, steps: seq<Step>, end: State)
    decreases |steps|
  {
    if steps == [] then st == end
    else Enabled(st, steps[0]) && Runs(Apply(st, steps[0]), steps[1..], end)
  }

  // ---- the invariant ------------------------------------------------------------------------

  /** The dispatcher is between draining the pipe and acknowledging. */
  predicate WillAcknowledge(d: Dispatcher) { d.Draining? || d.Drained? || d.Closing? || d.Acking? }

  predicate Inv(st: State) {
    && !(ThreadHoldsExport(st.thread) && DispatcherHoldsExport(st.dispatcher))
    && !(ThreadHoldsPoll(st.thread) && DispatcherHoldsPoll(st.dispatcher))
    && (st.pollEvent && !st.thread.Writing? ==> st.pipe > 0 || WillAcknowledge(st.dispatcher))
    && (st.thread.Writing? || st.thread.Committed? ==> st.pollEvent || st.stopped >= 2)
    && (st.thread.Parked? && !st.pollEvent && !st.notified ==> st.dispatcher.Acked? || st.stopped >= 2)
    && (st.dispatcher.Acked? ==> !st.pollEvent)
    && (st.stopped > 0 ==> st.dispatcher.Outside?)
  }

  predicate ByDispatcher(step: Step) {
    step.DispatchCalled? || step.DispatchLocks? || step.DispatchServed? || step.DrainSome? || step.DrainDone?
    || step.DispatchUnlocks? || step.DispatchEnters? || step.DispatchAcks? || step.DispatchNotifies?
  }

  predicate ByStopper(step: Step) { step.StopFlag? || step.StopClears? || step.StopNotifies? }

  lemma DispatcherKeeps(st: State, step: Step)
    requires Inv(st) && Enabled(st, step) && ByDispatcher(step)
    ensures Inv(Apply(st, step))
  {}

  lemma StopperKeeps(st: State, step: Step)
    requires Inv(st) && Enabled(st, step) && ByStopper(step)
    ensures Inv(Apply(st, step))
  {}

  lemma ThreadKeeps(st: State, step: Step)
    requires Inv(st) && Enabled(st, step) && !ByDispatcher(step) && !ByStopper(step)
    ensures Inv(Apply(st, step))
  {}

  lemma StepKeeps(st: State, step: Step)
    requires Inv(st) && Enabled(st, step)
    ensures Inv(Apply(st, step))
  {
    hide Inv, Enabled, Apply, ByDispatcher, ByStopper;
    if ByDispatcher(step) {
      DispatcherKeeps(st, step);
    } else if ByStopper(step) {
      StopperKeeps(st, step);
    } else {
      ThreadKeeps(st, step);
    }
  }

  lemma {:induction false} RunKeeps(st: State, steps: seq<Step>, end: State)
    requires Inv(st) && Runs(st, steps, end)
    ensures Inv(end)
    decreases |steps|
  {
    hide Inv, Apply, Enabled;
    if steps != [] {
      StepKeeps(st, steps[0]);
      RunKeeps(Apply(st, steps[0]), steps[1..], end);
    }
  }

  /** No two hold a mutex, in any reachable state. */
  lemma MutualExclusion(steps: seq<Step>, st: State)
    requires Runs(Init, steps, st)
    ensures !(ThreadHoldsExport(st.thread) && DispatcherHoldsExport(st.dispatcher))
    ensures !(ThreadHoldsPoll(st.thread) && DispatcherHoldsPoll(st.dispatcher))
  {
    RunKeeps(Init, steps, st);
  }

  /**
    An event that is pending is known of: whenever m_pollEvent is set, outside of the two statements of
    the thread that set it and write to the pipe, the exported descriptor is readable or the dispatcher
    is on its way from draining it to the acknowledgement.
   */
  lemma PendingEventIsVisible(steps: seq<Step>, st: State)
    requires Runs(Init, steps, st)
    ensures st.pollEvent && !st.thread.Writing? ==> st.pipe > 0 || WillAcknowledge(st.dispatcher)
  {
    RunKeeps(Init, steps, st);
  }

  /**
    No sleeping poll thread is forgotten, while the socket lives: it has been notified, or the
    dispatcher is about to notify it, or the exported descriptor is readable.
   */
  lemma NoParkedThreadIsForgotten(steps: seq<Step>, st: State)
    requires Runs(Init, steps, st) && st.thread.Parked? && st.stopped < 2
    ensures st.notified || WillAcknowledge(st.dispatcher) || st.dispatcher.Acked? || st.pipe > 0
  {
    RunKeeps(Init, steps, st);
  }

  /** The thread is in wait_for. */
  predicate Waiting(t: Thread) { t.Checking? || t.Committed? || t.Parked? }

  /**
    An event is not raised twice: until the dispatcher acknowledges it, the destructor clears it or the wait
    times out, the thread stays in its wait, stray wake-ups and notifications notwithstanding, and nothing
    is written to the pipe.
   */
  lemma {:induction false} EventIsAwaited(st: State, steps: seq<Step>, end: State)
    requires Waiting(st.thread) && st.pollEvent && Runs(st, steps, end)
    requires forall s :: s in steps ==> !s.DispatchAcks? && !s.StopClears? && !s.ThreadTimesOut?
    ensures Waiting(end.thread) && end.pollEvent && end.pipe <= st.pipe
    decreases |steps|
  {
    if steps != [] {
      assert steps[0] in steps;
      EventIsAwaited(Apply(st, steps[0]), steps[1..], end);
    }
  }

  /**
    The acknowledgement is one piece to the thread: from where the dispatcher has the export mutex until it
    has notified, nothing enters or leaves the wait, by timeout or otherwise.
   */
  lemma {:induction false} AcknowledgedInOnePiece(st: State, steps: seq<Step>, end: State)
    requires DispatcherHoldsExport(st.dispatcher) && !ThreadHoldsExport(st.thread) && Runs(st, steps, end)
    requires forall s :: s in steps ==> !s.DispatchNotifies?
    ensures DispatcherHoldsExport(end.dispatcher) && !ThreadHoldsExport(end.thread)
    ensures st.thread.Parked? <==> end.thread.Parked?
    decreases |steps|
  {
    if steps != [] {
      assert steps[0] in steps;
      AcknowledgedInOnePiece(Apply(st, steps[0]), steps[1..], end);
    }
  }

  /** The thread ends only once the destructor has begun. */
  lemma {:induction false} ThreadServesOn(st: State, steps: seq<Step>, end: State)
    requires Runs(st, steps, end) && (st.thread.Gone? ==> st.stopped > 0)
    ensures end.thread.Gone? ==> end.stopped > 0
    decreases |steps|
  {
    if steps != [] { ThreadServesOn(Apply(st, steps[0]), steps[1..], end); }
  }

  // ---- progress -------------------------------------------------------------------------------

  function Phase(d: Dispatcher): nat {
    match d
    case Outside => 8 case Called => 7 case Serving => 6 case Draining => 5
    case Drained => 4 case Closing => 3 case Acking => 2 case Acked => 1
  }

  function NextOfDispatcher(st: State): Step {
    match st.dispatcher
    case Outside => DispatchCalled
    case Called => DispatchLocks
    case Serving => DispatchServed
    case Draining => if st.pipe > 0 then DrainSome else DrainDone
    case Drained => DispatchUnlocks
    case Closing => DispatchEnters
    case Acking => DispatchAcks
    case Acked => DispatchNotifies
  }

  /**
    Wherever the dispatcher is, a sleeping thread does not stand in its way: steps of the dispatcher
    alone, at most one for each octet in the pipe and eight more, end with the thread notified, the event
    cleared and, if it had not drained the pipe before, the pipe empty.
   */
  lemma {:induction false} DispatchReleases(st: State) returns (steps: seq<Step>, end: State)
    requires Inv(st) && st.thread.Parked? && st.stopped == 0
    ensures Runs(st, steps, end) && forall s :: s in steps ==> ByDispatcher(s)
    ensures |steps| <= Phase(st.dispatcher) + st.pipe
    ensures end.thread.Parked? && end.notified && end.dispatcher.Outside? && !end.pollEvent
    ensures end.pipe == if Phase(st.dispatcher) >= 5 then 0 else st.pipe
    decreases Phase(st.dispatcher), st.pipe
  {
    var step := NextOfDispatcher(st);
    var next := Apply(st, step);
    StepKeeps(st, step);
    if st.dispatcher.Acked? {
      steps, end := [step], next;
      assert steps[1..] == [];
    } else {
      steps, end := DispatchReleases(next);
      assert ([step] + steps)[1..] == steps;
      steps := [step] + steps;
    }
  }

  /** clearEventFd takes one read for every 127 octets begun, and leaves nothing in the pipe. */
  lemma {:induction false} DrainReads(st: State, steps: seq<Step>, end: State)
    requires st.dispatcher.Draining? && Runs(st, steps, end) && end.dispatcher.Drained?
    requires forall s :: s in steps ==> s.DrainSome? || s.DrainDone?
    ensures end == st.(dispatcher := Drained, pipe := 0) && |steps| == (st.pipe + 126) / 127 + 1
    decreases |steps|
  {
    assert steps[0] in steps;
    var next := Apply(st, steps[0]);
    if steps[0].DrainSome? {
      DrainReads(next, steps[1..], end);
    } else {
      DrainIsOver(next, steps[1..], end);
    }
  }

  lemma DrainIsOver(st: State, steps: seq<Step>, end: State)
    requires st.dispatcher.Drained? && Runs(st, steps, end)
    requires forall k :: 0 <= k < |steps| ==> steps[k].DrainSome? || steps[k].DrainDone?
    ensures steps == [] && end == st
  {}

  predicate HoldsNothing(t: Thread) { !ThreadHoldsExport(t) && !ThreadHoldsPoll(t) }

  predicate ByThread(step: Step) {
    step.ThreadCopied? || step.ThreadMarks? || step.ThreadWrites? || step.ThreadChecks? || step.ThreadParks?
  }

  function Depth(t: Thread): nat {
    match t case Marking => 4 case Writing => 3 case Checking => 2 case Committed => 1 case Copying => 1 case _ => 0
  }

  /** The thread never keeps a mutex for long: at most four steps of its own, and it holds none. */
  lemma {:induction false} LocksAreReleased(st: State) returns (steps: seq<Step>, end: State)
    ensures Runs(st, steps, end) && |steps| <= Depth(st.thread) <= 4 && forall s :: s in steps ==> ByThread(s)
    ensures HoldsNothing(end.thread) && end.dispatcher == st.dispatcher
    decreases Depth(st.thread)
  {
    if HoldsNothing(st.thread) {
      steps, end := [], st;
    } else {
      var step := match st.thread case Copying => ThreadCopied case Marking => ThreadMarks case Writing => ThreadWrites
                                  case Checking => ThreadChecks case _ => ThreadParks;
      steps, end := LocksAreReleased(Apply(st, step));
      assert ([step] + steps)[1..] == steps;
      steps := [step] + steps;
    }
  }

  // ---- the destructor ---------------------------------------------------------------------------

  lemma {:induction false} Joined(a: State, first: seq<Step>, b: State, second: seq<Step>, c: State)
    requires Runs(a, first, b) && Runs(b, second, c)
    ensures Runs(a, first + second, c)
    decreases |first|
  {
    if first == [] {
      assert first + second == second;
    } else {
      assert (first + second)[0] == first[0] && (first + second)[1..] == first[1..] + second;
      Joined(Apply(a, first[0]), first[1..], b, second, c);
    }
  }

  lemma OneStep(a: State, step: Step)
    requires Enabled(a, step)
    ensures Runs(a, [step], Apply(a, step))
  {
    assert [step][1..] == [];
  }

  const Woken := State(Entering, Outside, false, 0, false, 0)

  lemma ThreadEnters()
    ensures Runs(Init, [ThreadLocks, ThreadCopied, ThreadPolled, ThreadLooks], Woken)
  {
    hide Runs;
    FourSteps(Init, ThreadLocks, ThreadCopied, ThreadPolled, ThreadLooks);
  }

  const AboutToSleep := State(Committed, Outside, true, 1, false, 0)

  lemma ThreadCommits()
    ensures Runs(Woken, [Step.ThreadEnters, ThreadMarks, ThreadWrites, ThreadChecks], AboutToSleep)
  {
    hide Runs;
    FourSteps(Woken, Step.ThreadEnters, ThreadMarks, ThreadWrites, ThreadChecks);
  }

  lemma FourSteps(a: State, s1: Step, s2: Step, s3: Step, s4: Step)
    requires Enabled(a, s1) && Enabled(Apply(a, s1), s2) && Enabled(Apply(Apply(a, s1), s2), s3)
    requires Enabled(Apply(Apply(Apply(a, s1), s2), s3), s4)
    ensures Runs(a, [s1, s2, s3, s4], Apply(Apply(Apply(Apply(a, s1), s2), s3), s4))
  {
    hide Enabled, Apply;
    var b := Apply(a, s1);
    var c := Apply(b, s2);
    var d := Apply(c, s3);
    OneStep(d, s4);
    assert [s3, s4][1..] == [s4] && [s2, s3, s4][1..] == [s3, s4] && [s1, s2, s3, s4][1..] == [s2, s3, s4];
    assert Runs(c, [s3, s4], Apply(d, s4));
    assert Runs(b, [s2, s3, s4], Apply(d, s4));
  }

  /** A step the thread takes by itself: no timeout, and no wake-up that nobody called for. */
  predicate OfItself(step: Step) {
    !ByDispatcher(step) && !ByStopper(step) && !step.ThreadTimesOut? && !step.ThreadStirs?
  }

  /** Nothing but a timeout or a stray wake-up moves the thread. */
  predicate AtRest(st: State) { (st.thread.Parked? && !st.notified) || st.thread.Gone? }

  /**
    Where the destructor's notification passes the thread by: between the look at the flag that lets it
    in and its falling asleep, where it sets the event again or has seen it set; and asleep, if it was
    not notified or will find the event set.
   */
  predicate Missed(st: State) {
    || st.thread.Entering? || st.thread.Marking? || st.thread.Committed?
    || ((st.thread.Writing? || st.thread.Checking?) && st.pollEvent)
    || (st.thread.Parked? && (!st.notified || st.pollEvent))
  }

  lemma RestMeansNoStep(st: State)
    requires Inv(st) && st.stopped == 3
    ensures AtRest(st) <==> forall step :: Enabled(st, step) ==> !OfItself(step)
  {
    if !AtRest(st) {
      assert Enabled(st, OwnStep(st)) && OfItself(OwnStep(st));
    }
  }

  function OwnStep(st: State): Step {
    match st.thread
    case Starting => ThreadQuits
    case Copying => ThreadCopied
    case Polling => ThreadPolled
    case Polled => ThreadLooks
    case Entering => Step.ThreadEnters
    case Marking => ThreadMarks
    case Writing => ThreadWrites
    case Checking => ThreadChecks
    case Committed => ThreadParks
    case Parked => ThreadWakes
    case Gone => ThreadQuits
  }

  /** A step of its own changes nothing about the thread's fate. */
  lemma FateStays(st: State, step: Step)
    requires Inv(st) && st.stopped == 3 && Enabled(st, step) && OfItself(step)
    ensures Inv(Apply(st, step)) && Apply(st, step).stopped == 3 && (Missed(Apply(st, step)) <==> Missed(st))
  {
    StepKeeps(st, step);
  }

  lemma {:induction false} FateOfRun(st: State, steps: seq<Step>, end: State)
    requires Inv(st) && st.stopped == 3 && Runs(st, steps, end) && forall s :: s in steps ==> OfItself(s)
    ensures Inv(end) && end.stopped == 3 && (Missed(end) <==> Missed(st))
    decreases |steps|
  {
    hide Inv, Enabled, Apply, Missed, OfItself;
    if steps != [] {
      FateStays(st, steps[0]);
      FateOfRun(Apply(st, steps[0]), steps[1..], end);
    }
  }

  /** Steps the thread has left at most before it rests. */
  function Left(st: State): nat {
    match st.thread
    case Entering => 5 case Marking => 4
    case Writing => if st.pollEvent then 3 else 7
    case Checking => if st.pollEvent then 2 else 6
    case Committed => 1
    case Parked => if !st.notified then 0 else if st.pollEvent then 3 else 7
    case Starting => 5 case Copying => 4 case Polling => 3 case Polled => 2
    case Gone => 0
  }

  lemma OwnStepMoves(st: State)
    requires Inv(st) && st.stopped == 3 && !AtRest(st)
    ensures Enabled(st, OwnStep(st)) && OfItself(OwnStep(st)) && Left(Apply(st, OwnStep(st))) < Left(st)
  {}

  lemma {:induction false} RestIsReached(st: State) returns (steps: seq<Step>, end: State)
    requires Inv(st) && st.stopped == 3
    ensures Runs(st, steps, end) && AtRest(end) && |steps| <= Left(st) && forall s :: s in steps ==> OfItself(s)
    decreases Left(st)
  {
    hide Inv, Enabled, Apply, OfItself, AtRest, OwnStep, Left;
    if AtRest(st) {
      steps, end := [], st;
    } else {
      var step := OwnStep(st);
      OwnStepMoves(st);
      FateStays(st, step);
      steps, end := RestIsReached(Apply(st, step));
      assert ([step] + steps)[1..] == steps;
      steps := [step] + steps;
    }
  }

  /**
    Exactly when the destructor, which clears the event and notifies without the export mutex, is
    missed. Once it waits to join, the thread's own steps come to rest within seven, and however they
    go: asleep with no notification to come if and only if `Missed` holds now, and gone otherwise.
   */
  lemma StopIsMissedExactly(steps: seq<Step>, st: State)
    requires Runs(Init, steps, st) && st.stopped == 3
    ensures exists more, end ::
              Runs(st, more, end) && AtRest(end) && |more| <= 7 && forall s :: s in more ==> OfItself(s)
    ensures forall more, end :: Runs(st, more, end) && AtRest(end) && (forall s :: s in more ==> OfItself(s)) ==>
              && (Missed(st) <==> end.thread.Parked? && !end.notified)
              && (!Missed(st) <==> end.thread.Gone?)
  {
    hide Runs, Inv, Enabled, Apply, OfItself;
    InitHolds();
    RunKeeps(Init, steps, st);
    var more, end := RestIsReached(st);
    forall more, end | Runs(st, more, end) && AtRest(end) && (forall s :: s in more ==> OfItself(s))
      ensures (Missed(st) <==> end.thread.Parked? && !end.notified) && (!Missed(st) <==> end.thread.Gone?)
    {
      FateOfRun(st, more, end);
    }
  }

  /**
    What the destructor's notification reaches, told from the state it is given in: within seven steps of
    its own the thread is gone, but if it is on its way to sleep with the event set, or asleep with it set.
   */
  lemma NotificationReaches(steps: seq<Step>, st: State)
    requires Runs(Init, steps, st) && st.stopped == 2
    ensures Enabled(st, StopNotifies)
    ensures exists more, end :: Runs(Apply(st, StopNotifies), more, end) && AtRest(end) && |more| <= 7
                && forall s :: s in more ==> OfItself(s)
    ensures forall more, end ::
              Runs(Apply(st, StopNotifies), more, end) && AtRest(end) && (forall s :: s in more ==> OfItself(s)) ==>
                (end.thread.Gone? <==>
                 match st.thread
                 case Entering => false
                 case Marking => false
                 case Committed => false
                 case Writing => !st.pollEvent
                 case Checking => !st.pollEvent
                 case Parked => !st.pollEvent
                 case _ => true)
  {
    hide Runs;
    var next := Apply(st, StopNotifies);
    OneStep(st, StopNotifies);
    Joined(Init, steps, st, [StopNotifies], next);
    StopIsMissedExactly(steps + [StopNotifies], next);
  }

  lemma InitHolds()
    ensures Inv(Init)
  {}

  /** A thread that was missed is ended by the timeout of its wait. */
  lemma TimeoutEndsIt(st: State)
    requires Inv(st) && st.stopped == 3 && st.thread.Parked?
    ensures Enabled(st, ThreadTimesOut) && Enabled(Apply(st, ThreadTimesOut), ThreadQuits)
    ensures Apply(Apply(st, ThreadTimesOut), ThreadQuits).thread.Gone?
  {}

  /** A run in which it is missed: the thread has seen the event set when the destructor clears it. */
  lemma StopMayBeMissed() returns (steps: seq<Step>, st: State)
    ensures Runs(Init, steps, st) && st.thread.Parked? && !st.pollEvent && !st.notified && st.stopped == 3
    ensures Missed(st)
  {
    hide Enabled, Apply, Runs;
    ThreadEnters();
    ThreadCommits();
    Overlooked();
    var a := [ThreadLocks, ThreadCopied, ThreadPolled, ThreadLooks];
    var b := [Step.ThreadEnters, ThreadMarks, ThreadWrites, ThreadChecks];
    var c := [StopFlag, StopClears, StopNotifies, ThreadParks];
    st := State(Parked, Outside, false, 1, false, 3);
    Joined(Init, a, Woken, b, AboutToSleep);
    Joined(Init, a + b, AboutToSleep, c, st);
    steps := a + b + c;
  }

  lemma Overlooked()
    ensures Runs(AboutToSleep, [StopFlag, StopClears, StopNotifies, ThreadParks],
                 State(Parked, Outside, false, 1, false, 3))
  {
    hide Runs;
    FourSteps(AboutToSleep, StopFlag, StopClears, StopNotifies, ThreadParks);
  }
}
