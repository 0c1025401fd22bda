/** Closing the HAL: wifi_cleanup on one thread, the event loop leaving on another. Every read and
    write of a shared flag or socket is its own step, except that entering the loop is one step. */
module Teardown {
  import opened Runs

  datatype LoopPc =
    | Out            // not in wifi_event_loop
    | Polling        // inside the do-while
    | Exiting        // past the do-while, in_event_loop still true
    | Leaving        // in_event_loop cleared, clean_up not yet tested
    | LoopFreeing    // saw clean_up, in wifi_internal_cleanup before free
    | LoopClosing    // after free, before the exit sockets are closed

  datatype CleanerPc =
    | NotCalled
    | Flagged        // clean_up set, in_event_loop not yet read
    | SawLoop        // read in_event_loop as true, exit_sockets[0] not yet read
    | Signalling     // read exit_sockets[0] as open, not yet written to
    | Freeing        // took the else branch, in wifi_internal_cleanup before free
    | Closing
    | Done

  /** signalled: a byte 'T' is waiting in the exit socket. cleanups counts frees of the handle.
      overlapped is a history variable, see Overlap. */
  datatype State = State(
    inEventLoop: bool, cleanUp: bool, socketOpen: bool, signalled: bool,
    loop: LoopPc, cleaner: CleanerPc,
    cleanups: nat, overlapped: bool)

  datatype PollOutcome = Interrupted | PollError | ExitSignal | SignalReadError | DriverEvent | Unknown

  datatype Step =
    | EnterLoop(socketpairOk: bool)
    | Turn(outcome: PollOutcome)        // one pass of the do-while
    | ClearInLoop | TestCleanUp | LoopFree | LoopClose
    | SetCleanUp | TestInLoop | TestSocket | WriteSignal | CleanerFree | CleanerClose

  predicate Init(s: State) {
    s == State(false, false, false, false, Out, NotCalled, 0, false)
  }

  predicate IsLoopStep(step: Step) {
    step.EnterLoop? || step.Turn? || step.ClearInLoop? || step.TestCleanUp? || step.LoopFree? || step.LoopClose?
  }

  /** The handle is not used for a new loop once a thread has decided to free it. */
  predicate Enabled(s: State, step: Step) {
    match step
    case EnterLoop(_) => s.loop == Out && s.cleanups == 0 && s.cleaner != Freeing
    case Turn(outcome) => s.loop == Polling && (outcome == ExitSignal ==> s.signalled)
    case ClearInLoop => s.loop == Exiting
    case TestCleanUp => s.loop == Leaving
    case LoopFree => s.loop == LoopFreeing
    case LoopClose => s.loop == LoopClosing
    case SetCleanUp => s.cleaner == NotCalled
    case TestInLoop => s.cleaner == Flagged
    case TestSocket => s.cleaner == SawLoop
    case WriteSignal => s.cleaner == Signalling
    case CleanerFree => s.cleaner == Freeing
    case CleanerClose => s.cleaner == Closing
  }

  function CloseSockets(s: State): State {
    s.(socketOpen := false, signalled := false)
  }

  function Exec(s: State, step: Step): State
    requires Enabled(s, step)
  {
    match step
    case EnterLoop(ok) =>
      if s.inEventLoop || !ok then s
      else s.(inEventLoop := true, socketOpen := true, signalled := false, loop := Polling)
    case Turn(outcome) =>
      var breaks := outcome.PollError? || outcome.ExitSignal? || outcome.SignalReadError?;
      var s' := if outcome.ExitSignal? then s.(signalled := false) else s;
      if breaks || s.cleanUp then s'.(loop := Exiting) else s'
    case ClearInLoop => s.(inEventLoop := false, loop := Leaving)
    case TestCleanUp => s.(loop := if s.cleanUp then LoopFreeing else Out)
    case LoopFree => s.(cleanups := s.cleanups + 1, loop := LoopClosing)
    case LoopClose => CloseSockets(s).(loop := Out)
    case SetCleanUp => s.(cleanUp := true, cleaner := Flagged)
    case TestInLoop => s.(cleaner := if s.inEventLoop then SawLoop else Freeing)
    case TestSocket => s.(cleaner := if s.socketOpen then Signalling else Freeing)
    case WriteSignal => s.(signalled := s.socketOpen, cleaner := Done)
    case CleanerFree => s.(cleanups := s.cleanups + 1, cleaner := Closing)
    case CleanerClose => CloseSockets(s).(cleaner := Done)
  }

  /** The two threads stand where they must not: wifi_cleanup between setting clean_up and reading
      in_event_loop while the loop is between clearing in_event_loop and testing clean_up; or
      wifi_cleanup between its two reads while the loop is all the way out, its sockets closed. */
  predicate Overlap(s: State) {
    || (s.cleaner == Flagged && s.loop == Leaving)
    || (s.cleaner == SawLoop && s.loop == Out)
  }

  ghost predicate Next(s: State, step: Step, s': State) {
    Enabled(s, step) && var e := Exec(s, step); s' == e.(overlapped := s.overlapped || Overlap(e))
  }

  /** Frees of the handle that have happened or, once clean_up is set, are bound to: a thread on its
      way to free counts, and so does a loop that has not tested clean_up yet. */
  function Committed(s: State): nat {
    s.cleanups
    + (if s.loop == Polling || s.loop == Exiting || s.loop == Leaving || s.loop == LoopFreeing then 1 else 0)
    + (if s.cleaner == Freeing then 1 else 0)
  }

  predicate Inv(s: State) {
    && (s.inEventLoop <==> s.loop == Polling || s.loop == Exiting)
    && (s.cleanUp <==> s.cleaner != NotCalled)
    && (s.inEventLoop ==> s.socketOpen && !s.overlapped)
    && match s.cleaner
       case NotCalled => s.cleanups == 0 && !s.overlapped && s.loop != LoopFreeing && s.loop != LoopClosing
       case Flagged =>
         && Committed(s) == (if s.loop == Out && !s.overlapped then 0 else 1)
         && (!s.overlapped ==> s.inEventLoop || s.loop == Out)
       case SawLoop => Committed(s) == 1 && (s.overlapped <==> s.loop == Out) && (s.socketOpen <==> s.loop != Out)
       case Signalling => Committed(s) == 1 && !s.overlapped && (s.socketOpen || s.loop == Out)
       case Done => Committed(s) == (if s.overlapped then 2 else 1) && (s.loop == Polling ==> s.signalled)
       case _ =>
         && Committed(s) == (if s.overlapped then 2 else 1)
         && !s.inEventLoop && (!s.overlapped ==> s.loop == Out) && (s.cleaner == Closing ==> s.cleanups >= 1)
  }

  /** When a pass ends the loop: on a poll error, on the exit signal or on failing to read it, or when
      clean_up is set; an event from the driver, an interruption or an unknown event leaves it polling. */
  lemma TurnEndsIff(s: State, outcome: PollOutcome, s': State)
    requires Next(s, Turn(outcome), s')
    ensures s'.loop == Exiting <==> outcome in {PollError, ExitSignal, SignalReadError} || s.cleanUp
    ensures s'.loop != Exiting ==> s'.loop == Polling && s' == s.(overlapped := s'.overlapped)
    ensures s'.cleaner == s.cleaner && s'.cleanUp == s.cleanUp && s'.cleanups == s.cleanups
    ensures s'.inEventLoop == s.inEventLoop && s'.socketOpen == s.socketOpen
  {
  }

  /** However many such passes there are, the loop goes on until clean_up is set. */
  lemma {:induction false} PollingGoesOn(s: State, steps: seq<Step>, s': State)
    requires s.loop == Polling && !s.cleanUp && Run(Next, s, steps, s')
    requires forall i :: 0 <= i < |steps| ==> steps[i] in [Turn(DriverEvent), Turn(Interrupted), Turn(Unknown)]
    ensures s'.loop == Polling && !s'.cleanUp && s'.cleanups == s.cleanups
    decreases |steps|
  {
    if steps != [] {
      var s1 :| Next(s, steps[0], s1) && Run(Next, s1, steps[1..], s');
      assert steps[0].outcome != PollError;
      PollingGoesOn(s1, steps[1..], s');
    }
  }

  /** The loop is entered exactly when its exit sockets can be made; otherwise nothing changes. */
  lemma EnteredIff(s: State, ok: bool, s': State)
    requires Inv(s) && Next(s, EnterLoop(ok), s')
    ensures if ok then s'.loop == Polling && s'.inEventLoop && s'.socketOpen && !s'.signalled
            else s' == s.(overlapped := s'.overlapped)
  {
  }

  lemma LoopStepKeepsInv(s: State, step: Step, s': State)
    requires Inv(s) && Next(s, step, s') && IsLoopStep(step)
    ensures Inv(s')
  {
  }

  lemma CleanerStepKeepsInv(s: State, step: Step, s': State)
    requires Inv(s) && Next(s, step, s') && !IsLoopStep(step)
    ensures Inv(s')
  {
  }

  lemma RunKeepsInv(s0: State, steps: seq<Step>, s: State)
    requires Init(s0) && Run(Next, s0, steps, s)
    ensures Inv(s)
  {
    assert Inv(s0);
    hide Inv, Next;
    forall a, step, b | Inv(a) && Next(a, step, b) ensures Inv(b) {
      if IsLoopStep(step) {
        LoopStepKeepsInv(a, step, b);
      } else {
        CleanerStepKeepsInv(a, step, b);
      }
    }
    RunKeeps(Next, Inv, s0, steps, s);
  }

  /** When both threads are through, the handle was freed exactly once unless they overlapped: then it
      was freed twice. */
  lemma CleanedExactlyOnceIff(s0: State, steps: seq<Step>, s: State)
    requires Init(s0) && Run(Next, s0, steps, s)
    ensures s.cleanups <= if s.overlapped then 2 else 1
    ensures s.cleaner == Done && s.loop == Out ==> s.cleanups == (if s.overlapped then 2 else 1)
    ensures s.cleaner == NotCalled ==> s.cleanups == 0
  {
    RunKeepsInv(s0, steps, s);
  }

  /** After wifi_cleanup returned without freeing the handle, poll is sure to wake and whatever it
      reports ends the loop, whose next accesses free the handle. */
  lemma LoopFinishes(s0: State, steps: seq<Step>, s: State, outcome: PollOutcome, s1: State, s2: State, s3: State, s4: State)
    requires Init(s0) && Run(Next, s0, steps, s)
    requires s.cleaner == Done && s.loop == Polling
    requires Next(s, Turn(outcome), s1) && Next(s1, ClearInLoop, s2) && Next(s2, TestCleanUp, s3) && Next(s3, LoopFree, s4)
    ensures s.signalled && s.cleanups == 0 && s4.cleanups == 1
  {
    RunKeepsInv(s0, steps, s);
  }

  lemma Then(s0: State, steps: seq<Step>, s: State, step: Step) returns (steps': seq<Step>, s': State)
    requires Run(Next, s0, steps, s) && Enabled(s, step)
    ensures Run(Next, s0, steps', s') && Next(s, step, s')
  {
    var e := Exec(s, step);
    s' := e.(overlapped := s.overlapped || Overlap(e));
    steps' := steps + [step];
    RunOne(Next, s, step, s');
    RunConcat(Next, s0, steps, s, [step], s');
  }

  const FRESH: State := State(false, false, false, false, Out, NotCalled, 0, false)

  /** The first overlap happens: the loop breaks on a poll error while wifi_cleanup is being called. */
  lemma FreedTwiceExample() returns (steps: seq<Step>, s: State)
    ensures Init(FRESH) && Run(Next, FRESH, steps, s) && s.cleanups == 2
  {
    hide Run;
    steps, s := Entered();
    steps, s := Then(FRESH, steps, s, Turn(PollError));
    steps, s := Then(FRESH, steps, s, ClearInLoop);
    steps, s := Then(FRESH, steps, s, SetCleanUp);
    steps, s := Then(FRESH, steps, s, TestInLoop);
    steps, s := Then(FRESH, steps, s, CleanerFree);
    steps, s := Then(FRESH, steps, s, TestCleanUp);
    steps, s := Then(FRESH, steps, s, LoopFree);
  }

  /** And so does the second: wifi_cleanup finds the loop running but, by the time it looks at the exit
      socket, the loop has seen clean_up, freed the handle and closed the socket. */
  lemma SocketClosedExample() returns (steps: seq<Step>, s: State)
    ensures Run(Next, FRESH, steps, s) && s.cleanups == 2
  {
    hide Run;
    steps, s := Entered();
    steps, s := Then(FRESH, steps, s, SetCleanUp);
    steps, s := Then(FRESH, steps, s, TestInLoop);
    steps, s := Then(FRESH, steps, s, Turn(DriverEvent));
    steps, s := Then(FRESH, steps, s, ClearInLoop);
    steps, s := Then(FRESH, steps, s, TestCleanUp);
    steps, s := Then(FRESH, steps, s, LoopFree);
    steps, s := Then(FRESH, steps, s, LoopClose);
    steps, s := Then(FRESH, steps, s, TestSocket);
    steps, s := Then(FRESH, steps, s, CleanerFree);
  }

  lemma Entered() returns (steps: seq<Step>, s: State)
    ensures Run(Next, FRESH, steps, s) && s == State(true, false, true, false, Polling, NotCalled, 0, false)
  {
    assert Run(Next, FRESH, [], FRESH);
    steps, s := Then(FRESH, [], FRESH, EnterLoop(true));
  }

  // ---------------------------------------------------------------- with atomic steps

  datatype AtomicStep = Enter(socketpairOk: bool) | Pass(outcome: PollOutcome) | Exit | Cleanup

  ghost predicate LoopNext(s: State, step: Step, s': State) {
    Next(s, step, s') && IsLoopStep(step)
  }

  ghost predicate CleanerNext(s: State, step: Step, s': State) {
    Next(s, step, s') && !IsLoopStep(step)
  }

  /** Loop exit and wifi_cleanup each done without the other in between. */
  ghost predicate NextAtomic(s: State, step: AtomicStep, s': State) {
    match step
    case Enter(ok) => Next(s, EnterLoop(ok), s')
    case Pass(outcome) => Next(s, Turn(outcome), s')
    case Exit => s.loop == Exiting && s'.loop == Out && exists steps :: Run(LoopNext, s, steps, s')
    case Cleanup => s.cleaner == NotCalled && s'.cleaner == Done && exists steps :: Run(CleanerNext, s, steps, s')
  }

  /** The loop moves while wifi_cleanup is not in progress. */
  predicate CleanerResting(s: State) {
    Inv(s) && !s.overlapped && (s.cleaner == NotCalled || s.cleaner == Done)
  }

  /** wifi_cleanup moves while the loop is not leaving. */
  predicate LoopResting(s: State) {
    Inv(s) && !s.overlapped && (s.loop == Out || s.loop == Polling || s.loop == Exiting)
  }

  predicate AtomicInv(s: State) {
    CleanerResting(s) && LoopResting(s)
  }

  lemma LoopAlone(s: State, steps: seq<Step>, s': State)
    requires CleanerResting(s) && Run(LoopNext, s, steps, s')
    ensures CleanerResting(s')
  {
    forall a, step, b | CleanerResting(a) && LoopNext(a, step, b) ensures CleanerResting(b) {
      LoopStepKeepsInv(a, step, b);
    }
    RunKeeps(LoopNext, CleanerResting, s, steps, s');
  }

  lemma CleanerAlone(s: State, steps: seq<Step>, s': State)
    requires LoopResting(s) && Run(CleanerNext, s, steps, s')
    ensures LoopResting(s')
  {
    forall a, step, b | LoopResting(a) && CleanerNext(a, step, b) ensures LoopResting(b) {
      CleanerStepKeepsInv(a, step, b);
    }
    RunKeeps(CleanerNext, LoopResting, s, steps, s');
  }

  lemma AtomicStepKeepsInv(s: State, step: AtomicStep, s': State)
    requires AtomicInv(s) && NextAtomic(s, step, s')
    ensures AtomicInv(s')
  {
    match step
    case Enter(ok) => LoopStepKeepsInv(s, EnterLoop(ok), s');
    case Pass(outcome) => LoopStepKeepsInv(s, Turn(outcome), s');
    case Exit =>
      var steps :| Run(LoopNext, s, steps, s');
      LoopAlone(s, steps, s');
    case Cleanup =>
      var steps :| Run(CleanerNext, s, steps, s');
      CleanerAlone(s, steps, s');
  }

  /** If both were atomic, the handle would be freed at most once, and exactly once by the time
      wifi_cleanup has returned and the loop is left. */
  lemma AtomicRunCleansOnce(s0: State, steps: seq<AtomicStep>, s: State)
    requires Init(s0) && Run(NextAtomic, s0, steps, s)
    ensures s.cleanups <= 1
    ensures s.cleanups == 1 <==> s.cleaner == Done && s.loop == Out
  {
    assert AtomicInv(s0);
    forall a, step, b | AtomicInv(a) && NextAtomic(a, step, b) ensures AtomicInv(b) {
      AtomicStepKeepsInv(a, step, b);
    }
    RunKeeps(NextAtomic, AtomicInv, s0, steps, s);
  }
}
