/** What the lifetime invariant says of whole runs, and what happens when callers break the rules. */
module LifetimeRuns {
  import opened Prelude
  import opened Runs
  import opened Handlers
  import opened Commands
  import opened Lifetime
  import opened LifetimeSteps

  predicate Init(s: State) {
    s.lock == None && s.handlers == [] && s.cmds == [] && s.objs == map[] && s.threads == map[]
  }

  /** A step, whatever the callers do. */
  ghost predicate AnyStep(s: State, step: Step, s': State) {
    Enabled(s, step) && s' == Exec(s, step)
  }

  /** A step by callers that keep to the rules. */
  ghost predicate DisciplinedStep(s: State, step: Step, s': State) {
    Enabled(s, step) && Disciplined(s, step) && s' == Exec(s, step)
  }

  lemma CoreIsSafe(s: State)
    requires Core(s)
    ensures Safe(s)
  {
    forall t | Th(s, t).Running?
      ensures Alive(s, Th(s, t).cmd) && (Th(s, t).taken.Some? ==> Alive(s, Th(s, t).taken.value))
    {
      var c := Th(s, t).cmd;
      assert ThreadOk(s, t);
      if Th(s, t).role.Cancel? {
        assert OwnsRef(Th(s, t), c);
      } else if Th(s, t).role.Dispatch? {
        assert t in InFlight(s, c);
      }
    }
  }

  /** No use of a command, and so no callback, happens while its thread holds cb_lock; and the holder
      of cb_lock can always take its next step. */
  ghost predicate LockNeverStuck(s: State) {
    && (forall t: Tid :: Th(s, t).Running? && Th(s, t).body != [] && Th(s, t).body[0].Touch? ==> s.lock != Some(t))
    && (forall t :: s.lock == Some(t) ==> Enabled(s, Advance(t)) || exists path :: Enabled(s, Search(t, path)))
  }

  lemma CoreNeverStuck(s: State)
    requires Core(s)
    ensures LockNeverStuck(s)
  {
    forall t: Tid | Th(s, t).Running? && Th(s, t).body != [] && Th(s, t).body[0].Touch? ensures s.lock != Some(t) {
      assert LockDiscipline(s, t);
    }
    forall t | s.lock == Some(t)
      ensures Enabled(s, Advance(t)) || exists path :: Enabled(s, Search(t, path))
    {
      assert LockDiscipline(s, t) && ThreadOk(s, t);
      if Th(s, t).Searching? {
        var path: seq<Act> := [Unlock, Touch];
        assert Enabled(s, Search(t, path));
      }
    }
  }

  /** Every state of every disciplined run is safe, accounts for every reference, has each owner
      reference in one place and never wedges cb_lock. */
  lemma EveryRunIsSafe(s0: State, steps: seq<Step>, s: State)
    requires Init(s0) && Run(DisciplinedStep, s0, steps, s)
    ensures Safe(s) && Accounting(s) && SingleOwner(s) && LockNeverStuck(s)
  {
    RunKeepsInv(s0, steps, s);
    hide Safe, LockNeverStuck, Accounting, SingleOwner, EntriesOwned, IdsDistinct, LockDiscipline, ThreadOk;
    CoreIsSafe(s);
    CoreNeverStuck(s);
  }

  lemma DisciplinedStepKeepsInv(a: State, step: Step, b: State)
    requires Inv(a) && DisciplinedStep(a, step, b)
    ensures Inv(b)
  {
    hide Inv;
    StepKeepsInv(a, step);
  }

  lemma InitInv(s: State)
    requires Init(s)
    ensures Inv(s) && Core(s)
  {
  }

  lemma RunKeepsInv(s0: State, steps: seq<Step>, s: State)
    requires Init(s0) && Run(DisciplinedStep, s0, steps, s)
    ensures Inv(s)
  {
    hide Inv, DisciplinedStep;
    InitInv(s0);
    forall a, step, b | Inv(a) && DisciplinedStep(a, step, b) ensures Inv(b) {
      DisciplinedStepKeepsInv(a, step, b);
    }
    RunKeeps(DisciplinedStep, Inv, s0, steps, s);
  }

  /** A step by callers that keep rules (2) and (3), in which no completion takes another command. */
  ghost predicate LooseStep(s: State, step: Step, s': State) {
    Enabled(s, step) && Loose(s, step) && s' == Exec(s, step)
  }

  lemma LooseStepKeepsCore(a: State, step: Step, b: State)
    requires Core(a) && LooseStep(a, step, b)
    ensures Core(b)
  {
    hide Core, Loose, Disciplined;
    StepKeepsCore(a, step);
  }

  lemma LooseRunKeepsCore(s0: State, steps: seq<Step>, s: State)
    requires Init(s0) && Run(LooseStep, s0, steps, s)
    ensures Core(s)
  {
    hide Core, LooseStep;
    InitInv(s0);
    forall a, step, b | Core(a) && LooseStep(a, step, b) ensures Core(b) {
      LooseStepKeepsCore(a, step, b);
    }
    RunKeeps(LooseStep, Core, s0, steps, s);
  }

  /** Request ids may repeat: as long as no completion takes another command, every state is as safe as
      with distinct ids. */
  lemma EveryLooseRunIsSafe(s0: State, steps: seq<Step>, s: State)
    requires Init(s0) && Run(LooseStep, s0, steps, s)
    ensures Safe(s) && Accounting(s) && SingleOwner(s) && LockNeverStuck(s)
  {
    LooseRunKeepsCore(s0, steps, s);
    hide Safe, LockNeverStuck, Accounting, SingleOwner, EntriesOwned, LockDiscipline, ThreadOk;
    CoreIsSafe(s);
    CoreNeverStuck(s);
  }

  /** The table holds at most one handler per event key. */
  ghost predicate OneEntryPerKey(hs: seq<Handler>) {
    forall i, j :: 0 <= i < j < |hs| ==> hs[i].key != hs[j].key
  }

  /** A simpler rule than (3): a handler is registered only under a key that has none. */
  ghost predicate RegistersFreeKey(s: State, step: Step) {
    match step
    case Advance(t) =>
      var th := Th(s, t);
      th.Running? && th.taken.None? && th.body != [] && th.body[0].Register? && th.locked
      ==> FirstIndex(s.handlers, th.body[0].k) == |s.handlers|
    case _ => true
  }

  /** A step by callers that keep to rules (1) and (2) and register only free keys. */
  ghost predicate SingleHandlerStep(s: State, step: Step, s': State) {
    && Enabled(s, step) && RegistersFreeKey(s, step)
    && (!step.Advance? ==> Disciplined(s, step))
    && s' == Exec(s, step)
  }

  lemma OneEntryPerKeyStep(s: State, step: Step)
    requires OneEntryPerKey(s.handlers) && Enabled(s, step) && RegistersFreeKey(s, step)
    ensures OneEntryPerKey(Exec(s, step).handlers)
    ensures step.Advance? ==> Disciplined(s, step)
  {
    if step.Advance? {
      var th := Th(s, step.t);
      if th.taken.None? && th.body != [] && th.body[0].Unregister? {
        var i := FirstIndex(s.handlers, th.body[0].k);
        var rest := RemoveFirst(s.handlers, th.body[0].k);
        assert forall j :: 0 <= j < |rest| ==> rest[j] == s.handlers[if j < i then j else j + 1];
      }
    }
  }

  /** With one handler per key, rules (1) and (2) are enough. */
  lemma SingleHandlerRunIsSafe(s0: State, steps: seq<Step>, s: State)
    requires Init(s0) && Run(SingleHandlerStep, s0, steps, s)
    ensures OneEntryPerKey(s.handlers) && Safe(s) && Accounting(s) && SingleOwner(s) && LockNeverStuck(s)
  {
    var inv := (a: State) => OneEntryPerKey(a.handlers);
    forall a, step, b | inv(a) && SingleHandlerStep(a, step, b) ensures inv(b) && DisciplinedStep(a, step, b) {
      OneEntryPerKeyStep(a, step);
    }
    RunImplies(SingleHandlerStep, DisciplinedStep, inv, s0, steps, s);
    EveryRunIsSafe(s0, steps, s);
  }

  // ---------------------------------------------------------------- when the rules are broken

  /** The handler table after the removals of a cancel body. */
  function Drain(hs: seq<Handler>, body: seq<Act>): seq<Handler> {
    if body == [] then hs
    else Drain(if body[0].Unregister? then RemoveFirst(hs, body[0].k) else hs, body[1..])
  }

  lemma FrontAfterOtherRemoval(hs: seq<Handler>, c: Cmd, k: Key, q: Key)
    requires OneEntryPerCommandAndKey(hs) && q != k
    ensures Has(RemoveFirst(hs, k), c, q) <==> Has(hs, c, q)
    ensures FrontIsOwn(RemoveFirst(hs, k), c, q) <==> FrontIsOwn(hs, c, q)
  {
    var i, rest := FirstIndex(hs, k), RemoveFirst(hs, k);
    if Has(hs, c, q) {
      var j :| 0 <= j < |hs| && hs[j].arg == c && hs[j].key == q;
      assert i < |hs| ==> rest[if j < i then j else j - 1] == hs[j];
    }
    RemovedHandlers(hs, k);
    if Has(hs, c, q) {
      FirstMatchIsFront(hs, q);
      FirstMatchIsFront(rest, q);
      RemoveDequeues(hs, k, q);
    }
  }

  /** A cancel leaves an entry of its command behind exactly when, under some key it removes, the
      command was queued behind another. */
  lemma {:induction false} DrainLeavesIff(hs: seq<Handler>, c: Cmd, body: seq<Act>, k: Key)
    requires OneEntryPerCommandAndKey(hs) && CancelBody(body)
    ensures Has(Drain(hs, body), c, k) <==>
            Has(hs, c, k) && (Unregister(k) in body ==> !FrontIsOwn(hs, c, k))
  {
    if body != [] {
      var next := if body[0].Unregister? then RemoveFirst(hs, body[0].k) else hs;
      Tail(body);
      assert CancelBody(body[1..]) by {
        assert forall i :: 0 <= i < |body[1..]| ==> body[1..][i] == body[i + 1];
      }
      if body[0].Unregister? {
        RemoveTakesOwnIff(hs, c, body[0].k);
        RemovedHandlers(hs, body[0].k);
        if k != body[0].k {
          FrontAfterOtherRemoval(hs, c, body[0].k, k);
        } else {
          assert forall j :: 0 <= j < |body[1..]| ==> body[1..][j] == body[j + 1];
        }
      }
      DrainLeavesIff(next, c, body[1..], k);
    }
  }

  /** Only thread t moves. */
  ghost predicate Only(steps: seq<Step>, t: Tid) {
    forall i :: 0 <= i < |steps| ==> steps[i] == Advance(t)
  }

  /** A thread left alone has one way to finish. */
  lemma {:induction false} OnlyRunUnique(s: State, t: Tid, a: seq<Step>, x: State, b: seq<Step>, y: State)
    requires Run(AnyStep, s, a, x) && Only(a, t) && Th(x, t).Idle?
    requires Run(AnyStep, s, b, y) && Only(b, t) && Th(y, t).Idle?
    ensures a == b && x == y
    decreases |a|
  {
    hide Exec;
    if a != [] && b != [] {
      var x1 :| AnyStep(s, a[0], x1) && Run(AnyStep, x1, a[1..], x);
      var y1 :| AnyStep(s, b[0], y1) && Run(AnyStep, y1, b[1..], y);
      OnlyRunUnique(x1, t, a[1..], x, b[1..], y);
      assert a == [a[0]] + a[1..] && b == [b[0]] + b[1..];
    }
  }

  predicate LoneCancel(s: State, t: Tid) {
    && Th(s, t).Running? && Th(s, t).role.Cancel? && Th(s, t).taken.None? && !Th(s, t).locked
    && s.lock.None? && Th(s, t).cmd in s.objs
  }

  lemma LoneAct(s: State, t: Tid) returns (steps: seq<Step>, s': State)
    requires LoneCancel(s, t) && Th(s, t).body != []
    requires Th(s, t).body[0].Touch? || Th(s, t).body[0].Unregister?
    ensures Run(AnyStep, s, steps, s') && Only(steps, t)
    ensures s'.threads == s.threads[t := Th(s, t).(body := Th(s, t).body[1..])]
    ensures s'.handlers == Drain(s.handlers, [Th(s, t).body[0]])
    ensures s'.lock.None? && s'.cmds == s.cmds && s'.objs == s.objs
  {
    var s1 := Exec(s, Advance(t));
    RunOne(AnyStep, s, Advance(t), s1);
    assert [Th(s, t).body[0]][1..] == [];
    if Th(s, t).body[0].Touch? {
      steps, s' := [Advance(t)], s1;
    } else {
      s' := Exec(s1, Advance(t));
      RunOne(AnyStep, s1, Advance(t), s');
      steps := [Advance(t)] + [Advance(t)];
      RunConcat(AnyStep, s, [Advance(t)], s1, [Advance(t)], s');
    }
  }

  lemma LoneReturn(s: State, t: Tid) returns (steps: seq<Step>, s': State)
    requires LoneCancel(s, t) && Th(s, t).body == []
    ensures Run(AnyStep, s, steps, s') && Only(steps, t) && s'.threads == s.threads[t := Idle]
    ensures s'.handlers == s.handlers && s'.lock.None? && s'.cmds == s.cmds
    ensures s'.objs == Release(s, Th(s, t).cmd, true).objs
  {
    steps, s' := [Advance(t)], Exec(s, Advance(t));
    RunOne(AnyStep, s, Advance(t), s');
  }

  /** A canceller that no other thread interrupts drains its events and gives back the reference. */
  lemma {:induction false} LoneCanceller(s: State, t: Tid) returns (steps: seq<Step>, s': State)
    requires LoneCancel(s, t)
    requires forall i :: 0 <= i < |Th(s, t).body| ==> Th(s, t).body[i].Touch? || Th(s, t).body[i].Unregister?
    ensures Run(AnyStep, s, steps, s') && Only(steps, t)
    ensures s'.threads == s.threads[t := Idle]
    ensures s'.handlers == Drain(s.handlers, Th(s, t).body)
    ensures s'.lock.None? && s'.cmds == s.cmds && s'.objs == Release(s, Th(s, t).cmd, true).objs
    decreases |Th(s, t).body|
  {
    hide Enabled, Exec, AnyStep, Run, RemoveFirst;
    var body := Th(s, t).body;
    if body == [] {
      steps, s' := LoneReturn(s, t);
    } else {
      var first, s1 := LoneAct(s, t);
      assert Th(s1, t) == Th(s, t).(body := body[1..]);
      assert Drain(s.handlers, [body[0]]) == (if body[0].Unregister? then RemoveFirst(s.handlers, body[0].k) else s.handlers);
      var rest;
      rest, s' := LoneCanceller(s1, t);
      steps := first + rest;
      RunConcat(AnyStep, s, first, s1, rest, s');
    }
  }

  /** The cancel body of c ran, c was deleted, and nothing else happened. */
  ghost predicate Cancelled(s: State, s': State, t: Tid, c: Cmd) {
    && c in s.objs && c in s'.objs
    && s'.handlers == Drain(s.handlers, CancelPath(s.objs[c].cls))
    && s'.threads == s.threads[t := Idle]
    && s'.objs == s.objs[c := s'.objs[c]] && s'.objs[c].frees == 1
  }

  lemma LeftBehindIff(s: State, s': State, t: Tid, c: Cmd, k: Key)
    requires Inv(s) && Cancelled(s, s', t, c)
    ensures Has(s'.handlers, c, k) <==> Listens(s.objs[c].cls, k) && !FrontIsOwn(s.handlers, c, k)
  {
    CancelPathShape(s.objs[c].cls);
    DrainLeavesIff(s.handlers, c, CancelPath(s.objs[c].cls), k);
    if Has(s.handlers, c, k) {
      var j :| 0 <= j < |s.handlers| && s.handlers[j].arg == c && s.handlers[j].key == k;
      assert Listens(s.objs[c].cls, k);
    }
  }

  lemma OthersLeftAlive(s: State, s': State, t: Tid, c: Cmd, j: nat)
    requires Inv(s) && Safe(s) && Cancelled(s, s', t, c) && j < |s'.handlers|
    ensures s'.handlers[j].arg != c ==> Alive(s', s'.handlers[j].arg)
  {
    var h := s'.handlers[j];
    assert Has(s'.handlers, h.arg, h.key);
    CancelPathShape(s.objs[c].cls);
    DrainLeavesIff(s.handlers, h.arg, CancelPath(s.objs[c].cls), h.key);
  }

  lemma EntriesAfterCancel(s: State, s': State, t: Tid, c: Cmd)
    requires Inv(s) && Safe(s) && Cancelled(s, s', t, c)
    ensures (forall j :: 0 <= j < |s'.handlers| ==> Alive(s', s'.handlers[j].arg))
       <==> (forall k :: Listens(s.objs[c].cls, k) ==> FrontIsOwn(s.handlers, c, k))
  {
    forall k ensures Has(s'.handlers, c, k) <==> Listens(s.objs[c].cls, k) && !FrontIsOwn(s.handlers, c, k) {
      LeftBehindIff(s, s', t, c, k);
    }
    forall j | 0 <= j < |s'.handlers| ensures s'.handlers[j].arg != c ==> Alive(s', s'.handlers[j].arg) {
      OthersLeftAlive(s, s', t, c, j);
    }
    assert forall j :: 0 <= j < |s'.handlers| && s'.handlers[j].arg == c ==> Has(s'.handlers, c, s'.handlers[j].key);
  }

  lemma ThreadsAfterCancel(s: State, s': State, t: Tid, c: Cmd)
    requires Inv(s) && Safe(s) && Cancelled(s, s', t, c) && InTable(s, c) && Th(s, t).Idle?
    requires InFlight(s, c) == {}
    ensures (forall u :: Th(s', u).Running? ==>
               Alive(s', Th(s', u).cmd) && (Th(s', u).taken.Some? ==> Alive(s', Th(s', u).taken.value)))
       <==> (forall u :: !Does(Th(s, u), Start, c))
  {
    forall u ensures Th(s', u) == Th(s, u) {}
    forall u | Th(s, u).Running?
      ensures Th(s, u).cmd == c ==> Does(Th(s, u), Start, c)
      ensures Th(s, u).taken.Some? ==> Th(s, u).taken.value != c
    {
      assert ThreadOk(s, u);
      assert !OwnsRef(Th(s, u), c);
      assert Does(Th(s, u), Dispatch, c) ==> u in InFlight(s, c);
    }
  }

  lemma TableAfterCancel(s: State, s': State, t: Tid, i: nat)
    requires Inv(s) && Safe(s) && i < |s.cmds| && Cancelled(s, s', t, s.cmds[i].cmd)
    requires s'.cmds == Without(s.cmds, i)
    ensures forall j :: 0 <= j < |s'.cmds| ==> Alive(s', s'.cmds[j].cmd)
  {
    WithoutMembers(s.cmds, i);
  }

  /** wifi_cancel_cmd has found its command, whose only reference is the owner's. */
  lemma CancelEntered(s: State, t: Tid, id: int32) returns (s1: State)
    requires Inv(s) && Th(s, t).Idle? && s.lock.None? && Find(s.cmds, id).Some?
    requires InFlight(s, Find(s.cmds, id).value) == {}
    ensures AnyStep(s, CancelCall(t, id), s1)
    ensures var c := Find(s.cmds, id).value;
            && c in s.objs && s.objs[c].refs == 1 && s.objs[c].frees == 0
            && s1 == s.(cmds := Without(s.cmds, IndexOfId(s.cmds, id)),
                        threads := s.threads[t := Running(Cancel, c, CancelPath(s.objs[c].cls), None, false)])
  {
    var i := IndexOfId(s.cmds, id);
    assert InTable(s, s.cmds[i].cmd);
    s1 := Exec(s, CancelCall(t, id));
  }

  lemma CancelledAfter(s: State, s1: State, s': State, t: Tid, c: Cmd)
    requires c in s.objs && s.objs[c].refs == 1 && s.objs[c].frees == 0
    requires s1.objs == s.objs && s1.handlers == s.handlers
    requires s1.threads == s.threads[t := Running(Cancel, c, CancelPath(s.objs[c].cls), None, false)]
    requires s'.threads == s1.threads[t := Idle] && s'.objs == Release(s1, c, true).objs
    requires s'.handlers == Drain(s1.handlers, CancelPath(s.objs[c].cls))
    ensures Cancelled(s, s', t, c)
  {
    hide Drain, CancelPath;
  }

  /** wifi_cancel_cmd run undisturbed from s. */
  lemma UndisturbedCancel(s: State, t: Tid, id: int32) returns (steps: seq<Step>, s': State)
    requires Inv(s) && Th(s, t).Idle? && s.lock.None? && Find(s.cmds, id).Some?
    requires InFlight(s, Find(s.cmds, id).value) == {}
    ensures steps != [] && steps[0] == CancelCall(t, id) && Only(steps[1..], t) && Run(AnyStep, s, steps, s')
    ensures s'.lock.None? && s'.cmds == Without(s.cmds, IndexOfId(s.cmds, id))
    ensures Cancelled(s, s', t, Find(s.cmds, id).value)
  {
    var c := Find(s.cmds, id).value;
    var s1 := CancelEntered(s, t, id);
    CancelPathShape(s.objs[c].cls);
    hide Inv, Enabled, Exec, Run, AnyStep, Drain, CancelPath, Without, IndexOfId, Find, InFlight, Cancelled, Release;
    var rest;
    rest, s' := LoneCanceller(s1, t);
    CancelledAfter(s, s1, s', t, c);
    steps := [CancelCall(t, id)] + rest;
    assert steps[1..] == rest;
    RunOne(AnyStep, s, CancelCall(t, id), s1);
    RunConcat(AnyStep, s, [CancelCall(t, id)], s1, rest, s');
  }

  /** steps is an undisturbed run of this cancel call, from s to s', in which it has returned. */
  ghost predicate CancelRun(s: State, t: Tid, id: int32, steps: seq<Step>, s': State) {
    steps != [] && steps[0] == CancelCall(t, id) && Only(steps[1..], t) && Run(AnyStep, s, steps, s') && Th(s', t).Idle?
  }

  /** The command's start has returned, and it is first in the queue of each of its events. */
  ghost predicate ReadyToCancel(s: State, c: Cmd)
    requires c in s.objs
  {
    && (forall u :: !Does(Th(s, u), Start, c))
    && (forall k :: Listens(s.objs[c].cls, k) ==> FrontIsOwn(s.handlers, c, k))
  }

  lemma CancelRunSafeIff(s: State, t: Tid, id: int32) returns (steps: seq<Step>, s': State)
    requires Inv(s) && Th(s, t).Idle? && s.lock.None? && Find(s.cmds, id).Some?
    requires InFlight(s, Find(s.cmds, id).value) == {}
    ensures CancelRun(s, t, id, steps, s')
    ensures var c := Find(s.cmds, id).value; c in s.objs && (Safe(s') <==> ReadyToCancel(s, c))
  {
    steps, s' := UndisturbedCancel(s, t, id);
    var i := IndexOfId(s.cmds, id);
    var c := s.cmds[i].cmd;
    assert InTable(s, c);
    CoreIsSafe(s);
    EntriesAfterCancel(s, s', t, c);
    ThreadsAfterCancel(s, s', t, c);
    TableAfterCancel(s, s', t, i);
  }

  lemma CancelRunUnique(s: State, t: Tid, id: int32, a: seq<Step>, x: State, b: seq<Step>, y: State)
    requires CancelRun(s, t, id, a, x) && CancelRun(s, t, id, b, y)
    ensures x == y
  {
    hide Exec;
    var x1 :| AnyStep(s, a[0], x1) && Run(AnyStep, x1, a[1..], x);
    var y1 :| AnyStep(s, b[0], y1) && Run(AnyStep, y1, b[1..], y);
    OnlyRunUnique(x1, t, a[1..], x, b[1..], y);
  }

  /** The rules (2) and (3) are exact. From any state a disciplined run can reach, with cb_lock free
      and no dispatch of the command in flight, a wifi_cancel_cmd that runs undisturbed can finish,
      and however it does it leaves a safe state if and only if the command is ready to be cancelled. */
  lemma UndisturbedCancelSafeIff(s: State, t: Tid, id: int32)
    requires Inv(s) && Th(s, t).Idle? && s.lock.None? && Find(s.cmds, id).Some?
    requires InFlight(s, Find(s.cmds, id).value) == {}
    ensures exists steps, s' :: CancelRun(s, t, id, steps, s')
    ensures var c := Find(s.cmds, id).value;
            c in s.objs && forall steps, s' :: CancelRun(s, t, id, steps, s') ==> (Safe(s') <==> ReadyToCancel(s, c))
  {
    hide *;
    var a, x := CancelRunSafeIff(s, t, id);
    forall steps, s' | CancelRun(s, t, id, steps, s') ensures s' == x {
      CancelRunUnique(s, t, id, a, x, steps, s');
    }
  }

  /** One more step of a disciplined run. */
  lemma Go(s0: State, steps: seq<Step>, s: State, step: Step) returns (steps': seq<Step>, s': State)
    requires Run(DisciplinedStep, s0, steps, s) && Enabled(s, step) && Disciplined(s, step)
    ensures steps' == steps + [step] && s' == Exec(s, step) && Run(DisciplinedStep, s0, steps', s')
  {
    steps', s' := steps + [step], Exec(s, step);
    RunOne(DisciplinedStep, s, step, s');
    RunConcat(DisciplinedStep, s0, steps, s, [step], s');
  }

  function Empty(): State {
    State(None, [], 64, [], 64, map[], map[])
  }

  /** The rest of an undisturbed start that registers one event. */
  lemma LoneStarter(s0: State, steps: seq<Step>, s: State, t: Tid, ev: int32) returns (steps': seq<Step>, s': State)
    requires Run(DisciplinedStep, s0, steps, s) && s.lock.None? && |s.handlers| < s.allocHandlers
    requires Th(s, t).Running? && Th(s, t).role.Start? && Th(s, t).cmd in s.objs
    requires Th(s, t).taken.None? && !Th(s, t).locked && Th(s, t).body == [Touch, On(ev)]
    ensures Run(DisciplinedStep, s0, steps', s')
    ensures s' == SetThread(s, t, Idle).(handlers := s.handlers + [Handler(EventKey(ev), 0, Th(s, t).cmd)])
  {
    var c := Th(s, t).cmd;
    steps', s' := Go(s0, steps, s, Advance(t));
    assert Th(s', t) == Running(Start, c, [On(ev)], None, false);
    steps', s' := Go(s0, steps', s', Advance(t));
    assert Th(s', t) == Running(Start, c, [On(ev)], None, true);
    steps', s' := Go(s0, steps', s', Advance(t));
    assert s'.threads == s.threads[t := Idle];
  }

  /** An undisturbed, successful start of a command that registers one event last. */
  lemma LoneStart(s0: State, steps: seq<Step>, s: State, t: Tid, c: Cmd, cls: Class, id: int32, ev: int32)
    returns (steps': seq<Step>, s': State)
    requires Run(DisciplinedStep, s0, steps, s) && Th(s, t).Idle? && s.lock.None? && c !in s.objs
    requires [Touch, On(ev)] in StartPaths(cls)
    requires |s.handlers| < s.allocHandlers && |s.cmds| < s.allocCmds
    requires forall d :: d in s.objs && Outstanding(s, d) ==> s.objs[d].id != id
    ensures Run(DisciplinedStep, s0, steps', s')
    ensures s' == s.(handlers := s.handlers + [Handler(EventKey(ev), 0, c)], cmds := s.cmds + [CmdInfo(id, c)],
                     objs := s.objs[c := Obj(cls, id, 1, false, 0)], threads := s.threads[t := Idle])
  {
    var mid;
    steps', mid := Go(s0, steps, s, StartCall(t, c, cls, id, [Touch, On(ev)]));
    steps', s' := LoneStarter(s0, steps', mid, t, ev);
    assert s'.threads == s.threads[t := Idle];
  }

  /** Rule (3) can be broken: with RSSI monitoring requested twice, the second request waits behind
      the first, and cancelling it first leaves its handler behind. */
  lemma QueuedBehindExample() returns (steps: seq<Step>, s: State)
    ensures Init(Empty()) && Run(DisciplinedStep, Empty(), steps, s)
    ensures s.lock.None? && Find(s.cmds, 2) == Some(12) && 12 in s.objs && s.objs[12].cls == RssiMonitor
    ensures InFlight(s, 12) == {} && forall u :: Th(s, u).Idle?
    ensures !FrontIsOwn(s.handlers, 12, EventKey(RSSI_MONITOR))
  {
    var k := EventKey(RSSI_MONITOR);
    steps, s := LoneStart(Empty(), [], Empty(), 1, 11, RssiMonitor, 1, RSSI_MONITOR);
    steps, s := LoneStart(Empty(), steps, s, 1, 12, RssiMonitor, 2, RSSI_MONITOR);
    assert s.handlers == [Handler(k, 0, 11), Handler(k, 0, 12)];
    assert s.cmds == [CmdInfo(1, 11)] + [CmdInfo(2, 12)];
    FindConcat([CmdInfo(1, 11)], [CmdInfo(2, 12)], 2);
    assert Has(s.handlers, 12, k) by { assert s.handlers[1] == Handler(k, 0, 12); }
  }

  /** And cancelling it leaves an unsafe state. */
  lemma QueuedCancelIsUnsafe() returns (steps: seq<Step>, s: State, cancel: seq<Step>, s': State)
    ensures Run(DisciplinedStep, Empty(), steps, s)
    ensures CancelRun(s, 1, 2, cancel, s') && !Safe(s')
  {
    steps, s := QueuedBehindExample();
    RunKeepsInv(Empty(), steps, s);
    assert Listens(RssiMonitor, EventKey(RSSI_MONITOR));
    hide Inv, Run, CancelRun, Safe, FrontIsOwn;
    cancel, s' := CancelRunSafeIff(s, 1, 2);
  }

  const RTT_FINISH: seq<Act> := [Unlock, Touch, Off(RTT_COMPLETE), Touch, TakeCmd, Touch]

  /** An undisturbed dispatch up to the point where its callback is about to run. */
  lemma LoneDispatch(s0: State, steps: seq<Step>, s: State, t: Tid, k: Key, path: seq<Act>)
    returns (steps': seq<Step>, s': State)
    requires Run(DisciplinedStep, s0, steps, s) && Th(s, t).Idle? && s.lock.None? && WellKeyed(k)
    requires FirstIndex(s.handlers, k) < |s.handlers|
    requires s.handlers[FirstIndex(s.handlers, k)].arg in s.objs
    requires path in DispatchPaths(s.objs[s.handlers[FirstIndex(s.handlers, k)].arg].cls)
    requires path != [] && path[0].Unlock?
    ensures Run(DisciplinedStep, s0, steps', s')
    ensures var c := s.handlers[FirstIndex(s.handlers, k)].arg;
            s' == SetThread(AddRef(s, c), t, Running(Dispatch, c, path[1..], None, false))
  {
    hide Run, FrontIsOwn, DispatchPaths, FirstIndex;
    var c := s.handlers[FirstIndex(s.handlers, k)].arg;
    steps', s' := Go(s0, steps, s, EventCall(t, k));
    steps', s' := Go(s0, steps', s', Search(t, path));
    assert Th(s', t) == Running(Dispatch, c, path, None, true);
    steps', s' := Go(s0, steps', s', Advance(t));
    assert s'.threads == s.threads[t := Running(Dispatch, c, path[1..], None, false)];
  }

  /** Command 11, a range measurement under id 7, is in a cancelling thread and in a completing dispatch. */
  function InFlightState(): State {
    Empty().(handlers := [Handler(EventKey(RTT_COMPLETE), 0, 11)],
             objs := map[11 := Obj(Rtt, 7, 2, false, 0)],
             threads := map[1 := Idle, 2 := Running(Dispatch, 11, RTT_FINISH[1..], None, false),
                            3 := Running(Cancel, 11, [Touch, Off(RTT_COMPLETE)], None, false)])
  }

  /** Disciplined callers get there. */
  lemma CancelledInFlight() returns (steps: seq<Step>, s: State)
    ensures Run(DisciplinedStep, Empty(), steps, s)
    ensures s == InFlightState()
  {
    var k := EventKey(RTT_COMPLETE);
    steps, s := LoneStart(Empty(), [], Empty(), 1, 11, Rtt, 7, RTT_COMPLETE);
    assert s.handlers == [Handler(k, 0, 11)] && s.cmds == [CmdInfo(7, 11)];
    assert RTT_FINISH in DispatchPaths(Rtt);
    steps, s := LoneDispatch(Empty(), steps, s, 2, k, RTT_FINISH);
    steps, s := Go(Empty(), steps, s, CancelCall(3, 7));
    assert s.threads == map[1 := Idle, 2 := Running(Dispatch, 11, RTT_FINISH[1..], None, false),
                            3 := Running(Cancel, 11, [Touch, Off(RTT_COMPLETE)], None, false)];
  }

  /** The first half of a completing callback: its event handler is gone. */
  lemma CompletionUnregisters(s: State, t: Tid, c: Cmd) returns (steps: seq<Step>, s': State)
    requires Th(s, t) == Running(Dispatch, c, RTT_FINISH[1..], None, false) && s.lock.None? && c in s.objs
    requires FrontIsOwn(s.handlers, c, EventKey(RTT_COMPLETE))
    ensures Run(DisciplinedStep, s, steps, s')
    ensures s' == s.(handlers := RemoveFirst(s.handlers, EventKey(RTT_COMPLETE)),
                     threads := s.threads[t := Running(Dispatch, c, RTT_FINISH[3..], None, false)])
  {
    assert Run(DisciplinedStep, s, [], s);
    hide RemoveFirst, Run, FrontIsOwn;
    steps, s' := Go(s, [], s, Advance(t));
    assert Th(s', t) == Running(Dispatch, c, RTT_FINISH[2..], None, false);
    steps, s' := Go(s, steps, s', Advance(t));
    assert Th(s', t) == Running(Dispatch, c, RTT_FINISH[2..], None, true);
    steps, s' := Go(s, steps, s', Advance(t));
    assert RTT_FINISH[2..][1..] == RTT_FINISH[3..];
    assert s'.threads == s.threads[t := Running(Dispatch, c, RTT_FINISH[3..], None, false)];
  }

  /** A completing callback of command c releases whatever command the table holds under c's id. */
  lemma CompletionTakesById(s: State, t: Tid, c: Cmd, d: Cmd) returns (steps: seq<Step>, s': State)
    requires Th(s, t) == Running(Dispatch, c, RTT_FINISH[1..], None, false) && s.lock.None?
    requires c in s.objs && d in s.objs && Find(s.cmds, s.objs[c].id) == Some(d)
    requires FrontIsOwn(s.handlers, c, EventKey(RTT_COMPLETE))
    ensures Run(DisciplinedStep, s, steps, s')
    ensures s'.handlers == RemoveFirst(s.handlers, EventKey(RTT_COMPLETE))
    ensures s'.cmds == Without(s.cmds, IndexOfId(s.cmds, s.objs[c].id))
    ensures s'.objs == Release(s, d, true).objs
  {
    hide RemoveFirst, Without, IndexOfId, Run, FrontIsOwn;
    steps, s' := CompletionUnregisters(s, t, c);
    assert Th(s', t) == Running(Dispatch, c, RTT_FINISH[3..], None, false);
    steps, s' := Go(s, steps, s', Advance(t));
    assert Th(s', t) == Running(Dispatch, c, RTT_FINISH[4..], None, false);
    steps, s' := Go(s, steps, s', Advance(t));
    assert Th(s', t) == Running(Dispatch, c, RTT_FINISH[5..], Some(d), false);
    steps, s' := Go(s, steps, s', Advance(t));
  }

  /** Thread t's callback is about to take its command out of the table and has nothing else to do. */
  predicate LastTake(s: State, t: Tid) {
    AboutToTake(s, t) && Th(s, t).cmd in s.objs && Th(s, t).body == [TakeCmd, Touch]
  }

  /** steps is an undisturbed rest of thread t's dispatch, from s to s'. */
  ghost predicate CompletionRun(s: State, t: Tid, steps: seq<Step>, s': State) {
    Run(AnyStep, s, steps, s') && Only(steps, t) && Th(s', t).Idle?
  }

  /** The table holds nothing under the callback's id, its own command, or a command that survives the
      release because it is being dispatched, or that nothing can reach any more. */
  ghost predicate HarmlessTake(s: State, t: Tid)
    requires LastTake(s, t)
  {
    TakesOwn(s, t) ||
    var d := Find(s.cmds, s.objs[Th(s, t).cmd].id).value;
    InFlight(s, d) != {} || ((forall k :: !Has(s.handlers, d, k)) && (forall u :: !Does(Th(s, u), Start, d)))
  }

  /** What an undisturbed completion of c that takes d leaves behind. */
  ghost predicate Completed(s: State, s': State, t: Tid, c: Cmd, d: Cmd)
    requires c in s.objs && d in s.objs
  {
    && s'.objs == Release(Release(s, d, true), c, false).objs
    && s'.handlers == s.handlers
    && s'.cmds == Without(s.cmds, IndexOfId(s.cmds, s.objs[c].id))
    && s'.threads == s.threads[t := Idle]
  }

  lemma OneStep(s: State, steps: seq<Step>, mid: State, t: Tid) returns (steps': seq<Step>, s': State)
    requires Run(AnyStep, s, steps, mid) && Only(steps, t) && Enabled(mid, Advance(t))
    ensures Run(AnyStep, s, steps', s') && Only(steps', t) && s' == Exec(mid, Advance(t))
  {
    steps', s' := steps + [Advance(t)], Exec(mid, Advance(t));
    RunOne(AnyStep, mid, Advance(t), s');
    RunConcat(AnyStep, s, steps, mid, [Advance(t)], s');
  }

  lemma DispatchAtTake(s: State, t: Tid)
    requires Core(s) && LastTake(s, t)
    ensures Th(s, t) == Running(Dispatch, Th(s, t).cmd, [TakeCmd, Touch], None, false)
    ensures forall k :: !Has(s.handlers, Th(s, t).cmd, k)
  {
    assert LockDiscipline(s, t) && ThreadOk(s, t);
    assert Th(s, t).role.Dispatch? by { assert Th(s, t).body[0] in Th(s, t).body; }
    TakeAfterRemovals(s, t);
  }

  lemma TakeStep(s: State, t: Tid, c: Cmd)
    requires Th(s, t) == Running(Dispatch, c, [TakeCmd, Touch], None, false) && c in s.objs
    ensures Enabled(s, Advance(t)) && AboutToTake(s, t) && (TakesOwn(s, t) ==> Loose(s, Advance(t)))
    ensures var s1, found := Exec(s, Advance(t)), Find(s.cmds, s.objs[c].id);
            && s1 == SetThread(s.(cmds := Without(s.cmds, IndexOfId(s.cmds, s.objs[c].id))), t,
                               Running(Dispatch, c, [Touch], found, false))
            && Th(s1, t) == Running(Dispatch, c, [Touch], found, false)
  {
    assert [TakeCmd, Touch][1..] == [Touch];
  }

  lemma ReleaseStep(s: State, t: Tid, c: Cmd, d: Cmd, body: seq<Act>)
    requires Th(s, t) == Running(Dispatch, c, body, Some(d), false) && c in s.objs && d in s.objs
    ensures Enabled(s, Advance(t)) && Loose(s, Advance(t))
    ensures var s1 := Exec(s, Advance(t));
            && s1 == SetThread(Release(s, d, true), t, Running(Dispatch, c, body, None, false))
            && Th(s1, t) == Running(Dispatch, c, body, None, false)
  {
  }

  lemma TouchStep(s: State, t: Tid, c: Cmd)
    requires Th(s, t) == Running(Dispatch, c, [Touch], None, false) && c in s.objs
    ensures Enabled(s, Advance(t)) && Loose(s, Advance(t))
    ensures var s1 := Exec(s, Advance(t));
            && s1 == SetThread(s, t, Running(Dispatch, c, [], None, false))
            && Th(s1, t) == Running(Dispatch, c, [], None, false)
  {
    assert [Touch][1..] == [];
  }

  lemma ReturnStep(s: State, t: Tid, c: Cmd)
    requires Th(s, t) == Running(Dispatch, c, [], None, false) && c in s.objs
    ensures Enabled(s, Advance(t)) && Loose(s, Advance(t))
    ensures Exec(s, Advance(t)) == SetThread(Release(s, c, false), t, Idle)
  {
  }

  /** The end of a dispatch: the last use of the command, then releaseRef. */
  lemma LoneEnd(s: State, steps: seq<Step>, mid: State, t: Tid, c: Cmd) returns (steps': seq<Step>, s': State)
    requires Run(AnyStep, s, steps, mid) && Only(steps, t)
    requires Th(mid, t) == Running(Dispatch, c, [Touch], None, false) && c in mid.objs
    ensures Run(AnyStep, s, steps', s') && Only(steps', t)
    ensures s' == SetThread(Release(mid, c, false), t, Idle)
  {
    hide Exec, Enabled, Run, Only;
    TouchStep(mid, t, c);
    steps', s' := OneStep(s, steps, mid, t);
    ReturnStep(s', t, c);
    steps', s' := OneStep(s, steps', s', t);
    assert s'.threads == mid.threads[t := Idle];
  }

  /** A completion that takes its own command, or none, leaves a state as good as it found. */
  lemma OwnCompletion(s: State, t: Tid) returns (steps: seq<Step>, s': State)
    requires Core(s) && LastTake(s, t) && TakesOwn(s, t)
    ensures CompletionRun(s, t, steps, s') && Core(s')
  {
    DispatchAtTake(s, t);
    var c := Th(s, t).cmd;
    assert Run(AnyStep, s, [], s) && Only([], t);
    hide Core, Without, IndexOfId, Only, Run, Has, Exec, Enabled, Loose;
    TakeStep(s, t, c);
    steps, s' := LooseOn(s, [], s, t);
    if Th(s', t).taken.Some? {
      ReleaseStep(s', t, c, c, [Touch]);
      steps, s' := LooseOn(s, steps, s', t);
    }
    TouchStep(s', t, c);
    steps, s' := LooseOn(s, steps, s', t);
    ReturnStep(s', t, c);
    steps, s' := LooseOn(s, steps, s', t);
  }

  lemma LooseOn(s: State, steps: seq<Step>, mid: State, t: Tid) returns (steps': seq<Step>, s': State)
    requires Run(AnyStep, s, steps, mid) && Only(steps, t)
    requires Core(mid) && Enabled(mid, Advance(t)) && Loose(mid, Advance(t))
    ensures Run(AnyStep, s, steps', s') && Only(steps', t) && s' == Exec(mid, Advance(t)) && Core(s')
  {
    hide Core, Loose, Run;
    steps', s' := OneStep(s, steps, mid, t);
    StepKeepsCore(mid, Advance(t));
  }

  /** An undisturbed completion that takes command d instead of its own. */
  lemma ForeignCompletion(s: State, t: Tid, d: Cmd) returns (steps: seq<Step>, s': State)
    requires Core(s) && LastTake(s, t) && d in s.objs
    requires Find(s.cmds, s.objs[Th(s, t).cmd].id) == Some(d)
    ensures CompletionRun(s, t, steps, s') && Completed(s, s', t, Th(s, t).cmd, d)
  {
    DispatchAtTake(s, t);
    var c := Th(s, t).cmd;
    assert Run(AnyStep, s, [], s) && Only([], t);
    hide Core, Without, IndexOfId, Find, Only, Run, Has, Exec, Enabled;
    TakeStep(s, t, c);
    var s1, s2;
    steps, s1 := OneStep(s, [], s, t);
    ReleaseStep(s1, t, c, d, [Touch]);
    steps, s2 := OneStep(s, steps, s1, t);
    ReleaseObjects(s, s1, d, true);
    ReleaseObjects(Release(s, d, true), s2, c, false);
    hide Release;
    steps, s' := LoneEnd(s, steps, s2, t, c);
    assert s'.threads == s.threads[t := Idle];
  }

  lemma ReleaseObjects(a: State, b: State, c: Cmd, owner: bool)
    requires a.objs == b.objs && c in a.objs
    ensures Release(a, c, owner).objs == Release(b, c, owner).objs
  {
  }

  /** Two commands at stake: d loses the owner's reference, c the dispatch's. */
  lemma ReferencesAfter(s: State, s': State, t: Tid, d: Cmd)
    requires Core(s) && LastTake(s, t) && InTable(s, d) && d in s.objs && d != Th(s, t).cmd
    requires Completed(s, s', t, Th(s, t).cmd, d)
    ensures Alive(s', d) <==> InFlight(s, d) != {}
    ensures forall e :: e != d && e != Th(s, t).cmd ==> (Alive(s', e) <==> Alive(s, e))
    ensures var c := Th(s, t).cmd;
            Alive(s', c) <==> !s.objs[c].released || exists u :: u != t && u in InFlight(s, c)
  {
    var c := Th(s, t).cmd;
    DispatchAtTake(s, t);
    assert !s.objs[d].released;
    assert t in InFlight(s, c);
    var others := InFlight(s, c) - {t};
    assert InFlight(s, c) == others + {t};
    if others != {} {
      var u :| u in others;
      assert u != t && u in InFlight(s, c);
    }
  }

  lemma EntriesAfter(s: State, s': State, t: Tid, d: Cmd)
    requires Core(s) && LastTake(s, t) && InTable(s, d) && d in s.objs && d != Th(s, t).cmd
    requires Completed(s, s', t, Th(s, t).cmd, d)
    ensures (forall i :: 0 <= i < |s'.handlers| ==> Alive(s', s'.handlers[i].arg))
       <==> InFlight(s, d) != {} || forall k :: !Has(s.handlers, d, k)
  {
    DispatchAtTake(s, t);
    ReferencesAfter(s, s', t, d);
    CoreIsSafe(s);
    hide Core;
    forall i | 0 <= i < |s.handlers| ensures Has(s.handlers, s.handlers[i].arg, s.handlers[i].key) {}
  }

  lemma TableAfter(s: State, s': State, t: Tid, d: Cmd)
    requires Core(s) && LastTake(s, t) && d in s.objs && d != Th(s, t).cmd
    requires Find(s.cmds, s.objs[Th(s, t).cmd].id) == Some(d)
    requires Completed(s, s', t, Th(s, t).cmd, d)
    ensures InTable(s, d)
    ensures forall i :: 0 <= i < |s'.cmds| ==> Alive(s', s'.cmds[i].cmd)
  {
    var i := IndexOfId(s.cmds, s.objs[Th(s, t).cmd].id);
    assert s.cmds[i].cmd == d;
    ReferencesAfter(s, s', t, d);
    CoreIsSafe(s);
    WithoutMembers(s.cmds, i);
  }

  /** A thread other than t uses only living commands, unless it is starting d and d is gone. */
  lemma ThreadAfter(s: State, s': State, t: Tid, d: Cmd, u: Tid)
    requires Core(s) && LastTake(s, t) && InTable(s, d) && d in s.objs && d != Th(s, t).cmd
    requires Completed(s, s', t, Th(s, t).cmd, d) && u != t && Th(s, u).Running?
    ensures Alive(s', Th(s, u).cmd) <==> !Does(Th(s, u), Start, d) || InFlight(s, d) != {}
    ensures Th(s, u).taken.Some? ==> Alive(s', Th(s, u).taken.value)
  {
    var e := Th(s, u).cmd;
    ReferencesAfter(s, s', t, d);
    CoreIsSafe(s);
    assert ThreadOk(s, u);
    assert Th(s, u).role.Cancel? ==> OwnsRef(Th(s, u), e);
    assert Th(s, u).role.Dispatch? ==> u in InFlight(s, e);
    assert Th(s, u).taken.Some? ==> OwnsRef(Th(s, u), Th(s, u).taken.value);
  }

  lemma ThreadsAfter(s: State, s': State, t: Tid, d: Cmd)
    requires Core(s) && LastTake(s, t) && InTable(s, d) && d in s.objs && d != Th(s, t).cmd
    requires Completed(s, s', t, Th(s, t).cmd, d)
    ensures (forall u :: Th(s', u).Running? ==>
               Alive(s', Th(s', u).cmd) && (Th(s', u).taken.Some? ==> Alive(s', Th(s', u).taken.value)))
       <==> InFlight(s, d) != {} || forall u :: !Does(Th(s, u), Start, d)
  {
    DispatchAtTake(s, t);
    ThreadUpdate(s, s', t, Idle);
    forall u
      ensures (Th(s', u).Running? ==>
                 Alive(s', Th(s', u).cmd) && (Th(s', u).taken.Some? ==> Alive(s', Th(s', u).taken.value)))
         <==> InFlight(s, d) != {} || !Does(Th(s, u), Start, d)
    {
      if u != t && Th(s, u).Running? {
        ThreadAfter(s, s', t, d, u);
      }
    }
  }

  /** Exactly when a completion may be trusted with the table: an undisturbed one can finish, and
      however it does it leaves a safe state if and only if its take is harmless. */
  lemma CompletionSafeIff(s: State, t: Tid)
    requires Core(s) && LastTake(s, t)
    ensures exists steps, s' :: CompletionRun(s, t, steps, s')
    ensures forall steps, s' :: CompletionRun(s, t, steps, s') ==> (Safe(s') <==> HarmlessTake(s, t))
  {
    var a, x;
    if TakesOwn(s, t) {
      a, x := OwnCompletion(s, t);
      CoreIsSafe(x);
    } else {
      var d := Find(s.cmds, s.objs[Th(s, t).cmd].id).value;
      a, x := TakenFrom(s, t, d);
    }
    hide *;
    forall steps, s' | CompletionRun(s, t, steps, s') ensures s' == x {
      CompletionUnique(s, t, a, x, steps, s');
    }
  }

  lemma TakenFrom(s: State, t: Tid, d: Cmd) returns (steps: seq<Step>, s': State)
    requires Core(s) && LastTake(s, t) && d != Th(s, t).cmd
    requires Find(s.cmds, s.objs[Th(s, t).cmd].id) == Some(d)
    ensures CompletionRun(s, t, steps, s')
    ensures Safe(s') <==> InFlight(s, d) != {}
                          || ((forall k :: !Has(s.handlers, d, k)) && (forall u :: !Does(Th(s, u), Start, d)))
  {
    assert d in s.objs;
    hide Core, LastTake, CompletionRun, Completed, Has, InFlight, Alive;
    steps, s' := ForeignCompletion(s, t, d);
    TableAfter(s, s', t, d);
    EntriesAfter(s, s', t, d);
    ThreadsAfter(s, s', t, d);
  }

  lemma CompletionUnique(s: State, t: Tid, a: seq<Step>, x: State, b: seq<Step>, y: State)
    requires CompletionRun(s, t, a, x) && CompletionRun(s, t, b, y)
    ensures x == y
  {
    OnlyRunUnique(s, t, a, x, b, y);
  }

  lemma ReuseStep(s: State) returns (reuse: Step, s0: State)
    requires s == InFlightState()
    ensures reuse.StartCall? && Enabled(s, reuse) && !Disciplined(s, reuse) && s0 == Exec(s, reuse)
    ensures s0 == s.(cmds := [CmdInfo(7, 12)], objs := s.objs[12 := Obj(RssiMonitor, 7, 1, false, 0)],
                     threads := s.threads[1 := Running(Start, 12, [Touch, On(RSSI_MONITOR)], None, false)])
  {
    reuse := StartCall(1, 12, RssiMonitor, 7, [Touch, On(RSSI_MONITOR)]);
    assert Outstanding(s, 11) by { assert Does(Th(s, 2), Dispatch, 11); }
    s0 := Exec(s, reuse);
  }

  /** Rule (1) can be broken: reusing the id of a cancelled measurement whose last event is still
      being dispatched lets that dispatch free the new command under its handler. */
  lemma ReusedIdExample() returns (before: seq<Step>, s: State, reuse: Step, after: seq<Step>, s': State)
    ensures Run(DisciplinedStep, Empty(), before, s)
    ensures reuse.StartCall? && Enabled(s, reuse) && !Disciplined(s, reuse)
    ensures Run(DisciplinedStep, Exec(s, reuse), after, s') && !Safe(s')
  {
    before, s := CancelledInFlight();
    var s0, mid, rest;
    reuse, s0 := ReuseStep(s);
    assert Run(DisciplinedStep, s0, [], s0);
    assert FrontIsOwn(ReusedTable(), 11, EventKey(RTT_COMPLETE));
    hide Run, Enabled, Exec, Disciplined, Safe, Release, RemoveFirst, FrontIsOwn;
    after, mid := LoneStarter(s0, [], s0, 1, RSSI_MONITOR);
    assert mid.handlers == ReusedTable();
    rest, s' := CompletionTakesById(mid, 2, 11, 12);
    RunConcat(DisciplinedStep, s0, after, mid, rest, s');
    after := after + rest;
    ReusedUnsafe(mid, s');
  }

  function ReusedTable(): seq<Handler> {
    [Handler(EventKey(RTT_COMPLETE), 0, 11), Handler(EventKey(RSSI_MONITOR), 0, 12)]
  }

  lemma ReusedUnsafe(s: State, s': State)
    requires s.handlers == ReusedTable() && 12 in s.objs && s.objs[12] == Obj(RssiMonitor, 7, 1, false, 0)
    requires s'.handlers == RemoveFirst(s.handlers, EventKey(RTT_COMPLETE)) && s'.objs == Release(s, 12, true).objs
    ensures !Safe(s')
  {
    assert s'.handlers == [Handler(EventKey(RSSI_MONITOR), 0, 12)];
    assert s'.handlers[0].arg == 12;
  }
}
