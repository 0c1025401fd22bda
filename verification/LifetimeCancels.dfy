/** What cancels and dispatches achieve when nothing disturbs them: each event of the class loses its
    oldest listener, the tables are otherwise as before, and every reference taken is given back. */
module LifetimeCancels {
  import opened Prelude
  import opened Runs
  import opened Handlers
  import opened Commands
  import opened Lifetime
  import opened LifetimeSteps
  import opened LifetimeRuns
  import opened LifetimeStarts

  /** The queues after a cancel of a command of this class: each of its events loses its front. */
  ghost predicate FrontsRemoved(hs: seq<Handler>, hs': seq<Handler>, cls: Class) {
    forall k :: Queue(hs', k) ==
      if Listens(cls, k) && Queue(hs, k) != [] then Queue(hs, k)[1..] else Queue(hs, k)
  }

  lemma {:induction false} DrainQueues(hs: seq<Handler>, body: seq<Act>, q: Key)
    requires CancelBody(body)
    ensures Queue(Drain(hs, body), q) ==
            if Unregister(q) in body && Queue(hs, q) != [] then Queue(hs, q)[1..] else Queue(hs, q)
    decreases |body|
  {
    hide Queue, RemoveFirst;
    if body != [] {
      Tail(body);
      assert body == [body[0]] + body[1..];
      DrainQueues(if body[0].Unregister? then RemoveFirst(hs, body[0].k) else hs, body[1..], q);
      if body[0].Unregister? {
        RemoveDequeues(hs, body[0].k, q);
      }
    }
  }

  lemma CancelQueues(hs: seq<Handler>, cls: Class)
    ensures FrontsRemoved(hs, Drain(hs, CancelPath(cls)), cls)
  {
    CancelPathShape(cls);
    CancelOnlyOwn(cls);
    hide Drain, CancelPath, Queue, Listens;
    forall k ensures Queue(Drain(hs, CancelPath(cls)), k) ==
                     if Listens(cls, k) && Queue(hs, k) != [] then Queue(hs, k)[1..] else Queue(hs, k) {
      DrainQueues(hs, CancelPath(cls), k);
    }
  }

  lemma CancelOnlyOwn(cls: Class)
    ensures forall k :: Unregister(k) in CancelPath(cls) ==> Listens(cls, k)
  {
  }

  // ---------------------------------------------------------------- wifi_cancel_cmd

  /** Only c differs between the two object maps, which gave back its owner reference. */
  ghost predicate GivenBack(before: map<Cmd, Obj>, after: map<Cmd, Obj>, c: Cmd)
    requires c in before
  {
    var o := before[c];
    after == before[c := o.(refs := o.refs - 1, released := true, frees := if o.refs == 1 then o.frees + 1 else o.frees)]
  }

  lemma CancelStarted(s: State, t: Tid, id: int32, c: Cmd) returns (s1: State)
    requires Enabled(s, CancelCall(t, id)) && s.lock.None? && Find(s.cmds, id) == Some(c)
    ensures AnyStep(s, CancelCall(t, id), s1) && LoneCancel(s1, t) && c in s.objs
    ensures s1 == s.(cmds := Without(s.cmds, IndexOfId(s.cmds, id)),
                     threads := s.threads[t := Running(Cancel, c, CancelPath(s.objs[c].cls), None, false)])
  {
    s1 := Exec(s, CancelCall(t, id));
  }

  /** The rest of a cancel() of class cls. */
  lemma CancelRest(s1: State, t: Tid, c: Cmd, cls: Class) returns (rest: seq<Step>, s': State)
    requires LoneCancel(s1, t) && Th(s1, t) == Running(Cancel, c, CancelPath(cls), None, false)
    ensures Run(AnyStep, s1, rest, s') && Only(rest, t) && Th(s', t).Idle?
    ensures FrontsRemoved(s1.handlers, s'.handlers, cls) && s'.cmds == s1.cmds && GivenBack(s1.objs, s'.objs, c)
  {
    CancelPathShape(cls);
    CancelQueues(s1.handlers, cls);
    hide Run, AnyStep, Drain, CancelPath, FrontsRemoved;
    rest, s' := LoneCanceller(s1, t);
  }

  lemma CallThen(s: State, t: Tid, call: Step, s1: State, rest: seq<Step>, s': State) returns (steps: seq<Step>)
    requires AnyStep(s, call, s1) && Run(AnyStep, s1, rest, s') && Only(rest, t) && Th(s', t).Idle?
    ensures CallRun(s, t, call, steps, s')
  {
    hide AnyStep;
    RunOne(AnyStep, s, call, s1);
    RunConcat(AnyStep, s, [call], s1, rest, s');
    steps := [call] + rest;
    assert steps[1..] == rest;
  }

  lemma SomeCancelRun(s: State, t: Tid, id: int32, c: Cmd) returns (steps: seq<Step>, s': State)
    requires Enabled(s, CancelCall(t, id)) && s.lock.None? && Find(s.cmds, id) == Some(c)
    ensures c in s.objs && CallRun(s, t, CancelCall(t, id), steps, s')
    ensures FrontsRemoved(s.handlers, s'.handlers, s.objs[c].cls)
    ensures s'.cmds == Without(s.cmds, IndexOfId(s.cmds, id)) && GivenBack(s.objs, s'.objs, c)
  {
    hide Enabled, CallRun, Run, AnyStep, Only, FrontsRemoved, GivenBack, Without, IndexOfId, Find, LoneCancel;
    var s1 := CancelStarted(s, t, id, c);
    var rest;
    rest, s' := CancelRest(s1, t, c, s.objs[c].cls);
    steps := CallThen(s, t, CancelCall(t, id), s1, rest, s');
  }

  /** A cancel left undisturbed can return, and however it does: the first entry of the id is out of the
      command table, each event of the command's class has lost its oldest listener and no other queue has
      changed, and the owner reference is given back, the command being deleted if that was the last. */
  lemma EveryCancelRun(s: State, t: Tid, id: int32, c: Cmd)
    requires Enabled(s, CancelCall(t, id)) && s.lock.None? && Find(s.cmds, id) == Some(c) && c in s.objs
    ensures exists steps, s' :: CallRun(s, t, CancelCall(t, id), steps, s')
    ensures forall steps, s' :: CallRun(s, t, CancelCall(t, id), steps, s') ==>
              && s'.cmds == Without(s.cmds, IndexOfId(s.cmds, id))
              && FrontsRemoved(s.handlers, s'.handlers, s.objs[c].cls)
              && GivenBack(s.objs, s'.objs, c)
  {
    hide *;
    var a, x := SomeCancelRun(s, t, id, c);
    forall steps, s' | CallRun(s, t, CancelCall(t, id), steps, s') ensures s' == x {
      CallRunUnique(s, t, CancelCall(t, id), a, x, steps, s');
    }
  }

  /** A cancel of an id the table does not hold changes nothing. */
  lemma UnknownCancel(s: State, t: Tid, id: int32)
    requires Enabled(s, CancelCall(t, id)) && Find(s.cmds, id) == None
    ensures Exec(s, CancelCall(t, id)) == s
  {
  }

  // ---------------------------------------------------------------- a command made for its cancel()

  lemma BlanketStarted(s: State, t: Tid, c: Cmd, cls: Class, id: int32) returns (s1: State)
    requires Enabled(s, BlanketCancel(t, c, cls, id)) && s.lock.None?
    ensures AnyStep(s, BlanketCancel(t, c, cls, id), s1) && LoneCancel(s1, t)
    ensures s1 == s.(objs := s.objs[c := Obj(cls, id, 1, false, 0)],
                     threads := s.threads[t := Running(Cancel, c, CancelPath(cls), None, false)])
  {
    s1 := Exec(s, BlanketCancel(t, c, cls, id));
  }

  lemma SomeBlanketRun(s: State, t: Tid, c: Cmd, cls: Class, id: int32) returns (steps: seq<Step>, s': State)
    requires Enabled(s, BlanketCancel(t, c, cls, id)) && s.lock.None?
    ensures CallRun(s, t, BlanketCancel(t, c, cls, id), steps, s')
    ensures FrontsRemoved(s.handlers, s'.handlers, cls) && s'.cmds == s.cmds
    ensures s'.objs == s.objs[c := Obj(cls, id, 0, true, 1)]
  {
    hide Enabled, CallRun, Run, AnyStep, Only, FrontsRemoved, LoneCancel;
    var s1 := BlanketStarted(s, t, c, cls, id);
    var rest;
    rest, s' := CancelRest(s1, t, c, cls);
    steps := CallThen(s, t, BlanketCancel(t, c, cls, id), s1, rest, s');
  }

  /** Stopping through a command made for the purpose takes the oldest listener of each event of the class
      away, leaves both the command table and every other command alone, and deletes the one it made. */
  lemma EveryBlanketRun(s: State, t: Tid, c: Cmd, cls: Class, id: int32)
    requires Enabled(s, BlanketCancel(t, c, cls, id)) && s.lock.None?
    ensures exists steps, s' :: CallRun(s, t, BlanketCancel(t, c, cls, id), steps, s')
    ensures forall steps, s' :: CallRun(s, t, BlanketCancel(t, c, cls, id), steps, s') ==>
              && FrontsRemoved(s.handlers, s'.handlers, cls) && s'.cmds == s.cmds
              && s'.objs == s.objs[c := Obj(cls, id, 0, true, 1)]
  {
    hide *;
    var a, x := SomeBlanketRun(s, t, c, cls, id);
    forall steps, s' | CallRun(s, t, BlanketCancel(t, c, cls, id), steps, s') ensures s' == x {
      CallRunUnique(s, t, BlanketCancel(t, c, cls, id), a, x, steps, s');
    }
  }

  // ---------------------------------------------------------------- a start followed by its cancel

  lemma {:induction false} OthersKept(hs: seq<Handler>, alloc: nat, c: Cmd, body: seq<Act>, k: Key)
    requires Register(k) !in body && Unregister(k) !in body
    ensures Queue(HandlersAfter(hs, alloc, c, body), k) == Queue(hs, k)
    decreases |body|
  {
    hide Queue, RemoveFirst;
    if body != [] {
      var hs' := ActedOn(hs, alloc, c, body[0]);
      assert body[0] in body && body == [body[0]] + body[1..];
      OthersKept(hs', alloc, c, body[1..], k);
      if body[0].Register? {
        AppendEnqueues(hs, Handler(body[0].k, 0, c), k);
      } else if body[0].Unregister? {
        RemoveDequeues(hs, body[0].k, k);
      }
    }
  }

  /** A successful start changes the queues of its own events only. */
  lemma StartLeavesOthers(s: State, t: Tid, c: Cmd, cls: Class, id: int32, path: seq<Act>, steps: seq<Step>, s1: State, k: Key)
    requires Enabled(s, StartCall(t, c, cls, id, path)) && s.lock.None? && Succeeds(path)
    requires CallRun(s, t, StartCall(t, c, cls, id, path), steps, s1) && !Listens(cls, k)
    ensures Queue(s1.handlers, k) == Queue(s.handlers, k)
  {
    assert path in StartPaths(cls);
    hide Exec, Enabled, CallRun, Queue, HandlersAfter, StartPaths, Succeeds, Listens;
    EveryStartRun(s, t, c, cls, id, path);
    StartPathShape(cls, path);
    EventsExist(cls);
    var ev :| ev in Events(cls);
    SuccessRegistersAll(cls, path, ev);
    OthersKept(s.handlers, s.allocHandlers, c, path, k);
  }

  lemma OwnLast(cs: seq<CmdInfo>, id: int32, c: Cmd)
    requires IndexOfId(cs, id) == |cs|
    ensures var cs' := cs + [CmdInfo(id, c)];
            IndexOfId(cs', id) == |cs| && Find(cs', id) == Some(c) && Without(cs', |cs|) == cs
  {
    hide IndexOfId;
    var cs' := cs + [CmdInfo(id, c)];
    var i := IndexOfId(cs', id);
    assert forall j :: 0 <= j < |cs| ==> cs'[j] == cs[j] && cs[j].id != id;
    assert cs'[|cs|].id == id;
  }

  lemma {:induction false} QueueHolds(hs: seq<Handler>, k: Key)
    ensures forall h :: h in Queue(hs, k) ==> h in hs && h.key == k
  {
    if hs != [] {
      QueueHolds(hs[1..], k);
    }
  }

  /** The queue of an event after c joined at its end and its front was removed. */
  lemma JoinedAndCut(hs: seq<Handler>, k: Key, c: Cmd)
    requires !Has(hs, c, k)
    ensures (Queue(hs, k) + [Handler(k, 0, c)])[1..] == Queue(hs, k) <==> Queue(hs, k) == []
  {
    var q, h := Queue(hs, k), Handler(k, 0, c);
    QueueHolds(hs, k);
    assert forall i :: 0 <= i < |hs| && hs[i] == h ==> Has(hs, c, k);
    if q != [] {
      assert (q + [h])[1..][|q| - 1] == h && q[|q| - 1] in q;
    }
  }

  /** A successful start followed by its cancel, both undisturbed: the command table is as it was and the
      command is deleted, but the queues are as they were exactly if nobody else had been listening to the
      class's events; otherwise it is another command that was silenced. */
  lemma CancelUndoesStartIff(s: State, t: Tid, c: Cmd, cls: Class, id: int32, path: seq<Act>, steps: seq<Step>,
                             s1: State, more: seq<Step>, s2: State)
    requires Enabled(s, StartCall(t, c, cls, id, path)) && s.lock.None? && Succeeds(path)
    requires |s.handlers| + |Events(cls)| <= s.allocHandlers && |s.cmds| < s.allocCmds
    requires IndexOfId(s.cmds, id) == |s.cmds| && forall k :: !Has(s.handlers, c, k)
    requires CallRun(s, t, StartCall(t, c, cls, id, path), steps, s1) && CallRun(s1, t, CancelCall(t, id), more, s2)
    ensures s2.cmds == s.cmds && s2.objs == s.objs[c := Obj(cls, id, 0, true, 1)]
    ensures (forall k :: Queue(s2.handlers, k) == Queue(s.handlers, k))
       <==> forall ev :: ev in Events(cls) ==> Queue(s.handlers, EventKey(ev)) == []
  {
    var a, x := SomeStartRun(s, t, c, cls, id, path);
    CallRunUnique(s, t, StartCall(t, c, cls, id, path), a, x, steps, s1);
    SuccessfulStartListens(s, t, c, cls, id, path, steps, s1);
    OwnLast(s.cmds, id, c);
    CancelAgain(s, s1, t, id, c, cls, more, s2);
    QueuesRestoredIff(s, t, c, cls, id, path, steps, s1, s2);
  }

  lemma CancelAgain(s: State, s1: State, t: Tid, id: int32, c: Cmd, cls: Class, more: seq<Step>, s2: State)
    requires s1.lock.None? && s1.objs == s.objs[c := Obj(cls, id, 1, false, 0)] && s1.threads == s.threads[t := Idle]
    requires Find(s1.cmds, id) == Some(c) && CallRun(s1, t, CancelCall(t, id), more, s2)
    ensures s2.cmds == Without(s1.cmds, IndexOfId(s1.cmds, id)) && s2.objs == s.objs[c := Obj(cls, id, 0, true, 1)]
    ensures FrontsRemoved(s1.handlers, s2.handlers, cls)
  {
    hide CallRun, FrontsRemoved, Find, Without, IndexOfId;
    assert Enabled(s1, CancelCall(t, id));
    EveryCancelRun(s1, t, id, c);
    assert s2.objs == s.objs[c := Obj(cls, id, 0, true, 1)];
  }

  lemma QueuesRestoredIff(s: State, t: Tid, c: Cmd, cls: Class, id: int32, path: seq<Act>, steps: seq<Step>,
                          s1: State, s2: State)
    requires Enabled(s, StartCall(t, c, cls, id, path)) && s.lock.None? && Succeeds(path)
    requires |s.handlers| + |Events(cls)| <= s.allocHandlers && |s.cmds| < s.allocCmds
    requires forall k :: !Has(s.handlers, c, k)
    requires CallRun(s, t, StartCall(t, c, cls, id, path), steps, s1) && FrontsRemoved(s1.handlers, s2.handlers, cls)
    ensures (forall k :: Queue(s2.handlers, k) == Queue(s.handlers, k))
       <==> forall ev :: ev in Events(cls) ==> Queue(s.handlers, EventKey(ev)) == []
  {
    hide Enabled, CallRun, Succeeds, Queue, Has;
    SuccessfulStartListens(s, t, c, cls, id, path, steps, s1);
    forall k ensures if Listens(cls, k) then (Queue(s2.handlers, k) == Queue(s.handlers, k) <==> Queue(s.handlers, k) == [])
                     else Queue(s2.handlers, k) == Queue(s.handlers, k) {
      if Listens(cls, k) {
        assert k == EventKey(k.vendorSubcmd);
        JoinedAndCut(s.handlers, k, c);
      } else {
        StartLeavesOthers(s, t, c, cls, id, path, steps, s1, k);
      }
    }
    forall ev | ev in Events(cls) ensures Listens(cls, EventKey(ev)) {
    }
  }

  // ---------------------------------------------------------------- a dispatch

  /** steps is an undisturbed dispatch of key on thread u whose callback takes this course. */
  ghost predicate DispatchRun(s: State, u: Tid, key: Key, path: seq<Act>, steps: seq<Step>, s': State) {
    && |steps| >= 2 && steps[0] == EventCall(u, key) && steps[1] == Search(u, path) && Only(steps[2..], u)
    && Run(AnyStep, s, steps, s') && Th(s', u).Idle?
  }

  predicate LoneDispatch(s: State, u: Tid) {
    && Th(s, u).Running? && Th(s, u).role.Dispatch? && Th(s, u).taken.None? && !Th(s, u).locked
    && s.lock.None? && Th(s, u).cmd in s.objs && forall i :: 0 <= i < |Th(s, u).body| ==> Th(s, u).body[i].Touch?
  }

  lemma DispatchAct(s: State, u: Tid) returns (s': State)
    requires LoneDispatch(s, u)
    ensures AnyStep(s, Advance(u), s')
    ensures Th(s, u).body != [] ==>
              LoneDispatch(s', u) && s' == s.(threads := s.threads[u := Th(s, u).(body := Th(s, u).body[1..])])
    ensures Th(s, u).body == [] ==> s' == Release(s, Th(s, u).cmd, false).(threads := s.threads[u := Idle])
  {
    s' := Exec(s, Advance(u));
  }

  /** A callback that only uses its command, then the closing releaseRef. */
  lemma {:induction false} LoneDispatcher(s: State, u: Tid) returns (steps: seq<Step>, s': State)
    requires LoneDispatch(s, u)
    ensures Run(AnyStep, s, steps, s') && Only(steps, u)
    ensures s' == Release(s, Th(s, u).cmd, false).(threads := s.threads[u := Idle])
    decreases |Th(s, u).body|
  {
    var body := Th(s, u).body;
    hide LoneDispatch, AnyStep, Run;
    var s1 := DispatchAct(s, u);
    RunOne(AnyStep, s, Advance(u), s1);
    if body == [] {
      steps, s' := [Advance(u)], s1;
    } else {
      var rest;
      rest, s' := LoneDispatcher(s1, u);
      assert s1.threads[u := Idle] == s.threads[u := Idle];
      steps := [Advance(u)] + rest;
      RunConcat(AnyStep, s, [Advance(u)], s1, rest, s');
    }
  }

  lemma UnlockFirst(s: State, u: Tid) returns (s': State)
    requires Th(s, u).Running? && Th(s, u).role.Dispatch? && Th(s, u).taken.None? && Th(s, u).locked
    requires Th(s, u).cmd in s.objs && Th(s, u).body != [] && Th(s, u).body[0].Unlock?
    requires forall i :: 0 < i < |Th(s, u).body| ==> Th(s, u).body[i].Touch?
    ensures AnyStep(s, Advance(u), s') && LoneDispatch(s', u)
    ensures s' == s.(lock := None, threads := s.threads[u := Th(s, u).(body := Th(s, u).body[1..], locked := false)])
  {
    s' := Exec(s, Advance(u));
  }

  /** From the search on. */
  lemma AfterSearch(s2: State, u: Tid) returns (steps: seq<Step>, s': State)
    requires Th(s2, u).Running? && Th(s2, u).role.Dispatch? && Th(s2, u).taken.None? && Th(s2, u).locked
    requires Th(s2, u).cmd in s2.objs && Th(s2, u).body != [] && Th(s2, u).body[0].Unlock?
    requires forall i :: 0 < i < |Th(s2, u).body| ==> Th(s2, u).body[i].Touch?
    ensures Run(AnyStep, s2, steps, s') && Only(steps, u)
    ensures s' == Release(s2, Th(s2, u).cmd, false).(lock := None, threads := s2.threads[u := Idle])
  {
    hide LoneDispatch, AnyStep, Run;
    var s3 := UnlockFirst(s2, u);
    RunOne(AnyStep, s2, Advance(u), s3);
    var rest;
    rest, s' := LoneDispatcher(s3, u);
    assert s3.threads[u := Idle] == s2.threads[u := Idle];
    steps := [Advance(u)] + rest;
    RunConcat(AnyStep, s2, [Advance(u)], s3, rest, s');
  }

  lemma Searched(s: State, u: Tid, key: Key, path: seq<Act>) returns (s1: State, s2: State)
    requires Enabled(s, EventCall(u, key)) && Enabled(Exec(s, EventCall(u, key)), Search(u, path))
    requires Queue(s.handlers, key) != []
    ensures AnyStep(s, EventCall(u, key), s1) && AnyStep(s1, Search(u, path), s2)
    ensures var c := Queue(s.handlers, key)[0].arg;
            && c in s.objs && path in DispatchPaths(s.objs[c].cls)
            && s2 == AddRef(s, c).(lock := Some(u), threads := s.threads[u := Running(Dispatch, c, path, None, true)])
  {
    FirstMatchIsFront(s.handlers, key);
    s1 := Exec(s, EventCall(u, key));
    s2 := Exec(s1, Search(u, path));
    assert s2.threads == s.threads[u := Th(s2, u)];
  }

  /** The reference taken for a dispatch is given back. */
  lemma TakenAndGiven(s: State, c: Cmd)
    requires c in s.objs && s.objs[c].refs > 0
    ensures Release(AddRef(s, c), c, false) == s
  {
    assert Release(AddRef(s, c), c, false).objs == s.objs;
  }

  lemma SomeDispatchRun(s: State, u: Tid, key: Key, path: seq<Act>) returns (steps: seq<Step>, s': State)
    requires Enabled(s, EventCall(u, key)) && Enabled(Exec(s, EventCall(u, key)), Search(u, path))
    requires Queue(s.handlers, key) != [] && TakeCmd !in path
    requires forall c :: c in s.objs && c == Queue(s.handlers, key)[0].arg ==> s.objs[c].refs > 0
    ensures DispatchRun(s, u, key, path, steps, s') && s' == s.(threads := s.threads[u := Idle])
  {
    var s1, s2 := Searched(s, u, key, path);
    var c := Queue(s.handlers, key)[0].arg;
    OnlyTouches(s.objs[c].cls, path);
    TakenAndGiven(s, c);
    assert s.lock.None?;
    hide Enabled, Exec, AnyStep, Run, Queue, DispatchPaths, DispatchRun, AddRef, Release;
    var rest;
    rest, s' := AfterSearch(s2, u);
    assert s' == s.(threads := s.threads[u := Idle]);
    steps := DispatchThen(s, u, key, path, s1, s2, rest, s');
  }

  lemma DispatchThen(s: State, u: Tid, key: Key, path: seq<Act>, s1: State, s2: State, rest: seq<Step>, s': State)
    returns (steps: seq<Step>)
    requires AnyStep(s, EventCall(u, key), s1) && AnyStep(s1, Search(u, path), s2)
    requires Run(AnyStep, s2, rest, s') && Only(rest, u) && Th(s', u).Idle?
    ensures DispatchRun(s, u, key, path, steps, s')
  {
    hide AnyStep, Run;
    RunOne(AnyStep, s, EventCall(u, key), s1);
    RunOne(AnyStep, s1, Search(u, path), s2);
    RunConcat(AnyStep, s1, [Search(u, path)], s2, rest, s');
    RunConcat(AnyStep, s, [EventCall(u, key)], s1, [Search(u, path)] + rest, s');
    steps := [EventCall(u, key)] + ([Search(u, path)] + rest);
    assert steps[2..] == rest;
  }

  lemma OnlyTouches(cls: Class, path: seq<Act>)
    requires path in DispatchPaths(cls) && TakeCmd !in path
    ensures path != [] && path[0].Unlock? && forall i :: 0 < i < |path| ==> path[i].Touch?
  {
    var completing := [Unlock, Touch, Off(RTT_COMPLETE), Touch, TakeCmd, Touch];
    assert completing[4] == TakeCmd;
  }

  lemma DispatchRunUnique(s: State, u: Tid, key: Key, path: seq<Act>, a: seq<Step>, x: State, b: seq<Step>, y: State)
    requires DispatchRun(s, u, key, path, a, x) && DispatchRun(s, u, key, path, b, y)
    ensures x == y
  {
    hide Exec;
    var x1 :| AnyStep(s, a[0], x1) && Run(AnyStep, x1, a[1..], x);
    var y1 :| AnyStep(s, b[0], y1) && Run(AnyStep, y1, b[1..], y);
    var x2 :| AnyStep(x1, a[1..][0], x2) && Run(AnyStep, x2, a[1..][1..], x);
    var y2 :| AnyStep(y1, b[1..][0], y2) && Run(AnyStep, y2, b[1..][1..], y);
    assert a[1..][1..] == a[2..] && b[1..][1..] == b[2..];
    OnlyRunUnique(x2, u, a[2..], x, b[2..], y);
  }

  /** A dispatch left undisturbed whose callback completes nothing can return, and however it does it
      leaves the tables, cb_lock and every command, with its reference count, as they were. */
  lemma EveryDispatchRun(s: State, u: Tid, key: Key, path: seq<Act>)
    requires Enabled(s, EventCall(u, key)) && Enabled(Exec(s, EventCall(u, key)), Search(u, path))
    requires Queue(s.handlers, key) != [] && TakeCmd !in path
    requires forall c :: c in s.objs && c == Queue(s.handlers, key)[0].arg ==> s.objs[c].refs > 0
    ensures exists steps, s' :: DispatchRun(s, u, key, path, steps, s')
    ensures forall steps, s' :: DispatchRun(s, u, key, path, steps, s') ==> s' == s.(threads := s.threads[u := Idle])
  {
    hide *;
    var a, x := SomeDispatchRun(s, u, key, path);
    forall steps, s' | DispatchRun(s, u, key, path, steps, s') ensures s' == x {
      DispatchRunUnique(s, u, key, path, a, x, steps, s');
    }
  }
}
