/** What start calls and dispatches achieve when nothing disturbs them: a command that was started hears
    all of its events, one whose start failed leaves no trace, and an event reaches the front of its queue. */
module LifetimeStarts {
  import opened Prelude
  import opened Runs
  import opened Handlers
  import opened Commands
  import opened Lifetime
  import opened LifetimeSteps
  import opened LifetimeRuns

  // ---------------------------------------------------------------- the courses of start()

  /** A course that ends with the command listening: it registers something and drops nothing. */
  predicate Succeeds(path: seq<Act>) {
    DropCmd !in path && exists i :: 0 <= i < |path| && path[i].Register?
  }

  /** A successful start registers every event of its class, and removes none. */
  lemma SuccessRegistersAll(cls: Class, path: seq<Act>, ev: int32)
    requires path in StartPaths(cls) && Succeeds(path) && ev in Events(cls)
    ensures On(ev) in path && forall k :: Unregister(k) !in path
  {
    CourseForms(cls, path);
    match cls
    case Scan =>
      assert path[1] == On(SCAN_RESULTS_AVAILABLE) && path[2] == On(COMPLETE_SCAN) && path[3] == On(FULL_SCAN_RESULTS);
    case Hotlist => assert path[1] == On(HOTLIST_RESULTS_FOUND) && path[2] == On(HOTLIST_RESULTS_LOST);
    case FullScan => assert path[1] == On(FULL_SCAN_RESULTS);
    case Epno => assert path[1] == On(EPNO_EVENT);
    case SignificantChange => assert path[1] == On(SIGNIFICANT_CHANGE_RESULTS);
    case Anqpo => assert path[1] == On(ANQPO_HOTSPOT_MATCH);
    case RssiMonitor => assert path[1] == On(RSSI_MONITOR);
    case Rtt => assert path[1] == On(RTT_COMPLETE);
  }

  /** The one successful course of each class. */
  function SuccessPath(cls: Class): (path: seq<Act>)
    ensures path in StartPaths(cls) && Succeeds(path)
  {
    match cls
    case Scan =>
      var p := [Touch, On(SCAN_RESULTS_AVAILABLE), On(COMPLETE_SCAN), On(FULL_SCAN_RESULTS), Touch];
      assert p[1].Register?;
      p
    case FullScan => var p := [Touch, On(FULL_SCAN_RESULTS), Touch]; assert p[1].Register?; p
    case Hotlist =>
      var p := [Touch, On(HOTLIST_RESULTS_FOUND), On(HOTLIST_RESULTS_LOST), Touch];
      assert p[1].Register?;
      p
    case Epno => var p := [Touch, On(EPNO_EVENT)]; assert p[1].Register?; p
    case SignificantChange => var p := [Touch, On(SIGNIFICANT_CHANGE_RESULTS), Touch]; assert p[1].Register?; p
    case Anqpo => var p := [Touch, On(ANQPO_HOTSPOT_MATCH), Touch]; assert p[1].Register?; p
    case RssiMonitor => var p := [Touch, On(RSSI_MONITOR)]; assert p[1].Register?; p
    case Rtt => var p := [Touch, On(RTT_COMPLETE)]; assert p[1].Register?; p
  }

  lemma CourseForms(cls: Class, path: seq<Act>)
    requires path in StartPaths(cls) && Succeeds(path)
    ensures path == SuccessPath(cls)
  {
    StartPathBody(cls, path);
    var last := path[|path| - 1];
    assert last in path;
  }

  // ---------------------------------------------------------------- an undisturbed start

  /** The tables after an act of command c, started under id. */
  function HandlersAfter(hs: seq<Handler>, alloc: nat, c: Cmd, body: seq<Act>): seq<Handler>
    decreases |body|
  {
    if body == [] then hs
    else HandlersAfter(ActedOn(hs, alloc, c, body[0]), alloc, c, body[1..])
  }

  function ActedOn(hs: seq<Handler>, alloc: nat, c: Cmd, act: Act): seq<Handler> {
    match act
    case Register(k) => if |hs| < alloc then hs + [Handler(k, 0, c)] else hs
    case Unregister(k) => RemoveFirst(hs, k)
    case _ => hs
  }

  function CmdsAfter(cs: seq<CmdInfo>, id: int32, body: seq<Act>): seq<CmdInfo>
    decreases |body|
  {
    if body == [] then cs
    else CmdsAfter(if body[0].DropCmd? then Without(cs, IndexOfId(cs, id)) else cs, id, body[1..])
  }

  predicate LoneStart(s: State, t: Tid) {
    && Th(s, t).Running? && Th(s, t).role.Start? && Th(s, t).taken.None? && !Th(s, t).locked
    && s.lock.None? && Th(s, t).cmd in s.objs
  }

  predicate StartBody(body: seq<Act>) {
    forall i :: 0 <= i < |body| ==> !body[i].Unlock? && !body[i].TakeCmd?
  }

  /** One act of a start that no other thread interrupts. */
  lemma StartAct(s: State, t: Tid) returns (steps: seq<Step>, s': State)
    requires LoneStart(s, t) && Th(s, t).body != [] && StartBody(Th(s, t).body)
    ensures Run(AnyStep, s, steps, s') && Only(steps, t)
    ensures var c, act := Th(s, t).cmd, Th(s, t).body[0];
            && s'.handlers == HandlersAfter(s.handlers, s.allocHandlers, c, [act])
            && s'.cmds == CmdsAfter(s.cmds, s.objs[c].id, [act])
    ensures s'.lock.None? && s'.objs == s.objs && s'.allocHandlers == s.allocHandlers
    ensures s'.threads == s.threads[t := Continue(Th(s, t))]
  {
    var act := Th(s, t).body[0];
    var s1 := Exec(s, Advance(t));
    RunOne(AnyStep, s, Advance(t), s1);
    assert [act][1..] == [];
    if UsesTable(act) {
      s' := Exec(s1, Advance(t));
      RunOne(AnyStep, s1, Advance(t), s');
      steps := [Advance(t)] + [Advance(t)];
      RunConcat(AnyStep, s, [Advance(t)], s1, [Advance(t)], s');
    } else {
      steps, s' := [Advance(t)], s1;
    }
  }

  lemma {:induction false} LoneStartBody(s: State, t: Tid) returns (steps: seq<Step>, s': State)
    requires LoneStart(s, t) && Th(s, t).body != [] && StartBody(Th(s, t).body)
    ensures Run(AnyStep, s, steps, s') && Only(steps, t)
    ensures var c, body := Th(s, t).cmd, Th(s, t).body;
            && s'.handlers == HandlersAfter(s.handlers, s.allocHandlers, c, body)
            && s'.cmds == CmdsAfter(s.cmds, s.objs[c].id, body)
    ensures s'.lock.None? && s'.objs == s.objs && s'.threads == s.threads[t := Idle]
    decreases |Th(s, t).body|
  {
    var c, body := Th(s, t).cmd, Th(s, t).body;
    var first, s1 := StartAct(s, t);
    OneActThenRest(s.handlers, s.allocHandlers, c, s.cmds, s.objs[c].id, body);
    hide HandlersAfter, CmdsAfter, Run, AnyStep;
    if |body| == 1 {
      steps, s' := first, s1;
      assert body == [body[0]];
    } else {
      assert Th(s1, t) == Th(s, t).(body := body[1..]);
      var rest;
      rest, s' := LoneStartBody(s1, t);
      steps := first + rest;
      assert s'.threads == s.threads[t := Idle];
      RunConcat(AnyStep, s, first, s1, rest, s');
    }
  }

  lemma OneActThenRest(hs: seq<Handler>, alloc: nat, c: Cmd, cs: seq<CmdInfo>, id: int32, body: seq<Act>)
    requires body != []
    ensures HandlersAfter(hs, alloc, c, body) == HandlersAfter(HandlersAfter(hs, alloc, c, [body[0]]), alloc, c, body[1..])
    ensures CmdsAfter(cs, id, body) == CmdsAfter(CmdsAfter(cs, id, [body[0]]), id, body[1..])
  {
    assert [body[0]][1..] == [];
  }

  /** steps is an undisturbed run of a call on thread t, from s to s', in which it has returned. */
  ghost predicate CallRun(s: State, t: Tid, call: Step, steps: seq<Step>, s': State) {
    steps != [] && steps[0] == call && Only(steps[1..], t) && Run(AnyStep, s, steps, s') && Th(s', t).Idle?
  }

  lemma CallRunUnique(s: State, t: Tid, call: Step, a: seq<Step>, x: State, b: seq<Step>, y: State)
    requires CallRun(s, t, call, a, x) && CallRun(s, t, call, b, y)
    ensures x == y
  {
    hide Exec;
    var x1 :| AnyStep(s, a[0], x1) && Run(AnyStep, x1, a[1..], x);
    var y1 :| AnyStep(s, b[0], y1) && Run(AnyStep, y1, b[1..], y);
    OnlyRunUnique(x1, t, a[1..], x, b[1..], y);
  }

  /** What a start call under path leaves of the two tables. */
  function StartedHandlers(s: State, c: Cmd, path: seq<Act>): seq<Handler> {
    HandlersAfter(s.handlers, s.allocHandlers, c, path)
  }

  function StartedCmds(s: State, c: Cmd, id: int32, path: seq<Act>): seq<CmdInfo> {
    CmdsAfter(if |s.cmds| < s.allocCmds then s.cmds + [CmdInfo(id, c)] else s.cmds, id, path)
  }

  lemma SomeStartRun(s: State, t: Tid, c: Cmd, cls: Class, id: int32, path: seq<Act>) returns (steps: seq<Step>, s': State)
    requires Enabled(s, StartCall(t, c, cls, id, path)) && s.lock.None?
    ensures CallRun(s, t, StartCall(t, c, cls, id, path), steps, s')
    ensures s'.handlers == StartedHandlers(s, c, path) && s'.cmds == StartedCmds(s, c, id, path)
    ensures s'.lock.None? && s'.objs == s.objs[c := Obj(cls, id, 1, false, 0)] && s'.threads == s.threads[t := Idle]
  {
    var call := StartCall(t, c, cls, id, path);
    var s1 := Exec(s, call);
    StartPathBody(cls, path);
    RunOne(AnyStep, s, call, s1);
    hide HandlersAfter, CmdsAfter, Run, AnyStep, Exec, Enabled;
    var rest;
    rest, s' := LoneStartBody(s1, t);
    steps := [call] + rest;
    assert steps[1..] == rest && s'.threads == s.threads[t := Idle];
    RunConcat(AnyStep, s, [call], s1, rest, s');
  }

  lemma StartPathBody(cls: Class, path: seq<Act>)
    requires path in StartPaths(cls)
    ensures path != [] && StartBody(path)
  {
  }

  /** A start call left undisturbed can return, and whenever it does the tables are these. */
  lemma EveryStartRun(s: State, t: Tid, c: Cmd, cls: Class, id: int32, path: seq<Act>)
    requires Enabled(s, StartCall(t, c, cls, id, path)) && s.lock.None?
    ensures exists steps, s' :: CallRun(s, t, StartCall(t, c, cls, id, path), steps, s')
    ensures forall steps, s' :: CallRun(s, t, StartCall(t, c, cls, id, path), steps, s') ==>
              s'.handlers == StartedHandlers(s, c, path) && s'.cmds == StartedCmds(s, c, id, path) && s'.lock.None?
  {
    hide *;
    var a, x := SomeStartRun(s, t, c, cls, id, path);
    forall steps, s' | CallRun(s, t, StartCall(t, c, cls, id, path), steps, s') ensures s' == x {
      CallRunUnique(s, t, StartCall(t, c, cls, id, path), a, x, steps, s');
    }
  }

  // ---------------------------------------------------------------- after a success

  /** The entries a course registers. */
  function NewEntries(c: Cmd, path: seq<Act>): seq<Handler> {
    if path == [] then []
    else (if path[0].Register? then [Handler(path[0].k, 0, c)] else []) + NewEntries(c, path[1..])
  }

  lemma {:induction false} RegisteredInOrder(hs: seq<Handler>, alloc: nat, c: Cmd, path: seq<Act>)
    requires |hs| + |NewEntries(c, path)| <= alloc
    requires forall i :: 0 <= i < |path| ==> !path[i].Unregister?
    ensures HandlersAfter(hs, alloc, c, path) == hs + NewEntries(c, path)
    decreases |path|
  {
    if path != [] {
      RegisteredInOrder(ActedOn(hs, alloc, c, path[0]), alloc, c, path[1..]);
    }
  }

  lemma NewEntriesCons(c: Cmd, a: Act, rest: seq<Act>)
    ensures NewEntries(c, [a] + rest) == (if a.Register? then [Handler(a.k, 0, c)] else []) + NewEntries(c, rest)
  {
    assert ([a] + rest)[1..] == rest;
  }

  /** One entry per event of the class. */
  lemma OneEntryPerEvent(cls: Class, c: Cmd, ev: int32)
    ensures |NewEntries(c, SuccessPath(cls))| == |Events(cls)|
    ensures ev in Events(cls) ==> Queue(NewEntries(c, SuccessPath(cls)), EventKey(ev)) == [Handler(EventKey(ev), 0, c)]
  {
    if cls == Scan {
      var a, b, d := On(SCAN_RESULTS_AVAILABLE), On(COMPLETE_SCAN), On(FULL_SCAN_RESULTS);
      assert SuccessPath(cls) == [Touch] + ([a] + ([b] + ([d] + [Touch])));
      ThreeEntries(c, a, b, d);
      QueueOfThree(Handler(a.k, 0, c), Handler(b.k, 0, c), Handler(d.k, 0, c), EventKey(ev));
    } else if cls == Hotlist {
      var a, b := On(HOTLIST_RESULTS_FOUND), On(HOTLIST_RESULTS_LOST);
      assert SuccessPath(cls) == [Touch] + ([a] + ([b] + [Touch]));
      TwoEntries(c, a, b);
      QueueOfTwo(Handler(a.k, 0, c), Handler(b.k, 0, c), EventKey(ev));
    } else {
      SingleEvent(cls, c, ev);
    }
  }

  lemma SingleEvent(cls: Class, c: Cmd, ev: int32)
    requires cls != Scan && cls != Hotlist
    ensures |NewEntries(c, SuccessPath(cls))| == |Events(cls)|
    ensures ev in Events(cls) ==> Queue(NewEntries(c, SuccessPath(cls)), EventKey(ev)) == [Handler(EventKey(ev), 0, c)]
  {
    var p := SuccessPath(cls);
    var a := p[1];
    assert p == [Touch] + ([a] + p[2..]) && (p[2..] == [] || p[2..] == [Touch]);
    NewEntriesCons(c, Touch, [a] + p[2..]);
    NewEntriesCons(c, a, p[2..]);
    TouchEntries(c);
    assert NewEntries(c, p) == [Handler(a.k, 0, c)];
    QueueOfOne(Handler(a.k, 0, c), EventKey(ev));
  }

  lemma TouchEntries(c: Cmd)
    ensures NewEntries(c, []) == NewEntries(c, [Touch]) == []
  {
    assert [Touch][1..] == [];
  }

  lemma TwoEntries(c: Cmd, a: Act, b: Act)
    requires a.Register? && b.Register?
    ensures NewEntries(c, [Touch] + ([a] + ([b] + [Touch]))) == [Handler(a.k, 0, c), Handler(b.k, 0, c)]
  {
    NewEntriesCons(c, Touch, [a] + ([b] + [Touch]));
    NewEntriesCons(c, a, [b] + [Touch]);
    NewEntriesCons(c, b, [Touch]);
    TouchEntries(c);
  }

  lemma ThreeEntries(c: Cmd, a: Act, b: Act, d: Act)
    requires a.Register? && b.Register? && d.Register?
    ensures NewEntries(c, [Touch] + ([a] + ([b] + ([d] + [Touch]))))
         == [Handler(a.k, 0, c), Handler(b.k, 0, c), Handler(d.k, 0, c)]
  {
    NewEntriesCons(c, Touch, [a] + ([b] + ([d] + [Touch])));
    NewEntriesCons(c, a, [b] + ([d] + [Touch]));
    NewEntriesCons(c, b, [d] + [Touch]);
    NewEntriesCons(c, d, [Touch]);
    TouchEntries(c);
  }

  lemma QueueOfOne(a: Handler, k: Key)
    ensures Queue([a], k) == if a.key == k then [a] else []
  {
    assert [a][1..] == [];
  }

  lemma QueueOfTwo(a: Handler, b: Handler, k: Key)
    ensures Queue([a, b], k) == (if a.key == k then [a] else []) + (if b.key == k then [b] else [])
  {
    QueueOfOne(b, k);
    assert [a, b][1..] == [b];
  }

  lemma QueueOfThree(a: Handler, b: Handler, d: Handler, k: Key)
    ensures Queue([a, b, d], k) ==
            (if a.key == k then [a] else []) + ((if b.key == k then [b] else []) + (if d.key == k then [d] else []))
  {
    QueueOfTwo(b, d, k);
    assert [a, b, d][1..] == [b, d];
  }

  /** After every undisturbed successful start with room in both tables, the command stands in the command
      table and, for each event of its class, last in that event's queue. */
  lemma SuccessfulStartListens(s: State, t: Tid, c: Cmd, cls: Class, id: int32, path: seq<Act>, steps: seq<Step>,
                               s': State)
    requires Enabled(s, StartCall(t, c, cls, id, path)) && s.lock.None? && Succeeds(path)
    requires |s.handlers| + |Events(cls)| <= s.allocHandlers && |s.cmds| < s.allocCmds
    requires CallRun(s, t, StartCall(t, c, cls, id, path), steps, s')
    ensures s'.cmds == s.cmds + [CmdInfo(id, c)]
    ensures forall ev :: ev in Events(cls) ==>
              && Has(s'.handlers, c, EventKey(ev))
              && Queue(s'.handlers, EventKey(ev)) == Queue(s.handlers, EventKey(ev)) + [Handler(EventKey(ev), 0, c)]
  {
    assert path in StartPaths(cls);
    hide Exec, Enabled, CallRun, SuccessPath, StartPaths;
    EveryStartRun(s, t, c, cls, id, path);
    CourseForms(cls, path);
    var added := NewEntries(c, path);
    OneEntryPerEvent(cls, c, 0);
    forall ev | ev in Events(cls) ensures forall k :: Unregister(k) !in path {
      SuccessRegistersAll(cls, path, ev);
    }
    EventsExist(cls);
    NoRemovals(path);
    RegisteredInOrder(s.handlers, s.allocHandlers, c, path);
    KeepsEntry(s.cmds + [CmdInfo(id, c)], id, path);
    forall ev | ev in Events(cls)
      ensures Has(s'.handlers, c, EventKey(ev))
      ensures Queue(s'.handlers, EventKey(ev)) == Queue(s.handlers, EventKey(ev)) + [Handler(EventKey(ev), 0, c)]
    {
      OneEntryPerEvent(cls, c, ev);
      QueueConcat(s.handlers, added, EventKey(ev));
      QueueMembers(added, EventKey(ev));
      var h := Handler(EventKey(ev), 0, c);
      assert Queue(added, EventKey(ev))[0] == h && h in added;
      var i :| 0 <= i < |added| && added[i] == h;
      assert s'.handlers[|s.handlers| + i] == added[i];
    }
  }

  lemma EventsExist(cls: Class)
    ensures exists ev :: ev in Events(cls)
  {
    match cls
    case Scan => assert COMPLETE_SCAN in Events(cls);
    case FullScan => assert FULL_SCAN_RESULTS in Events(cls);
    case Hotlist => assert HOTLIST_RESULTS_LOST in Events(cls);
    case Epno => assert EPNO_EVENT in Events(cls);
    case SignificantChange => assert SIGNIFICANT_CHANGE_RESULTS in Events(cls);
    case Anqpo => assert ANQPO_HOTSPOT_MATCH in Events(cls);
    case RssiMonitor => assert RSSI_MONITOR in Events(cls);
    case Rtt => assert RTT_COMPLETE in Events(cls);
  }

  lemma NoRemovals(path: seq<Act>)
    requires forall k :: Unregister(k) !in path
    ensures forall i :: 0 <= i < |path| ==> !path[i].Unregister?
  {
    forall i | 0 <= i < |path| ensures !path[i].Unregister? {
      assert path[i] in path;
    }
  }

  lemma {:induction false} KeepsEntry(cs: seq<CmdInfo>, id: int32, path: seq<Act>)
    requires DropCmd !in path
    ensures CmdsAfter(cs, id, path) == cs
    decreases |path|
  {
    if path != [] {
      assert path[0] in path;
      KeepsEntry(cs, id, path[1..]);
    }
  }

  lemma {:induction false} QueueMembers(hs: seq<Handler>, k: Key)
    ensures forall h :: h in Queue(hs, k) ==> h in hs
  {
    if hs != [] {
      QueueMembers(hs[1..], k);
    }
  }

  /** An event goes to the command at the front of its queue, whose callback then runs outside cb_lock;
      with an empty queue it goes nowhere. */
  lemma DispatchReachesFront(s: State, u: Tid, key: Key, path: seq<Act>)
    requires Enabled(s, EventCall(u, key)) && Enabled(Exec(s, EventCall(u, key)), Search(u, path))
    ensures var q, s' := Queue(s.handlers, key), Exec(Exec(s, EventCall(u, key)), Search(u, path));
            if q == [] then s' == s.(threads := s.threads[u := Idle])
            else
              && Th(s', u) == Running(Dispatch, q[0].arg, path, None, true) && path != [] && path[0].Unlock?
              && s'.handlers == s.handlers && s'.cmds == s.cmds
              && q[0].arg in s.objs && s'.objs[q[0].arg].refs == s.objs[q[0].arg].refs + 1
  {
    FirstMatchIsFront(s.handlers, key);
    var s1 := Exec(s, EventCall(u, key));
    assert s1.handlers == s.handlers;
    if Queue(s.handlers, key) == [] {
      assert Exec(s1, Search(u, path)).threads == s.threads[u := Idle];
    }
  }

  /** So after a successful start each event of the class, if nobody listened to it before, reaches c. */
  lemma StartedIsReached(s: State, t: Tid, c: Cmd, cls: Class, id: int32, path: seq<Act>, steps: seq<Step>, s': State,
                         ev: int32, u: Tid, course: seq<Act>)
    requires Enabled(s, StartCall(t, c, cls, id, path)) && s.lock.None? && Succeeds(path)
    requires |s.handlers| + |Events(cls)| <= s.allocHandlers && |s.cmds| < s.allocCmds
    requires CallRun(s, t, StartCall(t, c, cls, id, path), steps, s')
    requires ev in Events(cls) && Queue(s.handlers, EventKey(ev)) == []
    requires Enabled(s', EventCall(u, EventKey(ev)))
    requires Enabled(Exec(s', EventCall(u, EventKey(ev))), Search(u, course))
    ensures Th(Exec(Exec(s', EventCall(u, EventKey(ev))), Search(u, course)), u) == Running(Dispatch, c, course, None, true)
  {
    hide Exec, Enabled, CallRun;
    SuccessfulStartListens(s, t, c, cls, id, path, steps, s');
    DispatchReachesFront(s', u, EventKey(ev), course);
  }

  // ---------------------------------------------------------------- after a failure

  /** With nobody else listening to its keys, a start works on its own entries behind the others'. */
  lemma {:induction false} BehindOthers(hs: seq<Handler>, xs: seq<Handler>, alloc: nat, c: Cmd, body: seq<Act>)
    requires |hs| + |xs| <= alloc
    requires forall k :: Unregister(k) in body ==> Queue(hs, k) == []
    ensures HandlersAfter(hs + xs, alloc, c, body) == hs + HandlersAfter(xs, alloc - |hs|, c, body)
    decreases |body|
  {
    if body != [] {
      var next := ActedOn(xs, alloc - |hs|, c, body[0]);
      assert body[0] in body;
      assert ActedOn(hs + xs, alloc, c, body[0]) == hs + next by {
        if body[0].Register? && |hs + xs| < alloc {
          assert (hs + xs) + [Handler(body[0].k, 0, c)] == hs + next;
        } else if body[0].Unregister? {
          RemoveBehind(hs, xs, body[0].k);
        }
      }
      BehindOthers(hs, next, alloc, c, body[1..]);
    }
  }

  lemma {:induction false} RemoveBehind(hs: seq<Handler>, xs: seq<Handler>, k: Key)
    requires Queue(hs, k) == []
    ensures RemoveFirst(hs + xs, k) == hs + RemoveFirst(xs, k) && |RemoveFirst(xs, k)| <= |xs|
  {
    FirstMatchIsFront(hs, k);
    var i := FirstIndex(xs, k);
    FirstIndexUnique(hs + xs, k, |hs| + i);
    if i < |xs| {
      assert (hs + xs)[..|hs| + i] + (hs + xs)[|hs| + i + 1..] == hs + (xs[..i] + xs[i + 1..]);
    }
  }

  lemma {:induction false} HandlersConcat(hs: seq<Handler>, alloc: nat, c: Cmd, a: seq<Act>, b: seq<Act>)
    ensures HandlersAfter(hs, alloc, c, a + b) == HandlersAfter(HandlersAfter(hs, alloc, c, a), alloc, c, b)
    decreases |a|
  {
    if a == [] {
      assert a + b == b;
    } else {
      assert (a + b)[0] == a[0] && (a + b)[1..] == a[1..] + b;
      HandlersConcat(ActedOn(hs, alloc, c, a[0]), alloc, c, a[1..], b);
    }
  }

  ghost predicate KeysDistinct(xs: seq<Handler>) {
    forall i, j :: 0 <= i < j < |xs| ==> xs[i].key != xs[j].key
  }

  ghost predicate Unregisters(xs: seq<Handler>, body: seq<Act>) {
    forall x :: x in xs ==> Unregister(x.key) in body
  }

  /** Registrations of distinct keys leave distinct keys, all of them registered ones. */
  lemma {:induction false} Registered(xs: seq<Handler>, alloc: nat, c: Cmd, body: seq<Act>)
    requires KeysDistinct(xs)
    requires forall i, j :: 0 <= i < j < |body| && body[i].Register? ==> body[i] != body[j]
    requires forall i, x :: 0 <= i < |body| && body[i].Register? && x in xs ==> x.key != body[i].k
    requires forall i :: 0 <= i < |body| ==> !body[i].Unregister?
    ensures var r := HandlersAfter(xs, alloc, c, body);
            KeysDistinct(r) && forall x :: x in r ==> x in xs || Register(x.key) in body
    decreases |body|
  {
    if body != [] {
      Tail(body);
      var next := ActedOn(xs, alloc, c, body[0]);
      forall i, x | 0 <= i < |body[1..]| && body[1..][i].Register? && x in next ensures x.key != body[1..][i].k {
        assert body[1..][i] == body[i + 1] && body[0] != body[i + 1];
      }
      Registered(next, alloc, c, body[1..]);
    }
  }

  /** Removals of all keys present leave nothing. */
  lemma {:induction false} AllRemoved(xs: seq<Handler>, alloc: nat, c: Cmd, body: seq<Act>)
    requires KeysDistinct(xs) && Unregisters(xs, body)
    requires forall i :: 0 <= i < |body| ==> !body[i].Register?
    ensures HandlersAfter(xs, alloc, c, body) == []
    decreases |body|
  {
    if xs != [] {
      assert xs[0] in xs;
    }
    if body != [] {
      var next := ActedOn(xs, alloc, c, body[0]);
      Tail(body);
      if body[0].Unregister? {
        RemoveKey(xs, body[0].k);
      }
      AllRemoved(next, alloc, c, body[1..]);
    }
  }

  lemma RemoveKey(xs: seq<Handler>, k: Key)
    requires KeysDistinct(xs)
    ensures KeysDistinct(RemoveFirst(xs, k)) && forall x :: x in RemoveFirst(xs, k) ==> x in xs && x.key != k
  {
    var i, r := FirstIndex(xs, k), RemoveFirst(xs, k);
    assert forall j :: 0 <= j < |r| ==> r[j] == xs[if j < i then j else j + 1];
  }

  /** path registers, if at all, before it removes, removes whatever it registered, and drops last. */
  ghost predicate FailureForm(cls: Class, path: seq<Act>, a: seq<Act>, b: seq<Act>) {
    && path == a + b && path != [] && path[|path| - 1] == DropCmd
    && (forall i :: 0 <= i < |path| - 1 ==> path[i] != DropCmd)
    && (forall i :: 0 <= i < |a| ==> !a[i].Unregister?)
    && (forall i, j :: 0 <= i < j < |a| && a[i].Register? ==> a[i] != a[j])
    && (forall i :: 0 <= i < |b| ==> !b[i].Register?)
    && (forall k :: Register(k) in a ==> Unregister(k) in b)
    && (forall k :: Unregister(k) in path ==> Listens(cls, k))
  }

  lemma FailureForms(cls: Class, path: seq<Act>) returns (a: seq<Act>, b: seq<Act>)
    requires path in StartPaths(cls) && DropCmd in path
    ensures FailureForm(cls, path, a, b)
  {
    if path == [Touch, DropCmd] {
      a, b := [Touch], [DropCmd];
    } else if cls == Scan {
      a, b := ScanFailure();
    } else if cls == Hotlist {
      a, b := HotlistFailure(path);
    } else {
      a, b := OneEventFailure(cls, path);
    }
  }

  lemma ScanFailure() returns (a: seq<Act>, b: seq<Act>)
    ensures FailureForm(Scan,
              [Touch, On(SCAN_RESULTS_AVAILABLE), On(COMPLETE_SCAN), On(FULL_SCAN_RESULTS), Touch,
               Off(COMPLETE_SCAN), Off(SCAN_RESULTS_AVAILABLE), Off(FULL_SCAN_RESULTS), DropCmd], a, b)
  {
    a := [Touch, On(SCAN_RESULTS_AVAILABLE), On(COMPLETE_SCAN), On(FULL_SCAN_RESULTS), Touch];
    b := [Off(COMPLETE_SCAN), Off(SCAN_RESULTS_AVAILABLE), Off(FULL_SCAN_RESULTS), DropCmd];
    assert b[0] == Off(COMPLETE_SCAN) && b[1] == Off(SCAN_RESULTS_AVAILABLE) && b[2] == Off(FULL_SCAN_RESULTS);
  }

  lemma HotlistFailure(path: seq<Act>) returns (a: seq<Act>, b: seq<Act>)
    requires path in StartPaths(Hotlist) && DropCmd in path && path != [Touch, DropCmd]
    ensures FailureForm(Hotlist, path, a, b)
  {
    b := [Off(HOTLIST_RESULTS_FOUND), Off(HOTLIST_RESULTS_LOST), DropCmd];
    assert b[0] == Off(HOTLIST_RESULTS_FOUND) && b[1] == Off(HOTLIST_RESULTS_LOST);
    a := if |path| == 4 then [Touch] else [Touch, On(HOTLIST_RESULTS_FOUND), On(HOTLIST_RESULTS_LOST), Touch];
  }

  lemma OneEventFailure(cls: Class, path: seq<Act>) returns (a: seq<Act>, b: seq<Act>)
    requires cls != Scan && cls != Hotlist && path in StartPaths(cls) && DropCmd in path && path != [Touch, DropCmd]
    ensures FailureForm(cls, path, a, b)
  {
    var off := path[|path| - 2];
    b := [off, DropCmd];
    assert b[0] == off;
    a := if |path| == 3 then [Touch] else [Touch, path[1], Touch];
  }

  lemma {:induction false} DropsLast(cs: seq<CmdInfo>, id: int32, path: seq<Act>)
    requires path != [] && path[|path| - 1] == DropCmd
    requires forall i :: 0 <= i < |path| - 1 ==> path[i] != DropCmd
    ensures CmdsAfter(cs, id, path) == Without(cs, IndexOfId(cs, id))
    decreases |path|
  {
    if |path| > 1 {
      DropsLast(cs, id, path[1..]);
    }
  }

  /** After every undisturbed failed start that reaches its clean-up, both tables are as before, if nobody
      else listened to the class's events or was registered under the id. */
  lemma FailedStartLeavesNothing(s: State, t: Tid, c: Cmd, cls: Class, id: int32, path: seq<Act>, steps: seq<Step>,
                                 s': State)
    requires Enabled(s, StartCall(t, c, cls, id, path)) && s.lock.None? && DropCmd in path
    requires |s.handlers| <= s.allocHandlers && IndexOfId(s.cmds, id) == |s.cmds|
    requires forall ev :: ev in Events(cls) ==> Queue(s.handlers, EventKey(ev)) == []
    requires CallRun(s, t, StartCall(t, c, cls, id, path), steps, s')
    ensures s'.handlers == s.handlers && s'.cmds == s.cmds
  {
    assert path in StartPaths(cls);
    hide Exec, Enabled, CallRun, StartPaths, Queue, HandlersAfter, CmdsAfter;
    EveryStartRun(s, t, c, cls, id, path);
    FailureHandlers(s.handlers, s.allocHandlers, c, cls, path);
    FailureCmds(s.cmds, s.allocCmds, c, cls, id, path);
  }

  lemma FailureHandlers(hs: seq<Handler>, alloc: nat, c: Cmd, cls: Class, path: seq<Act>)
    requires path in StartPaths(cls) && DropCmd in path && |hs| <= alloc
    requires forall ev :: ev in Events(cls) ==> Queue(hs, EventKey(ev)) == []
    ensures HandlersAfter(hs, alloc, c, path) == hs
  {
    hide StartPaths, Queue, HandlersAfter, Events;
    var a, b := FailureForms(cls, path);
    forall k | Unregister(k) in path ensures Queue(hs, k) == [] {
      assert k == EventKey(k.vendorSubcmd);
    }
    BehindOthers(hs, [], alloc, c, path);
    assert hs + [] == hs;
    FailureOnEmpty(alloc - |hs|, c, cls, path, a, b);
  }

  lemma FailureOnEmpty(room: nat, c: Cmd, cls: Class, path: seq<Act>, a: seq<Act>, b: seq<Act>)
    requires FailureForm(cls, path, a, b)
    ensures HandlersAfter([], room, c, path) == []
  {
    hide HandlersAfter;
    HandlersConcat([], room, c, a, b);
    Registered([], room, c, a);
    AllRemoved(HandlersAfter([], room, c, a), room, c, b);
  }

  lemma FailureCmds(cs: seq<CmdInfo>, alloc: nat, c: Cmd, cls: Class, id: int32, path: seq<Act>)
    requires path in StartPaths(cls) && DropCmd in path && IndexOfId(cs, id) == |cs|
    ensures CmdsAfter(if |cs| < alloc then cs + [CmdInfo(id, c)] else cs, id, path) == cs
  {
    hide StartPaths, CmdsAfter;
    var _, _ := FailureForms(cls, path);
    DropsLast(if |cs| < alloc then cs + [CmdInfo(id, c)] else cs, id, path);
    DroppedEntry(cs, id, c);
  }

  lemma DroppedEntry(cs: seq<CmdInfo>, id: int32, c: Cmd)
    requires IndexOfId(cs, id) == |cs|
    ensures var added := cs + [CmdInfo(id, c)]; Without(added, IndexOfId(added, id)) == cs
  {
    var added := cs + [CmdInfo(id, c)];
    assert added[|cs|].id == id && forall j :: 0 <= j < |cs| ==> added[j].id == cs[j].id;
    assert IndexOfId(added, id) == |cs|;
  }
}
