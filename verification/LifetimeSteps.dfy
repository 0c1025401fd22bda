/** Every disciplined step keeps the lifetime invariant. */
module LifetimeSteps {
  import opened Prelude
  import opened Handlers
  import opened Commands
  import opened Lifetime

  /** In-flight sets when only thread t changes. */
  lemma InFlightUpdate(s: State, s': State, t: Tid, th: Thread, c: Cmd)
    requires s'.threads == s.threads[t := th]
    ensures InFlight(s', c) == if Does(th, Dispatch, c) then InFlight(s, c) + {t} else InFlight(s, c) - {t}
    ensures t in InFlight(s, c) <==> Does(Th(s, t), Dispatch, c)
    ensures |InFlight(s', c)| == |InFlight(s, c)| + (if Does(th, Dispatch, c) then 1 else 0)
                                                  - (if Does(Th(s, t), Dispatch, c) then 1 else 0)
  {
    var a := InFlight(s, c);
    if t in a {
      assert a == (a - {t}) + {t};
    } else {
      assert a - {t} == a;
    }
  }

  lemma ThreadUpdate(s: State, s': State, t: Tid, th: Thread)
    requires s'.threads == s.threads[t := th]
    ensures forall u {:trigger Th(s', u)} :: Th(s', u) == if u == t then th else Th(s, u)
  {
  }

  /** A thread other than the one that moved keeps its part of the invariant when its command
      gains no entries and, if it is starting that command, nobody else gets hold of it. */
  lemma OtherThreadOk(s: State, s': State, u: Tid)
    requires Th(s', u) == Th(s, u) && ThreadOk(s, u)
    requires Th(s, u).Running? ==>
               var c := Th(s, u).cmd;
               && c in s.objs && c in s'.objs && s'.objs[c].cls == s.objs[c].cls
               && (forall k :: Has(s'.handlers, c, k) ==> Has(s.handlers, c, k))
               && (Th(s, u).role.Start? ==>
                     && !s'.objs[c].released
                     && (forall w :: Does(Th(s', w), Start, c) ==> w == u)
                     && (forall w :: !OwnsRef(Th(s', w), c))
                     && (s.objs[c].cls.Rtt? ==> forall w :: !Does(Th(s', w), Dispatch, c)))
    ensures ThreadOk(s', u)
  {
  }

  /** th' can reach no command in a way the thread could not before. */
  predicate NoNewReach(th: Thread, th': Thread) {
    th'.Running? ==> th.Running? && th'.role == th.role && th'.cmd == th.cmd
                     && (th'.taken.Some? ==> th'.taken == th.taken)
  }

  lemma ReachFrame(s: State, s': State, t: Tid, th': Thread)
    requires s'.threads == s.threads[t := th'] && NoNewReach(Th(s, t), th')
    ensures forall u, c :: OwnsRef(Th(s', u), c) ==> OwnsRef(Th(s, u), c)
    ensures forall u, r, c :: Does(Th(s', u), r, c) ==> Does(Th(s, u), r, c)
  {
    ThreadUpdate(s, s', t, th');
  }

  lemma OutstandingFrame(s: State, s': State, t: Tid, th': Thread, c: Cmd)
    requires s'.threads == s.threads[t := th'] && NoNewReach(Th(s, t), th')
    requires InTable(s', c) ==> InTable(s, c)
    requires forall k :: Has(s'.handlers, c, k) ==> Has(s.handlers, c, k)
    requires Outstanding(s', c)
    ensures Outstanding(s, c)
  {
    ReachFrame(s, s', t, th');
  }

  lemma AccountingFrame(s: State, s': State, t: Tid, th': Thread)
    requires Accounting(s) && s'.objs == s.objs && s'.threads == s.threads[t := th']
    requires forall c :: Does(th', Dispatch, c) <==> Does(Th(s, t), Dispatch, c)
    ensures Accounting(s')
  {
    forall c | c in s.objs ensures |InFlight(s', c)| == |InFlight(s, c)| {
      InFlightUpdate(s, s', t, th', c);
    }
  }

  /** The objects are the same up to their counts. */
  ghost predicate SameObjects(s: State, s': State) {
    && s'.objs.Keys == s.objs.Keys
    && forall c :: c in s.objs ==>
         && s'.objs[c].cls == s.objs[c].cls
         && s'.objs[c].id == s.objs[c].id
         && s'.objs[c].released == s.objs[c].released
  }

  lemma IdsFrame(s: State, s': State)
    requires SameObjects(s, s')
    requires forall c :: Outstanding(s', c) ==> Outstanding(s, c)
    ensures IdsDistinct(s) ==> IdsDistinct(s')
  {
  }

  lemma OwnerFrame(s: State, s': State)
    requires SingleOwner(s) && SameObjects(s, s')
    requires forall i, j :: 0 <= i < j < |s'.cmds| ==> s'.cmds[i].cmd != s'.cmds[j].cmd
    requires forall i :: 0 <= i < |s'.cmds| ==> s'.cmds[i] in s.cmds
    requires forall u, c :: OwnsRef(Th(s', u), c) ==> OwnsRef(Th(s, u), c)
    ensures SingleOwner(s')
  {
    forall c | InTable(s', c) ensures InTable(s, c) {
      var i :| 0 <= i < |s'.cmds| && s'.cmds[i].cmd == c;
      assert s'.cmds[i] in s.cmds;
    }
  }

  /** The other threads' parts of the invariant when entries only disappear. */
  lemma OthersFrame(s: State, s': State, t: Tid, th': Thread)
    requires forall u :: ThreadOk(s, u)
    requires s'.threads == s.threads[t := th'] && SameObjects(s, s') && NoNewReach(Th(s, t), th')
    requires forall c, k :: Has(s'.handlers, c, k) ==> Has(s.handlers, c, k)
    ensures forall u :: u != t ==> ThreadOk(s', u)
  {
    ThreadUpdate(s, s', t, th');
    ReachFrame(s, s', t, th');
    forall u | u != t ensures ThreadOk(s', u) {
      assert ThreadOk(s, u);
      OtherThreadOk(s, s', u);
    }
  }

  /** Steps that only shrink the tables and give the thread no new reach. */
  lemma ShrinkingStep(s: State, s': State, t: Tid, th': Thread)
    requires Core(s)
    requires s'.threads == s.threads[t := th'] && SameObjects(s, s') && NoNewReach(Th(s, t), th')
    requires Accounting(s') && EntriesOwned(s')
    requires forall c, k :: Has(s'.handlers, c, k) ==> Has(s.handlers, c, k)
    requires forall i, j :: 0 <= i < j < |s'.cmds| ==> s'.cmds[i].cmd != s'.cmds[j].cmd
    requires forall i :: 0 <= i < |s'.cmds| ==> s'.cmds[i] in s.cmds
    requires forall u :: LockDiscipline(s', u)
    requires ThreadOk(s', t)
    ensures Keeps(s, s')
  {
    OthersFrame(s, s', t, th');
    assert SingleOwner(s') by {
      ReachFrame(s, s', t, th');
      OwnerFrame(s, s');
    }
    forall c | Outstanding(s', c) ensures Outstanding(s, c) {
      assert InTable(s', c) ==> InTable(s, c);
      OutstandingFrame(s, s', t, th', c);
    }
    IdsFrame(s, s');
  }

  lemma LockFrame(s: State, s': State, t: Tid, th': Thread)
    requires s'.threads == s.threads[t := th']
    requires forall u :: LockDiscipline(s, u)
    requires forall u :: u != t ==> (s'.lock == Some(u) <==> s.lock == Some(u))
    requires LockDiscipline(s', t)
    ensures forall u :: LockDiscipline(s', u)
  {
    forall u ensures LockDiscipline(s', u) {
      assert LockDiscipline(s, u);
      ThreadUpdate(s, s', t, th');
    }
  }

  lemma Tail<T>(body: seq<T>)
    requires body != []
    ensures forall x :: x in body[1..] ==> x in body
    ensures forall x :: x in body && x != body[0] ==> x in body[1..]
  {
    assert body == [body[0]] + body[1..];
  }

  /** The thread's own part of the invariant after it finishes an act that leaves behind no entry
      its remaining acts would have to remove. */
  lemma ContinueOk(s: State, s': State, t: Tid)
    requires Core(s)
    requires Th(s, t).Running? && Th(s, t).taken.None? && Th(s, t).body != [] && !Th(s, t).body[0].TakeCmd?
    requires s'.threads == s.threads[t := Continue(Th(s, t))] && s'.objs == s.objs
    requires forall c, k :: Has(s'.handlers, c, k) ==> Has(s.handlers, c, k)
    requires forall k :: Th(s, t).body[0] == Unregister(k) && Th(s, t).role != Start
                         ==> !Has(s'.handlers, Th(s, t).cmd, k)
    ensures ThreadOk(s', t)
  {
    var th := Th(s, t);
    var c, body := th.cmd, th.body;
    Tail(body);
    ThreadUpdate(s, s', t, Continue(th));
    assert ThreadOk(s, t);
    match th.role {
      case Start =>
        if |body| > 1 {
          assert StartShape(s.objs[c].cls, body[1..]) by {
            forall i | 0 <= i < |body[1..]| && body[1..][i].Register?
              ensures Listens(s.objs[c].cls, body[1..][i].k)
              ensures s.objs[c].cls.Rtt? ==> i == |body[1..]| - 1
              ensures forall j :: 0 <= j < |body[1..]| && j != i ==> body[1..][j] != body[1..][i]
            {
              assert body[1..][i] == body[i + 1];
              forall j | 0 <= j < |body[1..]| && j != i ensures body[1..][j] != body[1..][i] {
                assert body[1..][j] == body[j + 1];
              }
            }
          }
        }
      case Cancel =>
      case Dispatch =>
        forall i, j | 0 <= i < j < |body[1..]| && body[1..][i].TakeCmd?
          ensures !body[1..][j].TakeCmd? && !UsesTable(body[1..][j])
        {
          assert body[i + 1].TakeCmd?;
          assert body[1..][j] == body[j + 1];
        }
    }
  }

  lemma ContinueLock(s: State, s': State, t: Tid)
    requires LockDiscipline(s, t)
    requires Th(s, t).Running? && Th(s, t).body != []
    requires Th(s', t) == Continue(Th(s, t))
    requires s'.lock != Some(t)
    ensures LockDiscipline(s', t)
  {
    var body := Th(s, t).body;
    forall i | 0 <= i < |body[1..]| ensures !body[1..][i].Unlock? {
      assert body[1..][i] == body[i + 1];
    }
  }

  lemma RemovedHandlers(hs: seq<Handler>, k: Key)
    ensures forall i :: 0 <= i < |RemoveFirst(hs, k)| ==> RemoveFirst(hs, k)[i] in hs
    ensures forall c, q :: Has(RemoveFirst(hs, k), c, q) ==> Has(hs, c, q)
  {
    var i := FirstIndex(hs, k);
    forall c, q | Has(RemoveFirst(hs, k), c, q) ensures Has(hs, c, q) {
      var j :| 0 <= j < |RemoveFirst(hs, k)| && RemoveFirst(hs, k)[j].arg == c && RemoveFirst(hs, k)[j].key == q;
      assert hs[if j < i then j else j + 1] == RemoveFirst(hs, k)[j];
    }
  }

  /** Removing the first match of k takes c's entry exactly when c was not waiting behind another. */
  lemma RemoveTakesOwnIff(hs: seq<Handler>, c: Cmd, k: Key)
    requires OneEntryPerCommandAndKey(hs)
    ensures OneEntryPerCommandAndKey(RemoveFirst(hs, k))
    ensures Has(RemoveFirst(hs, k), c, k) <==> !FrontIsOwn(hs, c, k)
  {
    var i := FirstIndex(hs, k);
    var rest := RemoveFirst(hs, k);
    assert forall j :: 0 <= j < |rest| ==> rest[j] == hs[if j < i then j else j + 1];
    if Has(hs, c, k) {
      var j :| 0 <= j < |hs| && hs[j].arg == c && hs[j].key == k;
      assert i <= j;
      if hs[i].arg != c {
        assert rest[j - 1] == hs[j];
      }
    }
    RemovedHandlers(hs, k);
  }

  lemma TouchKeepsInv(s: State, t: Tid)
    requires Core(s) && Enabled(s, Advance(t)) && Th(s, t).taken.None? && Th(s, t).body != []
    requires Th(s, t).body[0].Touch? || Th(s, t).body[0].Unlock?
    ensures Keeps(s, Exec(s, Advance(t)))
  {
    var s' := Exec(s, Advance(t));
    assert LockDiscipline(s, t);
    ThreadUpdate(s, s', t, Continue(Th(s, t)));
    ContinueLock(s, s', t);
    LockFrame(s, s', t, Continue(Th(s, t)));
    ContinueOk(s, s', t);
    AccountingFrame(s, s', t, Continue(Th(s, t)));
    ShrinkingStep(s, s', t, Continue(Th(s, t)));
  }

  lemma AcquireKeepsInv(s: State, t: Tid)
    requires Core(s) && Enabled(s, Advance(t)) && Acquires(Th(s, t))
    ensures Keeps(s, Exec(s, Advance(t)))
  {
    var s' := Exec(s, Advance(t));
    var th' := Th(s, t).(locked := true);
    assert LockDiscipline(s, t) && ThreadOk(s, t);
    ThreadUpdate(s, s', t, th');
    LockFrame(s, s', t, th');
    assert ThreadOk(s', t) by {
      ReachFrame(s, s', t, th');
    }
    AccountingFrame(s, s', t, th');
    ShrinkingStep(s, s', t, th');
  }

  lemma UnregisterKeepsInv(s: State, t: Tid)
    requires Core(s) && Enabled(s, Advance(t)) && Th(s, t).taken.None? && Th(s, t).body != []
    requires Th(s, t).body[0].Unregister? && Th(s, t).locked
    requires Disciplined(s, Advance(t))
    ensures Keeps(s, Exec(s, Advance(t)))
  {
    var s' := Exec(s, Advance(t));
    var th, k := Th(s, t), Th(s, t).body[0].k;
    assert LockDiscipline(s, t) && ThreadOk(s, t);
    ThreadUpdate(s, s', t, Continue(th));
    ContinueLock(s, s', t);
    LockFrame(s, s', t, Continue(th));
    RemovedHandlers(s.handlers, k);
    RemoveTakesOwnIff(s.handlers, th.cmd, k);
    ContinueOk(s, s', t);
    AccountingFrame(s, s', t, Continue(th));
    ShrinkingStep(s, s', t, Continue(th));
  }

  lemma WithoutMembers(cs: seq<CmdInfo>, i: nat)
    requires i <= |cs|
    requires forall i, j :: 0 <= i < j < |cs| ==> cs[i].cmd != cs[j].cmd
    ensures forall j :: 0 <= j < |Without(cs, i)| ==> Without(cs, i)[j] in cs
    ensures i < |cs| ==> forall j :: 0 <= j < |Without(cs, i)| ==> Without(cs, i)[j].cmd != cs[i].cmd
    ensures var r := Without(cs, i); forall i, j :: 0 <= i < j < |r| ==> r[i].cmd != r[j].cmd
  {
    if i < |cs| {
      var r := Without(cs, i);
      assert forall j :: 0 <= j < |r| ==> r[j] == cs[if j < i then j else j + 1];
    }
  }

  lemma DropKeepsInv(s: State, t: Tid)
    requires Core(s) && Enabled(s, Advance(t)) && Th(s, t).taken.None? && Th(s, t).body != []
    requires Th(s, t).body[0].DropCmd?
    ensures Keeps(s, Exec(s, Advance(t)))
  {
    var s' := Exec(s, Advance(t));
    assert LockDiscipline(s, t);
    ThreadUpdate(s, s', t, Continue(Th(s, t)));
    ContinueLock(s, s', t);
    LockFrame(s, s', t, Continue(Th(s, t)));
    ContinueOk(s, s', t);
    WithoutMembers(s.cmds, IndexOfId(s.cmds, s.objs[Th(s, t).cmd].id));
    AccountingFrame(s, s', t, Continue(Th(s, t)));
    ShrinkingStep(s, s', t, Continue(Th(s, t)));
  }

  lemma AppendedHandler(hs: seq<Handler>, h: Handler)
    ensures forall c, k :: Has(hs + [h], c, k) <==> Has(hs, c, k) || (c == h.arg && k == h.key)
  {
    var hs' := hs + [h];
    assert hs'[|hs|] == h;
    forall c, k | Has(hs, c, k) ensures Has(hs', c, k) {
      var i :| 0 <= i < |hs| && hs[i].arg == c && hs[i].key == k;
      assert hs'[i] == hs[i];
    }
  }

  /** The starting thread itself after it added its entry for k. */
  lemma RegisteredOk(s: State, s': State, t: Tid, k: Key)
    requires Core(s)
    requires Th(s, t).Running? && Th(s, t).role.Start? && Th(s, t).body != [] && Th(s, t).body[0] == Register(k)
    requires s'.threads == s.threads[t := Continue(Th(s, t))] && s'.objs == s.objs
    requires s'.handlers == s.handlers + [Handler(k, 0, Th(s, t).cmd)]
    ensures ThreadOk(s', t)
  {
    var th, body := Th(s, t), Th(s, t).body;
    ThreadUpdate(s, s', t, Continue(th));
    AppendedHandler(s.handlers, Handler(k, 0, th.cmd));
    assert ThreadOk(s, t);
    assert StartShape(s.objs[th.cmd].cls, body);
    if |body| > 1 {
      Tail(body);
      var mid := s.(threads := s'.threads);
      ContinueOk(s, mid, t);
      assert StartOk(mid, t, th.cmd, body[1..]);
      forall q | Register(q) in body[1..] ensures !Has(s'.handlers, th.cmd, q) {
        var j :| 0 <= j < |body[1..]| && body[1..][j] == Register(q);
        assert body[j + 1] == Register(q) && body[0] == Register(k);
      }
      assert forall u :: Th(mid, u) == Th(s', u);
    }
  }

  lemma OthersAfterRegister(s: State, s': State, t: Tid, u: Tid, k: Key)
    requires Core(s) && u != t
    requires Th(s, t).Running? && Th(s, t).role.Start? && Th(s, t).body != [] && Th(s, t).body[0] == Register(k)
    requires s'.threads == s.threads[t := Continue(Th(s, t))] && s'.objs == s.objs
    requires s'.handlers == s.handlers + [Handler(k, 0, Th(s, t).cmd)]
    ensures ThreadOk(s', u)
  {
    var c := Th(s, t).cmd;
    AppendedHandler(s.handlers, Handler(k, 0, c));
    ThreadUpdate(s, s', t, Continue(Th(s, t)));
    assert ThreadOk(s, u) && ThreadOk(s, t);
    if Th(s, u).Running? && Th(s, u).cmd == c {
      assert !OwnsRef(Th(s, u), c);
      assert Does(Th(s, u), Dispatch, c);
      assert !s.objs[c].cls.Rtt?;
    } else {
      ReachFrame(s, s', t, Continue(Th(s, t)));
      OtherThreadOk(s, s', u);
    }
  }

  lemma RegisterKeepsInv(s: State, t: Tid)
    requires Core(s) && Enabled(s, Advance(t)) && Th(s, t).taken.None? && Th(s, t).body != []
    requires Th(s, t).body[0].Register? && Th(s, t).locked
    ensures Keeps(s, Exec(s, Advance(t)))
  {
    var s' := Exec(s, Advance(t));
    var th, c, k := Th(s, t), Th(s, t).cmd, Th(s, t).body[0].k;
    var th' := Continue(th);
    assert LockDiscipline(s, t) && ThreadOk(s, t);
    assert th.role.Start?;
    assert Th(s', t) == th';
    ContinueLock(s, s', t);
    LockFrame(s, s', t, th');
    if |s.handlers| >= s.allocHandlers {
      ContinueOk(s, s', t);
      AccountingFrame(s, s', t, th');
      ShrinkingStep(s, s', t, th');
    } else {
      AddedEntryKeepsInv(s, s', t, k);
    }
  }

  lemma EntriesAfterRegister(s: State, s': State, t: Tid, k: Key)
    requires Core(s)
    requires Th(s, t).Running? && Th(s, t).role.Start? && Th(s, t).body != [] && Th(s, t).body[0] == Register(k)
    requires s'.objs == s.objs && s'.handlers == s.handlers + [Handler(k, 0, Th(s, t).cmd)]
    ensures EntriesOwned(s')
  {
    var th, c := Th(s, t), Th(s, t).cmd;
    assert ThreadOk(s, t);
    assert StartShape(s.objs[c].cls, th.body);
    assert !Has(s.handlers, c, k) by { assert th.body[0] in th.body; }
  }

  lemma OutstandingAfterRegister(s: State, s': State, t: Tid, k: Key, d: Cmd)
    requires Th(s, t).Running? && Th(s, t).role.Start? && Th(s, t).body != []
    requires s'.threads == s.threads[t := Continue(Th(s, t))] && s'.cmds == s.cmds
    requires s'.handlers == s.handlers + [Handler(k, 0, Th(s, t).cmd)]
    requires Outstanding(s', d)
    ensures Outstanding(s, d)
  {
    AppendedHandler(s.handlers, Handler(k, 0, Th(s, t).cmd));
    if d == Th(s, t).cmd {
      assert Does(Th(s, t), Start, d);
    } else {
      OutstandingFrame(s, s', t, Continue(Th(s, t)), d);
    }
  }

  lemma AddedEntryKeepsInv(s: State, s': State, t: Tid, k: Key)
    requires Core(s)
    requires Th(s, t).Running? && Th(s, t).role.Start? && Th(s, t).body != [] && Th(s, t).body[0] == Register(k)
    requires s'.threads == s.threads[t := Continue(Th(s, t))] && s'.objs == s.objs && s'.cmds == s.cmds
    requires s'.handlers == s.handlers + [Handler(k, 0, Th(s, t).cmd)]
    requires forall u :: LockDiscipline(s', u)
    ensures Keeps(s, s')
  {
    AccountingFrame(s, s', t, Continue(Th(s, t)));
    EntriesAfterRegister(s, s', t, k);
    assert SingleOwner(s') by {
      ReachFrame(s, s', t, Continue(Th(s, t)));
    }
    forall d | Outstanding(s', d) ensures Outstanding(s, d) {
      OutstandingAfterRegister(s, s', t, k, d);
    }
    forall u ensures ThreadOk(s', u) {
      if u == t {
        RegisteredOk(s, s', t, k);
      } else {
        OthersAfterRegister(s, s', t, u, k);
      }
    }
  }

  lemma TakeAfterRemovals(s: State, t: Tid)
    requires ThreadOk(s, t) && Th(s, t).Running? && Th(s, t).role.Dispatch?
    requires Th(s, t).body != [] && Th(s, t).body[0].TakeCmd?
    ensures forall k :: !Has(s.handlers, Th(s, t).cmd, k)
  {
    var body := Th(s, t).body;
    assert TakeCmd in body;
    assert forall k :: Unregister(k) in body ==> false by {
      assert forall j :: 0 < j < |body| ==> !UsesTable(body[j]);
    }
  }

  lemma TakeKeepsInv(s: State, t: Tid)
    requires Core(s) && Enabled(s, Advance(t)) && Th(s, t).taken.None? && Th(s, t).body != []
    requires Th(s, t).body[0].TakeCmd? && TakesOwn(s, t)
    ensures Keeps(s, Exec(s, Advance(t)))
  {
    var s' := Exec(s, Advance(t));
    var th, c := Th(s, t), Th(s, t).cmd;
    var i := IndexOfId(s.cmds, s.objs[c].id);
    assert LockDiscipline(s, t) && ThreadOk(s, t);
    assert th.role.Dispatch? by { assert th.body[0] in th.body; }
    var th' := Th(s', t);
    WithoutMembers(s.cmds, i);
    LockFrame(s, s', t, th') by {
      forall j | 0 <= j < |th'.body| ensures !th'.body[j].Unlock? {
        assert th'.body[j] == th.body[j + 1];
      }
    }
    TakeAfterRemovals(s, t);
    assert TakeCmd !in th'.body by {
      assert forall j :: 0 <= j < |th'.body| ==> th'.body[j] == th.body[j + 1];
    }
    assert ThreadOk(s', t) by {
      Tail(th.body);
    }
    if i == |s.cmds| {
      AccountingFrame(s, s', t, th');
      ShrinkingStep(s, s', t, th');
    } else {
      forall u ensures !Does(Th(s, u), Start, c) {
        assert ThreadOk(s, u);
        assert Does(th, Dispatch, c);
      }
      HandedKeepsInv(s, s', t, th', i);
    }
  }

  /** th' is the thread after it was handed table entry i: it owns that command's reference and can
      do no more with any command than before. */
  ghost predicate Handed(s: State, s': State, t: Tid, th': Thread, i: nat) {
    && i < |s.cmds|
    && s' == SetThread(s.(cmds := Without(s.cmds, i)), t, th')
    && (forall d :: OwnsRef(th', d) ==> d == s.cmds[i].cmd)
    && (forall d :: Does(th', Start, d) ==> Does(Th(s, t), Start, d))
    && (forall d :: Does(th', Dispatch, d) <==> Does(Th(s, t), Dispatch, d))
  }

  lemma HandedOwner(s: State, s': State, t: Tid, th': Thread, i: nat)
    requires Core(s) && Handed(s, s', t, th', i)
    ensures SingleOwner(s')
  {
    var c := s.cmds[i].cmd;
    assert InTable(s, c);
    WithoutMembers(s.cmds, i);
    ThreadUpdate(s, s', t, th');
    assert forall d :: InTable(s', d) ==> InTable(s, d) && d != c;
    assert forall u, d :: OwnsRef(Th(s', u), d) ==> (u != t && OwnsRef(Th(s, u), d)) || (u == t && d == c);
  }

  lemma HandedIds(s: State, s': State, t: Tid, th': Thread, i: nat)
    requires Core(s) && Handed(s, s', t, th', i)
    ensures IdsDistinct(s) ==> IdsDistinct(s')
  {
    WithoutMembers(s.cmds, i);
    forall d | Outstanding(s', d) ensures Outstanding(s, d) {
      ThreadUpdate(s, s', t, th');
      assert InTable(s', d) ==> InTable(s, d);
      assert forall u :: Does(Th(s', u), Start, d) ==> Does(Th(s, u), Start, d);
      assert forall u :: Does(Th(s', u), Dispatch, d) ==> Does(Th(s, u), Dispatch, d);
    }
    IdsFrame(s, s');
  }

  lemma HandedOthers(s: State, s': State, t: Tid, th': Thread, i: nat, u: Tid)
    requires Core(s) && Handed(s, s', t, th', i) && u != t
    requires !Does(Th(s, u), Start, s.cmds[i].cmd)
    ensures ThreadOk(s', u)
  {
    ThreadUpdate(s, s', t, th');
    assert ThreadOk(s, u);
    assert forall w, d :: OwnsRef(Th(s', w), d) ==> OwnsRef(Th(s, w), d) || d == s.cmds[i].cmd;
    assert forall w, d :: Does(Th(s', w), Start, d) ==> Does(Th(s, w), Start, d);
    assert forall w, d :: Does(Th(s', w), Dispatch, d) ==> Does(Th(s, w), Dispatch, d);
    OtherThreadOk(s, s', u);
  }

  /** The owner reference moves from table entry i to thread t. */
  lemma HandedKeepsInv(s: State, s': State, t: Tid, th': Thread, i: nat)
    requires Core(s) && Handed(s, s', t, th', i)
    requires forall u :: u != t ==> !Does(Th(s, u), Start, s.cmds[i].cmd)
    requires ThreadOk(s', t) && forall u :: LockDiscipline(s', u)
    ensures Keeps(s, s')
  {
    AccountingFrame(s, s', t, th');
    HandedOwner(s, s', t, th', i);
    HandedIds(s, s', t, th', i);
    forall u ensures ThreadOk(s', u) {
      if u != t {
        HandedOthers(s, s', t, th', i, u);
      }
    }
  }

  lemma ReleaseAccounting(s: State, s': State, t: Tid, th': Thread, c: Cmd)
    requires Accounting(s) && c in s.objs && !s.objs[c].released
    requires forall d :: Does(th', Dispatch, d) <==> Does(Th(s, t), Dispatch, d)
    requires s' == SetThread(Release(s, c, true), t, th')
    ensures Accounting(s')
  {
    forall d | d in s.objs ensures |InFlight(s', d)| == |InFlight(s, d)| {
      InFlightUpdate(s, s', t, th', d);
    }
  }

  /** Giving back the owner reference of a command that has no handler entries left. */
  lemma OwnerReleaseKeepsInv(s: State, s': State, t: Tid, th': Thread, c: Cmd)
    requires Core(s) && c in s.objs
    requires OwnsRef(Th(s, t), c) && NoNewReach(Th(s, t), th')
    requires forall d :: !OwnsRef(th', d)
    requires forall d :: Does(th', Dispatch, d) <==> Does(Th(s, t), Dispatch, d)
    requires forall k :: !Has(s.handlers, c, k)
    requires s' == SetThread(Release(s, c, true), t, th')
    requires ThreadOk(s', t) && forall u :: LockDiscipline(s', u)
    ensures Keeps(s, s')
  {
    ReleaseAccounting(s, s', t, th', c);
    assert EntriesOwned(s') by {
      forall j | 0 <= j < |s.handlers| ensures s.handlers[j].arg != c {
        assert s.handlers[j].arg == c ==> Has(s.handlers, c, s.handlers[j].key);
      }
    }
    assert SingleOwner(s') by {
      ReleasedOwner(s, s', t, th', c);
    }
    assert IdsDistinct(s) ==> IdsDistinct(s') by {
      forall d | Outstanding(s', d) ensures Outstanding(s, d) {
        OutstandingFrame(s, s', t, th', d);
      }
    }
    forall u ensures ThreadOk(s', u) {
      if u != t {
        assert ThreadOk(s, u);
        ThreadUpdate(s, s', t, th');
        ReachFrame(s, s', t, th');
        OtherThreadOk(s, s', u);
      }
    }
  }

  lemma ReleasedOwner(s: State, s': State, t: Tid, th': Thread, c: Cmd)
    requires SingleOwner(s) && c in s.objs && OwnsRef(Th(s, t), c)
    requires NoNewReach(Th(s, t), th') && forall d :: !OwnsRef(th', d)
    requires s' == SetThread(Release(s, c, true), t, th')
    ensures SingleOwner(s')
  {
    ThreadUpdate(s, s', t, th');
    assert forall d :: InTable(s', d) <==> InTable(s, d);
    assert forall u, d :: OwnsRef(Th(s', u), d) ==> u != t && OwnsRef(Th(s, u), d);
  }

  lemma ReleaseTakenKeepsInv(s: State, t: Tid)
    requires Core(s) && Enabled(s, Advance(t)) && Th(s, t).taken.Some?
    ensures Keeps(s, Exec(s, Advance(t)))
  {
    var s' := Exec(s, Advance(t));
    var th, th' := Th(s, t), Th(s, t).(taken := None);
    assert LockDiscipline(s, t) && ThreadOk(s, t);
    ThreadUpdate(s, s', t, th');
    LockFrame(s, s', t, th');
    OwnerReleaseKeepsInv(s, s', t, th', th.cmd);
  }

  lemma ReturnAccounting(s: State, t: Tid)
    requires Core(s) && Enabled(s, Advance(t)) && Th(s, t).taken.None? && Th(s, t).body == []
    requires !Th(s, t).role.Cancel?
    ensures Accounting(Exec(s, Advance(t)))
  {
    var s' := Exec(s, Advance(t));
    assert ThreadOk(s, t);
    ThreadUpdate(s, s', t, Idle);
    forall d | d in s.objs
      ensures |InFlight(s', d)| == |InFlight(s, d)| - (if d == Th(s, t).cmd then 1 else 0)
    {
      InFlightUpdate(s, s', t, Idle, d);
    }
  }

  lemma FinishKeepsInv(s: State, t: Tid)
    requires Core(s) && Enabled(s, Advance(t)) && Th(s, t).taken.None? && Th(s, t).body == []
    ensures Keeps(s, Exec(s, Advance(t)))
  {
    var s' := Exec(s, Advance(t));
    var th := Th(s, t);
    assert LockDiscipline(s, t) && ThreadOk(s, t);
    ThreadUpdate(s, s', t, Idle);
    LockFrame(s, s', t, Idle);
    if th.role.Cancel? {
      OwnerReleaseKeepsInv(s, s', t, Idle, th.cmd);
    } else {
      ReturnAccounting(s, t);
      ShrinkingStep(s, s', t, Idle);
    }
  }

  lemma EventCallKeepsInv(s: State, t: Tid, key: Key)
    requires Core(s) && Enabled(s, EventCall(t, key))
    ensures Keeps(s, Exec(s, EventCall(t, key)))
  {
    var s' := Exec(s, EventCall(t, key));
    assert LockDiscipline(s, t);
    LockFrame(s, s', t, Searching(key));
    AccountingFrame(s, s', t, Searching(key));
    ShrinkingStep(s, s', t, Searching(key));
  }

  lemma DispatchPathShape(cls: Class, path: seq<Act>)
    requires path in DispatchPaths(cls)
    ensures path != [] && path[0].Unlock?
    ensures forall i :: 0 < i < |path| ==> !path[i].Unlock?
    ensures forall i :: 0 <= i < |path| ==> !path[i].Register?
    ensures path[|path| - 1].Touch? && path[1].Touch?
    ensures !cls.Rtt? ==> forall i :: 0 < i < |path| ==> path[i].Touch?
    ensures TakeCmd in path ==> cls.Rtt? && Off(RTT_COMPLETE) in path
    ensures cls.Rtt? ==> exists p :: p in DispatchPaths(cls) && TakeCmd in p
    ensures forall i, j :: 0 <= i < j < |path| && path[i].TakeCmd? ==> !path[j].TakeCmd? && !UsesTable(path[j])
  {
    if path == [Unlock, Touch, Off(RTT_COMPLETE), Touch, TakeCmd, Touch] {
      assert path[2] == Off(RTT_COMPLETE);
    }
    if cls.Rtt? {
      var p := [Unlock, Touch, Off(RTT_COMPLETE), Touch, TakeCmd, Touch];
      assert p in DispatchPaths(cls) && p[4] == TakeCmd;
    }
  }

  lemma MissKeepsInv(s: State, t: Tid, path: seq<Act>)
    requires Core(s) && Enabled(s, Search(t, path))
    requires FirstIndex(s.handlers, Th(s, t).key) == |s.handlers|
    ensures Keeps(s, Exec(s, Search(t, path)))
  {
    var s' := Exec(s, Search(t, path));
    assert LockDiscipline(s, t);
    LockFrame(s, s', t, Idle);
    AccountingFrame(s, s', t, Idle);
    ShrinkingStep(s, s', t, Idle);
  }

  lemma HitThreadOk(s: State, s': State, t: Tid, h: Handler, path: seq<Act>)
    requires Core(s) && h in s.handlers && h.arg in s.objs && path in DispatchPaths(s.objs[h.arg].cls)
    requires Th(s', t) == Running(Dispatch, h.arg, path, None, true)
    requires s'.handlers == s.handlers && SameObjects(s, s') && s'.lock == Some(t)
    ensures ThreadOk(s', t) && LockDiscipline(s', t)
  {
    DispatchPathShape(s.objs[h.arg].cls, path);
    if TakeCmd in path {
      forall k | Has(s'.handlers, h.arg, k) ensures Unregister(k) in path {
        assert Listens(Rtt, k);
        assert k == EventKey(RTT_COMPLETE);
      }
    }
  }

  lemma HitAccounting(s: State, s': State, t: Tid, th': Thread, c: Cmd)
    requires Core(s) && Th(s, t).Searching? && c in s.objs && !s.objs[c].released
    requires s' == SetThread(AddRef(s, c), t, th') && Does(th', Dispatch, c)
    ensures Accounting(s')
  {
    forall d | d in s.objs ensures |InFlight(s', d)| == |InFlight(s, d)| + (if d == c then 1 else 0) {
      InFlightUpdate(s, s', t, th', d);
    }
  }

  lemma SearchKeepsInv(s: State, t: Tid, path: seq<Act>)
    requires Core(s) && Enabled(s, Search(t, path))
    ensures Keeps(s, Exec(s, Search(t, path)))
  {
    var i := FirstIndex(s.handlers, Th(s, t).key);
    if i == |s.handlers| {
      MissKeepsInv(s, t, path);
    } else {
      var c := s.handlers[i].arg;
      var s', th' := Exec(s, Search(t, path)), Running(Dispatch, c, path, None, true);
      assert LockDiscipline(s, t);
      HitThreadOk(s, s', t, s.handlers[i], path);
      LockFrame(s, s', t, th');
      HitAccounting(s, s', t, th', c);
      assert Has(s.handlers, c, s.handlers[i].key);
      HitKeepsInv(s, s', t, th', c);
    }
  }

  /** A dispatcher takes a reference to a command that has a handler entry. */
  lemma HitKeepsInv(s: State, s': State, t: Tid, th': Thread, c: Cmd)
    requires Core(s) && Th(s, t).Searching?
    requires s'.threads == s.threads[t := th'] && Does(th', Dispatch, c) && th'.taken.None?
    requires exists k :: Has(s.handlers, c, k)
    requires SameObjects(s, s') && s'.handlers == s.handlers && s'.cmds == s.cmds
    requires Accounting(s') && ThreadOk(s', t) && forall u :: LockDiscipline(s', u)
    ensures Keeps(s, s')
  {
    assert EntriesOwned(s');
    assert SingleOwner(s') by {
      ThreadUpdate(s, s', t, th');
      OwnerFrame(s, s');
    }
    forall d | Outstanding(s', d) ensures Outstanding(s, d) {
      ThreadUpdate(s, s', t, th');
      if d != c {
        assert forall u, r :: Does(Th(s', u), r, d) ==> Does(Th(s, u), r, d);
      }
    }
    IdsFrame(s, s');
    forall u ensures ThreadOk(s', u) {
      if u != t {
        OthersAfterHit(s, s', t, th', c, u);
      }
    }
  }

  lemma OthersAfterHit(s: State, s': State, t: Tid, th': Thread, c: Cmd, u: Tid)
    requires Core(s) && u != t
    requires s'.threads == s.threads[t := th'] && Does(th', Dispatch, c) && th'.taken.None?
    requires exists k :: Has(s.handlers, c, k)
    requires SameObjects(s, s') && s'.handlers == s.handlers
    ensures ThreadOk(s', u)
  {
    ThreadUpdate(s, s', t, th');
    assert ThreadOk(s, u);
    assert forall w, d :: OwnsRef(Th(s', w), d) ==> OwnsRef(Th(s, w), d);
    assert forall w, d :: Does(Th(s', w), Start, d) ==> Does(Th(s, w), Start, d);
    assert forall w, d :: Does(Th(s', w), Dispatch, d) ==> Does(Th(s, w), Dispatch, d) || d == c;
    OtherThreadOk(s, s', u);
  }

  /** An address that holds no object is mentioned nowhere. */
  lemma FreshCommand(s: State, c: Cmd)
    requires Core(s) && c !in s.objs
    ensures !InTable(s, c)
    ensures forall k :: !Has(s.handlers, c, k)
    ensures forall t, r :: !Does(Th(s, t), r, c)
    ensures forall t :: !OwnsRef(Th(s, t), c)
    ensures !Outstanding(s, c)
  {
    forall t, r ensures !Does(Th(s, t), r, c) {
      assert ThreadOk(s, t);
    }
  }

  lemma AccountingAfterNew(s: State, s': State, t: Tid, th': Thread, c: Cmd, o: Obj)
    requires Core(s) && c !in s.objs && Th(s, t).Idle?
    requires s'.objs == s.objs[c := o] && s'.threads == s.threads[t := th']
    requires o.refs == 1 && !o.released && o.frees == 0
    requires forall d :: !Does(th', Dispatch, d)
    ensures Accounting(s')
  {
    FreshCommand(s, c);
    forall d | d in s'.objs ensures |InFlight(s', d)| == |InFlight(s, d)| {
      InFlightUpdate(s, s', t, th', d);
    }
    assert InFlight(s, c) == {} by {
      assert forall u :: u in s.threads ==> Th(s, u) == s.threads[u];
    }
  }

  lemma OthersAfterNew(s: State, s': State, t: Tid, th': Thread, c: Cmd, o: Obj, u: Tid)
    requires Core(s) && c !in s.objs && Th(s, t).Idle? && u != t
    requires s'.objs == s.objs[c := o] && s'.threads == s.threads[t := th'] && s'.handlers == s.handlers
    requires th'.Running? && th'.cmd == c && th'.taken.None?
    ensures ThreadOk(s', u)
  {
    ThreadUpdate(s, s', t, th');
    assert ThreadOk(s, u);
    assert forall w, d :: OwnsRef(Th(s', w), d) ==> OwnsRef(Th(s, w), d) || d == c;
    assert forall w, r, d :: Does(Th(s', w), r, d) ==> Does(Th(s, w), r, d) || d == c;
    OtherThreadOk(s, s', u);
  }

  lemma StartPathShape(cls: Class, path: seq<Act>)
    requires path in StartPaths(cls)
    ensures StartShape(cls, path)
    ensures forall i :: 0 <= i < |path| ==> !path[i].Unlock?
  {
  }

  lemma StartCallKeepsInv(s: State, step: Step)
    requires step.StartCall? && Core(s) && Enabled(s, step)
    ensures Core(Exec(s, step)) && (Disciplined(s, step) ==> Keeps(s, Exec(s, step)))
  {
    var StartCall(t, c, cls, id, path) := step;
    var s', th' := Exec(s, step), Running(Start, c, path, None, false);
    var o := Obj(cls, id, 1, false, 0);
    FreshCommand(s, c);
    StartPathShape(cls, path);
    assert LockDiscipline(s, t);
    assert LockDiscipline(s', t);
    LockFrame(s, s', t, th');
    AccountingAfterNew(s, s', t, th', c, o);
    NewOwner(s, s', t, th', c, o);
    NewIds(s, s', t, th', c, o);
    forall u ensures ThreadOk(s', u) {
      ThreadUpdate(s, s', t, th');
      if u != t {
        OthersAfterNew(s, s', t, th', c, o, u);
      }
    }
  }

  lemma NewOwner(s: State, s': State, t: Tid, th': Thread, c: Cmd, o: Obj)
    requires Core(s) && c !in s.objs && Th(s, t).Idle? && !o.released
    requires s' == SetThread(s.(objs := s.objs[c := o], cmds := s'.cmds), t, th')
    requires s'.cmds == s.cmds || (s'.cmds == s.cmds + [CmdInfo(o.id, c)] && th'.Running? && th'.role.Start?)
    requires th'.Running? && th'.cmd == c && th'.taken.None?
    ensures SingleOwner(s') && EntriesOwned(s')
  {
    FreshCommand(s, c);
    ThreadUpdate(s, s', t, th');
    forall d | InTable(s', d) ensures InTable(s, d) || (d == c && th'.role.Start?) {
      var j :| 0 <= j < |s'.cmds| && s'.cmds[j].cmd == d;
      assert j < |s.cmds| ==> s.cmds[j].cmd == d;
    }
    assert forall u, d :: OwnsRef(Th(s', u), d) ==> (u != t && OwnsRef(Th(s, u), d) && d != c) || (u == t && d == c && th'.role.Cancel?);
  }

  lemma NewOutstanding(s: State, s': State, t: Tid, th': Thread, c: Cmd, d: Cmd)
    requires s'.handlers == s.handlers && s'.threads == s.threads[t := th'] && Th(s, t).Idle?
    requires th'.Running? && th'.cmd == c && d != c
    requires InTable(s', d) ==> InTable(s, d)
    requires Outstanding(s', d)
    ensures Outstanding(s, d)
  {
    ThreadUpdate(s, s', t, th');
    assert forall u, r :: Does(Th(s', u), r, d) ==> Does(Th(s, u), r, d);
  }

  lemma NewIds(s: State, s': State, t: Tid, th': Thread, c: Cmd, o: Obj)
    requires Core(s) && c !in s.objs && Th(s, t).Idle?
    requires s' == SetThread(s.(objs := s.objs[c := o], cmds := s'.cmds), t, th')
    requires s'.cmds == s.cmds || s'.cmds == s.cmds + [CmdInfo(o.id, c)]
    requires th'.Running? && th'.cmd == c
    ensures IdsDistinct(s)
            && (Outstanding(s', c) ==> forall d :: d in s.objs && Outstanding(s, d) ==> s.objs[d].id != o.id)
            ==> IdsDistinct(s')
  {
    forall d | Outstanding(s', d) && d != c ensures Outstanding(s, d) {
      assert InTable(s', d) ==> InTable(s, d);
      NewOutstanding(s, s', t, th', c, d);
    }
  }

  ghost predicate CancelBody(body: seq<Act>) {
    && (forall i :: 0 <= i < |body| ==> body[i].Touch? || body[i].Unregister?)
    && (forall i, j :: 0 <= i < j < |body| && body[i].Unregister? ==> body[i] != body[j])
  }

  lemma CancelPathShape(cls: Class)
    ensures var p := CancelPath(cls);
            && CancelBody(p) && Touch in p
            && (forall k :: Listens(cls, k) ==> Unregister(k) in p)
  {
    var p := CancelPath(cls);
    assert p[0] == Touch || p[|p| - 1] == Touch;
    forall k | Listens(cls, k) ensures Unregister(k) in p {
      assert k == EventKey(k.vendorSubcmd);
      var ev := k.vendorSubcmd;
      assert ev in Events(cls);
      match cls {
        case Scan => assert p[1] == Off(COMPLETE_SCAN) && p[2] == Off(SCAN_RESULTS_AVAILABLE) && p[3] == Off(FULL_SCAN_RESULTS);
        case Hotlist => assert p[0] == Off(HOTLIST_RESULTS_FOUND) && p[1] == Off(HOTLIST_RESULTS_LOST);
        case FullScan => assert p[1] == Off(FULL_SCAN_RESULTS);
        case Epno => assert p[0] == Off(EPNO_EVENT);
        case SignificantChange => assert p[0] == Off(SIGNIFICANT_CHANGE_RESULTS);
        case Anqpo => assert p[1] == Off(ANQPO_HOTSPOT_MATCH);
        case RssiMonitor => assert p[1] == Off(RSSI_MONITOR);
        case Rtt => assert p[1] == Off(RTT_COMPLETE);
      }
    }
  }

  lemma BlanketCancelKeepsInv(s: State, step: Step)
    requires step.BlanketCancel? && Core(s) && Enabled(s, step)
    ensures Keeps(s, Exec(s, step))
  {
    var BlanketCancel(t, c, cls, id) := step;
    var s', th' := Exec(s, step), Running(Cancel, c, CancelPath(cls), None, false);
    var o := Obj(cls, id, 1, false, 0);
    FreshCommand(s, c);
    CancelPathShape(cls);
    assert LockDiscipline(s, t);
    assert LockDiscipline(s', t);
    LockFrame(s, s', t, th');
    AccountingAfterNew(s, s', t, th', c, o);
    ThreadUpdate(s, s', t, th');
    NewOwner(s, s', t, th', c, o);
    assert !Outstanding(s', c) by {
      assert !InTable(s', c);
      assert forall u :: !Does(Th(s', u), Start, c) && !Does(Th(s', u), Dispatch, c);
    }
    NewIds(s, s', t, th', c, o);
    forall u ensures ThreadOk(s', u) {
      if u != t {
        OthersAfterNew(s, s', t, th', c, o, u);
      }
    }
  }

  lemma CancelCallKeepsInv(s: State, step: Step)
    requires step.CancelCall? && Core(s) && Enabled(s, step) && Disciplined(s, step)
    ensures Keeps(s, Exec(s, step))
  {
    var CancelCall(t, id) := step;
    if Find(s.cmds, id).Some? {
      var i := IndexOfId(s.cmds, id);
      var c := s.cmds[i].cmd;
      var s', th' := Exec(s, step), Running(Cancel, c, CancelPath(s.objs[c].cls), None, false);
      CancelPathShape(s.objs[c].cls);
      assert LockDiscipline(s, t);
      assert LockDiscipline(s', t);
      LockFrame(s, s', t, th');
      assert ThreadOk(s', t);
      HandedKeepsInv(s, s', t, th', i);
    }
  }

  lemma AdvanceKeepsInv(s: State, t: Tid)
    requires Core(s) && Enabled(s, Advance(t)) && Loose(s, Advance(t))
    ensures Keeps(s, Exec(s, Advance(t)))
  {
    var th := Th(s, t);
    if th.taken.Some? {
      ReleaseTakenKeepsInv(s, t);
    } else if th.body == [] {
      FinishKeepsInv(s, t);
    } else if Acquires(th) {
      AcquireKeepsInv(s, t);
    } else {
      match th.body[0] {
        case Touch => TouchKeepsInv(s, t);
        case Unlock => TouchKeepsInv(s, t);
        case Register(_) => RegisterKeepsInv(s, t);
        case Unregister(_) => UnregisterKeepsInv(s, t);
        case DropCmd => DropKeepsInv(s, t);
        case TakeCmd => TakeKeepsInv(s, t);
      }
    }
  }

  /** With ids distinct, what a completion takes is its own command. */
  lemma DistinctIdsTakeOwn(s: State, t: Tid)
    requires Inv(s) && AboutToTake(s, t)
    ensures Th(s, t).cmd in s.objs && TakesOwn(s, t)
  {
    var c := Th(s, t).cmd;
    assert ThreadOk(s, t);
    assert Th(s, t).role.Dispatch? by { assert Th(s, t).body[0] in Th(s, t).body; }
    var i := IndexOfId(s.cmds, s.objs[c].id);
    if i < |s.cmds| {
      assert InTable(s, s.cmds[i].cmd);
      assert Outstanding(s, s.cmds[i].cmd) && Outstanding(s, c) by {
        assert Does(Th(s, t), Dispatch, c);
      }
    }
  }

  /** Every step that keeps rules (2) and (3) and takes no other command's reference. */
  lemma StepKeepsCore(s: State, step: Step)
    requires Core(s) && Enabled(s, step) && Loose(s, step)
    ensures Core(Exec(s, step)) && (Disciplined(s, step) ==> Keeps(s, Exec(s, step)))
  {
    match step {
      case StartCall(_, _, _, _, _) => StartCallKeepsInv(s, step);
      case CancelCall(_, _) => CancelCallKeepsInv(s, step);
      case BlanketCancel(_, _, _, _) => BlanketCancelKeepsInv(s, step);
      case EventCall(t, key) => EventCallKeepsInv(s, t, key);
      case Search(t, path) => SearchKeepsInv(s, t, path);
      case Advance(t) => AdvanceKeepsInv(s, t);
    }
  }

  lemma StepKeepsInv(s: State, step: Step)
    requires Inv(s) && Enabled(s, step) && Disciplined(s, step)
    ensures Inv(Exec(s, step))
  {
    hide Core, IdsDistinct, Disciplined;
    if step.Advance? && AboutToTake(s, step.t) {
      DistinctIdsTakeOwn(s, step.t);
    }
    StepKeepsCore(s, step);
  }
}
