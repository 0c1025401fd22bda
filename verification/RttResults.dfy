/** RTT ranging results: gathered event by event into a fixed array of allocated blocks, delivered
    and freed together once the firmware reports completion or an allocation fails. */
module RttResults {
  import opened Prelude
  import opened Netlink

  const RESULTS_COMPLETE: uint16 := 30
  const RESULTS_PER_TARGET: uint16 := 31
  const RESULT: uint16 := 33

  const MAX_RESULTS: nat := 1024

  /** A block returned by the id-th allocation, holding a copied result. */
  datatype Block = Block(id: nat, data: seq<byte>)

  /** Results waiting for delivery, allocations made so far, and mCompleted. */
  datatype Gather = Gather(blocks: seq<Block>, calls: nat, completed: int32)

  /** An event: where its vendor-data attribute lies in memory. */
  datatype EventSpec = Event(mem: seq<byte>, off: nat)

  type Event = e: EventSpec | e.off + NLA_HDRLEN + 4 <= |e.mem| && e.off + AttrAt(e.mem, e.off).len + 4 <= |e.mem|
    witness Event(Zeros(8), 0)

  function Attrs(e: Event): (w: seq<Attr>)
    ensures Readable(e.mem, w)
  {
    var a := AttrAt(e.mem, e.off);
    if a.len < NLA_HDRLEN then []
    else
      NestedReadable(e.mem, a);
      Nested(e.mem, a)
  }

  lemma AttrsAreNested(e: Event)
    ensures var a := AttrAt(e.mem, e.off); Attrs(e) == if a.len < NLA_HDRLEN then [] else Nested(e.mem, a)
  {
  }

  function Bytes(m: seq<byte>, a: Attr): seq<byte>
    requires NLA_HDRLEN <= a.len && a.off + a.len <= |m|
  {
    m[a.off + NLA_HDRLEN..a.off + a.len]
  }

  // ---------------------------------------------------------------- one event, attribute by attribute

  /** Walking one target; grant(n) says whether the n-th allocation succeeds. */
  function Inner(grant: nat -> bool, g: Gather, m: seq<byte>, w: seq<Attr>): Gather
    requires Readable(m, w)
    decreases |w|
  {
    if w == [] then g
    else if w[0].typ != RESULT then Inner(grant, g, m, w[1..])
    else if grant(g.calls) then
      Inner(grant, g.(blocks := g.blocks + [Block(g.calls, Bytes(m, w[0]))], calls := g.calls + 1), m, w[1..])
    else g.(calls := g.calls + 1, completed := 1)
  }

  function Target(grant: nat -> bool, g: Gather, m: seq<byte>, a: Attr): Gather
    requires NLA_HDRLEN <= a.len && a.off + a.len + 4 <= |m|
  {
    NestedReadable(m, a);
    Inner(grant, g, m, Nested(m, a))
  }

  function Step(grant: nat -> bool, g: Gather, m: seq<byte>, a: Attr): Gather
    requires NLA_HDRLEN <= a.len && a.off + a.len + 4 <= |m|
  {
    if a.typ == RESULTS_COMPLETE then g.(completed := GetInt(m, a))
    else if a.typ == RESULTS_PER_TARGET then Target(grant, g, m, a)
    else g
  }

  function Outer(grant: nat -> bool, g: Gather, m: seq<byte>, w: seq<Attr>): Gather
    requires Readable(m, w)
    decreases |w|
  {
    if w == [] then g else Outer(grant, Step(grant, g, m, w[0]), m, w[1..])
  }

  /** Every slot written while walking one target lies in the array; the slot is written even when
      the allocation fails. */
  predicate InnerFits(grant: nat -> bool, g: Gather, m: seq<byte>, w: seq<Attr>)
    requires Readable(m, w)
    decreases |w|
  {
    if w == [] then true
    else if w[0].typ != RESULT then InnerFits(grant, g, m, w[1..])
    else
      && |g.blocks| < MAX_RESULTS
      && (grant(g.calls) ==>
            InnerFits(grant, g.(blocks := g.blocks + [Block(g.calls, Bytes(m, w[0]))], calls := g.calls + 1), m, w[1..]))
  }

  predicate TargetFits(grant: nat -> bool, g: Gather, m: seq<byte>, a: Attr)
    requires NLA_HDRLEN <= a.len && a.off + a.len + 4 <= |m|
  {
    NestedReadable(m, a);
    InnerFits(grant, g, m, Nested(m, a))
  }

  predicate OuterFits(grant: nat -> bool, g: Gather, m: seq<byte>, w: seq<Attr>)
    requires Readable(m, w)
    decreases |w|
  {
    w != [] ==>
      && (w[0].typ == RESULTS_PER_TARGET ==> TargetFits(grant, g, m, w[0]))
      && OuterFits(grant, Step(grant, g, m, w[0]), m, w[1..])
  }

  /** From g on, walking w stays inside the array and gathers goal. */
  ghost predicate Leads(grant: nat -> bool, g: Gather, m: seq<byte>, w: seq<Attr>, goal: Gather) {
    Readable(m, w) && OuterFits(grant, g, m, w) && Outer(grant, g, m, w) == goal
  }

  lemma LeadsStep(grant: nat -> bool, g: Gather, m: seq<byte>, w: seq<Attr>, goal: Gather)
    requires Leads(grant, g, m, w, goal) && w != []
    ensures NLA_HDRLEN <= w[0].len && w[0].off + w[0].len + 4 <= |m|
    ensures w[0].typ == RESULTS_PER_TARGET ==> TargetFits(grant, g, m, w[0])
    ensures Leads(grant, Step(grant, g, m, w[0]), m, w[1..], goal)
  {
  }

  lemma LeadsEnd(grant: nat -> bool, g: Gather, m: seq<byte>, goal: Gather)
    requires Leads(grant, g, m, [], goal)
    ensures g == goal
  {
  }

  // ---------------------------------------------------------------- whole runs

  /** What is gathered, and what has been handed to the callback so far. */
  datatype State = State(g: Gather, deliveries: seq<seq<Block>>)

  const START: State := State(Gather([], 0, 0), [])

  function Gathered(grant: nat -> bool, g: Gather, e: Event): Gather {
    Outer(grant, g, e.mem, Attrs(e))
  }

  lemma LeadsStart(grant: nat -> bool, g: Gather, e: Event)
    requires OuterFits(grant, g, e.mem, Attrs(e))
    ensures Leads(grant, g, e.mem, Attrs(e), Gathered(grant, g, e))
  {
  }

  function Handle(grant: nat -> bool, s: State, e: Event): State {
    var g := Gathered(grant, s.g, e);
    if g.completed != 0 then State(g.(blocks := []), s.deliveries + [g.blocks]) else State(g, s.deliveries)
  }

  /** The state after the first n events. */
  function After(grant: nat -> bool, es: seq<Event>, n: nat): State
    requires n <= |es|
  {
    if n == 0 then START else Handle(grant, After(grant, es, n - 1), es[n - 1])
  }

  function Flatten<T>(ss: seq<seq<T>>): seq<T> {
    if ss == [] then [] else ss[0] + Flatten(ss[1..])
  }

  lemma {:induction false} FlattenConcat<T>(a: seq<seq<T>>, b: seq<seq<T>>)
    ensures Flatten(a + b) == Flatten(a) + Flatten(b)
  {
    if a == [] {
      assert a + b == b;
    } else {
      assert (a + b)[1..] == a[1..] + b;
      FlattenConcat(a[1..], b);
    }
  }

  // ---------------------------------------------------------------- the reference

  /** The results one target carries. */
  function ResultsIn(m: seq<byte>, w: seq<Attr>): seq<seq<byte>>
    requires Readable(m, w)
  {
    if w == [] then []
    else if w[0].typ == RESULT then [Bytes(m, w[0])] + ResultsIn(m, w[1..])
    else ResultsIn(m, w[1..])
  }

  /** The targets of an event, each with its results. */
  function TargetsIn(m: seq<byte>, w: seq<Attr>): seq<seq<seq<byte>>>
    requires Readable(m, w)
  {
    if w == [] then []
    else if w[0].typ == RESULTS_PER_TARGET then
      NestedReadable(m, w[0]);
      [ResultsIn(m, Nested(m, w[0]))] + TargetsIn(m, w[1..])
    else TargetsIn(m, w[1..])
  }

  function EventTargets(e: Event): seq<seq<seq<byte>>> {
    TargetsIn(e.mem, Attrs(e))
  }

  function AllTargets(es: seq<Event>, n: nat): seq<seq<seq<byte>>>
    requires n <= |es|
  {
    if n == 0 then [] else AllTargets(es, n - 1) + EventTargets(es[n - 1])
  }

  /** The results whose allocations, numbered from n on, precede the first failure. */
  function Survivors(grant: nat -> bool, n: nat, ps: seq<seq<byte>>): (bs: seq<Block>)
    ensures |bs| <= |ps|
    decreases |ps|
  {
    if ps == [] || !grant(n) then [] else [Block(n, ps[0])] + Survivors(grant, n + 1, ps[1..])
  }

  /** They are a prefix, and it ends only at the end or at an allocation that fails. */
  lemma {:induction false} SurvivorsPrefix(grant: nat -> bool, n: nat, ps: seq<seq<byte>>)
    ensures var bs := Survivors(grant, n, ps);
            && (forall i :: 0 <= i < |bs| ==> bs[i] == Block(n + i, ps[i]) && grant(n + i))
            && (|bs| < |ps| ==> !grant(n + |bs|))
    decreases |ps|
  {
    if ps != [] && grant(n) {
      SurvivorsPrefix(grant, n + 1, ps[1..]);
      var bs, rest := Survivors(grant, n, ps), Survivors(grant, n + 1, ps[1..]);
      forall i | 0 <= i < |bs| ensures bs[i] == Block(n + i, ps[i]) && grant(n + i) {
        if i > 0 {
          assert bs[i] == rest[i - 1] && ps[i] == ps[1..][i - 1] && n + 1 + (i - 1) == n + i;
        }
      }
    }
  }

  /** Allocations attempted: one per result, up to and including the first failure. */
  function Attempts(grant: nat -> bool, n: nat, ps: seq<seq<byte>>): nat {
    Min(|Survivors(grant, n, ps)| + 1, |ps|)
  }

  function WithTarget(grant: nat -> bool, g: Gather, ps: seq<seq<byte>>): Gather {
    var kept := Survivors(grant, g.calls, ps);
    Gather(g.blocks + kept, g.calls + Attempts(grant, g.calls, ps), if |kept| < |ps| then 1 else g.completed)
  }

  /** What survives of a list of targets. */
  function Kept(grant: nat -> bool, n: nat, ts: seq<seq<seq<byte>>>): seq<Block>
    decreases |ts|
  {
    if ts == [] then []
    else Survivors(grant, n, ts[0]) + Kept(grant, n + Attempts(grant, n, ts[0]), ts[1..])
  }

  function Calls(grant: nat -> bool, n: nat, ts: seq<seq<seq<byte>>>): nat
    decreases |ts|
  {
    if ts == [] then n else Calls(grant, n + Attempts(grant, n, ts[0]), ts[1..])
  }

  /** Exactly what walking one target adds, whatever else it contains. */
  lemma {:induction false} InnerGathers(grant: nat -> bool, g: Gather, m: seq<byte>, w: seq<Attr>)
    requires Readable(m, w)
    ensures Inner(grant, g, m, w) == WithTarget(grant, g, ResultsIn(m, w))
    decreases |w|
  {
    if w == [] {
      assert g.blocks + [] == g.blocks;
    } else if w[0].typ != RESULT {
      InnerGathers(grant, g, m, w[1..]);
    } else if grant(g.calls) {
      InnerGathers(grant, g.(blocks := g.blocks + [Block(g.calls, Bytes(m, w[0]))], calls := g.calls + 1), m, w[1..]);
      ConsGranted(grant, g, Bytes(m, w[0]), ResultsIn(m, w[1..]));
    } else {
      assert g.blocks + [] == g.blocks;
    }
  }

  lemma ConsGranted(grant: nat -> bool, g: Gather, p: seq<byte>, ps: seq<seq<byte>>)
    requires grant(g.calls)
    ensures WithTarget(grant, g, [p] + ps)
         == WithTarget(grant, g.(blocks := g.blocks + [Block(g.calls, p)], calls := g.calls + 1), ps)
  {
    assert ([p] + ps)[1..] == ps;
    var one, kept := [Block(g.calls, p)], Survivors(grant, g.calls + 1, ps);
    assert (g.blocks + one) + kept == g.blocks + (one + kept);
  }

  lemma {:induction false} OuterGathers(grant: nat -> bool, g: Gather, m: seq<byte>, w: seq<Attr>)
    requires Readable(m, w)
    ensures Outer(grant, g, m, w).blocks == g.blocks + Kept(grant, g.calls, TargetsIn(m, w))
    ensures Outer(grant, g, m, w).calls == Calls(grant, g.calls, TargetsIn(m, w))
    decreases |w|
  {
    if w == [] {
      assert g.blocks + [] == g.blocks;
    } else {
      var g' := Step(grant, g, m, w[0]);
      OuterGathers(grant, g', m, w[1..]);
      if w[0].typ == RESULTS_PER_TARGET {
        NestedReadable(m, w[0]);
        InnerGathers(grant, g, m, Nested(m, w[0]));
        ConsTarget(grant, g, ResultsIn(m, Nested(m, w[0])), TargetsIn(m, w[1..]));
      }
    }
  }

  lemma ConsTarget(grant: nat -> bool, g: Gather, ps: seq<seq<byte>>, ts: seq<seq<seq<byte>>>)
    ensures var g' := WithTarget(grant, g, ps);
            && g'.blocks + Kept(grant, g'.calls, ts) == g.blocks + Kept(grant, g.calls, [ps] + ts)
            && Calls(grant, g'.calls, ts) == Calls(grant, g.calls, [ps] + ts)
  {
    assert ([ps] + ts)[1..] == ts;
    var kept, rest := Survivors(grant, g.calls, ps), Kept(grant, WithTarget(grant, g, ps).calls, ts);
    assert (g.blocks + kept) + rest == g.blocks + (kept + rest);
  }

  lemma {:induction false} KeptConcat(grant: nat -> bool, n: nat, a: seq<seq<seq<byte>>>, b: seq<seq<seq<byte>>>)
    ensures Kept(grant, n, a + b) == Kept(grant, n, a) + Kept(grant, Calls(grant, n, a), b)
    ensures Calls(grant, n, a + b) == Calls(grant, Calls(grant, n, a), b)
    decreases |a|
  {
    if a == [] {
      assert a + b == b;
    } else {
      assert (a + b)[0] == a[0] && (a + b)[1..] == a[1..] + b;
      var n' := n + Attempts(grant, n, a[0]);
      KeptConcat(grant, n', a[1..], b);
      var first, rest, more := Survivors(grant, n, a[0]), Kept(grant, n', a[1..]), Kept(grant, Calls(grant, n, a), b);
      assert (first + rest) + more == first + (rest + more);
    }
  }

  lemma EventGathers(grant: nat -> bool, g: Gather, e: Event)
    ensures Gathered(grant, g, e).blocks == g.blocks + Kept(grant, g.calls, EventTargets(e))
    ensures Gathered(grant, g, e).calls == Calls(grant, g.calls, EventTargets(e))
  {
    OuterGathers(grant, g, e.mem, Attrs(e));
  }

  /** Handling moves blocks from waiting to delivered, or leaves them waiting; none is lost. */
  lemma HandleConserves(grant: nat -> bool, s: State, e: Event)
    ensures var s', g := Handle(grant, s, e), Gathered(grant, s.g, e);
            && Flatten(s'.deliveries) + s'.g.blocks == Flatten(s.deliveries) + g.blocks
            && s'.g.calls == g.calls
  {
    hide Gathered;
    var g := Gathered(grant, s.g, e);
    FlattenConcat(s.deliveries, [g.blocks]);
    assert [g.blocks][1..] == [] && g.blocks + [] == g.blocks;
    assert Flatten([g.blocks]) == g.blocks;
  }

  /** Over any events: what has been delivered, followed by what is waiting, is exactly what survived
      of all targets received so far, in order; once complete, nothing is waiting. */
  lemma {:induction false} DeliveredAndPending(grant: nat -> bool, es: seq<Event>, n: nat)
    requires n <= |es|
    ensures var s := After(grant, es, n);
            && Flatten(s.deliveries) + s.g.blocks == Kept(grant, 0, AllTargets(es, n))
            && s.g.calls == Calls(grant, 0, AllTargets(es, n))
            && (s.g.completed != 0 ==> s.g.blocks == [])
  {
    hide Gathered, EventTargets;
    if n > 0 {
      DeliveredAndPending(grant, es, n - 1);
      var s, e := After(grant, es, n - 1), es[n - 1];
      EventGathers(grant, s.g, e);
      HandleConserves(grant, s, e);
      KeptConcat(grant, 0, AllTargets(es, n - 1), EventTargets(e));
      var sent, more := Flatten(s.deliveries), Kept(grant, s.g.calls, EventTargets(e));
      assert (sent + s.g.blocks) + more == sent + (s.g.blocks + more);
    }
  }

  /** A closing completion attribute has the last word: a zero there even hides that an allocation
      failed earlier in the same event. */
  lemma {:induction false} LastWord(grant: nat -> bool, g: Gather, m: seq<byte>, w: seq<Attr>)
    requires Readable(m, w) && w != [] && w[|w| - 1].typ == RESULTS_COMPLETE
    ensures Outer(grant, g, m, w).completed == GetInt(m, w[|w| - 1])
    decreases |w|
  {
    if |w| > 1 {
      assert w[1..][|w| - 2] == w[|w| - 1];
      LastWord(grant, Step(grant, g, m, w[0]), m, w[1..]);
    }
  }

  /** Allocation numbers rise along bs and lie in lo..hi. */
  ghost predicate Rising(bs: seq<Block>, lo: nat, hi: nat) {
    && (forall i :: 0 <= i < |bs| ==> lo <= bs[i].id < hi)
    && (forall i, j :: 0 <= i < j < |bs| ==> bs[i].id < bs[j].id)
  }

  lemma {:induction false} SurvivorsRise(grant: nat -> bool, n: nat, ps: seq<seq<byte>>)
    ensures Rising(Survivors(grant, n, ps), n, n + |Survivors(grant, n, ps)|)
  {
    SurvivorsPrefix(grant, n, ps);
  }

  /** No block is handed over twice: along everything kept the allocation numbers rise strictly. */
  lemma {:induction false} KeptRises(grant: nat -> bool, n: nat, ts: seq<seq<seq<byte>>>)
    ensures n <= Calls(grant, n, ts) && Rising(Kept(grant, n, ts), n, Calls(grant, n, ts))
    decreases |ts|
  {
    if ts != [] {
      SurvivorsRise(grant, n, ts[0]);
      KeptRises(grant, n + Attempts(grant, n, ts[0]), ts[1..]);
    }
  }

  function Datas(bs: seq<Block>): seq<seq<byte>> {
    if bs == [] then [] else [bs[0].data] + Datas(bs[1..])
  }

  lemma {:induction false} DatasConcat(a: seq<Block>, b: seq<Block>)
    ensures Datas(a + b) == Datas(a) + Datas(b)
  {
    if a == [] {
      assert a + b == b;
    } else {
      assert (a + b)[0] == a[0] && (a + b)[1..] == a[1..] + b;
      DatasConcat(a[1..], b);
    }
  }

  lemma {:induction false} SurvivorsAll(grant: nat -> bool, n: nat, ps: seq<seq<byte>>)
    requires forall k :: grant(k)
    ensures Datas(Survivors(grant, n, ps)) == ps
    decreases |ps|
  {
    if ps != [] {
      SurvivorsAll(grant, n + 1, ps[1..]);
      DatasConcat([Block(n, ps[0])], Survivors(grant, n + 1, ps[1..]));
      assert Datas([Block(n, ps[0])]) == [ps[0]];
    }
  }

  /** If no allocation fails, every result of every target is kept, in order. */
  lemma {:induction false} NothingLost(grant: nat -> bool, n: nat, ts: seq<seq<seq<byte>>>)
    requires forall k :: grant(k)
    ensures Datas(Kept(grant, n, ts)) == Flatten(ts)
    decreases |ts|
  {
    if ts != [] {
      var n' := n + Attempts(grant, n, ts[0]);
      NothingLost(grant, n', ts[1..]);
      SurvivorsAll(grant, n, ts[0]);
      DatasConcat(Survivors(grant, n, ts[0]), Kept(grant, n', ts[1..]));
    }
  }

  predicate Always(n: nat) {
    true
  }

  lemma {:induction false} InnerRoom(grant: nat -> bool, g: Gather, m: seq<byte>, w: seq<Attr>)
    requires Readable(m, w) && |g.blocks| <= MAX_RESULTS
    ensures |g.blocks| + |ResultsIn(m, w)| <= MAX_RESULTS ==> InnerFits(grant, g, m, w)
    ensures (forall n :: grant(n)) && InnerFits(grant, g, m, w) ==> |g.blocks| + |ResultsIn(m, w)| <= MAX_RESULTS
    decreases |w|
  {
    if w != [] {
      if w[0].typ != RESULT {
        InnerRoom(grant, g, m, w[1..]);
      } else if |g.blocks| < MAX_RESULTS && grant(g.calls) {
        InnerRoom(grant, g.(blocks := g.blocks + [Block(g.calls, Bytes(m, w[0]))], calls := g.calls + 1), m, w[1..]);
      }
    }
  }

  /** The unchecked array is large enough whenever the results waiting and those arriving number at
      most 1024, however the allocations turn out, and if all succeed only then. */
  lemma {:induction false} EnoughRoom(grant: nat -> bool, g: Gather, m: seq<byte>, w: seq<Attr>)
    requires Readable(m, w) && |g.blocks| <= MAX_RESULTS
    ensures |g.blocks| + |Flatten(TargetsIn(m, w))| <= MAX_RESULTS ==> OuterFits(grant, g, m, w)
    ensures (forall n :: grant(n)) && OuterFits(grant, g, m, w) ==>
              |g.blocks| + |Flatten(TargetsIn(m, w))| <= MAX_RESULTS
    decreases |w|
  {
    if w != [] {
      var g' := Step(grant, g, m, w[0]);
      if w[0].typ == RESULTS_PER_TARGET {
        NestedReadable(m, w[0]);
        var ps := ResultsIn(m, Nested(m, w[0]));
        InnerRoom(grant, g, m, Nested(m, w[0]));
        InnerGathers(grant, g, m, Nested(m, w[0]));
        if forall n :: grant(n) {
          AllSurvive(grant, g.calls, ps);
        }
        assert TargetsIn(m, w)[0] == ps && TargetsIn(m, w)[1..] == TargetsIn(m, w[1..]);
      }
      if |g'.blocks| <= MAX_RESULTS {
        EnoughRoom(grant, g', m, w[1..]);
      }
    }
  }

  lemma AllSurvive(grant: nat -> bool, n: nat, ps: seq<seq<byte>>)
    requires forall k :: grant(k)
    ensures |Survivors(grant, n, ps)| == |ps|
  {
    SurvivorsPrefix(grant, n, ps);
  }

  /** An event is safe to handle, whatever the allocations do, exactly when the results waiting and those
      it carries number at most 1024. */
  lemma FitsIff(g: Gather, e: Event)
    requires |g.blocks| <= 1024
    ensures (forall grant: nat -> bool :: OuterFits(grant, g, e.mem, Attrs(e)))
       <==> |g.blocks| + |Flatten(EventTargets(e))| <= 1024
  {
    if |g.blocks| + |Flatten(EventTargets(e))| <= MAX_RESULTS {
      forall grant: nat -> bool ensures OuterFits(grant, g, e.mem, Attrs(e)) {
        EnoughRoom(grant, g, e.mem, Attrs(e));
      }
    } else {
      var grant := Overflowing(g, e);
      assert !OuterFits(grant, g, e.mem, Attrs(e));
    }
  }

  lemma Overflowing(g: Gather, e: Event) returns (grant: nat -> bool)
    requires |g.blocks| <= MAX_RESULTS < |g.blocks| + |Flatten(EventTargets(e))|
    ensures !OuterFits(grant, g, e.mem, Attrs(e))
  {
    grant := Always;
    EnoughRoom(grant, g, e.mem, Attrs(e));
  }

  /** An event with one target that has one result of no bytes, and no completion attribute. */
  function OneResult(): (e: Event)
    ensures e.mem == [12, 0, 197, 0, 8, 0, 31, 0, 4, 0, 33, 0, 0, 0, 0, 0] && e.off == 0
  {
    var m: seq<byte> := [12, 0, 197, 0, 8, 0, 31, 0, 4, 0, 33, 0, 0, 0, 0, 0];
    assert U16(m, 0) == 12;
    Event(m, 0)
  }

  lemma OneResultAttrs()
    ensures Attrs(OneResult()) == [Attr(4, 8, RESULTS_PER_TARGET)]
    ensures ResultsIn(OneResult().mem, Nested(OneResult().mem, Attr(4, 8, RESULTS_PER_TARGET))) == [[]]
    ensures EventTargets(OneResult()) == [[[]]]
  {
    var m := OneResult().mem;
    var inner := Attr(4, 8, RESULTS_PER_TARGET);
    assert Align(8) == 4 + Align(4) && Align(4) == 4;
    assert AttrAt(m, 4) == inner && AttrAt(m, 8) == Attr(8, 4, RESULT);
    assert Walk(m, 12, 0) == [];
    assert Walk(m, 8, 4) == [Attr(8, 4, RESULT)] + Walk(m, 12, 0);
    assert Walk(m, 4, 8) == [inner] + Walk(m, 12, 0);
    assert Bytes(m, Attr(8, 4, RESULT)) == [];
  }

  lemma OneResultGathers(g: Gather)
    ensures var g' := Gathered(Always, g, OneResult()); |g'.blocks| == |g.blocks| + 1 && g'.completed == g.completed
  {
    OneResultAttrs();
    EventGathers(Always, g, OneResult());
    AllSurvive(Always, g.calls, [[]]);
    var a := Attr(4, 8, RESULTS_PER_TARGET);
    InnerGathers(Always, g, OneResult().mem, Nested(OneResult().mem, a));
  }

  lemma OneResultHandled(s: State)
    requires s.g.completed == 0
    ensures var s' := Handle(Always, s, OneResult()); |s'.g.blocks| == |s.g.blocks| + 1 && s'.g.completed == 0
  {
    hide Gathered;
    OneResultGathers(s.g);
  }

  /** With memory to spare such events only pile up. */
  lemma {:induction false} PileUp(es: seq<Event>, n: nat)
    requires n <= |es| && forall i :: 0 <= i < |es| ==> es[i] == OneResult()
    ensures var s := After(Always, es, n); |s.g.blocks| == n && s.g.completed == 0
  {
    hide Handle, OneResult;
    if n > 0 {
      PileUp(es, n - 1);
      OneResultHandled(After(Always, es, n - 1));
    }
  }

  /** The bound can be passed: after 1024 events of one result each and no completion, one more writes
      past the array. */
  lemma OverflowExample()
    ensures var es := seq(MAX_RESULTS, _ => OneResult());
            !OuterFits(Always, After(Always, es, MAX_RESULTS).g, OneResult().mem, Attrs(OneResult()))
  {
    var es := seq(MAX_RESULTS, _ => OneResult());
    PileUp(es, MAX_RESULTS);
    OneResultAttrs();
    EnoughRoom(Always, After(Always, es, MAX_RESULTS).g, OneResult().mem, Attrs(OneResult()));
    assert EventTargets(OneResult())[0] == [[]] && EventTargets(OneResult())[1..] == [];
  }

  // ---------------------------------------------------------------- the command

  /** The array as it is with bs waiting: filled from the front, null behind. */
  function Slots(bs: seq<Block>): (s: seq<Option<Block>>)
    requires |bs| <= MAX_RESULTS
    ensures |s| == MAX_RESULTS
  {
    seq(MAX_RESULTS, i requires 0 <= i < MAX_RESULTS => if i < |bs| then Some(bs[i]) else None)
  }

  function Ids(bs: seq<Block>): seq<nat> {
    seq(|bs|, i requires 0 <= i < |bs| => bs[i].id)
  }

  /** Everything freed was allocated earlier than anything waiting. */
  ghost predicate FreedBefore(freed: seq<nat>, waiting: seq<Block>, calls: nat) {
    && (forall j :: 0 <= j < |freed| ==> freed[j] < calls)
    && (forall i, j :: 0 <= i < |waiting| && 0 <= j < |freed| ==> freed[j] < waiting[i].id)
  }

  /** What was freed is what was delivered, and nothing waiting has been freed. */
  ghost predicate Ledger(waiting: seq<Block>, calls: nat, deliveries: seq<seq<Block>>, freed: seq<nat>) {
    Rising(waiting, 0, calls) && FreedBefore(freed, waiting, calls) && freed == Ids(Flatten(deliveries))
  }

  lemma SlotsAppend(bs: seq<Block>, b: Block)
    requires |bs| < MAX_RESULTS
    ensures Slots(bs + [b]) == Slots(bs)[|bs| := Some(b)] && Slots(bs) == Slots(bs)[|bs| := None]
  {
  }

  /** The array after the first i blocks have been freed. */
  function Cleared(bs: seq<Block>, i: nat): (s: seq<Option<Block>>)
    requires |bs| <= MAX_RESULTS
    ensures |s| == MAX_RESULTS
  {
    seq(MAX_RESULTS, k requires 0 <= k < MAX_RESULTS => if i <= k < |bs| then Some(bs[k]) else None)
  }

  lemma ClearedStep(bs: seq<Block>, i: nat)
    requires |bs| <= MAX_RESULTS
    ensures Cleared(bs, 0) == Slots(bs) && Cleared(bs, |bs|) == Slots([])
    ensures i < |bs| ==> Cleared(bs, i)[i] == Some(bs[i]) && Cleared(bs, i)[i := None] == Cleared(bs, i + 1)
  {
  }

  lemma FreeNext(bs: seq<Block>, i: nat, calls: nat, deliveries: seq<seq<Block>>, freed: seq<nat>)
    requires i < |bs| && Ledger(bs, calls, deliveries, freed)
    ensures bs[i].id < calls && bs[i].id !in freed + Ids(bs[..i])
    ensures freed + Ids(bs[..i + 1]) == freed + Ids(bs[..i]) + [bs[i].id]
  {
  }

  lemma WaitingAppend(bs: seq<Block>, n: nat, deliveries: seq<seq<Block>>, freed: seq<nat>, data: seq<byte>)
    requires Ledger(bs, n, deliveries, freed)
    ensures Ledger(bs + [Block(n, data)], n + 1, deliveries, freed) && Ledger(bs, n + 1, deliveries, freed)
  {
  }

  lemma FlattenLast<T>(ss: seq<seq<T>>, last: seq<T>)
    ensures Flatten(ss + [last]) == Flatten(ss) + last
  {
    FlattenConcat(ss, [last]);
    assert [last][1..] == [] && Flatten([last]) == last + [];
  }

  lemma IdsConcat(a: seq<Block>, b: seq<Block>)
    ensures Ids(a + b) == Ids(a) + Ids(b)
  {
  }

  lemma FreedAll(freed: seq<nat>, bs: seq<Block>, calls: nat)
    requires Rising(bs, 0, calls) && FreedBefore(freed, bs, calls)
    ensures FreedBefore(freed + Ids(bs), [], calls)
  {
  }

  lemma DeliverFrees(bs: seq<Block>, calls: nat, deliveries: seq<seq<Block>>, freed: seq<nat>)
    requires Ledger(bs, calls, deliveries, freed)
    ensures Ledger([], calls, deliveries + [bs], freed + Ids(bs))
  {
    hide Flatten, Ids, FreedBefore;
    FlattenLast(deliveries, bs);
    IdsConcat(Flatten(deliveries), bs);
    FreedAll(freed, bs, calls);
  }

  class RttCommand {
    const grant: nat -> bool                    // whether the n-th malloc succeeds
    const rttResults: array<Option<Block>>      // MAX_RESULTS pointers
    var currentIdx: nat
    var totalCnt: nat
    var mCompleted: int32
    var calls: nat                              // mallocs so far
    ghost var pending: seq<Block>
    ghost var deliveries: seq<seq<Block>>       // arguments of the result callback so far
    ghost var freed: seq<nat>                   // allocations freed so far

    ghost predicate Valid()
      reads this, rttResults
    {
      && |pending| <= MAX_RESULTS
      && totalCnt == currentIdx == |pending|
      && rttResults[..] == Slots(pending)
      && Ledger(pending, calls, deliveries, freed)
    }

    ghost function Waiting(): Gather
      reads this
    {
      Gather(pending, calls, mCompleted)
    }

    constructor (grant: nat -> bool)
      ensures Valid() && fresh(rttResults) && rttResults.Length == 1024 && this.grant == grant
      ensures Waiting() == START.g && deliveries == START.deliveries && freed == []
    {
      this.grant := grant;
      rttResults := new Option<Block>[MAX_RESULTS](_ => None);
      currentIdx, totalCnt, mCompleted, calls := 0, 0, 0, 0;
      pending, deliveries, freed := [], [], [];
    }

    /** malloc and the copy into the new block. */
    method Allocate(data: seq<byte>) returns (b: Option<Block>)
      modifies this`calls
      ensures calls == old(calls) + 1
      ensures b == if grant(old(calls)) then Some(Block(old(calls), data)) else None
    {
      b := if grant(calls) then Some(Block(calls, data)) else None;
      calls := calls + 1;
    }

    /** free: only of a block that has not been freed. */
    method Free(b: Block)
      requires b.id !in freed && b.id < calls
      modifies this`freed
      ensures freed == old(freed) + [b.id]
    {
      freed := freed + [b.id];
    }

    /** One RESULT attribute. The slot is written before the pointer is checked. */
    method StoreResult(data: seq<byte>) returns (ok: bool)
      requires Valid() && |pending| < MAX_RESULTS
      modifies this`currentIdx, this`totalCnt, this`mCompleted, this`calls, this`pending, rttResults
      ensures Valid() && ok == grant(old(calls))
      ensures Waiting() == if ok then Gather(old(pending) + [Block(old(calls), data)], old(calls) + 1, old(mCompleted))
                           else Gather(old(pending), old(calls) + 1, 1)
    {
      hide Ledger, Slots;
      SlotsAppend(pending, Block(calls, data));
      WaitingAppend(pending, calls, deliveries, freed, data);
      var b := Allocate(data);
      rttResults[currentIdx] := b;
      if b.None? {
        mCompleted := 1;
        return false;
      }
      totalCnt := totalCnt + 1;
      pending := pending + [b.value];
      currentIdx := currentIdx + 1;
      return true;
    }

    /** The walk over one target; a failed allocation ends it, and only it. */
    method HandleTarget(m: seq<byte>, a: Attr)
      requires Valid() && NLA_HDRLEN <= a.len && a.off + a.len + 4 <= |m|
      requires TargetFits(grant, Waiting(), m, a)
      modifies this`currentIdx, this`totalCnt, this`mCompleted, this`calls, this`pending, rttResults
      ensures Valid() && Waiting() == Target(grant, old(Waiting()), m, a)
    {
      hide Ledger, Slots;
      ghost var goal := Target(grant, Waiting(), m, a);
      NestedReadable(m, a);
      var it2 := new NlIterator(m, a);
      ghost var w := it2.Rest();
      var more := it2.HasNext();
      while more
        invariant Valid() && it2.Valid() && it2.mem == m && it2.Rest() == w && (more <==> w != [])
        invariant Readable(m, w) && InnerFits(grant, Waiting(), m, w)
        invariant Inner(grant, Waiting(), m, w) == goal
        decreases |w|
      {
        var b := it2.Get();
        if b.typ == RESULT {
          var ok := StoreResult(Bytes(m, b));
          if !ok {
            return;
          }
        }
        it2.Next();
        w := w[1..];
        more := it2.HasNext();
      }
    }

    /** The callback, then every delivered block freed and its slot cleared. */
    method Deliver()
      requires Valid()
      modifies this`currentIdx, this`totalCnt, this`pending, this`deliveries, this`freed, rttResults
      ensures Valid() && pending == []
      ensures deliveries == old(deliveries) + [old(pending)] && freed == old(freed) + Ids(old(pending))
    {
      hide Ledger, Slots, Cleared;
      ghost var bs, before := pending, freed;
      deliveries := deliveries + [bs];
      var i := 0;
      ClearedStep(bs, 0);
      while i < currentIdx
        invariant 0 <= i <= currentIdx == |bs| && rttResults[..] == Cleared(bs, i)
        invariant freed == before + Ids(bs[..i]) && deliveries == old(deliveries) + [bs]
      {
        ClearedStep(bs, i);
        FreeNext(bs, i, calls, old(deliveries), before);
        assert rttResults[i] == rttResults[..][i];
        Free(rttResults[i].value);
        rttResults[i] := None;
        i := i + 1;
      }
      assert bs[..i] == bs;
      ClearedStep(bs, i);
      DeliverFrees(bs, calls, old(deliveries), before);
      totalCnt, currentIdx, pending := 0, 0, [];
    }

    /** The walk over an event's attributes. */
    method Collect(e: Event)
      requires Valid() && OuterFits(grant, Waiting(), e.mem, Attrs(e))
      modifies this`currentIdx, this`totalCnt, this`mCompleted, this`calls, this`pending, rttResults
      ensures Valid() && Waiting() == Gathered(grant, old(Waiting()), e)
    {
      LeadsStart(grant, Waiting(), e);
      hide Gathered, Target, TargetFits, Ledger, Slots, Attrs, Leads, Outer, OuterFits, Walk, GetInt;
      ghost var goal := Gathered(grant, Waiting(), e);
      AttrsAreNested(e);
      var it := new NlIterator(e.mem, AttrAt(e.mem, e.off));
      ghost var w := it.Rest();
      var more := it.HasNext();
      while more
        invariant Valid() && it.Valid() && it.mem == e.mem && it.Rest() == w && (more <==> w != [])
        invariant Leads(grant, Waiting(), e.mem, w, goal)
        decreases |w|
      {
        var a := it.Get();
        LeadsStep(grant, Waiting(), e.mem, w, goal);
        if a.typ == RESULTS_COMPLETE {
          mCompleted := GetInt(e.mem, a);
        } else if a.typ == RESULTS_PER_TARGET {
          HandleTarget(e.mem, a);
        }
        it.Next();
        w := w[1..];
        more := it.HasNext();
      }
      LeadsEnd(grant, Waiting(), e.mem, goal);
    }

    /** One event: exactly the transition of the run model. */
    method HandleEvent(e: Event)
      requires Valid() && OuterFits(grant, Waiting(), e.mem, Attrs(e))
      modifies this, rttResults
      ensures Valid() && State(Waiting(), deliveries) == Handle(grant, old(State(Waiting(), deliveries)), e)
      ensures freed == old(freed) + (if mCompleted != 0 then Ids(Gathered(grant, old(Waiting()), e).blocks) else [])
    {
      Collect(e);
      if mCompleted != 0 {
        Deliver();
      }
    }
  }
}
