/** Data-call slots of the RIL glue: an array of call ids scanned over its first four cells, which
    decides the interface id sent with each set-up request. */
module DataCalls {
  import opened Prelude
  import opened Runs

  const SLOTS: nat := 4
  const CELLS: nat := 5

  type Cells = s: seq<int> | |s| == CELLS witness [-1, -1, -1, -1, -1]

  /** First of the four slots holding v in cells from i on, or 4. */
  function Scan(s: Cells, v: int, i: nat): (r: nat)
    requires i <= SLOTS
    ensures i <= r <= SLOTS && (r < SLOTS ==> s[r] == v)
    ensures forall j :: i <= j < r ==> s[j] != v
    decreases SLOTS - i
  {
    if i == SLOTS || s[i] == v then i else Scan(s, v, i + 1)
  }

  /** First free (negative) slot from i on, or 4. */
  function FreeFrom(s: Cells, i: nat): (r: nat)
    requires i <= SLOTS
    ensures i <= r <= SLOTS && (r < SLOTS ==> s[r] < 0)
    ensures forall j :: i <= j < r ==> s[j] >= 0
    decreases SLOTS - i
  {
    if i == SLOTS || s[i] < 0 then i else FreeFrom(s, i + 1)
  }

  function FirstFree(s: Cells): (r: nat)
    ensures r <= SLOTS && (r < SLOTS ==> s[r] < 0) && forall j :: 0 <= j < r ==> s[j] >= 0
  {
    FreeFrom(s, 0)
  }

  /** The interface id announced for a set-up; 0 when all slots are taken. */
  function Announced(s: Cells): nat {
    if FirstFree(s) < SLOTS then FirstFree(s) + 1 else 0
  }

  function Stored(s: Cells, cid: int): Cells {
    if cid >= 0 && FirstFree(s) < SLOTS then s[FirstFree(s) := cid] else s
  }

  function Cleared(s: Cells, cid: int): Cells {
    var i := Scan(s, cid, 0);
    if i < SLOTS then s[i := -1] else s
  }

  lemma ScanUnique(s: Cells, v: int, i: nat)
    requires i <= SLOTS && (i < SLOTS ==> s[i] == v) && forall j :: 0 <= j < i ==> s[j] != v
    ensures Scan(s, v, 0) == i
  {
  }

  lemma FirstFreeUnique(s: Cells, i: nat)
    requires i <= SLOTS && (i < SLOTS ==> s[i] < 0) && forall j :: 0 <= j < i ==> s[j] >= 0
    ensures FirstFree(s) == i
  {
  }

  class DataCallSlots {
    const dataCallCids: array<int>

    ghost predicate Valid() {
      dataCallCids.Length == CELLS
    }

    ghost function Contents(): Cells
      reads dataCallCids
      requires Valid()
    {
      dataCallCids[..]
    }

    constructor ()
      ensures Valid() && fresh(dataCallCids) && Contents() == [-1, -1, -1, -1, -1]
    {
      dataCallCids := new int[CELLS](_ => -1);
    }

    method SetupDataCall() returns (interfaceId: nat)
      requires Valid()
      ensures interfaceId == Announced(Contents())
    {
      interfaceId := 0;
      for i := 0 to SLOTS
        invariant forall j :: 0 <= j < i ==> dataCallCids[j] >= 0
      {
        if dataCallCids[i] < 0 {
          FirstFreeUnique(Contents(), i);
          return i + 1;
        }
      }
      FirstFreeUnique(Contents(), SLOTS);
    }

    method FetchCidFromDataCall(cid: int)
      requires Valid()
      modifies dataCallCids
      ensures Contents() == Stored(old(Contents()), cid)
    {
      if cid >= 0 {
        for i := 0 to SLOTS
          invariant Contents() == old(Contents()) && forall j :: 0 <= j < i ==> dataCallCids[j] >= 0
        {
          if dataCallCids[i] < 0 {
            FirstFreeUnique(Contents(), i);
            dataCallCids[i] := cid;
            return;
          }
        }
        FirstFreeUnique(Contents(), SLOTS);
      }
    }

    method DeactivateDataCall(cid: int)
      requires Valid()
      modifies dataCallCids
      ensures Contents() == Cleared(old(Contents()), cid)
    {
      for i := 0 to SLOTS
        invariant Contents() == old(Contents()) && forall j :: 0 <= j < i ==> dataCallCids[j] != cid
      {
        if dataCallCids[i] == cid {
          ScanUnique(Contents(), cid, i);
          dataCallCids[i] := -1;
          return;
        }
      }
      ScanUnique(Contents(), cid, SLOTS);
    }
  }

  // ---------------------------------------------------------------- landing where announced

  function ClearedAll(s: Cells, cids: seq<int>): Cells
    decreases |cids|
  {
    if cids == [] then s else ClearedAll(Cleared(s, cids[0]), cids[1..])
  }

  lemma ClearedFirstFree(s: Cells, cid: int)
    ensures FirstFree(Cleared(s, cid)) <= FirstFree(s)
    ensures FirstFree(Cleared(s, cid)) == FirstFree(s) <==> cid !in s[..FirstFree(s)]
    ensures cid !in s[..FirstFree(s)] ==> Cleared(s, cid)[..FirstFree(s)] == s[..FirstFree(s)]
  {
    var f, i := FirstFree(s), Scan(s, cid, 0);
    if i < f {
      assert s[..f][i] == cid;
      FirstFreeUnique(Cleared(s, cid), i);
    } else {
      assert cid !in s[..f];
      FirstFreeUnique(Cleared(s, cid), f);
    }
  }

  lemma {:induction false} ClearedAllLower(s: Cells, cids: seq<int>)
    ensures FirstFree(ClearedAll(s, cids)) <= FirstFree(s)
    decreases |cids|
  {
    if cids != [] {
      ClearedFirstFree(s, cids[0]);
      ClearedAllLower(Cleared(s, cids[0]), cids[1..]);
    }
  }

  /** Whatever calls are deactivated between a set-up request and its reply, the reply's id lands in the
      slot that was free at the request exactly when none of them was stored in a lower slot. */
  lemma {:induction false} LandsWhereAnnouncedIff(s: Cells, cids: seq<int>)
    ensures FirstFree(ClearedAll(s, cids)) == FirstFree(s)
       <==> forall d :: d in cids ==> d !in s[..FirstFree(s)]
    decreases |cids|
  {
    if cids != [] {
      ClearedFirstFree(s, cids[0]);
      var s' := Cleared(s, cids[0]);
      if cids[0] in s[..FirstFree(s)] {
        ClearedAllLower(s', cids[1..]);
      } else {
        LandsWhereAnnouncedIff(s', cids[1..]);
      }
    }
  }

  // ---------------------------------------------------------------- storing an id twice

  predicate InSlot(cells: Cells, c: int) {
    c >= 0 && (cells[0] == c || cells[1] == c || cells[2] == c || cells[3] == c)
  }

  /** No call is stored in two slots. */
  ghost predicate StoredOnce(cells: Cells) {
    forall i, j :: 0 <= i < j < SLOTS && cells[i] >= 0 ==> cells[i] != cells[j]
  }

  /** A reply with this id would be stored although the id is stored already. */
  predicate Repeats(cells: Cells, cid: int) {
    InSlot(cells, cid) && FirstFree(cells) < SLOTS
  }

  /** A reply makes an id stand in two slots exactly when it is stored already and a slot is free. */
  lemma StoredTwiceIff(cells: Cells, cid: int)
    requires StoredOnce(cells)
    ensures !StoredOnce(Stored(cells, cid)) <==> Repeats(cells, cid)
  {
    var f, r := FirstFree(cells), Stored(cells, cid);
    if Repeats(cells, cid) {
      var j := if cells[0] == cid then 0 else if cells[1] == cid then 1 else if cells[2] == cid then 2 else 3;
      assert r[f] == cid && r[j] == cid;
    } else if cid >= 0 && f < SLOTS {
      assert forall i :: 0 <= i < SLOTS ==> cells[i] != cid;
    }
  }

  lemma ClearedStoredOnce(cells: Cells, cid: int)
    requires StoredOnce(cells)
    ensures StoredOnce(Cleared(cells, cid))
  {
    var i, r := Scan(cells, cid, 0), Cleared(cells, cid);
    assert forall k :: 0 <= k < SLOTS && r[k] >= 0 ==> r[k] == cells[k];
  }

  // ---------------------------------------------------------------- whole runs

  /** pending is the interface id of the outstanding set-up; live maps each call brought up and neither
      deactivated nor dropped by the network to the interface id its set-up announced. The rest records
      the run so far. */
  datatype State = State(cells: Cells, pending: Option<nat>, live: map<int, nat>, history: History)

  /** orderly: every reply had an id of no live call and no live call was dropped; repeated: some reply
      was stored under an id that was stored already; twice: some id stood in two slots. */
  datatype History = History(orderly: bool, repeated: bool, twice: bool)

  datatype Step = Setup | Reply(cid: int) | Deactivate(cid: int) | Drop(cid: int)

  const START: State := State([-1, -1, -1, -1, -1], None, map[], History(true, false, false))

  /** One set-up outstanding at a time and no deactivation meanwhile; the modem may answer with any id
      and drop calls at any time. */
  ghost predicate Next(s: State, step: Step, s': State) {
    var h := s.history;
    match step
    case Setup => s.pending == None && s' == s.(pending := Some(Announced(s.cells)))
    case Reply(cid) =>
      var cells := Stored(s.cells, cid);
      && s.pending != None
      && s' == State(cells, None, if cid >= 0 then s.live[cid := s.pending.value] else s.live,
                     History(h.orderly && cid !in s.live, h.repeated || Repeats(s.cells, cid), h.twice || !StoredOnce(cells)))
    case Deactivate(cid) =>
      var cells := Cleared(s.cells, cid);
      && s.pending == None
      && s' == State(cells, None, s.live - {cid}, h.(twice := h.twice || !StoredOnce(cells)))
    case Drop(cid) =>
      s' == s.(live := s.live - {cid}, history := h.(orderly := h.orderly && cid !in s.live))
  }

  /** Besides, a set-up is requested only while fewer than four calls are live. */
  ghost predicate NextAtMostFour(s: State, step: Step, s': State) {
    Next(s, step, s') && (step == Setup ==> |s.live| < 4)
  }

  /** Free cells hold -1, and the fifth always does. */
  predicate CellsOk(cells: Cells) {
    cells[0] >= -1 && cells[1] >= -1 && cells[2] >= -1 && cells[3] >= -1 && cells[4] == -1
  }

  /** A stored call is live and was announced as the interface after its slot. */
  predicate SlotOk(cells: Cells, live: map<int, nat>, i: nat)
    requires i < SLOTS
  {
    cells[i] >= 0 ==> cells[i] in live && live[cells[i]] == i + 1
  }

  predicate SlotsOk(cells: Cells, live: map<int, nat>) {
    SlotOk(cells, live, 0) && SlotOk(cells, live, 1) && SlotOk(cells, live, 2) && SlotOk(cells, live, 3)
  }

  /** A call announced with an interface is stored in the slot before it. */
  predicate CallOk(cells: Cells, live: map<int, nat>, c: int)
    requires c in live
  {
    c >= 0 && live[c] <= 4 && (live[c] > 0 ==> cells[live[c] - 1] == c)
  }

  /** Every reply's id landed in the slot announced for it, and is still there while the call is live. */
  ghost predicate Landed(cells: Cells, live: map<int, nat>) {
    forall c :: c in live ==> CallOk(cells, live, c)
  }

  ghost predicate Inv(s: State) {
    && CellsOk(s.cells) && Landed(s.cells, s.live)
    && (s.pending != None ==> s.pending.value == Announced(s.cells))
    && (s.history.orderly ==> SlotsOk(s.cells, s.live))
    && (s.history.twice <==> s.history.repeated)
    && (!s.history.twice ==> StoredOnce(s.cells))
  }

  lemma StoreKeeps(cells: Cells, live: map<int, nat>, cid: int)
    requires CellsOk(cells) && Landed(cells, live) && cid >= 0
    ensures CellsOk(Stored(cells, cid)) && Landed(Stored(cells, cid), live[cid := Announced(cells)])
    ensures cid !in live && SlotsOk(cells, live) ==> SlotsOk(Stored(cells, cid), live[cid := Announced(cells)])
  {
    var cells', live' := Stored(cells, cid), live[cid := Announced(cells)];
    hide FreeFrom;
    forall c | c in live' ensures CallOk(cells', live', c) {
      assert c != cid ==> CallOk(cells, live, c);
    }
  }

  lemma ClearKeeps(cells: Cells, live: map<int, nat>, cid: int)
    requires CellsOk(cells) && Landed(cells, live)
    ensures CellsOk(Cleared(cells, cid)) && Landed(Cleared(cells, cid), live - {cid})
    ensures SlotsOk(cells, live) ==> SlotsOk(Cleared(cells, cid), live - {cid})
  {
    hide Scan;
    var cells', live' := Cleared(cells, cid), live - {cid};
    forall c | c in live' ensures CallOk(cells', live', c) {
      assert CallOk(cells, live, c);
    }
    assert SlotsOk(cells, live) ==> SlotsOk(cells', live') by {
      if SlotsOk(cells, live) {
        OnlyCopy(cells, live, cid);
      }
    }
  }

  /** With every stored call in its announced slot, a call is stored at most once. */
  lemma OnlyCopy(cells: Cells, live: map<int, nat>, cid: int)
    requires CellsOk(cells) && SlotsOk(cells, live)
    ensures StoredOnce(cells)
    ensures var i := Scan(cells, cid, 0); cid >= 0 ==> forall j :: 0 <= j < SLOTS && j != i ==> cells[j] != cid
  {
    assert forall i :: 0 <= i < SLOTS ==> SlotOk(cells, live, i);
  }

  lemma DropKeeps(cells: Cells, live: map<int, nat>, cid: int)
    requires Landed(cells, live)
    ensures Landed(cells, live - {cid}) && (cid !in live ==> live - {cid} == live)
  {
    forall c | c in live - {cid} ensures CallOk(cells, live - {cid}, c) {
      assert CallOk(cells, live, c);
    }
  }

  lemma NextKeepsInv(s: State, step: Step, s': State)
    requires Inv(s) && Next(s, step, s')
    ensures Inv(s')
  {
    hide CellsOk, Landed, SlotsOk, FirstFree, StoredOnce;
    match step
    case Setup =>
    case Reply(cid) =>
      if cid >= 0 {
        StoreKeeps(s.cells, s.live, cid);
      }
      if !s.history.twice {
        StoredTwiceIff(s.cells, cid);
      }
    case Deactivate(cid) =>
      ClearKeeps(s.cells, s.live, cid);
      if !s.history.twice {
        ClearedStoredOnce(s.cells, cid);
      }
    case Drop(cid) =>
      DropKeeps(s.cells, s.live, cid);
  }

  ghost predicate InvAllStored(s: State) {
    && Inv(s)
    && (s.history.orderly ==>
          (forall c :: c in s.live ==> s.live[c] > 0) && (s.pending != None ==> s.pending.value > 0))
  }

  /** With fewer than four live calls a slot is free, in an orderly run. */
  lemma FreeSlotLeft(s: State)
    requires Inv(s) && s.history.orderly && |s.live| < SLOTS
    ensures Announced(s.cells) > 0
  {
    if FirstFree(s.cells) == SLOTS {
      var c := s.cells;
      assert c[0] >= 0 && c[1] >= 0 && c[2] >= 0 && c[3] >= 0;
      FourDistinct(c[0], c[1], c[2], c[3], s.live.Keys);
    }
  }

  lemma FourDistinct<T>(a: T, b: T, c: T, d: T, x: set<T>)
    requires a != b && a != c && a != d && b != c && b != d && c != d
    requires a in x && b in x && c in x && d in x
    ensures |x| >= 4
  {
    SubsetSize({a, b} + {c, d}, x);
    assert {a, b} !! {c, d};
  }

  lemma {:induction false} SubsetSize<T>(a: set<T>, b: set<T>)
    requires a <= b
    ensures |a| <= |b|
  {
    if a != {} {
      var x :| x in a;
      SubsetSize(a - {x}, b - {x});
    }
  }

  lemma NextKeepsAllStored(s: State, step: Step, s': State)
    requires InvAllStored(s) && NextAtMostFour(s, step, s')
    ensures InvAllStored(s')
  {
    NextKeepsInv(s, step, s');
    if step == Setup && s.history.orderly {
      FreeSlotLeft(s);
    }
    hide Inv;
  }

  lemma RunKeepsInv(steps: seq<Step>, s: State)
    requires Run(Next, START, steps, s)
    ensures Inv(s)
  {
    assert Inv(START);
    hide Inv, Next;
    forall a, step, b | Inv(a) && Next(a, step, b) ensures Inv(b) {
      NextKeepsInv(a, step, b);
    }
    RunKeeps(Next, Inv, START, steps, s);
  }

  lemma RunKeepsAllStored(steps: seq<Step>, s: State)
    requires Run(NextAtMostFour, START, steps, s)
    ensures InvAllStored(s)
  {
    assert InvAllStored(START);
    hide InvAllStored, NextAtMostFour;
    forall a, step, b | InvAllStored(a) && NextAtMostFour(a, step, b) ensures InvAllStored(b) {
      NextKeepsAllStored(a, step, b);
    }
    RunKeeps(NextAtMostFour, InvAllStored, START, steps, s);
  }

  /** Exactly the live calls announced with an interface are stored. */
  ghost predicate StoredAreAnnounced(s: State) {
    forall c :: InSlot(s.cells, c) <==> c in s.live && s.live[c] > 0
  }

  /** Two live calls share an announced number only if that number is 0. */
  ghost predicate InterfacesDistinct(live: map<int, nat>) {
    forall c, d :: c in live && d in live && live[c] == live[d] ==> c == d || live[c] == 0
  }

  lemma LandedMeans(s: State)
    requires Landed(s.cells, s.live)
    ensures InterfacesDistinct(s.live)
    ensures SlotsOk(s.cells, s.live) ==> StoredAreAnnounced(s)
  {
    forall c ensures SlotsOk(s.cells, s.live) ==> (InSlot(s.cells, c) <==> c in s.live && s.live[c] > 0) {
      if c in s.live {
        assert CallOk(s.cells, s.live, c);
      }
    }
    forall c, d | c in s.live && d in s.live && s.live[c] == s.live[d] ensures c == d || s.live[c] == 0 {
      assert CallOk(s.cells, s.live, c) && CallOk(s.cells, s.live, d);
    }
  }

  /** In every run, whatever ids the modem gives and whatever it drops: the fifth cell stays free; each
      live call stands in the slot announced for it, and those with an interface have different ones;
      an id has stood in two slots exactly if some reply repeated a stored id with a slot free. As long
      as replies bring new ids and nothing is dropped, exactly the live calls with an interface are
      stored, each once. */
  lemma EveryRun(steps: seq<Step>, s: State)
    requires Run(Next, START, steps, s)
    ensures s.cells[4] == -1 && Landed(s.cells, s.live) && InterfacesDistinct(s.live)
    ensures s.history.twice <==> s.history.repeated
    ensures s.history.orderly ==> StoredAreAnnounced(s) && StoredOnce(s.cells)
  {
    hide Landed, StoredOnce, StoredAreAnnounced, InterfacesDistinct, SlotsOk;
    RunKeepsInv(steps, s);
    LandedMeans(s);
    if s.history.orderly {
      OnlyCopy(s.cells, s.live, 0);
    }
  }

  /** With at most four calls at a time in an orderly run, the stored ids are exactly the live ones, and
      every live call has an interface of its own. */
  lemma EveryRunAtMostFour(steps: seq<Step>, s: State)
    requires Run(NextAtMostFour, START, steps, s)
    ensures s.history.orderly ==>
              && (forall c :: InSlot(s.cells, c) <==> c in s.live)
              && (forall c :: c in s.live ==> 1 <= s.live[c] <= 4)
              && (forall c, d :: c in s.live && d in s.live && s.live[c] == s.live[d] ==> c == d)
  {
    RunKeepsAllStored(steps, s);
    LandedMeans(s);
    forall c | c in s.live ensures s.live[c] <= SLOTS {
      assert CallOk(s.cells, s.live, c);
    }
    hide Landed, SlotsOk;
  }

  lemma Append(steps: seq<Step>, s: State, step: Step, s': State) returns (steps': seq<Step>)
    requires Run(NextAtMostFour, START, steps, s) && NextAtMostFour(s, step, s')
    ensures Run(NextAtMostFour, START, steps', s') && steps' == steps + [step]
  {
    RunOne(NextAtMostFour, s, step, s');
    RunConcat(NextAtMostFour, START, steps, s, [step], s');
    steps' := steps + [step];
  }

  const STORED_ONCE: State := State([7, -1, -1, -1, -1], None, map[7 := 1], History(true, false, false))
  const STORED_TWICE: State := State([7, 7, -1, -1, -1], None, map[7 := 2], History(false, true, true))

  lemma FirstReply()
    ensures NextAtMostFour(START, Setup, START.(pending := Some(1)))
    ensures NextAtMostFour(START.(pending := Some(1)), Reply(7), STORED_ONCE)
  {
    FirstFreeUnique(START.cells, 0);
    assert Stored(START.cells, 7) == STORED_ONCE.cells && START.live[7 := 1] == STORED_ONCE.live;
    assert StoredOnce(STORED_ONCE.cells);
  }

  lemma SecondReply(c: State)
    requires c == STORED_ONCE.(live := map[], history := History(false, false, false))
    ensures NextAtMostFour(STORED_ONCE, Drop(7), c) && NextAtMostFour(c, Setup, c.(pending := Some(2)))
    ensures NextAtMostFour(c.(pending := Some(2)), Reply(7), STORED_TWICE)
  {
    FirstFreeUnique(c.cells, 1);
    assert STORED_ONCE.live - {7} == c.live;
    assert Stored(c.cells, 7) == STORED_TWICE.cells && c.live[7 := 2] == STORED_TWICE.live;
    assert !StoredOnce(STORED_TWICE.cells) by { assert STORED_TWICE.cells[0] == STORED_TWICE.cells[1] == 7; }
  }

  /** A network drop is enough: the modem drops call 7, which stays stored, and gives its id again. */
  lemma StoredTwiceExample() returns (steps: seq<Step>)
    ensures Run(NextAtMostFour, START, steps, STORED_TWICE)
    ensures STORED_TWICE.history.twice && STORED_TWICE.live == map[7 := 2] && STORED_TWICE.cells == [7, 7, -1, -1, -1]
  {
    var a := START.(pending := Some(1));
    var c := STORED_ONCE.(live := map[], history := History(false, false, false));
    FirstReply();
    SecondReply(c);
    assert Run(NextAtMostFour, START, [], START);
    hide *;
    steps := Append([], START, Setup, a);
    steps := Append(steps, a, Reply(7), STORED_ONCE);
    steps := Append(steps, STORED_ONCE, Drop(7), c);
    steps := Append(steps, c, Setup, c.(pending := Some(2)));
    steps := Append(steps, c.(pending := Some(2)), Reply(7), STORED_TWICE);
  }
}
