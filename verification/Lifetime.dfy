/** Interleaved runs of the calls that start and cancel commands and of the event dispatcher, and
    the lifetime of the command objects they share. */
module Lifetime {
  import opened Prelude
  import opened Handlers
  import opened Commands

  type Cmd = nat       // address of a WifiCommand
  type Tid = nat

  const GOOGLE_OUI: uint32 := 0x001A11

  // WIFI_VENDOR_EVENT
  const SIGNIFICANT_CHANGE_RESULTS: int32 := 0
  const HOTLIST_RESULTS_FOUND: int32 := 1
  const SCAN_RESULTS_AVAILABLE: int32 := 2
  const FULL_SCAN_RESULTS: int32 := 3
  const RTT_COMPLETE: int32 := 4
  const COMPLETE_SCAN: int32 := 5
  const HOTLIST_RESULTS_LOST: int32 := 6
  const RSSI_MONITOR: int32 := 7
  const EPNO_EVENT: int32 := 8
  const ANQPO_HOTSPOT_MATCH: int32 := 9

  datatype Class = Scan | FullScan | Hotlist | Epno | SignificantChange | Anqpo | RssiMonitor | Rtt

  /** What a thread does next with "its" command. Touch is any use of the object's members: building
      and sending a request, running handleEvent, delivering results, signalling its condition.
      Register and Unregister each take cb_lock, edit the handler table and release cb_lock. */
  datatype Act =
    | Touch
    | Unlock                 // the dispatcher's release of cb_lock before it runs the callback
    | Register(k: Key)
    | Unregister(k: Key)
    | DropCmd                // wifi_unregister_cmd after a failed start: entry dropped, no releaseRef
    | TakeCmd                // wifi_unregister_cmd(id()) inside a completing RTT callback

  function EventKey(ev: int32): Key {
    Key(NL80211_CMD_VENDOR, GOOGLE_OUI, ev)
  }

  function On(ev: int32): Act { Register(EventKey(ev)) }

  function Off(ev: int32): Act { Unregister(EventKey(ev)) }

  /** The events a command class listens to. */
  function Events(cls: Class): set<int32> {
    match cls
    case Scan => {SCAN_RESULTS_AVAILABLE, COMPLETE_SCAN, FULL_SCAN_RESULTS}
    case FullScan => {FULL_SCAN_RESULTS}
    case Hotlist => {HOTLIST_RESULTS_FOUND, HOTLIST_RESULTS_LOST}
    case Epno => {EPNO_EVENT}
    case SignificantChange => {SIGNIFICANT_CHANGE_RESULTS}
    case Anqpo => {ANQPO_HOTSPOT_MATCH}
    case RssiMonitor => {RSSI_MONITOR}
    case Rtt => {RTT_COMPLETE}
  }

  predicate Listens(cls: Class, k: Key) {
    k.nlCmd == NL80211_CMD_VENDOR && k.vendorId == GOOGLE_OUI && k.vendorSubcmd in Events(cls)
  }

  /** The possible courses of start(), with the caller's clean-up after a failure. */
  function StartPaths(cls: Class): set<seq<Act>> {
    match cls
    case Scan =>
      {[Touch, DropCmd],
       [Touch, On(SCAN_RESULTS_AVAILABLE), On(COMPLETE_SCAN), On(FULL_SCAN_RESULTS), Touch],
       [Touch, On(SCAN_RESULTS_AVAILABLE), On(COMPLETE_SCAN), On(FULL_SCAN_RESULTS), Touch,
        Off(COMPLETE_SCAN), Off(SCAN_RESULTS_AVAILABLE), Off(FULL_SCAN_RESULTS), DropCmd]}
    case FullScan =>
      {[Touch, DropCmd],
       [Touch, On(FULL_SCAN_RESULTS), Touch],
       [Touch, On(FULL_SCAN_RESULTS), Touch, Off(FULL_SCAN_RESULTS), DropCmd]}
    case Hotlist =>
      {[Touch, DropCmd],
       [Touch, Off(HOTLIST_RESULTS_FOUND), Off(HOTLIST_RESULTS_LOST), DropCmd],
       [Touch, On(HOTLIST_RESULTS_FOUND), On(HOTLIST_RESULTS_LOST), Touch],
       [Touch, On(HOTLIST_RESULTS_FOUND), On(HOTLIST_RESULTS_LOST), Touch,
        Off(HOTLIST_RESULTS_FOUND), Off(HOTLIST_RESULTS_LOST), DropCmd]}
    case Epno =>
      {[Touch, DropCmd],
       [Touch, Off(EPNO_EVENT), DropCmd],
       [Touch, On(EPNO_EVENT)]}
    case SignificantChange =>
      {[Touch, DropCmd],
       [Touch, On(SIGNIFICANT_CHANGE_RESULTS), Touch],
       [Touch, On(SIGNIFICANT_CHANGE_RESULTS), Touch, Off(SIGNIFICANT_CHANGE_RESULTS), DropCmd]}
    case Anqpo =>
      {[Touch, DropCmd],
       [Touch, On(ANQPO_HOTSPOT_MATCH), Touch],
       [Touch, On(ANQPO_HOTSPOT_MATCH), Touch, Off(ANQPO_HOTSPOT_MATCH), DropCmd]}
    case RssiMonitor => {[Touch], [Touch, On(RSSI_MONITOR)]}
    case Rtt => {[Touch], [Touch, On(RTT_COMPLETE)]}
  }

  /** cancel(); every course of it removes every event of the class. */
  function CancelPath(cls: Class): seq<Act> {
    match cls
    case Scan => [Touch, Off(COMPLETE_SCAN), Off(SCAN_RESULTS_AVAILABLE), Off(FULL_SCAN_RESULTS)]
    case FullScan => [Touch, Off(FULL_SCAN_RESULTS)]
    case Hotlist => [Off(HOTLIST_RESULTS_FOUND), Off(HOTLIST_RESULTS_LOST), Touch]
    case Epno => [Off(EPNO_EVENT), Touch]
    case SignificantChange => [Off(SIGNIFICANT_CHANGE_RESULTS), Touch]
    case Anqpo => [Touch, Off(ANQPO_HOTSPOT_MATCH)]
    case RssiMonitor => [Touch, Off(RSSI_MONITOR)]
    case Rtt => [Touch, Off(RTT_COMPLETE)]
  }

  /** The dispatcher after its search hit: release cb_lock, run event_handler (the event may fail to
      parse; an RTT event may complete the measurement), signal the command's condition. */
  function DispatchPaths(cls: Class): set<seq<Act>> {
    {[Unlock, Touch], [Unlock, Touch, Touch]}
    + if cls.Rtt? then {[Unlock, Touch, Off(RTT_COMPLETE), Touch, TakeCmd, Touch]} else {}
  }

  // ---------------------------------------------------------------- states and steps

  datatype Role = Start | Cancel | Dispatch

  /** taken: the owner reference a completing callback has just been handed. */
  datatype Thread =
    | Idle
    | Searching(key: Key)
    | Running(role: Role, cmd: Cmd, body: seq<Act>, taken: Option<Cmd>, locked: bool)

  /** released records that the owner reference, the 1 that mRefs starts from, has been given back;
      frees counts executions of "delete this". */
  datatype Obj = Obj(cls: Class, id: int32, refs: int, released: bool, frees: nat)

  datatype State = State(
    lock: Option<Tid>,
    handlers: seq<Handler>, allocHandlers: nat,
    cmds: seq<CmdInfo>, allocCmds: nat,
    objs: map<Cmd, Obj>,
    threads: map<Tid, Thread>)

  datatype Step =
    | StartCall(t: Tid, cmd: Cmd, cls: Class, id: int32, path: seq<Act>)  // new, wifi_register_cmd, start()
    | CancelCall(t: Tid, id: int32)                                       // wifi_cancel_cmd
    | BlanketCancel(t: Tid, cmd: Cmd, cls: Class, id: int32)              // cancel() of a command made for it
    | EventCall(t: Tid, key: Key)                                         // dispatcher takes cb_lock
    | Search(t: Tid, path: seq<Act>)                                      // first match, addRef
    | Advance(t: Tid)

  function Th(s: State, t: Tid): Thread {
    if t in s.threads then s.threads[t] else Idle
  }

  function SetThread(s: State, t: Tid, th: Thread): State {
    s.(threads := s.threads[t := th])
  }

  /** releaseRef: the call that brings the count to zero deletes the object. */
  function Release(s: State, c: Cmd, owner: bool): State
    requires c in s.objs
  {
    var o := s.objs[c];
    var refs := o.refs - 1;
    s.(objs := s.objs[c := o.(refs := refs, released := o.released || owner,
                              frees := if refs == 0 then o.frees + 1 else o.frees)])
  }

  function AddRef(s: State, c: Cmd): State
    requires c in s.objs
  {
    s.(objs := s.objs[c := s.objs[c].(refs := s.objs[c].refs + 1)])
  }

  /** The thread after its current act; a start returns as soon as nothing is left to do. */
  function Continue(th: Thread): Thread
    requires th.Running? && th.body != []
  {
    if th.role == Start && |th.body| == 1 then Idle else th.(body := th.body[1..], locked := false)
  }

  predicate UsesTable(a: Act) {
    a.Register? || a.Unregister?
  }

  /** Advance enters the critical section of a table edit. */
  predicate Acquires(th: Thread) {
    th.Running? && th.taken.None? && th.body != [] && UsesTable(th.body[0]) && !th.locked
  }

  predicate Enabled(s: State, step: Step) {
    match step
    case StartCall(t, c, cls, id, path) => Th(s, t).Idle? && c !in s.objs && path in StartPaths(cls)
    case CancelCall(t, id) =>
      Th(s, t).Idle? && (Find(s.cmds, id).Some? ==> Find(s.cmds, id).value in s.objs)
    case BlanketCancel(t, c, cls, id) => Th(s, t).Idle? && c !in s.objs
    case EventCall(t, key) => Th(s, t).Idle? && s.lock.None? && WellKeyed(key)
    case Search(t, path) =>
      && Th(s, t).Searching?
      && var i := FirstIndex(s.handlers, Th(s, t).key);
      && (i < |s.handlers| ==>
            && s.handlers[i].arg in s.objs
            && path in DispatchPaths(s.objs[s.handlers[i].arg].cls))
    case Advance(t) =>
      && Th(s, t).Running? && Th(s, t).cmd in s.objs
      && (Th(s, t).taken.Some? ==> Th(s, t).taken.value in s.objs)
      && (Acquires(Th(s, t)) ==> s.lock.None?)
  }

  /** The act at the head of a running thread. */
  function Perform(s: State, t: Tid): State
    requires Th(s, t).Running? && Th(s, t).body != [] && Th(s, t).cmd in s.objs
  {
    var th := Th(s, t);
    match th.body[0]
    case Touch => SetThread(s, t, Continue(th))
    case Unlock => SetThread(s.(lock := None), t, Continue(th))
    case Register(k) =>
      if !th.locked then SetThread(s.(lock := Some(t)), t, th.(locked := true))
      else SetThread(s.(lock := None,
                        handlers := if |s.handlers| < s.allocHandlers
                                    then s.handlers + [Handler(k, 0, th.cmd)] else s.handlers),
                     t, Continue(th))
    case Unregister(k) =>
      if !th.locked then SetThread(s.(lock := Some(t)), t, th.(locked := true))
      else SetThread(s.(lock := None, handlers := RemoveFirst(s.handlers, k)), t, Continue(th))
    case DropCmd =>
      SetThread(s.(cmds := Without(s.cmds, IndexOfId(s.cmds, s.objs[th.cmd].id))), t, Continue(th))
    case TakeCmd =>
      var id := s.objs[th.cmd].id;
      SetThread(s.(cmds := Without(s.cmds, IndexOfId(s.cmds, id))), t,
                th.(body := th.body[1..], locked := false, taken := Find(s.cmds, id)))
  }

  function Exec(s: State, step: Step): State
    requires Enabled(s, step)
  {
    match step
    case StartCall(t, c, cls, id, path) =>
      SetThread(s.(objs := s.objs[c := Obj(cls, id, 1, false, 0)],
                   cmds := if |s.cmds| < s.allocCmds then s.cmds + [CmdInfo(id, c)] else s.cmds),
                t, Running(Start, c, path, None, false))
    case CancelCall(t, id) =>
      (match Find(s.cmds, id)
       case None => s
       case Some(c) => SetThread(s.(cmds := Without(s.cmds, IndexOfId(s.cmds, id))), t,
                                 Running(Cancel, c, CancelPath(s.objs[c].cls), None, false)))
    case BlanketCancel(t, c, cls, id) =>
      SetThread(s.(objs := s.objs[c := Obj(cls, id, 1, false, 0)]),
                t, Running(Cancel, c, CancelPath(cls), None, false))
    case EventCall(t, key) => SetThread(s.(lock := Some(t)), t, Searching(key))
    case Search(t, path) =>
      var i := FirstIndex(s.handlers, Th(s, t).key);
      if i == |s.handlers| then SetThread(s.(lock := None), t, Idle)
      else SetThread(AddRef(s, s.handlers[i].arg), t, Running(Dispatch, s.handlers[i].arg, path, None, true))
    case Advance(t) =>
      var th := Th(s, t);
      if th.taken.Some? then SetThread(Release(s, th.taken.value, true), t, th.(taken := None))
      else if th.body != [] then Perform(s, t)
      else SetThread(Release(s, th.cmd, th.role != Dispatch), t, Idle)
  }

  // ---------------------------------------------------------------- what callers must keep to

  ghost predicate Has(hs: seq<Handler>, c: Cmd, k: Key) {
    exists i :: 0 <= i < |hs| && hs[i].arg == c && hs[i].key == k
  }

  ghost predicate InTable(s: State, c: Cmd) {
    exists i :: 0 <= i < |s.cmds| && s.cmds[i].cmd == c
  }

  predicate Does(th: Thread, role: Role, c: Cmd) {
    th.Running? && th.role == role && th.cmd == c
  }

  /** c can still be reached through a table, a running start or a running dispatch. */
  ghost predicate Outstanding(s: State, c: Cmd) {
    || InTable(s, c)
    || (exists k :: Has(s.handlers, c, k))
    || (exists t :: Does(Th(s, t), Start, c) || Does(Th(s, t), Dispatch, c))
  }

  /** c is not queued behind another command under k. */
  ghost predicate FrontIsOwn(hs: seq<Handler>, c: Cmd, k: Key) {
    Has(hs, c, k) ==> hs[FirstIndex(hs, k)].arg == c
  }

  /** (1) a new command's request id belongs to no outstanding command; (2) a command is cancelled
      only after its start call returned; (3) a handler removed on behalf of a command is not one
      that command is still waiting behind. */
  ghost predicate Disciplined(s: State, step: Step)
    requires Enabled(s, step)
  {
    match step
    case StartCall(t, c, cls, id, path) =>
      forall d :: d in s.objs && Outstanding(s, d) ==> s.objs[d].id != id
    case CancelCall(t, id) =>
      forall u, c :: Find(s.cmds, id) == Some(c) ==> !Does(Th(s, u), Start, c)
    case Advance(t) =>
      var th := Th(s, t);
      th.taken.None? && th.body != [] && th.body[0].Unregister? && th.locked && th.role != Start
      ==> FrontIsOwn(s.handlers, th.cmd, th.body[0].k)
    case _ => true
  }

  // ---------------------------------------------------------------- what is proved of every state

  predicate Alive(s: State, c: Cmd) {
    c in s.objs && s.objs[c].frees == 0
  }

  /** Nothing the HAL can still follow points at a deleted command. */
  ghost predicate Safe(s: State) {
    && (forall i :: 0 <= i < |s.handlers| ==> Alive(s, s.handlers[i].arg))
    && (forall i :: 0 <= i < |s.cmds| ==> Alive(s, s.cmds[i].cmd))
    && (forall t :: Th(s, t).Running? ==>
          Alive(s, Th(s, t).cmd) && (Th(s, t).taken.Some? ==> Alive(s, Th(s, t).taken.value)))
  }

  function InFlight(s: State, c: Cmd): set<Tid> {
    set t | t in s.threads && Does(s.threads[t], Dispatch, c)
  }

  /** mRefs is the owner reference plus the dispatches in flight, and the object is deleted once,
      when that reaches zero. */
  ghost predicate Accounting(s: State) {
    forall c :: c in s.objs ==>
      && s.objs[c].refs == (if s.objs[c].released then 0 else 1) + |InFlight(s, c)|
      && s.objs[c].frees == (if s.objs[c].refs == 0 then 1 else 0)
  }

  /** The thread is the one that must give back c's owner reference. */
  predicate OwnsRef(th: Thread, c: Cmd) {
    Does(th, Cancel, c) || (th.Running? && th.taken == Some(c))
  }

  /** The owner reference is in one place only: the command table, one canceller or one completing
      callback; once given back it is nowhere. */
  ghost predicate SingleOwner(s: State) {
    && (forall i, j :: 0 <= i < j < |s.cmds| ==> s.cmds[i].cmd != s.cmds[j].cmd)
    && (forall i :: 0 <= i < |s.cmds| ==>
          var c := s.cmds[i].cmd; c in s.objs && !s.objs[c].released && s.objs[c].id == s.cmds[i].id)
    && (forall t, c :: OwnsRef(Th(s, t), c) ==> c in s.objs && !s.objs[c].released && !InTable(s, c))
    && (forall t, u, c :: OwnsRef(Th(s, t), c) && OwnsRef(Th(s, u), c) ==> t == u)
  }

  ghost predicate OneEntryPerCommandAndKey(hs: seq<Handler>) {
    forall i, j :: 0 <= i < j < |hs| ==> hs[i].arg != hs[j].arg || hs[i].key != hs[j].key
  }

  ghost predicate EntriesOwned(s: State) {
    && (forall i :: 0 <= i < |s.handlers| ==>
          var h := s.handlers[i];
          h.arg in s.objs && !s.objs[h.arg].released && Listens(s.objs[h.arg].cls, h.key))
    && OneEntryPerCommandAndKey(s.handlers)
  }

  ghost predicate StartShape(cls: Class, body: seq<Act>) {
    && body != []
    && TakeCmd !in body
    && (forall i :: 0 <= i < |body| && body[i].Register? ==>
          && Listens(cls, body[i].k)
          && (cls.Rtt? ==> i == |body| - 1)
          && forall j :: 0 <= j < |body| && j != i ==> body[j] != body[i])
  }

  /** cb_lock is held exactly by the thread inside a critical section, and never across a Touch. */
  ghost predicate LockDiscipline(s: State, t: Tid) {
    match Th(s, t)
    case Idle => s.lock != Some(t)
    case Searching(_) => s.lock == Some(t)
    case Running(role, c, body, taken, locked) =>
      && (locked <==> s.lock == Some(t))
      && (locked ==> taken.None? && body != [] && (UsesTable(body[0]) || body[0].Unlock?))
      && (forall i :: 0 <= i < |body| && body[i].Unlock? ==> i == 0 && locked)
  }

  ghost predicate StartOk(s: State, t: Tid, c: Cmd, body: seq<Act>)
    requires c in s.objs
  {
    && !s.objs[c].released
    && StartShape(s.objs[c].cls, body)
    && (forall k :: Register(k) in body ==> !Has(s.handlers, c, k))
    && (forall u :: Does(Th(s, u), Start, c) ==> u == t)
    && (forall u :: !OwnsRef(Th(s, u), c))
    && (s.objs[c].cls.Rtt? ==>
          (forall k :: !Has(s.handlers, c, k)) && (forall u :: !Does(Th(s, u), Dispatch, c)))
  }

  /** Every entry of c is removed by an act still ahead in body. */
  ghost predicate WillRemoveAll(s: State, c: Cmd, body: seq<Act>) {
    forall k :: Has(s.handlers, c, k) ==> Unregister(k) in body
  }

  ghost predicate ThreadOk(s: State, t: Tid) {
    var th := Th(s, t);
    th.Running? ==>
      && th.cmd in s.objs
      && (th.role.Start? || forall i :: 0 <= i < |th.body| ==> !th.body[i].Register?)
      && match th.role
         case Start => th.taken.None? && StartOk(s, t, th.cmd, th.body)
         case Cancel => th.taken.None? && TakeCmd !in th.body && WillRemoveAll(s, th.cmd, th.body)
         case Dispatch =>
           && (th.taken.Some? ==> th.taken.value == th.cmd && s.objs[th.cmd].cls.Rtt? && TakeCmd !in th.body
                                  && forall k :: !Has(s.handlers, th.cmd, k))
           && (TakeCmd in th.body ==> s.objs[th.cmd].cls.Rtt? && WillRemoveAll(s, th.cmd, th.body))
           && (forall i, j :: 0 <= i < j < |th.body| && th.body[i].TakeCmd? ==>
                 !th.body[j].TakeCmd? && !UsesTable(th.body[j]))
  }

  ghost predicate IdsDistinct(s: State) {
    forall c, d :: (c in s.objs && d in s.objs && Outstanding(s, c) && Outstanding(s, d)
                    && s.objs[c].id == s.objs[d].id) ==> c == d
  }

  /** The invariant but for the ids, which only rule (1) keeps distinct. */
  ghost predicate Core(s: State) {
    && Accounting(s)
    && SingleOwner(s)
    && EntriesOwned(s)
    && (forall t :: LockDiscipline(s, t))
    && (forall t :: ThreadOk(s, t))
  }

  ghost predicate Inv(s: State) {
    Core(s) && IdsDistinct(s)
  }

  /** What is proved of a step from s to s'. */
  ghost predicate Keeps(s: State, s': State) {
    Core(s') && (IdsDistinct(s) ==> IdsDistinct(s'))
  }

  /** Thread t's completing callback is about to ask the table for its command's id. */
  predicate AboutToTake(s: State, t: Tid) {
    Th(s, t).Running? && Th(s, t).taken.None? && Th(s, t).body != [] && Th(s, t).body[0].TakeCmd?
  }

  /** The table holds nothing under that id, or the thread's own command. */
  predicate TakesOwn(s: State, t: Tid)
    requires AboutToTake(s, t) && Th(s, t).cmd in s.objs
  {
    var found := Find(s.cmds, s.objs[Th(s, t).cmd].id);
    found == None || found == Some(Th(s, t).cmd)
  }

  /** Rules (2) and (3); instead of rule (1), only that no completion takes another command. */
  ghost predicate Loose(s: State, step: Step)
    requires Enabled(s, step)
  {
    && (step.StartCall? || Disciplined(s, step))
    && (step.Advance? && AboutToTake(s, step.t) ==> TakesOwn(s, step.t))
  }
}
