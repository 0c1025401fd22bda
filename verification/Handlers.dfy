/** The event-handler registry of the Wi-Fi HAL: a bounded array edited in place, searched
    first match first, seen from outside as one FIFO queue per event key. */
module Handlers {
  import opened Prelude

  /** Value of NL80211_CMD_VENDOR in the Linux user-space header linux/nl80211.h. */
  const NL80211_CMD_VENDOR: int32 := 103

  datatype Key = Key(nlCmd: int32, vendorId: uint32, vendorSubcmd: int32)

  /** One cb_info; arg identifies the command object passed to the callback. */
  datatype Handler = Handler(key: Key, func: nat, arg: nat)

  /** Plain (non-vendor) handlers are stored with vendor id and subcommand zero. */
  predicate WellKeyed(k: Key) {
    k.nlCmd != NL80211_CMD_VENDOR ==> k.vendorId == 0 && k.vendorSubcmd == 0
  }

  // ---------------------------------------------------------------- specification functions

  /** The handlers registered under one key, oldest first. */
  function Queue(hs: seq<Handler>, k: Key): seq<Handler> {
    if hs == [] then []
    else (if hs[0].key == k then [hs[0]] else []) + Queue(hs[1..], k)
  }

  /** Index of the first handler with key k, or |hs|. */
  function FirstIndex(hs: seq<Handler>, k: Key): (i: nat)
    ensures i <= |hs|
    ensures i < |hs| ==> hs[i].key == k
    ensures forall j :: 0 <= j < i ==> hs[j].key != k
  {
    if hs == [] || hs[0].key == k then 0 else 1 + FirstIndex(hs[1..], k)
  }

  /** hs without its first handler of key k. */
  function RemoveFirst(hs: seq<Handler>, k: Key): seq<Handler> {
    var i := FirstIndex(hs, k);
    if i == |hs| then hs else hs[..i] + hs[i + 1..]
  }

  lemma FirstIndexUnique(hs: seq<Handler>, k: Key, i: nat)
    requires i <= |hs|
    requires i < |hs| ==> hs[i].key == k
    requires forall j :: 0 <= j < i ==> hs[j].key != k
    ensures FirstIndex(hs, k) == i
  {
  }

  lemma {:induction false} QueueConcat(a: seq<Handler>, b: seq<Handler>, k: Key)
    ensures Queue(a + b, k) == Queue(a, k) + Queue(b, k)
  {
    if a == [] {
      assert a + b == b;
    } else {
      assert (a + b)[1..] == a[1..] + b;
      QueueConcat(a[1..], b, k);
    }
  }

  /** Registering at the end of the array enqueues under that key and leaves other queues alone. */
  lemma AppendEnqueues(hs: seq<Handler>, h: Handler, k: Key)
    ensures Queue(hs + [h], k) == if h.key == k then Queue(hs, k) + [h] else Queue(hs, k)
  {
    QueueConcat(hs, [h], k);
  }

  lemma {:induction false} NoKeyEmptyQueue(hs: seq<Handler>, k: Key)
    requires forall h :: h in hs ==> h.key != k
    ensures Queue(hs, k) == []
  {
    if hs != [] {
      assert hs[0] in hs;
      NoKeyEmptyQueue(hs[1..], k);
    }
  }

  /** The first match in the array is the front of the key's queue; there is none iff the queue is empty. */
  lemma FirstMatchIsFront(hs: seq<Handler>, k: Key)
    ensures FirstIndex(hs, k) < |hs| <==> Queue(hs, k) != []
    ensures FirstIndex(hs, k) < |hs| ==> hs[FirstIndex(hs, k)] == Queue(hs, k)[0]
  {
    var i := FirstIndex(hs, k);
    if i < |hs| {
      assert hs == hs[..i] + [hs[i]] + hs[i + 1..];
      SplitQueue(hs[..i], hs[i], hs[i + 1..], k);
      NoKeyEmptyQueue(hs[..i], k);
    } else {
      NoKeyEmptyQueue(hs, k);
    }
  }

  lemma SplitQueue(pre: seq<Handler>, e: Handler, post: seq<Handler>, k: Key)
    ensures Queue(pre + [e] + post, k) == Queue(pre, k) + (if e.key == k then [e] else []) + Queue(post, k)
  {
    QueueConcat(pre + [e], post, k);
    QueueConcat(pre, [e], k);
    assert [e][1..] == [];
  }

  /** Removing the first match dequeues that key's front and leaves other queues alone. */
  lemma RemoveDequeues(hs: seq<Handler>, k: Key, other: Key)
    ensures Queue(RemoveFirst(hs, k), other) ==
            if other == k && Queue(hs, k) != [] then Queue(hs, k)[1..] else Queue(hs, other)
  {
    var i := FirstIndex(hs, k);
    if i < |hs| {
      var pre, e, post := hs[..i], hs[i], hs[i + 1..];
      assert hs == pre + [e] + post;
      SplitQueue(pre, e, post, other);
      QueueConcat(pre, post, other);
      NoKeyEmptyQueue(pre, k);
    } else {
      NoKeyEmptyQueue(hs, k);
    }
  }

  function TotalLength(hs: seq<Handler>, keys: seq<Key>): nat {
    if keys == [] then 0 else |Queue(hs, keys[0])| + TotalLength(hs, keys[1..])
  }

  lemma {:induction false} TotalLengthCons(h: Handler, hs: seq<Handler>, keys: seq<Key>)
    requires NoDuplicates(keys)
    ensures TotalLength([h] + hs, keys) == TotalLength(hs, keys) + (if h.key in keys then 1 else 0)
  {
    if keys != [] {
      TotalLengthCons(h, hs, keys[1..]);
      QueueConcat([h], hs, keys[0]);
      assert h.key in keys <==> h.key == keys[0] || h.key in keys[1..];
      assert keys[0] !in keys[1..];
    }
  }

  /** Over any duplicate-free list of keys covering the table, the queue lengths add up to the
      number of entries. */
  lemma {:induction false} QueuesPartitionTable(hs: seq<Handler>, keys: seq<Key>)
    requires NoDuplicates(keys)
    requires forall h :: h in hs ==> h.key in keys
    ensures TotalLength(hs, keys) == |hs|
  {
    if hs == [] {
      if keys != [] {
        QueuesPartitionTable(hs, keys[1..]);
      }
    } else {
      assert hs == [hs[0]] + hs[1..];
      QueuesPartitionTable(hs[1..], keys);
      TotalLengthCons(hs[0], hs[1..], keys);
    }
  }

  // ---------------------------------------------------------------- the table itself

  class HandlerTable {
    var eventCb: array<Handler>     // event_cb; its length is alloc_event_cb
    var numEventCb: nat             // num_event_cb

    ghost predicate Valid()
      reads this, eventCb
    {
      && numEventCb <= eventCb.Length
      && forall i :: 0 <= i < numEventCb ==> WellKeyed(eventCb[i].key)
    }

    ghost function Entries(): seq<Handler>
      reads this, eventCb
      requires numEventCb <= eventCb.Length
    {
      eventCb[..numEventCb]
    }

    constructor (alloc: nat)
      ensures Valid() && Entries() == [] && eventCb.Length == alloc && fresh(eventCb)
    {
      eventCb := new Handler[alloc](_ => Handler(Key(0, 0, 0), 0, 0));
      numEventCb := 0;
    }

    method RegisterHandler(cmd: int32, func: nat, arg: nat) returns (ok: bool)
      requires Valid()
      modifies this`numEventCb, eventCb
      ensures Valid() && eventCb == old(eventCb)
      ensures ok <==> old(numEventCb) < eventCb.Length
      ensures Entries() == if ok then old(Entries()) + [Handler(Key(cmd, 0, 0), func, arg)] else old(Entries())
      ensures forall k :: Queue(Entries(), k) ==
                if ok && k == Key(cmd, 0, 0) then old(Queue(Entries(), k)) + [Handler(k, func, arg)]
                else old(Queue(Entries(), k))
    {
      ok := false;
      if numEventCb < eventCb.Length {
        eventCb[numEventCb] := Handler(Key(cmd, 0, 0), func, arg);
        numEventCb := numEventCb + 1;
        ok := true;
        forall k ensures Queue(Entries(), k) ==
            if k == Key(cmd, 0, 0) then old(Queue(Entries(), k)) + [Handler(k, func, arg)]
            else old(Queue(Entries(), k))
        {
          assert Entries() == old(Entries()) + [Handler(Key(cmd, 0, 0), func, arg)];
          AppendEnqueues(old(Entries()), Handler(Key(cmd, 0, 0), func, arg), k);
        }
      }
    }

    method RegisterVendorHandler(id: uint32, subcmd: int32, func: nat, arg: nat) returns (ok: bool)
      requires Valid()
      modifies this`numEventCb, eventCb
      ensures Valid() && eventCb == old(eventCb)
      ensures ok <==> old(numEventCb) < eventCb.Length
      ensures Entries() == if ok then old(Entries()) + [Handler(Key(NL80211_CMD_VENDOR, id, subcmd), func, arg)]
                           else old(Entries())
      ensures forall k :: Queue(Entries(), k) ==
                if ok && k == Key(NL80211_CMD_VENDOR, id, subcmd)
                then old(Queue(Entries(), k)) + [Handler(k, func, arg)] else old(Queue(Entries(), k))
    {
      ok := false;
      ghost var added := Handler(Key(NL80211_CMD_VENDOR, id, subcmd), func, arg);
      if numEventCb < eventCb.Length {
        eventCb[numEventCb] := Handler(Key(NL80211_CMD_VENDOR, id, subcmd), func, arg);
        numEventCb := numEventCb + 1;
        ok := true;
        forall k ensures Queue(Entries(), k) ==
            if k == added.key then old(Queue(Entries(), k)) + [added] else old(Queue(Entries(), k))
        {
          assert Entries() == old(Entries()) + [added];
          AppendEnqueues(old(Entries()), added, k);
        }
      }
    }

    /** Shared tail of both unregister routines: close the gap left by entry i. */
    method RemoveAt(i: nat, ghost k: Key)
      requires Valid() && i < numEventCb && FirstIndex(Entries(), k) == i
      modifies this`numEventCb, eventCb
      ensures Valid() && eventCb == old(eventCb)
      ensures Entries() == RemoveFirst(old(Entries()), k)
      ensures old(Queue(Entries(), k)) != []
      ensures forall q :: Queue(Entries(), q) ==
                if q == k then old(Queue(Entries(), k))[1..] else old(Queue(Entries(), q))
    {
      ghost var before := Entries();
      FirstMatchIsFront(before, k);
      MemMove(eventCb, i, i + 1, numEventCb - i - 1);
      numEventCb := numEventCb - 1;
      assert Entries() == before[..i] + before[i + 1..];
      forall j | 0 <= j < numEventCb ensures WellKeyed(eventCb[j].key) {
        assert eventCb[j] == before[if j < i then j else j + 1];
      }
      forall q ensures Queue(Entries(), q) == if q == k then Queue(before, k)[1..] else Queue(before, q) {
        RemoveDequeues(before, k, q);
      }
    }

    /** Refuses the vendor command; otherwise compares the command number only. */
    method UnregisterHandler(cmd: int32)
      requires Valid()
      modifies this`numEventCb, eventCb
      ensures Valid() && eventCb == old(eventCb)
      ensures Entries() == if cmd == NL80211_CMD_VENDOR then old(Entries())
                           else RemoveFirst(old(Entries()), Key(cmd, 0, 0))
      ensures forall k :: Queue(Entries(), k) ==
                if k == Key(cmd, 0, 0) && cmd != NL80211_CMD_VENDOR && old(Queue(Entries(), k)) != []
                then old(Queue(Entries(), k))[1..] else old(Queue(Entries(), k))
    {
      if cmd == NL80211_CMD_VENDOR {
        return;
      }
      ghost var key := Key(cmd, 0, 0);
      for i := 0 to numEventCb
        invariant Valid() && Entries() == old(Entries())
        invariant unchanged(this) && unchanged(eventCb)
        invariant forall j :: 0 <= j < i ==> eventCb[j].key != key
      {
        if eventCb[i].key.nlCmd == cmd {
          FirstIndexUnique(Entries(), key, i);
          RemoveAt(i, key);
          return;
        }
      }
      FirstIndexUnique(Entries(), key, numEventCb);
      FirstMatchIsFront(Entries(), key);
    }

    method UnregisterVendorHandler(id: uint32, subcmd: int32)
      requires Valid()
      modifies this`numEventCb, eventCb
      ensures Valid() && eventCb == old(eventCb)
      ensures Entries() == RemoveFirst(old(Entries()), Key(NL80211_CMD_VENDOR, id, subcmd))
      ensures forall k :: Queue(Entries(), k) ==
                if k == Key(NL80211_CMD_VENDOR, id, subcmd) && old(Queue(Entries(), k)) != []
                then old(Queue(Entries(), k))[1..] else old(Queue(Entries(), k))
    {
      ghost var key := Key(NL80211_CMD_VENDOR, id, subcmd);
      for i := 0 to numEventCb
        invariant Valid() && Entries() == old(Entries())
        invariant unchanged(this) && unchanged(eventCb)
        invariant forall j :: 0 <= j < i ==> eventCb[j].key != key
      {
        if eventCb[i].key.nlCmd == NL80211_CMD_VENDOR
           && eventCb[i].key.vendorId == id
           && eventCb[i].key.vendorSubcmd == subcmd {
          FirstIndexUnique(Entries(), key, i);
          RemoveAt(i, key);
          return;
        }
      }
      FirstIndexUnique(Entries(), key, numEventCb);
      FirstMatchIsFront(Entries(), key);
    }

    /** The search of the dispatcher. The vendor id and subcommand attributes are read only for a
        vendor event; the subcommand is converted from unsigned to signed. */
    method FindTarget(cmd: int32, attrVendorId: uint32, attrSubcmd: uint32) returns (target: Option<Handler>)
      requires Valid()
      ensures var key := if cmd == 103 then Key(cmd, attrVendorId, ToInt32(attrSubcmd))
                         else Key(cmd, 0, 0);
              target == if Queue(Entries(), key) == [] then None else Some(Queue(Entries(), key)[0])
    {
      var vendorId: uint32 := 0;
      var subcmd: int32 := 0;
      if cmd == NL80211_CMD_VENDOR {
        vendorId := attrVendorId;
        subcmd := ToInt32(attrSubcmd);
      }
      ghost var key := Key(cmd, vendorId, subcmd);
      FirstMatchIsFront(Entries(), key);
      for i := 0 to numEventCb
        invariant forall j :: 0 <= j < i ==> eventCb[j].key != key
      {
        if cmd == eventCb[i].key.nlCmd {
          if cmd == NL80211_CMD_VENDOR
             && (vendorId != eventCb[i].key.vendorId || subcmd != eventCb[i].key.vendorSubcmd) {
            continue;
          }
          FirstIndexUnique(Entries(), key, i);
          return Some(eventCb[i]);
        }
      }
      FirstIndexUnique(Entries(), key, numEventCb);
      return None;
    }
  }
}
