/** Events as a driver would build them, and what gathering them yields. */
module RttReplies {
  import opened Prelude
  import opened Netlink
  import opened RttResults

  /** What a target's nest holds: a ranging result, or some other attribute (the target's address, its
      result count). */
  datatype Item = Result(payload: seq<byte>) | Other(typ: uint16, payload: seq<byte>)

  predicate ItemOk(i: Item) {
    i.Other? ==> i.typ != 33
  }

  function ItemNode(i: Item): Node {
    match i
    case Result(p) => Leaf(33, p)
    case Other(t, p) => Leaf(t, p)
  }

  function ItemNodes(items: seq<Item>): (ns: seq<Node>)
    ensures |ns| == |items| && forall k :: 0 <= k < |items| ==> ns[k] == ItemNode(items[k])
  {
    seq(|items|, k requires 0 <= k < |items| => ItemNode(items[k]))
  }

  /** The payloads of the results among items, in order. */
  function Payloads(items: seq<Item>): seq<seq<byte>> {
    if items == [] then []
    else (if items[0].Result? then [items[0].payload] else []) + Payloads(items[1..])
  }

  /** What the event itself holds: a target, a completion flag, or some other attribute. */
  datatype Part = Of(items: seq<Item>) | Complete(flag: int32) | Extra(typ: uint16, payload: seq<byte>)

  predicate PartOk(p: Part) {
    match p
    case Of(items) => forall i :: i in items ==> ItemOk(i)
    case Complete(_) => true
    case Extra(t, _) => t != 30 && t != 31
  }

  function PartNode(p: Part): Node {
    match p
    case Of(items) => Nest(31, ItemNodes(items))
    case Complete(flag) => IntLeaf(30, flag)
    case Extra(t, bytes) => Leaf(t, bytes)
  }

  function PartNodes(ps: seq<Part>): (ns: seq<Node>)
    ensures |ns| == |ps| && forall k :: 0 <= k < |ps| ==> ns[k] == PartNode(ps[k])
  {
    seq(|ps|, k requires 0 <= k < |ps| => PartNode(ps[k]))
  }

  /** Per target of the event, its payloads. */
  function PayloadsPerTarget(ps: seq<Part>): seq<seq<seq<byte>>> {
    if ps == [] then []
    else (if ps[0].Of? then [Payloads(ps[0].items)] else []) + PayloadsPerTarget(ps[1..])
  }

  /** The flag an event leaves: its last completion attribute's, or the one before it. */
  function LastFlag(ps: seq<Part>, before: int32): int32 {
    if ps == [] then before else LastFlag(ps[1..], if ps[0].Complete? then ps[0].flag else before)
  }

  /** e is the vendor data of an event with these parts. */
  ghost predicate Carries(e: Event, vendorData: uint16, ps: seq<Part>) {
    var node := Nest(vendorData, PartNodes(ps));
    && (forall p :: p in ps ==> PartOk(p))
    && NLA_HDRLEN + |Payload(node)| < 0x1_0000
    && At(e.mem, e.off, Encode(node))
  }

  lemma MirrorsTail(m: seq<byte>, w: seq<Attr>, ns: seq<Node>)
    requires Mirrors(m, w, ns) && ns != []
    ensures w != [] && Mirrors(m, [w[0]], [ns[0]]) && Mirrors(m, w[1..], ns[1..])
  {
  }

  lemma LeafReadsBack(m: seq<byte>, a: Attr, typ: uint16, p: seq<byte>)
    requires Mirrors(m, [a], [Leaf(typ, p)])
    ensures a.typ == typ && NLA_HDRLEN <= a.len && a.off + a.len <= |m| && Bytes(m, a) == p
  {
    assert [a][0] == a && [Leaf(typ, p)][0] == Leaf(typ, p);
  }

  lemma {:induction false} ItemsReadBack(m: seq<byte>, w: seq<Attr>, items: seq<Item>)
    requires Readable(m, w) && Mirrors(m, w, ItemNodes(items)) && forall i :: i in items ==> ItemOk(i)
    ensures ResultsIn(m, w) == Payloads(items)
  {
    if items != [] {
      var ns := ItemNodes(items);
      MirrorsTail(m, w, ns);
      assert ns[1..] == ItemNodes(items[1..]);
      ItemsReadBack(m, w[1..], items[1..]);
      assert ItemOk(items[0]);
      var n := ItemNode(items[0]);
      assert ns[0] == n == Leaf(n.typ, n.payload);
      LeafReadsBack(m, w[0], n.typ, n.payload);
    }
  }

  lemma TargetReadsBack(m: seq<byte>, a: Attr, items: seq<Item>)
    requires Mirrors(m, [a], [Nest(31, ItemNodes(items))]) && forall i :: i in items ==> ItemOk(i)
    requires NLA_HDRLEN + |Payload(Nest(31, ItemNodes(items)))| < 0x1_0000 && a.off + a.len + 4 <= |m|
    ensures NLA_HDRLEN <= a.len && a.typ == 31 && Readable(m, Nested(m, a))
    ensures ResultsIn(m, Nested(m, a)) == Payloads(items)
  {
    var n := Nest(31, ItemNodes(items));
    assert [a][0] == a && [n][0] == n;
    ReadNest(m, a, n);
    NestedReadable(m, a);
    ItemsReadBack(m, Nested(m, a), items);
  }

  lemma TargetsStep(m: seq<byte>, w: seq<Attr>)
    requires Readable(m, w) && w != []
    ensures Readable(m, w[1..])
    ensures w[0].typ == RESULTS_PER_TARGET ==> Readable(m, Nested(m, w[0]))
    ensures w[0].typ == RESULTS_PER_TARGET ==> TargetsIn(m, w) == [ResultsIn(m, Nested(m, w[0]))] + TargetsIn(m, w[1..])
    ensures w[0].typ != RESULTS_PER_TARGET ==> TargetsIn(m, w) == TargetsIn(m, w[1..])
  {
    NestedReadable(m, w[0]);
  }

  ghost predicate EachFits(ps: seq<Part>) {
    forall k :: 0 <= k < |ps| ==> PartOk(ps[k]) && NLA_HDRLEN + |Payload(PartNode(ps[k]))| < 0x1_0000
  }

  lemma PartType(m: seq<byte>, a: Attr, p: Part)
    requires Mirrors(m, [a], [PartNode(p)]) && EachFits([p])
    ensures PartOk(p) && NLA_HDRLEN + |Payload(PartNode(p))| < 0x1_0000
    ensures if p.Of? then a.typ == 31 else if p.Complete? then a.typ == 30 else a.typ != 30 && a.typ != 31
  {
    assert [a][0] == a && [PartNode(p)][0] == PartNode(p) && [p][0] == p;
  }

  lemma OnePart(p: Part)
    ensures PayloadsPerTarget([p]) == if p.Of? then [Payloads(p.items)] else []
  {
    assert [p][0] == p && [p][1..] == [];
  }

  /** The first attribute, read as the part it was built from. */
  lemma PartReadsBack(m: seq<byte>, w: seq<Attr>, p: Part)
    requires Readable(m, w) && w != [] && Mirrors(m, [w[0]], [PartNode(p)]) && EachFits([p])
    ensures TargetsIn(m, w) == PayloadsPerTarget([p]) + TargetsIn(m, w[1..])
    ensures p.Complete? ==> w[0].typ == 30 && w[0].off + 8 <= |m| && GetInt(m, w[0]) == p.flag
    ensures !p.Complete? ==> w[0].typ != 30
  {
    hide ResultsIn, Payloads, IntLeaf, Encode, EncodeAll, Le32, GetInt, Mirrors, EachFits, TargetsIn, PayloadsPerTarget;
    PartType(m, w[0], p);
    OnePart(p);
    TargetsStep(m, w);
    if p.Of? {
      TargetReadsBack(m, w[0], p.items);
    } else if p.Complete? {
      ReadIntLeaf(m, w[0], 30, p.flag);
    }
  }

  lemma PartsCons(ps: seq<Part>)
    requires ps != []
    ensures PayloadsPerTarget(ps) == PayloadsPerTarget([ps[0]]) + PayloadsPerTarget(ps[1..])
    ensures PartNodes(ps) != [] && PartNodes(ps)[0] == PartNode(ps[0]) && PartNodes(ps)[1..] == PartNodes(ps[1..])
    ensures EachFits(ps) ==> EachFits([ps[0]]) && EachFits(ps[1..])
  {
    assert [ps[0]][1..] == [];
  }

  lemma {:induction false} PartsReadBack(m: seq<byte>, w: seq<Attr>, ps: seq<Part>)
    requires Readable(m, w) && Mirrors(m, w, PartNodes(ps)) && EachFits(ps)
    ensures TargetsIn(m, w) == PayloadsPerTarget(ps)
  {
    hide ResultsIn, Payloads, Mirrors, PartNodes, EachFits;
    if ps != [] {
      PartsCons(ps);
      MirrorsTail(m, w, PartNodes(ps));
      PartReadsBack(m, w, ps[0]);
      PartsReadBack(m, w[1..], ps[1..]);
    } else {
      assert PartNodes(ps) == [];
      NoneMirrored(m, w, PartNodes(ps));
    }
  }

  lemma NoneMirrored(m: seq<byte>, w: seq<Attr>, ns: seq<Node>)
    requires Mirrors(m, w, ns) && ns == []
    ensures w == []
  {
  }

  lemma {:induction false} EventMirrors(e: Event, vendorData: uint16, ps: seq<Part>)
    requires Carries(e, vendorData, ps)
    ensures Mirrors(e.mem, Attrs(e), PartNodes(ps)) && EachFits(ps)
  {
    var node, a := Nest(vendorData, PartNodes(ps)), AttrAt(e.mem, e.off);
    AttrOfEncoding(e.mem, e.off, node);
    assert [a][0] == a && [node][0] == node;
    ReadNest(e.mem, a, node);
    forall k | 0 <= k < |ps| ensures PartOk(ps[k]) && NLA_HDRLEN + |Payload(PartNode(ps[k]))| < 0x1_0000 {
      PayloadFits(PartNodes(ps), k);
      assert ps[k] in ps;
    }
  }

  /** An event built by the driver is read as exactly its results, target by target: whole payloads, in
      order, nothing from the other attributes. */
  lemma EventReadsBack(e: Event, vendorData: uint16, ps: seq<Part>)
    requires Carries(e, vendorData, ps)
    ensures EventTargets(e) == PayloadsPerTarget(ps)
  {
    EventMirrors(e, vendorData, ps);
    PartsReadBack(e.mem, Attrs(e), ps);
  }

  /** Any parts that fit can be sent. */
  lemma EventExists(vendorData: uint16, ps: seq<Part>) returns (e: Event)
    requires (forall p :: p in ps ==> PartOk(p)) && NLA_HDRLEN + |Payload(Nest(vendorData, PartNodes(ps)))| < 0x1_0000
    ensures Carries(e, vendorData, ps)
  {
    var node := Nest(vendorData, PartNodes(ps));
    var m := Encode(node) + Zeros(8);
    assert m[..|Encode(node)|] == Encode(node);
    AttrOfEncoding(m, 0, node);
    e := Event(m, 0);
  }

  // ---------------------------------------------------------------- whole runs

  /** Which events of a run carry which parts. */
  ghost predicate AllCarry(es: seq<Event>, vendorData: uint16, pss: seq<seq<Part>>) {
    |es| == |pss| && forall i :: 0 <= i < |es| ==> Carries(es[i], vendorData, pss[i])
  }

  /** The targets of the first n events. */
  function SentTargets(pss: seq<seq<Part>>, n: nat): seq<seq<seq<byte>>>
    requires n <= |pss|
  {
    if n == 0 then [] else SentTargets(pss, n - 1) + PayloadsPerTarget(pss[n - 1])
  }

  lemma {:induction false} TargetsSent(es: seq<Event>, vendorData: uint16, pss: seq<seq<Part>>, n: nat)
    requires AllCarry(es, vendorData, pss) && n <= |es|
    ensures AllTargets(es, n) == SentTargets(pss, n)
  {
    hide Carries, EventTargets;
    if n > 0 {
      TargetsSent(es, vendorData, pss, n - 1);
      EventReadsBack(es[n - 1], vendorData, pss[n - 1]);
    }
  }

  /** Whatever the allocations do: delivered and waiting together are what survives of the results sent. */
  lemma RunKeeps(grant: nat -> bool, es: seq<Event>, vendorData: uint16, pss: seq<seq<Part>>, n: nat)
    requires AllCarry(es, vendorData, pss) && n <= |es|
    ensures var s := After(grant, es, n);
            Flatten(s.deliveries) + s.g.blocks == Kept(grant, 0, SentTargets(pss, n))
  {
    DeliveredAndPending(grant, es, n);
    TargetsSent(es, vendorData, pss, n);
  }

  /** What the callback should have been given after some events, and what is still waiting. */
  datatype Sent = Sent(waiting: seq<seq<byte>>, flag: int32, delivered: seq<seq<seq<byte>>>)

  function Arrive(t: Sent, ps: seq<Part>): Sent {
    var waiting, flag := t.waiting + Flatten(PayloadsPerTarget(ps)), LastFlag(ps, t.flag);
    if flag == 0 then Sent(waiting, flag, t.delivered) else Sent([], flag, t.delivered + [waiting])
  }

  function Expected(pss: seq<seq<Part>>, n: nat): Sent
    requires n <= |pss|
  {
    if n == 0 then Sent([], 0, []) else Arrive(Expected(pss, n - 1), pss[n - 1])
  }

  /** The gathering state s holds the bytes t. */
  ghost predicate Holds(s: State, t: Sent) {
    && Datas(s.g.blocks) == t.waiting
    && s.g.completed == t.flag
    && |s.deliveries| == |t.delivered|
    && forall i :: 0 <= i < |t.delivered| ==> Datas(s.deliveries[i]) == t.delivered[i]
  }

  lemma OuterStep(grant: nat -> bool, g: Gather, m: seq<byte>, w: seq<Attr>)
    requires Readable(m, w) && w != [] && forall k :: grant(k)
    ensures NLA_HDRLEN <= w[0].len && w[0].off + w[0].len + 4 <= |m|
    ensures Outer(grant, g, m, w) == Outer(grant, Step(grant, g, m, w[0]), m, w[1..])
    ensures Step(grant, g, m, w[0]).completed == if w[0].typ == 30 then GetInt(m, w[0]) else g.completed
  {
    if w[0].typ == RESULTS_PER_TARGET {
      NestedReadable(m, w[0]);
      InnerGathers(grant, g, m, Nested(m, w[0]));
      AllSurvive(grant, g.calls, ResultsIn(m, Nested(m, w[0])));
    }
  }

  lemma {:induction false} FlagReadsBack(grant: nat -> bool, g: Gather, m: seq<byte>, w: seq<Attr>, ps: seq<Part>)
    requires Readable(m, w) && Mirrors(m, w, PartNodes(ps)) && EachFits(ps) && forall k :: grant(k)
    ensures Outer(grant, g, m, w).completed == LastFlag(ps, g.completed)
    decreases |ps|
  {
    hide Mirrors, PartNodes, EachFits, TargetsIn, PayloadsPerTarget, Step, GetInt;
    if ps != [] {
      PartsCons(ps);
      MirrorsTail(m, w, PartNodes(ps));
      PartReadsBack(m, w, ps[0]);
      OuterStep(grant, g, m, w);
      FlagReadsBack(grant, Step(grant, g, m, w[0]), m, w[1..], ps[1..]);
    } else {
      assert PartNodes(ps) == [];
      NoneMirrored(m, w, PartNodes(ps));
    }
  }

  /** One event. */
  lemma EventArrives(grant: nat -> bool, s: State, t: Sent, e: Event, vendorData: uint16, ps: seq<Part>)
    requires Holds(s, t) && Carries(e, vendorData, ps) && forall k :: grant(k)
    ensures Holds(Handle(grant, s, e), Arrive(t, ps))
  {
    hide Outer, EventTargets, PayloadsPerTarget, LastFlag, Carries;
    EventReadsBack(e, vendorData, ps);
    EventMirrors(e, vendorData, ps);
    EventGathers(grant, s.g, e);
    FlagReadsBack(grant, s.g, e.mem, Attrs(e), ps);
    NothingLost(grant, s.g.calls, EventTargets(e));
    DatasConcat(s.g.blocks, Kept(grant, s.g.calls, EventTargets(e)));
  }

  /** With memory to spare, any run of events built by the driver hands the callback exactly the payloads
      that were sent, in order, and at each event at which a completion flag is or was set. */
  lemma {:induction false} RunDelivers(grant: nat -> bool, es: seq<Event>, vendorData: uint16,
                                       pss: seq<seq<Part>>, n: nat)
    requires AllCarry(es, vendorData, pss) && n <= |es| && forall k :: grant(k)
    ensures Holds(After(grant, es, n), Expected(pss, n))
  {
    hide Handle, Arrive, Carries;
    if n > 0 {
      RunDelivers(grant, es, vendorData, pss, n - 1);
      EventArrives(grant, After(grant, es, n - 1), Expected(pss, n - 1), es[n - 1], vendorData, pss[n - 1]);
    }
  }
}
