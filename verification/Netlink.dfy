/** The small part of libnl the HAL relies on: attributes with a 4-byte header (16-bit length that
    includes the header, 16-bit type, both little-endian), padded to 4 bytes, in a message buffer. */
module Netlink {
  import opened Prelude

  const NLA_HDRLEN: nat := 4
  const NLE_NOMEM: int := 5

  /** NLA_ALIGN: n rounded up to a multiple of 4. */
  function Align(n: nat): (r: nat)
    ensures n <= r < n + 4
  {
    if n == 0 then 0 else if n <= 4 then 4 else 4 + Align(n - 4)
  }

  lemma {:induction false} AlignRoundsUp(n: nat)
    ensures Align(n) == (n + 3) / 4 * 4
  {
    if n > 4 {
      AlignRoundsUp(n - 4);
    }
  }

  predicate Aligned(n: nat) {
    Align(n) == n
  }

  lemma {:induction false} AlignedSum(a: nat, b: nat)
    requires Aligned(a) && Aligned(b)
    ensures Aligned(a + b)
  {
    if a > 4 {
      AlignedSum(a - 4, b);
    }
  }

  lemma {:induction false} AlignIdempotent(n: nat)
    ensures Aligned(Align(n))
  {
    if n > 4 {
      AlignIdempotent(n - 4);
    }
  }

  /** A value stored in a 16-bit field. */
  function Truncate(n: nat): uint16 {
    if n < 0x1_0000 then n else n % 0x1_0000
  }

  // ---------------------------------------------------------------- little-endian integers

  function Le16(v: uint16): seq<byte> {
    [v % 256, v / 256]
  }

  function Le32(v: uint32): seq<byte> {
    [v % 256, v / 256 % 256, v / 256 / 256 % 256, v / 256 / 256 / 256]
  }

  function U16(m: seq<byte>, i: nat): uint16
    requires i + 2 <= |m|
  {
    m[i] as int + 256 * m[i + 1] as int
  }

  function U32(m: seq<byte>, i: nat): uint32
    requires i + 4 <= |m|
  {
    m[i] as int + 256 * (m[i + 1] as int + 256 * (m[i + 2] as int + 256 * m[i + 3] as int))
  }

  /** Least significant byte first. */
  lemma Le32Means(v: uint32)
    ensures var b := Le32(v);
            |b| == 4 && b[0] as int + 0x100 * (b[1] as int) + 0x1_0000 * (b[2] as int) + 0x100_0000 * (b[3] as int) == v
  {
    var v1 := v / 256;
    var v2 := v1 / 256;
    assert v == 256 * v1 + v % 256 && v1 == 256 * v2 + v1 % 256 && v2 == 256 * (v2 / 256) + v2 % 256;
  }

  lemma ReadLe16(m: seq<byte>, i: nat, v: uint16)
    requires i + 2 <= |m| && m[i..i + 2] == Le16(v)
    ensures U16(m, i) == v
  {
    assert m[i] == m[i..i + 2][0] && m[i + 1] == m[i..i + 2][1];
  }

  lemma ReadLe32(m: seq<byte>, i: nat, v: uint32)
    requires i + 4 <= |m| && m[i..i + 4] == Le32(v)
    ensures U32(m, i) == v
  {
    var b := m[i..i + 4];
    assert m[i] == b[0] && m[i + 1] == b[1] && m[i + 2] == b[2] && m[i + 3] == b[3];
  }

  // ---------------------------------------------------------------- walking

  /** An attribute found in memory: where its header is, its declared length, its type. */
  datatype Attr = Attr(off: nat, len: nat, typ: uint16)

  /** nla_ok on the attribute at pos with rem bytes left. */
  predicate Ok(m: seq<byte>, pos: nat, rem: int)
    requires rem <= 0 || pos + rem <= |m|
  {
    rem >= NLA_HDRLEN && NLA_HDRLEN <= U16(m, pos) <= rem
  }

  function AttrAt(m: seq<byte>, pos: nat): Attr
    requires pos + NLA_HDRLEN <= |m|
  {
    Attr(pos, U16(m, pos), U16(m, pos + 2))
  }

  /** The attributes an iterator at pos with rem bytes left still visits. */
  function Walk(m: seq<byte>, pos: nat, rem: int): seq<Attr>
    requires rem <= 0 || pos + rem <= |m|
    decreases rem
  {
    if !Ok(m, pos, rem) then []
    else
      var step := Align(U16(m, pos));
      [AttrAt(m, pos)] + Walk(m, pos + step, rem - step)
  }

  /** The attributes nested in a's payload. */
  function Nested(m: seq<byte>, a: Attr): seq<Attr>
    requires NLA_HDRLEN <= a.len && a.off + a.len <= |m|
  {
    Walk(m, a.off + NLA_HDRLEN, a.len - NLA_HDRLEN)
  }

  predicate Inside(a: Attr, lo: nat, hi: nat) {
    lo <= a.off && NLA_HDRLEN <= a.len && a.off + a.len <= hi
  }

  ghost predicate AllInside(w: seq<Attr>, lo: nat, hi: nat) {
    forall i :: 0 <= i < |w| ==> Inside(w[i], lo, hi)
  }

  ghost predicate NonOverlapping(w: seq<Attr>) {
    forall i, j :: 0 <= i < j < |w| ==> w[i].off + w[i].len <= w[j].off
  }

  /** Whatever the bytes are: every visited header and its declared payload lie in the walked range,
      siblings do not overlap, and each visit uses up at least 4 bytes. */
  lemma {:induction false} WalkStaysInside(m: seq<byte>, pos: nat, rem: int)
    requires rem <= 0 || pos + rem <= |m|
    ensures var w := Walk(m, pos, rem);
            && AllInside(w, pos, if rem < 0 then pos else pos + rem)
            && NonOverlapping(w)
            && 4 * |w| <= if rem < 0 then 0 else rem
    decreases rem
  {
    if Ok(m, pos, rem) {
      var len := U16(m, pos);
      var step := Align(len);
      var rest := Walk(m, pos + step, rem - step);
      WalkStaysInside(m, pos + step, rem - step);
      InsideCons(AttrAt(m, pos), rest, pos, pos + rem);
    }
  }

  lemma InsideCons(a: Attr, rest: seq<Attr>, lo: nat, hi: nat)
    requires Inside(a, lo, hi) && AllInside(rest, a.off + a.len, hi) && NonOverlapping(rest)
    ensures AllInside([a] + rest, lo, hi) && NonOverlapping([a] + rest)
  {
    var w := [a] + rest;
    assert forall i :: 0 < i < |w| ==> w[i] == rest[i - 1];
  }

  /** path leads from the payload of root down through nested attributes. */
  ghost predicate Descends(m: seq<byte>, root: Attr, path: seq<Attr>)
    requires NLA_HDRLEN <= root.len && root.off + root.len <= |m|
    decreases |path|
  {
    path != [] ==>
      && path[0] in Nested(m, root)
      && NLA_HDRLEN <= path[0].len && path[0].off + path[0].len <= |m|
      && Descends(m, path[0], path[1..])
  }

  /** An attribute reached at any depth lies in the payload of the attribute the descent started from. */
  lemma {:induction false} DescentStaysInside(m: seq<byte>, root: Attr, path: seq<Attr>)
    requires NLA_HDRLEN <= root.len && root.off + root.len <= |m|
    requires path != [] && Descends(m, root, path)
    ensures Inside(path[|path| - 1], root.off + NLA_HDRLEN, root.off + root.len)
    decreases |path|
  {
    WalkStaysInside(m, root.off + NLA_HDRLEN, root.len - NLA_HDRLEN);
    if |path| > 1 {
      DescentStaysInside(m, path[0], path[1..]);
      assert path[|path| - 1] == path[1..][|path| - 2];
    }
  }

  lemma LastWithinFirst(m: seq<byte>, root: Attr, p: seq<Attr>)
    requires NLA_HDRLEN <= root.len && root.off + root.len <= |m|
    requires p != [] && Descends(m, root, p)
    ensures p[0].off <= p[|p| - 1].off && p[|p| - 1].off + p[|p| - 1].len <= p[0].off + p[0].len
  {
    if |p| > 1 {
      DescentStaysInside(m, p[0], p[1..]);
      assert p[|p| - 1] == p[1..][|p| - 2];
    }
  }

  /** Descents that enter different siblings end in ranges that do not overlap. */
  lemma SeparateDescents(m: seq<byte>, root: Attr, i: nat, j: nat, p: seq<Attr>, q: seq<Attr>)
    requires NLA_HDRLEN <= root.len && root.off + root.len <= |m|
    requires i < j < |Nested(m, root)| && p != [] && q != []
    requires p[0] == Nested(m, root)[i] && q[0] == Nested(m, root)[j]
    requires Descends(m, root, p) && Descends(m, root, q)
    ensures p[|p| - 1].off + p[|p| - 1].len <= q[|q| - 1].off
  {
    LastWithinFirst(m, root, p);
    LastWithinFirst(m, root, q);
    SiblingsApart(m, root, i, j);
  }

  lemma SiblingsApart(m: seq<byte>, root: Attr, i: nat, j: nat)
    requires NLA_HDRLEN <= root.len && root.off + root.len <= |m|
    requires i < j < |Nested(m, root)|
    ensures Nested(m, root)[i].off + Nested(m, root)[i].len <= Nested(m, root)[j].off
  {
    WalkStaysInside(m, root.off + NLA_HDRLEN, root.len - NLA_HDRLEN);
    var w := Nested(m, root);
    assert NonOverlapping(w);
  }

  /** Attributes whose declared length lies in memory; a fixed-width read may run up to 4 bytes past it. */
  ghost predicate Readable(m: seq<byte>, w: seq<Attr>) {
    forall i :: 0 <= i < |w| ==> NLA_HDRLEN <= w[i].len && w[i].off + w[i].len + 4 <= |m|
  }

  lemma NestedReadable(m: seq<byte>, a: Attr)
    requires NLA_HDRLEN <= a.len && a.off + a.len + 4 <= |m|
    ensures Readable(m, Nested(m, a))
  {
    WalkStaysInside(m, a.off + NLA_HDRLEN, a.len - NLA_HDRLEN);
  }

  function GetU8(m: seq<byte>, a: Attr): byte
    requires a.off + 8 <= |m|
  {
    m[a.off + NLA_HDRLEN]
  }

  function GetInt(m: seq<byte>, a: Attr): int32
    requires a.off + 8 <= |m|
  {
    ToInt32(U32(m, a.off + NLA_HDRLEN))
  }

  /** nl_iterator over memory that is not changed while it is walked. */
  class NlIterator {
    const mem: seq<byte>
    var pos: nat
    var rem: int

    ghost predicate Valid()
      reads this
    {
      rem <= 0 || pos + rem <= |mem|
    }

    /** What is still to be visited. */
    ghost function Rest(): seq<Attr>
      reads this
      requires Valid()
    {
      Walk(mem, pos, rem)
    }

    constructor (m: seq<byte>, attr: Attr)
      requires attr.off + attr.len <= |m|
      ensures mem == m && Valid()
      ensures rem == attr.len - NLA_HDRLEN && pos == attr.off + NLA_HDRLEN
      ensures attr.len >= NLA_HDRLEN ==> Rest() == Nested(m, attr)
      ensures attr.len < NLA_HDRLEN ==> Rest() == []
    {
      mem := m;
      pos := attr.off + NLA_HDRLEN;
      rem := attr.len - NLA_HDRLEN;
    }

    method HasNext() returns (more: bool)
      requires Valid()
      ensures more <==> Rest() != []
      ensures more ==> Rest()[0] == AttrAt(mem, pos) && pos + Rest()[0].len <= pos + rem <= |mem|
      ensures more ==> NLA_HDRLEN <= Rest()[0].len
    {
      more := Ok(mem, pos, rem);
    }

    /** nla_next: the remaining count, a signed int, drops by the padded length, at least 4. */
    method Next()
      requires Valid() && Rest() != []
      modifies this
      ensures Valid() && Rest() == old(Rest())[1..]
      ensures rem <= old(rem) - NLA_HDRLEN && pos - old(pos) == old(rem) - rem
    {
      var step := Align(U16(mem, pos));
      pos := pos + step;
      rem := rem - step;
    }

    method Get() returns (a: Attr)
      requires Valid() && Rest() != []
      ensures a == Rest()[0]
    {
      a := AttrAt(mem, pos);
    }
  }

  // ---------------------------------------------------------------- building

  /** An attribute tree: a leaf with a payload, or a nest of attributes. */
  datatype Node = Leaf(typ: uint16, payload: seq<byte>) | Nest(typ: uint16, kids: seq<Node>)

  function Zeros(n: nat): (z: seq<byte>)
    ensures |z| == n
  {
    seq(n, _ => 0)
  }

  function Padded(payload: seq<byte>): (r: seq<byte>)
    ensures |r| == Align(|payload|)
  {
    payload + Zeros(Align(|payload|) - |payload|)
  }

  function Payload(n: Node): seq<byte>
    decreases n, 1
  {
    match n
    case Leaf(_, p) => p
    case Nest(_, kids) => EncodeAll(kids)
  }

  /** Header with the length truncated to its 16-bit field, payload, padding. */
  function Encode(n: Node): (r: seq<byte>)
    ensures |r| == NLA_HDRLEN + Align(|Payload(n)|) && Aligned(|r|)
    decreases n, 2
  {
    AlignIdempotent(|Payload(n)|);
    Le16(Truncate(NLA_HDRLEN + |Payload(n)|)) + Le16(n.typ) + Padded(Payload(n))
  }

  function EncodeAll(ns: seq<Node>): (r: seq<byte>)
    ensures Aligned(|r|)
    decreases ns, 0
  {
    if ns == [] then []
    else
      AlignedSum(|Encode(ns[0])|, |EncodeAll(ns[1..])|);
      Encode(ns[0]) + EncodeAll(ns[1..])
  }

  ghost predicate At(m: seq<byte>, off: nat, part: seq<byte>) {
    off + |part| <= |m| && m[off..off + |part|] == part
  }

  lemma AtConcat(m: seq<byte>, off: nat, a: seq<byte>, b: seq<byte>)
    requires At(m, off, a + b)
    ensures At(m, off, a) && At(m, off + |a|, b)
  {
    assert m[off..off + |a|] == (a + b)[..|a|];
    assert m[off + |a|..off + |a| + |b|] == (a + b)[|a|..];
  }

  lemma AttrOfEncoding(m: seq<byte>, off: nat, n: Node)
    requires At(m, off, Encode(n)) && NLA_HDRLEN + |Payload(n)| < 0x1_0000
    ensures AttrAt(m, off) == Attr(off, NLA_HDRLEN + |Payload(n)|, n.typ)
    ensures At(m, off + NLA_HDRLEN, Payload(n))
  {
    var len: uint16 := NLA_HDRLEN + |Payload(n)|;
    assert Encode(n) == Le16(len) + (Le16(n.typ) + (Payload(n) + Zeros(Align(|Payload(n)|) - |Payload(n)|)));
    AtConcat(m, off, Le16(len), Le16(n.typ) + (Payload(n) + Zeros(Align(|Payload(n)|) - |Payload(n)|)));
    AtConcat(m, off + 2, Le16(n.typ), Payload(n) + Zeros(Align(|Payload(n)|) - |Payload(n)|));
    AtConcat(m, off + 4, Payload(n), Zeros(Align(|Payload(n)|) - |Payload(n)|));
    ReadLe16(m, off, len);
    ReadLe16(m, off + 2, n.typ);
  }

  /** The k-th visited attribute is the k-th encoded one. */
  ghost predicate Mirrors(m: seq<byte>, w: seq<Attr>, ns: seq<Node>) {
    && |w| == |ns|
    && forall k :: 0 <= k < |ns| ==>
         && w[k].typ == ns[k].typ
         && w[k].len == NLA_HDRLEN + |Payload(ns[k])|
         && At(m, w[k].off + NLA_HDRLEN, Payload(ns[k]))
  }

  lemma MirrorsCons(m: seq<byte>, a: Attr, w: seq<Attr>, n: Node, ns: seq<Node>)
    requires Mirrors(m, [a], [n]) && Mirrors(m, w, ns)
    ensures Mirrors(m, [a] + w, [n] + ns)
  {
    forall k | 0 <= k < |ns| + 1
      ensures ([a] + w)[k].typ == ([n] + ns)[k].typ
      ensures ([a] + w)[k].len == NLA_HDRLEN + |Payload(([n] + ns)[k])|
      ensures At(m, ([a] + w)[k].off + NLA_HDRLEN, Payload(([n] + ns)[k]))
    {
      if k > 0 {
        assert ([a] + w)[k] == w[k - 1] && ([n] + ns)[k] == ns[k - 1];
      } else {
        assert [a][0] == a && [n][0] == n;
      }
    }
  }

  lemma WalkStep(m: seq<byte>, pos: nat, rem: int, len: nat)
    requires pos + rem <= |m| && NLA_HDRLEN <= len <= rem && U16(m, pos) == len
    ensures Walk(m, pos, rem) == [AttrAt(m, pos)] + Walk(m, pos + Align(len), rem - Align(len))
  {
  }

  lemma EncodeAllCons(m: seq<byte>, pos: nat, ns: seq<Node>)
    requires ns != [] && At(m, pos, EncodeAll(ns))
    ensures EncodeAll(ns) == Encode(ns[0]) + EncodeAll(ns[1..])
    ensures |Encode(ns[0])| == NLA_HDRLEN + Align(|Payload(ns[0])|) && pos + |EncodeAll(ns)| <= |m|
  {
  }

  lemma FirstOfEncoding(m: seq<byte>, pos: nat, ns: seq<Node>)
    requires ns != [] && At(m, pos, EncodeAll(ns)) && |EncodeAll(ns)| < 0x1_0000
    ensures var n, size := ns[0], NLA_HDRLEN + Align(|Payload(ns[0])|);
            && pos + |EncodeAll(ns)| <= |m| && |EncodeAll(ns)| == size + |EncodeAll(ns[1..])|
            && AttrAt(m, pos) == Attr(pos, NLA_HDRLEN + |Payload(n)|, n.typ)
            && At(m, pos + NLA_HDRLEN, Payload(n))
            && At(m, pos + size, EncodeAll(ns[1..]))
  {
    hide *;
    EncodeAllCons(m, pos, ns);
    AtConcat(m, pos, Encode(ns[0]), EncodeAll(ns[1..]));
    AttrOfEncoding(m, pos, ns[0]);
  }

  /** The attributes ns lie one after the other from pos on, in total bytes. */
  ghost predicate Laid(m: seq<byte>, pos: nat, ns: seq<Node>, total: nat)
    decreases |ns|
  {
    pos + total <= |m| &&
    if ns == [] then total == 0
    else
      var len := NLA_HDRLEN + |Payload(ns[0])|;
      && Align(len) <= total
      && AttrAt(m, pos) == Attr(pos, len, ns[0].typ)
      && At(m, pos + NLA_HDRLEN, Payload(ns[0]))
      && Laid(m, pos + Align(len), ns[1..], total - Align(len))
  }

  lemma LaidCons(m: seq<byte>, pos: nat, ns: seq<Node>, total: nat, size: nat)
    requires ns != [] && size == NLA_HDRLEN + Align(|Payload(ns[0])|) <= total && pos + total <= |m|
    requires AttrAt(m, pos) == Attr(pos, NLA_HDRLEN + |Payload(ns[0])|, ns[0].typ)
    requires At(m, pos + NLA_HDRLEN, Payload(ns[0])) && Laid(m, pos + size, ns[1..], total - size)
    ensures Laid(m, pos, ns, total)
  {
    assert Align(NLA_HDRLEN + |Payload(ns[0])|) == size;
  }

  lemma NothingLaid(m: seq<byte>, pos: nat)
    requires At(m, pos, EncodeAll([]))
    ensures Laid(m, pos, [], |EncodeAll([])|)
  {
  }

  lemma {:induction false} EncodingIsLaid(m: seq<byte>, pos: nat, ns: seq<Node>)
    requires At(m, pos, EncodeAll(ns)) && |EncodeAll(ns)| < 0x1_0000
    ensures Laid(m, pos, ns, |EncodeAll(ns)|)
    decreases |ns|
  {
    hide *;
    if ns == [] {
      NothingLaid(m, pos);
    } else {
      var size := NLA_HDRLEN + Align(|Payload(ns[0])|);
      FirstOfEncoding(m, pos, ns);
      EncodingIsLaid(m, pos + size, ns[1..]);
      LaidCons(m, pos, ns, |EncodeAll(ns)|, size);
    }
  }

  lemma {:induction false} WalkReadsLaid(m: seq<byte>, pos: nat, ns: seq<Node>, total: nat)
    requires Laid(m, pos, ns, total)
    ensures Mirrors(m, Walk(m, pos, total), ns)
    decreases |ns|
  {
    if ns != [] {
      var len := NLA_HDRLEN + |Payload(ns[0])|;
      WalkReadsLaid(m, pos + Align(len), ns[1..], total - Align(len));
      WalkStep(m, pos, total, len);
      MirrorsCons(m, AttrAt(m, pos), Walk(m, pos + Align(len), total - Align(len)), ns[0], ns[1..]);
      assert ns == [ns[0]] + ns[1..];
    }
  }

  /** Walking an encoded list visits its attributes in order, whatever their types. */
  lemma WalkReadsEncoding(m: seq<byte>, pos: nat, ns: seq<Node>)
    requires At(m, pos, EncodeAll(ns)) && |EncodeAll(ns)| < 0x1_0000
    ensures Mirrors(m, Walk(m, pos, |EncodeAll(ns)|), ns)
  {
    EncodingIsLaid(m, pos, ns);
    WalkReadsLaid(m, pos, ns, |EncodeAll(ns)|);
  }

  lemma MirrorsAt(m: seq<byte>, w: seq<Attr>, ns: seq<Node>, k: nat)
    requires Mirrors(m, w, ns) && k < |ns|
    ensures k < |w| && Mirrors(m, [w[k]], [ns[k]])
  {
  }

  lemma {:induction false} PayloadFits(ns: seq<Node>, k: nat)
    requires k < |ns|
    ensures |Encode(ns[k])| <= |EncodeAll(ns)| && NLA_HDRLEN + |Payload(ns[k])| <= |EncodeAll(ns)|
    decreases |ns|
  {
    if k > 0 {
      PayloadFits(ns[1..], k - 1);
    }
  }

  /** An attribute holding a 32-bit integer. */
  function IntLeaf(typ: uint16, v: int32): Node {
    Leaf(typ, Le32(ToUint32(v)))
  }

  lemma ReadIntLeaf(m: seq<byte>, a: Attr, typ: uint16, v: int32)
    requires Mirrors(m, [a], [IntLeaf(typ, v)])
    ensures a.typ == typ && a.off + 8 <= |m| && GetInt(m, a) == v
  {
    assert [a][0] == a && [IntLeaf(typ, v)][0] == IntLeaf(typ, v);
    assert At(m, a.off + NLA_HDRLEN, Le32(ToUint32(v)));
    ReadLe32(m, a.off + NLA_HDRLEN, ToUint32(v));
  }

  /** A visited nest reads back as the attributes it was built from. */
  lemma ReadNest(m: seq<byte>, a: Attr, n: Node)
    requires Mirrors(m, [a], [n]) && n.Nest? && NLA_HDRLEN + |Payload(n)| < 0x1_0000
    ensures NLA_HDRLEN <= a.len && a.off + a.len <= |m| && Mirrors(m, Nested(m, a), n.kids)
  {
    assert [a][0] == a && [n][0] == n;
    WalkReadsEncoding(m, a.off + NLA_HDRLEN, n.kids);
  }
}
