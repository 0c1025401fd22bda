/** Replies as a driver would build them, and what retrieving them yields. */
module ScanReplies {
  import opened Prelude
  import opened Netlink
  import opened ScanResults

  /** A scan as the driver caches it. */
  datatype DriverScanSpec = DriverScan(id: int32, flags: byte, buckets: int32, records: seq<seq<byte>>)

  type DriverScan = c: DriverScanSpec | |c.records| < 0x8000_0000 witness DriverScan(0, 0, 0, [])

  predicate Sized(z: Sizes, c: DriverScan) {
    forall i :: 0 <= i < |c.records| ==> |c.records[i]| == z.driverRecord
  }

  function Flat(rs: seq<seq<byte>>): seq<byte> {
    if rs == [] then [] else rs[0] + Flat(rs[1..])
  }

  function ScanKids(c: DriverScan): seq<Node> {
    [IntLeaf(SCAN_ID, c.id),
     Leaf(SCAN_FLAGS, [c.flags]),
     IntLeaf(NUM_OF_RESULTS, |c.records|),
     IntLeaf(CH_BUCKET_BITMASK, c.buckets),
     Leaf(SCAN_RESULTS, Flat(c.records))]
  }

  /** typ is any of the attribute types the reader looks for scans under. */
  function ScanNodes(typ: uint16, cs: seq<DriverScan>): (ns: seq<Node>)
    ensures |ns| == |cs|
    ensures forall i :: 0 <= i < |cs| ==> ns[i] == Nest(typ, ScanKids(cs[i]))
  {
    seq(|cs|, i requires 0 <= i < |cs| => Nest(typ, ScanKids(cs[i])))
  }

  /** How many of a scan's records are retrieved: the capacity check divides the payload by the HAL's
      record size, although the payload holds driver records. */
  function Kept(z: Sizes, c: DriverScan): nat {
    var n := |c.records|;
    Min(Min(n, n * z.driverRecord / z.halRecord), z.maxAp)
  }

  /** What one driver scan turns into; a scan without records leaves nothing. */
  function Retrieved(z: Sizes, c: DriverScan): seq<CachedScan>
    requires Sized(z, c)
  {
    if c.records == [] then []
    else
      KeptAtMost(z, c);
      [CachedScan(c.id, c.flags, Kept(z, c), c.buckets, c.records[..Kept(z, c)])]
  }

  lemma KeptAtMost(z: Sizes, c: DriverScan)
    ensures Kept(z, c) <= |c.records| && Kept(z, c) <= z.maxAp
  {
  }

  function AllRetrieved(z: Sizes, cs: seq<DriverScan>): seq<CachedScan>
    requires forall c :: c in cs ==> Sized(z, c)
  {
    if cs == [] then [] else Retrieved(z, cs[0]) + AllRetrieved(z, cs[1..])
  }

  lemma {:induction false} FlatLength(rs: seq<seq<byte>>, size: nat)
    requires forall i :: 0 <= i < |rs| ==> |rs[i]| == size
    ensures |Flat(rs)| == |rs| * size
  {
    if rs != [] {
      FlatLength(rs[1..], size);
    }
  }

  lemma {:induction false} FlatAt(rs: seq<seq<byte>>, size: nat, i: nat)
    requires i < |rs| && forall k :: 0 <= k < |rs| ==> |rs[k]| == size
    ensures i * size + size <= |Flat(rs)|
    ensures Flat(rs)[i * size..i * size + size] == rs[i]
  {
    if i > 0 {
      FlatAt(rs[1..], size, i - 1);
      var lo := (i - 1) * size;
      assert i * size == size + lo;
      assert Flat(rs)[size + lo..size + lo + size] == Flat(rs[1..])[lo..lo + size];
    }
  }

  lemma ByteReadsBack(m: seq<byte>, a: Attr, typ: uint16, v: byte)
    requires Mirrors(m, [a], [Leaf(typ, [v])]) && a.off + 8 <= |m|
    ensures a.typ == typ && GetU8(m, a) == v
  {
    assert [a][0] == a && [Leaf(typ, [v])][0] == Leaf(typ, [v]);
    assert m[a.off + NLA_HDRLEN..a.off + NLA_HDRLEN + 1][0] == v;
  }

  lemma RecordReadsBack(z: Sizes, m: seq<byte>, a: Attr, c: DriverScan, i: nat)
    requires Sized(z, c) && At(m, a.off + NLA_HDRLEN, Flat(c.records)) && i < |c.records|
    ensures RecordAt(z, m, a, i) == c.records[i]
  {
    FlatAt(c.records, z.driverRecord, i);
    Slice(m, a.off + NLA_HDRLEN, Flat(c.records), i * z.driverRecord, z.driverRecord);
  }

  lemma Slice(m: seq<byte>, base: nat, part: seq<byte>, lo: nat, n: nat)
    requires At(m, base, part) && lo + n <= |part|
    ensures base + lo + n <= |m| && m[base + lo..base + lo + n] == part[lo..lo + n]
  {
    var mid, post := part[lo..lo + n], part[lo + n..];
    assert part == part[..lo] + (mid + post);
    AtConcat(m, base, part[..lo], mid + post);
    AtConcat(m, base + lo, mid, post);
  }

  /** The record attribute gives back the first records, as many as are kept. */
  lemma RecordsReadBack(z: Sizes, m: seq<byte>, a: Attr, c: DriverScan)
    requires Sized(z, c) && Mirrors(m, [a], [Leaf(SCAN_RESULTS, Flat(c.records))])
    ensures NLA_HDRLEN <= a.len && Clamp(z, |c.records|, a) == Kept(z, c)
    ensures Records(z, m, a, Kept(z, c)) == c.records[..Kept(z, c)]
  {
    hide RecordAt, Flat;
    var leaf := Leaf(SCAN_RESULTS, Flat(c.records));
    assert [a][0] == a && [leaf][0] == leaf;
    FlatLength(c.records, z.driverRecord);
    KeptAtMost(z, c);
    forall i | 0 <= i < Kept(z, c) ensures RecordAt(z, m, a, i) == c.records[i] {
      RecordReadsBack(z, m, a, c, i);
    }
  }

  /** Walking the five attributes of one encoded scan. */
  lemma ScanReadsBack(z: Sizes, m: seq<byte>, w: seq<Attr>, c: DriverScan)
    requires Sized(z, c) && Readable(m, w) && Mirrors(m, w, ScanKids(c))
    ensures InnerScans(z, m, w, NOTHING) == Retrieved(z, c)
  {
    hide Flat, Clamp, Kept;
    var ns := ScanKids(c);
    MirrorsAt(m, w, ns, 0);
    MirrorsAt(m, w, ns, 1);
    MirrorsAt(m, w, ns, 2);
    MirrorsAt(m, w, ns, 3);
    MirrorsAt(m, w, ns, 4);
    ReadIntLeaf(m, w[0], SCAN_ID, c.id);
    ByteReadsBack(m, w[1], SCAN_FLAGS, c.flags);
    ReadIntLeaf(m, w[2], NUM_OF_RESULTS, |c.records|);
    ReadIntLeaf(m, w[3], CH_BUCKET_BITMASK, c.buckets);
    RecordsReadBack(z, m, w[4], c);
    FiveSteps(z, m, w, c);
  }

  lemma FiveSteps(z: Sizes, m: seq<byte>, w: seq<Attr>, c: DriverScan)
    requires Readable(m, w) && |w| == 5
    requires w[0].typ == SCAN_ID && GetInt(m, w[0]) == c.id
    requires w[1].typ == SCAN_FLAGS && GetU8(m, w[1]) == c.flags
    requires w[2].typ == NUM_OF_RESULTS && GetInt(m, w[2]) == |c.records|
    requires w[3].typ == CH_BUCKET_BITMASK && GetInt(m, w[3]) == c.buckets
    requires w[4].typ == SCAN_RESULTS
    ensures InnerScans(z, m, w, NOTHING) ==
            Announced(z, m, w[4], Pending(c.id, c.flags, |c.records|, c.buckets))
  {
    hide GetInt, GetU8, Clamp, Records;
    var p1 := NOTHING.(scanId := c.id);
    var p2 := p1.(flags := c.flags);
    var p3 := p2.(num := |c.records|);
    var p4 := p3.(buckets := c.buckets);
    QuietStep(z, m, w, NOTHING);
    QuietStep(z, m, w[1..], p1);
    QuietStep(z, m, w[1..][1..], p2);
    QuietStep(z, m, w[1..][1..][1..], p3);
    var last := w[1..][1..][1..][1..];
    assert last == [w[4]] && last[1..] == [];
    assert InnerScans(z, m, last, p4) == Announced(z, m, w[4], p4) + [];
  }

  lemma QuietStep(z: Sizes, m: seq<byte>, w: seq<Attr>, p: Pending)
    requires Readable(m, w) && w != [] && !Announces(w[0], p)
    ensures InnerScans(z, m, w, p) == InnerScans(z, m, w[1..], Next(z, m, w[0], p))
  {
  }

  lemma NestFits(m: seq<byte>, a: Attr, n: Node)
    requires Mirrors(m, [a], [n]) && n.Nest? && NLA_HDRLEN + |Payload(n)| < 0x1_0000 && a.off + a.len + 4 <= |m|
    ensures NLA_HDRLEN <= a.len && Mirrors(m, Nested(m, a), n.kids) && Readable(m, Nested(m, a))
  {
    ReadNest(m, a, n);
    NestedReadable(m, a);
  }

  /** Walking the attributes of a reply that ends with a completion flag. */
  lemma {:induction false} ReplyReadsBack(z: Sizes, m: seq<byte>, w: seq<Attr>, typ: uint16, cs: seq<DriverScan>,
                                          flag: byte, c: byte)
    requires NUM_OF_RESULTS <= typ <= CH_BUCKET_BITMASK && (forall c :: c in cs ==> Sized(z, c))
    requires Readable(m, w) && Mirrors(m, w, ScanNodes(typ, cs) + [Leaf(SCAN_RESULTS_COMPLETE, [flag])])
    requires forall i :: 0 <= i < |cs| ==> NLA_HDRLEN + |Payload(ScanNodes(typ, cs)[i])| < 0x1_0000
    ensures OuterScans(z, m, w) == AllRetrieved(z, cs) && CompletedAfter(m, w, c) == flag
    decreases |cs|
  {
    var ns := ScanNodes(typ, cs) + [Leaf(SCAN_RESULTS_COMPLETE, [flag])];
    MirrorsAt(m, w, ns, 0);
    if cs == [] {
      ByteReadsBack(m, w[0], SCAN_RESULTS_COMPLETE, flag);
      assert w[1..] == [];
    } else {
      var rest := ScanNodes(typ, cs[1..]) + [Leaf(SCAN_RESULTS_COMPLETE, [flag])];
      assert rest == ns[1..];
      assert Mirrors(m, w[1..], rest);
      ReplyReadsBack(z, m, w[1..], typ, cs[1..], flag, c);
      NestFits(m, w[0], ns[0]);
      ScanReadsBack(z, m, Nested(m, w[0]), cs[0]);
    }
  }

  /** A well-formed reply from a driver: retrieval stores exactly its scans, in order, each cut to what
      the capacity check lets through, and takes over its completion flag. */
  lemma DriverReply(z: Sizes, r: Reply, vendorData: uint16, typ: uint16, cs: seq<DriverScan>, flag: byte, c: byte)
    requires NUM_OF_RESULTS <= typ <= CH_BUCKET_BITMASK && (forall c :: c in cs ==> Sized(z, c))
    requires var node := Nest(vendorData, ScanNodes(typ, cs) + [Leaf(SCAN_RESULTS_COMPLETE, [flag])]);
             r.vendor && r.len > 0 && At(r.mem, r.off, Encode(node)) && NLA_HDRLEN + |Payload(node)| < 0x1_0000
    ensures ReplyScans(z, r) == AllRetrieved(z, cs)
    ensures CompletedAfter(r.mem, ReplyAttrs(r), c) == flag
  {
    var kids := ScanNodes(typ, cs) + [Leaf(SCAN_RESULTS_COMPLETE, [flag])];
    var a := AttrAt(r.mem, r.off);
    AttrOfEncoding(r.mem, r.off, Nest(vendorData, kids));
    NestFits(r.mem, a, Nest(vendorData, kids));
    forall i | 0 <= i < |cs| ensures NLA_HDRLEN + |Payload(ScanNodes(typ, cs)[i])| < 0x1_0000 {
      PayloadFits(kids, i);
      assert kids[i] == ScanNodes(typ, cs)[i];
    }
    ReplyReadsBack(z, r.mem, Nested(r.mem, a), typ, cs, flag, c);
  }

  /** Nothing is cut from a non-empty scan exactly when it has at most MAX_AP_CACHE_PER_SCAN records and
      the two record structures have the same size. */
  lemma NothingCutIff(z: Sizes, c: DriverScan)
    requires c.records != []
    ensures Kept(z, c) == |c.records| <==> |c.records| <= z.maxAp && z.halRecord == z.driverRecord
  {
    SameSizeIff(|c.records|, z.driverRecord, z.halRecord);
  }

  lemma MulOrder(a: nat, b: nat, c: nat)
    requires a <= b
    ensures a * c <= b * c
  {
  }

  lemma SameSizeIff(n: nat, d: nat, size: nat)
    requires 0 < n && 0 < d <= size
    ensures n <= n * d / size <==> d == size
  {
    var bytes := n * d;
    var q := bytes / size;
    assert q * size <= bytes < q * size + size;
    assert q * size + size == (q + 1) * size;
    assert n * size == bytes + n * (size - d);
    MulOrder(1, n, size - d);
    if n <= q {
      MulOrder(n, q, size);
    } else {
      MulOrder(q + 1, n, size);
    }
  }

  // ---------------------------------------------------------------- any attributes in any order

  /** The values collected after the first k attributes. */
  function Collected(z: Sizes, m: seq<byte>, w: seq<Attr>, k: nat, p: Pending): Pending
    requires Readable(m, w) && k <= |w|
  {
    if k == 0 then p else Next(z, m, w[k - 1], Collected(z, m, w, k - 1, p))
  }

  /** The last of the first k attributes of type typ, or -1. */
  function LastIndex(w: seq<Attr>, typ: uint16, k: nat): (j: int)
    requires k <= |w|
    ensures -1 <= j < k && (j >= 0 ==> w[j].typ == typ)
    ensures forall i :: 0 <= i && j < i < k ==> w[i].typ != typ
  {
    if k == 0 then -1 else if w[k - 1].typ == typ then k - 1 else LastIndex(w, typ, k - 1)
  }

  function LastInt(m: seq<byte>, w: seq<Attr>, typ: uint16, k: nat): int32
    requires Readable(m, w) && k <= |w|
  {
    var j := LastIndex(w, typ, k);
    if j < 0 then 0 else GetInt(m, w[j])
  }

  /** Id, flags and buckets are those of the last attribute of their type, 0 without one. */
  lemma {:induction false} CollectedMeans(z: Sizes, m: seq<byte>, w: seq<Attr>, k: nat)
    requires Readable(m, w) && k <= |w|
    ensures var p := Collected(z, m, w, k, NOTHING);
            && p.scanId == LastInt(m, w, 33, k) && p.buckets == LastInt(m, w, 36, k)
            && p.flags == if LastIndex(w, 34, k) < 0 then 0 else GetU8(m, w[LastIndex(w, 34, k)])
  {
    hide GetInt, GetU8, Clamp;
    if k > 0 {
      CollectedMeans(z, m, w, k - 1);
    }
  }

  /** Without an announcement the count is 0. */
  lemma {:induction false} NoCount(z: Sizes, m: seq<byte>, w: seq<Attr>, k: nat)
    requires Readable(m, w) && k <= |w| && forall i :: 0 <= i < k ==> w[i].typ != 30
    ensures Collected(z, m, w, k, NOTHING).num == 0
  {
    if k > 0 {
      NoCount(z, m, w, k - 1);
    }
  }

  /** Otherwise it is the last one announced or, once records came for it, what the clamps made of it. */
  lemma {:induction false} CountMeans(z: Sizes, m: seq<byte>, w: seq<Attr>, k: nat, j: nat)
    requires Readable(m, w) && j < k <= |w| && w[j].typ in {30, 32}
    requires forall i :: j < i < k ==> w[i].typ !in {30, 32}
    ensures var announced := Collected(z, m, w, j, NOTHING).num;
            Collected(z, m, w, k, NOTHING).num ==
            if w[j].typ == 30 then GetInt(m, w[j]) else if announced == 0 then 0 else Clamp(z, announced, w[j])
  {
    if j < k - 1 {
      CountMeans(z, m, w, k - 1, j);
    }
  }

  /** The clamped count is the greatest that the announced count, the payload and MAX_AP_CACHE_PER_SCAN
      allow; a negative one stays as it is. */
  lemma ClampGreatest(z: Sizes, num: int32, a: Attr, n: nat)
    requires NLA_HDRLEN <= a.len
    ensures num < 0 ==> Clamp(z, num, a) == num
    ensures num >= 0 ==> (n <= Clamp(z, num, a) <==> n <= num && n <= z.maxAp && n * z.halRecord <= a.len - 4)
  {
    var len, size := a.len - NLA_HDRLEN, z.halRecord;
    var q := len / size;
    assert q * size <= len < q * size + size;
    if n <= q {
      MulOrder(n, q, size);
    } else {
      MulOrder(q + 1, n, size);
      assert (q + 1) * size == q * size + size;
    }
  }

  lemma {:induction false} CollectedCons(z: Sizes, m: seq<byte>, w: seq<Attr>, k: nat, p: Pending)
    requires Readable(m, w) && k < |w|
    ensures Collected(z, m, w, k + 1, p) == Collected(z, m, w[1..], k, Next(z, m, w[0], p))
  {
    if k > 0 {
      CollectedCons(z, m, w, k - 1, p);
    }
  }

  lemma {:induction false} InnerSnoc(z: Sizes, m: seq<byte>, w: seq<Attr>, k: nat, p: Pending)
    requires Readable(m, w) && k < |w|
    ensures InnerScans(z, m, w[..k + 1], p) ==
            InnerScans(z, m, w[..k], p) + Announced(z, m, w[k], Collected(z, m, w, k, p))
    decreases k
  {
    hide Next, Announced;
    if k == 0 {
      assert w[..1][1..] == [];
    } else {
      var p' := Next(z, m, w[0], p);
      assert w[..k + 1][1..] == w[1..][..k] && w[..k][1..] == w[1..][..k - 1];
      InnerSnoc(z, m, w[1..], k - 1, p');
      CollectedCons(z, m, w, k - 1, p);
      assert InnerScans(z, m, w[..k], p) == Announced(z, m, w[0], p) + InnerScans(z, m, w[1..][..k - 1], p');
      assert InnerScans(z, m, w[..k + 1], p) == Announced(z, m, w[0], p) + InnerScans(z, m, w[1..][..k], p');
    }
  }

  /** One attribute of a result attribute: records under a non-zero count store one scan made of the
      values collected so far; nothing else stores anything. */
  lemma StoredAt(z: Sizes, m: seq<byte>, w: seq<Attr>, k: nat)
    requires Readable(m, w) && k < |w|
    ensures var p := Collected(z, m, w, k, NOTHING);
            var n := Clamp(z, p.num, w[k]);
            InnerScans(z, m, w[..k + 1], NOTHING) ==
            InnerScans(z, m, w[..k], NOTHING)
            + if w[k].typ == 32 && p.num != 0 then [CachedScan(p.scanId, p.flags, n, p.buckets, Records(z, m, w[k], n))]
              else []
  {
    InnerSnoc(z, m, w, k, NOTHING);
  }

  /** A reply's attribute of any type but 21 and 30 to 36 changes nothing; 21 sets only the flag, the
      others only the scans. */
  lemma {:induction false} OuterAt(z: Sizes, m: seq<byte>, w: seq<Attr>, k: nat, c: byte)
    requires Readable(m, w) && k < |w|
    ensures OuterScans(z, m, w[..k + 1]) == OuterScans(z, m, w[..k])
                                            + if 30 <= w[k].typ <= 36 then AttrScans(z, m, w[k]) else []
    ensures CompletedAfter(m, w[..k + 1], c) == if w[k].typ == 21 then GetU8(m, w[k]) else CompletedAfter(m, w[..k], c)
    decreases k
  {
    hide AttrScans, GetU8;
    if k == 0 {
      assert w[..1][1..] == [];
    } else {
      var c' := if w[0].typ == 21 then GetU8(m, w[0]) else c;
      assert w[..k + 1][1..] == w[1..][..k] && w[..k][1..] == w[1..][..k - 1];
      OuterAt(z, m, w[1..], k - 1, c');
      var first := if 30 <= w[0].typ <= 36 then AttrScans(z, m, w[0]) else [];
      assert OuterScans(z, m, w[..k]) == first + OuterScans(z, m, w[1..][..k - 1]);
      assert OuterScans(z, m, w[..k + 1]) == first + OuterScans(z, m, w[1..][..k]);
    }
  }
}
