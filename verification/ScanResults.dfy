/** Retrieval of cached scan results: several request rounds, each answered by replies whose nested
    attributes are walked and stored into the caller's array. */
module ScanResults {
  import opened Prelude
  import opened Netlink

  const SCAN_RESULTS_COMPLETE: uint16 := 21
  const NUM_OF_RESULTS: uint16 := 30
  const SCAN_RESULTS: uint16 := 32
  const SCAN_ID: uint16 := 33
  const SCAN_FLAGS: uint16 := 34
  const CH_BUCKET_BITMASK: uint16 := 36

  /** sizeof(wifi_scan_result), sizeof(wifi_gscan_result_t) and MAX_AP_CACHE_PER_SCAN; the header
      wifi_hal.h, which fixes the first and the last, is not part of this model. */
  datatype SizesSpec = Sizes(halRecord: nat, driverRecord: nat, maxAp: nat)

  type Sizes = z: SizesSpec | 0 < z.driverRecord <= z.halRecord && z.maxAp < 0x8000_0000
    witness Sizes(1, 1, 0)

  /** One slot of the caller's array; results holds the driver's records, unconverted. */
  datatype CachedScan = CachedScan(scanId: int32, flags: byte, numResults: int32, buckets: int32,
                                   results: seq<seq<byte>>)

  /** The values collected from one result attribute before its records arrive. */
  datatype Pending = Pending(scanId: int32, flags: byte, num: int32, buckets: int32)

  const NOTHING: Pending := Pending(0, 0, 0, 0)

  // ---------------------------------------------------------------- what the replies contain

  /** Both clamps on the count the driver announced. */
  function Clamp(z: Sizes, num: int32, a: Attr): (r: int32)
    requires NLA_HDRLEN <= a.len
    ensures r <= num && r <= z.maxAp && (num < 0 ==> r == num) && (num >= 0 ==> r >= 0)
  {
    Min(Min(num, (a.len - NLA_HDRLEN) / z.halRecord), z.maxAp)
  }

  function RecordOffset(z: Sizes, a: Attr, i: nat): nat {
    a.off + NLA_HDRLEN + i * z.driverRecord
  }

  function RecordAt(z: Sizes, m: seq<byte>, a: Attr, i: nat): seq<byte> {
    var lo := RecordOffset(z, a, i);
    if lo + z.driverRecord <= |m| then m[lo..lo + z.driverRecord] else []
  }

  function Records(z: Sizes, m: seq<byte>, a: Attr, n: int): seq<seq<byte>> {
    seq(if n < 0 then 0 else n, i requires 0 <= i => RecordAt(z, m, a, i))
  }

  /** Records arrive only under a non-zero count. */
  predicate Announces(a: Attr, p: Pending) {
    a.typ == SCAN_RESULTS && p.num != 0
  }

  function Next(z: Sizes, m: seq<byte>, a: Attr, p: Pending): Pending
    requires NLA_HDRLEN <= a.len && a.off + 8 <= |m|
  {
    if a.typ == SCAN_ID then p.(scanId := GetInt(m, a))
    else if a.typ == SCAN_FLAGS then p.(flags := GetU8(m, a))
    else if a.typ == NUM_OF_RESULTS then p.(num := GetInt(m, a))
    else if a.typ == CH_BUCKET_BITMASK then p.(buckets := GetInt(m, a))
    else if Announces(a, p) then p.(num := Clamp(z, p.num, a))
    else p
  }

  function Announced(z: Sizes, m: seq<byte>, a: Attr, p: Pending): seq<CachedScan>
    requires NLA_HDRLEN <= a.len
  {
    if !Announces(a, p) then []
    else
      var n := Clamp(z, p.num, a);
      [CachedScan(p.scanId, p.flags, n, p.buckets, Records(z, m, a, n))]
  }

  /** The scans announced inside one result attribute, in order. */
  function InnerScans(z: Sizes, m: seq<byte>, w: seq<Attr>, p: Pending): seq<CachedScan>
    requires Readable(m, w)
  {
    if w == [] then [] else Announced(z, m, w[0], p) + InnerScans(z, m, w[1..], Next(z, m, w[0], p))
  }

  predicate HoldsScans(a: Attr) {
    NUM_OF_RESULTS <= a.typ <= CH_BUCKET_BITMASK
  }

  /** The scans of a whole reply: of each result attribute in turn. */
  function OuterScans(z: Sizes, m: seq<byte>, w: seq<Attr>): seq<CachedScan>
    requires Readable(m, w)
  {
    if w == [] then []
    else (if HoldsScans(w[0]) then AttrScans(z, m, w[0]) else []) + OuterScans(z, m, w[1..])
  }

  function AttrScans(z: Sizes, m: seq<byte>, a: Attr): seq<CachedScan>
    requires NLA_HDRLEN <= a.len && a.off + a.len + 4 <= |m|
  {
    NestedReadable(m, a);
    InnerScans(z, m, Nested(m, a), NOTHING)
  }

  /** The completion flag after walking w, starting from c. */
  function CompletedAfter(m: seq<byte>, w: seq<Attr>, c: byte): byte
    requires Readable(m, w)
  {
    if w == [] then c
    else CompletedAfter(m, w[1..], if w[0].typ == SCAN_RESULTS_COMPLETE then GetU8(m, w[0]) else c)
  }

  /** A reply: whether it is a vendor command, and where its vendor data lies in memory. */
  datatype ReplySpec = Reply(vendor: bool, mem: seq<byte>, off: nat, len: nat)

  /** Vendor data starts with an attribute header whose declared length fits the memory. */
  type Reply = r: ReplySpec |
      r.len > 0 ==> r.off + NLA_HDRLEN + 4 <= |r.mem| && r.off + AttrAt(r.mem, r.off).len + 4 <= |r.mem|
    witness Reply(false, [], 0, 0)

  predicate HasData(r: Reply) {
    r.vendor && r.len > 0
  }

  function ReplyAttrs(r: Reply): (w: seq<Attr>)
    ensures Readable(r.mem, w)
  {
    if HasData(r) && NLA_HDRLEN <= AttrAt(r.mem, r.off).len then
      NestedReadable(r.mem, AttrAt(r.mem, r.off));
      Nested(r.mem, AttrAt(r.mem, r.off))
    else []
  }

  function ReplyScans(z: Sizes, r: Reply): seq<CachedScan> {
    OuterScans(z, r.mem, ReplyAttrs(r))
  }

  /** The scans of the first n replies. */
  function RepliesScans(z: Sizes, rs: seq<Reply>, n: nat): seq<CachedScan>
    requires n <= |rs|
  {
    if n == 0 then [] else RepliesScans(z, rs, n - 1) + ReplyScans(z, rs[n - 1])
  }

  function RepliesCompleted(rs: seq<Reply>, n: nat, c: byte): byte
    requires n <= |rs|
  {
    if n == 0 then c else CompletedAfter(rs[n - 1].mem, ReplyAttrs(rs[n - 1]), RepliesCompleted(rs, n - 1, c))
  }

  function Take(max: int, s: seq<CachedScan>): seq<CachedScan> {
    if max <= 0 then [] else if |s| <= max then s else s[..max]
  }

  lemma TakeTwice(max: int, a: seq<CachedScan>, b: seq<CachedScan>)
    ensures Take(max, Take(max, a) + b) == Take(max, a + b)
  {
  }

  lemma TakeAppend(max: int, a: seq<CachedScan>, b: seq<CachedScan>, c: seq<CachedScan>)
    ensures Take(max, Take(max, a + b) + c) == Take(max, a + (b + c))
  {
    assert (a + b) + c == a + (b + c);
    TakeTwice(max, a + b, c);
  }

  /** With these scans stored and these attributes still to come, the array will end up holding goal. */
  ghost predicate Leads(z: Sizes, max: int, stored: seq<CachedScan>, m: seq<byte>, w: seq<Attr>, p: Pending,
                        goal: seq<CachedScan>) {
    Readable(m, w) && Take(max, stored + InnerScans(z, m, w, p)) == goal
  }

  lemma LeadsStart(z: Sizes, max: int, stored: seq<CachedScan>, m: seq<byte>, a: Attr)
    requires NLA_HDRLEN <= a.len && a.off + a.len + 4 <= |m|
    ensures Leads(z, max, stored, m, Nested(m, a), NOTHING, Take(max, stored + AttrScans(z, m, a)))
  {
    NestedReadable(m, a);
  }

  lemma LeadsStep(z: Sizes, max: int, stored: seq<CachedScan>, m: seq<byte>, w: seq<Attr>, p: Pending,
                  goal: seq<CachedScan>)
    requires Leads(z, max, stored, m, w, p, goal) && w != []
    ensures NLA_HDRLEN <= w[0].len && w[0].off + w[0].len + 4 <= |m|
    ensures Leads(z, max, stored + Announced(z, m, w[0], p), m, w[1..], Next(z, m, w[0], p), goal)
  {
    assert stored + InnerScans(z, m, w, p)
        == (stored + Announced(z, m, w[0], p)) + InnerScans(z, m, w[1..], Next(z, m, w[0], p));
  }

  lemma LeadsEnd(z: Sizes, max: int, stored: seq<CachedScan>, m: seq<byte>, w: seq<Attr>, p: Pending,
                 goal: seq<CachedScan>)
    requires Leads(z, max, stored, m, w, p, goal) && (w == [] || |stored| >= max)
    requires |stored| == 0 || |stored| <= max
    ensures stored == goal
  {
  }

  /** The same for the attributes of a reply, and for the completion flag it leaves. */
  ghost predicate ReplyLeads(z: Sizes, max: int, stored: seq<CachedScan>, c: byte, m: seq<byte>, w: seq<Attr>,
                             goal: seq<CachedScan>, flag: byte) {
    Readable(m, w) && Take(max, stored + OuterScans(z, m, w)) == goal && CompletedAfter(m, w, c) == flag
  }

  lemma ReplyLeadsStart(z: Sizes, max: int, stored: seq<CachedScan>, c: byte, r: Reply)
    ensures ReplyLeads(z, max, stored, c, r.mem, ReplyAttrs(r), Take(max, stored + ReplyScans(z, r)),
                       CompletedAfter(r.mem, ReplyAttrs(r), c))
    ensures HasData(r) ==>
              var a := AttrAt(r.mem, r.off);
              ReplyAttrs(r) == if a.len < NLA_HDRLEN then [] else Nested(r.mem, a)
    ensures !HasData(r) ==> ReplyAttrs(r) == []
  {
  }

  lemma ReplyLeadsStep(z: Sizes, max: int, stored: seq<CachedScan>, c: byte, m: seq<byte>, w: seq<Attr>,
                       goal: seq<CachedScan>, flag: byte)
    requires ReplyLeads(z, max, stored, c, m, w, goal, flag) && w != []
    requires |stored| == 0 || |stored| <= max
    ensures NLA_HDRLEN <= w[0].len && w[0].off + w[0].len + 4 <= |m|
    ensures HoldsScans(w[0]) ==>
              ReplyLeads(z, max, Take(max, stored + AttrScans(z, m, w[0])), c, m, w[1..], goal, flag)
    ensures !HoldsScans(w[0]) ==>
              ReplyLeads(z, max, stored, if w[0].typ == SCAN_RESULTS_COMPLETE then GetU8(m, w[0]) else c, m, w[1..],
                         goal, flag)
  {
    var rest := OuterScans(z, m, w[1..]);
    if HoldsScans(w[0]) {
      assert stored + OuterScans(z, m, w) == (stored + AttrScans(z, m, w[0])) + rest;
      TakeTwice(max, stored + AttrScans(z, m, w[0]), rest);
    } else {
      assert [] + rest == rest;
    }
  }

  lemma ReplyLeadsEnd(z: Sizes, max: int, stored: seq<CachedScan>, c: byte, m: seq<byte>,
                      goal: seq<CachedScan>, flag: byte)
    requires ReplyLeads(z, max, stored, c, m, [], goal, flag) && (|stored| == 0 || |stored| <= max)
    ensures stored == goal && c == flag
  {
  }

  // ---------------------------------------------------------------- bounds on what is stored

  lemma DivideFits(n: nat, len: nat, size: nat)
    requires 0 < size && n <= len / size
    ensures n * size <= len
  {
    assert (len / size) * size <= len;
  }

  /** The records copied for one attribute all come from that attribute's payload. */
  lemma RecordsInsidePayload(z: Sizes, num: int32, a: Attr, i: nat)
    requires NLA_HDRLEN <= a.len && i < Clamp(z, num, a)
    ensures RecordOffset(z, a, i) + z.driverRecord <= a.off + a.len
  {
    DivideFits(i + 1, a.len - NLA_HDRLEN, z.halRecord);
    assert (i + 1) * z.driverRecord <= (i + 1) * z.halRecord;
    assert (i + 1) * z.driverRecord == i * z.driverRecord + z.driverRecord;
  }

  /** The counts that were in force when each scan was stored. */
  function CountsInForce(z: Sizes, m: seq<byte>, w: seq<Attr>, p: Pending): seq<int32>
    requires Readable(m, w)
  {
    if w == [] then []
    else (if Announces(w[0], p) then [p.num] else []) + CountsInForce(z, m, w[1..], Next(z, m, w[0], p))
  }

  /** Every stored count is at most MAX_AP_CACHE_PER_SCAN, carries that many records of which each
      came from a payload, and is negative exactly when the driver's count, read as an int, was. */
  lemma {:induction false} StoredCounts(z: Sizes, m: seq<byte>, w: seq<Attr>, p: Pending)
    requires Readable(m, w)
    ensures var r, c := InnerScans(z, m, w, p), CountsInForce(z, m, w, p);
            && |r| == |c|
            && forall i :: 0 <= i < |r| ==>
                 && r[i].numResults <= z.maxAp && r[i].numResults <= c[i]
                 && (r[i].numResults < 0 <==> c[i] < 0)
                 && |r[i].results| == (if c[i] < 0 then 0 else r[i].numResults)
  {
    if w != [] {
      StoredCounts(z, m, w[1..], Next(z, m, w[0], p));
    }
  }

  /** If every announced count is below 2^31, every stored count is non-negative. */
  lemma {:induction false} CountsNonNegative(z: Sizes, m: seq<byte>, w: seq<Attr>, p: Pending)
    requires Readable(m, w) && p.num >= 0
    requires forall i :: 0 <= i < |w| && w[i].typ == NUM_OF_RESULTS ==> U32(m, w[i].off + NLA_HDRLEN) < 0x8000_0000
    ensures forall i :: 0 <= i < |InnerScans(z, m, w, p)| ==> InnerScans(z, m, w, p)[i].numResults >= 0
  {
    if w != [] {
      CountsNonNegative(z, m, w[1..], Next(z, m, w[0], p));
    }
  }

  // ---------------------------------------------------------------- the command

  /** One request round: result of building the request, the replies that came, the final status. */
  datatype Round = Round(created: int, replies: seq<Reply>, status: int)

  const MAX_ROUNDS: nat := 10
  const WIFI_SUCCESS: int := 0

  /** All scans announced in the first n rounds, and the completion flag those rounds leave. */
  function AllScans(z: Sizes, rounds: seq<Round>, n: nat): seq<CachedScan>
    requires n <= |rounds|
  {
    if n == 0 then []
    else AllScans(z, rounds, n - 1) + RepliesScans(z, rounds[n - 1].replies, |rounds[n - 1].replies|)
  }

  function Flag(rounds: seq<Round>, n: nat): byte
    requires n <= |rounds|
  {
    if n == 0 then 0
    else RepliesCompleted(rounds[n - 1].replies, |rounds[n - 1].replies|, Flag(rounds, n - 1))
  }

  /** What the array holds after n rounds. */
  function Got(z: Sizes, max: int, rounds: seq<Round>, n: nat): seq<CachedScan>
    requires n <= |rounds|
  {
    Take(max, AllScans(z, rounds, n))
  }

  /** Round k was asked for and could be built. */
  predicate Asked(z: Sizes, max: int, rounds: seq<Round>, k: nat)
    requires k < |rounds|
  {
    |Got(z, max, rounds, k)| < max && rounds[k].created >= 0
  }

  /** Round k succeeded, brought something new, and left no completion flag. */
  predicate WorthAnother(z: Sizes, max: int, rounds: seq<Round>, k: nat)
    requires k < |rounds|
  {
    && rounds[k].status == WIFI_SUCCESS
    && |Got(z, max, rounds, k + 1)| != |Got(z, max, rounds, k)|
    && Flag(rounds, k + 1) == 0
  }

  lemma NothingYet(z: Sizes, max: int, rounds: seq<Round>)
    ensures Got(z, max, rounds, 0) == [] && Flag(rounds, 0) == 0
  {
  }

  lemma GotNext(z: Sizes, max: int, rounds: seq<Round>, i: nat)
    requires i < |rounds|
    ensures var rs := rounds[i].replies;
            && Got(z, max, rounds, i + 1) == Take(max, Got(z, max, rounds, i) + RepliesScans(z, rs, |rs|))
            && Flag(rounds, i + 1) == RepliesCompleted(rs, |rs|, Flag(rounds, i))
  {
    TakeTwice(max, AllScans(z, rounds, i), RepliesScans(z, rounds[i].replies, |rounds[i].replies|));
  }

  lemma RepliesNext(z: Sizes, max: int, before: seq<CachedScan>, rs: seq<Reply>, j: nat, c: byte)
    requires j < |rs|
    ensures Take(max, before + RepliesScans(z, rs, j + 1))
         == Take(max, Take(max, before + RepliesScans(z, rs, j)) + ReplyScans(z, rs[j]))
    ensures RepliesCompleted(rs, j + 1, c) == CompletedAfter(rs[j].mem, ReplyAttrs(rs[j]), RepliesCompleted(rs, j, c))
  {
    hide ReplyScans, ReplyAttrs, CompletedAfter, Take;
    TakeAppend(max, before, RepliesScans(z, rs, j), ReplyScans(z, rs[j]));
  }

  lemma RepliesNone(z: Sizes, max: int, before: seq<CachedScan>, rs: seq<Reply>, c: byte)
    requires |before| == 0 || |before| <= max
    ensures Take(max, before + RepliesScans(z, rs, 0)) == before && RepliesCompleted(rs, 0, c) == c
  {
  }

  lemma TakePrefix(max: int, a: seq<CachedScan>, b: seq<CachedScan>)
    ensures Take(max, a) <= Take(max, a + b) && |Take(max, a)| <= if max < 0 then 0 else max
  {
  }

  /** Later rounds only append: a slot that holds a scan keeps it. */
  lemma {:induction false} GotGrows(z: Sizes, max: int, rounds: seq<Round>, i: nat, j: nat)
    requires i <= j <= |rounds|
    ensures Got(z, max, rounds, i) <= Got(z, max, rounds, j) && |Got(z, max, rounds, j)| <= if max < 0 then 0 else max
    decreases j
  {
    hide Take, RepliesScans;
    TakePrefix(max, AllScans(z, rounds, j), []);
    if i < j {
      GotGrows(z, max, rounds, i, j - 1);
      TakePrefix(max, AllScans(z, rounds, j - 1), RepliesScans(z, rounds[j - 1].replies, |rounds[j - 1].replies|));
    }
  }

  predicate Bounded(z: Sizes, s: CachedScan) {
    s.numResults <= z.maxAp && |s.results| == if s.numResults < 0 then 0 else s.numResults
  }

  ghost predicate AllBounded(z: Sizes, ss: seq<CachedScan>) {
    forall s :: s in ss ==> Bounded(z, s)
  }

  lemma {:induction false} OuterBounded(z: Sizes, m: seq<byte>, w: seq<Attr>)
    requires Readable(m, w)
    ensures AllBounded(z, OuterScans(z, m, w))
  {
    if w != [] {
      OuterBounded(z, m, w[1..]);
      NestedReadable(m, w[0]);
      StoredCounts(z, m, Nested(m, w[0]), NOTHING);
    }
  }

  lemma {:induction false} RepliesBounded(z: Sizes, rs: seq<Reply>, n: nat)
    requires n <= |rs|
    ensures AllBounded(z, RepliesScans(z, rs, n))
  {
    hide OuterScans;
    if n > 0 {
      RepliesBounded(z, rs, n - 1);
      OuterBounded(z, rs[n - 1].mem, ReplyAttrs(rs[n - 1]));
    }
  }

  lemma TakeBounded(z: Sizes, max: int, a: seq<CachedScan>)
    requires AllBounded(z, a)
    ensures AllBounded(z, Take(max, a))
  {
  }

  lemma BoundedConcat(z: Sizes, a: seq<CachedScan>, b: seq<CachedScan>)
    requires AllBounded(z, a) && AllBounded(z, b)
    ensures AllBounded(z, a + b)
  {
  }

  /** Whatever the driver sent, every scan in the array has at most MAX_AP_CACHE_PER_SCAN results and
      exactly that many records copied. */
  lemma {:induction false} GotBounded(z: Sizes, max: int, rounds: seq<Round>, n: nat)
    requires n <= |rounds|
    ensures AllBounded(z, AllScans(z, rounds, n)) && AllBounded(z, Got(z, max, rounds, n))
  {
    hide RepliesScans, Take;
    if n > 0 {
      var rs := rounds[n - 1].replies;
      GotBounded(z, max, rounds, n - 1);
      RepliesBounded(z, rs, |rs|);
      BoundedConcat(z, AllScans(z, rounds, n - 1), RepliesScans(z, rs, |rs|));
    }
    TakeBounded(z, max, AllScans(z, rounds, n));
  }

  /** Every result count announced in a result attribute, or in a whole reply, is below 2^31. */
  ghost predicate SmallInside(m: seq<byte>, a: Attr)
    requires NLA_HDRLEN <= a.len && a.off + a.len + 4 <= |m|
  {
    NestedReadable(m, a);
    var w := Nested(m, a);
    forall k :: 0 <= k < |w| && w[k].typ == NUM_OF_RESULTS ==> U32(m, w[k].off + NLA_HDRLEN) < 0x8000_0000
  }

  ghost predicate SmallCounts(m: seq<byte>, w: seq<Attr>)
    requires Readable(m, w)
  {
    forall i :: 0 <= i < |w| && HoldsScans(w[i]) ==> SmallInside(m, w[i])
  }

  ghost predicate NonNegative(ss: seq<CachedScan>) {
    forall s :: s in ss ==> s.numResults >= 0
  }

  lemma {:induction false} OuterNonNegative(z: Sizes, m: seq<byte>, w: seq<Attr>)
    requires Readable(m, w) && SmallCounts(m, w)
    ensures NonNegative(OuterScans(z, m, w))
  {
    if w != [] {
      OuterNonNegative(z, m, w[1..]);
      if HoldsScans(w[0]) {
        NestedReadable(m, w[0]);
        CountsNonNegative(z, m, Nested(m, w[0]), NOTHING);
      }
    }
  }

  lemma {:induction false} RepliesNonNegative(z: Sizes, rs: seq<Reply>, n: nat)
    requires n <= |rs| && forall r :: r in rs ==> SmallCounts(r.mem, ReplyAttrs(r))
    ensures NonNegative(RepliesScans(z, rs, n))
  {
    hide OuterScans, SmallCounts, ReplyAttrs;
    if n > 0 {
      RepliesNonNegative(z, rs, n - 1);
      OuterNonNegative(z, rs[n - 1].mem, ReplyAttrs(rs[n - 1]));
    }
  }

  /** With all announced counts below 2^31 no scan ever in the array has a negative count. */
  lemma {:induction false} GotNonNegative(z: Sizes, max: int, rounds: seq<Round>, n: nat)
    requires n <= |rounds|
    requires forall k, r :: 0 <= k < |rounds| && r in rounds[k].replies ==> SmallCounts(r.mem, ReplyAttrs(r))
    ensures NonNegative(AllScans(z, rounds, n)) && NonNegative(Got(z, max, rounds, n))
  {
    hide RepliesScans, SmallCounts, ReplyAttrs;
    if n > 0 {
      GotNonNegative(z, max, rounds, n - 1);
      RepliesNonNegative(z, rounds[n - 1].replies, |rounds[n - 1].replies|);
    }
  }

  class GetScanResultsCommand {
    const sizes: Sizes
    const max: int
    const scans: array<CachedScan>      // the caller's array of at least max slots
    var retrieved: nat
    var completed: byte

    ghost predicate Valid()
      reads `retrieved
    {
      max <= scans.Length && (retrieved == 0 || retrieved <= max)
    }

    ghost function Stored(): (s: seq<CachedScan>)
      reads `retrieved, scans
      requires Valid()
      ensures |s| == retrieved
    {
      scans[..retrieved]
    }

    /** The slots not yet filled hold what they held before. */
    ghost predicate Untouched(before: seq<CachedScan>)
      reads `retrieved, scans
    {
      |before| == scans.Length && retrieved <= scans.Length && scans[retrieved..] == before[retrieved..]
    }

    constructor (sizes: Sizes, max: int, scans: array<CachedScan>)
      requires max <= scans.Length
      ensures Valid() && retrieved == 0 && completed == 0
      ensures this.sizes == sizes && this.max == max && this.scans == scans
    {
      this.sizes, this.max, this.scans := sizes, max, scans;
      retrieved, completed := 0, 0;
    }

    /** The copy loop over one attribute's records. */
    method CopyRecords(m: seq<byte>, a: Attr, num: int32, ghost announced: int32) returns (results: seq<seq<byte>>)
      requires NLA_HDRLEN <= a.len && a.off + a.len <= |m|
      requires num == Clamp(sizes, announced, a)
      ensures results == Records(sizes, m, a, num)
    {
      results := [];
      var i := 0;
      while i < num
        invariant 0 <= i && (i <= num || (num < 0 && i == 0))
        invariant results == Records(sizes, m, a, i)
      {
        RecordsInsidePayload(sizes, announced, a, i);
        var lo := RecordOffset(sizes, a, i);
        results := results + [m[lo..lo + sizes.driverRecord]];
        i := i + 1;
      }
    }

    /** One attribute inside a result attribute; full means a scan arrived with no slot left. */
    method HandleInner(m: seq<byte>, b: Attr, p: Pending, ghost was: seq<CachedScan>) returns (p': Pending, full: bool)
      requires Valid() && Untouched(was) && NLA_HDRLEN <= b.len && b.off + b.len + 4 <= |m|
      modifies this`retrieved, scans
      ensures Valid() && Untouched(was)
      ensures full ==> retrieved >= max && unchanged(this) && unchanged(scans)
      ensures !full ==> p' == Next(sizes, m, b, p) && Stored() == old(Stored()) + Announced(sizes, m, b, p)
      ensures full <==> Announces(b, p) && old(retrieved) >= max
    {
      p', full := p, false;
      if b.typ == SCAN_ID {
        p' := p.(scanId := GetInt(m, b));
      } else if b.typ == SCAN_FLAGS {
        p' := p.(flags := GetU8(m, b));
      } else if b.typ == NUM_OF_RESULTS {
        p' := p.(num := GetInt(m, b));
      } else if b.typ == CH_BUCKET_BITMASK {
        p' := p.(buckets := GetInt(m, b));
      } else if b.typ == SCAN_RESULTS && p.num != 0 {
        if retrieved >= max {
          full := true;
          return;
        }
        var n := Clamp(sizes, p.num, b);
        var results := CopyRecords(m, b, n, p.num);
        scans[retrieved] := CachedScan(p.scanId, p.flags, n, p.buckets, results);
        retrieved := retrieved + 1;
        p' := p.(num := n);
      }
    }

    /** The inner walk over one result attribute, left early once the array is full. */
    method HandleAttr(m: seq<byte>, a: Attr, ghost was: seq<CachedScan>)
      requires Valid() && Untouched(was) && NLA_HDRLEN <= a.len && a.off + a.len + 4 <= |m|
      modifies this`retrieved, scans
      ensures Valid() && Stored() == Take(max, old(Stored()) + AttrScans(sizes, m, a))
      ensures Untouched(was)
    {
      LeadsStart(sizes, max, Stored(), m, a);
      hide AttrScans, InnerScans, Leads, Take;
      ghost var goal := Take(max, Stored() + AttrScans(sizes, m, a));
      var p := NOTHING;
      var it2 := new NlIterator(m, a);
      ghost var w := it2.Rest();
      var more := it2.HasNext();
      while more
        invariant Valid() && it2.Valid() && it2.mem == m && it2.Rest() == w && (more <==> w != [])
        invariant Leads(sizes, max, Stored(), m, w, p, goal)
        invariant Untouched(was)
        decreases |w|
      {
        var b := it2.Get();
        LeadsStep(sizes, max, Stored(), m, w, p, goal);
        var p', full := HandleInner(m, b, p, was);
        if full {
          break;
        }
        it2.Next();
        p, w := p', w[1..];
        more := it2.HasNext();
      }
      LeadsEnd(sizes, max, Stored(), m, w, p, goal);
    }

    method HandleResponse(r: Reply, ghost was: seq<CachedScan>)
      requires Valid() && Untouched(was)
      modifies this`retrieved, this`completed, scans
      ensures Valid() && Stored() == Take(max, old(Stored()) + ReplyScans(sizes, r))
      ensures completed == CompletedAfter(r.mem, ReplyAttrs(r), old(completed))
      ensures Untouched(was)
    {
      hide AttrScans, ReplyScans, ReplyAttrs, CompletedAfter, ReplyLeads, Take, OuterScans, Walk, U16;
      ghost var goal := Take(max, Stored() + ReplyScans(sizes, r));
      ghost var flag := CompletedAfter(r.mem, ReplyAttrs(r), completed);
      ReplyLeadsStart(sizes, max, Stored(), completed, r);
      if !r.vendor || r.len == 0 {
        ReplyLeadsEnd(sizes, max, Stored(), completed, r.mem, goal, flag);
        return;
      }
      var it := new NlIterator(r.mem, AttrAt(r.mem, r.off));
      ghost var w := it.Rest();
      var more := it.HasNext();
      while more
        invariant Valid() && it.Valid() && it.mem == r.mem && it.Rest() == w && (more <==> w != [])
        invariant ReplyLeads(sizes, max, Stored(), completed, r.mem, w, goal, flag)
        invariant Untouched(was)
        decreases |w|
      {
        var a := it.Get();
        ReplyLeadsStep(sizes, max, Stored(), completed, r.mem, w, goal, flag);
        if a.typ == SCAN_RESULTS_COMPLETE {
          completed := GetU8(r.mem, a);
        } else if a.typ >= NUM_OF_RESULTS && a.typ <= CH_BUCKET_BITMASK {
          HandleAttr(r.mem, a, was);
        }
        it.Next();
        w := w[1..];
        more := it.HasNext();
      }
      ReplyLeadsEnd(sizes, max, Stored(), completed, r.mem, goal, flag);
    }

    /** The replies of one round, in order. */
    method HandleReplies(rs: seq<Reply>, ghost was: seq<CachedScan>)
      requires Valid() && Untouched(was)
      modifies this`retrieved, this`completed, scans
      ensures Valid() && Untouched(was)
      ensures Stored() == Take(max, old(Stored()) + RepliesScans(sizes, rs, |rs|))
      ensures completed == RepliesCompleted(rs, |rs|, old(completed))
    {
      hide RepliesScans, RepliesCompleted, ReplyScans, ReplyAttrs, CompletedAfter, Take;
      ghost var before := Stored();
      RepliesNone(sizes, max, before, rs, completed);
      var j := 0;
      while j < |rs|
        invariant 0 <= j <= |rs| && Valid() && Untouched(was)
        invariant Stored() == Take(max, before + RepliesScans(sizes, rs, j))
        invariant completed == RepliesCompleted(rs, j, old(completed))
      {
        RepliesNext(sizes, max, before, rs, j, old(completed));
        HandleResponse(rs[j], was);
        j := j + 1;
      }
    }

    /** At most ten rounds. Whatever stops it, the array holds the first max scans of all replies of
        the rounds made, and a success reports exactly how many that is. */
    method Execute(rounds: seq<Round>) returns (result: int, num: Option<int>, ghost used: nat)
      requires Valid() && retrieved == 0 && completed == 0 && |rounds| >= MAX_ROUNDS
      modifies this`retrieved, this`completed, scans
      ensures Valid() && Untouched(old(scans[..])) && used <= 10
      ensures Stored() == Got(sizes, max, rounds, used)
      ensures forall k :: 0 <= k < used ==> Asked(sizes, max, rounds, k)
      ensures forall k :: 0 <= k < used - 1 ==> WorthAnother(sizes, max, rounds, k)
      ensures var stopped := used < 10 && |Stored()| < max && rounds[used].created < 0
                             && (used > 0 ==> WorthAnother(sizes, max, rounds, used - 1));
              && (result == 0 <==> !stopped && forall k :: 0 <= k < used ==> rounds[k].status == 0)
              && (stopped ==> result == rounds[used].created < 0)
              && (result != 0 && !stopped ==> used > 0 && result == rounds[used - 1].status)
      ensures result == 0 ==>
                && num == Some(|Stored()|)
                && (used == 10 || retrieved >= max
                    || (used > 0 && !WorthAnother(sizes, max, rounds, used - 1)))
      ensures result != 0 ==> num == None
    {
      hide RepliesScans, RepliesCompleted, Got, Flag, Take;
      NothingYet(sizes, max, rounds);
      ghost var was := scans[..];
      var i := 0;
      while i < MAX_ROUNDS && retrieved < max
        invariant 0 <= i <= MAX_ROUNDS && Valid() && Untouched(was)
        invariant Stored() == Got(sizes, max, rounds, i) && completed == Flag(rounds, i)
        invariant forall k :: 0 <= k < i ==> Asked(sizes, max, rounds, k) && WorthAnother(sizes, max, rounds, k)
        invariant forall k :: 0 <= k < i ==> rounds[k].status == WIFI_SUCCESS
      {
        used := i;
        if rounds[i].created < 0 {
          return rounds[i].created, None, used;
        }
        var prev := retrieved;
        GotNext(sizes, max, rounds, i);
        HandleReplies(rounds[i].replies, was);
        used := i + 1;
        if rounds[i].status != WIFI_SUCCESS {
          return rounds[i].status, None, used;
        }
        if retrieved == prev || completed != 0 {
          assert !WorthAnother(sizes, max, rounds, i);
          return WIFI_SUCCESS, Some(retrieved), used;
        }
        i := i + 1;
      }
      return WIFI_SUCCESS, Some(retrieved), i;
    }
  }
}
