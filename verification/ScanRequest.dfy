/** The configuration request of ScanCommand: built by successive puts into a message, read back by
    walking it. */
module ScanRequest {
  import opened Prelude
  import opened Netlink
  import opened Requests

  /** NL80211_ATTR_VENDOR_DATA of linux/nl80211.h. */
  const NL80211_ATTR_VENDOR_DATA: uint16 := 197

  const NUM_BUCKETS: uint16 := 10
  const BASE_PERIOD: uint16 := 11
  const BUCKETS_BAND: uint16 := 12
  const BUCKET_ID: uint16 := 13
  const BUCKET_PERIOD: uint16 := 14
  const BUCKET_NUM_CHANNELS: uint16 := 15
  const BUCKET_CHANNELS: uint16 := 16
  const REPORT_EVENTS: uint16 := 24
  const BUCKET_STEP_COUNT: uint16 := 25
  const BUCKET_MAX_PERIOD: uint16 := 26

  /** The three wifi_band values the validity check names; wifi_hal.h is not part of this model. */
  datatype Bands = Bands(unspecified: int32, abg: int32, abgWithDfs: int32)

  datatype BucketSpec = BucketSpec(
    bucket: int32, band: int32, period: int32, stepCount: int32, maxPeriod: int32,
    reportEvents: int32, channels: seq<int32>)

  /** num_channels is an int. */
  type Bucket = b: BucketSpec | |b.channels| < 0x8000_0000 witness BucketSpec(0, 0, 0, 0, 0, 0, [])

  /** The band actually requested. */
  function ValidBand(bands: Bands, band: int32): int32 {
    if band < bands.unspecified || band > bands.abgWithDfs then bands.abg else band
  }

  function Normalized(bands: Bands, b: Bucket): Bucket {
    b.(band := ValidBand(bands, b.band))
  }

  /** The buckets after the first n of them have been checked. */
  function NormalizeFirst(bands: Bands, bs: seq<Bucket>, n: nat): (r: seq<Bucket>)
    ensures |r| == |bs|
  {
    seq(|bs|, k requires 0 <= k < |bs| => if k < n then Normalized(bands, bs[k]) else bs[k])
  }

  lemma NormalizeNext(bands: Bands, bs: seq<Bucket>, n: nat)
    requires n < |bs|
    ensures NormalizeFirst(bands, bs, n)[n] == bs[n]
    ensures NormalizeFirst(bands, bs, n)[n := bs[n]] == NormalizeFirst(bands, bs, n)
    ensures NormalizeFirst(bands, bs, n)[n := Normalized(bands, bs[n])] == NormalizeFirst(bands, bs, n + 1)
  {
  }

  // ---------------------------------------------------------------- what the request should contain

  function FieldLeaves(bands: Bands, b: Bucket): seq<Node> {
    [IntLeaf(BUCKET_ID, b.bucket),
     IntLeaf(BUCKET_PERIOD, b.period),
     IntLeaf(BUCKETS_BAND, ValidBand(bands, b.band)),
     IntLeaf(BUCKET_STEP_COUNT, b.stepCount),
     IntLeaf(BUCKET_MAX_PERIOD, b.maxPeriod),
     IntLeaf(REPORT_EVENTS, b.reportEvents),
     IntLeaf(BUCKET_NUM_CHANNELS, |b.channels|)]
  }

  function ChannelLeaves(channels: seq<int32>): seq<Node> {
    seq(|channels|, j requires 0 <= j < |channels| => IntLeaf(Truncate(j), channels[j]))
  }

  function BucketKids(bands: Bands, b: Bucket): seq<Node> {
    FieldLeaves(bands, b)
    + if b.channels == [] then [] else [Nest(BUCKET_CHANNELS, ChannelLeaves(b.channels))]
  }

  function BucketNode(bands: Bands, i: nat, b: Bucket): Node {
    Nest(Truncate(i), BucketKids(bands, b))
  }

  function BucketNodes(bands: Bands, bs: seq<Bucket>): seq<Node> {
    seq(|bs|, i requires 0 <= i < |bs| => BucketNode(bands, i, bs[i]))
  }

  function SetupKids(bands: Bands, base: int32, bs: seq<Bucket>): seq<Node>
    requires |bs| < 0x8000_0000
  {
    [IntLeaf(BASE_PERIOD, base), IntLeaf(NUM_BUCKETS, |bs|)] + BucketNodes(bands, bs)
  }

  function SetupNode(bands: Bands, base: int32, bs: seq<Bucket>): Node
    requires |bs| < 0x8000_0000
  {
    Nest(NL80211_ATTR_VENDOR_DATA, SetupKids(bands, base, bs))
  }

  // ---------------------------------------------------------------- reading a request back

  datatype Field = Field(typ: uint16, value: int32)
  datatype BucketView = BucketView(typ: uint16, fields: seq<Field>, channels: seq<Field>)
  datatype SetupView = SetupView(head: seq<Field>, buckets: seq<BucketView>)

  function ReadField(m: seq<byte>, a: Attr): Field {
    Field(a.typ, if a.off + 8 <= |m| then GetInt(m, a) else 0)
  }

  function ReadFields(m: seq<byte>, w: seq<Attr>): seq<Field> {
    seq(|w|, k requires 0 <= k < |w| => ReadField(m, w[k]))
  }

  function NestedIn(m: seq<byte>, a: Attr): seq<Attr> {
    if NLA_HDRLEN <= a.len && a.off + a.len <= |m| then Nested(m, a) else []
  }

  /** By position: seven fields, then an optional channel list. */
  function ReadBucket(m: seq<byte>, a: Attr): BucketView {
    var w := NestedIn(m, a);
    BucketView(a.typ, ReadFields(m, if |w| <= 7 then w else w[..7]),
               if |w| <= 7 then [] else ReadFields(m, NestedIn(m, w[7])))
  }

  /** By position: two fields, then one nest per bucket. */
  function ReadSetup(m: seq<byte>, a: Attr): SetupView {
    var w := NestedIn(m, a);
    if |w| < 2 then SetupView(ReadFields(m, w), [])
    else SetupView(ReadFields(m, w[..2]), seq(|w| - 2, k requires 0 <= k < |w| - 2 => ReadBucket(m, w[k + 2])))
  }

  /** What the reader should see. */
  function BucketAsView(bands: Bands, i: nat, b: Bucket): BucketView {
    BucketView(Truncate(i),
      [Field(BUCKET_ID, b.bucket), Field(BUCKET_PERIOD, b.period), Field(BUCKETS_BAND, ValidBand(bands, b.band)),
       Field(BUCKET_STEP_COUNT, b.stepCount), Field(BUCKET_MAX_PERIOD, b.maxPeriod),
       Field(REPORT_EVENTS, b.reportEvents), Field(BUCKET_NUM_CHANNELS, |b.channels|)],
      seq(|b.channels|, j requires 0 <= j < |b.channels| => Field(Truncate(j), b.channels[j])))
  }

  function SetupAsView(bands: Bands, base: int32, bs: seq<Bucket>): SetupView
    requires |bs| < 0x8000_0000
  {
    SetupView([Field(BASE_PERIOD, base), Field(NUM_BUCKETS, |bs|)],
              seq(|bs|, i requires 0 <= i < |bs| => BucketAsView(bands, i, bs[i])))
  }

  lemma ChannelsReadBack(m: seq<byte>, w: seq<Attr>, channels: seq<int32>)
    requires Mirrors(m, w, ChannelLeaves(channels))
    ensures ReadFields(m, w) ==
            seq(|channels|, j requires 0 <= j < |channels| => Field(Truncate(j), channels[j]))
  {
    forall j | 0 <= j < |channels| ensures ReadField(m, w[j]) == Field(Truncate(j), channels[j]) {
      MirrorsAt(m, w, ChannelLeaves(channels), j);
      ReadIntLeaf(m, w[j], Truncate(j), channels[j]);
    }
  }

  lemma FieldReadsBack(m: seq<byte>, w: seq<Attr>, ns: seq<Node>, k: nat, typ: uint16, v: int32)
    requires Mirrors(m, w, ns) && k < |ns| && ns[k] == IntLeaf(typ, v)
    ensures ReadField(m, w[k]) == Field(typ, v)
  {
    MirrorsAt(m, w, ns, k);
    ReadIntLeaf(m, w[k], typ, v);
  }

  lemma FieldsReadBack(m: seq<byte>, w: seq<Attr>, bands: Bands, b: Bucket)
    requires Mirrors(m, w, BucketKids(bands, b))
    ensures |w| >= 7 && ReadFields(m, w[..7]) == BucketAsView(bands, 0, b).fields
  {
    var ns := BucketKids(bands, b);
    FieldReadsBack(m, w, ns, 0, BUCKET_ID, b.bucket);
    FieldReadsBack(m, w, ns, 1, BUCKET_PERIOD, b.period);
    FieldReadsBack(m, w, ns, 2, BUCKETS_BAND, ValidBand(bands, b.band));
    FieldReadsBack(m, w, ns, 3, BUCKET_STEP_COUNT, b.stepCount);
    FieldReadsBack(m, w, ns, 4, BUCKET_MAX_PERIOD, b.maxPeriod);
    FieldReadsBack(m, w, ns, 5, REPORT_EVENTS, b.reportEvents);
    FieldReadsBack(m, w, ns, 6, BUCKET_NUM_CHANNELS, |b.channels|);
    assert w[..7] == [w[0], w[1], w[2], w[3], w[4], w[5], w[6]];
  }

  lemma BucketReadsBack(m: seq<byte>, a: Attr, bands: Bands, i: nat, b: Bucket)
    requires Mirrors(m, [a], [BucketNode(bands, i, b)])
    requires NLA_HDRLEN + |Payload(BucketNode(bands, i, b))| < 0x1_0000
    ensures ReadBucket(m, a) == BucketAsView(bands, i, b)
  {
    hide Encode, EncodeAll, Le32;
    var n := BucketNode(bands, i, b);
    assert [a][0] == a && [n][0] == n;
    ReadNest(m, a, n);
    var w := NestedIn(m, a);
    FieldsReadBack(m, w, bands, b);
    if b.channels == [] {
      assert w[..7] == w;
    } else {
      ChannelNestReadsBack(m, w, bands, b);
    }
  }

  lemma ChannelNestReadsBack(m: seq<byte>, w: seq<Attr>, bands: Bands, b: Bucket)
    requires b.channels != [] && Mirrors(m, w, BucketKids(bands, b))
    requires |EncodeAll(BucketKids(bands, b))| < 0x1_0000
    ensures |w| == 8 && ReadFields(m, NestedIn(m, w[7])) == BucketAsView(bands, 0, b).channels
  {
    hide Encode, EncodeAll, Le32;
    var kids, c := BucketKids(bands, b), Nest(BUCKET_CHANNELS, ChannelLeaves(b.channels));
    assert kids[7] == c;
    PayloadFits(kids, 7);
    MirrorsAt(m, w, kids, 7);
    ReadNest(m, w[7], c);
    ChannelsReadBack(m, NestedIn(m, w[7]), b.channels);
  }

  lemma BucketAtReadsBack(m: seq<byte>, w: seq<Attr>, bands: Bands, base: int32, bs: seq<Bucket>, i: nat)
    requires |bs| < 0x8000_0000 && i < |bs|
    requires Mirrors(m, w, SetupKids(bands, base, bs)) && |EncodeAll(SetupKids(bands, base, bs))| < 0x1_0000
    ensures ReadBucket(m, w[i + 2]) == BucketAsView(bands, i, bs[i])
  {
    hide ReadBucket, BucketAsView, BucketNode, EncodeAll;
    var ns := SetupKids(bands, base, bs);
    assert ns[i + 2] == BucketNode(bands, i, bs[i]);
    PayloadFits(ns, i + 2);
    MirrorsAt(m, w, ns, i + 2);
    BucketReadsBack(m, w[i + 2], bands, i, bs[i]);
  }

  lemma HeadReadsBack(m: seq<byte>, w: seq<Attr>, bands: Bands, base: int32, bs: seq<Bucket>)
    requires |bs| < 0x8000_0000 && Mirrors(m, w, SetupKids(bands, base, bs))
    ensures |w| == |bs| + 2 && ReadFields(m, w[..2]) == [Field(BASE_PERIOD, base), Field(NUM_BUCKETS, |bs|)]
  {
    FieldReadsBack(m, w, SetupKids(bands, base, bs), 0, BASE_PERIOD, base);
    FieldReadsBack(m, w, SetupKids(bands, base, bs), 1, NUM_BUCKETS, |bs|);
    assert w[..2] == [w[0], w[1]];
  }

  /** Walking a message that holds the encoded configuration gives back the base period, the bucket
      count, and every bucket and channel in order, out-of-range bands having become WIFI_BAND_ABG. */
  lemma SetupReadsBack(m: seq<byte>, off: nat, bands: Bands, base: int32, bs: seq<Bucket>)
    requires |bs| < 0x8000_0000
    requires At(m, off, Encode(SetupNode(bands, base, bs)))
    requires NLA_HDRLEN + |Payload(SetupNode(bands, base, bs))| < 0x1_0000
    ensures ReadSetup(m, AttrAt(m, off)) == SetupAsView(bands, base, bs)
  {
    hide Encode, EncodeAll, ReadBucket, BucketAsView, BucketNode;
    var n, a := SetupNode(bands, base, bs), AttrAt(m, off);
    AttrOfEncoding(m, off, n);
    assert Mirrors(m, [a], [n]);
    ReadNest(m, a, n);
    var w := NestedIn(m, a);
    HeadReadsBack(m, w, bands, base, bs);
    forall i | 0 <= i < |bs| ensures ReadBucket(m, w[i + 2]) == BucketAsView(bands, i, bs[i]) {
      BucketAtReadsBack(m, w, bands, base, bs, i);
    }
  }

  /** Reading by position matters: a bucket's nest carries its index as type, so with 11 buckets or
      more some bucket shares a type with the bucket count or the base period, and with fewer none. */
  lemma BucketTypesCollideIff(bands: Bands, bs: seq<Bucket>)
    requires |bs| < 0x1_0000
    ensures (exists i :: 0 <= i < |bs| && (BucketNodes(bands, bs)[i].typ == NUM_BUCKETS
                                           || BucketNodes(bands, bs)[i].typ == BASE_PERIOD))
       <==> |bs| > 10
  {
    var ns := BucketNodes(bands, bs);
    assert forall i :: 0 <= i < |bs| ==> ns[i].typ == i;
    if |bs| > 10 {
      assert ns[10].typ == NUM_BUCKETS;
    }
  }

  // ---------------------------------------------------------------- the same request as plain bytes

  function IdPeriodBand(bands: Bands, b: Bucket): (r: seq<byte>)
    ensures |r| == 24
  {
    IntBytes(BUCKET_ID, b.bucket) + IntBytes(BUCKET_PERIOD, b.period) + IntBytes(BUCKETS_BAND, ValidBand(bands, b.band))
  }

  function StepsAndEvents(b: Bucket): (r: seq<byte>)
    ensures |r| == 32
  {
    IntBytes(BUCKET_STEP_COUNT, b.stepCount) + IntBytes(BUCKET_MAX_PERIOD, b.maxPeriod)
    + IntBytes(REPORT_EVENTS, b.reportEvents) + IntBytes(BUCKET_NUM_CHANNELS, |b.channels|)
  }

  function FieldBytes(bands: Bands, b: Bucket): seq<byte> {
    IdPeriodBand(bands, b) + StepsAndEvents(b)
  }

  function ChannelBytes(channels: seq<int32>): (r: seq<byte>)
    ensures |r| == 8 * |channels|
  {
    if channels == [] then []
    else
      var last := |channels| - 1;
      ChannelBytes(channels[..last]) + IntBytes(Truncate(last), channels[last])
  }

  function BucketBody(bands: Bands, b: Bucket): seq<byte> {
    if b.channels == [] then FieldBytes(bands, b)
    else FieldBytes(bands, b) + NestBytes(BUCKET_CHANNELS, ChannelBytes(b.channels))
  }

  function BucketBytes(bands: Bands, i: nat, b: Bucket): seq<byte> {
    NestBytes(Truncate(i), BucketBody(bands, b))
  }

  function BucketsBytes(bands: Bands, bs: seq<Bucket>): seq<byte> {
    if bs == [] then []
    else
      var last := |bs| - 1;
      BucketsBytes(bands, bs[..last]) + BucketBytes(bands, last, bs[last])
  }

  function SetupBytes(bands: Bands, base: int32, bs: seq<Bucket>): seq<byte>
    requires |bs| < 0x8000_0000
  {
    NestBytes(NL80211_ATTR_VENDOR_DATA,
      IntBytes(BASE_PERIOD, base) + IntBytes(NUM_BUCKETS, |bs|) + BucketsBytes(bands, bs))
  }

  lemma IntEncoding(typ: uint16, v: int32)
    ensures Encode(IntLeaf(typ, v)) == IntBytes(typ, v)
  {
    assert Zeros(0) == [];
  }

  lemma NestEncoding(typ: uint16, kids: seq<Node>)
    ensures Encode(Nest(typ, kids)) == NestBytes(typ, EncodeAll(kids))
  {
    assert Zeros(0) == [];
  }

  lemma {:induction false} EncodeAllConcat(a: seq<Node>, b: seq<Node>)
    ensures EncodeAll(a + b) == EncodeAll(a) + EncodeAll(b)
  {
    if a == [] {
      assert a + b == b;
    } else {
      assert (a + b)[1..] == a[1..] + b;
      EncodeAllConcat(a[1..], b);
    }
  }

  lemma EncodeAllSnoc(a: seq<Node>, n: Node)
    ensures EncodeAll(a + [n]) == EncodeAll(a) + Encode(n)
  {
    EncodeAllConcat(a, [n]);
    assert [n][1..] == [];
  }

  lemma EncodePair(a: Node, b: Node)
    ensures EncodeAll([a]) == Encode(a) && EncodeAll([a, b]) == Encode(a) + Encode(b)
  {
    assert [a, b][1..] == [b] && [b][1..] == [] && [a][1..] == [];
  }

  lemma FieldsEncoding(bands: Bands, b: Bucket)
    ensures EncodeAll(FieldLeaves(bands, b)) == FieldBytes(bands, b)
  {
    var ns := FieldLeaves(bands, b);
    assert ns == [ns[0], ns[1]] + ([ns[2], ns[3]] + ([ns[4], ns[5]] + [ns[6]]));
    EncodeAllConcat([ns[0], ns[1]], [ns[2], ns[3]] + ([ns[4], ns[5]] + [ns[6]]));
    EncodeAllConcat([ns[2], ns[3]], [ns[4], ns[5]] + [ns[6]]);
    EncodeAllConcat([ns[4], ns[5]], [ns[6]]);
    EncodePair(ns[0], ns[1]);
    EncodePair(ns[2], ns[3]);
    EncodePair(ns[4], ns[5]);
    EncodePair(ns[6], ns[6]);
    FieldLeafEncodings(bands, b);
  }

  lemma FieldLeafEncodings(bands: Bands, b: Bucket)
    ensures var ns := FieldLeaves(bands, b);
            Encode(ns[0]) + Encode(ns[1]) + (Encode(ns[2]) + Encode(ns[3])
            + (Encode(ns[4]) + Encode(ns[5]) + Encode(ns[6]))) == FieldBytes(bands, b)
  {
    IntEncoding(BUCKET_ID, b.bucket);
    IntEncoding(BUCKET_PERIOD, b.period);
    IntEncoding(BUCKETS_BAND, ValidBand(bands, b.band));
    IntEncoding(BUCKET_STEP_COUNT, b.stepCount);
    IntEncoding(BUCKET_MAX_PERIOD, b.maxPeriod);
    IntEncoding(REPORT_EVENTS, b.reportEvents);
    IntEncoding(BUCKET_NUM_CHANNELS, |b.channels|);
  }

  lemma {:induction false} ChannelsEncoding(channels: seq<int32>)
    ensures EncodeAll(ChannelLeaves(channels)) == ChannelBytes(channels)
    decreases |channels|
  {
    if channels != [] {
      var last := |channels| - 1;
      var n := IntLeaf(Truncate(last), channels[last]);
      assert ChannelLeaves(channels) == ChannelLeaves(channels[..last]) + [n];
      EncodeAllSnoc(ChannelLeaves(channels[..last]), n);
      ChannelsEncoding(channels[..last]);
      IntEncoding(Truncate(last), channels[last]);
    }
  }

  lemma BucketEncoding(bands: Bands, i: nat, b: Bucket)
    ensures Encode(BucketNode(bands, i, b)) == BucketBytes(bands, i, b)
  {
    NestEncoding(Truncate(i), BucketKids(bands, b));
    FieldsEncoding(bands, b);
    if b.channels == [] {
      assert BucketKids(bands, b) == FieldLeaves(bands, b);
    } else {
      var c := Nest(BUCKET_CHANNELS, ChannelLeaves(b.channels));
      EncodeAllSnoc(FieldLeaves(bands, b), c);
      NestEncoding(BUCKET_CHANNELS, ChannelLeaves(b.channels));
      ChannelsEncoding(b.channels);
    }
  }

  lemma {:induction false} BucketsEncoding(bands: Bands, bs: seq<Bucket>)
    ensures EncodeAll(BucketNodes(bands, bs)) == BucketsBytes(bands, bs)
    decreases |bs|
  {
    if bs != [] {
      var last := |bs| - 1;
      assert BucketNodes(bands, bs) == BucketNodes(bands, bs[..last]) + [BucketNode(bands, last, bs[last])];
      EncodeAllSnoc(BucketNodes(bands, bs[..last]), BucketNode(bands, last, bs[last]));
      BucketsEncoding(bands, bs[..last]);
      BucketEncoding(bands, last, bs[last]);
    }
  }

  lemma SetupEncoding(bands: Bands, base: int32, bs: seq<Bucket>)
    requires |bs| < 0x8000_0000
    ensures Encode(SetupNode(bands, base, bs)) == SetupBytes(bands, base, bs)
  {
    NestEncoding(NL80211_ATTR_VENDOR_DATA, SetupKids(bands, base, bs));
    EncodeAllConcat([IntLeaf(BASE_PERIOD, base), IntLeaf(NUM_BUCKETS, |bs|)], BucketNodes(bands, bs));
    EncodePair(IntLeaf(BASE_PERIOD, base), IntLeaf(NUM_BUCKETS, |bs|));
    IntEncoding(BASE_PERIOD, base);
    IntEncoding(NUM_BUCKETS, |bs|);
    BucketsEncoding(bands, bs);
  }

  // ---------------------------------------------------------------- building the request

  class ScanCommand {
    const bands: Bands
    const basePeriod: int32
    const buckets: array<Bucket>      // its length is num_buckets

    ghost predicate Valid() {
      buckets.Length < 0x8000_0000
    }

    constructor (bands: Bands, basePeriod: int32, buckets: array<Bucket>)
      requires buckets.Length < 0x8000_0000
      ensures Valid() && this.bands == bands && this.basePeriod == basePeriod && this.buckets == buckets
    {
      this.bands, this.basePeriod, this.buckets := bands, basePeriod, buckets;
    }

    /** Id, period and, after its validity check, band of bucket i. */
    method PutIdPeriodBand(request: WifiRequest, i: nat) returns (result: int)
      requires request.Valid() && i < buckets.Length
      modifies request, buckets
      ensures request.Valid()
      ensures buckets[i] == old(buckets[i]) || buckets[i] == Normalized(bands, old(buckets[i]))
      ensures buckets[..] == old(buckets[..])[i := buckets[i]]
      ensures request.Appended(result, old(request.msg), IdPeriodBand(bands, old(buckets[i])))
      ensures result == 0 ==>
                var b := old(buckets[i]);
                var band := if bands.unspecified <= b.band <= bands.abgWithDfs then b.band else bands.abg;
                && request.msg == old(request.msg) + (IntBytes(13, b.bucket) + IntBytes(14, b.period) + IntBytes(12, band))
                && buckets[i] == b.(band := band)
    {
      ghost var before, p := request.msg, IntBytes(BUCKET_ID, buckets[i].bucket);
      result := request.PutU32(BUCKET_ID, buckets[i].bucket);
      if result < 0 { return; }
      result := request.PutU32(BUCKET_PERIOD, buckets[i].period);
      if result < 0 { return; }
      p := Grown(before, p, IntBytes(BUCKET_PERIOD, buckets[i].period));
      if buckets[i].band < bands.unspecified || buckets[i].band > bands.abgWithDfs {
        buckets[i] := buckets[i].(band := bands.abg);
      }
      result := request.PutU32(BUCKETS_BAND, buckets[i].band);
      p := Grown(before, p, IntBytes(BUCKETS_BAND, buckets[i].band));
    }

    /** The other four integer attributes of a bucket. */
    method PutStepsAndEvents(request: WifiRequest, b: Bucket) returns (result: int)
      requires request.Valid()
      modifies request
      ensures request.Valid()
      ensures request.Appended(result, old(request.msg), StepsAndEvents(b))
    {
      ghost var before, p := request.msg, IntBytes(BUCKET_STEP_COUNT, b.stepCount);
      result := request.PutU32(BUCKET_STEP_COUNT, b.stepCount);
      if result < 0 { return; }
      result := request.PutU32(BUCKET_MAX_PERIOD, b.maxPeriod);
      if result < 0 { return; }
      p := Grown(before, p, IntBytes(BUCKET_MAX_PERIOD, b.maxPeriod));
      result := request.PutU32(REPORT_EVENTS, b.reportEvents);
      if result < 0 { return; }
      p := Grown(before, p, IntBytes(REPORT_EVENTS, b.reportEvents));
      result := request.PutU32(BUCKET_NUM_CHANNELS, |b.channels|);
      p := Grown(before, p, IntBytes(BUCKET_NUM_CHANNELS, |b.channels|));
    }

    /** The nest of channels; a bucket without channels has none. When its header does not fit, the
        first channel does not either, so attr_end never sees a NULL. */
    method PutChannels(request: WifiRequest, channels: seq<int32>) returns (result: int)
      requires request.Valid() && channels != []
      modifies request
      ensures request.Valid()
      ensures request.Appended(result, old(request.msg), NestBytes(16, ChannelBytes(channels)))
    {
      ghost var before, open := request.msg, request.msg + Open(BUCKET_CHANNELS);
      ghost var p: seq<byte> := [];
      var start := request.AttrStart(BUCKET_CHANNELS);
      result := 0;
      assert channels[..0] == [] && (start.Some? ==> request.msg == open + p);
      for j := 0 to |channels|
        invariant request.Valid() && result == 0
        invariant start.None? ==> j == 0 && request.msg == before && |before| + NLA_HDRLEN > request.size
        invariant start.Some? ==> start.value == |before| && request.msg == open + p
        invariant p == ChannelBytes(channels[..j])
      {
        ChannelsGrow(channels, j);
        result := request.PutU32(Truncate(j), channels[j]);
        if result < 0 { return; }
        p := Grown(open, p, IntBytes(Truncate(j), channels[j]));
      }
      assert channels[..|channels|] == channels;
      ClosedNest(before, BUCKET_CHANNELS, p);
      request.AttrEnd(start.value);
    }

    /** One bucket: attr_start(i), its fields, its channels if it has any, attr_end. */
    method PutBucket(request: WifiRequest, i: nat) returns (result: int)
      requires request.Valid() && i < buckets.Length
      modifies request, buckets
      ensures request.Valid()
      ensures request.Appended(result, old(request.msg), BucketBytes(bands, i, old(buckets[i])))
      ensures buckets[i] == old(buckets[i]) || buckets[i] == Normalized(bands, old(buckets[i]))
      ensures result == 0 ==> buckets[i] == Normalized(bands, old(buckets[i]))
      ensures buckets[..] == old(buckets[..])[i := buckets[i]]
    {
      ghost var before, b := request.msg, buckets[i];
      ghost var open, p := before + Open(Truncate(i)), FieldBytes(bands, b);
      var start := request.AttrStart(Truncate(i));
      result := PutIdPeriodBand(request, i);
      if result < 0 { return; }
      result := PutStepsAndEvents(request, buckets[i]);
      if result < 0 { return; }
      ConcatAssociates(open, IdPeriodBand(bands, b), StepsAndEvents(b));
      if buckets[i].channels != [] {
        result := PutChannels(request, buckets[i].channels);
        if result < 0 { return; }
        p := Grown(open, p, NestBytes(BUCKET_CHANNELS, ChannelBytes(b.channels)));
      }
      assert p == BucketBody(bands, b);
      ClosedNest(before, Truncate(i), p);
      request.AttrEnd(start.value);
    }

    /** createSetupRequest, after create() filled the request: succeeds exactly when the encoded
        configuration fits, and then appends it. */
    method CreateSetupRequest(request: WifiRequest) returns (result: int)
      requires Valid() && request.Valid()
      modifies request, buckets
      ensures request.Valid()
      ensures request.Appended(result, old(request.msg), SetupBytes(bands, basePeriod, old(buckets[..])))
      ensures exists n :: 0 <= n <= buckets.Length && buckets[..] == NormalizeFirst(bands, old(buckets[..]), n)
      ensures result == 0 ==> buckets[..] == NormalizeFirst(bands, old(buckets[..]), buckets.Length)
      ensures result == 0 ==>
                ReadSetup(request.msg, AttrAt(request.msg, |old(request.msg)|))
                == SetupAsView(bands, basePeriod, old(buckets[..]))
      ensures result == 0 ==>
                var a := AttrAt(request.msg, |old(request.msg)|);
                var v := ReadSetup(request.msg, a);
                && a.typ == 197 && a.off + a.len == |request.msg|
                && v.head == [Field(11, basePeriod), Field(10, buckets.Length)]
                && |v.buckets| == buckets.Length
                && forall i :: 0 <= i < buckets.Length ==>
                     var b := old(buckets[..])[i];
                     var band := if bands.unspecified <= b.band <= bands.abgWithDfs then b.band else bands.abg;
                     && buckets[i] == b.(band := band)
                     && v.buckets[i].fields ==
                          [Field(13, b.bucket), Field(14, b.period), Field(12, band), Field(25, b.stepCount),
                           Field(26, b.maxPeriod), Field(24, b.reportEvents), Field(15, |b.channels|)]
                     && (i < 0x1_0000 ==> v.buckets[i].typ == i)
                     && |v.buckets[i].channels| == |b.channels|
                     && forall j :: 0 <= j < |b.channels| ==>
                          && v.buckets[i].channels[j].value == b.channels[j]
                          && (j < 0x1_0000 ==> v.buckets[i].channels[j].typ == j)
    {
      ghost var before, bs := request.msg, buckets[..];
      result := PutSetup(request);
      if result == 0 {
        SetupEncoding(bands, basePeriod, bs);
        assert At(request.msg, |before|, SetupBytes(bands, basePeriod, bs));
        assert |SetupBytes(bands, basePeriod, bs)| < 0x1_0000;
        SetupFits(bands, basePeriod, bs);
        SetupReadsBack(request.msg, |before|, bands, basePeriod, bs);
      }
    }

    /** The nests of all buckets, in order. */
    method PutBuckets(request: WifiRequest) returns (result: int)
      requires Valid() && request.Valid()
      modifies request, buckets
      ensures request.Valid()
      ensures request.Appended(result, old(request.msg), BucketsBytes(bands, old(buckets[..])))
      ensures exists n :: 0 <= n <= buckets.Length && buckets[..] == NormalizeFirst(bands, old(buckets[..]), n)
      ensures result == 0 ==> buckets[..] == NormalizeFirst(bands, old(buckets[..]), buckets.Length)
    {
      ghost var before, bs := request.msg, buckets[..];
      assert buckets[..] == NormalizeFirst(bands, bs, 0);
      ghost var p: seq<byte> := [];
      result := 0;
      for i := 0 to buckets.Length
        invariant request.Valid() && result == 0
        invariant request.msg == before + p && p == BucketsBytes(bands, bs[..i])
        invariant buckets[..] == NormalizeFirst(bands, bs, i)
      {
        BucketsGrow(bands, bs, i);
        NormalizeNext(bands, bs, i);
        result := PutBucket(request, i);
        if result < 0 { return; }
        p := Grown(before, p, BucketBytes(bands, i, bs[i]));
      }
      assert bs[..buckets.Length] == bs;
    }

    method PutSetup(request: WifiRequest) returns (result: int)
      requires Valid() && request.Valid()
      modifies request, buckets
      ensures request.Valid()
      ensures request.Appended(result, old(request.msg), SetupBytes(bands, basePeriod, old(buckets[..])))
      ensures exists n :: 0 <= n <= buckets.Length && buckets[..] == NormalizeFirst(bands, old(buckets[..]), n)
      ensures result == 0 ==> buckets[..] == NormalizeFirst(bands, old(buckets[..]), buckets.Length)
    {
      ghost var before, bs := request.msg, buckets[..];
      assert buckets[..] == NormalizeFirst(bands, bs, 0);
      ghost var open := before + Open(NL80211_ATTR_VENDOR_DATA);
      ghost var p := IntBytes(BASE_PERIOD, basePeriod);
      var data := request.AttrStart(NL80211_ATTR_VENDOR_DATA);
      result := request.PutU32(BASE_PERIOD, basePeriod);
      if result < 0 { return; }
      result := request.PutU32(NUM_BUCKETS, buckets.Length);
      if result < 0 { return; }
      p := Grown(open, p, IntBytes(NUM_BUCKETS, buckets.Length));
      result := PutBuckets(request);
      if result < 0 { return; }
      p := Grown(open, p, BucketsBytes(bands, bs));
      ClosedNest(before, NL80211_ATTR_VENDOR_DATA, p);
      request.AttrEnd(data.value);
    }
  }

  lemma SetupFits(bands: Bands, base: int32, bs: seq<Bucket>)
    requires |bs| < 0x8000_0000 && |SetupBytes(bands, base, bs)| < 0x1_0000
    ensures NLA_HDRLEN + |Payload(SetupNode(bands, base, bs))| < 0x1_0000
  {
    SetupEncoding(bands, base, bs);
  }

  /** Buckets take their turn in order, and a bucket that does not fit keeps the whole from fitting. */
  lemma BucketsGrow(bands: Bands, bs: seq<Bucket>, i: nat)
    requires i < |bs|
    ensures BucketsBytes(bands, bs[..i + 1]) == BucketsBytes(bands, bs[..i]) + BucketBytes(bands, i, bs[i])
    ensures |BucketsBytes(bands, bs[..i + 1])| <= |BucketsBytes(bands, bs)|
    decreases |bs| - i
  {
    assert bs[..i + 1][..i] == bs[..i];
    if i + 1 < |bs| {
      BucketsGrow(bands, bs, i + 1);
    } else {
      assert bs[..i + 1] == bs;
    }
  }

  /** The bytes put after before, one attribute later. */
  ghost function Grown(before: seq<byte>, p: seq<byte>, next: seq<byte>): (r: seq<byte>)
    ensures r == p + next && |r| == |p| + |next| && before + r == before + p + next
  {
    ConcatAssociates(before, p, next);
    p + next
  }

  lemma ChannelsGrow(channels: seq<int32>, j: nat)
    requires j < |channels|
    ensures ChannelBytes(channels[..j + 1]) == ChannelBytes(channels[..j]) + IntBytes(Truncate(j), channels[j])
  {
    assert channels[..j + 1][..j] == channels[..j];
  }
}
