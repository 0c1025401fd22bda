/** What the emergency-number list answers when its properties hold given lists. */
module EccAnswers {
  import opened Prelude
  import opened Strings
  import opened EccList

  // ---------------------------------------------------------------- properties made of lists

  /** One segment of the category property, as its fields; a segment may be empty. */
  predicate SegmentOk(fs: seq<string>) {
    && fs != [] && (fs == [""] || fs[|fs| - 1] != "")
    && forall f :: f in fs ==> ',' !in f && ';' !in f
  }

  function SegmentTexts(segs: seq<seq<string>>): (r: seq<string>)
    ensures |r| == |segs| && forall i :: 0 <= i < |r| ==> r[i] == Join(',', segs[i])
  {
    seq(|segs|, i requires 0 <= i < |segs| => Join(',', segs[i]))
  }

  /** Segments whose joined text splits into them again: the last one is not empty. */
  ghost predicate SegmentsOk(segs: seq<seq<string>>) {
    && (forall i :: 0 <= i < |segs| ==> SegmentOk(segs[i]))
    && (segs != [] ==> segs[|segs| - 1] != [""])
  }

  function CategoryText(segs: seq<seq<string>>): string {
    Join(';', SegmentTexts(segs))
  }

  /** A list of numbers that a property can hold. */
  ghost predicate NumbersOk(l: seq<string>) {
    Free(',', l) && (l != [] ==> l[|l| - 1] != "")
  }

  lemma {:induction false} JoinFree(c: char, d: char, fs: seq<string>)
    requires c != d && Free(c, fs)
    ensures c !in Join(d, fs)
  {
    if |fs| > 1 {
      assert Free(c, fs[1..]);
      JoinFree(c, d, fs[1..]);
    }
  }

  lemma {:induction false} JoinEmptyIff(c: char, fs: seq<string>)
    ensures Join(c, fs) == "" <==> fs == [] || fs == [""]
  {
    if |fs| > 1 {
      assert Join(c, fs) == fs[0] + [c] + Join(c, fs[1..]);
    }
  }

  lemma SegmentSplits(fs: seq<string>)
    requires SegmentOk(fs)
    ensures ';' !in Join(',', fs) && Split(Join(',', fs), ',') == fs
    ensures Join(',', fs) == "" <==> fs == [""]
  {
    JoinFree(';', ',', fs);
    JoinEmptyIff(',', fs);
    if fs != [""] {
      SplitOfJoin(',', fs);
    }
  }

  lemma TextSplits(segs: seq<seq<string>>)
    requires SegmentsOk(segs)
    ensures Segments(CategoryText(segs)) == SegmentTexts(segs)
  {
    var ts := SegmentTexts(segs);
    JoinEmptyIff(';', ts);
    forall i | 0 <= i < |segs| ensures ';' !in ts[i] && (ts[i] == "" <==> segs[i] == [""]) {
      SegmentSplits(segs[i]);
    }
    if segs != [] {
      SplitOfJoin(';', ts);
    }
  }

  lemma ListSplits(l: seq<string>)
    requires NumbersOk(l)
    ensures Join(',', l) == "" <==> l == []
    ensures l != [] ==> Split(Join(',', l), ',') == l
  {
    JoinEmptyIff(',', l);
    if l != [] {
      SplitOfJoin(',', l);
    }
  }

  // ---------------------------------------------------------------- the network categories

  /** Segment i names number, and, for LastNaming, no later one of the first n does. */
  predicate Naming(fs: seq<string>, number: string) {
    |fs| == 2 && fs[0] == number
  }

  ghost predicate LastNaming(segs: seq<seq<string>>, n: nat, i: int, number: string)
    requires n <= |segs|
  {
    0 <= i < n && Naming(segs[i], number) && forall j :: i < j < n ==> !Naming(segs[j], number)
  }

  /** What the map holds after the first n segments. */
  ghost predicate HoldsFirst(parse: string -> Option<int32>, segs: seq<seq<string>>, n: nat, cats: map<string, int32>)
    requires n <= |segs|
  {
    && (forall k :: k in cats ==> exists i :: LastNaming(segs, n, i, k))
    && forall k, i :: LastNaming(segs, n, i, k) ==> k in cats && Some(cats[k]) == parse(segs[i][1])
  }

  ghost predicate ParsesFirst(parse: string -> Option<int32>, segs: seq<seq<string>>, n: nat)
    requires n <= |segs|
  {
    forall i :: 0 <= i < n && |segs[i]| == 2 ==> parse(segs[i][1]) != None
  }

  lemma HoldsNext(parse: string -> Option<int32>, segs: seq<seq<string>>, n: nat, cats: map<string, int32>)
    requires n < |segs| && HoldsFirst(parse, segs, n, cats)
    ensures |segs[n]| != 2 ==> HoldsFirst(parse, segs, n + 1, cats)
    ensures |segs[n]| == 2 && parse(segs[n][1]).Some? ==>
              HoldsFirst(parse, segs, n + 1, cats[segs[n][0] := parse(segs[n][1]).value])
  {
    forall k, i | LastNaming(segs, n + 1, i, k)
      ensures if i == n then |segs[n]| == 2 && segs[n][0] == k else LastNaming(segs, n, i, k) && !Naming(segs[n], k)
    {
    }
    forall k, i | LastNaming(segs, n, i, k) && !Naming(segs[n], k) ensures LastNaming(segs, n + 1, i, k) {
    }
    if |segs[n]| == 2 {
      assert LastNaming(segs, n + 1, n, segs[n][0]);
    }
  }

  lemma {:induction false} FillReads(parse: string -> Option<int32>, segs: seq<seq<string>>, n: nat)
    requires n <= |segs| && forall i :: 0 <= i < |segs| ==> SegmentOk(segs[i])
    ensures var f := Fill(parse, SegmentTexts(segs), n);
            && (f.ok <==> ParsesFirst(parse, segs, n))
            && (f.ok ==> HoldsFirst(parse, segs, n, f.cats))
  {
    hide Split, Join, HoldsFirst;
    if n > 0 {
      FillReads(parse, segs, n - 1);
      SegmentSplits(segs[n - 1]);
      var f := Fill(parse, SegmentTexts(segs), n - 1);
      if f.ok {
        HoldsNext(parse, segs, n - 1, f.cats);
      }
    } else {
      NothingHeld(parse, segs);
    }
  }

  lemma NothingHeld(parse: string -> Option<int32>, segs: seq<seq<string>>)
    ensures HoldsFirst(parse, segs, 0, map[])
  {
  }

  /** The categories loaded from a property that lists segments: loading fails exactly when some segment
      of two fields has a category that is no number; otherwise the map holds, for each number named by
      a segment of two fields, the category of the last such segment, and nothing else. */
  lemma NetworkOfSegments(parse: string -> Option<int32>, segs: seq<seq<string>>)
    requires SegmentsOk(segs)
    ensures var net := Network(parse, CategoryText(segs));
            && (net.ok <==> forall i :: 0 <= i < |segs| && |segs[i]| == 2 ==> parse(segs[i][1]) != None)
            && (net.ok ==> HoldsFirst(parse, segs, |segs|, net.cats))
  {
    TextSplits(segs);
    FillReads(parse, segs, |segs|);
  }

  lemma {:induction false} SomeLast(segs: seq<seq<string>>, n: nat, i: nat, number: string) returns (last: nat)
    requires i < n <= |segs| && Naming(segs[i], number)
    ensures LastNaming(segs, n, last, number)
    decreases n
  {
    if Naming(segs[n - 1], number) {
      last := n - 1;
    } else {
      last := SomeLast(segs, n - 1, i, number);
    }
  }

  lemma LastIsSegment(segs: seq<seq<string>>, k: string)
    ensures (exists i :: LastNaming(segs, |segs|, i, k)) <==> exists i :: 0 <= i < |segs| && Naming(segs[i], k)
  {
    if i :| 0 <= i < |segs| && Naming(segs[i], k) {
      var last := SomeLast(segs, |segs|, i, k);
    }
  }

  // ---------------------------------------------------------------- the answer

  /** The numbers listed somewhere that counts: by the network, by either SIM, or by an entry that is
      valid with a SIM or, if neither SIM listed anything, by any entry. */
  ghost predicate Listed(entries: seq<EccEntry>, segs: seq<seq<string>>, l1: seq<string>, l2: seq<string>, e: string) {
    || (exists i :: 0 <= i < |segs| && |segs[i]| == 2 && segs[i][0] == e)
    || e in l1 || e in l2
    || exists i :: 0 <= i < |entries| && entries[i].ecc == e && (entries[i].condition != "0" || (l1 == [] && l2 == []))
  }

  lemma {:induction false} FixedMeans(entries: seq<EccEntry>, e: string)
    ensures e in Fixed(entries) <==> exists i :: 0 <= i < |entries| && entries[i].ecc == e && entries[i].condition != "0"
  {
    if entries != [] {
      FixedMeans(entries[1..], e);
      if e in Fixed(entries[1..]) {
        var i :| 0 <= i < |entries[1..]| && entries[1..][i].ecc == e && entries[1..][i].condition != "0";
        assert entries[i + 1].ecc == e;
      }
      if i :| 0 <= i < |entries| && entries[i].ecc == e && entries[i].condition != "0" {
        if i > 0 {
          assert entries[1..][i - 1].ecc == e;
        }
      }
    }
  }

  /** A number is an emergency number exactly when it, or it less a closing "+", is listed. */
  lemma AnswerOfLists(parse: string -> Option<int32>, entries: seq<EccEntry>, segs: seq<seq<string>>,
                      l1: seq<string>, l2: seq<string>, number: string)
    requires SegmentsOk(segs) && NumbersOk(l1) && NumbersOk(l2)
    ensures var r := Answer(entries, Network(parse, CategoryText(segs)), Join(',', l1), Join(',', l2), number);
            if forall i :: 0 <= i < |segs| && |segs[i]| == 2 ==> parse(segs[i][1]) != None then
              r == Some(exists e :: Listed(entries, segs, l1, l2, e) && (number == e || number == e + "+"))
            else r == None
  {
    hide Answer, Network, CategoryText, HoldsFirst, Counts, Listed, Matches;
    NetworkOfSegments(parse, segs);
    var net := Network(parse, CategoryText(segs));
    AnswerCounts(entries, net, l1, l2, number);
    if net.ok {
      forall e ensures Counts(entries, net.cats, l1, l2, e) <==> Listed(entries, segs, l1, l2, e) {
        CountsIfListed(parse, entries, segs, net.cats, l1, l2, e);
      }
      forall e ensures Matches(e, number) <==> number == e || number == e + "+" {
        MatchesMeans(e, number);
      }
    }
  }

  lemma MatchesMeans(e: string, number: string)
    ensures Matches(e, number) <==> number == e || number == e + "+"
  {
  }

  lemma AnswerCounts(entries: seq<EccEntry>, net: Filled, l1: seq<string>, l2: seq<string>, number: string)
    requires NumbersOk(l1) && NumbersOk(l2)
    ensures Answer(entries, net, Join(',', l1), Join(',', l2), number)
         == if net.ok then Some(exists e :: Counts(entries, net.cats, l1, l2, e) && Matches(e, number)) else None
  {
    hide Split, Join, Fixed, Matches;
    ListSplits(l1);
    ListSplits(l2);
    var r := Answer(entries, net, Join(',', l1), Join(',', l2), number);
    var fixedOnly := l1 != [] || l2 != [];
    assert ListHit(Join(',', l1), number) <==> Hit(l1, number);
    assert ListHit(Join(',', l2), number) <==> Hit(l2, number);
    if net.ok && r == Some(true) {
      var e :| Matches(e, number) && (e in net.cats || e in l1 || e in l2 || (if fixedOnly then e in Fixed(entries) else e in Codes(entries)));
      assert Counts(entries, net.cats, l1, l2, e);
    }
  }

  ghost predicate Counts(entries: seq<EccEntry>, cats: map<string, int32>, l1: seq<string>, l2: seq<string>, e: string) {
    e in cats || e in l1 || e in l2 || (if l1 != [] || l2 != [] then e in Fixed(entries) else e in Codes(entries))
  }

  lemma CountsIfListed(parse: string -> Option<int32>, entries: seq<EccEntry>, segs: seq<seq<string>>,
                       cats: map<string, int32>, l1: seq<string>, l2: seq<string>, e: string)
    requires HoldsFirst(parse, segs, |segs|, cats)
    ensures Counts(entries, cats, l1, l2, e) <==> Listed(entries, segs, l1, l2, e)
  {
    hide Fixed;
    LastIsSegment(segs, e);
    FixedMeans(entries, e);
    if i :| 0 <= i < |segs| && |segs[i]| == 2 && segs[i][0] == e {
      assert Naming(segs[i], e);
    }
    if i :| 0 <= i < |entries| && entries[i].ecc == e {
      assert Codes(entries)[i] == e;
    }
  }

  // ---------------------------------------------------------------- the service category

  ghost predicate Named(fs: seq<string>, number: string) {
    |fs| == 2 && (number == fs[0] || number == fs[0] + "+")
  }

  ghost predicate Coded(e: EccEntry, number: string) {
    number == e.ecc || number == e.ecc + "+"
  }

  /** The service category of any number: that of a segment naming it, or it less a closing "+", and the
      last to name what it names; without one, that of the first entry with such a code; without one, 0. */
  lemma CategoryOfSegments(parse: string -> Option<int32>, entries: seq<EccEntry>, segs: seq<seq<string>>,
                           number: string, r: Option<int32>)
    requires SegmentsOk(segs) && forall i :: 0 <= i < |segs| && |segs[i]| == 2 ==> parse(segs[i][1]) != None
    requires IsCategory(parse, entries, Network(parse, CategoryText(segs)).cats, number, r)
    ensures (exists i :: 0 <= i < |segs| && Named(segs[i], number)) ==>
              exists i :: && 0 <= i < |segs| && Named(segs[i], number) && r == parse(segs[i][1])
                          && forall j :: i < j < |segs| && |segs[j]| == 2 ==> segs[j][0] != segs[i][0]
    ensures (forall i :: 0 <= i < |segs| ==> !Named(segs[i], number)) ==>
              && (forall i :: 0 <= i < |entries| && Coded(entries[i], number)
                              && (forall j :: 0 <= j < i ==> !Coded(entries[j], number)) ==>
                    r == parse(entries[i].category))
              && ((forall i :: 0 <= i < |entries| ==> !Coded(entries[i], number)) ==> r == Some(0))
  {
    hide Network, CategoryText;
    NetworkOfSegments(parse, segs);
    var cats := Network(parse, CategoryText(segs)).cats;
    if i :| 0 <= i < |segs| && Named(segs[i], number) {
      var last := SomeLast(segs, |segs|, i, segs[i][0]);
      assert segs[i][0] in cats && Matches(segs[i][0], number);
      var k :| k in cats && Matches(k, number) && r == Some(cats[k]);
      var j :| LastNaming(segs, |segs|, j, k);
      assert Named(segs[j], number);
    } else {
      forall k | k in cats ensures !Matches(k, number) {
        var j :| LastNaming(segs, |segs|, j, k);
        assert !Named(segs[j], number);
      }
      assert r == CustomCategory(parse, entries, number);
    }
  }

  /** Without a closing "+" there is only one such segment, the last to name the number. */
  lemma CategoryOfPlain(parse: string -> Option<int32>, entries: seq<EccEntry>, segs: seq<seq<string>>, i: nat,
                        number: string, r: Option<int32>)
    requires SegmentsOk(segs) && forall i :: 0 <= i < |segs| && |segs[i]| == 2 ==> parse(segs[i][1]) != None
    requires IsCategory(parse, entries, Network(parse, CategoryText(segs)).cats, number, r)
    requires number == "" || number[|number| - 1] != '+'
    requires i < |segs| && |segs[i]| == 2 && segs[i][0] == number
    requires forall j :: i < j < |segs| && |segs[j]| == 2 ==> segs[j][0] != number
    ensures r == parse(segs[i][1])
  {
    hide IsCategory, Network, CategoryText;
    CategoryOfSegments(parse, entries, segs, number, r);
    assert Named(segs[i], number);
    var k :| && 0 <= k < |segs| && Named(segs[k], number) && r == parse(segs[k][1])
             && forall j :: k < j < |segs| && |segs[j]| == 2 ==> segs[j][0] != segs[k][0];
    OnlyItself(segs[k][0], number);
  }

  // ---------------------------------------------------------------- the properties as they are rewritten

  /** The always-valid and the no-SIM codes, entry by entry in order. */
  lemma {:induction false} ListsInOrder(entries: seq<EccEntry>, e: EccEntry)
    ensures Fixed(entries + [e]) == Fixed(entries) + if e.condition != "0" then [e.ecc] else []
    ensures NoSim(entries + [e]) == NoSim(entries) + if e.condition == "0" && e.ecc != "" then [e.ecc] else []
  {
    if entries == [] {
      assert [] + [e] == [e] && [e][1..] == [];
    } else {
      assert (entries + [e])[0] == entries[0] && (entries + [e])[1..] == entries[1..] + [e];
      ListsInOrder(entries[1..], e);
    }
  }

  /** A property that lists numbers is rewritten to those that are not always-valid, in order, followed
      by the always-valid codes; an empty one, to the latter followed by the no-SIM codes. */
  lemma UpdatedOfNumbers(entries: seq<EccEntry>, l: seq<string>)
    requires Free(',', l) && "" !in l && l != []
    ensures Updated(entries, Join(',', l)) == Join(',', RemoveAll(l, Fixed(entries)) + Fixed(entries))
    ensures Updated(entries, "") == Join(',', RemoveAll(Fixed(entries), NoSim(entries)) + NoSim(entries))
  {
    assert l[|l| - 1] in l;
    ListSplits(l);
    NonEmptyAll(l);
    assert NonEmpty([""]) == NonEmpty([""][1..]) == [];
    assert RemoveAll([], Fixed(entries)) + Fixed(entries) == Fixed(entries);
  }

  function CtaEntries(n: nat): seq<EccEntry>
    requires n <= |CTA_CODES|
  {
    seq(n, k requires 0 <= k < n => CtaEntry(CTA_CODES[k]))
  }

  lemma CodeStillMissing(entries: seq<EccEntry>, n: nat)
    requires n < |CTA_CODES| && forall i :: 0 <= i < |entries| ==> entries[i].ecc !in CTA_CODES
    ensures Override(entries + CtaEntries(n), CTA_CODES[n]) == entries + (CtaEntries(n) + [CtaEntry(CTA_CODES[n])])
    ensures CtaEntries(n + 1) == CtaEntries(n) + [CtaEntry(CTA_CODES[n])]
  {
    hide CTA_CODES;
    var q := entries + CtaEntries(n);
    CtaDistinct(n);
    forall i | 0 <= i < |q| ensures q[i].ecc != CTA_CODES[n] {
      if i >= |entries| {
        assert q[i].ecc == CTA_CODES[..n][i - |entries|];
      }
    }
    FirstCodeUnique(q, CTA_CODES[n], |q|);
    assert q + [CtaEntry(CTA_CODES[n])] == entries + (CtaEntries(n) + [CtaEntry(CTA_CODES[n])]);
  }

  lemma {:induction false} CtaAppended(entries: seq<EccEntry>, n: nat)
    requires n <= |CTA_CODES| && forall i :: 0 <= i < |entries| ==> entries[i].ecc !in CTA_CODES
    ensures OverrideAll(entries, n) == entries + CtaEntries(n)
  {
    hide CTA_CODES, Override;
    if n == 0 {
      assert entries + [] == entries;
    } else {
      CtaAppended(entries, n - 1);
      CodeStillMissing(entries, n - 1);
    }
  }

  /** The four CTA codes, in the order they are added to a list that has none of them. */
  lemma CtaCodes(entries: seq<EccEntry>)
    requires forall i :: 0 <= i < |entries| ==> entries[i].ecc !in ["120", "122", "110", "119"]
    ensures OverrideAll(entries, 4) ==
            entries + [EccEntry("120", "0", "2"), EccEntry("122", "0", "2"), EccEntry("110", "0", "2"),
                       EccEntry("119", "0", "2")]
  {
    hide OverrideAll;
    CtaAppended(entries, 4);
  }
}
