/** The emergency-number list: built-in entries with conditions, numbers from two SIM properties,
    and a per-network category property. */
module EccList {
  import opened Prelude
  import opened Strings

  const NO_SIM := "0"
  const ALWAYS := "1"
  const FOR_MMI := "2"

  datatype EccEntry = EccEntry(ecc: string, category: string, condition: string)

  const CTA_CODES: seq<string> := ["120", "122", "110", "119"]

  function CtaEntry(code: string): EccEntry {
    EccEntry(code, "0", FOR_MMI)
  }

  // ---------------------------------------------------------------- matching

  /** One listed number answers for itself and for itself followed by "+". */
  predicate Matches(e: string, number: string) {
    e == number || e + "+" == number
  }

  ghost predicate Hit(list: seq<string>, number: string) {
    exists e :: e in list && Matches(e, number)
  }

  ghost predicate SameElements(a: seq<string>, b: seq<string>) {
    forall e :: e in a <==> e in b
  }

  lemma SameHits(a: seq<string>, b: seq<string>, number: string)
    requires SameElements(a, b)
    ensures Hit(a, number) <==> Hit(b, number)
  {
  }

  function Codes(entries: seq<EccEntry>): (cs: seq<string>)
    ensures |cs| == |entries| && forall i :: 0 <= i < |cs| ==> cs[i] == entries[i].ecc
  {
    seq(|entries|, i requires 0 <= i < |entries| => entries[i].ecc)
  }

  /** Codes of the entries that hold whether or not a SIM is present. */
  function Fixed(entries: seq<EccEntry>): seq<string> {
    if entries == [] then []
    else if entries[0].condition != NO_SIM then [entries[0].ecc] + Fixed(entries[1..])
    else Fixed(entries[1..])
  }

  /** Non-empty codes of the entries for the no-SIM case. */
  function NoSim(entries: seq<EccEntry>): seq<string> {
    if entries == [] then []
    else if entries[0].condition == NO_SIM && entries[0].ecc != "" then [entries[0].ecc] + NoSim(entries[1..])
    else NoSim(entries[1..])
  }

  lemma {:induction false} FixedAndNoSim(entries: seq<EccEntry>, c: string)
    requires c != ""
    ensures c in Codes(entries) <==> c in Fixed(entries) || c in NoSim(entries)
  {
    if entries != [] {
      FixedAndNoSim(entries[1..], c);
      assert Codes(entries) == [entries[0].ecc] + Codes(entries[1..]);
    }
  }

  lemma {:induction false} FixedAreCodes(entries: seq<EccEntry>, c: string)
    ensures c in Fixed(entries) ==> c in Codes(entries)
    ensures c in NoSim(entries) ==> c in Codes(entries) && c != ""
  {
    if entries != [] {
      FixedAreCodes(entries[1..], c);
      assert Codes(entries) == [entries[0].ecc] + Codes(entries[1..]);
    }
  }

  // ---------------------------------------------------------------- the network categories

  /** The map as filled so far; ok is false once a category was not a number. */
  datatype Filled = Filled(cats: map<string, int32>, ok: bool)

  /** Fields of one segment of the property: counted only if there are exactly two. */
  function Pair(segment: string): seq<string> {
    Split(segment, ',')
  }

  predicate Names(segment: string, number: string) {
    |Pair(segment)| == 2 && Pair(segment)[0] == number
  }

  function Put(parse: string -> Option<int32>, f: Filled, segment: string): Filled {
    if !f.ok || segment == "" || |Pair(segment)| != 2 then f
    else
      match parse(Pair(segment)[1])
      case None => f.(ok := false)
      case Some(v) => f.(cats := f.cats[Pair(segment)[0] := v])
  }

  /** The map after the first n segments. */
  function Fill(parse: string -> Option<int32>, segments: seq<string>, n: nat): Filled
    requires n <= |segments|
  {
    if n == 0 then Filled(map[], true) else Put(parse, Fill(parse, segments, n - 1), segments[n - 1])
  }

  function Segments(property: string): seq<string> {
    if property == "" then [] else Split(property, ';')
  }

  function Network(parse: string -> Option<int32>, property: string): Filled {
    Fill(parse, Segments(property), |Segments(property)|)
  }

  /** The category in the last of the first n segments that names number. */
  function LastCategory(parse: string -> Option<int32>, segments: seq<string>, n: nat, number: string): Option<int32>
    requires n <= |segments|
  {
    if n == 0 then None
    else if Names(segments[n - 1], number) then parse(Pair(segments[n - 1])[1])
    else LastCategory(parse, segments, n - 1, number)
  }

  lemma {:induction false} LastCategoryWins(parse: string -> Option<int32>, segments: seq<string>, n: nat, number: string)
    requires n <= |segments| && Fill(parse, segments, n).ok
    ensures var m := Fill(parse, segments, n).cats;
            LastCategory(parse, segments, n, number) == if number in m then Some(m[number]) else None
  {
    if n > 0 {
      LastCategoryWins(parse, segments, n - 1, number);
      assert segments[n - 1] == "" ==> Pair(segments[n - 1]) == [""];
    }
  }

  // ---------------------------------------------------------------- the answer

  ghost predicate ListHit(property: string, number: string) {
    property != "" && Hit(Split(property, ','), number)
  }

  ghost predicate CustomHit(entries: seq<EccEntry>, inserted: bool, number: string) {
    if inserted then Hit(Fixed(entries), number) else Hit(Codes(entries), number)
  }

  /** Whether a number (separators stripped) is an emergency number; None is an exception. */
  ghost function Answer(entries: seq<EccEntry>, net: Filled, list1: string, list2: string, number: string)
    : Option<bool> {
    if !net.ok then None
    else Some(|| (exists k :: k in net.cats && Matches(k, number))
              || ListHit(list1, number) || ListHit(list2, number)
              || CustomHit(entries, list1 != "" || list2 != "", number))
  }

  // ---------------------------------------------------------------- rewriting the SIM lists

  function RemoveAll(a: seq<string>, b: seq<string>): (r: seq<string>)
    ensures forall e :: e in r <==> e in a && e !in b
  {
    if a == [] then [] else (if a[0] in b then [] else [a[0]]) + RemoveAll(a[1..], b)
  }

  function NonEmpty(a: seq<string>): (r: seq<string>)
    ensures forall e :: e in r <==> e in a && e != ""
  {
    if a == [] then [] else (if a[0] == "" then [] else [a[0]]) + NonEmpty(a[1..])
  }

  /** The list a SIM property is rewritten to. */
  function NewList(entries: seq<EccEntry>, property: string): seq<string> {
    var own := RemoveAll(NonEmpty(Split(property, ',')), Fixed(entries)) + Fixed(entries);
    if property != "" then own else RemoveAll(own, NoSim(entries)) + NoSim(entries)
  }

  function Updated(entries: seq<EccEntry>, property: string): string {
    Join(',', NewList(entries, property))
  }

  /** Customized codes are non-empty and hold no comma. */
  ghost predicate WellFormed(entries: seq<EccEntry>) {
    forall c :: c in Codes(entries) ==> c != "" && ',' !in c
  }

  /** There is something to write: an always-valid code, or a number of the property's own. */
  predicate Survives(entries: seq<EccEntry>, property: string) {
    Fixed(entries) != [] || NonEmpty(Split(property, ',')) != []
  }

  lemma NewListElements(entries: seq<EccEntry>, property: string, e: string)
    ensures e in NewList(entries, property) <==>
            || e in Fixed(entries)
            || (if property == "" then e in NoSim(entries) else e in Split(property, ',') && e != "")
  {
  }

  lemma NewListClean(entries: seq<EccEntry>, property: string)
    requires WellFormed(entries)
    ensures Free(',', NewList(entries, property)) && "" !in NewList(entries, property)
  {
    SplitFree(property, ',');
    forall e | e in NewList(entries, property) ensures e != "" && ',' !in e {
      NewListElements(entries, property, e);
      FixedAreCodes(entries, e);
    }
  }

  /** The rewritten property reads back as exactly the list it was made from. */
  lemma UpdatedReadsBack(entries: seq<EccEntry>, property: string)
    requires WellFormed(entries)
    ensures Updated(entries, property) == "" <==> NewList(entries, property) == []
    ensures Updated(entries, property) != "" ==> Split(Updated(entries, property), ',') == NewList(entries, property)
  {
    var l := NewList(entries, property);
    NewListClean(entries, property);
    if l != [] {
      assert l[0] in l && l[|l| - 1] in l;
      SplitOfJoin(',', l);
    }
  }

  /** A property keeps its emptiness, except that an empty one receives the customized codes and one
      of separators only is wiped when there is no always-valid code. */
  lemma UpdatedEmpty(entries: seq<EccEntry>, property: string)
    requires WellFormed(entries)
    ensures Updated(entries, property) == "" <==> if property == "" then entries == [] else !Survives(entries, property)
  {
    UpdatedReadsBack(entries, property);
    var l := NewList(entries, property);
    if entries != [] {
      var c := entries[0].ecc;
      assert c == Codes(entries)[0] && c in Codes(entries);
      FixedAndNoSim(entries, c);
      NewListElements(entries, property, c);
    }
    if property != "" {
      var own := NonEmpty(Split(property, ','));
      if own != [] {
        NewListElements(entries, property, own[0]);
      } else if Fixed(entries) != [] {
        NewListElements(entries, property, Fixed(entries)[0]);
      }
    }
  }

  /** The number is not the empty one, or no segment of the property is. */
  predicate Plain(property: string, number: string) {
    number !in ["", "+"] || property == "" || "" !in Split(property, ',')
  }

  /** What the rewritten property answers: its own numbers, the always-valid ones, and, if it was
      empty, the no-SIM ones. */
  lemma UpdatedHits(entries: seq<EccEntry>, property: string, number: string)
    requires WellFormed(entries) && Plain(property, number)
    ensures ListHit(Updated(entries, property), number) <==>
            || ListHit(property, number) || Hit(Fixed(entries), number)
            || (property == "" && Hit(NoSim(entries), number))
  {
    UpdatedReadsBack(entries, property);
    var l := NewList(entries, property);
    forall e | Matches(e, number) && property != "" && e in Split(property, ',') ensures e in l {
      assert "" + "+" == "+";
      NewListElements(entries, property, e);
    }
    forall e | e in Fixed(entries) || (property == "" && e in NoSim(entries)) ensures e in l {
      NewListElements(entries, property, e);
    }
    forall e | e in l ensures e in Fixed(entries) || (if property == "" then e in NoSim(entries) else e in Split(property, ',')) {
      NewListElements(entries, property, e);
    }
  }

  /** Rewriting makes the no-SIM numbers count when one property was empty and the other was not, or
      when neither was but nothing of either is left. */
  predicate Grows(entries: seq<EccEntry>, list1: string, list2: string) {
    || (list1 == "") != (list2 == "")
    || (list1 != "" && list2 != "" && !Survives(entries, list1) && !Survives(entries, list2))
  }

  /** Effect of rewriting both properties on the answer for every number: the no-SIM numbers and their
      "+" forms are added when Grows says so, and nothing else changes. */
  lemma UpdateEffect(entries: seq<EccEntry>, net: Filled, list1: string, list2: string, number: string)
    requires WellFormed(entries) && Plain(list1, number) && Plain(list2, number)
    ensures var before := Answer(entries, net, list1, list2, number);
            var after := Answer(entries, net, Updated(entries, list1), Updated(entries, list2), number);
            if !net.ok then before == after == None
            else after == Some(before.value || (Grows(entries, list1, list2) && Hit(NoSim(entries), number)))
  {
    hide Updated, Survives, Hit, Codes;
    UpdatedHits(entries, list1, number);
    UpdatedHits(entries, list2, number);
    UpdatedEmpty(entries, list1);
    UpdatedEmpty(entries, list2);
    CodesAreFixedAndNoSim(entries, number);
  }

  /** With an always-valid code, the answers change only if exactly one property was empty. */
  lemma SameEmptinessSameAnswers(entries: seq<EccEntry>, net: Filled, list1: string, list2: string, number: string)
    requires WellFormed(entries) && Plain(list1, number) && Plain(list2, number)
    requires Fixed(entries) != [] && (list1 == "" <==> list2 == "")
    ensures Answer(entries, net, Updated(entries, list1), Updated(entries, list2), number)
         == Answer(entries, net, list1, list2, number)
  {
    UpdateEffect(entries, net, list1, list2, number);
  }

  lemma OnlyEmptyMatches(list: seq<string>, number: string)
    requires number in ["", "+"] && "" !in list
    ensures Hit(list, number) <==> number == "+" && "+" in list
  {
    if number == "+" && "+" in list {
      assert Matches("+", number);
    }
    if e :| e in list && Matches(e, number) {
      assert e != "";
    }
  }

  /** The remaining case, an empty segment and the number "" or "+": it is answered yes before, and
      afterwards only for another reason. */
  lemma EmptySegmentEffect(entries: seq<EccEntry>, net: Filled, list1: string, list2: string, number: string)
    requires WellFormed(entries) && net.ok
    requires !Plain(list1, number) || !Plain(list2, number)
    ensures Answer(entries, net, list1, list2, number) == Some(true)
    ensures Answer(entries, net, Updated(entries, list1), Updated(entries, list2), number)
         == Some(|| (exists k :: k in net.cats && Matches(k, number))
                 || (number == "+" && ("+" in NewList(entries, list1) || "+" in NewList(entries, list2))))
  {
    hide NewList, Updated, Survives, NonEmpty;
    EmptySegmentBefore(entries, if !Plain(list1, number) then list1 else list2, number);
    OwnEmptyHits(entries, list1, number);
    OwnEmptyHits(entries, list2, number);
  }

  lemma EmptySegmentBefore(entries: seq<EccEntry>, property: string, number: string)
    requires WellFormed(entries) && !Plain(property, number)
    ensures ListHit(property, number) && Updated(entries, property) != ""
  {
    assert Matches("", number) && "" in Split(property, ',');
    SplitEnds(property, ',');
    var fs := Split(property, ',');
    assert fs[|fs| - 1] in NonEmpty(fs);
    UpdatedEmpty(entries, property);
  }

  lemma OwnEmptyHits(entries: seq<EccEntry>, property: string, number: string)
    requires WellFormed(entries) && number in ["", "+"]
    ensures ListHit(Updated(entries, property), number) <==> number == "+" && "+" in NewList(entries, property)
    ensures Hit(Fixed(entries), number) ==> number == "+" && "+" in NewList(entries, property)
  {
    var l := NewList(entries, property);
    UpdatedReadsBack(entries, property);
    NewListClean(entries, property);
    OnlyEmptyMatches(l, number);
    forall e | e in Fixed(entries) ensures e in l {
      NewListElements(entries, property, e);
    }
  }

  lemma CodesAreFixedAndNoSim(entries: seq<EccEntry>, number: string)
    requires WellFormed(entries)
    ensures Hit(Codes(entries), number) <==> Hit(Fixed(entries), number) || Hit(NoSim(entries), number)
  {
    forall e ensures e in Codes(entries) <==> e in Fixed(entries) || e in NoSim(entries) {
      FixedAreCodes(entries, e);
      if e in Codes(entries) {
        FixedAndNoSim(entries, e);
      }
    }
  }

  // ---------------------------------------------------------------- rewriting again

  lemma {:induction false} RemoveAllConcat(a: seq<string>, b: seq<string>, x: seq<string>)
    ensures RemoveAll(a + b, x) == RemoveAll(a, x) + RemoveAll(b, x)
  {
    if a == [] {
      assert a + b == b;
    } else {
      assert (a + b)[0] == a[0] && (a + b)[1..] == a[1..] + b;
      RemoveAllConcat(a[1..], b, x);
    }
  }

  lemma {:induction false} RemoveAllNothing(a: seq<string>, x: seq<string>)
    requires forall e :: e in a ==> e !in x
    ensures RemoveAll(a, x) == a
  {
    if a != [] {
      assert a[0] in a;
      RemoveAllNothing(a[1..], x);
    }
  }

  lemma {:induction false} RemoveAllEverything(a: seq<string>, x: seq<string>)
    requires forall e :: e in a ==> e in x
    ensures RemoveAll(a, x) == []
  {
    if a != [] {
      assert a[0] in a;
      RemoveAllEverything(a[1..], x);
    }
  }

  lemma {:induction false} NonEmptyAll(a: seq<string>)
    requires "" !in a
    ensures NonEmpty(a) == a
  {
    if a != [] {
      assert a[0] in a;
      NonEmptyAll(a[1..]);
    }
  }

  /** The list made from a rewritten property: the always-valid codes have moved to the end. */
  lemma NewListAgain(entries: seq<EccEntry>, property: string)
    requires WellFormed(entries) && Updated(entries, property) != ""
    ensures NewList(entries, Updated(entries, property))
         == RemoveAll(NewList(entries, property), Fixed(entries)) + Fixed(entries)
  {
    UpdatedReadsBack(entries, property);
    NewListClean(entries, property);
    NonEmptyAll(NewList(entries, property));
  }

  /** A property that held something is final after one rewrite, exactly when something of it is left
      or there are no no-SIM codes to fill the gap. */
  lemma StableFromFirst(entries: seq<EccEntry>, property: string)
    requires WellFormed(entries) && property != ""
    ensures Updated(entries, Updated(entries, property)) == Updated(entries, property)
       <==> Survives(entries, property) || NoSim(entries) == []
  {
    UpdatedEmpty(entries, property);
    var fixed := Fixed(entries);
    if Survives(entries, property) {
      NewListAgain(entries, property);
      var own := RemoveAll(NonEmpty(Split(property, ',')), fixed);
      RemoveAllConcat(own, fixed, fixed);
      RemoveAllNothing(own, fixed);
      RemoveAllEverything(fixed, fixed);
      assert own + [] == own;
    } else {
      NewListOfNothing(entries);
      NoSimJoin(entries);
    }
  }

  lemma NewListOfNothing(entries: seq<EccEntry>)
    requires Fixed(entries) == []
    ensures NewList(entries, "") == NoSim(entries)
  {
    assert Split("", ',') == [""];
    assert NonEmpty([""]) == NonEmpty([""][1..]) == [];
    assert RemoveAll([], Fixed(entries)) + Fixed(entries) == [];
    assert RemoveAll([], NoSim(entries)) + NoSim(entries) == NoSim(entries);
  }

  lemma NoSimJoin(entries: seq<EccEntry>)
    ensures Join(',', NoSim(entries)) == "" <==> NoSim(entries) == []
  {
    if NoSim(entries) != [] {
      FixedAreCodes(entries, NoSim(entries)[0]);
    }
  }

  /** An empty property is final after two rewrites. */
  lemma StableFromSecond(entries: seq<EccEntry>)
    requires WellFormed(entries)
    ensures var once := Updated(entries, "");
            var twice := Updated(entries, once);
            Updated(entries, twice) == twice
  {
    var once := Updated(entries, "");
    UpdatedEmpty(entries, "");
    if entries != [] {
      UpdatedReadsBack(entries, "");
      NewListClean(entries, "");
      NonEmptyAll(NewList(entries, ""));
      StableFromFirst(entries, once);
    }
  }

  /** The set of numbers is final from the first rewrite that leaves any. */
  lemma NumbersFixed(entries: seq<EccEntry>, property: string)
    requires WellFormed(entries) && Updated(entries, property) != ""
    ensures var once := Updated(entries, property);
            var twice := Updated(entries, once);
            twice != "" && SameElements(Split(once, ','), Split(twice, ','))
  {
    var once := Updated(entries, property);
    var l := NewList(entries, property);
    UpdatedReadsBack(entries, property);
    UpdatedReadsBack(entries, once);
    NewListAgain(entries, property);
    forall e | e in Fixed(entries) ensures e in l {
      NewListElements(entries, property, e);
    }
    assert SameElements(l, NewList(entries, once));
    assert l[0] in NewList(entries, once);
  }

  /** And so are the answers it gives. */
  lemma AnswersFixed(entries: seq<EccEntry>, property: string, number: string)
    requires WellFormed(entries) && Updated(entries, property) != ""
    ensures var once := Updated(entries, property);
            ListHit(Updated(entries, once), number) <==> ListHit(once, number)
  {
    var once := Updated(entries, property);
    NumbersFixed(entries, property);
    SameHits(Split(once, ','), Split(Updated(entries, once), ','), number);
  }

  function Count(a: seq<string>, c: string): nat {
    if a == [] then 0 else (if a[0] == c then 1 else 0) + Count(a[1..], c)
  }

  lemma {:induction false} CountConcat(a: seq<string>, b: seq<string>, c: string)
    ensures Count(a + b, c) == Count(a, c) + Count(b, c)
  {
    if a == [] {
      assert a + b == b;
    } else {
      assert (a + b)[0] == a[0] && (a + b)[1..] == a[1..] + b;
      CountConcat(a[1..], b, c);
    }
  }

  lemma {:induction false} CountRemoved(a: seq<string>, x: seq<string>, c: string)
    ensures Count(RemoveAll(a, x), c) == if c in x then 0 else Count(a, c)
  {
    if a != [] {
      CountRemoved(a[1..], x, c);
      CountConcat(if a[0] in x then [] else [a[0]], RemoveAll(a[1..], x), c);
    }
  }

  lemma {:induction false} CountFixed(entries: seq<EccEntry>, c: string)
    requires NoDuplicates(Codes(entries)) && c in Fixed(entries)
    ensures Count(Fixed(entries), c) == 1 && c !in NoSim(entries)
  {
    var rest := entries[1..];
    assert Codes(entries) == [entries[0].ecc] + Codes(rest);
    assert forall i :: 0 <= i < |Codes(rest)| ==> Codes(rest)[i] == Codes(entries)[i + 1];
    if c in Fixed(rest) {
      FixedAreCodes(rest, c);
      CountFixed(rest, c);
      assert entries[0].ecc != c;
    } else {
      FixedAreCodes(rest, c);
      CountAbsent(Fixed(rest), c);
    }
  }

  lemma {:induction false} CountAbsent(a: seq<string>, c: string)
    requires c !in a
    ensures Count(a, c) == 0
  {
    if a != [] {
      CountAbsent(a[1..], c);
    }
  }

  /** With a duplicate-free customized list, every always-valid number stands in the rewritten property
      exactly once, whatever the SIM had listed. */
  lemma FixedOnce(entries: seq<EccEntry>, property: string, c: string)
    requires WellFormed(entries) && NoDuplicates(Codes(entries)) && c in Fixed(entries)
    ensures Count(Split(Updated(entries, property), ','), c) == 1
  {
    var fixed, noSim := Fixed(entries), NoSim(entries);
    var sim := RemoveAll(NonEmpty(Split(property, ',')), fixed);
    UpdatedReadsBack(entries, property);
    NewListElements(entries, property, c);
    CountFixed(entries, c);
    CountRemoved(NonEmpty(Split(property, ',')), fixed, c);
    CountConcat(sim, fixed, c);
    if property == "" {
      CountRemoved(sim + fixed, noSim, c);
      CountConcat(RemoveAll(sim + fixed, noSim), noSim, c);
      CountAbsent(noSim, c);
    }
  }

  // ---------------------------------------------------------------- the CTA override

  /** Index of the first entry with this code, or |entries|. */
  function FirstCode(entries: seq<EccEntry>, code: string): (i: nat)
    ensures i <= |entries| && (i < |entries| ==> entries[i].ecc == code)
    ensures forall j :: 0 <= j < i ==> entries[j].ecc != code
  {
    if entries == [] || entries[0].ecc == code then 0 else 1 + FirstCode(entries[1..], code)
  }

  lemma FirstCodeUnique(entries: seq<EccEntry>, code: string, i: nat)
    requires i <= |entries| && (i < |entries| ==> entries[i].ecc == code)
    requires forall j :: 0 <= j < i ==> entries[j].ecc != code
    ensures FirstCode(entries, code) == i
  {
  }

  function Override(entries: seq<EccEntry>, code: string): seq<EccEntry> {
    var i := FirstCode(entries, code);
    if i < |entries| then entries[i := CtaEntry(code)] else entries + [CtaEntry(code)]
  }

  /** The list after the first n of the four codes. */
  function OverrideAll(entries: seq<EccEntry>, n: nat): seq<EccEntry>
    requires n <= |CTA_CODES|
  {
    if n == 0 then entries else Override(OverrideAll(entries, n - 1), CTA_CODES[n - 1])
  }

  /** The override entries of those codes the list lacks, in code order. */
  function Missing(entries: seq<EccEntry>, n: nat): seq<EccEntry>
    requires n <= |CTA_CODES|
  {
    if n == 0 then []
    else if CTA_CODES[n - 1] in Codes(entries) then Missing(entries, n - 1)
    else Missing(entries, n - 1) + [CtaEntry(CTA_CODES[n - 1])]
  }

  /** What becomes of entry i: replaced if it is the first one with a listed code. */
  function Overridden(entries: seq<EccEntry>, n: nat, i: nat): EccEntry
    requires n <= |CTA_CODES| && i < |entries|
  {
    var e := entries[i];
    if e.ecc in CTA_CODES[..n] && FirstCode(entries, e.ecc) == i then CtaEntry(e.ecc) else e
  }

  lemma {:induction false} MissingCodes(entries: seq<EccEntry>, n: nat)
    requires n <= |CTA_CODES|
    ensures forall k :: 0 <= k < |Missing(entries, n)| ==>
              var e := Missing(entries, n)[k];
              e == CtaEntry(e.ecc) && e.ecc in CTA_CODES[..n] && e.ecc !in Codes(entries)
    ensures forall j :: 0 <= j < n && CTA_CODES[j] !in Codes(entries) ==> CtaEntry(CTA_CODES[j]) in Missing(entries, n)
  {
    if n > 0 {
      MissingCodes(entries, n - 1);
      assert CTA_CODES[..n] == CTA_CODES[..n - 1] + [CTA_CODES[n - 1]];
    }
  }

  lemma CtaDistinct(n: nat)
    requires n < |CTA_CODES|
    ensures CTA_CODES[n] !in CTA_CODES[..n]
  {
  }

  lemma CodeAt(entries: seq<EccEntry>, code: string)
    ensures code in Codes(entries) <==> FirstCode(entries, code) < |entries|
  {
    var i := FirstCode(entries, code);
    if i < |entries| {
      assert Codes(entries)[i] == code;
    }
  }

  ghost predicate IsOverride(entries: seq<EccEntry>, n: nat, r: seq<EccEntry>)
    requires n <= |CTA_CODES|
  {
    && |r| == |entries| + |Missing(entries, n)|
    && r[|entries|..] == Missing(entries, n)
    && forall i :: 0 <= i < |entries| ==> r[i] == Overridden(entries, n, i)
  }

  /** Where the next code is found in the list overridden so far: where it was, or nowhere. */
  lemma NextCode(entries: seq<EccEntry>, n: nat, q: seq<EccEntry>)
    requires n < |CTA_CODES| && IsOverride(entries, n, q)
    ensures var first := FirstCode(entries, CTA_CODES[n]);
            FirstCode(q, CTA_CODES[n]) == if first < |entries| then first else |q|
  {
    var code := CTA_CODES[n];
    var first := FirstCode(entries, code);
    CtaDistinct(n);
    MissingCodes(entries, n);
    forall i | 0 <= i < |q| ensures q[i].ecc == code <==> i < |entries| && entries[i].ecc == code {
      if i >= |entries| {
        assert q[i] == Missing(entries, n)[i - |entries|];
      }
    }
    FirstCodeUnique(q, code, if first < |entries| then first else |q|);
  }

  lemma OverriddenNext(entries: seq<EccEntry>, n: nat, i: nat)
    requires n < |CTA_CODES| && i < |entries|
    ensures Overridden(entries, n + 1, i) ==
            if i == FirstCode(entries, CTA_CODES[n]) then CtaEntry(CTA_CODES[n]) else Overridden(entries, n, i)
  {
    assert CTA_CODES[..n + 1] == CTA_CODES[..n] + [CTA_CODES[n]];
  }

  lemma OverrideNext(entries: seq<EccEntry>, n: nat, q: seq<EccEntry>)
    requires n < |CTA_CODES| && IsOverride(entries, n, q)
    ensures IsOverride(entries, n + 1, Override(q, CTA_CODES[n]))
  {
    hide Overridden, FirstCode, CTA_CODES;
    NextCode(entries, n, q);
    CodeAt(entries, CTA_CODES[n]);
    forall i | 0 <= i < |entries|
      ensures Overridden(entries, n + 1, i) ==
              if i == FirstCode(entries, CTA_CODES[n]) then CtaEntry(CTA_CODES[n]) else Overridden(entries, n, i)
    {
      OverriddenNext(entries, n, i);
    }
  }

  /** The whole result: every entry keeps its position, the first with a listed code is replaced, and
      the missing codes follow in order. */
  lemma {:induction false} CtaOverride(entries: seq<EccEntry>, n: nat)
    requires n <= |CTA_CODES|
    ensures IsOverride(entries, n, OverrideAll(entries, n))
  {
    if n > 0 {
      CtaOverride(entries, n - 1);
      OverrideNext(entries, n - 1, OverrideAll(entries, n - 1));
    }
  }

  /** From a list without repeated codes, one without repeated codes results, in which each of the four
      stands exactly once, with its override entry. */
  lemma CtaEachOnce(entries: seq<EccEntry>)
    requires NoDuplicates(Codes(entries))
    ensures var r := OverrideAll(entries, |CTA_CODES|);
            && NoDuplicates(Codes(r))
            && (forall c :: c in CTA_CODES ==> CtaEntry(c) in r)
            && (forall i :: 0 <= i < |r| && r[i].ecc in CTA_CODES ==> r[i] == CtaEntry(r[i].ecc))
  {
    var n := |CTA_CODES|;
    var r := OverrideAll(entries, n);
    CtaOverride(entries, n);
    MissingCodes(entries, n);
    MissingNoDuplicates(entries, n);
    assert CTA_CODES[..n] == CTA_CODES;
    forall i | 0 <= i < |r|
      ensures i < |entries| ==> r[i].ecc == entries[i].ecc
      ensures i >= |entries| ==> r[i] == Missing(entries, n)[i - |entries|]
      ensures r[i].ecc in CTA_CODES ==> r[i] == CtaEntry(r[i].ecc)
    {
      if i < |entries| {
        assert Codes(entries)[i] == entries[i].ecc;
        FirstOfDistinct(entries, i);
      }
    }
    forall i, j | 0 <= i < j < |r| ensures Codes(r)[i] != Codes(r)[j] {
      if i < |entries| {
        assert Codes(entries)[i] == entries[i].ecc;
      }
      if j < |entries| {
        assert Codes(entries)[j] == entries[j].ecc;
      }
    }
    forall c | c in CTA_CODES ensures CtaEntry(c) in r {
      if c in Codes(entries) {
        CodeAt(entries, c);
        assert r[FirstCode(entries, c)] == CtaEntry(c);
      } else {
        assert CtaEntry(c) in r[|entries|..];
      }
    }
  }

  lemma FirstOfDistinct(entries: seq<EccEntry>, i: nat)
    requires NoDuplicates(Codes(entries)) && i < |entries|
    ensures FirstCode(entries, entries[i].ecc) == i
  {
    forall j | 0 <= j < i ensures entries[j].ecc != entries[i].ecc {
      assert Codes(entries)[j] != Codes(entries)[i];
    }
    FirstCodeUnique(entries, entries[i].ecc, i);
  }

  lemma {:induction false} MissingNoDuplicates(entries: seq<EccEntry>, n: nat)
    requires n <= |CTA_CODES|
    ensures forall i, j :: 0 <= i < j < |Missing(entries, n)| ==> Missing(entries, n)[i].ecc != Missing(entries, n)[j].ecc
  {
    if n > 0 {
      MissingNoDuplicates(entries, n - 1);
      MissingCodes(entries, n - 1);
      CtaDistinct(n - 1);
    }
  }

  // ---------------------------------------------------------------- the service category

  /** Index of the first entry whose code answers for number, or |entries|. */
  function FirstMatch(entries: seq<EccEntry>, number: string): (i: nat)
    ensures i <= |entries| && (i < |entries| ==> Matches(entries[i].ecc, number))
    ensures forall j :: 0 <= j < i ==> !Matches(entries[j].ecc, number)
  {
    if entries == [] || Matches(entries[0].ecc, number) then 0 else 1 + FirstMatch(entries[1..], number)
  }

  lemma FirstMatchUnique(entries: seq<EccEntry>, number: string, i: nat)
    requires i <= |entries| && (i < |entries| ==> Matches(entries[i].ecc, number))
    requires forall j :: 0 <= j < i ==> !Matches(entries[j].ecc, number)
    ensures FirstMatch(entries, number) == i
  {
  }

  function CustomCategory(parse: string -> Option<int32>, entries: seq<EccEntry>, number: string): Option<int32> {
    var i := FirstMatch(entries, number);
    if i < |entries| then parse(entries[i].category) else Some(0)
  }

  /** r is a possible service category of number. Keys are visited in no particular order, so for a
      number ending in "+" two keys may answer; None is an exception. */
  ghost predicate IsCategory(parse: string -> Option<int32>, entries: seq<EccEntry>, cats: map<string, int32>,
                             number: string, r: Option<int32>) {
    if exists k :: k in cats && Matches(k, number) then
      exists k :: k in cats && Matches(k, number) && r == Some(cats[k])
    else r == CustomCategory(parse, entries, number)
  }

  lemma OnlyItself(e: string, number: string)
    requires number == "" || number[|number| - 1] != '+'
    ensures Matches(e, number) <==> e == number
  {
    var plus := e + "+";
    assert plus[|plus| - 1] == '+';
  }

  /** For a number not ending in "+" the category is the last one the network listed for it, else that
      of the first customized entry with that code, else 0. */
  lemma ServiceCategory(parse: string -> Option<int32>, entries: seq<EccEntry>, property: string, number: string,
                        r: Option<int32>)
    requires number == "" || number[|number| - 1] != '+'
    requires Network(parse, property).ok && IsCategory(parse, entries, Network(parse, property).cats, number, r)
    ensures var listed := LastCategory(parse, Segments(property), |Segments(property)|, number);
            var first := FirstCode(entries, number);
            r == if listed != None then listed
                 else if number in Codes(entries) then parse(entries[first].category) else Some(0)
  {
    LastCategoryWins(parse, Segments(property), |Segments(property)|, number);
    CodeAt(entries, number);
    forall e ensures Matches(e, number) <==> e == number {
      OnlyItself(e, number);
    }
    FirstMatchUnique(entries, number, FirstCode(entries, number));
  }

  // ---------------------------------------------------------------- the class

  class MtkEccList {
    const ctaSet: bool
    const parseInt: string -> Option<int32>     // Integer.parseInt; None is NumberFormatException
    const extract: string -> string             // PhoneNumberUtils.extractNetworkPortionAlt
    var customized: seq<EccEntry>
    var network: map<string, int32>
    var eccList: string                         // property ril.ecclist
    var eccList1: string                        // property ril.ecclist1
    var categoryList: string                    // property ril.ecc.service.category.list

    constructor (ctaSet: bool, parseInt: string -> Option<int32>, extract: string -> string)
      ensures this.ctaSet == ctaSet && this.parseInt == parseInt && this.extract == extract
      ensures customized == [] && network == map[]
    {
      this.ctaSet, this.parseInt, this.extract := ctaSet, parseInt, extract;
      customized, network := [], map[];
      eccList, eccList1, categoryList := "", "", "";
    }

    /** parsed is what was read from the file before its end or, if threw, before an exception. */
    method ParseEccList(parsed: seq<EccEntry>, threw: bool)
      modifies this`customized
      ensures customized == if ctaSet && !threw then OverrideAll(parsed, |CTA_CODES|) else parsed
    {
      customized := parsed;
      if threw {
        return;
      }
      if ctaSet {
        for k := 0 to |CTA_CODES|
          invariant customized == OverrideAll(parsed, k)
        {
          OverrideOne(CTA_CODES[k]);
        }
      }
    }

    method OverrideOne(code: string)
      modifies this`customized
      ensures customized == Override(old(customized), code)
    {
      var found, index := false, 0;
      while index < |customized|
        invariant 0 <= index <= |customized| && !found
        invariant forall j :: 0 <= j < index ==> customized[j].ecc != code
      {
        if customized[index].ecc == code {
          found := true;
          break;
        }
        index := index + 1;
      }
      FirstCodeUnique(customized, code, index);
      if found {
        customized := customized[index := EccEntry(code, "0", FOR_MMI)];
      } else {
        customized := customized + [EccEntry(code, "0", FOR_MMI)];
      }
    }

    method LoadCategories() returns (ok: bool)
      modifies this`network
      ensures Filled(network, ok) == Network(parseInt, categoryList)
    {
      hide Split;
      network := map[];
      if categoryList == "" {
        return true;
      }
      var segments := Split(categoryList, ';');
      for i := 0 to |segments|
        invariant Filled(network, true) == Fill(parseInt, segments, i)
      {
        if segments[i] != "" {
          var pair := Split(segments[i], ',');
          if |pair| == 2 {
            var v := parseInt(pair[1]);
            if v == None {
              FillStops(parseInt, segments, i + 1, |segments|);
              return false;
            }
            network := network[pair[0] := v.value];
          }
        }
      }
      return true;
    }

    static method AnyMatch(list: seq<string>, number: string) returns (hit: bool)
      ensures hit <==> Hit(list, number)
    {
      for i := 0 to |list|
        invariant forall j :: 0 <= j < i ==> !Matches(list[j], number)
      {
        if list[i] == number || list[i] + "+" == number {
          assert Matches(list[i], number);
          return true;
        }
      }
      return false;
    }

    method AnyKey(number: string) returns (hit: bool)
      ensures hit <==> exists k :: k in network && Matches(k, number)
    {
      var keys := network.Keys;
      while keys != {}
        invariant keys <= network.Keys && forall k :: k in network && k !in keys ==> !Matches(k, number)
        decreases |keys|
      {
        var k :| k in keys;
        if k == number || k + "+" == number {
          assert Matches(k, number);
          return true;
        }
        keys := keys - {k};
      }
      return false;
    }

    method CustomMatch(inserted: bool, number: string) returns (hit: bool)
      ensures hit <==> CustomHit(customized, inserted, number)
    {
      for i := 0 to |customized|
        invariant inserted ==> (Hit(Fixed(customized), number) <==> Hit(Fixed(customized[i..]), number))
        invariant !inserted ==> forall j :: 0 <= j < i ==> !Matches(customized[j].ecc, number)
      {
        var e := customized[i];
        FixedHead(customized[i..], number);
        assert customized[i..][1..] == customized[i + 1..];
        if !inserted || e.condition != NO_SIM {
          if e.ecc == number || e.ecc + "+" == number {
            assert Codes(customized)[i] == e.ecc;
            assert Matches(e.ecc, number);
            return true;
          }
        }
      }
      assert Fixed([]) == [];
      return false;
    }

    /** Loads the network categories anew, then asks network, both SIM lists, and the entries. */
    method IsEmergencyNumberExt(number: Option<string>) returns (r: Option<bool>)
      modifies this`network
      ensures number == None ==> r == Some(false) && network == old(network)
      ensures number != None ==>
                var net := Network(parseInt, categoryList);
                network == net.cats && r == Answer(customized, net, eccList, eccList1, extract(number.value))
    {
      if number == None {
        return Some(false);
      }
      var n := extract(number.value);
      var inserted := false;
      var ok := LoadCategories();
      if !ok {
        return None;
      }
      var hit := AnyKey(n);
      if hit {
        return Some(true);
      }
      if eccList != "" {
        hit := AnyMatch(Split(eccList, ','), n);
        if hit {
          return Some(true);
        }
        inserted := true;
      }
      if eccList1 != "" {
        hit := AnyMatch(Split(eccList1, ','), n);
        if hit {
          return Some(true);
        }
        inserted := true;
      }
      hit := CustomMatch(inserted, n);
      return Some(hit);
    }

    method GetServiceCategoryFromEcc(number: string) returns (r: Option<int32>)
      ensures IsCategory(parseInt, customized, network, number, r)
    {
      var keys := network.Keys;
      while keys != {}
        invariant keys <= network.Keys && forall k :: k in network && k !in keys ==> !Matches(k, number)
        decreases |keys|
      {
        var k :| k in keys;
        if k == number || k + "+" == number {
          assert Matches(k, number);
          return Some(network[k]);
        }
        keys := keys - {k};
      }
      for i := 0 to |customized|
        invariant forall j :: 0 <= j < i ==> !Matches(customized[j].ecc, number)
      {
        if customized[i].ecc == number || customized[i].ecc + "+" == number {
          FirstMatchUnique(customized, number, i);
          return parseInt(customized[i].category);
        }
      }
      FirstMatchUnique(customized, number, |customized|);
      return Some(0);
    }

    method UpdateEmergencyNumbersProperty()
      modifies this`eccList, this`eccList1
      ensures eccList == Updated(customized, old(eccList)) && eccList1 == Updated(customized, old(eccList1))
    {
      var fixedList, fixedListNoSim := [], [];
      for i := 0 to |customized|
        invariant fixedList + Fixed(customized[i..]) == Fixed(customized)
        invariant fixedListNoSim + NoSim(customized[i..]) == NoSim(customized)
      {
        var ecc := customized[i].ecc;
        assert customized[i..][1..] == customized[i + 1..];
        if customized[i].condition != NO_SIM {
          fixedList := fixedList + [ecc];
        } else if ecc != "" {
          fixedListNoSim := fixedListNoSim + [ecc];
        }
      }
      assert fixedList == Fixed(customized) && fixedListNoSim == NoSim(customized);
      eccList := Rewrite(eccList, fixedList, fixedListNoSim);
      eccList1 := Rewrite(eccList1, fixedList, fixedListNoSim);
    }

    method Rewrite(numbers: string, fixedList: seq<string>, fixedListNoSim: seq<string>) returns (result: string)
      requires fixedList == Fixed(customized) && fixedListNoSim == NoSim(customized)
      ensures result == Updated(customized, numbers)
    {
      hide Split, Join, RemoveAll, Fixed, NoSim;
      var simList := [];
      var fields := Split(numbers, ',');
      for i := 0 to |fields|
        invariant simList + NonEmpty(fields[i..]) == NonEmpty(fields)
      {
        assert fields[i..][1..] == fields[i + 1..];
        if fields[i] != "" {
          simList := simList + [fields[i]];
        }
      }
      assert simList == NonEmpty(fields);
      simList := RemoveAll(simList, fixedList);
      simList := simList + fixedList;
      if numbers == "" {
        simList := RemoveAll(simList, fixedListNoSim);
        simList := simList + fixedListNoSim;
      }
      return Join(',', simList);
    }
  }

  lemma {:induction false} FillStops(parse: string -> Option<int32>, segments: seq<string>, i: nat, n: nat)
    requires i <= n <= |segments| && !Fill(parse, segments, i).ok
    ensures Fill(parse, segments, n) == Fill(parse, segments, i)
  {
    if i < n {
      FillStops(parse, segments, i, n - 1);
    }
  }

  lemma FixedHead(entries: seq<EccEntry>, number: string)
    requires entries != []
    ensures Hit(Fixed(entries), number) <==>
            (entries[0].condition != NO_SIM && Matches(entries[0].ecc, number)) || Hit(Fixed(entries[1..]), number)
  {
    if entries[0].condition != NO_SIM {
      assert Fixed(entries)[0] == entries[0].ecc;
      assert forall e :: e in Fixed(entries) <==> e == entries[0].ecc || e in Fixed(entries[1..]);
    }
  }
}
