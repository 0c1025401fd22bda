/** The frequencies in use on a shared radio: the first distinct ones over the interfaces, in order,
    each with a flag saying who uses it. */
module SharedFreqs {
  import opened Prelude

  /** Values of the flags in wpa_supplicant_i.h, which is not part of this model. */
  const USED_BY_INFRA_STATION: nat := 1
  const USED_BY_P2P_CLIENT: nat := 2

  datatype Mode = Infra | Ap | P2pGo | OtherMode

  datatype Ssid = Ssid(mode: Mode, frequency: int, p2pGroup: bool)

  /** hasBssid: whether the driver reports a BSSID. */
  datatype Interface = Interface(ssid: Option<Ssid>, assocFreq: int, hasBssid: bool)

  datatype UsedFreq = UsedFreq(freq: int, flags: nat)

  const UNUSED: UsedFreq := UsedFreq(0, 0)

  /** The frequency an interface occupies, if it counts at all. */
  function FreqOf(f: Interface): Option<int> {
    if f.ssid == None || f.assocFreq == 0 then None
    else if f.ssid.value.mode == Ap || f.ssid.value.mode == P2pGo then Some(f.ssid.value.frequency)
    else if f.hasBssid then Some(f.assocFreq)
    else None
  }

  predicate IsInfra(f: Interface) {
    f.ssid != None && f.ssid.value.mode == Infra
  }

  function FlagOf(f: Interface): nat
    requires IsInfra(f)
  {
    if f.ssid.value.p2pGroup then USED_BY_P2P_CLIENT else USED_BY_INFRA_STATION
  }

  // ---------------------------------------------------------------- the reference

  /** Distinct frequencies of the first n interfaces, by first occurrence. */
  function Distinct(fs: seq<Interface>, n: nat): seq<int>
    requires n <= |fs|
  {
    if n == 0 then []
    else
      var d := Distinct(fs, n - 1);
      match FreqOf(fs[n - 1])
      case None => d
      case Some(q) => if q in d then d else d + [q]
  }

  /** How many interfaces are visited: up to where the len-th distinct frequency is reached. */
  function Visited(fs: seq<Interface>, len: nat, n: nat): (v: nat)
    requires n <= |fs|
    ensures n <= v <= |fs|
    decreases |fs| - n
  {
    if n == |fs| || |Distinct(fs, n)| == len then n else Visited(fs, len, n + 1)
  }

  /** An infrastructure interface on q. */
  predicate InfraUser(f: Interface, q: int) {
    FreqOf(f) == Some(q) && IsInfra(f)
  }

  /** Flag left by the last of the first n interfaces that is infrastructure on q; 0 without one. */
  function LastFlag(fs: seq<Interface>, n: nat, q: int): nat
    requires n <= |fs|
  {
    if n == 0 then 0
    else if InfraUser(fs[n - 1], q) then FlagOf(fs[n - 1])
    else LastFlag(fs, n - 1, q)
  }

  predicate FirstUser(fs: seq<Interface>, q: int, i: nat) {
    i < |fs| && FreqOf(fs[i]) == Some(q) && forall j :: 0 <= j < i ==> FreqOf(fs[j]) != Some(q)
  }

  /** The reference list holds exactly the frequencies in use, none twice, ordered by first user. */
  lemma {:induction false} DistinctMeans(fs: seq<Interface>, n: nat)
    requires n <= |fs|
    ensures var d := Distinct(fs, n);
            && NoDuplicates(d)
            && (forall q :: q in d <==> exists i :: 0 <= i < n && FreqOf(fs[i]) == Some(q))
            && (forall a, b, i, j :: 0 <= a < b < |d| && FirstUser(fs, d[a], i) && FirstUser(fs, d[b], j) ==> i < j)
  {
    if n > 0 {
      DistinctMeans(fs, n - 1);
      var d, d' := Distinct(fs, n - 1), Distinct(fs, n);
      forall a, b, i, j | 0 <= a < b < |d'| && FirstUser(fs, d'[a], i) && FirstUser(fs, d'[b], j) ensures i < j {
        if b == |d| {
          assert d'[a] in d;
        }
      }
    }
  }

  /** No flag is set exactly when no infrastructure interface uses the frequency. */
  lemma {:induction false} NoFlagMeans(fs: seq<Interface>, n: nat, q: int)
    requires n <= |fs|
    ensures LastFlag(fs, n, q) == 0 <==> forall i :: 0 <= i < n ==> !InfraUser(fs[i], q)
  {
    if n > 0 {
      NoFlagMeans(fs, n - 1, q);
      if InfraUser(fs[n - 1], q) {
        assert LastFlag(fs, n, q) == FlagOf(fs[n - 1]) != 0;
      }
    }
  }

  /** Otherwise the flag is that of the last such interface. */
  lemma {:induction false} LastFlagMeans(fs: seq<Interface>, n: nat, q: int, i: nat)
    requires i < n <= |fs| && InfraUser(fs[i], q)
    requires forall j :: i < j < n ==> !InfraUser(fs[j], q)
    ensures LastFlag(fs, n, q) == FlagOf(fs[i])
  {
    if i < n - 1 {
      assert !InfraUser(fs[n - 1], q);
      LastFlagMeans(fs, n - 1, q, i);
    }
  }

  lemma {:induction false} DistinctGrows(fs: seq<Interface>, a: nat, b: nat)
    requires a <= b <= |fs|
    ensures Distinct(fs, a) <= Distinct(fs, b)
    decreases b
  {
    if a < b {
      DistinctGrows(fs, a, b - 1);
    }
  }

  /** Stopping early loses nothing of the list: it is the first len of all distinct frequencies. */
  lemma {:induction false} VisitedSuffices(fs: seq<Interface>, len: nat, n: nat)
    requires n <= |fs| && |Distinct(fs, n)| <= len
    ensures var got, all := Distinct(fs, Visited(fs, len, n)), Distinct(fs, |fs|);
            got == if |all| <= len then all else all[..len]
    decreases |fs| - n
  {
    DistinctGrows(fs, n, |fs|);
    if n < |fs| && |Distinct(fs, n)| < len {
      VisitedSuffices(fs, len, n + 1);
    }
  }

  // ---------------------------------------------------------------- the routines

  /** data after n interfaces: one cell per distinct frequency, then cleared cells. */
  ghost predicate Shows(data: seq<UsedFreq>, fs: seq<Interface>, n: nat)
    requires n <= |fs|
  {
    && |Distinct(fs, n)| <= |data|
    && (forall k :: 0 <= k < |Distinct(fs, n)| ==>
          data[k] == UsedFreq(Distinct(fs, n)[k], LastFlag(fs, n, Distinct(fs, n)[k])))
    && (forall k :: |Distinct(fs, n)| <= k < |data| ==> data[k] == UsedFreq(0, 0))
  }

  lemma ShowsNone(data: seq<UsedFreq>, fs: seq<Interface>)
    requires forall k :: 0 <= k < |data| ==> data[k] == UNUSED
    ensures Shows(data, fs, 0) && Distinct(fs, 0) == []
  {
  }

  lemma ShowsSkip(data: seq<UsedFreq>, fs: seq<Interface>, n: nat)
    requires n < |fs| && FreqOf(fs[n]) == None && Shows(data, fs, n)
    ensures Shows(data, fs, n + 1) && Distinct(fs, n + 1) == Distinct(fs, n)
  {
    assert forall q :: !InfraUser(fs[n], q);
  }

  /** One more interface: its frequency is at i already or goes there, and its flag is recorded if it
      is an infrastructure interface. */
  lemma ShowsStep(data: seq<UsedFreq>, fs: seq<Interface>, n: nat, q: int, i: nat)
    requires n < |fs| && FreqOf(fs[n]) == Some(q) && Shows(data, fs, n) && i < |data| && i <= |Distinct(fs, n)|
    requires forall k :: 0 <= k < i ==> data[k].freq != q
    requires i < |Distinct(fs, n)| ==> data[i].freq == q
    ensures var flags := if IsInfra(fs[n]) then FlagOf(fs[n]) else data[i].flags;
            Shows(data[i := UsedFreq(q, flags)], fs, n + 1)
    ensures |Distinct(fs, n + 1)| == |Distinct(fs, n)| + (if i == |Distinct(fs, n)| then 1 else 0)
  {
    var d := Distinct(fs, n);
    DistinctMeans(fs, n);
    assert forall k :: 0 <= k < i ==> d[k] == data[k].freq;
    if i < |d| {
      assert d[i] == q;
    } else {
      assert q !in d;
      NoFlagMeans(fs, n, q);
    }
  }

  /** The frequency q an interface is on, mode by mode: an access point or group owner is on its network's,
      any other one on the associated one, if the driver reports a BSSID. */
  ghost predicate Uses(f: Interface, q: int) {
    f.assocFreq != 0 &&
    match f.ssid
    case None => false
    case Some(Ssid(Ap, own, _)) => q == own
    case Some(Ssid(P2pGo, own, _)) => q == own
    case Some(Ssid(Infra, _, _)) => f.hasBssid && q == f.assocFreq
    case Some(Ssid(OtherMode, _, _)) => f.hasBssid && q == f.assocFreq
  }

  ghost predicate InfraOn(f: Interface, q: int) {
    Uses(f, q) && f.ssid.value.mode == Infra
  }

  lemma UsesMeans(f: Interface, q: int)
    ensures Uses(f, q) <==> FreqOf(f) == Some(q)
    ensures InfraOn(f, q) <==> InfraUser(f, q)
    ensures InfraOn(f, q) ==> FlagOf(f) == if f.ssid.value.p2pGroup then 2 else 1
  {
  }

  /** The first num cells, spelled out: the frequencies the first n interfaces are on, each with the flag
      of the last infrastructure interface on it, 2 for a P2P client and 1 otherwise, or with 0. */
  ghost predicate Records(data: seq<UsedFreq>, num: nat, fs: seq<Interface>, n: nat)
    requires n <= |fs| && num <= |data|
  {
    && (forall i, q :: 0 <= i < n && Uses(fs[i], q) ==> exists k :: 0 <= k < num && data[k].freq == q)
    && forall k :: 0 <= k < num ==> RecordsCell(data[k], fs, n)
  }

  ghost predicate RecordsCell(cell: UsedFreq, fs: seq<Interface>, n: nat)
    requires n <= |fs|
  {
    && (exists i :: 0 <= i < n && Uses(fs[i], cell.freq))
    && (forall i :: 0 <= i < n && InfraOn(fs[i], cell.freq) && (forall j :: i < j < n ==> !InfraOn(fs[j], cell.freq)) ==>
          cell.flags == if fs[i].ssid.value.p2pGroup then 2 else 1)
    && ((forall i :: 0 <= i < n ==> !InfraOn(fs[i], cell.freq)) ==> cell.flags == 0)
  }

  lemma CellMeans(fs: seq<Interface>, n: nat, q: int)
    requires n <= |fs| && q in Distinct(fs, n)
    ensures RecordsCell(UsedFreq(q, LastFlag(fs, n, q)), fs, n)
  {
    DistinctMeans(fs, n);
    forall i | 0 <= i < n ensures Uses(fs[i], q) <==> FreqOf(fs[i]) == Some(q) {
      UsesMeans(fs[i], q);
    }
    forall i | 0 <= i < n ensures InfraOn(fs[i], q) <==> InfraUser(fs[i], q) {
      UsesMeans(fs[i], q);
    }
    NoFlagMeans(fs, n, q);
    forall i | 0 <= i < n && InfraOn(fs[i], q) && (forall j :: i < j < n ==> !InfraOn(fs[j], q))
      ensures LastFlag(fs, n, q) == if fs[i].ssid.value.p2pGroup then 2 else 1
    {
      UsesMeans(fs[i], q);
      LastFlagMeans(fs, n, q, i);
    }
  }

  lemma ShownIsRecorded(data: seq<UsedFreq>, fs: seq<Interface>, n: nat)
    requires n <= |fs| && Shows(data, fs, n)
    ensures Records(data, |Distinct(fs, n)|, fs, n)
  {
    var d := Distinct(fs, n);
    DistinctMeans(fs, n);
    forall k | 0 <= k < |d| ensures RecordsCell(data[k], fs, n) {
      CellMeans(fs, n, d[k]);
    }
    forall i, q | 0 <= i < n && Uses(fs[i], q) ensures exists k :: 0 <= k < |d| && data[k].freq == q {
      UsesMeans(fs[i], q);
      var k :| 0 <= k < |d| && d[k] == q;
      assert data[k].freq == q;
    }
  }

  method GetSharedRadioFreqsData(fs: seq<Interface>, data: array<UsedFreq>, len: nat) returns (num: nat)
    requires data.Length == len
    modifies data
    ensures Shows(data[..], fs, Visited(fs, len, 0)) && num == |Distinct(fs, Visited(fs, len, 0))| <= len
    ensures Records(data[..], num, fs, Visited(fs, len, 0)) && (num < len ==> Visited(fs, len, 0) == |fs|)
  {
    hide Records, Distinct, LastFlag;
    forall k | 0 <= k < len {
      data[k] := UNUSED;
    }
    ShowsNone(data[..], fs);
    var idx := 0;
    for n := 0 to |fs|
      invariant Shows(data[..], fs, n) && idx == |Distinct(fs, n)| && Visited(fs, len, 0) == Visited(fs, len, n)
    {
      if idx == len {
        ShownIsRecorded(data[..], fs, n);
        return idx;
      }
      var freq;
      if fs[n].ssid == None || fs[n].assocFreq == 0 {
        ShowsSkip(data[..], fs, n);
        continue;
      }
      var ssid := fs[n].ssid.value;
      if ssid.mode == Ap || ssid.mode == P2pGo {
        freq := ssid.frequency;
      } else if fs[n].hasBssid {
        freq := fs[n].assocFreq;
      } else {
        ShowsSkip(data[..], fs, n);
        continue;
      }
      var i := FindFreq(data, idx, freq);
      ShowsStep(data[..], fs, n, freq, i);
      if i == idx {
        data[idx] := data[idx].(freq := freq);
        idx := idx + 1;
      }
      if ssid.mode == Infra {
        data[i] := data[i].(flags := if ssid.p2pGroup then USED_BY_P2P_CLIENT else USED_BY_INFRA_STATION);
      }
    }
    ShownIsRecorded(data[..], fs, |fs|);
    return idx;
  }

  method FindFreq(data: array<UsedFreq>, idx: nat, freq: int) returns (i: nat)
    requires idx <= data.Length
    ensures i <= idx && (i < idx ==> data[i].freq == freq) && forall k :: 0 <= k < i ==> data[k].freq != freq
  {
    for k := 0 to idx
      invariant forall j :: 0 <= j < k ==> data[j].freq != freq
    {
      if data[k].freq == freq {
        return k;
      }
    }
    return idx;
  }

  /** granted says whether the temporary array could be had; without it the result is -1 and the
      caller's array is cleared. */
  method GetSharedRadioFreqs(fs: seq<Interface>, freqArray: array<int>, len: nat, granted: bool) returns (num: int)
    requires len <= freqArray.Length
    modifies freqArray
    ensures freqArray[len..] == old(freqArray[len..])
    ensures !granted ==> num == -1 && forall k :: 0 <= k < len ==> freqArray[k] == 0
    ensures granted ==>
              var all := Distinct(fs, |fs|);
              && num == Min(|all|, len)
              && freqArray[..num] == all[..num]
              && forall k :: num <= k < len ==> freqArray[k] == 0
  {
    forall k | 0 <= k < len {
      freqArray[k] := 0;
    }
    if !granted {
      return -1;
    }
    var data := new UsedFreq[len](_ => UNUSED);
    hide Records;
    var n := GetSharedRadioFreqsData(fs, data, len);
    VisitedSuffices(fs, len, 0);
    ghost var got := Distinct(fs, Visited(fs, len, 0));
    for i := 0 to n
      invariant Shows(data[..], fs, Visited(fs, len, 0))
      invariant freqArray[..i] == got[..i] && freqArray[len..] == old(freqArray[len..])
      invariant forall k :: i <= k < len ==> freqArray[k] == 0
    {
      assert data[..][i] == data[i] && got[..i + 1] == got[..i] + [got[i]];
      freqArray[i] := data[i].freq;
    }
    return n;
  }
}
