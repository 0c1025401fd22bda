/** Forcing a P2P device onto one channel (SCC) and letting it choose again (MCC). */
module P2pChannels {
  import opened Prelude

  datatype Channel = Channel(opClass: byte, number: byte)

  /** Class and number of a frequency; None where the source returns -1 and assigns nothing. */
  function FreqToChannel(freq: uint32): Option<Channel> {
    if 2412 <= freq <= 2472 then
      if (freq - 2407) % 5 != 0 then None else Some(Channel(81, (freq - 2407) / 5))
    else if freq == 2484 then Some(Channel(82, 14))
    else if 5180 <= freq <= 5240 then
      if (freq - 5000) % 5 != 0 then None else Some(Channel(115, (freq - 5000) / 5))
    else if 5745 <= freq <= 5805 then
      if (freq - 5000) % 5 != 0 then None else Some(Channel(124, (freq - 5000) / 5))
    else None
  }

  /** Centre frequency in MHz of a channel of one of these classes: the class's starting frequency in
      Table E-4 of Annex E of IEEE 802.11-2012, plus 5 MHz per number. */
  function Frequency(c: Channel): Option<nat> {
    if c.opClass == 81 then Some(2407 + 5 * c.number)
    else if c.opClass == 82 then Some(2414 + 5 * c.number)
    else if c.opClass == 115 || c.opClass == 124 then Some(5000 + 5 * c.number)
    else None
  }

  /** The channel set Table E-4 lists for these classes. */
  predicate Listed(c: Channel) {
    || (c.opClass == 81 && 1 <= c.number <= 13)
    || (c.opClass == 82 && c.number == 14)
    || (c.opClass == 115 && c.number in {36, 40, 44, 48})
    || (c.opClass == 124 && c.number in {149, 153, 157, 161})
  }

  /** The channel numbers the conversion can produce: in the two 5 GHz classes every number of the
      range, not only the listed ones. */
  predicate InRange(c: Channel) {
    || (c.opClass == 81 && 1 <= c.number <= 13)
    || (c.opClass == 82 && c.number == 14)
    || (c.opClass == 115 && 36 <= c.number <= 48)
    || (c.opClass == 124 && 149 <= c.number <= 161)
  }

  /** The conversion and Table E-4 are inverse to each other over the ranges. */
  lemma ConversionInverts(freq: uint32, c: Channel)
    ensures FreqToChannel(freq) == Some(c) <==> InRange(c) && Frequency(c) == Some(freq)
  {
  }

  /** Every listed channel is reached from its own frequency. */
  lemma ListedRoundTrip(c: Channel)
    requires Listed(c)
    ensures FreqToChannel(Frequency(c).value) == Some(c)
  {
    ConversionInverts(Frequency(c).value, c);
  }

  /** A recognised frequency gives a listed channel exactly when, in the 5 GHz classes, it is a multiple
      of 20 MHz away from the first channel. */
  lemma ListedIff(freq: uint32)
    requires FreqToChannel(freq) != None
    ensures Listed(FreqToChannel(freq).value) <==>
            freq <= 2484 || (freq <= 5240 && (freq - 5180) % 20 == 0) || (freq >= 5745 && (freq - 5745) % 20 == 0)
  {
  }

  // ---------------------------------------------------------------- the P2P data

  /** One class of struct p2p_channels; count of the numbers are in use. */
  datatype RegClass = RegClass(regClass: byte, count: nat, numbers: seq<byte>)

  /** struct p2p_channels: fixed arrays with counts of the cells in use. */
  datatype ChannelSetSpec = ChannelSet(count: nat, classes: seq<RegClass>)

  predicate Sized(s: ChannelSetSpec) {
    && 0 < |s.classes| && s.count <= |s.classes| && 0 < |s.classes[0].numbers|
    && forall i :: 0 <= i < |s.classes| ==> s.classes[i].count <= |s.classes[i].numbers|
  }

  type Channels = s: ChannelSetSpec | Sized(s)
    witness ChannelSet(0, [RegClass(0, 0, [0])])

  /** The channels a set allows. */
  ghost predicate Allows(s: Channels, c: Channel) {
    exists i, j :: 0 <= i < s.count && 0 <= j < s.classes[i].count
      && s.classes[i].regClass == c.opClass && s.classes[i].numbers[j] == c.number
  }

  /** struct p2p_data with its configuration: the channel operated on, the channels allowed now, and
      the configured flag and channels. */
  datatype State = State(op: Channel, channels: Channels, cfgOpChannel: bool, cfgChannels: Channels)

  /** The configured operating channel of the interface. */
  datatype Conf = Conf(operRegClass: int, operChannel: int)

  /** One call. garbage is what the two uninitialised locals happen to hold, random what the random
      number generator returns. */
  datatype Call = Call(scc: bool, freq: uint32, garbage: Channel, random: uint32)

  /** Assignment of an int to a u8. */
  function ToByte(x: int): byte {
    x % 256
  }

  predicate IsScc(call: Call) {
    call.scc && call.freq != 0
  }

  function Forced(call: Call): Channel {
    match FreqToChannel(call.freq)
    case Some(c) => c
    case None => call.garbage
  }

  function OnlyFirst(s: Channels, c: Channel): Channels {
    var first := s.classes[0].(regClass := c.opClass, count := 1, numbers := s.classes[0].numbers[0 := c.number]);
    ChannelSet(1, s.classes[0 := first])
  }

  function Switch(s: State, conf: Conf, call: Call): State {
    if IsScc(call) then s.(op := Forced(call), channels := OnlyFirst(s.channels, Forced(call)))
    else if conf.operRegClass != 0 && conf.operChannel != 0 then
      s.(op := Channel(ToByte(conf.operRegClass), ToByte(conf.operChannel)), cfgOpChannel := true,
         channels := s.cfgChannels)
    else s.(op := Channel(81, 1 + call.random % 3 * 5), cfgOpChannel := false, channels := s.cfgChannels)
  }

  function SwitchAll(s: State, conf: Conf, calls: seq<Call>): State
    decreases |calls|
  {
    if calls == [] then s else SwitchAll(Switch(s, conf, calls[0]), conf, calls[1..])
  }

  lemma OnlyFirstAllows(s: Channels, c: Channel, d: Channel)
    ensures Allows(OnlyFirst(s, c), d) <==> d == c
    ensures var r := OnlyFirst(s, c);
            && r.classes[1..] == s.classes[1..] && r.classes[0].numbers[1..] == s.classes[0].numbers[1..]
  {
    var r := OnlyFirst(s, c);
    assert r.classes[0].numbers[0] == c.number;
  }

  lemma {:induction false} LastCall(s: State, conf: Conf, calls: seq<Call>, last: Call)
    ensures SwitchAll(s, conf, calls + [last]) == Switch(SwitchAll(s, conf, calls), conf, last)
    decreases |calls|
  {
    if calls == [] {
      assert ([last])[1..] == [];
    } else {
      assert (calls + [last])[0] == calls[0] && (calls + [last])[1..] == calls[1..] + [last];
      LastCall(Switch(s, conf, calls[0]), conf, calls[1..], last);
    }
  }

  /** After any calls and then SCC on a recognised frequency, the only channel allowed, and operated on,
      is the one whose frequency that is. */
  lemma SccForces(s: State, conf: Conf, calls: seq<Call>, last: Call, c: Channel)
    requires last.scc && last.freq != 0 && FreqToChannel(last.freq) != None
    ensures var r := SwitchAll(s, conf, calls + [last]);
            && Frequency(r.op) == Some(last.freq)
            && (Allows(r.channels, c) <==> c == r.op)
  {
    LastCall(s, conf, calls, last);
    ConversionInverts(last.freq, FreqToChannel(last.freq).value);
    OnlyFirstAllows(SwitchAll(s, conf, calls).channels, FreqToChannel(last.freq).value, c);
  }

  /** On a frequency that is not recognised the two locals decide: the channel operated on has the
      requested frequency exactly if they happened to hold it. */
  lemma SccUnrecognisedIff(s: State, conf: Conf, calls: seq<Call>, last: Call)
    requires last.scc && last.freq != 0
    ensures Frequency(SwitchAll(s, conf, calls + [last]).op) == Some(last.freq)
       <==> FreqToChannel(last.freq) != None || Frequency(last.garbage) == Some(last.freq)
  {
    LastCall(s, conf, calls, last);
    if FreqToChannel(last.freq) != None {
      ConversionInverts(last.freq, FreqToChannel(last.freq).value);
    }
  }

  /** No call touches the configured channels; SCC leaves the configured flag alone too. */
  lemma {:induction false} ConfigurationKept(s: State, conf: Conf, calls: seq<Call>)
    ensures SwitchAll(s, conf, calls).cfgChannels == s.cfgChannels
    ensures (forall i :: 0 <= i < |calls| ==> calls[i].scc && calls[i].freq != 0) ==>
              SwitchAll(s, conf, calls).cfgOpChannel == s.cfgOpChannel
    decreases |calls|
  {
    if calls != [] {
      ConfigurationKept(Switch(s, conf, calls[0]), conf, calls[1..]);
    }
  }

  /** MCC undoes everything: whatever calls came before, the whole state is as if it were the first call,
      the channel set is the one configured at the start, a configured channel is operated on as the bytes
      of its class and number, and an unconfigured one is 1, 6 or 11 of class 81, as the random number has
      remainder 0, 1 or 2. */
  lemma MccUndoes(s: State, conf: Conf, calls: seq<Call>, last: Call)
    requires !last.scc || last.freq == 0
    ensures var r := SwitchAll(s, conf, calls + [last]);
            && r == Switch(s, conf, last)
            && r.channels == r.cfgChannels == s.cfgChannels
            && (r.cfgOpChannel <==> conf.operRegClass != 0 && conf.operChannel != 0)
            && (r.cfgOpChannel ==> r.op.opClass == conf.operRegClass % 256 && r.op.number == conf.operChannel % 256)
            && (!r.cfgOpChannel ==>
                  && r.op.opClass == 81 && Listed(r.op)
                  && r.op.number == [1, 6, 11][last.random % 3])
  {
    LastCall(s, conf, calls, last);
    ConfigurationKept(s, conf, calls);
  }

  // ---------------------------------------------------------------- the routines

  /** opClass and channel come back as they went in when -1 is returned. */
  method PrivP2pFreqToChannel(freq: uint32, opClass: byte, channel: byte) returns (ret: int, opClass': byte, channel': byte)
    ensures ret == if FreqToChannel(freq) == None then -1 else 0
    ensures Channel(opClass', channel') ==
            if FreqToChannel(freq) == None then Channel(opClass, channel) else FreqToChannel(freq).value
  {
    opClass', channel' := opClass, channel;
    if freq >= 2412 && freq <= 2472 {
      if (freq - 2407) % 5 != 0 {
        return -1, opClass, channel;
      }
      return 0, 81, (freq - 2407) / 5;
    }
    if freq == 2484 {
      return 0, 82, 14;
    }
    if freq >= 5180 && freq <= 5240 {
      if (freq - 5000) % 5 != 0 {
        return -1, opClass, channel;
      }
      return 0, 115, (freq - 5000) / 5;
    }
    if freq >= 5745 && freq <= 5805 {
      if (freq - 5000) % 5 != 0 {
        return -1, opClass, channel;
      }
      return 0, 124, (freq - 5000) / 5;
    }
    return -1, opClass, channel;
  }

  /** struct p2p_data, with the part of its configuration that is used. */
  class P2pData {
    var opRegClass: byte
    var opChannel: byte
    var channels: Channels
    var cfgOpChannel: bool
    var cfgChannels: Channels

    ghost function Now(): State
      reads this
    {
      State(Channel(opRegClass, opChannel), channels, cfgOpChannel, cfgChannels)
    }

    constructor (channels: Channels, cfgChannels: Channels)
      ensures Now() == State(Channel(0, 0), channels, false, cfgChannels)
    {
      opRegClass, opChannel, cfgOpChannel := 0, 0, false;
      this.channels, this.cfgChannels := channels, cfgChannels;
    }
  }

  class WpaSupplicant {
    const p2p: P2pData?
    const operRegClass: int
    const operChannel: int

    constructor (p2p: P2pData?, operRegClass: int, operChannel: int)
      ensures this.p2p == p2p && this.operRegClass == operRegClass && this.operChannel == operChannel
    {
      this.p2p, this.operRegClass, this.operChannel := p2p, operRegClass, operChannel;
    }

    /** garbageClass and garbageChannel are the initial contents of the two locals. */
    method P2pWfdSinkConfigScc(scc: bool, operFreq: uint32, garbageClass: byte, garbageChannel: byte, random: uint32)
      returns (ret: int)
      modifies if p2p == null then {} else {p2p}
      ensures ret == 0
      ensures p2p != null ==>
                p2p.Now() == Switch(old(p2p.Now()), Conf(operRegClass, operChannel),
                                    Call(scc, operFreq, Channel(garbageClass, garbageChannel), random))
    {
      ret := 0;
      if p2p == null {
        return;
      }
      if scc && operFreq != 0 {
        var _, opRegClass, opChannel := PrivP2pFreqToChannel(operFreq, garbageClass, garbageChannel);
        p2p.opChannel := opChannel;
        p2p.opRegClass := opRegClass;
        p2p.channels := OnlyFirst(p2p.channels, Channel(opRegClass, opChannel));
        return;
      }
      if operRegClass != 0 && operChannel != 0 {
        p2p.opRegClass := ToByte(operRegClass);
        p2p.opChannel := ToByte(operChannel);
        p2p.cfgOpChannel := true;
      } else {
        p2p.opRegClass := 81;
        p2p.opChannel := 1 + random % 3 * 5;
        p2p.cfgOpChannel := false;
      }
      p2p.channels := p2p.cfgChannels;
    }
  }
}
