/** WifiRequest: an attribute message that grows by puts and nests, closed by back-patching. */
module Requests {
  import opened Prelude
  import opened Netlink

  /** A 32-bit integer attribute. */
  function IntBytes(typ: uint16, v: int32): (r: seq<byte>)
    ensures |r| == 8
  {
    Le16(8) + Le16(typ) + Le32(ToUint32(v))
  }

  /** A nest around a body whose length is a multiple of 4. */
  function NestBytes(typ: uint16, body: seq<byte>): (r: seq<byte>)
    ensures |r| == NLA_HDRLEN + |body|
  {
    Le16(Truncate(NLA_HDRLEN + |body|)) + Le16(typ) + body
  }

  /** A nest header before its length is known. */
  function Open(typ: uint16): (r: seq<byte>)
    ensures |r| == NLA_HDRLEN
  {
    Le16(NLA_HDRLEN) + Le16(typ)
  }

  /** A message under construction. nm_size bounds it; a size below 64 KiB keeps every attribute
      length within its 16-bit field. */
  class WifiRequest {
    var msg: seq<byte>
    const size: nat

    ghost predicate Valid()
      reads this
    {
      Aligned(|msg|) && |msg| <= size < 0x1_0000
    }

    /** contents: what create() left in the message. */
    constructor (contents: seq<byte>, size: nat)
      requires Aligned(|contents|) && |contents| <= size < 0x1_0000
      ensures Valid() && msg == contents && this.size == size
    {
      msg := contents;
      this.size := size;
    }

    /** nla_put of an integer: fails without changing the message when it does not fit. */
    method PutU32(attribute: uint16, value: int32) returns (result: int)
      requires Valid()
      modifies this
      ensures Valid()
      ensures Appended(result, old(msg), IntBytes(attribute, value))
    {
      if |msg| + 8 > size {
        return -NLE_NOMEM;
      }
      AlignedSum(|msg|, 8);
      msg := msg + IntBytes(attribute, value);
      return 0;
    }

    /** nla_nest_start: the offset of the new header, or None for NULL. */
    method AttrStart(attribute: uint16) returns (start: Option<nat>)
      requires Valid()
      modifies this
      ensures Valid()
      ensures start == if |old(msg)| + NLA_HDRLEN <= size then Some(|old(msg)|) else None
      ensures msg == if start.Some? then old(msg) + Open(attribute) else old(msg)
    {
      if |msg| + NLA_HDRLEN > size {
        return None;
      }
      start := Some(|msg|);
      AlignedSum(|msg|, NLA_HDRLEN);
      msg := msg + Open(attribute);
    }

    /** nla_nest_end: writes the length of everything since start into its header. */
    method AttrEnd(start: nat)
      requires Valid() && start + NLA_HDRLEN <= |msg|
      modifies this
      ensures Valid()
      ensures msg == CloseAt(old(msg), start)
    {
      var len := Le16(Truncate(|msg| - start));
      msg := msg[start := len[0]][start + 1 := len[1]];
    }

    /** The put succeeded, appending bytes, or failed because they do not fit. */
    ghost predicate Appended(result: int, before: seq<byte>, bytes: seq<byte>)
      reads this
    {
      && (result == 0 || result == -NLE_NOMEM)
      && (result == 0 <==> |before| + |bytes| <= size)
      && (result == 0 ==> msg == before + bytes)
    }
  }

  lemma ConcatAssociates(a: seq<byte>, b: seq<byte>, c: seq<byte>)
    ensures a + b + c == a + (b + c)
  {
  }

  /** The message with the length of everything since start written into the header at start. */
  function CloseAt(msg: seq<byte>, start: nat): seq<byte>
    requires start + NLA_HDRLEN <= |msg|
  {
    msg[..start] + Le16(Truncate(|msg| - start)) + msg[start + 2..]
  }

  /** Closing an open nest completes it. */
  lemma ClosedNest(before: seq<byte>, typ: uint16, body: seq<byte>)
    ensures CloseAt(before + Open(typ) + body, |before|) == before + NestBytes(typ, body)
  {
    var msg := before + Open(typ) + body;
    assert msg[..|before|] == before;
    assert msg[|before| + 2..] == Le16(typ) + body;
  }
}
