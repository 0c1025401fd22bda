/** The table of outstanding commands: an ordered list kept in a bounded array. */
module Commands {
  import opened Prelude

  datatype CmdInfo = CmdInfo(id: int32, cmd: nat)

  // ---------------------------------------------------------------- specification functions

  /** Index of the first entry with this id, or |cs|. */
  function IndexOfId(cs: seq<CmdInfo>, id: int32): (i: nat)
    ensures i <= |cs|
    ensures i < |cs| ==> cs[i].id == id
    ensures forall j :: 0 <= j < i ==> cs[j].id != id
  {
    if cs == [] || cs[0].id == id then 0 else 1 + IndexOfId(cs[1..], id)
  }

  /** Index of the first entry pointing at this command, or |cs|. */
  function IndexOfCmd(cs: seq<CmdInfo>, cmd: nat): (i: nat)
    ensures i <= |cs|
    ensures i < |cs| ==> cs[i].cmd == cmd
    ensures forall j :: 0 <= j < i ==> cs[j].cmd != cmd
  {
    if cs == [] || cs[0].cmd == cmd then 0 else 1 + IndexOfCmd(cs[1..], cmd)
  }

  /** The list without entry i; the list itself when i is past its end. */
  function Without(cs: seq<CmdInfo>, i: nat): seq<CmdInfo>
    requires i <= |cs|
  {
    if i == |cs| then cs else cs[..i] + cs[i + 1..]
  }

  function Find(cs: seq<CmdInfo>, id: int32): Option<nat> {
    var i := IndexOfId(cs, id);
    if i == |cs| then None else Some(cs[i].cmd)
  }

  /** The memory a block move of n entries down onto entry i leaves behind. */
  function Shift(cells: seq<CmdInfo>, i: nat, n: nat): seq<CmdInfo>
    requires i + 1 + n <= |cells|
  {
    cells[..i] + cells[i + 1..i + 1 + n] + cells[i + n..]
  }

  /** The unregister routines move num - i entries where num - i - 1 would do. The longer move
      stays inside the allocation exactly when the table is not full, and then both leave the
      same live list. */
  lemma LongShiftAgrees(cells: seq<CmdInfo>, i: nat, num: nat)
    requires i < num <= |cells|
    ensures i + 1 + (num - i) <= |cells| <==> num < |cells|
    ensures Shift(cells, i, num - i - 1)[..num - 1] == Without(cells[..num], i)
    ensures num < |cells| ==> Shift(cells, i, num - i)[..num - 1] == Shift(cells, i, num - i - 1)[..num - 1]
  {
    assert Shift(cells, i, num - i - 1)[..num - 1] == cells[..num][..i] + cells[..num][i + 1..];
  }

  lemma {:induction false} FindConcat(a: seq<CmdInfo>, b: seq<CmdInfo>, id: int32)
    ensures Find(a + b, id) == if Find(a, id).Some? then Find(a, id) else Find(b, id)
  {
    if a == [] {
      assert a + b == b;
    } else {
      assert (a + b)[1..] == a[1..] + b;
      FindConcat(a[1..], b, id);
    }
  }

  lemma SplitFind(pre: seq<CmdInfo>, e: CmdInfo, post: seq<CmdInfo>, id: int32)
    ensures Find(pre + [e] + post, id) ==
            if Find(pre, id).Some? then Find(pre, id) else if e.id == id then Some(e.cmd) else Find(post, id)
  {
    FindConcat(pre + [e], post, id);
    FindConcat(pre, [e], id);
    assert [e][1..] == [];
  }

  /** After a removal by id, lookups of other ids are unchanged and a lookup of the same id finds
      the entry registered next under it, if any. */
  lemma RemovedThenFound(cs: seq<CmdInfo>, id: int32, other: int32)
    ensures var i := IndexOfId(cs, id);
            Find(Without(cs, i), other) ==
            if other == id && i < |cs| then Find(cs[i + 1..], id) else Find(cs, other)
  {
    var i := IndexOfId(cs, id);
    if i < |cs| {
      var pre, e, post := cs[..i], cs[i], cs[i + 1..];
      assert cs == pre + [e] + post;
      assert forall j :: 0 <= j < |pre| ==> pre[j].id != id;
      SplitFind(pre, e, post, other);
      FindConcat(pre, post, other);
    }
  }

  // ---------------------------------------------------------------- the table itself

  class CommandTable {
    /** The allocation of allocCmd cells followed by the one foreign cell that a move out of a full
        table also reads; the routines never write there. */
    var cells: array<CmdInfo>
    var numCmd: nat
    const allocCmd: nat

    ghost predicate Valid()
      reads this, cells
    {
      cells.Length == allocCmd + 1 && numCmd <= allocCmd
    }

    ghost function Live(): seq<CmdInfo>
      reads this, cells
      requires Valid()
    {
      cells[..numCmd]
    }

    constructor (alloc: nat, foreign: CmdInfo)
      ensures Valid() && Live() == [] && allocCmd == alloc && fresh(cells)
    {
      allocCmd := alloc;
      cells := new CmdInfo[alloc + 1](_ => foreign);
      numCmd := 0;
    }

    method Register(id: int32, cmd: nat) returns (ok: bool)
      requires Valid()
      modifies this`numCmd, cells
      ensures Valid() && cells == old(cells)
      ensures ok <==> old(numCmd) < allocCmd
      ensures Live() == if ok then old(Live()) + [CmdInfo(id, cmd)] else old(Live())
      ensures cells[allocCmd] == old(cells[allocCmd])
    {
      ok := false;
      if numCmd < allocCmd {
        cells[numCmd] := CmdInfo(id, cmd);
        numCmd := numCmd + 1;
        ok := true;
      }
    }

    /** memmove(&cmd[i], &cmd[i+1], (num_cmd - i) entries); num_cmd--. */
    method RemoveAt(i: nat)
      requires Valid() && i < numCmd
      modifies this`numCmd, cells
      ensures Valid() && cells == old(cells)
      ensures Live() == Without(old(Live()), i)
      ensures cells[allocCmd] == old(cells[allocCmd])
    {
      ghost var before := cells[..];
      MemMove(cells, i, i + 1, numCmd - i);
      LongShiftAgrees(before, i, numCmd);
      assert cells[..] == Shift(before, i, numCmd - i);
      assert before[..numCmd] == old(Live());
      numCmd := numCmd - 1;
      assert Live() == cells[..][..numCmd];
    }

    method UnregisterById(id: int32) returns (cmd: Option<nat>)
      requires Valid()
      modifies this`numCmd, cells
      ensures Valid() && cells == old(cells)
      ensures cmd == Find(old(Live()), id)
      ensures Live() == Without(old(Live()), IndexOfId(old(Live()), id))
      ensures cells[allocCmd] == old(cells[allocCmd])
    {
      cmd := None;
      for i := 0 to numCmd
        invariant unchanged(this) && unchanged(cells)
        invariant forall j :: 0 <= j < i ==> cells[j].id != id
      {
        if cells[i].id == id {
          cmd := Some(cells[i].cmd);
          assert IndexOfId(Live(), id) == i;
          RemoveAt(i);
          return;
        }
      }
      assert IndexOfId(Live(), id) == numCmd;
    }

    method UnregisterByCmd(cmd: nat)
      requires Valid()
      modifies this`numCmd, cells
      ensures Valid() && cells == old(cells)
      ensures Live() == Without(old(Live()), IndexOfCmd(old(Live()), cmd))
      ensures cells[allocCmd] == old(cells[allocCmd])
    {
      for i := 0 to numCmd
        invariant unchanged(this) && unchanged(cells)
        invariant forall j :: 0 <= j < i ==> cells[j].cmd != cmd
      {
        if cells[i].cmd == cmd {
          assert IndexOfCmd(Live(), cmd) == i;
          RemoveAt(i);
          return;
        }
      }
      assert IndexOfCmd(Live(), cmd) == numCmd;
    }

    method Get(id: int32) returns (cmd: Option<nat>)
      requires Valid()
      ensures cmd == Find(Live(), id)
    {
      cmd := None;
      for i := 0 to numCmd
        invariant forall j :: 0 <= j < i ==> cells[j].id != id
      {
        if cells[i].id == id {
          assert IndexOfId(Live(), id) == i;
          return Some(cells[i].cmd);
        }
      }
      assert IndexOfId(Live(), id) == numCmd;
    }
  }
}
