/** The block log: an append-only file of packed blocks and an index of fixed-size entries by block number. */
module BlockLog {
  import opened Common
  import opened Blocks

  type Byte = bv8

  datatype Entry = Entry(pos: nat, size: nat, id: BlockId)

  /** What a hole in the index file reads as. */
  const HOLE := Entry(0, 0, ZERO_ID)

  /** Packing and unpacking: an inverse pair, with at least one byte for every block and no block for no bytes. */
  datatype Codec = Codec(pack: Block -> seq<Byte>, unpack: seq<Byte> -> Option<Block>)

  ghost predicate Faithful(c: Codec) {
    (forall b :: c.pack(b) != [] && c.unpack(c.pack(b)) == Some(b)) && c.unpack([]).None?
  }

  /** Writing an entry past the end of the file leaves holes before it. */
  function Written(index: seq<Entry>, num: nat, e: Entry): (r: seq<Entry>)
    ensures |r| == (if num < |index| then |index| else num + 1) && r[num] == e
    ensures forall i :: 0 <= i < |r| && i != num ==> r[i] == if i < |index| then index[i] else HOLE
  {
    if num < |index| then index[num := e]
    else index + seq(num - |index|, i => HOLE) + [e]
  }

  class BlockDatabase {
    const codec: Codec
    var index: seq<Entry>
    var data: seq<Byte>
    /** The blocks stored and not removed, by number. */
    ghost var content: map<nat, Block>

    /** Entry n stands for the block in `content`, or for none. */
    ghost predicate Represents(n: nat)
      requires n < |index|
      reads this
    {
      var e := index[n];
      if n in content then
        && content[n].Num() == n && e.id == content[n].Id()
        && e.size == |codec.pack(content[n])| > 0 && e.pos + e.size <= |data|
        && data[e.pos..e.pos + e.size] == codec.pack(content[n])
      else e.size == 0 && e.pos <= |data|
    }

    ghost predicate Valid()
      reads this
    {
      && Faithful(codec)
      && (forall n <- content :: n < |index|)
      && (forall n :: 0 <= n < |index| ==> Represents(n))
    }

    ghost predicate Has(id: BlockId)
      reads this
    {
      id.num in content && content[id.num].Id() == id
    }

    constructor (c: Codec)
      requires Faithful(c)
      ensures Valid() && content == map[] && codec == c
    {
      codec, index, data, content := c, [], [], map[];
    }

    /** Append the block and point the entry of its number at it. */
    method Store(id: BlockId, b: Block)
      requires Valid() && (id == b.Id() || id == ZERO_ID)
      modifies this
      ensures Valid() && content == old(content)[b.Num() := b]
      ensures old(data) <= data
    {
      var key := if id == ZERO_ID then b.Id() else id;
      var vec := codec.pack(b);
      assert codec.unpack(vec) == Some(b);
      var e := Entry(|data|, |vec|, key);
      ghost var before, stored := data, index;
      data := data + vec;
      index := Written(index, key.num, e);
      content := content[b.Num() := b];
      forall n | 0 <= n < |index| ensures Represents(n) {
        if n == b.Num() {
          assert data[e.pos..e.pos + e.size] == vec;
        } else if n < |stored| {
          assert old(Represents(n));
          assert n in content ==>
              data[index[n].pos..index[n].pos + index[n].size] == before[index[n].pos..index[n].pos + index[n].size];
        }
      }
    }

    /** Blank the entry if it still belongs to this block; unknown numbers throw. */
    method Remove(id: BlockId) returns (ok: bool)
      requires Valid()
      modifies this`index, this`content
      ensures Valid() && ok == (id.num < |old(index)|) && |index| == |old(index)|
      ensures content == if old(Has(id)) then old(content) - {id.num} else old(content)
    {
      if |index| <= id.num { return false; }
      var e := index[id.num];
      assert Represents(id.num);
      if e.id == id {
        index := index[id.num := e.(size := 0)];
        content := content - {id.num};
        forall n | 0 <= n < |index| ensures Represents(n) {
          assert old(Represents(n));
        }
      }
      return true;
    }

    method Contains(id: BlockId) returns (r: bool)
      requires Valid()
      ensures r == Has(id)
    {
      if id == ZERO_ID {
        assert 0 in content ==> Represents(0);
        return false;
      }
      if |index| <= id.num { return false; }
      assert Represents(id.num);
      var e := index[id.num];
      return e.id == id && e.size > 0;
    }

    /** Read an entry's bytes and check that they are the block they claim to be. */
    method Load(n: nat) returns (r: Option<Block>)
      requires Valid() && n < |index|
      ensures r == if n in content then Some(content[n]) else None
    {
      assert Represents(n);
      var e := index[n];
      var bytes := data[e.pos..e.pos + e.size];
      r := codec.unpack(bytes);
      if n in content {
        assert codec.unpack(codec.pack(content[n])) == Some(content[n]);
      }
      if r.Some? && r.value.Id() != e.id { r := None; }
    }

    method FetchOptional(id: BlockId) returns (r: Option<Block>)
      requires Valid()
      ensures r == if Has(id) then Some(content[id.num]) else None
    {
      if |index| <= id.num { return None; }
      assert Represents(id.num);
      if index[id.num].id != id { return None; }
      r := Load(id.num);
    }

    method FetchByNumber(num: nat) returns (r: Option<Block>)
      requires Valid()
      ensures r == if num in content then Some(content[num]) else None
    {
      if |index| <= num { return None; }
      r := Load(num);
    }

    /** The entry with the highest number that is not blank, looking backwards from the end. */
    method LastEntry() returns (n: Option<nat>)
      requires Valid()
      ensures n.None? ==> content == map[]
      ensures n.Some? ==> n.value in content && n.value < |index| && forall k <- content :: k <= n.value
    {
      if |index| < 1 { return None; }
      var pos := |index|;
      var at := |index| - 1;
      while index[at].size == 0 && pos > 0
        invariant 0 <= pos <= |index| && 0 <= at < |index|
        invariant at == pos || (pos == |index| && at == pos - 1)
        invariant forall k <- content :: k <= at
        decreases pos
      {
        assert Represents(at);
        pos := pos - 1;
        at := pos;
      }
      assert Represents(at);
      if index[at].size == 0 { return None; }
      return Some(at);
    }

    method LastBlock() returns (r: Option<Block>)
      requires Valid()
      ensures r.None? <==> content == map[]
      ensures r.Some? ==>
        r.value.Num() in content && content[r.value.Num()] == r.value && forall k <- content :: k <= r.value.Num()
    {
      var n := LastEntry();
      if n.None? { return None; }
      assert Represents(n.value);
      r := Load(n.value);
    }

    method LastId() returns (r: Option<BlockId>)
      requires Valid()
      ensures r.None? <==> content == map[]
      ensures r.Some? ==> Has(r.value) && forall k <- content :: k <= r.value.num
    {
      var n := LastEntry();
      if n.None? { return None; }
      assert Represents(n.value);
      return Some(index[n.value].id);
    }

    /** Remove from the end until nothing lies above the gap. */
    method DropAfterGap(gap: nat) returns (dropped: nat)
      requires Valid() && gap !in content
      modifies this`index, this`content
      ensures Valid()
      ensures content == map n | n in old(content) && n < gap :: old(content)[n]
      ensures |content| + dropped == |old(content)|
    {
      dropped := 0;
      while true
        invariant Valid()
        invariant forall n <- content :: n in old(content) && content[n] == old(content)[n]
        invariant forall n <- old(content) :: n <= gap ==> n in content
        invariant |content| + dropped == |old(content)|
        decreases |content|
      {
        var last := LastId();
        if last.None? || last.value.num <= gap { break; }
        ghost var before := content;
        var ok := Remove(last.value);
        assert before.Keys == content.Keys + {last.value.num};
        assert |before| == |before.Keys| && |content| == |content.Keys|;
        dropped := dropped + 1;
      }
    }

    /** Replay the log from block 1; at the first missing block, drop what lies above it and stop. */
    method Replay() returns (applied: seq<Block>)
      requires Valid()
      modifies this`index, this`content
      ensures Valid()
      ensures forall n :: 1 <= n <= |applied| ==> n in old(content) && applied[n - 1] == old(content)[n]
      ensures content == map n | n in old(content) && n <= |applied| :: old(content)[n]
      ensures forall n :: 1 <= n <= |applied| ==> n in content
      ensures |applied| + 1 !in old(content)
    {
      applied := [];
      assert 0 in content ==> Represents(0);
      var last := LastBlock();
      if last.None? { return; }
      var i := 1;
      while i <= last.value.Num()
        invariant Valid() && content == old(content) && 1 <= i <= last.value.Num() + 1 && |applied| == i - 1
        invariant forall n :: 1 <= n <= |applied| ==> n in content && applied[n - 1] == content[n]
      {
        var block := FetchByNumber(i);
        if block.None? {
          var dropped := DropAfterGap(i);
          return;
        }
        applied := applied + [block.value];
        i := i + 1;
      }
    }
  }
}
