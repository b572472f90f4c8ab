/** block.c: cells of one size, handed out from blocks of 32 with a bit map each. */
module Slab {
  import opened Seqs
  import opened Ring

  const TBL_SIZE := 32

  type BlockId = nat

  /** struct _block_tbl_t: where its memory starts, and which cells are in use. */
  datatype Block = Block(base: nat, bits: seq<bool>)

  type Blocks = map<BlockId, Block>

  ghost predicate BlocksOk(s: seq<BlockId>, bs: Blocks, size: nat) {
    && (forall x :: x in s <==> x in bs)
    && (forall x :: x in bs ==> |bs[x].bits| == TBL_SIZE)
    && (forall x, y :: x in bs && y in bs && x != y ==> RegionsApart(bs[x].base, bs[y].base, size))
  }

  predicate RegionsApart(a: nat, b: nat, size: nat) {
    a + size * TBL_SIZE <= b || b + size * TBL_SIZE <= a
  }

  /** A cell in use: its block and its number there. */
  datatype Cell = Cell(block: BlockId, i: nat)

  ghost predicate InUse(s: seq<BlockId>, bs: Blocks, c: Cell) {
    c.block in s && c.block in bs && c.i < |bs[c.block].bits| && bs[c.block].bits[c.i]
  }

  function Address(bs: Blocks, size: nat, c: Cell): nat
    requires c.block in bs
  {
    bs[c.block].base + size * c.i
  }

  // ---------- cells do not overlap ----------

  lemma {:induction false} CellsInOrder(size: nat, i: nat, j: nat)
    requires i < j
    ensures size * i + size <= size * j
    decreases j
  {
    assert size * j == size * (j - 1) + size;
    if i < j - 1 {
      CellsInOrder(size, i, j - 1);
    }
  }

  /** Two different cells in use never share a byte. */
  lemma CellsApart(s: seq<BlockId>, bs: Blocks, size: nat, c: Cell, d: Cell)
    requires BlocksOk(s, bs, size) && InUse(s, bs, c) && InUse(s, bs, d) && c != d
    ensures Address(bs, size, c) + size <= Address(bs, size, d) || Address(bs, size, d) + size <= Address(bs, size, c)
  {
    CellsInOrder(size, c.i, TBL_SIZE);
    CellsInOrder(size, d.i, TBL_SIZE);
    if c.block == d.block {
      if c.i < d.i {
        CellsInOrder(size, c.i, d.i);
      } else {
        CellsInOrder(size, d.i, c.i);
      }
    }
  }

  /** The cell that an address in a region belongs to. */
  lemma CellAt(size: nat, x: nat)
    requires size > 0 && x < size * TBL_SIZE
    ensures 0 <= x / size < TBL_SIZE && size * (x / size) <= x < size * (x / size) + size
  {
    var q := x / size;
    assert x == size * q + x % size;
    NoLess(size, TBL_SIZE, q);
  }

  lemma NoLess(size: nat, i: nat, j: nat)
    ensures i <= j ==> size * i <= size * j
  {
    if i < j {
      CellsInOrder(size, i, j);
    }
  }

  /** A region that overlaps no block. */
  lemma FreeRegion(bs: Blocks, size: nat) returns (b: nat)
    ensures forall x :: x in bs ==> RegionsApart(bs[x].base, b, size)
  {
    var bases := set x | x in bs :: bs[x].base;
    var z := FreeAddress(bases);
    b := z + size * TBL_SIZE;
    forall x | x in bs
      ensures RegionsApart(bs[x].base, b, size)
    {
      assert bs[x].base in bases;
    }
  }

  class Slab {
    const size: nat
    const ring: Ring<BlockId>
    var blocks: Blocks
    ghost var live: set<Cell>            // the bits that are set

    ghost predicate Sound()
      reads `blocks, ring
    {
      ring.Valid() && size > 0 && BlocksOk(ring.elems, blocks, size)
    }

    ghost predicate Valid()
      reads this, ring
    {
      Sound() && forall c :: InUse(ring.elems, blocks, c) <==> c in live
    }

    constructor (size: nat)
      requires size > 0
      ensures Valid() && this.size == size && fresh(ring) && live == {}
    {
      this.size := size;
      ring := new Ring();
      blocks, live := map[], {};
    }

    /** new_block: calloc twice, and list_add. */
    method NewBlock() returns (id: BlockId)
      requires Valid()
      modifies `blocks, ring
      ensures Valid() && forall i :: Cell(id, i) !in live
      ensures ring.elems == [id] + old(ring.elems) && id !in old(ring.elems)
      ensures id in blocks && blocks[id].bits == seq(TBL_SIZE, i => false)
      ensures forall x :: x in old(ring.elems) ==> x in blocks && blocks[x] == old(blocks)[x]
    {
      ghost var free := FreeAddress(blocks.Keys);
      assert free !in blocks;
      id :| id !in blocks;
      ghost var region := FreeRegion(blocks, size);
      var b: nat :| forall x :: x in blocks ==> RegionsApart(blocks[x].base, b, size);
      ghost var s := ring.elems;
      assert id !in s;
      blocks := blocks[id := Block(b, seq(TBL_SIZE, i => false))];
      ring.Add(id);
      NothingInUse(id);
    }

    ghost predicate Full(id: BlockId)
      reads `blocks
    {
      id in blocks && forall i :: 0 <= i < |blocks[id].bits| ==> blocks[id].bits[i]
    }

    /** The first zero bit of a block that is not full: `for(i = 0; i < TBL_SIZE; i++)`. */
    method FirstZero(m: seq<bool>) returns (i: nat)
      ensures i <= |m| && (i < |m| ==> !m[i])
      ensures forall j :: 0 <= j < i ==> m[j]
    {
      i := 0;
      while i < |m| && m[i]
        invariant i <= |m| && forall j :: 0 <= j < i ==> m[j]
      {
        i := i + 1;
      }
    }

    /** Bit `i` of a block is set or cleared. */
    method Assign(id: BlockId, i: nat, b: bool)
      requires Valid() && id in blocks && i < TBL_SIZE
      modifies `blocks, `live
      ensures Valid() && blocks.Keys == old(blocks.Keys)
      ensures live == if b then old(live) + {Cell(id, i)} else old(live) - {Cell(id, i)}
      ensures forall c: Cell :: c.block in blocks ==> Address(blocks, size, c) == old(Address(blocks, size, c))
    {
      var k := blocks[id];
      blocks := blocks[id := k.(bits := k.bits[i := b])];
      live := if b then live + {Cell(id, i)} else live - {Cell(id, i)};
    }

    /** get_empty: the cell `c` at address `p` was free; a block is added only if all are full. */
    method GetEmpty() returns (p: nat, ghost c: Cell)
      requires Valid()
      modifies `blocks, `live, ring
      ensures Valid() && c.block in blocks && p == Address(blocks, size, c)
      ensures c !in old(live) && live == old(live) + {c}
      ensures forall d: Cell :: d.block in old(blocks) ==>
                d.block in blocks && Address(blocks, size, d) == old(Address(blocks, size, d))
      ensures ring.elems == old(ring.elems)
              || (ring.elems == [c.block] + old(ring.elems) && forall x :: x in old(ring.elems) ==> old(Full(x)))
    {
      ghost var k, s := 0, ring.elems;
      var n := ring.First();
      while n.Link?
        invariant Valid() && ring.elems == s && blocks == old(blocks) && live == old(live)
        invariant 0 <= k <= |s| && n == NodeAt(s, k)
        invariant forall j :: 0 <= j < k ==> Full(s[j])
        decreases |s| - k
      {
        var i := FirstZero(blocks[n.e].bits);
        if i < TBL_SIZE {
          c := Cell(n.e, i);
          p := blocks[n.e].base + size * i;
          Assign(n.e, i, true);
          return;
        }
        n := ring.Next(n.e, k);
        k := k + 1;
      }
      var id := NewBlock();
      c := Cell(id, 0);
      p := blocks[id].base + size * 0;
      Assign(id, 0, true);
    }

    lemma NothingInUse(id: BlockId)
      requires id in blocks && blocks[id].bits == seq(TBL_SIZE, i => false)
      ensures forall i :: !InUse(ring.elems, blocks, Cell(id, i))
    {
    }

    /** free_entry: the block that `p` lies in, if there is one, loses the bit of the cell that `p` lies
        in. */
    method FreeEntry(p: nat) returns (r: int, ghost c: Cell)
      requires Valid()
      modifies `blocks, `live
      ensures Valid() && blocks.Keys == old(blocks.Keys)
      ensures r == 0 || r == -1
      ensures r == 0 ==> c.block in blocks && Address(blocks, size, c) <= p < Address(blocks, size, c) + size
      ensures r == 0 ==> live == old(live) - {c}
      ensures r == -1 ==> blocks == old(blocks) && live == old(live) && forall x :: x in blocks ==>
                !(blocks[x].base <= p < blocks[x].base + size * TBL_SIZE)
      ensures forall d: Cell :: d.block in blocks ==> Address(blocks, size, d) == old(Address(blocks, size, d))
    {
      ghost var k, s := 0, ring.elems;
      c := Cell(0, 0);
      var n := ring.First();
      while n.Link?
        invariant 0 <= k <= |s| && n == NodeAt(s, k) && blocks == old(blocks) && live == old(live)
        invariant forall j :: 0 <= j < k ==> !(blocks[s[j]].base <= p < blocks[s[j]].base + size * TBL_SIZE)
        decreases |s| - k
      {
        var b := blocks[n.e].base;
        if b <= p < b + size * TBL_SIZE {
          CellAt(size, p - b);
          c := Cell(n.e, (p - b) / size);
          Assign(n.e, (p - b) / size, false);
          return 0, c;
        }
        n := ring.Next(n.e, k);
        k := k + 1;
      }
      return -1, c;
    }
  }

  /** Freeing an address that was handed out frees exactly its cell. */
  lemma FreesItsCell(s: seq<BlockId>, bs: Blocks, size: nat, c: Cell, d: Cell)
    requires size > 0 && BlocksOk(s, bs, size) && c.block in bs && d.block in bs && c.i < TBL_SIZE && d.i < TBL_SIZE
    requires Address(bs, size, d) <= Address(bs, size, c) < Address(bs, size, d) + size
    ensures d == c
  {
    CellsInOrder(size, c.i, TBL_SIZE);
    CellsInOrder(size, d.i, TBL_SIZE);
    if c.block == d.block {
      if c.i < d.i {
        CellsInOrder(size, c.i, d.i);
      } else if d.i < c.i {
        CellsInOrder(size, d.i, c.i);
      }
    }
  }
}
