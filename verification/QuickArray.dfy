/** `QuickArray`: a growing array in blocks (fibjs/include/QuickArray.h:33-176). A slot of a block is raw memory
    (None) or holds a constructed element, so constructing twice or destroying raw memory cannot be written. */
module QuickArrays {
  import opened Results

  /** The index of slot `q` of block `p`. */
  function At(p: nat, q: nat, b: nat): nat { p * b + q }

  function BlocksFor(size: nat, b: nat): nat
    requires b > 0
  {
    (size + b - 1) / b
  }

  lemma AtUnique(p: nat, q: nat, p': nat, q': nat, b: nat)
    requires q < b && q' < b && At(p, q, b) == At(p', q', b)
    ensures p == p' && q == q'
  {
    if p < p' {
      Product(p + 1, p', b);
    } else if p' < p {
      Product(p' + 1, p, b);
    }
  }

  lemma Product(m: nat, n: nat, b: nat)
    requires m <= n
    ensures m * b <= n * b
  {
  }

  lemma AtNext(p: nat, q: nat, b: nat)
    ensures At(p, q + 1, b) == At(p, q, b) + 1 && At(p + 1, 0, b) == At(p, b, b)
  {
  }

  /** Block and slot of an index. */
  function Block(k: nat, b: nat): nat
    requires b > 0
  {
    k / b
  }

  function Offset(k: nat, b: nat): (q: nat)
    requires b > 0
    ensures q < b && At(Block(k, b), q, b) == k
  {
    k % b
  }

  lemma AtSplit(p: nat, q: nat, b: nat)
    requires q < b
    ensures Block(At(p, q, b), b) == p && Offset(At(p, q, b), b) == q
  {
    var k := At(p, q, b);
    AtUnique(p, q, Block(k, b), Offset(k, b), b);
  }

  lemma AtInside(p: nat, q: nat, c: nat, b: nat)
    requires q < b
    ensures At(p, q, b) < At(c, 0, b) <==> p < c
  {
    if p < c {
      Product(p + 1, c, b);
    } else {
      Product(c, p, b);
    }
  }

  /** The number of blocks is the least that holds the elements. */
  lemma BlocksExact(size: nat, b: nat)
    requires b > 0
    ensures size <= At(BlocksFor(size, b), 0, b) < size + b
  {
    assert Offset(size + b - 1, b) < b;
  }

  lemma {:induction false} BlocksGrow(m: nat, n: nat, b: nat)
    requires b > 0 && m <= n
    ensures BlocksFor(m, b) <= BlocksFor(n, b)
  {
    BlocksExact(m, b);
    BlocksExact(n, b);
    if BlocksFor(n, b) < BlocksFor(m, b) {
      Product(BlocksFor(n, b) + 1, BlocksFor(m, b), b);
    }
  }

  class QuickArray<T> {
    const blockSize: nat
    const fill: T                       // T()
    var blocks: seq<array<Option<T>>>   // m_array
    var size: nat                       // m_size

    /** Blocks of one size, each its own memory. */
    ghost predicate Shape()
      reads `blocks
    {
      && blockSize > 0
      && (forall p :: 0 <= p < |blocks| ==> blocks[p].Length == blockSize)
      && (forall p, p' :: 0 <= p < p' < |blocks| ==> blocks[p] != blocks[p'])
    }

    /** The constructed slots are those below `low` and those from `from` to `to`. */
    ghost predicate Live(low: nat, from: nat, to: nat)
      requires Shape()
      reads `blocks, blocks
    {
      forall p, q :: 0 <= p < |blocks| && 0 <= q < blockSize ==>
        (blocks[p][q].Some? <==> At(p, q, blockSize) < low || from <= At(p, q, blockSize) < to)
    }

    ghost predicate Valid()
      reads this, blocks
    {
      Shape() && |blocks| == BlocksFor(size, blockSize) && Live(size, size, size)
    }

    /** The element at an index, whatever the block it is in. */
    ghost function Slot(k: nat): Option<T>
      requires Shape() && k < At(|blocks|, 0, blockSize)
      reads `blocks, blocks
    {
      SlotInside(k);
      blocks[Block(k, blockSize)][Offset(k, blockSize)]
    }

    lemma SlotInside(k: nat)
      requires blockSize > 0 && k < At(|blocks|, 0, blockSize)
      ensures Block(k, blockSize) < |blocks|
    {
      hide Block, At;
      AtInside(Block(k, blockSize), Offset(k, blockSize), |blocks|, blockSize);
    }

    /** An index keeps its block when blocks are added. */
    lemma InsideMore(k: nat, c: nat, d: nat)
      requires blockSize > 0 && k < At(c, 0, blockSize) && c <= d
      ensures Block(k, blockSize) < c && k < At(d, 0, blockSize)
    {
      AtInside(Block(k, blockSize), Offset(k, blockSize), c, blockSize);
      Product(c, d, blockSize);
    }

    /** The first `n` elements. */
    ghost function Prefix(n: nat): (s: seq<T>)
      requires Shape() && n <= At(|blocks|, 0, blockSize)
      requires forall k :: 0 <= k < n ==> Slot(k).Some?
      reads `blocks, blocks
      ensures |s| == n && forall k :: 0 <= k < n ==> Slot(k) == Some(s[k])
    {
      if n == 0 then [] else Prefix(n - 1) + [Slot(n - 1).value]
    }

    lemma LiveSlots(low: nat, from: nat, to: nat)
      requires Shape() && Live(low, from, to)
      ensures forall k :: 0 <= k < At(|blocks|, 0, blockSize) ==> (Slot(k).Some? <==> k < low || from <= k < to)
    {
      hide At, Block, Offset;
      forall k | 0 <= k < At(|blocks|, 0, blockSize)
        ensures Slot(k).Some? <==> k < low || from <= k < to
      {
        SlotInside(k);
        assert Offset(k, blockSize) < blockSize;
      }
    }

    lemma Fits()
      requires Valid()
      ensures size <= At(|blocks|, 0, blockSize) && forall k :: 0 <= k < size ==> Slot(k).Some?
    {
      BlocksExact(size, blockSize);
      LiveSlots(size, size, size);
    }

    ghost function Contents(): (s: seq<T>)
      requires Valid()
      reads this, blocks
      ensures |s| == size
    {
      Fits();
      Prefix(size)
    }

    constructor (blockSize: nat, fill: T)
      requires blockSize > 0
      ensures Valid() && this.blockSize == blockSize && this.fill == fill && blocks == [] && Contents() == []
    {
      this.blockSize := blockSize;
      this.fill := fill;
      blocks, size := [], 0;
    }

    /** Blocks for `n` more elements. */
    method Grow(n: nat)
      requires Valid()
      modifies this`blocks
      ensures Shape() && |blocks| == BlocksFor(size + n, blockSize) && Live(size, size, size)
      ensures |old(blocks)| <= |blocks|
      ensures forall p :: 0 <= p < |blocks| ==> blocks[p] in old(blocks) || fresh(blocks[p])
      ensures forall p :: 0 <= p < |old(blocks)| ==> blocks[p] == old(blocks)[p]
    {
      hide At, Block, Offset, BlocksFor;
      BlocksGrow(size, size + n, blockSize);
      Fits();
      if n > 0 {
        var c1 := BlocksFor(size + n, blockSize);
        NewSlots();
        AddBlocks(c1);
      } else {
        assert forall p :: 0 <= p < |blocks| ==> blocks[p] in blocks;
      }
    }

    lemma NewSlots()
      requires blockSize > 0 && size <= At(|blocks|, 0, blockSize)
      ensures forall p: nat, q: nat :: |blocks| <= p && q < blockSize ==> At(p, q, blockSize) >= size
    {
      forall p: nat, q: nat | |blocks| <= p && q < blockSize
        ensures At(p, q, blockSize) >= size
      {
        AtInside(p, q, |blocks|, blockSize);
      }
    }

    method AddBlocks(c1: nat)
      requires Shape() && |blocks| <= c1
      modifies this`blocks
      ensures Shape() && |blocks| == c1
      ensures forall p :: 0 <= p < |blocks| ==> blocks[p] in old(blocks) || fresh(blocks[p])
      ensures forall p :: 0 <= p < |old(blocks)| ==> blocks[p] == old(blocks)[p]
      ensures forall p, q :: |old(blocks)| <= p < c1 && 0 <= q < blockSize ==> blocks[p][q].None?
    {
      while |blocks| < c1
        invariant |old(blocks)| <= |blocks| <= c1 && Shape()
        invariant forall p :: 0 <= p < |old(blocks)| ==> blocks[p] == old(blocks)[p]
        invariant forall p :: 0 <= p < |blocks| ==> blocks[p] in old(blocks) || fresh(blocks[p])
        invariant forall p, q :: |old(blocks)| <= p < |blocks| && 0 <= q < blockSize ==> blocks[p][q].None?
      {
        var block := new Option<T>[blockSize](_ => None);
        blocks := blocks + [block];
      }
    }

    lemma Apart(p: nat, q: nat, p': nat, q': nat)
      requires q < blockSize && q' < blockSize && (p' != p || q' != q)
      ensures At(p, q, blockSize) != At(p', q', blockSize)
    {
      if At(p, q, blockSize) == At(p', q', blockSize) {
        AtUnique(p, q, p', q', blockSize);
      }
    }

    /** Placement new at slot `q` of block `p`: the slot must be raw memory. */
    method Construct(p: nat, q: nat, v: T, ghost i: nat)
      requires Shape() && p < |blocks| && q < blockSize && i == At(p, q, blockSize) && Live(i, i, i)
      modifies blocks[p]
      ensures Live(i + 1, i + 1, i + 1)
      ensures i < At(|blocks|, 0, blockSize) && Slot(i) == Some(v)
      ensures forall k: nat :: k < At(|blocks|, 0, blockSize) && k != i ==> Slot(k) == old(Slot(k))
    {
      SlotAt(p, q);
      hide At, Block, Offset;
      forall k: nat | k < At(|blocks|, 0, blockSize)
        ensures Block(k, blockSize) < |blocks|
      {
        SlotInside(k);
      }
      assert blocks[p][q].None?;
      blocks[p][q] := Some(v);
      forall p', q' | 0 <= p' < |blocks| && 0 <= q' < blockSize && (p' != p || q' != q)
        ensures At(p', q', blockSize) != i
      {
        Apart(p, q, p', q');
      }
    }

    /** The destructor call at slot `q` of block `p`: the slot must hold an element. */
    method Destroy(p: nat, q: nat, ghost low: nat, ghost i: nat, ghost to: nat)
      requires Shape() && p < |blocks| && q < blockSize && i == At(p, q, blockSize) && low <= i < to && Live(low, i, to)
      modifies blocks[p]
      ensures Live(low, i + 1, to)
      ensures forall k: nat :: k < At(|blocks|, 0, blockSize) && k != i ==> Slot(k) == old(Slot(k))
    {
      SlotAt(p, q);
      hide At, Block, Offset;
      forall k: nat | k < At(|blocks|, 0, blockSize)
        ensures Block(k, blockSize) < |blocks|
      {
        SlotInside(k);
      }
      assert blocks[p][q].Some?;
      blocks[p][q] := None;
      forall p', q' | 0 <= p' < |blocks| && 0 <= q' < blockSize && (p' != p || q' != q)
        ensures At(p', q', blockSize) != i
      {
        Apart(p, q, p', q');
      }
    }

    /** The loop of `resize` and `append` that constructs the elements of `rhs` behind the others. */
    method Fill(rhs: seq<T>, ghost want: seq<T>)
      requires Shape() && Live(size, size, size) && rhs != [] && |want| == size + |rhs| <= At(|blocks|, 0, blockSize)
      requires want[size..] == rhs && forall k: nat :: k < size ==> Slot(k) == Some(want[k])
      modifies blocks
      ensures Live(|want|, |want|, |want|)
      ensures forall k: nat :: k < |want| ==> Slot(k) == Some(want[k])
    {
      hide At, Slot, Live, Block, Offset;
      var s := size + |rhs|;
      var p1: nat, p2: nat := Block(size, blockSize), Offset(size, blockSize);
      AtInside(p1, p2, |blocks|, blockSize);
      var i := size;
      while i < s
        invariant size <= i <= s && p1 < |blocks| && p2 <= blockSize && i == At(p1, p2, blockSize)
        invariant i < s ==> p2 < blockSize
        invariant Live(i, i, i)
        invariant forall k: nat :: k < i ==> Slot(k) == Some(want[k])
      {
        assert want[size..][i - size] == want[i];
        Construct(p1, p2, rhs[i - size], i);
        AtNext(p1, p2, blockSize);
        p2 := p2 + 1;
        i := i + 1;
        if i < s && p2 == blockSize {
          p1 := p1 + 1;
          p2 := 0;
          AtInside(p1, p2, |blocks|, blockSize);
        }
      }
    }

    /** The loop of `resize` that destroys the elements from `s` on. */
    method Drop(s: nat)
      requires Shape() && Live(size, size, size) && s < size <= At(|blocks|, 0, blockSize)
      modifies blocks
      ensures Live(s, s, s)
      ensures forall k: nat :: k < s ==> Slot(k) == old(Slot(k))
    {
      var p1: nat, p2: nat := Block(s, blockSize), Offset(s, blockSize);
      AtInside(p1, p2, |blocks|, blockSize);
      var i := s;
      while i < size
        invariant s <= i <= size && p1 < |blocks| && p2 <= blockSize && i == At(p1, p2, blockSize)
        invariant i < size ==> p2 < blockSize
        invariant Live(s, i, size)
        invariant forall k: nat :: k < s ==> Slot(k) == old(Slot(k))
      {
        hide At, Slot, Live, Block, Offset;
        Destroy(p1, p2, s, i, size);
        AtNext(p1, p2, blockSize);
        p2 := p2 + 1;
        i := i + 1;
        if i < size && p2 == blockSize {
          p1 := p1 + 1;
          p2 := 0;
          AtInside(p1, p2, |blocks|, blockSize);
        }
      }
    }

    /** Elements behind the end, in new blocks where needed. */
    method AppendAll(rhs: seq<T>)
      requires Valid()
      modifies this, blocks
      ensures Valid() && Contents() == old(Contents()) + rhs
      ensures forall p :: 0 <= p < |blocks| ==> blocks[p] in old(blocks) || fresh(blocks[p])
    {
      hide At, Live, Block, Offset, BlocksFor;
      if |rhs| > 0 {
        ghost var want := Contents() + rhs;
        Fits();
        BlocksExact(size + |rhs|, blockSize);
        Grow(|rhs|);
        forall k: nat | k < size
          ensures k < At(|blocks|, 0, blockSize) && Slot(k) == Some(want[k])
        {
          InsideMore(k, |old(blocks)|, |blocks|);
          assert old(Slot(k)) == Some(want[k]);
        }
        Fill(rhs, want);
        size := size + |rhs|;
        SameContents(want);
      } else {
        assert Contents() + rhs == Contents();
      }
    }

    /** `operator[]` read: an index past the end grows the array first. */
    method Get(i: nat) returns (v: T)
      requires Valid()
      modifies this, blocks
      ensures Valid() && size == (if i < old(size) then old(size) else i + 1)
      ensures forall p :: 0 <= p < |blocks| ==> blocks[p] in old(blocks) || fresh(blocks[p])
      ensures Contents() == if i < old(size) then old(Contents())
                            else old(Contents()) + seq(i + 1 - old(size), _ => fill)
      ensures v == Contents()[i]
    {
      if i >= size {
        Resize(i + 1);
      } else {
        assert forall p :: 0 <= p < |blocks| ==> blocks[p] in blocks;
      }
      Fits();
      SlotInside(i);
      return blocks[Block(i, blockSize)][Offset(i, blockSize)].value;
    }

    /** `operator[]` as the target of an assignment. */
    method Set(i: nat, v: T)
      requires Valid() && i < size
      modifies blocks
      ensures Valid() && Contents() == old(Contents())[i := v]
    {
      ghost var want := Contents()[i := v];
      Fits();
      SlotInside(i);
      Overwrite(i, v);
      SameContents(want);
    }

    method Overwrite(i: nat, v: T)
      requires Shape() && Live(size, size, size) && i < size <= At(|blocks|, 0, blockSize)
      modifies blocks
      ensures Live(size, size, size) && Slot(i) == Some(v)
      ensures forall k: nat :: k < At(|blocks|, 0, blockSize) && k != i ==> Slot(k) == old(Slot(k))
    {
      SlotInside(i);
      LiveSlots(size, size, size);
      hide At, Block, Offset;
      forall k: nat | k < At(|blocks|, 0, blockSize)
        ensures Block(k, blockSize) < |blocks|
      {
        SlotInside(k);
      }
      blocks[Block(i, blockSize)][Offset(i, blockSize)] := Some(v);
    }

    /** The caller's array is not empty. */
    method Pop()
      requires Valid() && size > 0
      modifies this, blocks
      ensures Valid() && Contents() == old(Contents())[..old(size) - 1]
      ensures forall p :: 0 <= p < |blocks| ==> blocks[p] in old(blocks) || fresh(blocks[p])
    {
      Resize(size - 1);
    }

    lemma SameContents(want: seq<T>)
      requires Valid() && |want| == size <= At(|blocks|, 0, blockSize)
      requires forall k: nat :: k < size ==> Slot(k) == Some(want[k])
      ensures Contents() == want
    {
    }

    /** Elements are added with their default value or destroyed from the end; blocks nobody needs are freed. */
    method Resize(s: nat)
      requires Valid()
      modifies this, blocks
      ensures Valid() && size == s
      ensures forall p :: 0 <= p < |blocks| ==> blocks[p] in old(blocks) || fresh(blocks[p])
      ensures Contents() == if s <= old(size) then old(Contents())[..s]
                            else old(Contents()) + seq(s - old(size), _ => fill)
    {
      hide At, Slot, Live, Block, Offset, BlocksFor;
      Fits();
      ghost var was := Contents();
      if s < size {
        Drop(s);
        FreeBlocks(s);
        SameContents(was[..s]);
      } else if s > size {
        AppendAll(seq(s - size, _ => fill));
      }
    }

    method FreeBlocks(s: nat)
      requires Shape() && |blocks| == BlocksFor(size, blockSize) && s <= size && Live(s, s, s)
      modifies this
      ensures Valid() && size == s && |blocks| <= |old(blocks)| && blocks == old(blocks)[..|blocks|]
      ensures s <= At(|blocks|, 0, blockSize)
      ensures forall k: nat :: k < s ==> Slot(k) == old(Slot(k))
    {
      hide At, Block, Offset, BlocksFor;
      var c1 := BlocksFor(s, blockSize);
      ShrinkBlocks(s, c1);
      forall k: nat | k < s
        ensures Block(k, blockSize) < c1 && k < At(|blocks|, 0, blockSize)
      {
        InsideMore(k, c1, |blocks|);
      }
      blocks := blocks[..c1];
      size := s;
    }

    lemma ShrinkBlocks(s: nat, c: nat)
      requires blockSize > 0 && |blocks| == BlocksFor(size, blockSize) && s <= size && c == BlocksFor(s, blockSize)
      ensures c <= |blocks| && s <= At(c, 0, blockSize)
    {
      BlocksGrow(s, size, blockSize);
      BlocksExact(s, blockSize);
    }

    /** Slots are the elements of the blocks, each once. */
    lemma SlotAt(p: nat, q: nat)
      requires Shape() && p < |blocks| && q < blockSize
      ensures At(p, q, blockSize) < At(|blocks|, 0, blockSize)
      ensures Block(At(p, q, blockSize), blockSize) == p && Offset(At(p, q, blockSize), blockSize) == q
    {
      AtInside(p, q, |blocks|, blockSize);
      AtSplit(p, q, blockSize);
    }
  }
}
