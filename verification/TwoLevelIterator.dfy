/** The two-level iterator: a cursor over the concatenation of the blocks an index points to,
    skipping empty ones (table/two_level_iterator.cc). */
module TwoLevelIterator {
  import opened Dbformat
  import opened Table

  class Cursor {
    const index: seq<InternalKey>
    const blocks: seq<Block>
    var indexPos: int /* -1 when the index iterator is not valid */
    var dataBlock: Option<nat> /* the block the data iterator was made for */
    var dataPos: int /* -1 when the data iterator is not valid */

    predicate OnEntry()
      reads this
    {
      dataBlock.Some? && dataPos >= 0
    }

    ghost predicate Shape()
      reads this
    {
      && Ordered(Flat(blocks)) && Separates(index, blocks) && -1 <= indexPos < |blocks|
      && (dataBlock.Some? ==> dataBlock.value < |blocks| && -1 <= dataPos < |blocks[dataBlock.value]|)
    }

    ghost predicate Valid()
      reads this
    {
      Shape() && (OnEntry() ==> dataBlock == Some(indexPos))
    }

    /** The current place in the concatenation. */
    ghost function Index(): nat
      requires Valid() && OnEntry()
      reads this
    {
      Offset(blocks, dataBlock.value) + dataPos
    }

    constructor (index: seq<InternalKey>, blocks: seq<Block>)
      requires Ordered(Flat(blocks)) && Separates(index, blocks)
      ensures Valid() && !OnEntry() && this.index == index && this.blocks == blocks
    {
      this.index, this.blocks := index, blocks;
      indexPos, dataBlock, dataPos := -1, None, -1;
    }

    method Current() returns (e: Entry)
      requires Valid() && OnEntry()
      ensures Index() < |Flat(blocks)| && e == Flat(blocks)[Index()]
    {
      FlatAt(blocks, dataBlock.value, dataPos);
      e := blocks[dataBlock.value][dataPos];
    }

    method InitDataBlock()
      requires Shape()
      modifies this`dataBlock, this`dataPos
      ensures Valid() && dataBlock == if indexPos < 0 then None else Some(indexPos)
    {
      if indexPos < 0 {
        dataBlock := None;
      } else if dataBlock != Some(indexPos) {
        dataBlock, dataPos := Some(indexPos), -1;
      }
    }

    /** The next entry to yield is at place `n`: the iterator is on it, or at the end of a block
        that ends there, or past the last block. */
    ghost predicate Before(n: nat)
      requires Valid()
      reads this
    {
      if OnEntry() then n == Index()
      else if indexPos >= 0 then n == End(blocks, indexPos)
      else n == |Flat(blocks)|
    }

    /** The previous entry to yield is just before place `n`. */
    ghost predicate After(n: nat)
      requires Valid()
      reads this
    {
      if OnEntry() then n == Index() + 1
      else if indexPos >= 0 then n == Offset(blocks, indexPos)
      else n == 0
    }

    method SkipEmptyDataBlocksForward(ghost n: nat)
      requires Valid() && Before(n)
      modifies this
      ensures Valid() && (OnEntry() <==> n < |Flat(blocks)|) && (OnEntry() ==> Index() == n)
    {
      while !OnEntry()
        invariant Valid() && Before(n)
        decreases if indexPos < 0 then 0 else |blocks| - indexPos, if OnEntry() then 0 else 1
      {
        if indexPos < 0 {
          dataBlock := None;
          return;
        }
        OffsetStep(blocks, indexPos);
        assert blocks[..|blocks|] == blocks;
        indexPos := if indexPos + 1 < |blocks| then indexPos + 1 else -1;
        InitDataBlock();
        if dataBlock.Some? {
          dataPos := if blocks[dataBlock.value] == [] then -1 else 0;
          OffsetStep(blocks, indexPos);
        }
      }
      FlatAt(blocks, dataBlock.value, dataPos);
    }

    method SkipEmptyDataBlocksBackward(ghost n: nat)
      requires Valid() && After(n)
      modifies this
      ensures Valid() && (OnEntry() <==> 0 < n) && (OnEntry() ==> Index() == n - 1)
    {
      while !OnEntry()
        invariant Valid() && After(n)
        decreases indexPos, if OnEntry() then 0 else 1
      {
        if indexPos < 0 {
          dataBlock := None;
          return;
        }
        indexPos := indexPos - 1;
        InitDataBlock();
        if dataBlock.Some? {
          dataPos := |blocks[dataBlock.value]| - 1;
          OffsetStep(blocks, indexPos);
        }
      }
    }

    /** Seek lands where a seek in the concatenation would. */
    method Seek(target: InternalKey)
      requires Valid()
      modifies this
      ensures Valid() && (OnEntry() <==> SeekIndex(Flat(blocks), target) < |Flat(blocks)|)
      ensures OnEntry() ==> Index() == SeekIndex(Flat(blocks), target)
    {
      var i := SeekKey(index, target);
      indexPos := if i < |index| then i else -1;
      InitDataBlock();
      if dataBlock.Some? {
        var k := SeekIndex(blocks[i], target);
        dataPos := if k < |blocks[i]| then k else -1;
        SeekInBlock(blocks, index, target, i);
        OffsetStep(blocks, i);
      } else {
        NotPastEnd(blocks, index, target);
      }
      SkipEmptyDataBlocksForward(SeekIndex(Flat(blocks), target));
    }

    method SeekToFirst()
      requires Valid()
      modifies this
      ensures Valid() && (OnEntry() <==> Flat(blocks) != []) && (OnEntry() ==> Index() == 0)
    {
      indexPos := if blocks == [] then -1 else 0;
      InitDataBlock();
      if dataBlock.Some? {
        dataPos := if blocks[dataBlock.value] == [] then -1 else 0;
        OffsetStep(blocks, 0);
      }
      SkipEmptyDataBlocksForward(0);
    }

    method SeekToLast()
      requires Valid()
      modifies this
      ensures Valid() && (OnEntry() <==> Flat(blocks) != []) && (OnEntry() ==> Index() == |Flat(blocks)| - 1)
    {
      assert blocks[..|blocks|] == blocks;
      indexPos := |blocks| - 1;
      InitDataBlock();
      if dataBlock.Some? {
        dataPos := |blocks[dataBlock.value]| - 1;
        OffsetStep(blocks, indexPos);
      }
      SkipEmptyDataBlocksBackward(|Flat(blocks)|);
    }

    method Next()
      requires Valid() && OnEntry()
      modifies this
      ensures Valid() && (OnEntry() <==> old(Index()) + 1 < |Flat(blocks)|)
      ensures OnEntry() ==> Index() == old(Index()) + 1
    {
      ghost var n := Index();
      var size := |blocks[dataBlock.value]|;
      OffsetStep(blocks, indexPos);
      dataPos := if dataPos + 1 < size then dataPos + 1 else -1;
      SkipEmptyDataBlocksForward(n + 1);
    }

    method Prev()
      requires Valid() && OnEntry()
      modifies this
      ensures Valid() && (OnEntry() <==> 0 < old(Index()))
      ensures OnEntry() ==> Index() == old(Index()) - 1
    {
      ghost var n := Index();
      dataPos := dataPos - 1;
      SkipEmptyDataBlocksBackward(n);
    }
  }
}
