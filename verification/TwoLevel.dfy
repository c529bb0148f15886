/** TwoLevelIterator (table/two_level_iterator.cc): a cursor over the blocks of a table, or over
    the files of a sorted level, opened one at a time through an index.  */
module TwoLevel {
  import opened Keys
  import opened Iterators
  import opened Versions
  import opened CompactionRun

  /** A block and its key in the index. */
  datatype Block = Block(sep: IKey, run: Run)

  /** Each index key lies at or above its block's entries and below those of all later blocks. */
  ghost predicate Separated(blocks: seq<Block>) {
    && (forall b :: b in blocks ==> Sorted(b.run))
    && (forall i, e :: 0 <= i < |blocks| && e in blocks[i].run ==> !Less(blocks[i].sep, e.ik))
    && (forall i, j, e :: 0 <= i < j < |blocks| && e in blocks[j].run ==> Less(blocks[i].sep, e.ik))
  }

  function IndexRun(blocks: seq<Block>): (r: Run)
    ensures |r| == |blocks| && forall i :: 0 <= i < |blocks| ==> r[i].ik == blocks[i].sep
  {
    seq(|blocks|, i requires 0 <= i < |blocks| => Entry(blocks[i].sep, ""))
  }

  /** All entries, block after block. */
  function Flat(blocks: seq<Block>): Run {
    if blocks == [] then [] else Flat(blocks[..|blocks| - 1]) + blocks[|blocks| - 1].run
  }

  function Offset(blocks: seq<Block>, i: nat): nat
    requires i <= |blocks|
  {
    |Flat(blocks[..i])|
  }

  // ------------------------------------------------------------------ positions in the flat run

  lemma OffsetStep(blocks: seq<Block>, i: nat)
    requires i < |blocks|
    ensures Offset(blocks, i + 1) == Offset(blocks, i) + |blocks[i].run|
  {
    assert blocks[..i + 1][..i] == blocks[..i];
  }

  lemma OffsetEnds(blocks: seq<Block>)
    ensures Offset(blocks, 0) == 0 && Offset(blocks, |blocks|) == |Flat(blocks)|
  {
    assert blocks[..|blocks|] == blocks;
  }

  lemma {:induction false} FlatAt(blocks: seq<Block>, i: nat, k: nat)
    requires i < |blocks| && k < |blocks[i].run|
    ensures Offset(blocks, i) + k < |Flat(blocks)| && Flat(blocks)[Offset(blocks, i) + k] == blocks[i].run[k]
  {
    var n := |blocks| - 1;
    assert blocks[..n][..i] == blocks[..i];
    if i < n {
      FlatAt(blocks[..n], i, k);
    }
  }

  lemma {:induction false} BlockOf(blocks: seq<Block>, c: nat) returns (i: nat, k: nat)
    requires c < |Flat(blocks)|
    ensures i < |blocks| && k < |blocks[i].run| && c == Offset(blocks, i) + k
  {
    var n := |blocks| - 1;
    if c < |Flat(blocks[..n])| {
      i, k := BlockOf(blocks[..n], c);
      assert blocks[..n][..i] == blocks[..i];
    } else {
      i, k := n, c - |Flat(blocks[..n])|;
    }
  }

  lemma {:induction false} OffsetsGrow(blocks: seq<Block>, i: nat, j: nat)
    requires i <= j <= |blocks|
    ensures Offset(blocks, i) <= Offset(blocks, j)
  {
    if i < j {
      OffsetsGrow(blocks, i, j - 1);
      OffsetStep(blocks, j - 1);
    }
  }

  /** Seeking the index, then the block it leads to, finds the place in the flat run. */
  lemma TwoLevelSeek(blocks: seq<Block>, target: IKey)
    requires Separated(blocks)
    ensures var i := LowerBound(IndexRun(blocks), target);
            LowerBound(Flat(blocks), target) ==
            if i < |blocks| then Offset(blocks, i) + LowerBound(blocks[i].run, target) else |Flat(blocks)|
  {
    var i := LowerBound(IndexRun(blocks), target);
    var n := if i < |blocks| then Offset(blocks, i) + LowerBound(blocks[i].run, target) else |Flat(blocks)|;
    if i < |blocks| {
      OffsetStep(blocks, i);
      OffsetsGrow(blocks, i + 1, |blocks|);
      OffsetEnds(blocks);
    }
    forall c | 0 <= c < |Flat(blocks)| ensures c < n <==> Less(Flat(blocks)[c].ik, target) {
      PlaceOfEntry(blocks, target, i, c);
    }
    LowerBoundIs(Flat(blocks), target, n);
  }

  lemma PlaceOfEntry(blocks: seq<Block>, target: IKey, i: nat, c: nat)
    requires Separated(blocks) && i == LowerBound(IndexRun(blocks), target) && c < |Flat(blocks)|
    ensures Less(Flat(blocks)[c].ik, target) <==>
            i == |blocks| || c < Offset(blocks, i) + LowerBound(blocks[i].run, target)
  {
    hide Flat, LowerBound, Less, Separated, Offset;
    var j, k := BlockOf(blocks, c);
    FlatAt(blocks, j, k);
    BlockByIndex(blocks, target, j, k);
    if j < i && i < |blocks| {
      OffsetStep(blocks, j);
      OffsetsGrow(blocks, j + 1, i);
    } else if j > i {
      OffsetStep(blocks, i);
      OffsetsGrow(blocks, i + 1, j);
    }
  }

  /** An entry is before the target if its block is before the block the index leads to. */
  lemma BlockByIndex(blocks: seq<Block>, target: IKey, j: nat, k: nat)
    requires Separated(blocks) && j < |blocks| && k < |blocks[j].run|
    ensures var i := LowerBound(IndexRun(blocks), target);
            && (j < i ==> Less(blocks[j].run[k].ik, target))
            && (j > i ==> !Less(blocks[j].run[k].ik, target))
            && (j == i ==> (Less(blocks[j].run[k].ik, target) <==> k < LowerBound(blocks[i].run, target)))
  {
    var i, e := LowerBound(IndexRun(blocks), target), blocks[j].run[k];
    assert e in blocks[j].run && blocks[j] in blocks;
    if j < i {
      assert Less(IndexRun(blocks)[j].ik, target);
    } else if j > i {
      assert !Less(IndexRun(blocks)[i].ik, target) && Less(blocks[i].sep, e.ik);
    } else {
      BoundInBlock(blocks[j].run, target, k);
    }
  }

  lemma BoundInBlock(r: Run, target: IKey, k: nat)
    requires Sorted(r) && k < |r|
    ensures Less(r[k].ik, target) <==> k < LowerBound(r, target)
  {
    var n := LowerBound(r, target);
    if n < k { assert Less(r[n].ik, r[k].ik); }
  }

  // ------------------------------------------------------------------ the class

  class TwoLevelIterator {
    const blocks: seq<Block>
    const index: InternalIterator
    var data: IteratorWrapper?
    // The block that `data` was made from.
    var handle: nat

    ghost function Contents(): Run {
      Flat(blocks)
    }

    ghost function Repr(): set<object>
      reads this
    {
      {this, index} + if data == null then {} else {data, data.iter}
    }

    /** The data iterator, when there is one, belongs to the block the index stands at. */
    ghost predicate Opened()
      reads this, Repr()
    {
      && Separated(blocks) && index.run == IndexRun(blocks) && index.pos <= |blocks|
      && (data == null <==> index.pos == |blocks|)
      && (data != null ==>
         handle == index.pos && data.Valid() && data.iter != index && data.iter.run == blocks[handle].run)
    }

    ghost predicate Valid()
      reads this, Repr()
    {
      Opened() && (data != null ==> data.valid)
    }

    ghost function Cursor(): Option<nat>
      requires Valid()
      reads this, Repr()
    {
      if data == null then None else Some(Offset(blocks, handle) + data.iter.pos)
    }

    constructor (blocks: seq<Block>)
      requires Separated(blocks)
      ensures Valid() && Cursor() == None && Contents() == Flat(blocks) && fresh(Repr())
    {
      this.blocks := blocks;
      index := new InternalIterator(IndexRun(blocks));
      data, handle := null, 0;
    }

    lemma KeyIsCurrent()
      requires Valid() && data != null
      ensures Cursor().value < |Contents()| && Contents()[Cursor().value].ik == data.key
    {
      FlatAt(blocks, handle, data.iter.pos);
    }

    /** The number of entries before the data iterator; just past its block when it ran off the end. */
    ghost function Ahead(): nat
      requires Opened()
      reads this, Repr()
    {
      if data == null then |Flat(blocks)| else Offset(blocks, handle) + data.iter.pos
    }

    /** The number of entries up to and with the data iterator's; none of its block when it ran off
        the start. */
    ghost function Behind(): nat
      requires Opened()
      reads this, Repr()
    {
      if data == null then 0 else Offset(blocks, handle) + if data.valid then data.iter.pos + 1 else 0
    }

    method InitDataBlock()
      requires Separated(blocks) && index.run == IndexRun(blocks) && index.pos <= |blocks|
      requires data != null ==>
               data.Valid() && data.iter != index && handle < |blocks| && data.iter.run == blocks[handle].run
      modifies this`data, this`handle
      ensures Opened() && (data != null ==> data == old(data) || fresh({data, data.iter}))
    {
      if !index.Valid() {
        data := null;
      } else if data != null && handle == index.pos {
        // The data iterator is already one over this block.
      } else {
        var iter := new InternalIterator(blocks[index.pos].run);
        data := new IteratorWrapper(iter);
        handle := index.pos;
      }
    }

    /** One turn of SkipEmptyDataBlocksForward: open the next block at its first entry. */
    method OpenNext()
      requires Opened() && data != null && !data.valid
      modifies Repr()
      ensures Opened() && fresh(Repr() - old(Repr())) && index.pos == old(index.pos) + 1 && Ahead() == old(Ahead())
    {
      hide Separated, Flat, Offset;
      OffsetStep(blocks, index.pos);
      OffsetEnds(blocks);
      index.Next();
      InitDataBlock();
      if data != null {
        data.SeekToFirst();
      }
    }

    method OpenPrev()
      requires Opened() && data != null && !data.valid
      modifies Repr()
      ensures Opened() && fresh(Repr() - old(Repr())) && Behind() == old(Behind())
      ensures index.pos == if old(index.pos) == 0 then |blocks| else old(index.pos) - 1
    {
      hide Separated, Flat, Offset;
      if index.pos > 0 {
        OffsetStep(blocks, index.pos - 1);
      }
      OffsetEnds(blocks);
      index.Prev();
      InitDataBlock();
      if data != null {
        data.SeekToLast();
      }
    }

    method SkipEmptyDataBlocksForward()
      requires Opened()
      modifies Repr()
      ensures Valid() && fresh(Repr() - old(Repr()))
      ensures Cursor() == if old(Ahead()) < |Contents()| then Some(old(Ahead())) else None
    {
      hide Separated, Flat, Offset;
      while data == null || !data.valid
        invariant Opened() && fresh(Repr() - old(Repr())) && Ahead() == old(Ahead())
        decreases |blocks| - index.pos
      {
        if !index.Valid() {
          data := null;
          return;
        }
        OpenNext();
      }
      FlatAt(blocks, handle, data.iter.pos);
    }

    method SkipEmptyDataBlocksBackward()
      requires Opened()
      modifies Repr()
      ensures Valid() && fresh(Repr() - old(Repr()))
      ensures Cursor() == if old(Behind()) > 0 then Some(old(Behind()) - 1) else None
    {
      hide Separated, Flat, Offset;
      while data == null || !data.valid
        invariant Opened() && fresh(Repr() - old(Repr())) && Behind() == old(Behind())
        decreases if data == null then 0 else index.pos + 1
      {
        if !index.Valid() {
          data := null;
          return;
        }
        OpenPrev();
      }
    }

    /** Seek the index and the block it leads to. */
    method SeekOpened(target: IKey)
      requires Valid()
      modifies Repr()
      ensures Opened() && fresh(Repr() - old(Repr())) && index.pos == LowerBound(IndexRun(blocks), target)
      ensures data != null ==> data.iter.pos == LowerBound(blocks[handle].run, target)
    {
      hide Separated, Flat, Offset, LowerBound;
      index.Seek(target);
      InitDataBlock();
      if data != null {
        data.Seek(target);
      }
    }

    method Seek(target: IKey)
      requires Valid()
      modifies Repr()
      ensures Valid() && fresh(Repr() - old(Repr()))
      ensures Cursor() == var c := LowerBound(Contents(), target); if c < |Contents()| then Some(c) else None
    {
      hide Separated, Flat, Offset, LowerBound;
      TwoLevelSeek(blocks, target);
      SeekOpened(target);
      SkipEmptyDataBlocksForward();
    }

    /** The first entry of the first block. */
    method OpenFirst()
      requires Valid()
      modifies Repr()
      ensures Opened() && fresh(Repr() - old(Repr())) && Ahead() == 0
    {
      hide Separated, Flat, Offset;
      OffsetEnds(blocks);
      index.SeekToFirst();
      InitDataBlock();
      if data != null {
        data.SeekToFirst();
      }
    }

    method SeekToFirst()
      requires Valid()
      modifies Repr()
      ensures Valid() && fresh(Repr() - old(Repr()))
      ensures Cursor() == if Contents() == [] then None else Some(0)
    {
      hide Separated, Flat, Offset;
      OpenFirst();
      SkipEmptyDataBlocksForward();
    }

    /** The last entry of the last block. */
    method OpenLast()
      requires Valid()
      modifies Repr()
      ensures Opened() && fresh(Repr() - old(Repr())) && Behind() == |Contents()|
    {
      hide Separated, Flat, Offset;
      OffsetEnds(blocks);
      index.SeekToLast();
      InitDataBlock();
      if data != null {
        OffsetStep(blocks, handle);
        data.SeekToLast();
      }
    }

    method SeekToLast()
      requires Valid()
      modifies Repr()
      ensures Valid() && fresh(Repr() - old(Repr()))
      ensures Cursor() == if Contents() == [] then None else Some(|Contents()| - 1)
    {
      hide Separated, Flat, Offset;
      OpenLast();
      SkipEmptyDataBlocksBackward();
    }

    method Next()
      requires Valid() && data != null
      modifies Repr()
      ensures Valid() && fresh(Repr() - old(Repr()))
      ensures var c := old(Cursor()).value + 1; Cursor() == if c < |Contents()| then Some(c) else None
    {
      hide Separated, Flat, Offset;
      data.Next();
      SkipEmptyDataBlocksForward();
    }

    method Prev()
      requires Valid() && data != null
      modifies Repr()
      ensures Valid() && fresh(Repr() - old(Repr()))
      ensures var c := old(Cursor()).value; Cursor() == if c > 0 then Some(c - 1) else None
    {
      hide Separated, Flat, Offset;
      data.Prev();
      SkipEmptyDataBlocksBackward();
    }
  }

  // ------------------------------------------------------------------ the files of a sorted level

  /** The blocks of a level's concatenating iterator: its files, under their largest keys. */
  function FileBlocks(files: seq<File>): (b: seq<Block>)
    ensures |b| == |files| && forall i :: 0 <= i < |files| ==> b[i] == Block(files[i].largest, files[i].run)
  {
    seq(|files|, i requires 0 <= i < |files| => Block(files[i].largest, files[i].run))
  }

  lemma LevelIsSeparated(files: seq<File>)
    requires AllFilesOk(files) && Disjoint(files)
    ensures Separated(FileBlocks(files))
  {
    var blocks := FileBlocks(files);
    forall b | b in blocks ensures Sorted(b.run) {
      var i :| 0 <= i < |blocks| && blocks[i] == b;
      assert FileOk(files[i]);
    }
    forall i, e | 0 <= i < |blocks| && e in blocks[i].run ensures !Less(blocks[i].sep, e.ik) {
      SmallestToLargest(files[i]);
    }
    forall i, j, e | 0 <= i < j < |blocks| && e in blocks[j].run ensures Less(blocks[i].sep, e.ik) {
      SmallestToLargest(files[j]);
      assert Less(files[i].largest, files[j].smallest);
      LessComparesTrailers(files[j].smallest, e.ik);
    }
  }

  /** The level's iterator ranges over the concatenation of its files. */
  lemma {:induction false} LevelIsFlat(files: seq<File>)
    ensures Flat(FileBlocks(files)) == CompactionRun.Contents(files)
  {
    if files != [] {
      var n := |files| - 1;
      assert FileBlocks(files)[..n] == FileBlocks(files[..n]);
      LevelIsFlat(files[..n]);
    }
  }
}
