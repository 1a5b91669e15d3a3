/** `BlockContext` as the object it is: its token lists grow in place and its blocks come
    from a shared pool object.  Each loop is proved against the function of the same name
    in `PagedMemory`. */
module BlockContextObject {
  import opened Wrappers
  import opened RecyclePools
  import opened Strides
  import opened PagedMemory

  class BlockContext {
    const blockSize: BlockSize
    const kv: RecyclePool
    var blocks: seq<nat>
    var slots: seq<nat>
    var padded: bool

    ghost predicate Shaped() reads this {
      |blocks| == |slots|
    }

    function View(): Cells
      reads this
      requires Shaped()
    {
      Cells(blocks, slots)
    }

    constructor (blockSize: BlockSize, kv: RecyclePool)
      ensures Shaped() && View() == EMPTY && !padded && this.blockSize == blockSize && this.kv == kv
    {
      this.blockSize, this.kv := blockSize, kv;
      blocks, slots, padded := [], [], false;
    }

    method AllocateOne() returns (ok: bool)
      requires Shaped()
      modifies this`blocks, this`slots, kv
      ensures Shaped()
      ensures (ok, kv.View(), View()) == AllocOne(blockSize, old(kv.View()), old(View()))
    {
      var idx := |blocks|;
      if idx % blockSize == 0 {
        var b := kv.Take();
        if b.None? { return false; }
        blocks, slots := blocks + [b.value], slots + [b.value * blockSize];
      } else {
        assert idx > 0;
        blocks, slots := blocks + [blocks[idx - 1]], slots + [slots[idx - 1] + 1];
      }
      return true;
    }

    method Allocate(n: nat) returns (ok: bool)
      requires Shaped()
      modifies this`blocks, this`slots, kv
      ensures Shaped()
      ensures (ok, kv.View(), View()) == AllocN(blockSize, old(kv.View()), old(View()), n)
    {
      var i := 0;
      while i < n
        invariant 0 <= i <= n && Shaped()
        invariant AllocN(blockSize, kv.View(), View(), n - i) == AllocN(blockSize, old(kv.View()), old(View()), n)
      {
        ok := AllocateOne();
        if !ok { return; }
        i := i + 1;
      }
      return true;
    }

    /** `pad_to` as a child's constructor calls it: to the next block boundary.  It takes
        nothing from the pool and cannot raise. */
    method PadToBlockBoundary()
      requires Shaped() && CellsOk(blockSize, View()) && Valid(kv.View()) && Owned(View()) <= Live(kv.View())
      modifies this, kv
      ensures Shaped() && padded && kv.View() == old(kv.View())
      ensures CellsOk(blockSize, View()) && Owned(View()) == old(Owned(View()))
      ensures |blocks| % blockSize == 0 && old(|blocks|) <= |blocks| < old(|blocks|) + blockSize
      ensures old(View()).blocks <= blocks && old(View()).slots <= slots
    {
      CeilBounds(|blocks|, blockSize);
      PadToBlock(blockSize, kv.View(), View());
      var n := CeilDiv(|blocks|, blockSize) * blockSize - |blocks|;
      AllocNKeeps(blockSize, kv.View(), View(), n);
      AllocNExtends(blockSize, kv.View(), View(), n);
      var ok := Allocate(n);
      padded := true;
    }

    /** The freeing loop of `destruction`: every block once. */
    method FreeBlocks() returns (ok: bool)
      requires Shaped()
      modifies kv
      ensures match FreeAll(old(kv.View()), Stride(blocks, blockSize))
              case Ok(q) => ok && kv.View() == q
              case Raised => !ok
    {
      var t := Stride(blocks, blockSize);
      var i := 0;
      while i < |t|
        invariant 0 <= i <= |t|
        invariant FreeAll(kv.View(), t[i..]) == FreeAll(old(kv.View()), t)
      {
        ok := kv.Release(t[i]);
        if !ok { return; }
        assert t[i..][1..] == t[i + 1..];
        i := i + 1;
      }
      return true;
    }
  }
}
