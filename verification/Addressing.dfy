/** Addressing through the paged memory: the per-token lists of a context and all its
    ancestors, the block tables strided out of them, and when the two agree. */
module Addressing {
  import opened Wrappers
  import opened RecyclePools
  import opened Strides
  import opened PagedMemory

  // ---------- The recursive getters ----------

  /** `get_context_block_ids`. */
  function BlockIds(m: Mem, c: nat): seq<nat>
    requires Tree(m) && c in m.ctxs
    decreases m.ctxs[c].depth
  {
    assert NodeOk(m, c);
    (if m.ctxs[c].parent.Some? then BlockIds(m, m.ctxs[c].parent.value) else []) + m.ctxs[c].cells.blocks
  }

  /** `get_context_slot_ids`. */
  function SlotIds(m: Mem, c: nat): seq<nat>
    requires Tree(m) && c in m.ctxs
    decreases m.ctxs[c].depth
  {
    assert NodeOk(m, c);
    (if m.ctxs[c].parent.Some? then SlotIds(m, m.ctxs[c].parent.value) else []) + m.ctxs[c].cells.slots
  }

  /** `get_context_len`. */
  function ContextLen(m: Mem, c: nat): nat
    requires Tree(m) && c in m.ctxs
    decreases m.ctxs[c].depth
  {
    assert NodeOk(m, c);
    (if m.ctxs[c].parent.Some? then ContextLen(m, m.ctxs[c].parent.value) else 0) + |m.ctxs[c].cells.blocks|
  }

  lemma {:induction false} LengthsAgree(m: Mem, c: nat)
    requires Tree(m) && c in m.ctxs
    ensures |BlockIds(m, c)| == |SlotIds(m, c)| == ContextLen(m, c)
    decreases m.ctxs[c].depth
  {
    assert NodeOk(m, c);
    if m.ctxs[c].parent.Some? { LengthsAgree(m, m.ctxs[c].parent.value); }
  }

  // ---------- Address translation ----------

  /** The attention kernel finds token p in block `table[p / bs]` at offset `p % bs`. */
  ghost predicate Translates(bs: BlockSize, blocks: seq<nat>, slots: seq<nat>, p: nat)
    requires |blocks| == |slots| && p < |blocks|
  {
    && p / bs < |Stride(blocks, bs)|
    && slots[p] == Stride(blocks, bs)[p / bs] * bs + p % bs
  }

  ghost predicate TranslatesAll(m: Mem, c: nat)
    requires Tree(m) && c in m.ctxs
  {
    && |BlockIds(m, c)| == |SlotIds(m, c)|
    && forall p :: 0 <= p < |BlockIds(m, c)| ==> Translates(m.bs, BlockIds(m, c), SlotIds(m, c), p)
  }

  /** Every context on the path that has tokens starts on a block boundary. */
  ghost predicate StartsAligned(m: Mem, c: nat)
    requires Tree(m) && c in m.ctxs
    decreases m.ctxs[c].depth
  {
    assert NodeOk(m, c);
    var b := m.ctxs[c];
    b.parent.Some? ==>
      (b.cells.blocks != [] ==> ContextLen(m, b.parent.value) % m.bs == 0) && StartsAligned(m, b.parent.value)
  }

  /** Appending tokens does not change the translation of earlier positions. */
  lemma TranslatesPrefix(bs: BlockSize, b0: seq<nat>, s0: seq<nat>, b1: seq<nat>, s1: seq<nat>, p: nat)
    requires |b0| == |s0| && |b1| == |s1| && p < |b0|
    ensures Translates(bs, b0 + b1, s0 + s1, p) <==> Translates(bs, b0, s0, p)
  {
    StrideCovers(b0 + b1, bs, p);
    StrideCovers(b0, bs, p);
  }

  /** The positions of one context translate exactly when the context starts on a block
      boundary. */
  lemma TranslatesOwn(bs: BlockSize, b0: seq<nat>, s0: seq<nat>, c: Cells, i: nat)
    requires |b0| == |s0| && CellsOk(bs, c) && i < |c.blocks| && |b0| % bs == 0
    ensures Translates(bs, b0 + c.blocks, s0 + c.slots, |b0| + i)
  {
    var p := |b0| + i;
    AddAligned(|b0|, i, bs);
    StrideCovers(b0 + c.blocks, bs, p);
    assert CellOk(bs, c, i);
    assert p - p % bs == |b0| + (i - i % bs);
  }

  lemma FirstTokenNeedsAlignment(bs: BlockSize, b0: seq<nat>, s0: seq<nat>, c: Cells)
    requires |b0| == |s0| && CellsOk(bs, c) && c.blocks != []
    requires Translates(bs, b0 + c.blocks, s0 + c.slots, |b0|)
    ensures |b0| % bs == 0
  {
    hide CellsOk, Stride;
    FirstSlot(bs, c);
    var blocks, slots := b0 + c.blocks, s0 + c.slots;
    assert slots[|b0|] == c.slots[0];
    NoRemainder(bs, c.blocks[0], Stride(blocks, bs)[|b0| / bs], |b0| % bs);
  }

  lemma FirstSlot(bs: BlockSize, c: Cells)
    requires CellsOk(bs, c) && c.blocks != []
    ensures c.slots[0] == c.blocks[0] * bs
  {
    assert CellOk(bs, c, 0);
    DivUnique(0, bs, 0, 0);
  }

  lemma NoRemainder(bs: BlockSize, a: nat, b: nat, r: nat)
    requires r < bs && a * bs == b * bs + r
    ensures r == 0
  {
    DivUnique(a * bs, bs, a, 0);
    DivUnique(a * bs, bs, b, r);
  }

  /** Address translation through the strided block table is right for every token of a
      context exactly when every non-empty context on its path starts on a block
      boundary.  This holds in any memory, aligned or not. */
  lemma {:induction false} TranslationExact(m: Mem, c: nat)
    requires Tree(m) && AllCellsOk(m) && c in m.ctxs
    ensures TranslatesAll(m, c) <==> StartsAligned(m, c)
    decreases m.ctxs[c].depth
  {
    hide CellsOk, Translates;
    assert NodeOk(m, c);
    var b := m.ctxs[c];
    LengthsAgree(m, c);
    if b.parent.Some? {
      var q := b.parent.value;
      TranslationExact(m, q);
      LengthsAgree(m, q);
      TranslationStep(m, c);
    } else {
      forall p | 0 <= p < |b.cells.blocks| ensures Translates(m.bs, BlockIds(m, c), SlotIds(m, c), p) {
        DivUnique(0, m.bs, 0, 0);
        TranslatesOwn(m.bs, [], [], b.cells, p);
      }
    }
  }

  lemma TranslationStep(m: Mem, c: nat)
    requires Tree(m) && AllCellsOk(m) && c in m.ctxs && NodeOk(m, c) && m.ctxs[c].parent.Some?
    requires |BlockIds(m, m.ctxs[c].parent.value)| == |SlotIds(m, m.ctxs[c].parent.value)|
             == ContextLen(m, m.ctxs[c].parent.value)
    ensures TranslatesAll(m, c) <==>
            TranslatesAll(m, m.ctxs[c].parent.value)
            && (m.ctxs[c].cells.blocks != [] ==> ContextLen(m, m.ctxs[c].parent.value) % m.bs == 0)
  {
    hide CellsOk, Translates, Tree;
    var b := m.ctxs[c];
    var q := b.parent.value;
    var b0, s0 := BlockIds(m, q), SlotIds(m, q);
    assert BlockIds(m, c) == b0 + b.cells.blocks && SlotIds(m, c) == s0 + b.cells.slots;
    forall p | 0 <= p < |b0|
      ensures Translates(m.bs, BlockIds(m, c), SlotIds(m, c), p) <==> Translates(m.bs, b0, s0, p)
    {
      TranslatesPrefix(m.bs, b0, s0, b.cells.blocks, b.cells.slots, p);
    }
    if |b0| % m.bs == 0 {
      forall p | |b0| <= p < |BlockIds(m, c)| ensures Translates(m.bs, BlockIds(m, c), SlotIds(m, c), p) {
        TranslatesOwn(m.bs, b0, s0, b.cells, p - |b0|);
      }
    } else if b.cells.blocks != [] && TranslatesAll(m, c) {
      assert Translates(m.bs, BlockIds(m, c), SlotIds(m, c), |b0|);
      FirstTokenNeedsAlignment(m.bs, b0, s0, b.cells);
    }
  }

  /** A context with children ends on a block boundary, counted from the root. */
  lemma {:induction false} ForkPointsAligned(m: Mem, c: nat)
    requires MemInv(m) && c in m.ctxs && m.ctxs[c].padded
    ensures ContextLen(m, c) % m.bs == 0
    decreases m.ctxs[c].depth
  {
    hide AllCellsOk, Ownership, PoolOk;
    assert NodeOk(m, c);
    if m.ctxs[c].parent.Some? {
      ParentPadded(m, c);
      ForkPointsAligned(m, m.ctxs[c].parent.value);
      AddAligned(ContextLen(m, m.ctxs[c].parent.value), |m.ctxs[c].cells.blocks|, m.bs);
    }
  }

  lemma ParentPadded(m: Mem, c: nat)
    requires MemInv(m) && c in m.ctxs && m.ctxs[c].parent.Some?
    ensures m.ctxs[c].parent.value in m.ctxs && m.ctxs[m.ctxs[c].parent.value].padded
    ensures m.ctxs[c].depth == m.ctxs[m.ctxs[c].parent.value].depth + 1
  {
    hide AllCellsOk, Ownership, PoolOk;
    assert NodeOk(m, c);
  }

  lemma {:induction false} InvStartsAligned(m: Mem, c: nat)
    requires MemInv(m) && c in m.ctxs
    ensures StartsAligned(m, c)
    decreases m.ctxs[c].depth
  {
    hide AllCellsOk, Ownership, PoolOk, Aligned;
    if m.ctxs[c].parent.Some? {
      ParentPadded(m, c);
      ForkPointsAligned(m, m.ctxs[c].parent.value);
      InvStartsAligned(m, m.ctxs[c].parent.value);
    }
  }

  // ---------- Extending a context below which others hang ----------

  /** The cells of one context changed, nothing else. */
  ghost predicate OnlyCells(m: Mem, n: Mem, p: nat) {
    && n.bs == m.bs && SameLinks(m, n)
    && forall d :: d in m.ctxs && d != p ==> n.ctxs[d].cells == m.ctxs[d].cells
  }

  lemma {:induction false} AboveUnchanged(m: Mem, n: Mem, p: nat, q: nat)
    requires Tree(m) && Tree(n) && OnlyCells(m, n, p)
    requires p in m.ctxs && q in m.ctxs && m.ctxs[q].depth < m.ctxs[p].depth
    ensures ContextLen(n, q) == ContextLen(m, q) && (StartsAligned(n, q) <==> StartsAligned(m, q))
    decreases m.ctxs[q].depth
  {
    hide Tree, NodeOk, ContextLen, StartsAligned;
    LenStep(m, q);
    LenStep(n, q);
    if m.ctxs[q].parent.Some? { AboveUnchanged(m, n, p, m.ctxs[q].parent.value); }
  }

  /** The length and the alignment of a context, from those of its parent. */
  lemma LenStep(m: Mem, c: nat)
    requires Tree(m) && c in m.ctxs
    ensures m.ctxs[c].parent.None? ==> ContextLen(m, c) == |m.ctxs[c].cells.blocks| && StartsAligned(m, c)
    ensures m.ctxs[c].parent.Some? ==>
              var q := m.ctxs[c].parent.value;
              && q in m.ctxs && m.ctxs[q].depth < m.ctxs[c].depth
              && ContextLen(m, c) == ContextLen(m, q) + |m.ctxs[c].cells.blocks|
              && (StartsAligned(m, c) <==>
                    (m.ctxs[c].cells.blocks != [] ==> ContextLen(m, q) % m.bs == 0) && StartsAligned(m, q))
  {
    assert NodeOk(m, c);
  }

  /** The rule against extending a context that has a child is exact: after n more tokens
      in the parent, the child still translates if and only if n is a whole number of
      blocks. */
  lemma ExtendForkIff(m: Mem, c: nat, p: nat, k: nat)
    requires MemInv(m) && c in m.ctxs && m.ctxs[c].parent == Some(p) && m.ctxs[c].cells.blocks != []
    requires p in m.ctxs && Extend(m, p, k).0
    ensures var n := Extend(m, p, k).1;
            Tree(n) && AllCellsOk(n) && (TranslatesAll(n, c) <==> k % m.bs == 0)
  {
    hide PoolOk, Tree, AllCellsOk, Ownership, Aligned, AllocN, TranslatesAll, StartsAligned, ContextLen;
    var n := Extend(m, p, k).1;
    ExtendShape(m, p, k);
    ParentPadded(m, c);
    ForkPointsAligned(m, p);
    SameLinksTree(m, n);
    TranslationExact(n, c);
    InvStartsAligned(m, p);
    LenStep(m, p);
    LenStep(n, p);
    LenStep(n, c);
    if m.ctxs[p].parent.Some? { AboveUnchanged(m, n, p, m.ctxs[p].parent.value); }
    assert ContextLen(n, p) == ContextLen(m, p) + k;
    AddAligned(ContextLen(m, p), k, m.bs);
  }

  lemma ExtendShape(m: Mem, p: nat, k: nat)
    requires MemInv(m) && p in m.ctxs && Extend(m, p, k).0
    ensures var n := Extend(m, p, k).1;
            && OnlyCells(m, n, p) && AllCellsOk(n)
            && |n.ctxs[p].cells.blocks| == |m.ctxs[p].cells.blocks| + k
  {
    hide Live, Valid, CellsOk, AllocN, Aligned, Tree;
    AllocNKeeps(m.bs, m.pool, m.ctxs[p].cells, k);
  }

  // ---------- Runs of the engine memory ----------

  datatype Op = BindOp(c: nat, parent: Option<nat>) | ExtendOp(c: nat, n: nat) | FreeOp(c: nat)

  /** The rule the serve layer keeps (see `EngineLink`): a context is not extended once a
      child was bound to it, and parents exist when children are bound. */
  predicate Allowed(m: Mem, op: Op) {
    match op
    case BindOp(c, parent) => c in m.ctxs || parent.None? || parent.value in m.ctxs
    case ExtendOp(c, _) => c in m.ctxs && !m.ctxs[c].padded
    case FreeOp(c) => c in m.ctxs ==> m.ctxs[c].kids == []
  }

  function After(m: Mem, op: Op): Result<Mem>
    requires Allowed(m, op)
  {
    match op
    case BindOp(c, parent) => Bind(m, c, parent)
    case ExtendOp(c, n) =>
      var (ok, r) := Extend(m, c, n);
      if ok then Ok(r) else Raised
    case FreeOp(c) =>
      var r :- Destroy(m, c);
      Ok(r.1)
  }

  /** The memory an operation leaves; an extension that exhausts the pool raises and leaves
      the tokens it got. */
  predicate Leaves(m: Mem, op: Op, n: Mem)
    requires Allowed(m, op)
  {
    match op
    case ExtendOp(c, k) => n == Extend(m, c, k).1
    case _ => After(m, op) == Ok(n)
  }

  ghost predicate MemRuns(m0: Mem, ops: seq<Op>, m: Mem)
    decreases |ops|
  {
    if ops == [] then m == m0
    else
      var k := |ops| - 1;
      exists r :: MemRuns(m0, ops[..k], r) && Allowed(r, ops[k]) && Leaves(r, ops[k], m)
  }

  function EmptyMem(bs: BlockSize, blocks: nat): Mem {
    Mem(bs, New(Some(blocks), false), map[])
  }

  lemma {:induction false} MemRunsKeep(bs: BlockSize, blocks: nat, ops: seq<Op>, m: Mem)
    requires MemRuns(EmptyMem(bs, blocks), ops, m)
    ensures MemInv(m) && m.bs == bs && m.pool.size == Some(blocks)
    decreases |ops|
  {
    if ops == [] {
      assert Live(m.pool) == {};
    } else {
      var k := |ops| - 1;
      var r :| MemRuns(EmptyMem(bs, blocks), ops[..k], r) && Allowed(r, ops[k]) && Leaves(r, ops[k], m);
      MemRunsKeep(bs, blocks, ops[..k], r);
      LeavesKeeps(r, ops[k], m);
      LeavesKeepsSize(r, ops[k], m);
    }
  }

  /** Of the allowed operations only an extension raises, and exactly when the pool has no
      room for it. */
  lemma AfterRaisesIff(m: Mem, op: Op)
    requires MemInv(m) && Allowed(m, op)
    ensures m.pool.size.Some?
    ensures After(m, op).Raised? <==> op.ExtendOp? && !HasRoom(m.bs, m.pool, |m.ctxs[op.c].cells.blocks|, op.n)
  {
    hide Tree, AllCellsOk, Ownership, Aligned, HasRoom;
    match op
    case BindOp(c, parent) => BindKeeps(m, c, parent);
    case ExtendOp(c, n) => ExtendSucceedsIff(m, c, n);
    case FreeOp(c) => DestroyKeeps(m, c);
  }

  /** Raised or not, the memory invariant is kept. */
  lemma LeavesKeeps(m: Mem, op: Op, n: Mem)
    requires MemInv(m) && Allowed(m, op) && Leaves(m, op, n)
    ensures MemInv(n)
  {
    hide MemInv;
    match op
    case BindOp(c, parent) => BindKeeps(m, c, parent);
    case ExtendOp(c, k) => ExtendKeeps(m, c, k);
    case FreeOp(c) => DestroyKeeps(m, c);
  }

  lemma LeavesKeepsSize(m: Mem, op: Op, r: Mem)
    requires MemInv(m) && Allowed(m, op) && Leaves(m, op, r)
    ensures r.bs == m.bs && r.pool.size == m.pool.size
  {
    hide MemInv, Destroy, Bind, AllocN;
    match op
    case BindOp(c, parent) => BindKeepsSize(m, c, parent);
    case ExtendOp(c, n) => ExtendKeepsSize(m, c, n);
    case FreeOp(c) => DestroyKeepsSize(m, c);
  }

  lemma BindKeepsSize(m: Mem, c: nat, parent: Option<nat>)
    requires MemInv(m) && (parent.Some? && c !in m.ctxs ==> parent.value in m.ctxs)
    ensures Bind(m, c, parent).Ok? && Bind(m, c, parent).value.bs == m.bs && Bind(m, c, parent).value.pool == m.pool
  {
    hide MemInv, AllocN;
    BindKeeps(m, c, parent);
  }

  lemma ExtendKeepsSize(m: Mem, c: nat, n: nat)
    requires MemInv(m) && c in m.ctxs
    ensures Extend(m, c, n).1.bs == m.bs && Extend(m, c, n).1.pool.size == m.pool.size
  {
    hide CellsOk, Owned, AllocN, Tree;
    CellsOwned(m, c);
    AllocNKeeps(m.bs, m.pool, m.ctxs[c].cells, n);
  }

  lemma {:induction false} FreeAllKeepsSize(p: Pool, bs: seq<nat>)
    requires FreeAll(p, bs).Ok?
    ensures FreeAll(p, bs).value.size == p.size
    decreases |bs|
  {
    if bs != [] { FreeAllKeepsSize(Free(p, bs[0]).value, bs[1..]); }
  }

  lemma DestroyKeepsSize(m: Mem, c: nat)
    requires Destroy(m, c).Ok?
    ensures Destroy(m, c).value.1.bs == m.bs && Destroy(m, c).value.1.pool.size == m.pool.size
  {
    hide FreeAll, Stride;
    if c in m.ctxs { FreeAllKeepsSize(m.pool, Stride(m.ctxs[c].cells.blocks, m.bs)); }
  }

  /** A pool that runs out: with one context bound on an engine of the given size, n tokens
      raise if and only if they do not fit into one block less than the size. */
  lemma OneContextCapacity(bs: BlockSize, blocks: nat, c: nat, n: nat) returns (m: Mem)
    ensures MemRuns(EmptyMem(bs, blocks), [BindOp(c, None)], m) && c in m.ctxs && Allowed(m, ExtendOp(c, n))
    ensures After(m, ExtendOp(c, n)).Raised? <==> n > 0 && n > (blocks - 1) * bs
  {
    hide MemInv, CeilDiv;
    var m0 := EmptyMem(bs, blocks);
    m := Bind(m0, c, None).value;
    var ops := [BindOp(c, None)];
    assert ops[..|ops| - 1] == [] && ops[|ops| - 1] == BindOp(c, None);
    assert MemRuns(m0, ops[..|ops| - 1], m0) && Leaves(m0, ops[|ops| - 1], m);
    MemRunsKeep(bs, blocks, ops, m);
    AfterRaisesIff(m, ExtendOp(c, n));
    assert Live(m.pool) == {};
    FitsBelow(bs, blocks, n);
    FitsBelow(bs, blocks, 0);
  }

  lemma FitsBelow(bs: BlockSize, blocks: nat, n: nat)
    ensures CeilDiv(n, bs) == 0 <==> n == 0
    ensures CeilDiv(n, bs) <= blocks - 1 <==> n <= (blocks - 1) * bs
  {
    CeilIff(n, bs, 0);
    if blocks > 0 { CeilIff(n, bs, blocks - 1); }
  }

  /** Over every run, the block table of every context translates every token of the
      context and all its ancestors to the slot that was allocated for it. */
  lemma RunsTranslate(bs: BlockSize, blocks: nat, ops: seq<Op>, m: Mem, c: nat)
    requires MemRuns(EmptyMem(bs, blocks), ops, m) && c in m.ctxs
    ensures Tree(m) && TranslatesAll(m, c)
  {
    MemRunsKeep(bs, blocks, ops, m);
    InvStartsAligned(m, c);
    TranslationExact(m, c);
  }

  // ---------- Memory safety ----------

  lemma SlotOf(m: Mem, c: nat, i: nat)
    requires MemInv(m) && c in m.ctxs && i < |m.ctxs[c].cells.slots|
    ensures m.ctxs[c].cells.slots[i] == m.ctxs[c].cells.blocks[i] * m.bs + i % m.bs
    ensures m.ctxs[c].cells.slots[i] / m.bs == m.ctxs[c].cells.blocks[i] && m.ctxs[c].cells.slots[i] % m.bs == i % m.bs
    ensures m.ctxs[c].cells.blocks[i] in Owned(m.ctxs[c].cells) && m.ctxs[c].cells.blocks[i] in Live(m.pool)
  {
    var cells := m.ctxs[c].cells;
    assert CellOk(m.bs, cells, i);
    DivUnique(cells.slots[i], m.bs, cells.blocks[i], i % m.bs);
    assert cells.blocks[i] in Owned(cells);
  }

  lemma SameBlockSameIndex(bs: BlockSize, c: Cells, i: nat, j: nat)
    requires CellsOk(bs, c) && i < |c.blocks| && j < |c.blocks| && c.blocks[i] == c.blocks[j] && i % bs == j % bs
    ensures i == j
  {
    assert CellOk(bs, c, i) && CellOk(bs, c, j);
    FloorAligned(i, bs);
    FloorAligned(j, bs);
  }

  /** Over every run of bind, extend, pad and free, no KV slot is shared by two tokens,
      every slot lies inside the cache, and the live blocks of the pool are exactly the
      blocks of the live contexts, ceil(tokens / block size) for each of them. */
  lemma SlotsNeverShared(bs: BlockSize, blocks: nat, ops: seq<Op>, m: Mem, c: nat, i: nat, d: nat, j: nat)
    requires MemRuns(EmptyMem(bs, blocks), ops, m)
    requires c in m.ctxs && i < |m.ctxs[c].cells.slots| && d in m.ctxs && j < |m.ctxs[d].cells.slots|
    ensures m.ctxs[c].cells.slots[i] == m.ctxs[d].cells.slots[j] ==> c == d && i == j
    ensures m.ctxs[c].cells.slots[i] < blocks * bs
  {
    hide MemInv;
    MemRunsKeep(bs, blocks, ops, m);
    SlotsDistinct(m, c, i, d, j);
    SlotInRange(m, c, i);
  }

  lemma SlotsDistinct(m: Mem, c: nat, i: nat, d: nat, j: nat)
    requires MemInv(m)
    requires c in m.ctxs && i < |m.ctxs[c].cells.slots| && d in m.ctxs && j < |m.ctxs[d].cells.slots|
    ensures m.ctxs[c].cells.slots[i] == m.ctxs[d].cells.slots[j] ==> c == d && i == j
  {
    hide MemInv;
    SlotOf(m, c, i);
    SlotOf(m, d, j);
    SameBlockSameContext(m, c, i, d, j);
  }

  lemma SameBlockSameContext(m: Mem, c: nat, i: nat, d: nat, j: nat)
    requires MemInv(m)
    requires c in m.ctxs && i < |m.ctxs[c].cells.blocks| && d in m.ctxs && j < |m.ctxs[d].cells.blocks|
    ensures m.ctxs[c].cells.blocks[i] == m.ctxs[d].cells.blocks[j] && i % m.bs == j % m.bs ==> c == d && i == j
  {
    hide Tree, PoolOk, Aligned, Live;
    if m.ctxs[c].cells.blocks[i] == m.ctxs[d].cells.blocks[j] && i % m.bs == j % m.bs {
      assert m.ctxs[c].cells.blocks[i] in Owned(m.ctxs[c].cells) && m.ctxs[c].cells.blocks[i] in Owned(m.ctxs[d].cells);
      if c == d { SameBlockSameIndex(m.bs, m.ctxs[c].cells, i, j); }
    }
  }

  lemma SlotInRange(m: Mem, c: nat, i: nat)
    requires MemInv(m) && m.pool.size.Some? && c in m.ctxs && i < |m.ctxs[c].cells.slots|
    ensures m.ctxs[c].cells.slots[i] < m.pool.size.value * m.bs
  {
    hide Tree, Aligned, Ownership, AllCellsOk;
    SlotOf(m, c, i);
    var b := m.ctxs[c].cells.blocks[i];
    LiveInRange(m.pool, b);
    var blocks := m.pool.size.value;
    MulSign(blocks - b - 1, m.bs);
    assert blocks * m.bs == (blocks - b - 1) * m.bs + b * m.bs + m.bs;
  }

  lemma BlocksConserved(bs: BlockSize, blocks: nat, ops: seq<Op>, m: Mem)
    requires MemRuns(EmptyMem(bs, blocks), ops, m)
    ensures forall c :: c in m.ctxs ==> |Owned(m.ctxs[c].cells)| == CeilDiv(|m.ctxs[c].cells.blocks|, bs)
    ensures forall c, d :: c in m.ctxs && d in m.ctxs && c != d ==> Owned(m.ctxs[c].cells) !! Owned(m.ctxs[d].cells)
    ensures forall b :: b in Live(m.pool) <==> exists c :: Owns(m, c, b)
  {
    MemRunsKeep(bs, blocks, ops, m);
    forall c | c in m.ctxs ensures |Owned(m.ctxs[c].cells)| == CeilDiv(|m.ctxs[c].cells.blocks|, bs) {
      OwnedCount(bs, m.ctxs[c].cells);
    }
  }
}
