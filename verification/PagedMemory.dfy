/** The engine's paged KV memory: `BlockContext`, `LowLevelContext` and
    `EngineContextManager`.  A tree of contexts, each with per-token block and slot ids,
    over one pool of blocks. */
module PagedMemory {
  import opened Wrappers
  import opened RecyclePools
  import opened Strides

  /** `token_kv_block_ids` and `token_kv_slot_ids` of one context, one entry per token. */
  datatype TokenLists = Cells(blocks: seq<nat>, slots: seq<nat>)

  type Cells = c: TokenLists | |c.blocks| == |c.slots| witness Cells([], [])

  type BlockSize = n: nat | n > 0 witness 1

  const EMPTY: Cells := Cells([], [])

  /** `_allocate_one`; the flag is false when the pool raised. */
  function AllocOne(bs: BlockSize, pool: Pool, c: Cells): (bool, Pool, Cells)
  {
    var idx := |c.blocks|;
    if idx % bs == 0 then
      var (r, q) := Allocate(pool);
      match r
      case None => (false, q, c)
      case Some(b) => (true, q, Cells(c.blocks + [b], c.slots + [b * bs]))
    else
      assert idx > 0;
      (true, pool, Cells(c.blocks + [c.blocks[idx - 1]], c.slots + [c.slots[idx - 1] + 1]))
  }

  /** `allocate`: on exhaustion the tokens allocated so far stay. */
  function AllocN(bs: BlockSize, pool: Pool, c: Cells, n: nat): (bool, Pool, Cells)
    decreases n
  {
    if n == 0 then (true, pool, c)
    else
      var (ok, q, d) := AllocOne(bs, pool, c);
      if ok then AllocN(bs, q, d, n - 1) else (false, q, d)
  }

  datatype Block = Block(parent: Option<nat>, kids: seq<nat>, depth: nat, padded: bool, cells: Cells)

  datatype Mem = Mem(bs: BlockSize, pool: Pool, ctxs: map<nat, Block>)

  /** The parent's side of `BlockContext.__init__`: it gets a sub-context and, the first
      time, is padded to a whole number of blocks. */
  function Adopt(m: Mem, p: nat, c: nat): Result<Mem>
    requires p in m.ctxs
  {
    var b := m.ctxs[p].(kids := m.ctxs[p].kids + [c]);
    if b.padded then Ok(m.(ctxs := m.ctxs[p := b]))
    else
      var len := |b.cells.blocks|;
      CeilBounds(len, m.bs);
      var (ok, pool, cells) := AllocN(m.bs, m.pool, b.cells, CeilDiv(len, m.bs) * m.bs - len);
      if ok then Ok(m.(pool := pool, ctxs := m.ctxs[p := b.(cells := cells, padded := true)])) else Raised
  }

  /** `bind_job_context`. */
  function Bind(m: Mem, c: nat, parent: Option<nat>): Result<Mem>
  {
    if c in m.ctxs then Ok(m)
    else match parent
      case None => Ok(m.(ctxs := m.ctxs[c := Block(None, [], 0, false, EMPTY)]))
      case Some(p) =>
        if p !in m.ctxs then Raised
        else
          var n :- Adopt(m, p, c);
          Ok(n.(ctxs := n.ctxs[c := Block(parent, [], m.ctxs[p].depth + 1, false, EMPTY)]))
  }

  /** `context.allocate(n)` as `run_iter` calls it; the flag is false when the pool
      raised. */
  function Extend(m: Mem, c: nat, n: nat): (bool, Mem)
    requires c in m.ctxs
  {
    var (ok, pool, cells) := AllocN(m.bs, m.pool, m.ctxs[c].cells, n);
    (ok, m.(pool := pool, ctxs := m.ctxs[c := m.ctxs[c].(cells := cells)]))
  }

  function Without(s: seq<nat>, x: nat): seq<nat> {
    if s == [] then [] else if s[0] == x then s[1..] else [s[0]] + Without(s[1..], x)
  }

  function FreeAll(p: Pool, bs: seq<nat>): Result<Pool>
    decreases |bs|
  {
    if bs == [] then Ok(p)
    else
      var q :- Free(p, bs[0]);
      FreeAll(q, bs[1..])
  }

  /** `free_context` and `destruction`: an unknown id frees nothing; a context that still
      has sub-contexts raises; otherwise every block it owns goes back to the pool. */
  function Destroy(m: Mem, c: nat): Result<(nat, Mem)>
  {
    if c !in m.ctxs then Ok((0, m))
    else
      var b := m.ctxs[c];
      if b.parent.Some? && (b.parent.value !in m.ctxs || c !in m.ctxs[b.parent.value].kids) then Raised
      else if b.kids != [] then Raised
      else
        var pool :- FreeAll(m.pool, Stride(b.cells.blocks, m.bs));
        var rest := m.ctxs - {c};
        var ctxs := if b.parent.Some? && b.parent.value in rest
                    then rest[b.parent.value := rest[b.parent.value].(kids := Without(rest[b.parent.value].kids, c))]
                    else rest;
        Ok((|b.cells.blocks|, m.(pool := pool, ctxs := ctxs)))
  }

  // ---------- One context ----------

  /** Tokens of one block sit in consecutive slots of one physical block, and different
      blocks are different physical blocks. */
  ghost predicate CellsOk(bs: BlockSize, c: Cells)
  {
    && |c.blocks| == |c.slots|
    && (forall i :: 0 <= i < |c.blocks| ==> CellOk(bs, c, i))
    && (forall i, j :: 0 <= i < j < |c.blocks| && i % bs == 0 && j % bs == 0 ==> c.blocks[i] != c.blocks[j])
  }

  ghost predicate CellOk(bs: BlockSize, c: Cells, i: nat)
    requires i < |c.blocks|
  {
    && 0 <= i - i % bs <= i && c.blocks[i] == c.blocks[i - i % bs]
    && c.slots[i] == c.blocks[i] * bs + i % bs
  }

  ghost function Elements(s: seq<nat>): set<nat> {
    set b | b in s
  }

  ghost function Owned(c: Cells): set<nat> {
    Elements(c.blocks)
  }

  lemma AppendKeeps(bs: BlockSize, c: Cells, b: nat, s: nat)
    requires CellsOk(bs, c)
    requires |c.blocks| % bs == 0 ==> b !in c.blocks && s == b * bs
    requires |c.blocks| % bs != 0 ==>
               |c.blocks| > 0 && b == c.blocks[|c.blocks| - 1] && s == c.slots[|c.blocks| - 1] + 1
    ensures CellsOk(bs, Cells(c.blocks + [b], c.slots + [s]))
  {
    var d := Cells(c.blocks + [b], c.slots + [s]);
    var idx := |c.blocks|;
    forall i | 0 <= i < |d.blocks| ensures CellOk(bs, d, i) {
      if i < idx {
        assert CellOk(bs, c, i);
      } else if idx % bs != 0 {
        ModSucc(idx, bs);
        assert CellOk(bs, c, idx - 1);
        assert idx - 1 - (idx - 1) % bs == idx - idx % bs;
      }
    }
  }

  lemma AllocOneKeeps(bs: BlockSize, pool: Pool, c: Cells)
    requires CellsOk(bs, c) && Valid(pool) && Owned(c) <= Live(pool)
    ensures var (ok, q, d) := AllocOne(bs, pool, c);
            && CellsOk(bs, d) && Valid(q) && q.size == pool.size && q.fixedOrder == pool.fixedOrder
            && Owned(c) <= Owned(d) && Owned(d) - Owned(c) !! Live(pool)
            && Live(q) == Live(pool) + Owned(d)
            && |d.blocks| == |c.blocks| + (if ok then 1 else 0)
            && (|c.blocks| % bs != 0 ==> ok && q == pool && Owned(d) == Owned(c))
  {
    hide CellsOk, Live, Valid;
    var (ok, q, d) := AllocOne(bs, pool, c);
    var idx := |c.blocks|;
    AllocateKeeps(pool);
    if ok {
      var b, s := d.blocks[idx], d.slots[idx];
      assert d == Cells(c.blocks + [b], c.slots + [s]);
      assert idx % bs == 0 ==> b !in Owned(c);
      AppendKeeps(bs, c, b, s);
      assert Owned(d) == Owned(c) + {b};
      assert idx % bs != 0 ==> b in Owned(c);
    }
  }

  lemma {:induction false} AllocNKeeps(bs: BlockSize, pool: Pool, c: Cells, n: nat)
    requires CellsOk(bs, c) && Valid(pool) && Owned(c) <= Live(pool)
    ensures var (ok, q, d) := AllocN(bs, pool, c, n);
            && CellsOk(bs, d) && Valid(q) && q.size == pool.size && q.fixedOrder == pool.fixedOrder
            && Owned(c) <= Owned(d) && Owned(d) - Owned(c) !! Live(pool)
            && Live(q) == Live(pool) + Owned(d)
            && |c.blocks| <= |d.blocks| <= |c.blocks| + n
            && (ok ==> |d.blocks| == |c.blocks| + n)
    decreases n
  {
    if n > 0 {
      AllocOneKeeps(bs, pool, c);
      var (ok, q, d) := AllocOne(bs, pool, c);
      if ok { AllocNKeeps(bs, q, d, n - 1); }
    }
  }

  /** Allocation only appends. */
  lemma {:induction false} AllocNExtends(bs: BlockSize, pool: Pool, c: Cells, n: nat)
    ensures c.blocks <= AllocN(bs, pool, c, n).2.blocks && c.slots <= AllocN(bs, pool, c, n).2.slots
    decreases n
  {
    if n > 0 {
      var (ok, q, d) := AllocOne(bs, pool, c);
      if ok { AllocNExtends(bs, q, d, n - 1); }
    }
  }

  /** How many blocks n more tokens take. */
  function NewBlocks(bs: BlockSize, len: nat, n: nat): int {
    CeilDiv(len + n, bs) - CeilDiv(len, bs)
  }

  /** The pool can serve them: none is needed, or all of them are among the size - 1 ids
      that the pool hands out. */
  ghost predicate HasRoom(bs: BlockSize, pool: Pool, len: nat, n: nat)
    requires pool.size.Some?
  {
    NewBlocks(bs, len, n) == 0 || |Live(pool)| + NewBlocks(bs, len, n) <= pool.size.value - 1
  }

  /** Allocation raises exactly when the pool has too few free blocks left. */
  lemma {:induction false} AllocNSucceedsIff(bs: BlockSize, pool: Pool, c: Cells, n: nat)
    requires CellsOk(bs, c) && Valid(pool) && Owned(c) <= Live(pool) && pool.size.Some? && !pool.fixedOrder
    ensures AllocN(bs, pool, c, n).0 <==> HasRoom(bs, pool, |c.blocks|, n)
    decreases n
  {
    hide CellsOk, Live, Valid, CeilDiv, Allocate, Owned;
    if n > 0 {
      var len := |c.blocks|;
      AllocOneKeeps(bs, pool, c);
      AllocOneCounts(bs, pool, c);
      CeilStep(len, bs);
      CeilMono(len + 1, n - 1, bs);
      var (ok, q, d) := AllocOne(bs, pool, c);
      if ok {
        AllocNSucceedsIff(bs, q, d, n - 1);
        assert len + 1 + (n - 1) == len + n;
      }
    }
  }

  /** One token: a block is taken exactly at a block boundary, if one is left. */
  lemma AllocOneCounts(bs: BlockSize, pool: Pool, c: Cells)
    requires Valid(pool) && pool.size.Some? && !pool.fixedOrder
    ensures var (ok, q, d) := AllocOne(bs, pool, c);
            && (|c.blocks| % bs != 0 ==> ok && q == pool)
            && (|c.blocks| % bs == 0 ==> (ok <==> |Live(pool)| < pool.size.value - 1))
            && (|c.blocks| % bs == 0 && ok ==> |Live(q)| == |Live(pool)| + 1)
  {
    hide Live, Valid;
    AllocateKeeps(pool);
    AllocateRaisesIffExhausted(pool);
  }

  /** Padding up to the end of the current block needs no new block, so it never raises. */
  lemma {:induction false} PaddingIsFree(bs: BlockSize, pool: Pool, c: Cells, n: nat)
    requires CellsOk(bs, c) && Valid(pool) && Owned(c) <= Live(pool)
    requires n == 0 || |c.blocks| % bs + n <= bs
    requires n > 0 ==> |c.blocks| % bs != 0
    ensures var (ok, q, d) := AllocN(bs, pool, c, n); ok && q == pool && Owned(d) == Owned(c)
    decreases n
  {
    if n > 0 {
      AllocOneKeeps(bs, pool, c);
      var (ok, q, d) := AllocOne(bs, pool, c);
      var k := ModSplit(|c.blocks|, bs);
      if n > 1 { DivUnique(|d.blocks|, bs, k, |c.blocks| % bs + 1); }
      PaddingIsFree(bs, q, d, n - 1);
    }
  }

  lemma PadToBlock(bs: BlockSize, pool: Pool, c: Cells)
    requires CellsOk(bs, c) && Valid(pool) && Owned(c) <= Live(pool)
    ensures CeilDiv(|c.blocks|, bs) * bs >= |c.blocks|
    ensures var (ok, q, d) := AllocN(bs, pool, c, CeilDiv(|c.blocks|, bs) * bs - |c.blocks|);
            ok && q == pool && CellsOk(bs, d) && Owned(d) == Owned(c) && |d.blocks| % bs == 0
  {
    CeilBounds(|c.blocks|, bs);
    var n := CeilDiv(|c.blocks|, bs) * bs - |c.blocks|;
    PaddingIsFree(bs, pool, c, n);
    AllocNKeeps(bs, pool, c, n);
  }

  // ---------- The whole memory ----------

  ghost predicate PoolOk(m: Mem) {
    Valid(m.pool) && m.pool.size.Some? && !m.pool.fixedOrder
  }

  /** The contexts form a tree: parents are present, depths count edges, and
      `sub_context_ids` lists exactly the children. */
  ghost predicate NodeOk(m: Mem, c: nat)
    requires c in m.ctxs
  {
    var b := m.ctxs[c];
    && (b.parent.None? ==> b.depth == 0)
    && (b.parent.Some? ==>
         b.parent.value in m.ctxs && b.depth == m.ctxs[b.parent.value].depth + 1 && c in m.ctxs[b.parent.value].kids)
    && (forall d :: d in b.kids ==> d in m.ctxs && m.ctxs[d].parent == Some(c))
    && (forall i, j :: 0 <= i < j < |b.kids| ==> b.kids[i] != b.kids[j])
  }

  ghost predicate Tree(m: Mem) {
    forall c :: c in m.ctxs ==> NodeOk(m, c)
  }

  ghost predicate AllCellsOk(m: Mem)
  {
    forall c :: c in m.ctxs ==> CellsOk(m.bs, m.ctxs[c].cells)
  }

  /** No block belongs to two contexts, and the live ids of the pool are exactly the
      blocks of the live contexts. */
  ghost predicate Ownership(m: Mem) {
    && (forall c :: c in m.ctxs ==> Owned(m.ctxs[c].cells) <= Live(m.pool))
    && (forall c, d :: c in m.ctxs && d in m.ctxs && c != d ==> Owned(m.ctxs[c].cells) !! Owned(m.ctxs[d].cells))
    && (forall b :: b in Live(m.pool) ==> exists c :: Owns(m, c, b))
  }

  ghost predicate Owns(m: Mem, c: nat, b: nat) {
    c in m.ctxs && b in Owned(m.ctxs[c].cells)
  }

  /** A context with children is padded, and a padded context ends on a block boundary. */
  ghost predicate Aligned(m: Mem)
  {
    forall c :: c in m.ctxs ==>
      && (m.ctxs[c].kids != [] ==> m.ctxs[c].padded)
      && (m.ctxs[c].padded ==> |m.ctxs[c].cells.blocks| % m.bs == 0)
  }

  ghost predicate MemInv(m: Mem) {
    PoolOk(m) && Tree(m) && AllCellsOk(m) && Ownership(m) && Aligned(m)
  }

  /** The cells of one context grew by blocks that were free. */
  ghost predicate GrewCells(m: Mem, n: Mem, c: nat)
    requires c in m.ctxs
  {
    && n.bs == m.bs && n.ctxs.Keys == m.ctxs.Keys
    && (forall d :: d in m.ctxs && d != c ==> n.ctxs[d].cells == m.ctxs[d].cells)
    && Owned(m.ctxs[c].cells) <= Owned(n.ctxs[c].cells)
    && Owned(n.ctxs[c].cells) - Owned(m.ctxs[c].cells) !! Live(m.pool)
    && Live(n.pool) == Live(m.pool) + Owned(n.ctxs[c].cells)
  }

  lemma GrewKeepsOwnership(m: Mem, n: Mem, c: nat)
    requires Ownership(m) && c in m.ctxs && GrewCells(m, n, c)
    ensures Ownership(n)
  {
    hide Owned, Live;
    forall b | b in Live(n.pool) ensures exists d :: Owns(n, d, b) {
      if b in Owned(n.ctxs[c].cells) {
        assert Owns(n, c, b);
      } else {
        var d :| Owns(m, d, b);
        assert Owns(n, d, b);
      }
    }
  }

  /** Extending a context that was never padded keeps the invariant, also when the pool
      runs out halfway. */
  lemma ExtendKeeps(m: Mem, c: nat, n: nat)
    requires MemInv(m) && c in m.ctxs && !m.ctxs[c].padded
    ensures MemInv(Extend(m, c, n).1)
  {
    hide CellsOk, Owned, Live, Valid, NodeOk, AllocN, Ownership, Tree;
    CellsOwned(m, c);
    AllocNKeeps(m.bs, m.pool, m.ctxs[c].cells, n);
    var r := Extend(m, c, n).1;
    SameLinksTree(m, r);
    GrewKeepsOwnership(m, r, c);
  }

  /** Extending a context raises exactly when the pool has no room for the tokens. */
  lemma ExtendSucceedsIff(m: Mem, c: nat, n: nat)
    requires MemInv(m) && c in m.ctxs
    ensures Extend(m, c, n).0 <==> HasRoom(m.bs, m.pool, |m.ctxs[c].cells.blocks|, n)
  {
    hide CellsOk, Owned, Live, Valid, AllocN, Ownership, Tree, HasRoom;
    CellsOwned(m, c);
    AllocNSucceedsIff(m.bs, m.pool, m.ctxs[c].cells, n);
  }

  lemma CellsOwned(m: Mem, c: nat)
    requires Ownership(m) && c in m.ctxs
    ensures Owned(m.ctxs[c].cells) <= Live(m.pool)
  {}

  /** A new leaf c below p. */
  function WithLeaf(m: Mem, c: nat, p: nat, depth: nat): Mem
    requires p in m.ctxs
  {
    m.(ctxs := m.ctxs[p := m.ctxs[p].(kids := m.ctxs[p].kids + [c])][c := Block(Some(p), [], depth, false, EMPTY)])
  }

  lemma AddLeafKeepsTree(m: Mem, c: nat, p: nat, depth: nat)
    requires Tree(m) && c !in m.ctxs && p in m.ctxs && c != p && depth == m.ctxs[p].depth + 1
    ensures Tree(WithLeaf(m, c, p, depth))
  {
    var n := WithLeaf(m, c, p, depth);
    assert NodeOk(m, p);
    forall d | d in n.ctxs ensures NodeOk(n, d) {
      if d != c { assert NodeOk(m, d); }
    }
  }

  /** Two memories with the same tree links. */
  ghost predicate SameLinks(m: Mem, n: Mem) {
    && n.ctxs.Keys == m.ctxs.Keys
    && forall c :: c in m.ctxs ==>
         n.ctxs[c].parent == m.ctxs[c].parent && n.ctxs[c].kids == m.ctxs[c].kids && n.ctxs[c].depth == m.ctxs[c].depth
  }

  lemma SameLinksTree(m: Mem, n: Mem)
    requires Tree(m) && SameLinks(m, n)
    ensures Tree(n)
  {
    forall c | c in n.ctxs ensures NodeOk(n, c) { assert NodeOk(m, c); }
  }

  lemma AdoptShape(m: Mem, p: nat, c: nat)
    requires MemInv(m) && p in m.ctxs
    ensures Adopt(m, p, c).Ok?
    ensures var n := Adopt(m, p, c).value;
            && n.bs == m.bs && n.pool == m.pool && n.ctxs.Keys == m.ctxs.Keys
            && (forall d :: d in m.ctxs && d != p ==> n.ctxs[d] == m.ctxs[d])
            && n.ctxs[p] == Block(m.ctxs[p].parent, m.ctxs[p].kids + [c], m.ctxs[p].depth, true, n.ctxs[p].cells)
            && CellsOk(m.bs, n.ctxs[p].cells) && Owned(n.ctxs[p].cells) == Owned(m.ctxs[p].cells)
            && |n.ctxs[p].cells.blocks| % m.bs == 0
  {
    hide CellsOk, Owned, Live, Valid;
    if !m.ctxs[p].padded {
      PadToBlock(m.bs, m.pool, m.ctxs[p].cells);
    }
  }

  /** Binding a new context under a known parent (or none) never raises: padding the
      parent takes no block. */
  lemma BindKeeps(m: Mem, c: nat, parent: Option<nat>)
    requires MemInv(m) && (parent.Some? && c !in m.ctxs ==> parent.value in m.ctxs)
    ensures Bind(m, c, parent).Ok? && MemInv(Bind(m, c, parent).value)
    ensures c in Bind(m, c, parent).value.ctxs && Bind(m, c, parent).value.pool == m.pool
    ensures Bind(m, c, parent).value.ctxs.Keys == m.ctxs.Keys + {c}
  {
    if c !in m.ctxs {
      if parent.None? {
        BindRootKeeps(m, c);
      } else {
        BindChildKeeps(m, c, parent.value);
      }
    } else {
      assert m.ctxs.Keys == m.ctxs.Keys + {c};
    }
  }

  lemma BindRootKeeps(m: Mem, c: nat)
    requires MemInv(m) && c !in m.ctxs
    ensures MemInv(Bind(m, c, None).value)
  {
    hide Live, Valid, CellsOk, Owned, NodeOk, Ownership, Tree;
    var n := Bind(m, c, None).value;
    AddRootKeepsTree(m, c);
    NewOwnsNothing(m, n, c);
    EmptyCellsOk(m.bs);
  }

  lemma AddRootKeepsTree(m: Mem, c: nat)
    requires Tree(m) && c !in m.ctxs
    ensures Tree(m.(ctxs := m.ctxs[c := Block(None, [], 0, false, EMPTY)]))
  {
    var n := m.(ctxs := m.ctxs[c := Block(None, [], 0, false, EMPTY)]);
    forall d | d in n.ctxs ensures NodeOk(n, d) { if d != c { assert NodeOk(m, d); } }
  }

  lemma NewOwnsNothing(m: Mem, n: Mem, c: nat)
    requires Ownership(m) && c !in m.ctxs && n.pool == m.pool && n.ctxs.Keys == m.ctxs.Keys + {c}
    requires n.ctxs[c].cells == EMPTY
    requires forall d :: d in m.ctxs ==> Owned(n.ctxs[d].cells) == Owned(m.ctxs[d].cells)
    ensures Ownership(n)
  {
    hide Live;
    assert Owned(EMPTY) == {};
    forall b | b in Live(n.pool) ensures exists d :: Owns(n, d, b) {
      var d :| Owns(m, d, b);
      assert Owns(n, d, b);
    }
  }

  lemma BindChildKeeps(m: Mem, c: nat, p: nat)
    requires MemInv(m) && c !in m.ctxs && p in m.ctxs
    ensures Bind(m, c, Some(p)).Ok? && MemInv(Bind(m, c, Some(p)).value)
    ensures Bind(m, c, Some(p)).value.pool == m.pool
    ensures Bind(m, c, Some(p)).value.ctxs.Keys == m.ctxs.Keys + {c}
  {
    hide CellsOk, Owned, Live, Valid, Adopt, NodeOk, Ownership, Tree, SameLinks;
    AdoptShape(m, p, c);
    var n := Bind(m, c, Some(p)).value;
    AddLeafKeepsTree(m, c, p, m.ctxs[p].depth + 1);
    SameLinksTree(WithLeaf(m, c, p, m.ctxs[p].depth + 1), n);
    NewOwnsNothing(m, n, c);
    EmptyCellsOk(m.bs);
  }

  lemma EmptyCellsOk(bs: BlockSize)
    ensures CellsOk(bs, EMPTY)
  {}

  // ---------- Destruction ----------

  lemma {:induction false} FreeAllKeeps(p: Pool, bs: seq<nat>)
    requires Valid(p) && (forall i :: 0 <= i < |bs| ==> bs[i] in Live(p))
    requires forall i, j :: 0 <= i < j < |bs| ==> bs[i] != bs[j]
    ensures FreeAll(p, bs).Ok?
    ensures var q := FreeAll(p, bs).value;
            && Valid(q) && q.size == p.size && q.fixedOrder == p.fixedOrder
            && Live(q) == Live(p) - Elements(bs)
    decreases |bs|
  {
    hide Valid, Live;
    if bs == [] {
    } else {
      FreeKeeps(p, bs[0]);
      FreeAllKeeps(Free(p, bs[0]).value, bs[1..]);
      assert bs == [bs[0]] + bs[1..];
      assert Elements(bs) == {bs[0]} + Elements(bs[1..]);
    }
  }

  /** The strided block ids of a context are its blocks, each once. */
  lemma StrideOwns(bs: BlockSize, c: Cells)
    requires CellsOk(bs, c)
    ensures Elements(Stride(c.blocks, bs)) == Owned(c)
    ensures forall i, j :: 0 <= i < j < |Stride(c.blocks, bs)| ==> Stride(c.blocks, bs)[i] != Stride(c.blocks, bs)[j]
  {
    var t := Stride(c.blocks, bs);
    forall k | 0 <= k < |t| ensures 0 <= k * bs < |c.blocks| && t[k] == c.blocks[k * bs] && (k * bs) % bs == 0 {
      StrideAt(c.blocks, bs, k);
      DivUnique(k * bs, bs, k, 0);
    }
    forall i, j | 0 <= i < j < |t| ensures t[i] != t[j] {
      MulSign(j - i, bs);
      assert j * bs == i * bs + (j - i) * bs;
    }
    forall b | b in Owned(c) ensures b in t {
      var i :| 0 <= i < |c.blocks| && c.blocks[i] == b;
      assert CellOk(bs, c, i);
      StrideCovers(c.blocks, bs, i);
    }
  }

  lemma {:induction false} DistinctCard(s: seq<nat>)
    requires forall i, j :: 0 <= i < j < |s| ==> s[i] != s[j]
    ensures |Elements(s)| == |s|
  {
    if s != [] {
      var k := |s| - 1;
      DistinctCard(s[..k]);
      assert s == s[..k] + [s[k]];
      assert s[k] !in s[..k];
      assert Elements(s) == Elements(s[..k]) + {s[k]};
    } else {
      assert Elements(s) == {};
    }
  }

  /** A context of n tokens owns exactly ceil(n / block size) blocks. */
  lemma OwnedCount(bs: BlockSize, c: Cells)
    requires CellsOk(bs, c)
    ensures |Owned(c)| == CeilDiv(|c.blocks|, bs)
  {
    StrideOwns(bs, c);
    DistinctCard(Stride(c.blocks, bs));
    StrideLength(c.blocks, bs);
  }

  lemma {:induction false} WithoutSpec(s: seq<nat>, x: nat)
    requires forall i, j :: 0 <= i < j < |s| ==> s[i] != s[j]
    ensures forall i, j :: 0 <= i < j < |Without(s, x)| ==> Without(s, x)[i] != Without(s, x)[j]
    ensures forall y :: y in Without(s, x) <==> y in s && y != x
  {
    if s != [] {
      WithoutSpec(s[1..], x);
      assert s == [s[0]] + s[1..];
      if s[0] != x {
        var w := Without(s[1..], x);
        assert Without(s, x) == [s[0]] + w;
        assert forall i :: 0 <= i < |w| ==> w[i] in s[1..];
      }
    }
  }

  lemma RemoveLeafKeepsTree(m: Mem, n: Mem, c: nat)
    requires Tree(m) && c in m.ctxs && m.ctxs[c].kids == []
    requires n.ctxs.Keys == m.ctxs.Keys - {c}
    requires forall d :: d in n.ctxs ==>
      && n.ctxs[d].parent == m.ctxs[d].parent && n.ctxs[d].depth == m.ctxs[d].depth
      && n.ctxs[d].kids == (if m.ctxs[c].parent == Some(d) then Without(m.ctxs[d].kids, c) else m.ctxs[d].kids)
    ensures Tree(n)
  {
    hide Without, NodeOk;
    forall d | d in n.ctxs ensures NodeOk(n, d) {
      assert NodeOk(m, c) && NodeOk(m, d);
      if m.ctxs[d].parent.Some? { ParentPresent(m, d); }
      RemoveLeafNode(m, n, c, d);
    }
  }

  lemma ParentPresent(m: Mem, d: nat)
    requires Tree(m) && d in m.ctxs && m.ctxs[d].parent.Some?
    ensures m.ctxs[d].parent.value in m.ctxs && NodeOk(m, m.ctxs[d].parent.value)
  {
    assert NodeOk(m, d);
  }

  lemma RemoveLeafNode(m: Mem, n: Mem, c: nat, d: nat)
    requires c in m.ctxs && m.ctxs[c].kids == [] && d in n.ctxs && n.ctxs.Keys == m.ctxs.Keys - {c}
    requires NodeOk(m, c) && NodeOk(m, d)
    requires m.ctxs[d].parent.Some? ==> m.ctxs[d].parent.value in m.ctxs && NodeOk(m, m.ctxs[d].parent.value)
    requires forall x :: x in n.ctxs ==>
      && n.ctxs[x].parent == m.ctxs[x].parent && n.ctxs[x].depth == m.ctxs[x].depth
      && n.ctxs[x].kids == (if m.ctxs[c].parent == Some(x) then Without(m.ctxs[x].kids, c) else m.ctxs[x].kids)
    ensures NodeOk(n, d)
  {
    hide Without;
    WithoutSpec(m.ctxs[d].kids, c);
    if m.ctxs[d].parent.Some? { WithoutSpec(m.ctxs[m.ctxs[d].parent.value].kids, c); }
  }

  lemma ReleaseKeepsOwnership(m: Mem, n: Mem, c: nat)
    requires Ownership(m) && c in m.ctxs && n.ctxs.Keys == m.ctxs.Keys - {c}
    requires forall d :: d in n.ctxs ==> n.ctxs[d].cells == m.ctxs[d].cells
    requires Live(n.pool) == Live(m.pool) - Owned(m.ctxs[c].cells)
    ensures Ownership(n)
  {
    hide Owned, Live;
    forall b | b in Live(n.pool) ensures exists d :: Owns(n, d, b) {
      var d :| Owns(m, d, b);
      assert Owns(n, d, b);
    }
  }

  /** Freeing raises exactly when sub-contexts remain, and otherwise returns each block
      of the context to the pool exactly once: no double free, nothing left behind. */
  lemma DestroyKeeps(m: Mem, c: nat)
    requires MemInv(m)
    ensures Destroy(m, c).Raised? <==> c in m.ctxs && m.ctxs[c].kids != []
    ensures Destroy(m, c).Ok? ==> MemInv(Destroy(m, c).value.1)
    ensures Destroy(m, c).Ok? ==> Destroy(m, c).value.1.ctxs.Keys == m.ctxs.Keys - {c}
    ensures Destroy(m, c).Ok? && c in m.ctxs ==>
              && Destroy(m, c).value.0 == |m.ctxs[c].cells.blocks|
              && Live(Destroy(m, c).value.1.pool) == Live(m.pool) - Owned(m.ctxs[c].cells)
  {
    if c in m.ctxs && m.ctxs[c].kids == [] {
      DestroyLeaf(m, c);
    } else if c in m.ctxs {
      assert NodeOk(m, c);
    }
  }

  /** What `Destroy` computes for a leaf. */
  lemma DestroyShape(m: Mem, c: nat)
    requires Tree(m) && c in m.ctxs && m.ctxs[c].kids == []
    requires FreeAll(m.pool, Stride(m.ctxs[c].cells.blocks, m.bs)).Ok?
    ensures Destroy(m, c).Ok? && Destroy(m, c).value.0 == |m.ctxs[c].cells.blocks|
    ensures var n := Destroy(m, c).value.1;
            && n.bs == m.bs && n.ctxs.Keys == m.ctxs.Keys - {c}
            && n.pool == FreeAll(m.pool, Stride(m.ctxs[c].cells.blocks, m.bs)).value
            && (forall d :: d in n.ctxs ==>
                  n.ctxs[d] == m.ctxs[d].(
                    kids := if m.ctxs[c].parent == Some(d) then Without(m.ctxs[d].kids, c) else m.ctxs[d].kids))
  {
    hide FreeAll, Stride, Without;
    assert NodeOk(m, c);
  }

  lemma DestroyLeaf(m: Mem, c: nat)
    requires MemInv(m) && c in m.ctxs && m.ctxs[c].kids == []
    ensures Destroy(m, c).Ok? && MemInv(Destroy(m, c).value.1)
    ensures Destroy(m, c).value.1.ctxs.Keys == m.ctxs.Keys - {c}
    ensures Destroy(m, c).value.0 == |m.ctxs[c].cells.blocks|
    ensures Live(Destroy(m, c).value.1.pool) == Live(m.pool) - Owned(m.ctxs[c].cells)
  {
    hide CellsOk, Live, Valid, Owned, Ownership, Tree, Destroy, FreeAll, Stride;
    var b := m.ctxs[c];
    StrideOwns(m.bs, b.cells);
    CellsOwned(m, c);
    var t := Stride(b.cells.blocks, m.bs);
    assert forall i :: 0 <= i < |t| ==> t[i] in Elements(t);
    FreeAllKeeps(m.pool, t);
    DestroyShape(m, c);
    var n := Destroy(m, c).value.1;
    RemoveLeafKeepsTree(m, n, c);
    ReleaseKeepsOwnership(m, n, c);
    assert forall d :: d in n.ctxs ==> (n.ctxs[d].kids != [] ==> m.ctxs[d].kids != []);
  }
}
