/** The shared-prompt attention's split of a batch (`parrot/engine/builtin/attn_func.py`):
    the deepest context all jobs share, one flash block table for it, and one paged table
    per Generate job for the rest. */
module SharedPrompts {
  import opened Wrappers
  import opened Strides
  import opened PagedMemory
  import opened Addressing

  // ---------- Lowest common ancestor ----------

  /** x is c or one of its ancestors. */
  ghost predicate Above(m: Mem, x: nat, c: nat)
    requires Tree(m) && c in m.ctxs
    decreases m.ctxs[c].depth
  {
    assert NodeOk(m, c);
    x == c || (m.ctxs[c].parent.Some? && Above(m, x, m.ctxs[c].parent.value))
  }

  lemma {:induction false} AboveFacts(m: Mem, x: nat, c: nat)
    requires Tree(m) && c in m.ctxs && Above(m, x, c)
    ensures x in m.ctxs && m.ctxs[x].depth <= m.ctxs[c].depth
    ensures m.ctxs[x].depth == m.ctxs[c].depth ==> x == c
    decreases m.ctxs[c].depth
  {
    assert NodeOk(m, c);
    if x != c { AboveFacts(m, x, m.ctxs[c].parent.value); }
  }

  lemma {:induction false} AboveTransitive(m: Mem, x: nat, y: nat, c: nat)
    requires Tree(m) && y in m.ctxs && c in m.ctxs && Above(m, x, y) && Above(m, y, c)
    ensures Above(m, x, c)
    decreases m.ctxs[c].depth
  {
    assert NodeOk(m, c);
    if y != c { AboveTransitive(m, x, y, m.ctxs[c].parent.value); }
  }

  /** x is above every context of the batch. */
  ghost predicate AboveAll(m: Mem, x: nat, cs: set<nat>)
    requires Tree(m) && cs <= m.ctxs.Keys
  {
    forall c :: c in cs ==> Above(m, x, c)
  }

  /** The answer the search owes: the deepest context above the whole batch, or none if
      there is no such context. */
  ghost predicate IsMeet(m: Mem, r: Option<nat>, cs: set<nat>)
    requires Tree(m) && cs <= m.ctxs.Keys
  {
    match r
    case None => forall x :: !AboveAll(m, x, cs)
    case Some(x) => x in m.ctxs && AboveAll(m, x, cs) && forall y :: AboveAll(m, y, cs) ==> Above(m, y, x)
  }

  /** The answer depends on the set of contexts only, not on the order of the jobs. */
  lemma MeetUnique(m: Mem, r: Option<nat>, s: Option<nat>, cs: set<nat>)
    requires Tree(m) && cs <= m.ctxs.Keys && IsMeet(m, r, cs) && IsMeet(m, s, cs)
    ensures r == s
  {
    if r.Some? && s.Some? {
      AboveFacts(m, r.value, s.value);
      AboveFacts(m, s.value, r.value);
    }
  }

  ghost predicate SameCommon(m: Mem, a: nat, b: nat, c: nat, d: nat)
    requires Tree(m) && {a, b, c, d} <= m.ctxs.Keys
  {
    forall x :: Above(m, x, a) && Above(m, x, b) <==> Above(m, x, c) && Above(m, x, d)
  }

  /** `_lca`: the depth-guided climb never touches a missing context and returns the
      deepest common ancestor-or-self. */
  method Lca(m: Mem, c1: Option<nat>, c2: Option<nat>) returns (r: Option<nat>)
    requires Tree(m)
    requires (c1.Some? ==> c1.value in m.ctxs) && (c2.Some? ==> c2.value in m.ctxs)
    ensures c1.None? || c2.None? ==> r == None
    ensures c1.Some? && c2.Some? ==> IsMeet(m, r, {c1.value, c2.value})
  {
    if c1 == c2 {
      return c1;
    }
    if c1.None? || c2.None? {
      return None;
    }
    var a, b := c1, c2;
    while a.Some?
      invariant a.Some? <==> b.Some?
      invariant a.Some? ==>
                  a.value in m.ctxs && b.value in m.ctxs && SameCommon(m, c1.value, c2.value, a.value, b.value)
      invariant a.None? ==> forall x :: !(Above(m, x, c1.value) && Above(m, x, c2.value))
      decreases if a.Some? then m.ctxs[a.value].depth + m.ctxs[b.value].depth + 1 else 0
    {
      if a == b {
        MeetFound(m, c1.value, c2.value, a.value);
        return a;
      }
      ClimbKeepsCommon(m, a.value, b.value);
      if m.ctxs[a.value].depth > m.ctxs[b.value].depth {
        a := m.ctxs[a.value].parent;
      } else if m.ctxs[a.value].depth < m.ctxs[b.value].depth {
        b := m.ctxs[b.value].parent;
      } else {
        a, b := m.ctxs[a.value].parent, m.ctxs[b.value].parent;
      }
    }
    NoMeet(m, c1.value, c2.value);
    return None;
  }

  lemma MeetFound(m: Mem, a: nat, b: nat, x: nat)
    requires Tree(m) && {a, b, x} <= m.ctxs.Keys && SameCommon(m, a, b, x, x)
    ensures IsMeet(m, Some(x), {a, b})
  {
    assert Above(m, x, x);
    forall y | AboveAll(m, y, {a, b}) ensures Above(m, y, x) { assert Above(m, y, a) && Above(m, y, b); }
  }

  lemma NoMeet(m: Mem, a: nat, b: nat)
    requires Tree(m) && {a, b} <= m.ctxs.Keys && forall x :: !(Above(m, x, a) && Above(m, x, b))
    ensures IsMeet(m, None, {a, b})
  {
    forall x ensures !AboveAll(m, x, {a, b}) { assert a in {a, b} && b in {a, b}; }
  }

  /** Climbing from the deeper of two different contexts, or from both when they are
      equally deep, loses no common ancestor. */
  lemma ClimbKeepsCommon(m: Mem, a: nat, b: nat)
    requires Tree(m) && a in m.ctxs && b in m.ctxs && a != b
    ensures NodeOk(m, a) && NodeOk(m, b)
    ensures m.ctxs[a].depth > m.ctxs[b].depth ==>
              m.ctxs[a].parent.Some? && SameCommon(m, a, b, m.ctxs[a].parent.value, b)
    ensures m.ctxs[a].depth < m.ctxs[b].depth ==>
              m.ctxs[b].parent.Some? && SameCommon(m, a, b, a, m.ctxs[b].parent.value)
    ensures m.ctxs[a].depth == m.ctxs[b].depth ==>
              && (m.ctxs[a].parent.Some? <==> m.ctxs[b].parent.Some?)
              && (m.ctxs[a].parent.Some? ==> SameCommon(m, a, b, m.ctxs[a].parent.value, m.ctxs[b].parent.value))
              && (m.ctxs[a].parent.None? ==> forall x :: !(Above(m, x, a) && Above(m, x, b)))
  {
    assert NodeOk(m, a) && NodeOk(m, b);
    if Above(m, a, b) { AboveFacts(m, a, b); }
    if Above(m, b, a) { AboveFacts(m, b, a); }
  }

  // ---------- The whole batch ----------

  ghost function Contexts(jobs: seq<nat>): set<nat> {
    set c | c in jobs
  }

  ghost predicate InMemory(m: Mem, jobs: seq<nat>) {
    forall i :: 0 <= i < |jobs| ==> jobs[i] in m.ctxs
  }

  lemma {:induction false} MeetExtends(m: Mem, jobs: seq<nat>, k: nat, x: nat, r: Option<nat>)
    requires Tree(m) && InMemory(m, jobs) && 0 < k < |jobs| && x in m.ctxs
    requires IsMeet(m, Some(x), Contexts(jobs[..k])) && IsMeet(m, r, {x, jobs[k]})
    ensures IsMeet(m, r, Contexts(jobs[..k + 1]))
  {
    var cs, ds := Contexts(jobs[..k]), Contexts(jobs[..k + 1]);
    assert jobs[..k + 1] == jobs[..k] + [jobs[k]];
    assert ds == cs + {jobs[k]};
    forall y ensures AboveAll(m, y, ds) <==> AboveAll(m, y, {x, jobs[k]}) {
      if AboveAll(m, y, ds) {
        assert AboveAll(m, y, cs);
      } else if AboveAll(m, y, {x, jobs[k]}) {
        forall c | c in ds ensures Above(m, y, c) {
          if c in cs { AboveTransitive(m, y, x, c); }
        }
      }
    }
  }

  lemma NoneExtends(m: Mem, jobs: seq<nat>, k: nat)
    requires Tree(m) && InMemory(m, jobs) && k <= |jobs| && IsMeet(m, None, Contexts(jobs[..k]))
    ensures IsMeet(m, None, Contexts(jobs))
  {
    assert Contexts(jobs[..k]) <= Contexts(jobs);
    forall x ensures !AboveAll(m, x, Contexts(jobs)) {
      if AboveAll(m, x, Contexts(jobs)) { assert AboveAll(m, x, Contexts(jobs[..k])); }
    }
  }

  ghost predicate IsSharedLen(m: Mem, jobs: seq<nat>, len: nat)
    requires Tree(m) && InMemory(m, jobs)
  {
    exists meet :: IsMeet(m, meet, Contexts(jobs)) && len == if meet.Some? then ContextLen(m, meet.value) else 0
  }

  /** The shared length is one number, the same for every order of the jobs. */
  lemma SharedLenUnique(m: Mem, jobs: seq<nat>, reordered: seq<nat>, a: nat, b: nat)
    requires Tree(m) && InMemory(m, jobs) && InMemory(m, reordered) && Contexts(jobs) == Contexts(reordered)
    requires IsSharedLen(m, jobs, a) && IsSharedLen(m, reordered, b)
    ensures a == b
  {
    var x :| IsMeet(m, x, Contexts(jobs)) && a == if x.Some? then ContextLen(m, x.value) else 0;
    var y :| IsMeet(m, y, Contexts(reordered)) && b == if y.Some? then ContextLen(m, y.value) else 0;
    MeetUnique(m, x, y, Contexts(jobs));
  }

  /** `get_shared_context_len`: the length of the meet of all jobs, 0 if there is none. */
  method SharedContextLen(m: Mem, jobs: seq<nat>) returns (len: nat)
    requires Tree(m) && InMemory(m, jobs) && |jobs| > 0
    ensures IsSharedLen(m, jobs, len)
  {
    if |jobs| == 1 {
      assert Contexts(jobs) == {jobs[0]};
      assert IsMeet(m, Some(jobs[0]), Contexts(jobs));
      return ContextLen(m, jobs[0]);
    }
    var lca := Lca(m, Some(jobs[0]), Some(jobs[1]));
    assert Contexts(jobs[..2]) == {jobs[0], jobs[1]};
    var i := 2;
    while i < |jobs| && lca.Some?
      invariant 2 <= i <= |jobs|
      invariant lca.Some? ==> lca.value in m.ctxs
      invariant IsMeet(m, lca, Contexts(jobs[..i]))
    {
      var x := lca.value;
      lca := Lca(m, lca, Some(jobs[i]));
      MeetExtends(m, jobs, i, x, lca);
      i := i + 1;
    }
    if lca.None? {
      NoneExtends(m, jobs, i);
      return 0;
    }
    assert jobs[..i] == jobs;
    return ContextLen(m, lca.value);
  }

  // ---------- The split refines plain paging ----------

  lemma {:induction false} AboveIsPrefix(m: Mem, x: nat, c: nat)
    requires Tree(m) && c in m.ctxs && x in m.ctxs && Above(m, x, c)
    ensures BlockIds(m, x) <= BlockIds(m, c)
    decreases m.ctxs[c].depth
  {
    assert NodeOk(m, c);
    if x != c { AboveIsPrefix(m, x, m.ctxs[c].parent.value); }
  }

  lemma {:induction false} StrictlyAboveIsPadded(m: Mem, x: nat, c: nat)
    requires MemInv(m) && c in m.ctxs && x in m.ctxs && Above(m, x, c) && x != c
    ensures m.ctxs[x].padded
    decreases m.ctxs[c].depth
  {
    hide AllCellsOk, Ownership, PoolOk;
    ParentPadded(m, c);
    if x != m.ctxs[c].parent.value { StrictlyAboveIsPadded(m, x, m.ctxs[c].parent.value); }
  }

  function Take(xs: seq<nat>, n: nat): seq<nat> {
    if n < |xs| then xs[..n] else xs
  }

  function Drop(xs: seq<nat>, n: nat): seq<nat> {
    if n < |xs| then xs[n..] else []
  }

  /** What `init_iteration_state` builds for one job: `flash` is the shared table cut out
      of the first job, `paged` the job's own table behind it. */
  ghost predicate SplitOk(m: Mem, job: nat, flash: seq<nat>, flashLen: nat, paged: seq<nat>, pagedLen: int)
    requires Tree(m) && job in m.ctxs
  {
    && flash + paged == Stride(BlockIds(m, job), m.bs)
    && pagedLen >= 0 && flashLen + pagedLen == ContextLen(m, job)
  }

  lemma CutAt(bs: BlockSize, b0: seq<nat>, bj: seq<nat>, bx: seq<nat>, pad: nat)
    requires bx <= b0 && bx <= bj
    requires (pad == |bx| && pad % bs == 0) || (pad >= |bx| && b0 == bx && bj == bx)
    ensures Take(b0, pad) == bx
    ensures Stride(Take(b0, pad), bs) + Stride(Drop(bj, pad), bs) == Stride(bj, bs)
  {
    assert Take(b0, pad) == bx;
    if b0 == bx && bj == bx {
      assert Drop(bj, pad) == [];
    } else {
      assert bj == bx + Drop(bj, pad);
      StrideConcat(bx, Drop(bj, pad), bs);
    }
  }

  /** The tables cut at the shared length: the flash part from the first context of the
      batch, the paged part from the job's own. */
  ghost predicate SplitsAt(m: Mem, first: nat, job: nat, len: nat)
    requires Tree(m) && first in m.ctxs && job in m.ctxs
  {
    var pad := CeilDiv(len, m.bs) * m.bs;
    SplitOk(m, job, Stride(Take(BlockIds(m, first), pad), m.bs), len,
            Stride(Drop(BlockIds(m, job), pad), m.bs), ContextLen(m, job) - len)
  }

  /** For any batch, the flash table followed by a job's paged table is the job's full
      strided block table, and the lengths add up: also for a single job, whose shared
      length need not be block-aligned, and for batches with no common ancestor. */
  lemma SplitRefinesPaging(m: Mem, jobs: seq<nat>, len: nat, j: nat)
    requires MemInv(m) && InMemory(m, jobs) && j < |jobs|
    requires IsSharedLen(m, jobs, len)
    ensures SplitsAt(m, jobs[0], jobs[j], len)
  {
    hide MemInv, SplitsAt, ContextLen, Above, Tree;
    MemInvTree(m);
    var meet :| IsMeet(m, meet, Contexts(jobs)) && len == if meet.Some? then ContextLen(m, meet.value) else 0;
    assert jobs[0] in Contexts(jobs) && jobs[j] in Contexts(jobs);
    if meet.None? {
      SplitAtNothing(m, jobs[0], jobs[j]);
    } else {
      SplitAtMeet(m, meet.value, jobs[0], jobs[j]);
    }
  }

  lemma SplitAtNothing(m: Mem, c0: nat, c: nat)
    requires Tree(m) && c0 in m.ctxs && c in m.ctxs
    ensures SplitsAt(m, c0, c, 0)
  {
    hide Stride, BlockIds, ContextLen, Tree, CeilDiv;
    CeilOfZero(m.bs);
    DivUnique(0, m.bs, 0, 0);
    CutAt(m.bs, BlockIds(m, c0), BlockIds(m, c), [], 0);
  }

  /** The flash table is the whole strided table of the deepest context above the batch, and
      empty only if there is no such context. */
  ghost predicate IsSharedTable(m: Mem, jobs: seq<nat>, len: nat, flash: seq<nat>)
    requires Tree(m) && InMemory(m, jobs)
  {
    exists meet ::
      && IsMeet(m, meet, Contexts(jobs))
      && len == (if meet.Some? then ContextLen(m, meet.value) else 0)
      && flash == if meet.Some? then Stride(BlockIds(m, meet.value), m.bs) else []
  }

  lemma FlashIsMeet(m: Mem, jobs: seq<nat>, len: nat)
    requires MemInv(m) && InMemory(m, jobs) && |jobs| > 0 && IsSharedLen(m, jobs, len)
    ensures IsSharedTable(m, jobs, len, Stride(Take(BlockIds(m, jobs[0]), CeilDiv(len, m.bs) * m.bs), m.bs))
  {
    hide MemInv, SplitsAt, ContextLen, Above, Tree, BlockIds, CeilDiv;
    MemInvTree(m);
    var meet :| IsMeet(m, meet, Contexts(jobs)) && len == if meet.Some? then ContextLen(m, meet.value) else 0;
    assert jobs[0] in Contexts(jobs);
    if meet.None? {
      CeilOfZero(m.bs);
      assert Take(BlockIds(m, jobs[0]), 0) == [];
    } else {
      SplitAtMeet(m, meet.value, jobs[0], jobs[0]);
    }
  }

  lemma CeilOfZero(bs: BlockSize)
    ensures CeilDiv(0, bs) * bs == 0
  {
    CeilBounds(0, bs);
    DivUnique(0, bs, 0, 0);
  }

  lemma SplitAtMeet(m: Mem, x: nat, c0: nat, c: nat)
    requires MemInv(m) && x in m.ctxs && c0 in m.ctxs && c in m.ctxs && Above(m, x, c0) && Above(m, x, c)
    ensures SplitsAt(m, c0, c, ContextLen(m, x))
    ensures Take(BlockIds(m, c0), CeilDiv(ContextLen(m, x), m.bs) * m.bs) == BlockIds(m, x)
  {
    hide AllCellsOk, Ownership, PoolOk, Aligned, Stride, BlockIds, ContextLen, Above;
    CeilBounds(ContextLen(m, x), m.bs);
    LengthsAgree(m, c);
    LengthsAgree(m, x);
    AboveIsPrefix(m, x, c0);
    AboveIsPrefix(m, x, c);
    if m.ctxs[x].padded {
      ForkPointsAligned(m, x);
    } else {
      if x != c0 { StrictlyAboveIsPadded(m, x, c0); }
      if x != c { StrictlyAboveIsPadded(m, x, c); }
    }
    CutAt(m.bs, BlockIds(m, c0), BlockIds(m, c), BlockIds(m, x), CeilDiv(ContextLen(m, x), m.bs) * m.bs);
  }

  lemma MemInvTree(m: Mem)
    requires MemInv(m)
    ensures Tree(m)
  {}

  /** A job of the batch, as the table builder sees it. */
  datatype Job = Job(context: nat, isGenerate: bool, numTokens: nat)

  function ContextOf(jobs: seq<Job>): seq<nat> {
    seq(|jobs|, i requires 0 <= i < |jobs| => jobs[i].context)
  }

  ghost function Generates(jobs: seq<Job>): seq<Job>
    decreases |jobs|
  {
    if jobs == [] then []
    else
      var last := jobs[|jobs| - 1];
      Generates(jobs[..|jobs| - 1]) + if last.isGenerate then [last] else []
  }

  /** The list-building part of `init_iteration_state`: one shared flash table, and for
      each Generate job, in order, a paged table and length that complete it to plain
      paging. */
  method BuildTables(m: Mem, jobs: seq<Job>)
    returns (flash: seq<nat>, flashLen: nat, paged: seq<seq<nat>>, pagedLens: seq<int>)
    requires MemInv(m) && |jobs| > 0 && InMemory(m, ContextOf(jobs))
    ensures IsSharedLen(m, ContextOf(jobs), flashLen) && IsSharedTable(m, ContextOf(jobs), flashLen, flash)
    ensures |paged| == |pagedLens| == |Generates(jobs)|
    ensures forall k :: 0 <= k < |paged| ==>
              && Generates(jobs)[k].context in m.ctxs
              && SplitOk(m, Generates(jobs)[k].context, flash, flashLen, paged[k], pagedLens[k])
  {
    hide MemInv, Stride, SplitOk, IsSharedLen, IsSharedTable, CeilDiv, BlockIds, ContextLen;
    MemInvTree(m);
    var cs := ContextOf(jobs);
    flashLen := SharedContextLen(m, cs);
    var pad := CeilDiv(flashLen, m.bs) * m.bs;
    assert forall i :: 0 <= i < |cs| ==> cs[i] == jobs[i].context;
    var first := BlockIds(m, cs[0]);
    flash := Stride(Take(first, pad), m.bs);
    FlashIsMeet(m, cs, flashLen);
    paged, pagedLens := [], [];
    var i := 0;
    while i < |jobs|
      invariant 0 <= i <= |jobs|
      invariant |paged| == |pagedLens| == |Generates(jobs[..i])|
      invariant forall k :: 0 <= k < |paged| ==>
                  && Generates(jobs[..i])[k].context in m.ctxs
                  && SplitOk(m, Generates(jobs[..i])[k].context, flash, flashLen, paged[k], pagedLens[k])
    {
      var job := jobs[i];
      assert jobs[..i + 1][..i] == jobs[..i] && jobs[..i + 1][i] == job;
      assert cs[i] == job.context;
      if job.isGenerate {
        SplitRefinesPaging(m, cs, flashLen, i);
        paged := paged + [Stride(Drop(BlockIds(m, job.context), pad), m.bs)];
        pagedLens := pagedLens + [ContextLen(m, job.context) - flashLen];
      }
      i := i + 1;
    }
    assert jobs[..i] == jobs;
  }

  // ---------- The Fill part of a batch ----------

  ghost function Fills(jobs: seq<Job>): seq<Job>
    decreases |jobs|
  {
    if jobs == [] then []
    else
      var last := jobs[|jobs| - 1];
      Fills(jobs[..|jobs| - 1]) + if last.isGenerate then [] else [last]
  }

  ghost function Sum(ns: seq<nat>): nat
    decreases |ns|
  {
    if ns == [] then 0 else Sum(ns[..|ns| - 1]) + ns[|ns| - 1]
  }

  /** Segment k of the flat list, when the segments have the given lengths. */
  ghost predicate SegmentIs(flat: seq<nat>, lens: seq<nat>, k: nat, slots: seq<nat>)
    requires k < |lens|
  {
    && lens[k] == |slots| && Sum(lens[..k]) + lens[k] <= |flat|
    && flat[Sum(lens[..k])..Sum(lens[..k]) + lens[k]] == slots
  }

  lemma SegmentStays(flat: seq<nat>, lens: seq<nat>, more: seq<nat>, n: nat, k: nat, slots: seq<nat>)
    requires k < |lens| && SegmentIs(flat, lens, k, slots)
    ensures SegmentIs(flat + more, lens + [n], k, slots)
  {
    hide Sum;
    assert (lens + [n])[..k] == lens[..k];
    assert (flat + more)[Sum(lens[..k])..Sum(lens[..k]) + lens[k]] == flat[Sum(lens[..k])..Sum(lens[..k]) + lens[k]];
  }

  lemma SegmentNew(flat: seq<nat>, lens: seq<nat>, slots: seq<nat>)
    requires Sum(lens) == |flat|
    ensures SegmentIs(flat + slots, lens + [|slots|], |lens|, slots) && Sum(lens + [|slots|]) == |flat + slots|
  {
    hide Sum;
    SumSnoc(lens, |slots|);
    assert (lens + [|slots|])[..|lens|] == lens;
    assert (flat + slots)[|flat|..|flat| + |slots|] == slots;
  }

  lemma SumSnoc(ns: seq<nat>, n: nat)
    ensures Sum(ns + [n]) == Sum(ns) + n
  {
    assert (ns + [n])[..|ns|] == ns;
  }

  /** The lists built for the Fill jobs of a batch: one query length and one key length each,
      and one flat list of slots whose consecutive segments, cut at the key lengths, are
      exactly the slots of the jobs' whole paths.  The key buffer of sum(key lengths) rows
      is filled exactly. */
  method BuildFillLists(m: Mem, jobs: seq<Job>) returns (qLens: seq<nat>, kvLens: seq<nat>, slots: seq<nat>)
    requires Tree(m) && InMemory(m, ContextOf(jobs))
    ensures |qLens| == |kvLens| == |Fills(jobs)| && Sum(kvLens) == |slots|
    ensures forall k :: 0 <= k < |Fills(jobs)| ==>
              && Fills(jobs)[k].context in m.ctxs && qLens[k] == Fills(jobs)[k].numTokens
              && SegmentIs(slots, kvLens, k, SlotIds(m, Fills(jobs)[k].context))
  {
    hide SlotIds, ContextLen, SegmentIs, Tree;
    qLens, kvLens, slots := [], [], [];
    assert forall i :: 0 <= i < |jobs| ==> ContextOf(jobs)[i] == jobs[i].context;
    for i := 0 to |jobs|
      invariant |qLens| == |kvLens| == |Fills(jobs[..i])| && Sum(kvLens) == |slots|
      invariant forall k :: 0 <= k < |Fills(jobs[..i])| ==>
                  && Fills(jobs[..i])[k].context in m.ctxs && qLens[k] == Fills(jobs[..i])[k].numTokens
                  && SegmentIs(slots, kvLens, k, SlotIds(m, Fills(jobs[..i])[k].context))
    {
      var job := jobs[i];
      assert jobs[..i + 1][..i] == jobs[..i] && jobs[..i + 1][i] == job;
      if !job.isGenerate {
        var more := SlotIds(m, job.context);
        LengthsAgree(m, job.context);
        forall k | 0 <= k < |kvLens|
          ensures SegmentIs(slots + more, kvLens + [|more|], k, SlotIds(m, Fills(jobs[..i])[k].context))
        {
          SegmentStays(slots, kvLens, more, |more|, k, SlotIds(m, Fills(jobs[..i])[k].context));
        }
        SegmentNew(slots, kvLens, more);
        qLens, kvLens, slots := qLens + [job.numTokens], kvLens + [ContextLen(m, job.context)], slots + more;
      }
    }
    assert jobs[..|jobs|] == jobs;
  }

  /** `_pad_to_max` over the rows of a table: a rectangle in which every row starts with the
      row it came from. */
  method PadRows(rows: seq<seq<nat>>) returns (table: seq<seq<nat>>)
    ensures |table| == |rows|
    ensures forall i :: 0 <= i < |rows| ==>
              rows[i] <= table[i] && forall p :: |rows[i]| <= p < |table[i]| ==> table[i][p] == 0
    ensures forall i, j :: 0 <= i < |rows| && 0 <= j < |rows| ==> |table[i]| == |table[j]|
    ensures rows != [] ==> exists i :: 0 <= i < |rows| && table[i] == rows[i]
  {
    var width: nat := 0;
    ghost var widest: nat := 0;
    for i := 0 to |rows|
      invariant forall k :: 0 <= k < i ==> |rows[k]| <= width
      invariant i > 0 ==> widest < i && |rows[widest]| == width
    {
      if i == 0 || |rows[i]| > width { width, widest := |rows[i]|, i; }
    }
    table := [];
    for i := 0 to |rows|
      invariant |table| == i
      invariant forall k :: 0 <= k < i ==>
                  rows[k] <= table[k] && |table[k]| == width && forall p :: |rows[k]| <= p < width ==> table[k][p] == 0
    {
      var row := rows[i] + seq(width - |rows[i]|, _ => 0);
      table := table + [row];
    }
    assert rows != [] ==> table[widest] == rows[widest];
  }

  // ---------- Slots of the query tokens ----------

  /** `context_slot_ids[-n:]`, with Python's reading of `-0`. */
  function QuerySlots(slots: seq<nat>, n: nat): seq<nat> {
    if n == 0 || n > |slots| then slots else slots[|slots| - n..]
  }

  lemma QuerySlotsOf(before: seq<nat>, added: seq<nat>)
    ensures QuerySlots(before + added, |added|) == added <==> (added != [] || before == [])
  {
    if added == [] {
      assert before + added == before;
    } else {
      assert (before + added)[|before|..] == added;
    }
  }

  /** An iteration that gives n tokens to a context appends n slots to its list and changes
      no earlier one. */
  lemma ExtendAppends(m: Mem, c: nat, n: nat) returns (added: seq<nat>)
    requires MemInv(m) && c in m.ctxs && Extend(m, c, n).0
    ensures var r := Extend(m, c, n).1;
            Tree(r) && SlotIds(r, c) == SlotIds(m, c) + added && |added| == n
    ensures Extend(m, c, n).1.ctxs[c].cells.slots == m.ctxs[c].cells.slots + added
  {
    hide AllCellsOk, Ownership, Aligned, AllocN, Tree, SlotIds, OnlyCells, PoolOk;
    var r := Extend(m, c, n).1;
    ExtendShape(m, c, n);
    OnlyCellsLinks(m, r, c);
    SameLinksTree(m, r);
    AllocNExtends(m.bs, m.pool, m.ctxs[c].cells, n);
    var slots := m.ctxs[c].cells.slots;
    added := r.ctxs[c].cells.slots[|slots|..];
    SlotsGrow(m, r, c, added);
  }

  lemma OnlyCellsLinks(m: Mem, n: Mem, p: nat)
    requires OnlyCells(m, n, p)
    ensures SameLinks(m, n)
  {}

  lemma SlotsGrow(m: Mem, r: Mem, c: nat, added: seq<nat>)
    requires Tree(m) && Tree(r) && OnlyCells(m, r, c) && c in m.ctxs && c in r.ctxs
    requires r.ctxs[c].cells.slots == m.ctxs[c].cells.slots + added
    ensures SlotIds(r, c) == SlotIds(m, c) + added
  {
    hide SlotIds, Tree;
    SlotsStep(m, c);
    SlotsStep(r, c);
    if m.ctxs[c].parent.Some? {
      var q := m.ctxs[c].parent.value;
      SlotsAbove(m, r, c, q);
      assert SlotIds(m, q) + (m.ctxs[c].cells.slots + added) == SlotIds(m, q) + m.ctxs[c].cells.slots + added;
    }
  }

  lemma SlotsStep(m: Mem, c: nat)
    requires Tree(m) && c in m.ctxs
    ensures m.ctxs[c].parent.Some? ==>
              && m.ctxs[c].parent.value in m.ctxs && m.ctxs[m.ctxs[c].parent.value].depth < m.ctxs[c].depth
              && SlotIds(m, c) == SlotIds(m, m.ctxs[c].parent.value) + m.ctxs[c].cells.slots
    ensures m.ctxs[c].parent.None? ==> SlotIds(m, c) == m.ctxs[c].cells.slots
  {
    assert NodeOk(m, c);
  }

  lemma {:induction false} SlotsAbove(m: Mem, n: Mem, p: nat, q: nat)
    requires Tree(m) && Tree(n) && OnlyCells(m, n, p)
    requires p in m.ctxs && q in m.ctxs && m.ctxs[q].depth < m.ctxs[p].depth
    ensures SlotIds(n, q) == SlotIds(m, q)
    decreases m.ctxs[q].depth
  {
    assert NodeOk(m, q);
    if m.ctxs[q].parent.Some? { SlotsAbove(m, n, p, m.ctxs[q].parent.value); }
  }

  /** The slot mapping of a job that gave its context n tokens is exactly the slots of these
      tokens if and only if n is positive or the whole context is empty: for a Fill without
      tokens `[-0:]` selects every slot of the context. */
  lemma QuerySlotsExact(m: Mem, c: nat, n: nat)
    requires MemInv(m) && c in m.ctxs && Extend(m, c, n).0
    ensures Tree(Extend(m, c, n).1) && |SlotIds(m, c)| <= |SlotIds(Extend(m, c, n).1, c)|
    ensures var after := SlotIds(Extend(m, c, n).1, c);
            QuerySlots(after, n) == after[|SlotIds(m, c)|..] <==> n > 0 || ContextLen(m, c) == 0
  {
    hide MemInv, Extend, SlotIds, ContextLen;
    var added := ExtendAppends(m, c, n);
    MemInvTree(m);
    LengthsAgree(m, c);
    QuerySlotsOf(SlotIds(m, c), added);
  }
}
