/** The serve layer's context manager (`parrot/serve/context_manager.py`): prefix
    caches, reference counts, constant-prefix pins, and the two loops that bind a
    task to a path of contexts and free that path leaf first.

    A Python `Context` object is modelled by its id.  The invariant below shows that a
    context outlives every task, pin and child that refers to it, so an id that is in
    use never names a recycled object. */
module ServeContexts {
  import opened Wrappers
  import opened RecyclePools

  type VarId = string
  type Path = seq<VarId>

  datatype Context = Context(engine: nat, parent: Option<nat>)

  /** A context as the engines know it, together with the text filled into it.  Context
      ids are unique over all engines, so one map stands for every engine's `map`. */
  datatype Remote = Remote(engine: nat, parent: Option<nat>, text: string)

  /** `PrefixCache`: the prefix map and its reverse.  A prefix is the sequence of its
      variable ids; `PrefixHashes.PrefixHashInjective` justifies keying by that sequence
      instead of by the concatenated string. */
  datatype PrefixCache = PrefixCache(fwd: map<Path, nat>, rev: map<nat, Path>)

  datatype Manager = Manager(
    contexts: map<nat, Context>,
    refs: map<nat, int>,
    pins: map<VarId, seq<nat>>,
    pool: Pool,
    caches: map<nat, PrefixCache>,
    backend: map<nat, Remote>)

  /** A completion chain: Fill nodes, then one Gen node. */
  datatype Chain = Chain(fills: seq<VarId>, gen: VarId, headIsConstantPrefix: bool) {
    function Vars(): seq<VarId> { fills + [gen] }
  }

  /** The progress of `set_task_contexts`: the contexts bound so far, one per node, and
      `prefix_no_cache_flag`. */
  datatype Binding = Binding(mgr: Manager, held: seq<nat>, miss: bool)

  // ---------- Basic operations ----------

  function AddRef(m: Manager, c: nat): Manager {
    m.(refs := m.refs[c := (if c in m.refs then m.refs[c] else 0) + 1])
  }

  /** `_new_context` (no parent) and `_fork_context` (the parent's engine). */
  function Create(m: Manager, engine: nat, parent: Option<nat>): Result<(Manager, nat)> {
    var (r, pool) := Allocate(m.pool);
    match r
    case None => Raised
    case Some(c) =>
      Ok((AddRef(m.(pool := pool, contexts := m.contexts[c := Context(engine, parent)]), c), c))
  }

  function PinsOf(m: Manager, v: VarId): seq<nat> {
    if v in m.pins then m.pins[v] else []
  }

  function Pin(m: Manager, v: VarId, c: nat): Result<Manager> {
    if c in PinsOf(m, v) then Raised
    else Ok(AddRef(m.(pins := m.pins[v := PinsOf(m, v) + [c]]), c))
  }

  /** `cache_prefix_context`. */
  function CachePrefix(m: Manager, e: nat, p: Path, c: nat): Result<Manager> {
    if e !in m.caches || p in m.caches[e].fwd then Raised
    else
      var k := m.caches[e];
      Ok(m.(caches := m.caches[e := PrefixCache(k.fwd[p := c], k.rev[c := p])]))
  }

  /** `remove_context_id`. */
  function Uncache(k: PrefixCache, c: nat): Result<PrefixCache> {
    if c !in k.rev then Ok(k)
    else if k.rev[c] !in k.fwd then Raised
    else Ok(PrefixCache(k.fwd - {k.rev[c]}, k.rev - {c}))
  }

  predicate HasRemoteChild(backend: map<nat, Remote>, c: nat) {
    exists d :: d in backend && backend[d].parent == Some(c)
  }

  /** The engine's free call: an unknown id is ignored, and a context whose sub-contexts
      still exist raises. */
  function RemoteFree(backend: map<nat, Remote>, c: nat): Result<map<nat, Remote>> {
    if c !in backend then Ok(backend)
    else if HasRemoteChild(backend, c) then Raised
    else Ok(backend - {c})
  }

  /** `_free_context`. */
  function Release(m: Manager, c: nat): Result<Manager> {
    if c !in m.refs then Raised
    else
      var m1 := m.(refs := m.refs[c := m.refs[c] - 1]);
      if m1.refs[c] > 0 then Ok(m1)
      else if c !in m.contexts || m.contexts[c].engine !in m.caches then Raised
      else
        var e := m.contexts[c].engine;
        var backend :- RemoteFree(m.backend, c);
        var k :- Uncache(m.caches[e], c);
        var pool :- Free(m.pool, c);
        Ok(m1.(backend := backend, caches := m.caches[e := k], contexts := m.contexts - {c}, pool := pool))
  }

  // ---------- Binding and freeing a task ----------

  /** One iteration of the loop in `set_task_contexts` (`fuse_fill` off). */
  function BindNode(e: nat, ch: Chain, b: Binding): Result<Binding>
    requires |b.held| <= |ch.fills|
  {
    var k := |b.held|;
    var p := ch.Vars()[..k + 1];
    if e !in b.mgr.caches then Raised
    else if !b.miss && p in b.mgr.caches[e].fwd then
      var c := b.mgr.caches[e].fwd[p];
      if c !in b.mgr.contexts then Raised
      else Ok(Binding(AddRef(b.mgr, c), b.held + [c], false))
    else
      var made :- if k == 0 then Create(b.mgr, e, None)
                  else if b.held[k - 1] !in b.mgr.contexts then Raised
                  else Create(b.mgr, b.mgr.contexts[b.held[k - 1]].engine, Some(b.held[k - 1]));
      var (m1, c) := made;
      var m2 :- if k == 0 && ch.headIsConstantPrefix then Pin(m1, ch.Vars()[0], c) else Ok(m1);
      var m3 :- if k < |ch.fills| then CachePrefix(m2, e, p, c) else Ok(m2);
      Ok(Binding(m3, b.held + [c], true))
  }

  function BindFrom(e: nat, ch: Chain, b: Binding): Result<Binding>
    decreases |ch.fills| + 1 - |b.held|
  {
    if |b.held| > |ch.fills| then Ok(b)
    else
      var b1 :- BindNode(e, ch, b);
      BindFrom(e, ch, b1)
  }

  /** `set_task_contexts`. */
  function BindTask(m: Manager, e: nat, ch: Chain): Result<Binding> {
    BindFrom(e, ch, Binding(m, [], false))
  }

  /** `free_task_contexts`: the reversed loop with its visited set. */
  function FreeHeld(m: Manager, held: seq<nat>, visited: set<nat>): Result<Manager>
    decreases |held|
  {
    if held == [] then Ok(m)
    else
      var n := |held| - 1;
      if held[n] in visited then FreeHeld(m, held[..n], visited)
      else
        var m1 :- Release(m, held[n]);
        FreeHeld(m1, held[..n], visited + {held[n]})
  }

  function ReleaseAll(m: Manager, cs: seq<nat>): Result<Manager>
    decreases |cs|
  {
    if cs == [] then Ok(m)
    else
      var m1 :- Release(m, cs[0]);
      ReleaseAll(m1, cs[1..])
  }

  /** `free_constant_prefix_contexts`. */
  function Expire(m: Manager, v: VarId): Result<Manager> {
    if v !in m.pins then Raised
    else
      var m1 :- ReleaseAll(m, m.pins[v]);
      Ok(m1.(pins := m1.pins - {v}))
  }

  // ---------- The invariant ----------

  /** What a task holds: one context per node of its chain, for a prefix of the chain
      while it is being bound or freed and for all of it in between. */
  datatype Hold = Hold(engine: nat, chain: Chain, held: seq<nat>)

  type Holds = map<nat, Hold>

  ghost function Holders(hs: Holds, c: nat): set<nat> {
    set t | t in hs && c in hs[t].held
  }

  ghost function Pinners(pins: map<VarId, seq<nat>>, c: nat): set<VarId> {
    set v | v in pins && c in pins[v]
  }

  ghost predicate PoolInv(m: Manager) {
    && Valid(m.pool) && m.pool.size.None? && !m.pool.fixedOrder
    && Live(m.pool) == m.contexts.Keys
  }

  /** Reference counts are exact: active tasks holding the context plus its pins. */
  ghost predicate RefInv(m: Manager, hs: Holds) {
    && (forall c :: c in m.contexts ==>
          && c in m.refs
          && m.refs[c] == |Holders(hs, c)| + |Pinners(m.pins, c)|
          && m.refs[c] >= 1)
    && (forall c :: c in m.refs && c !in m.contexts ==> m.refs[c] == 0)
  }

  function Front(p: Path): Path
    requires p != []
  {
    p[..|p| - 1]
  }

  /** A cached prefix: its nonempty shorter prefix is cached too, and the parent of its
      context is the context cached for that shorter prefix. */
  ghost predicate EntryOk(m: Manager, e: nat, known: set<VarId>, p: Path)
    requires e in m.caches && p in m.caches[e].fwd
  {
    var k := m.caches[e];
    var c := k.fwd[p];
    && p != []
    && (forall i :: 0 <= i < |p| ==> p[i] in known)
    && c in k.rev && k.rev[c] == p
    && c in m.contexts && m.contexts[c].engine == e
    && (|p| == 1 ==> m.contexts[c].parent == None)
    && (|p| > 1 ==> Front(p) in k.fwd && m.contexts[c].parent == Some(k.fwd[Front(p)]))
  }

  ghost predicate CacheInv(m: Manager, known: set<VarId>) {
    && (forall e, p :: e in m.caches && p in m.caches[e].fwd ==> EntryOk(m, e, known, p))
    && (forall e, c :: e in m.caches && c in m.caches[e].rev ==>
          m.caches[e].rev[c] in m.caches[e].fwd && m.caches[e].fwd[m.caches[e].rev[c]] == c)
    && (forall c :: c in m.contexts ==> m.contexts[c].engine in m.caches && m.contexts[c].parent != Some(c))
  }

  ghost predicate HeldOk(m: Manager, h: Hold, i: nat)
    requires i < |h.held| <= |h.chain.fills| + 1 && h.engine in m.caches
  {
    var k := m.caches[h.engine];
    && h.held[i] in m.contexts
    && m.contexts[h.held[i]] == Context(h.engine, if i == 0 then None else Some(h.held[i - 1]))
    && (i < |h.chain.fills| ==>
          && h.chain.fills[..i + 1] in k.fwd && k.fwd[h.chain.fills[..i + 1]] == h.held[i])
    && (i == |h.chain.fills| && h.held[i] in k.rev ==> k.rev[h.held[i]] == h.chain.Vars())
  }

  ghost predicate HoldOk(m: Manager, h: Hold) {
    && h.engine in m.caches && h.chain.fills != [] && |h.held| <= |h.chain.fills| + 1
    && forall i :: 0 <= i < |h.held| ==> HeldOk(m, h, i)
  }

  ghost predicate HoldInv(m: Manager, hs: Holds) {
    forall t :: t in hs ==> HoldOk(m, hs[t])
  }

  ghost predicate PinOk(m: Manager, v: VarId, c: nat) {
    && c in m.contexts && m.contexts[c].engine in m.caches
    && [v] in m.caches[m.contexts[c].engine].fwd
    && m.caches[m.contexts[c].engine].fwd[[v]] == c
  }

  ghost predicate PinInv(m: Manager) {
    && (forall v, i, j :: v in m.pins && 0 <= i < j < |m.pins[v]| ==> m.pins[v][i] != m.pins[v][j])
    && (forall v, i :: v in m.pins && 0 <= i < |m.pins[v]| ==> PinOk(m, v, m.pins[v][i]))
  }

  /** The engines hold a sub-tree of the live contexts. */
  ghost predicate BackendInv(m: Manager) {
    forall c :: c in m.backend ==>
      c in m.contexts && m.contexts[c] == Context(m.backend[c].engine, m.backend[c].parent)
  }

  ghost predicate Inv(m: Manager, hs: Holds, known: set<VarId>) {
    PoolInv(m) && RefInv(m, hs) && CacheInv(m, known) && HoldInv(m, hs) && PinInv(m) && BackendInv(m)
  }

  // ---------- Consequences ----------

  /** The contexts a task holds are pairwise distinct. */
  lemma {:induction false} HeldDistinct(m: Manager, hs: Holds, known: set<VarId>, t: nat, i: nat, j: nat)
    requires Inv(m, hs, known) && t in hs && i < j < |hs[t].held|
    ensures hs[t].held[i] != hs[t].held[j]
  {
    var h := hs[t];
    assert HeldOk(m, h, i) && HeldOk(m, h, j);
    assert EntryOk(m, h.engine, known, h.chain.fills[..i + 1]);
    if j < |h.chain.fills| {
      assert EntryOk(m, h.engine, known, h.chain.fills[..j + 1]);
    }
  }

  lemma HeldLive(m: Manager, hs: Holds, known: set<VarId>, t: nat, i: nat)
    requires Inv(m, hs, known) && t in hs && i < |hs[t].held|
    ensures HoldOk(m, hs[t]) && HeldOk(m, hs[t], i) && hs[t].held[i] in m.contexts
  {
    assert HoldOk(m, hs[t]);
  }

  /** Everything but the reference counts. */
  ghost predicate Structure(m: Manager, hs: Holds, known: set<VarId>) {
    PoolInv(m) && CacheInv(m, known) && HoldInv(m, hs) && PinInv(m) && BackendInv(m)
  }

  lemma PinnedIsRoot(m: Manager, known: set<VarId>, v: VarId, c: nat)
    requires CacheInv(m, known) && PinInv(m) && v in Pinners(m.pins, c)
    ensures c in m.contexts && m.contexts[c].parent.None?
  {
    var j :| 0 <= j < |m.pins[v]| && m.pins[v][j] == c;
    assert PinOk(m, v, m.pins[v][j]);
    assert EntryOk(m, m.contexts[c].engine, known, [v]);
  }

  lemma HeldIndex(m: Manager, hs: Holds, t: nat, c: nat) returns (i: nat)
    requires HoldInv(m, hs) && t in Holders(hs, c)
    ensures i < |hs[t].held| && hs[t].held[i] == c && HoldOk(m, hs[t]) && HeldOk(m, hs[t], i)
  {
    i :| 0 <= i < |hs[t].held| && hs[t].held[i] == c;
    assert HoldOk(m, hs[t]);
  }

  /** A referenced context with a parent is held by a task that also holds the parent,
      just before it. */
  lemma ChildHolder(m: Manager, hs: Holds, known: set<VarId>, d: nat) returns (t: nat, i: nat)
    requires CacheInv(m, known) && HoldInv(m, hs) && PinInv(m) && d in m.contexts && m.contexts[d].parent.Some?
    requires |Holders(hs, d)| + |Pinners(m.pins, d)| >= 1
    ensures t in hs && 0 < i < |hs[t].held| && hs[t].held[i] == d
    ensures m.contexts[d].parent.value == hs[t].held[i - 1]
    ensures HoldOk(m, hs[t]) && HeldOk(m, hs[t], i) && HeldOk(m, hs[t], i - 1)
    ensures t in Holders(hs, m.contexts[d].parent.value)
  {
    if Pinners(m.pins, d) != {} {
      var v :| v in Pinners(m.pins, d);
      PinnedIsRoot(m, known, v, d);
    }
    t :| t in Holders(hs, d);
    i := HeldIndex(m, hs, t, d);
  }

  /** A live child's parent is live and on the same engine. */
  lemma ParentLive(m: Manager, hs: Holds, known: set<VarId>, d: nat)
    requires Inv(m, hs, known) && d in m.contexts && m.contexts[d].parent.Some?
    ensures m.contexts[d].parent.value in m.contexts
    ensures m.contexts[m.contexts[d].parent.value].engine == m.contexts[d].engine
  {
    var t, i := ChildHolder(m, hs, known, d);
  }

  ghost predicate NoChild(m: Manager, c: nat) {
    forall d :: d in m.contexts ==> m.contexts[d].parent != Some(c)
  }

  // ---------- Releasing one reference ----------

  /** The counts are exact except that `c` carries one reference too many: the one that
      is about to be released. */
  ghost predicate RefOver(m: Manager, hs: Holds, c: nat) {
    && c in m.contexts && c in m.refs
    && m.refs[c] == |Holders(hs, c)| + |Pinners(m.pins, c)| + 1
    && (forall d :: d in m.contexts && d != c ==>
          && d in m.refs
          && m.refs[d] == |Holders(hs, d)| + |Pinners(m.pins, d)|
          && m.refs[d] >= 1)
    && (forall d :: d in m.refs && d !in m.contexts ==> m.refs[d] == 0)
  }

  lemma UnreferencedHasNoChild(m: Manager, hs: Holds, known: set<VarId>, c: nat)
    requires Structure(m, hs, known) && RefOver(m, hs, c) && Holders(hs, c) == {}
    ensures NoChild(m, c)
  {
    forall d | d in m.contexts && m.contexts[d].parent.Some? && d != c ensures m.contexts[d].parent.value != c {
      var t, i := ChildHolder(m, hs, known, d);
    }
  }

  /** The reference counts and the pins are not part of the tree structure. */
  lemma RefsFrame(m: Manager, n: Manager, hs: Holds, known: set<VarId>)
    requires Structure(m, hs, known) && n == m.(refs := n.refs)
    ensures Structure(n, hs, known)
  {
    forall e, p | e in n.caches && p in n.caches[e].fwd ensures EntryOk(n, e, known, p) {
      assert EntryOk(m, e, known, p);
    }
    HoldsFrame(m, n, hs);
    forall v, i | v in n.pins && 0 <= i < |n.pins[v]| ensures PinOk(n, v, n.pins[v][i]) {
      assert PinOk(m, v, m.pins[v][i]);
    }
  }

  lemma HoldsFrame(m: Manager, n: Manager, hs: Holds)
    requires HoldInv(m, hs) && m.contexts == n.contexts && m.caches == n.caches
    ensures HoldInv(n, hs)
  {
    forall t | t in hs ensures HoldOk(n, hs[t]) {
      forall i | 0 <= i < |hs[t].held| ensures HeldOk(n, hs[t], i) { assert HeldOk(m, hs[t], i); }
    }
  }

  /** The context `c` and its cache entry are gone; nothing else changed. */
  ghost predicate Removed(m: Manager, n: Manager, c: nat)
    requires c in m.contexts && m.contexts[c].engine in m.caches
  {
    var e := m.contexts[c].engine;
    && n.contexts == m.contexts - {c}
    && n.pins == m.pins
    && n.backend == m.backend - {c}
    && n.caches.Keys == m.caches.Keys
    && (forall f :: f in m.caches && f != e ==> n.caches[f] == m.caches[f])
    && n.caches[e].rev == m.caches[e].rev - {c}
    && n.caches[e].fwd == (if c in m.caches[e].rev then m.caches[e].fwd - {m.caches[e].rev[c]} else m.caches[e].fwd)
  }

  lemma ReleaseLastShape(m: Manager, c: nat)
    requires PoolInv(m) && c in m.contexts && m.contexts[c].engine in m.caches && c in m.refs && m.refs[c] == 1
    requires BackendInv(m) && NoChild(m, c)
    requires c in m.caches[m.contexts[c].engine].rev ==>
               m.caches[m.contexts[c].engine].rev[c] in m.caches[m.contexts[c].engine].fwd
    ensures Release(m, c).Ok? && Removed(m, Release(m, c).value, c)
    ensures Release(m, c).value.refs == m.refs[c := 0]
    ensures PoolInv(Release(m, c).value)
  {
    FreeKeeps(m.pool, c);
    var e := m.contexts[c].engine;
    var k := m.caches[e];
    assert c !in k.rev ==> k.rev - {c} == k.rev;
    assert !HasRemoteChild(m.backend, c);
    assert c !in m.backend ==> m.backend - {c} == m.backend;
  }

  lemma RemovedKeepsCache(m: Manager, n: Manager, hs: Holds, known: set<VarId>, c: nat)
    requires Structure(m, hs, known) && c in m.contexts && Removed(m, n, c) && NoChild(m, c)
    ensures CacheInv(n, known)
  {
    hide HoldInv, PinInv, PoolInv, BackendInv, EntryOk;
    forall e, p | e in n.caches && p in n.caches[e].fwd ensures EntryOk(n, e, known, p) {
      EntryOkOf(m, known, e, p);
      if |p| > 1 && Front(p) in m.caches[e].fwd { EntryOkOf(m, known, e, Front(p)); }
      RemovedKeepsEntry(m, n, known, c, e, p);
    }
    RemovedKeepsRev(m, n, known, c);
  }

  lemma RemovedKeepsRev(m: Manager, n: Manager, known: set<VarId>, c: nat)
    requires CacheInv(m, known) && c in m.contexts && m.contexts[c].engine in m.caches && Removed(m, n, c)
    ensures forall e, d :: e in n.caches && d in n.caches[e].rev ==>
              n.caches[e].rev[d] in n.caches[e].fwd && n.caches[e].fwd[n.caches[e].rev[d]] == d
    ensures forall d :: d in n.contexts ==> n.contexts[d].engine in n.caches && n.contexts[d].parent != Some(d)
  {
    forall e, d | e in n.caches && d in n.caches[e].rev
      ensures n.caches[e].rev[d] in n.caches[e].fwd && n.caches[e].fwd[n.caches[e].rev[d]] == d
    {
      assert d in m.caches[e].rev;
    }
  }

  lemma RemovedKeepsEntry(m: Manager, n: Manager, known: set<VarId>, c: nat, e: nat, p: Path)
    requires c in m.contexts && m.contexts[c].engine in m.caches && Removed(m, n, c) && NoChild(m, c)
    requires e in m.caches && p in m.caches[e].fwd && p in n.caches[e].fwd && EntryOk(m, e, known, p)
    requires |p| > 1 && Front(p) in m.caches[e].fwd ==> EntryOk(m, e, known, Front(p))
    requires c in m.caches[e].rev ==> m.caches[e].rev[c] in m.caches[e].fwd && m.caches[e].fwd[m.caches[e].rev[c]] == c
    ensures EntryOk(n, e, known, p)
  {}

  lemma RemovedKeepsHolds(m: Manager, n: Manager, hs: Holds, known: set<VarId>, c: nat)
    requires Structure(m, hs, known) && c in m.contexts && Removed(m, n, c) && Holders(hs, c) == {}
    ensures HoldInv(n, hs)
  {
    forall t | t in hs ensures HoldOk(n, hs[t]) {
      forall i | 0 <= i < |hs[t].held| ensures HeldOk(n, hs[t], i) {
        assert HeldOk(m, hs[t], i);
        assert t !in Holders(hs, c);
      }
    }
  }

  lemma RemovedKeepsPins(m: Manager, n: Manager, hs: Holds, known: set<VarId>, c: nat)
    requires Structure(m, hs, known) && c in m.contexts && Removed(m, n, c) && Pinners(m.pins, c) == {}
    ensures PinInv(n)
  {
    forall v, i | v in n.pins && 0 <= i < |n.pins[v]| ensures PinOk(n, v, n.pins[v][i]) {
      assert PinOk(m, v, m.pins[v][i]);
      assert v !in Pinners(m.pins, c);
    }
  }

  lemma RemovedKeeps(m: Manager, hs: Holds, known: set<VarId>, c: nat)
    requires Structure(m, hs, known) && c in m.contexts && c in m.refs && m.refs[c] == 1
    requires NoChild(m, c) && Holders(hs, c) == {} && Pinners(m.pins, c) == {}
    ensures Release(m, c).Ok? && Structure(Release(m, c).value, hs, known)
    ensures m.contexts[c].engine in m.caches
    ensures Removed(m, Release(m, c).value, c)
    ensures Release(m, c).value.refs == m.refs[c := 0]
  {
    hide HoldInv, PinInv;
    ReleaseLastShape(m, c);
    var n := Release(m, c).value;
    hide CacheInv;
    RemovedKeepsCache(m, n, hs, known, c);
    RemovedKeepsHolds(m, n, hs, known, c);
    RemovedKeepsPins(m, n, hs, known, c);
  }

  /** Some contexts are gone, from the manager and the engines alike; the rest is as it
      was. */
  ghost predicate Pruned(m: Manager, n: Manager) {
    && n.contexts.Keys <= m.contexts.Keys
    && (forall d :: d in n.contexts ==> n.contexts[d] == m.contexts[d])
    && n.backend.Keys == m.backend.Keys * n.contexts.Keys
    && (forall d :: d in n.backend ==> n.backend[d] == m.backend[d])
    && n.caches.Keys == m.caches.Keys
    && (forall f, p :: f in n.caches && p in n.caches[f].fwd ==>
          p in m.caches[f].fwd && m.caches[f].fwd[p] == n.caches[f].fwd[p])
    && (forall f, p :: f in m.caches && p in m.caches[f].fwd && m.caches[f].fwd[p] in n.contexts ==>
         p in n.caches[f].fwd)
  }

  lemma RemovedIsPruned(m: Manager, n: Manager, known: set<VarId>, c: nat)
    requires CacheInv(m, known) && BackendInv(m) && c in m.contexts && m.contexts[c].engine in m.caches
             && Removed(m, n, c)
    ensures Pruned(m, n)
  {}

  lemma UnchangedIsPruned(m: Manager, n: Manager)
    requires BackendInv(m) && n == m.(refs := n.refs)
    ensures Pruned(m, n)
  {}

  lemma OneReferenceLess(m: Manager, hs: Holds, c: nat)
    requires RefOver(m, hs, c) && m.refs[c] > 1
    ensures Release(m, c) == Ok(m.(refs := m.refs[c := m.refs[c] - 1])) && RefInv(Release(m, c).value, hs)
  {
    hide Holders, Pinners;
  }

  /** Releasing the surplus reference restores the whole invariant, never raises, and
      frees the context only when it has no live child. */
  lemma ReleaseKeeps(m: Manager, hs: Holds, known: set<VarId>, c: nat)
    requires Structure(m, hs, known) && RefOver(m, hs, c)
    ensures Release(m, c).Ok? && Inv(Release(m, c).value, hs, known)
    ensures Release(m, c).value.pins == m.pins
    ensures Release(m, c).value.contexts == if m.refs[c] > 1 then m.contexts else m.contexts - {c}
    ensures Pruned(m, Release(m, c).value)
    ensures m.refs[c] == 1 ==> NoChild(m, c)
  {
    hide HoldInv, PinInv, CacheInv, PoolInv, BackendInv, Holders, Pinners, Pruned, NoChild;
    if m.refs[c] > 1 {
      OneReferenceLess(m, hs, c);
      RefsFrame(m, Release(m, c).value, hs, known);
      UnchangedIsPruned(m, Release(m, c).value);
    } else {
      UnreferencedHasNoChild(m, hs, known, c);
      RemovedKeeps(m, hs, known, c);
      RemovedIsPruned(m, Release(m, c).value, known, c);
    }
  }

  // ---------- Freeing a task's path and expiring a pin ----------

  lemma HoldersShrink(m: Manager, hs: Holds, known: set<VarId>, t: nat, d: nat)
    requires Inv(m, hs, known) && t in hs && hs[t].held != []
    ensures var n := |hs[t].held| - 1;
            var hs' := hs[t := hs[t].(held := hs[t].held[..n])];
            Holders(hs', d) == if d == hs[t].held[n] then Holders(hs, d) - {t} else Holders(hs, d)
    ensures t in Holders(hs, hs[t].held[|hs[t].held| - 1])
  {
    var h := hs[t];
    var n := |h.held| - 1;
    forall i | 0 <= i < n ensures h.held[i] != h.held[n] { HeldDistinct(m, hs, known, t, i, n); }
    assert h.held == h.held[..n] + [h.held[n]];
  }

  lemma ShrinkRefOver(m: Manager, hs: Holds, known: set<VarId>, t: nat)
    requires Inv(m, hs, known) && t in hs && hs[t].held != []
    requires hs[t].held[|hs[t].held| - 1] in m.contexts
    ensures RefOver(m, hs[t := hs[t].(held := hs[t].held[..|hs[t].held| - 1])], hs[t].held[|hs[t].held| - 1])
  {
    hide HoldInv, PinInv, CacheInv, PoolInv, BackendInv, Holders, Pinners;
    var n := |hs[t].held| - 1;
    var c := hs[t].held[n];
    var hs' := hs[t := hs[t].(held := hs[t].held[..n])];
    forall d ensures Holders(hs', d) == if d == c then Holders(hs, d) - {t} else Holders(hs, d) {
      HoldersShrink(m, hs, known, t, d);
    }
    HoldersShrink(m, hs, known, t, c);
  }

  lemma ShrinkKeepsHolds(m: Manager, hs: Holds, t: nat)
    requires HoldInv(m, hs) && t in hs && hs[t].held != []
    ensures HoldInv(m, hs[t := hs[t].(held := hs[t].held[..|hs[t].held| - 1])])
  {
    var h := hs[t];
    var h' := h.(held := h.held[..|h.held| - 1]);
    var hs' := hs[t := h'];
    assert HoldOk(m, h);
    forall i | 0 <= i < |h'.held| ensures HeldOk(m, h', i) { assert HeldOk(m, h, i); }
    forall u | u in hs' ensures HoldOk(m, hs'[u]) { assert u != t ==> HoldOk(m, hs[u]); }
  }

  /** Releasing the last context of a task's path keeps the invariant for the shorter
      path. */
  lemma FreeLast(m: Manager, hs: Holds, known: set<VarId>, t: nat)
    requires Inv(m, hs, known) && t in hs && hs[t].held != []
    ensures var n := |hs[t].held| - 1;
            var c := hs[t].held[n];
            && Release(m, c).Ok?
            && Inv(Release(m, c).value, hs[t := hs[t].(held := hs[t].held[..n])], known)
            && Release(m, c).value.pins == m.pins
            && Pruned(m, Release(m, c).value)
  {
    hide HoldInv, PinInv, CacheInv, PoolInv, Release, RefOver, RefInv;
    var n := |hs[t].held| - 1;
    var c := hs[t].held[n];
    var hs' := hs[t := hs[t].(held := hs[t].held[..n])];
    HeldLive(m, hs, known, t, n);
    ShrinkKeepsHolds(m, hs, t);
    ShrinkRefOver(m, hs, known, t);
    ReleaseKeeps(m, hs', known, c);
  }

  lemma DropEmptyHold(m: Manager, hs: Holds, known: set<VarId>, t: nat)
    requires Inv(m, hs, known) && t in hs && hs[t].held == []
    ensures Inv(m, hs - {t}, known) && Pruned(m, m)
  {
    forall c ensures Holders(hs - {t}, c) == Holders(hs, c) {}
  }

  /** Freeing a task never raises, keeps the invariant without the task, and removes
      contexts only together with their engine copies. */
  lemma {:induction false} FreeHeldKeeps(m: Manager, hs: Holds, known: set<VarId>, t: nat, visited: set<nat>)
    requires Inv(m, hs, known) && t in hs
    requires forall i :: 0 <= i < |hs[t].held| ==> hs[t].held[i] !in visited
    ensures FreeHeld(m, hs[t].held, visited).Ok?
    ensures Inv(FreeHeld(m, hs[t].held, visited).value, hs - {t}, known)
    ensures FreeHeld(m, hs[t].held, visited).value.pins == m.pins
    ensures Pruned(m, FreeHeld(m, hs[t].held, visited).value)
    decreases |hs[t].held|
  {
    hide Inv, Release;
    var h := hs[t];
    if h.held == [] {
      DropEmptyHold(m, hs, known, t);
    } else {
      var n := |h.held| - 1;
      forall i | 0 <= i < n ensures h.held[i] != h.held[n] { HeldDistinct(m, hs, known, t, i, n); }
      FreeLast(m, hs, known, t);
      var m1 := Release(m, h.held[n]).value;
      var hs' := hs[t := h.(held := h.held[..n])];
      FreeHeldKeeps(m1, hs', known, t, visited + {h.held[n]});
      assert hs' - {t} == hs - {t};
    }
  }

  lemma ReleaseIgnoresPins(m: Manager, pins: map<VarId, seq<nat>>, c: nat)
    ensures Release(m.(pins := pins), c) ==
            match Release(m, c) { case Ok(n) => Ok(n.(pins := pins)) case Raised => Raised }
  {}

  lemma PinnersShrink(pins: map<VarId, seq<nat>>, v: VarId, d: nat)
    requires v in pins && pins[v] != []
    requires forall i, j :: 0 <= i < j < |pins[v]| ==> pins[v][i] != pins[v][j]
    ensures Pinners(pins[v := pins[v][1..]], d) == if d == pins[v][0] then Pinners(pins, d) - {v} else Pinners(pins, d)
    ensures v in Pinners(pins, pins[v][0])
  {
    assert pins[v] == [pins[v][0]] + pins[v][1..];
  }

  lemma UnpinRefOver(m: Manager, hs: Holds, known: set<VarId>, v: VarId)
    requires Inv(m, hs, known) && v in m.pins && m.pins[v] != []
    ensures RefOver(m.(pins := m.pins[v := m.pins[v][1..]]), hs, m.pins[v][0])
  {
    hide HoldInv, CacheInv, PoolInv, BackendInv, Holders;
    assert PinOk(m, v, m.pins[v][0]);
    var c := m.pins[v][0];
    var pins' := m.pins[v := m.pins[v][1..]];
    forall d ensures Pinners(pins', d) == if d == c then Pinners(m.pins, d) - {v} else Pinners(m.pins, d) {
      PinnersShrink(m.pins, v, d);
    }
    PinnersShrink(m.pins, v, c);
  }

  lemma DropEmptyPin(m: Manager, hs: Holds, known: set<VarId>, v: VarId)
    requires Inv(m, hs, known) && v in m.pins && m.pins[v] == []
    ensures Inv(m.(pins := m.pins - {v}), hs, known)
  {
    var n := m.(pins := m.pins - {v});
    forall c ensures Pinners(n.pins, c) == Pinners(m.pins, c) {}
    StructureIgnoresOtherPins(m, n, hs, known);
  }

  lemma StructureIgnoresOtherPins(m: Manager, n: Manager, hs: Holds, known: set<VarId>)
    requires Structure(m, hs, known) && n == m.(pins := n.pins)
    requires forall v :: v in n.pins ==>
               v in m.pins && (n.pins[v] == m.pins[v] || (m.pins[v] != [] && n.pins[v] == m.pins[v][1..]))
    ensures Structure(n, hs, known)
  {
    hide HoldInv, EntryOk, PoolInv, BackendInv, CacheInv;
    CacheIgnoresPins(m, n, known);
    HoldsFrame(m, n, hs);
    FewerPins(m, n);
    PoolIgnoresPins(m, n);
  }

  lemma CacheIgnoresPins(m: Manager, n: Manager, known: set<VarId>)
    requires CacheInv(m, known) && n == m.(pins := n.pins)
    ensures CacheInv(n, known)
  {
    forall e, p | e in n.caches && p in n.caches[e].fwd ensures EntryOk(n, e, known, p) {
      assert EntryOk(m, e, known, p);
    }
  }

  lemma PoolIgnoresPins(m: Manager, n: Manager)
    requires PoolInv(m) && BackendInv(m) && n == m.(pins := n.pins)
    ensures PoolInv(n) && BackendInv(n)
  {}

  lemma FewerPins(m: Manager, n: Manager)
    requires PinInv(m) && n == m.(pins := n.pins)
    requires forall v :: v in n.pins ==>
               v in m.pins && (n.pins[v] == m.pins[v] || (m.pins[v] != [] && n.pins[v] == m.pins[v][1..]))
    ensures PinInv(n)
  {
    forall v, i | v in n.pins && 0 <= i < |n.pins[v]| ensures PinOk(n, v, n.pins[v][i]) {
      assert PinOk(m, v, m.pins[v][if n.pins[v] == m.pins[v] then i else i + 1]);
    }
  }

  /** Releasing the pins of `v` from the front of its list. */
  lemma {:induction false} ReleaseAllKeeps(m: Manager, hs: Holds, known: set<VarId>, v: VarId)
    requires Inv(m, hs, known) && v in m.pins
    ensures ReleaseAll(m, m.pins[v]).Ok?
    ensures Inv(ReleaseAll(m, m.pins[v]).value.(pins := m.pins - {v}), hs, known)
    ensures Pruned(m, ReleaseAll(m, m.pins[v]).value)
    decreases |m.pins[v]|
  {
    hide HoldInv, PinInv, CacheInv, PoolInv, BackendInv, Release, RefOver, RefInv;
    var cs := m.pins[v];
    if cs == [] {
      DropEmptyPin(m, hs, known, v);
      UnchangedIsPruned(m, m);
    } else {
      var pins' := m.pins[v := cs[1..]];
      var n := m.(pins := pins');
      UnpinRefOver(m, hs, known, v);
      StructureIgnoresOtherPins(m, n, hs, known);
      ReleaseKeeps(n, hs, known, cs[0]);
      var n1 := Release(n, cs[0]).value;
      ReleaseIgnoresPins(m, pins', cs[0]);
      ReleaseAllKeeps(n1, hs, known, v);
      ReleaseAllIgnoresPins(Release(m, cs[0]).value, pins', cs[1..]);
      assert pins' - {v} == m.pins - {v};
    }
  }

  lemma {:induction false} ReleaseAllIgnoresPins(m: Manager, pins: map<VarId, seq<nat>>, cs: seq<nat>)
    ensures ReleaseAll(m.(pins := pins), cs) ==
            match ReleaseAll(m, cs) { case Ok(n) => Ok(n.(pins := pins)) case Raised => Raised }
    decreases |cs|
  {
    if cs != [] {
      ReleaseIgnoresPins(m, pins, cs[0]);
      if Release(m, cs[0]).Ok? { ReleaseAllIgnoresPins(Release(m, cs[0]).value, pins, cs[1..]); }
    }
  }

  /** Expiring a constant prefix raises exactly when the variable pins nothing, and
      otherwise keeps the invariant without the pins. */
  lemma ExpireKeeps(m: Manager, hs: Holds, known: set<VarId>, v: VarId)
    requires Inv(m, hs, known)
    ensures Expire(m, v).Ok? <==> v in m.pins
    ensures v in m.pins ==> Inv(Expire(m, v).value, hs, known) && Pruned(m, Expire(m, v).value)
    ensures v in m.pins ==> Expire(m, v).value.pins == m.pins - {v}
  {
    if v in m.pins {
      ReleaseAllKeeps(m, hs, known, v);
      ReleaseAllIgnoresPins(m, m.pins, m.pins[v]);
      var n := ReleaseAll(m, m.pins[v]).value;
      assert n == n.(pins := m.pins);
      assert Expire(m, v).value == n.(pins := m.pins - {v});
    }
  }

  // ---------- Binding a task ----------

  /** A task in the middle of `set_task_contexts`. */
  ghost predicate BindingOk(b: Binding, hs: Holds, known: set<VarId>, t: nat, e: nat, ch: Chain) {
    && Inv(b.mgr, hs, known)
    && t in hs && hs[t] == Hold(e, ch, b.held)
    && (forall i :: 0 <= i < |ch.fills| ==> ch.fills[i] in known)
    && e in b.mgr.caches && ch.fills != [] && |b.held| <= |ch.fills| + 1
    && (b.miss ==> NoLonger(b.mgr.caches[e].fwd, ch.fills, |b.held|))
  }

  /** No cached prefix of the chain is longer than k nodes. */
  ghost predicate NoLonger(fwd: map<Path, nat>, fills: Path, k: nat) {
    forall j :: k < j <= |fills| ==> fills[..j] !in fwd
  }

  lemma {:induction false} MissEndsPrefix(m: Manager, known: set<VarId>, e: nat, fills: Path, k: nat, j: nat)
    requires CacheInv(m, known) && e in m.caches && k < j <= |fills| && fills[..k + 1] !in m.caches[e].fwd
    ensures fills[..j] !in m.caches[e].fwd
    decreases j
  {
    if j > k + 1 {
      MissEndsPrefix(m, known, e, fills, k, j - 1);
      assert Front(fills[..j]) == fills[..j - 1];
    }
  }

  /** The Gen node's prefix is not cached as long as its variable has no content. */
  lemma GenNotCached(m: Manager, known: set<VarId>, e: nat, ch: Chain)
    requires CacheInv(m, known) && e in m.caches && ch.gen !in known
    ensures ch.Vars() !in m.caches[e].fwd
  {
    assert ch.Vars()[|ch.fills|] == ch.gen;
  }

  lemma HoldersGrow(hs: Holds, t: nat, c: nat, d: nat)
    requires t in hs && c !in hs[t].held
    ensures Holders(hs[t := hs[t].(held := hs[t].held + [c])], d) ==
            if d == c then Holders(hs, d) + {t} else Holders(hs, d)
    ensures t !in Holders(hs, c)
  {}

  lemma HitKeepsRefs(m: Manager, hs: Holds, t: nat, c: nat)
    requires RefInv(m, hs) && t in hs && c !in hs[t].held && c in m.contexts
    ensures RefInv(AddRef(m, c), hs[t := hs[t].(held := hs[t].held + [c])])
  {
    hide Holders, Pinners;
    var hs' := hs[t := hs[t].(held := hs[t].held + [c])];
    forall d ensures Holders(hs', d) == if d == c then Holders(hs, d) + {t} else Holders(hs, d) {
      HoldersGrow(hs, t, c, d);
    }
    HoldersGrow(hs, t, c, c);
  }

  ghost predicate HitAt(m: Manager, h: Hold, c: nat) {
    && |h.held| <= |h.chain.fills| && h.engine in m.caches
    && h.chain.Vars()[..|h.held| + 1] in m.caches[h.engine].fwd
    && c == m.caches[h.engine].fwd[h.chain.Vars()[..|h.held| + 1]]
  }

  lemma VarsPrefix(ch: Chain, k: nat)
    requires k <= |ch.fills|
    ensures |ch.Vars()| == |ch.fills| + 1 && ch.Vars()[..k] == ch.fills[..k]
    ensures Front(ch.Vars()[..k + 1]) == ch.fills[..k]
    ensures k == |ch.fills| ==> ch.Vars()[..k + 1] == ch.Vars()
  {}

  /** A hit is a live context, a child of the last one held, and not held yet. */
  lemma HitFacts(m: Manager, known: set<VarId>, h: Hold, c: nat)
    requires CacheInv(m, known) && HoldOk(m, h) && HitAt(m, h, c)
    ensures c in m.contexts && m.contexts[c] == Context(h.engine, NodeParent(h.held)) && c !in h.held
  {
    hide CacheInv, HoldOk;
    var k := |h.held|;
    EntryOkOf(m, known, h.engine, h.chain.Vars()[..k + 1]);
    VarsPrefix(h.chain, k);
    if k > 0 { HeldOkOf(m, h, k - 1); }
    forall i | 0 <= i < k ensures h.held[i] != c { HitNotHeld(m, known, h, c, i); }
  }

  lemma HitNotHeld(m: Manager, known: set<VarId>, h: Hold, c: nat, i: nat)
    requires CacheInv(m, known) && HoldOk(m, h) && HitAt(m, h, c) && i < |h.held|
    ensures h.held[i] != c
  {
    hide CacheInv, HoldOk;
    HeldOkOf(m, h, i);
    EntryOkOf(m, known, h.engine, h.chain.Vars()[..|h.held| + 1]);
    EntryOkOf(m, known, h.engine, h.chain.fills[..i + 1]);
    assert |h.chain.fills[..i + 1]| != |h.chain.Vars()[..|h.held| + 1]|;
  }

  lemma EntryOkOf(m: Manager, known: set<VarId>, e: nat, p: Path)
    requires CacheInv(m, known) && e in m.caches && p in m.caches[e].fwd
    ensures EntryOk(m, e, known, p)
  {}

  lemma HitHold(m: Manager, known: set<VarId>, h: Hold, c: nat)
    requires CacheInv(m, known) && HoldOk(m, h) && HitAt(m, h, c) && c in m.contexts
    requires m.contexts[c] == Context(h.engine, NodeParent(h.held))
    ensures HoldOk(m, h.(held := h.held + [c]))
  {
    hide CacheInv;
    EntryOkOf(m, known, h.engine, h.chain.Vars()[..|h.held| + 1]);
    VarsPrefix(h.chain, |h.held|);
    assert |h.held| < |h.chain.fills| ==> h.chain.Vars()[..|h.held| + 1] == h.chain.fills[..|h.held| + 1];
    var h' := h.(held := h.held + [c]);
    forall i | 0 <= i < |h'.held| ensures HeldOk(m, h', i) { assert i < |h.held| ==> HeldOk(m, h, i); }
  }

  lemma HitKeepsHolds(m: Manager, hs: Holds, known: set<VarId>, t: nat, c: nat)
    requires CacheInv(m, known) && HoldInv(m, hs) && t in hs && HitAt(m, hs[t], c)
    ensures HoldInv(m, hs[t := hs[t].(held := hs[t].held + [c])])
    ensures c !in hs[t].held && c in m.contexts
  {
    hide CacheInv, HoldOk;
    HoldOkOf(m, hs, t);
    HitFacts(m, known, hs[t], c);
    HitHold(m, known, hs[t], c);
  }

  lemma HitKeeps(b: Binding, hs: Holds, known: set<VarId>, t: nat, e: nat, ch: Chain)
    requires BindingOk(b, hs, known, t, e, ch) && |b.held| <= |ch.fills| && !b.miss
    requires ch.Vars()[..|b.held| + 1] in b.mgr.caches[e].fwd
    ensures BindNode(e, ch, b).Ok?
    ensures var b1 := BindNode(e, ch, b).value;
            && b1.held == b.held + [b.mgr.caches[e].fwd[ch.Vars()[..|b.held| + 1]]]
            && BindingOk(b1, hs[t := Hold(e, ch, b1.held)], known, t, e, ch)
            && Extended(b.mgr, b1.mgr, ch.fills[0])
  {
    hide CacheInv, HoldInv, PinInv, PoolInv, BackendInv, RefInv;
    var c := b.mgr.caches[e].fwd[ch.Vars()[..|b.held| + 1]];
    HitKeepsHolds(b.mgr, hs, known, t, c);
    var hs' := hs[t := Hold(e, ch, b.held + [c])];
    HitKeepsRefs(b.mgr, hs, t, c);
    RefsFrame(b.mgr, AddRef(b.mgr, c), hs', known);
  }

  /** A fresh context `c` was added for the next node: pinned if it is a constant-prefix
      root, cached if the node is a Fill. */
  ghost predicate Grown(m: Manager, n: Manager, e: nat, c: nat, parent: Option<nat>, path: Option<Path>,
                        pin: Option<VarId>) {
    && c !in m.contexts
    && e in m.caches
    && (parent.Some? ==> parent.value in m.contexts)
    && n.contexts == m.contexts[c := Context(e, parent)]
    && n.refs == m.refs[c := if pin.Some? then 2 else 1]
    && n.pins == (if pin.Some? then m.pins[pin.value := PinsOf(m, pin.value) + [c]] else m.pins)
    && n.backend == m.backend
    && n.caches == (if path.None? then m.caches
                    else m.caches[e := PrefixCache(m.caches[e].fwd[path.value := c], m.caches[e].rev[c := path.value])])
    && (path.Some? ==> path.value !in m.caches[e].fwd)
  }

  function NodeParent(held: seq<nat>): Option<nat> {
    if held == [] then None else Some(held[|held| - 1])
  }

  function NodePath(ch: Chain, k: nat): Option<Path>
    requires k <= |ch.fills|
  {
    if k < |ch.fills| then Some(ch.fills[..k + 1]) else None
  }

  function NodePin(ch: Chain, k: nat): Option<VarId>
    requires ch.fills != []
  {
    if k == 0 && ch.headIsConstantPrefix then Some(ch.fills[0]) else None
  }

  lemma MissShape(b: Binding, hs: Holds, known: set<VarId>, t: nat, e: nat, ch: Chain)
    requires BindingOk(b, hs, known, t, e, ch) && |b.held| <= |ch.fills|
    requires |b.held| < |ch.fills| ==> ch.fills[..|b.held| + 1] !in b.mgr.caches[e].fwd
    requires !b.miss ==> ch.Vars()[..|b.held| + 1] !in b.mgr.caches[e].fwd
    requires b.held != [] ==> b.held[|b.held| - 1] in b.mgr.contexts && b.mgr.contexts[b.held[|b.held| - 1]].engine == e
    requires Allocate(b.mgr.pool).0.Some?
    requires forall v :: Allocate(b.mgr.pool).0.value !in PinsOf(b.mgr, v)
    ensures BindNode(e, ch, b).Ok?
    ensures var b1 := BindNode(e, ch, b).value;
            var c := Allocate(b.mgr.pool).0.value;
            && b1.held == b.held + [c] && b1.miss
            && b1.mgr.pool == Allocate(b.mgr.pool).1
            && Grown(b.mgr, b1.mgr, e, c, NodeParent(b.held), NodePath(ch, |b.held|), NodePin(ch, |b.held|))
  {
    hide Inv, NoLonger, Holders, Pinners, Live, Valid;
    FreshId(b.mgr, hs, known);
    MissNode(b, e, ch, Allocate(b.mgr.pool).0.value);
  }

  /** One iteration that misses, given a fresh id. */
  lemma MissNode(b: Binding, e: nat, ch: Chain, c: nat)
    requires |b.held| <= |ch.fills| && ch.fills != [] && e in b.mgr.caches && Allocate(b.mgr.pool).0 == Some(c)
    requires |b.held| < |ch.fills| ==> ch.fills[..|b.held| + 1] !in b.mgr.caches[e].fwd
    requires !b.miss ==> ch.Vars()[..|b.held| + 1] !in b.mgr.caches[e].fwd
    requires b.held != [] ==> b.held[|b.held| - 1] in b.mgr.contexts && b.mgr.contexts[b.held[|b.held| - 1]].engine == e
    requires c !in b.mgr.contexts && (c in b.mgr.refs ==> b.mgr.refs[c] == 0) && c !in PinsOf(b.mgr, ch.fills[0])
    ensures BindNode(e, ch, b).Ok?
    ensures var b1 := BindNode(e, ch, b).value;
            && b1.held == b.held + [c] && b1.miss
            && b1.mgr.pool == Allocate(b.mgr.pool).1
            && Grown(b.mgr, b1.mgr, e, c, NodeParent(b.held), NodePath(ch, |b.held|), NodePin(ch, |b.held|))
  {
    hide Allocate;
    var k := |b.held|;
    assert ch.Vars()[..k + 1] == if k < |ch.fills| then ch.fills[..k + 1] else ch.Vars();
    var m1 := Create(b.mgr, e, NodeParent(b.held)).value.0;
    assert PinsOf(m1, ch.fills[0]) == PinsOf(b.mgr, ch.fills[0]);
    assert ch.Vars()[0] == ch.fills[0];
  }

  lemma FreshId(m: Manager, hs: Holds, known: set<VarId>)
    requires Inv(m, hs, known)
    ensures Allocate(m.pool).0.Some?
    ensures var c := Allocate(m.pool).0.value;
            && c !in m.contexts
            && Valid(Allocate(m.pool).1) && Live(Allocate(m.pool).1) == m.contexts.Keys + {c}
            && (c in m.refs ==> m.refs[c] == 0)
            && (forall v :: c !in PinsOf(m, v)) && Holders(hs, c) == {} && Pinners(m.pins, c) == {}
    ensures Allocate(m.pool).1.size == m.pool.size && Allocate(m.pool).1.fixedOrder == m.pool.fixedOrder
  {
    AllocateKeeps(m.pool);
    var c := Allocate(m.pool).0.value;
    forall v ensures c !in PinsOf(m, v) {
      if v in m.pins {
        forall i | 0 <= i < |m.pins[v]| ensures m.pins[v][i] != c { assert PinOk(m, v, m.pins[v][i]); }
      }
    }
    forall v | v in m.pins ensures c !in m.pins[v] { assert c !in PinsOf(m, v); }
    forall t | t in hs ensures c !in hs[t].held {
      forall i | 0 <= i < |hs[t].held| ensures hs[t].held[i] != c { HeldLive(m, hs, known, t, i); }
    }
  }

  /** The new entry extends a cached prefix by one node. */
  ghost predicate Extends(m: Manager, known: set<VarId>, e: nat, parent: Option<nat>, path: Path)
    requires e in m.caches
  {
    && path != [] && (forall i :: 0 <= i < |path| ==> path[i] in known)
    && (|path| == 1 ==> parent == None)
    && (|path| > 1 ==> Front(path) in m.caches[e].fwd && parent == Some(m.caches[e].fwd[Front(path)]))
  }

  lemma GrownKeepsEntry(m: Manager, n: Manager, known: set<VarId>, e: nat, c: nat, parent: Option<nat>,
                        path: Option<Path>, pin: Option<VarId>, f: nat, p: Path)
    requires Grown(m, n, e, c, parent, path, pin) && f in m.caches && p in m.caches[f].fwd && EntryOk(m, f, known, p)
    ensures f in n.caches && p in n.caches[f].fwd && EntryOk(n, f, known, p)
  {}

  lemma GrownKeepsCache(m: Manager, n: Manager, known: set<VarId>, e: nat, c: nat, parent: Option<nat>,
                        path: Option<Path>, pin: Option<VarId>)
    requires CacheInv(m, known) && Grown(m, n, e, c, parent, path, pin)
    requires path.Some? ==> Extends(m, known, e, parent, path.value)
    ensures CacheInv(n, known)
  {
    hide EntryOk;
    forall f, p | f in n.caches && p in n.caches[f].fwd ensures EntryOk(n, f, known, p) {
      if f == e && path == Some(p) {
        GrownNewEntry(m, n, known, e, c, parent, p, pin);
      } else {
        GrownKeepsEntry(m, n, known, e, c, parent, path, pin, f, p);
      }
    }
    GrownKeepsRev(m, n, known, e, c, parent, path, pin);
  }

  lemma GrownNewEntry(m: Manager, n: Manager, known: set<VarId>, e: nat, c: nat, parent: Option<nat>, p: Path,
                      pin: Option<VarId>)
    requires Grown(m, n, e, c, parent, Some(p), pin) && Extends(m, known, e, parent, p)
    ensures EntryOk(n, e, known, p)
  {}

  lemma GrownKeepsRev(m: Manager, n: Manager, known: set<VarId>, e: nat, c: nat, parent: Option<nat>,
                      path: Option<Path>, pin: Option<VarId>)
    requires CacheInv(m, known) && Grown(m, n, e, c, parent, path, pin)
    ensures forall f, d :: f in n.caches && d in n.caches[f].rev ==>
              n.caches[f].rev[d] in n.caches[f].fwd && n.caches[f].fwd[n.caches[f].rev[d]] == d
    ensures forall d :: d in n.contexts ==> n.contexts[d].engine in n.caches && n.contexts[d].parent != Some(d)
  {}

  lemma GrownKeepsPins(m: Manager, n: Manager, known: set<VarId>, e: nat, c: nat, parent: Option<nat>,
                       path: Option<Path>, pin: Option<VarId>)
    requires CacheInv(m, known) && PinInv(m) && Grown(m, n, e, c, parent, path, pin)
    requires pin.Some? ==> path == Some([pin.value])
    requires forall v :: c !in PinsOf(m, v)
    ensures PinInv(n)
  {
    hide CacheInv;
    forall v, i | v in n.pins && 0 <= i < |n.pins[v]| ensures PinOk(n, v, n.pins[v][i]) {
      if i < |PinsOf(m, v)| {
        assert PinOk(m, v, m.pins[v][i]);
        GrownKeepsPin(m, n, e, c, parent, path, pin, v, m.pins[v][i]);
      }
    }
  }

  lemma GrownKeepsPin(m: Manager, n: Manager, e: nat, c: nat, parent: Option<nat>, path: Option<Path>,
                      pin: Option<VarId>, v: VarId, d: nat)
    requires Grown(m, n, e, c, parent, path, pin) && PinOk(m, v, d)
    ensures PinOk(n, v, d)
  {}

  lemma GrownKeepsHolds(m: Manager, n: Manager, hs: Holds, known: set<VarId>, e: nat, c: nat, parent: Option<nat>,
                        path: Option<Path>, pin: Option<VarId>)
    requires CacheInv(m, known) && HoldInv(m, hs) && Grown(m, n, e, c, parent, path, pin)
    ensures HoldInv(n, hs)
  {
    forall t | t in hs ensures HoldOk(n, hs[t]) {
      assert HoldOk(m, hs[t]);
      forall i | 0 <= i < |hs[t].held| ensures HeldOk(n, hs[t], i) { assert HeldOk(m, hs[t], i); }
    }
  }

  lemma AppendKeepsHolds(n: Manager, hs: Holds, t: nat, c: nat)
    requires HoldInv(n, hs) && t in hs && |hs[t].held| <= |hs[t].chain.fills|
    requires HoldOk(n, hs[t].(held := hs[t].held + [c]))
    requires forall u, i :: u in hs && 0 <= i < |hs[u].held| ==> hs[u].held[i] != c
    ensures HoldInv(n, hs[t := hs[t].(held := hs[t].held + [c])])
  {
    var hs' := hs[t := hs[t].(held := hs[t].held + [c])];
    forall u | u in hs' ensures HoldOk(n, hs'[u]) { assert u != t ==> HoldOk(n, hs[u]); }
  }

  lemma GrownHold(m: Manager, n: Manager, h: Hold, c: nat, pin: Option<VarId>)
    requires HoldOk(n, h) && |h.held| <= |h.chain.fills|
    requires Grown(m, n, h.engine, c, NodeParent(h.held), NodePath(h.chain, |h.held|), pin)
    requires c !in m.caches[h.engine].rev
    ensures HoldOk(n, h.(held := h.held + [c]))
  {
    var h' := h.(held := h.held + [c]);
    forall i | 0 <= i < |h'.held| ensures HeldOk(n, h', i) { assert i < |h.held| ==> HeldOk(n, h, i); }
  }

  lemma GrownKeepsRefs(m: Manager, n: Manager, hs: Holds, t: nat, e: nat, c: nat, parent: Option<nat>,
                       path: Option<Path>, pin: Option<VarId>)
    requires RefInv(m, hs) && t in hs && c !in hs[t].held && Grown(m, n, e, c, parent, path, pin)
    requires Holders(hs, c) == {} && Pinners(m.pins, c) == {}
    ensures RefInv(n, hs[t := hs[t].(held := hs[t].held + [c])])
  {
    hide Holders, Pinners, Grown;
    var hs' := hs[t := hs[t].(held := hs[t].held + [c])];
    GrownRefs(m, n, e, c, parent, path, pin);
    forall d ensures Holders(hs', d) == if d == c then Holders(hs, d) + {t} else Holders(hs, d) {
      HoldersGrow(hs, t, c, d);
    }
    forall d
      ensures Pinners(n.pins, d) ==
              if d == c && pin.Some? then Pinners(m.pins, d) + {pin.value} else Pinners(m.pins, d)
    {
      if pin.Some? { PinnersGrow(m, pin.value, c, d); }
    }
  }

  lemma GrownRefs(m: Manager, n: Manager, e: nat, c: nat, parent: Option<nat>, path: Option<Path>, pin: Option<VarId>)
    requires Grown(m, n, e, c, parent, path, pin)
    ensures c !in m.contexts && n.contexts.Keys == m.contexts.Keys + {c}
    ensures n.refs == m.refs[c := if pin.Some? then 2 else 1]
    ensures n.pins == (if pin.Some? then m.pins[pin.value := PinsOf(m, pin.value) + [c]] else m.pins)
  {}

  lemma PinnersGrow(m: Manager, v: VarId, c: nat, d: nat)
    ensures Pinners(m.pins[v := PinsOf(m, v) + [c]], d) ==
            if d == c then Pinners(m.pins, d) + {v} else Pinners(m.pins, d)
  {}

  /** Contexts were only added; the engines have not heard of them yet, and only `v` can
      have become pinned. */
  ghost predicate Extended(m: Manager, n: Manager, v: VarId) {
    && m.contexts.Keys <= n.contexts.Keys
    && (forall d :: d in m.contexts ==> n.contexts[d] == m.contexts[d])
    && n.backend == m.backend
    && n.caches.Keys == m.caches.Keys
    && (forall f, p :: f in n.caches && p in n.caches[f].fwd && n.caches[f].fwd[p] in m.contexts ==>
          p in m.caches[f].fwd && m.caches[f].fwd[p] == n.caches[f].fwd[p])
    && n.pins.Keys <= m.pins.Keys + {v}
  }

  lemma BindParent(b: Binding, hs: Holds, known: set<VarId>, t: nat, e: nat, ch: Chain)
    requires BindingOk(b, hs, known, t, e, ch) && |b.held| <= |ch.fills|
    ensures b.held != [] ==> b.held[|b.held| - 1] in b.mgr.contexts && b.mgr.contexts[b.held[|b.held| - 1]].engine == e
    ensures NodePath(ch, |b.held|).Some? ==> Extends(b.mgr, known, e, NodeParent(b.held), NodePath(ch, |b.held|).value)
  {
    hide PinInv, PoolInv, BackendInv, RefInv, CacheInv, HoldInv, HoldOk;
    var k := |b.held|;
    HoldOkOf(b.mgr, hs, t);
    if k > 0 {
      HeldOkOf(b.mgr, hs[t], k - 1);
      assert k < |ch.fills| ==> Front(ch.fills[..k + 1]) == ch.fills[..k];
    }
  }

  lemma HeldOkOf(m: Manager, h: Hold, i: nat)
    requires HoldOk(m, h) && i < |h.held|
    ensures |h.held| <= |h.chain.fills| + 1 && h.engine in m.caches && HeldOk(m, h, i)
  {}

  lemma MissNotCached(b: Binding, hs: Holds, known: set<VarId>, t: nat, e: nat, ch: Chain)
    requires BindingOk(b, hs, known, t, e, ch) && |b.held| <= |ch.fills|
    requires !b.miss ==> ch.Vars()[..|b.held| + 1] !in b.mgr.caches[e].fwd
    ensures NoLonger(b.mgr.caches[e].fwd, ch.fills, |b.held|)
  {
    hide HoldInv, PinInv, PoolInv, BackendInv, RefInv, EntryOk;
    if !b.miss && |b.held| < |ch.fills| {
      VarsPrefix(ch, |b.held| + 1);
      forall j | |b.held| < j <= |ch.fills| ensures ch.fills[..j] !in b.mgr.caches[e].fwd {
        MissEndsPrefix(b.mgr, known, e, ch.fills, |b.held|, j);
      }
    }
  }

  lemma FreshNotInRev(m: Manager, known: set<VarId>, c: nat, e: nat)
    requires CacheInv(m, known) && c !in m.contexts && e in m.caches
    ensures c !in m.caches[e].rev
  {}

  lemma GrownKeepsStructure(m: Manager, n: Manager, hs: Holds, known: set<VarId>, t: nat, c: nat)
    requires Inv(m, hs, known) && t in hs && |hs[t].held| <= |hs[t].chain.fills| && hs[t].chain.fills != []
    requires Grown(m, n, hs[t].engine, c, NodeParent(hs[t].held),
                   NodePath(hs[t].chain, |hs[t].held|), NodePin(hs[t].chain, |hs[t].held|))
    requires NodePath(hs[t].chain, |hs[t].held|).Some? ==>
               Extends(m, known, hs[t].engine, NodeParent(hs[t].held), NodePath(hs[t].chain, |hs[t].held|).value)
    requires (forall v :: c !in PinsOf(m, v)) && Holders(hs, c) == {} && Pinners(m.pins, c) == {}
    ensures CacheInv(n, known) && PinInv(n) && BackendInv(n)
    ensures HoldInv(n, hs[t := hs[t].(held := hs[t].held + [c])])
    ensures RefInv(n, hs[t := hs[t].(held := hs[t].held + [c])])
  {
    hide CacheInv, HoldInv, PinInv, PoolInv, RefInv, HoldOk, Extends, Pinners;
    var h := hs[t];
    var k := |h.held|;
    var parent, path, pin := NodeParent(h.held), NodePath(h.chain, k), NodePin(h.chain, k);
    assert k == 0 ==> h.chain.fills[..1] == [h.chain.fills[0]];
    GrownKeepsCache(m, n, known, h.engine, c, parent, path, pin);
    GrownKeepsPins(m, n, known, h.engine, c, parent, path, pin);
    GrownKeepsHolds(m, n, hs, known, h.engine, c, parent, path, pin);
    assert forall u :: u in hs ==> u !in Holders(hs, c);
    GrownKeepsRefs(m, n, hs, t, h.engine, c, parent, path, pin);
    HoldOkOf(n, hs, t);
    FreshNotInRev(m, known, c, h.engine);
    GrownHold(m, n, h, c, pin);
    AppendKeepsHolds(n, hs, t, c);
  }

  lemma HoldOkOf(m: Manager, hs: Holds, t: nat)
    requires HoldInv(m, hs) && t in hs
    ensures HoldOk(m, hs[t])
  {}

  lemma MissKeeps(b: Binding, hs: Holds, known: set<VarId>, t: nat, e: nat, ch: Chain)
    requires BindingOk(b, hs, known, t, e, ch) && |b.held| <= |ch.fills|
    requires !b.miss ==> ch.Vars()[..|b.held| + 1] !in b.mgr.caches[e].fwd
    ensures BindNode(e, ch, b).Ok?
    ensures var b1 := BindNode(e, ch, b).value;
            && BindingOk(b1, hs[t := Hold(e, ch, b1.held)], known, t, e, ch)
            && |b1.held| == |b.held| + 1
            && Extended(b.mgr, b1.mgr, ch.fills[0])
  {
    hide CacheInv, HoldInv, PinInv, RefInv, HoldOk, Extends, Pinners, Holders, BindNode;
    BindParent(b, hs, known, t, e, ch);
    MissNotCached(b, hs, known, t, e, ch);
    FreshId(b.mgr, hs, known);
    MissShape(b, hs, known, t, e, ch);
    var b1 := BindNode(e, ch, b).value;
    var c := Allocate(b.mgr.pool).0.value;
    GrownKeepsStructure(b.mgr, b1.mgr, hs, known, t, c);
    assert hs[t].(held := hs[t].held + [c]) == Hold(e, ch, b1.held);
    assert b1.mgr.contexts.Keys == b.mgr.contexts.Keys + {c};
    assert NoLonger(b1.mgr.caches[e].fwd, ch.fills, |b1.held|) by {
      forall j | |b1.held| < j <= |ch.fills| ensures ch.fills[..j] !in b1.mgr.caches[e].fwd {
        assert |ch.fills[..j]| == j;
      }
    }
  }

  lemma {:induction false} BindFromKeeps(b: Binding, hs: Holds, known: set<VarId>, t: nat, e: nat, ch: Chain)
    requires BindingOk(b, hs, known, t, e, ch)
    ensures BindFrom(e, ch, b).Ok?
    ensures var b1 := BindFrom(e, ch, b).value;
            && Inv(b1.mgr, hs[t := Hold(e, ch, b1.held)], known)
            && |b1.held| == |ch.fills| + 1
            && Extended(b.mgr, b1.mgr, ch.fills[0])
    decreases |ch.fills| + 1 - |b.held|
  {
    hide Inv, BindNode;
    if |b.held| > |ch.fills| {
      assert hs[t := Hold(e, ch, b.held)] == hs;
    } else {
      if !b.miss && ch.Vars()[..|b.held| + 1] in b.mgr.caches[e].fwd {
        HitKeeps(b, hs, known, t, e, ch);
      } else {
        MissKeeps(b, hs, known, t, e, ch);
      }
      var b1 := BindNode(e, ch, b).value;
      var hs1 := hs[t := Hold(e, ch, b1.held)];
      BindFromKeeps(b1, hs1, known, t, e, ch);
      var b2 := BindFrom(e, ch, b1).value;
      assert hs1[t := Hold(e, ch, b2.held)] == hs[t := Hold(e, ch, b2.held)];
    }
  }

  lemma AddEmptyHold(m: Manager, hs: Holds, known: set<VarId>, t: nat, e: nat, ch: Chain)
    requires Inv(m, hs, known) && t !in hs && e in m.caches && ch.fills != []
    ensures Inv(m, hs[t := Hold(e, ch, [])], known)
  {
    var hs' := hs[t := Hold(e, ch, [])];
    forall c ensures Holders(hs', c) == Holders(hs, c) {}
    forall u | u in hs' ensures HoldOk(m, hs'[u]) { if u != t { HoldOkOf(m, hs, u); } }
  }

  /** Binding a task whose Fill variables have content never raises, whether or not
      somebody has already written its Gen variable: the cached id is always registered and the "Prefix should not be
      cached" assertion holds.  The invariant then also covers the new task, which holds
      one context per node. */
  lemma BindTaskKeeps(m: Manager, hs: Holds, known: set<VarId>, t: nat, e: nat, ch: Chain)
    requires Inv(m, hs, known) && t !in hs && e in m.caches && ch.fills != []
    requires forall i :: 0 <= i < |ch.fills| ==> ch.fills[i] in known
    ensures BindTask(m, e, ch).Ok?
    ensures var b := BindTask(m, e, ch).value;
            && Inv(b.mgr, hs[t := Hold(e, ch, b.held)], known)
            && |b.held| == |ch.fills| + 1
            && Extended(m, b.mgr, ch.fills[0])
  {
    hide Inv;
    AddEmptyHold(m, hs, known, t, e, ch);
    var hs' := hs[t := Hold(e, ch, [])];
    BindFromKeeps(Binding(m, [], false), hs', known, t, e, ch);
    var b := BindTask(m, e, ch).value;
    assert hs'[t := Hold(e, ch, b.held)] == hs[t := Hold(e, ch, b.held)];
  }

  /** A bind pins the head of its chain if it is a constant prefix that is not cached on
      the engine, and changes no other pin. */
  predicate PinsHead(m: Manager, e: nat, ch: Chain) {
    ch.fills != [] && ch.headIsConstantPrefix && e in m.caches && [ch.fills[0]] !in m.caches[e].fwd
  }

  lemma {:induction false} LaterNodesPinNothing(e: nat, ch: Chain, b: Binding)
    requires |b.held| > 0 && BindFrom(e, ch, b).Ok?
    ensures BindFrom(e, ch, b).value.mgr.pins == b.mgr.pins
    decreases |ch.fills| + 1 - |b.held|
  {
    if |b.held| <= |ch.fills| { LaterNodesPinNothing(e, ch, BindNode(e, ch, b).value); }
  }

  lemma BindStarts(e: nat, ch: Chain, b: Binding)
    requires |b.held| <= |ch.fills| && BindFrom(e, ch, b).Ok?
    ensures BindNode(e, ch, b).Ok? && BindFrom(e, ch, b) == BindFrom(e, ch, BindNode(e, ch, b).value)
  {}

  lemma BindTaskPins(m: Manager, e: nat, ch: Chain)
    requires BindTask(m, e, ch).Ok? && ch.fills != []
    ensures BindTask(m, e, ch).value.mgr.pins.Keys ==
            if PinsHead(m, e, ch) then m.pins.Keys + {ch.fills[0]} else m.pins.Keys
  {
    hide BindFrom, Allocate;
    var b := Binding(m, [], false);
    BindStarts(e, ch, b);
    assert ch.Vars()[..1] == [ch.fills[0]];
    LaterNodesPinNothing(e, ch, BindNode(e, ch, b).value);
  }

  // ---------- What the invariant does not depend on ----------

  lemma KnownFrame(m: Manager, hs: Holds, known: set<VarId>, known': set<VarId>)
    requires Inv(m, hs, known) && known <= known'
    ensures Inv(m, hs, known')
  {
    hide HoldInv, PinInv, RefInv, PoolInv, BackendInv;
    forall e, p | e in m.caches && p in m.caches[e].fwd ensures EntryOk(m, e, known', p) {
      assert EntryOk(m, e, known, p);
    }
  }

  lemma BackendFrame(m: Manager, n: Manager, hs: Holds, known: set<VarId>)
    requires Inv(m, hs, known) && n == m.(backend := n.backend) && BackendInv(n)
    ensures Inv(n, hs, known)
  {
    forall e, p | e in n.caches && p in n.caches[e].fwd ensures EntryOk(n, e, known, p) {
      assert EntryOk(m, e, known, p);
    }
    HoldsFrame(m, n, hs);
    forall v, i | v in n.pins && 0 <= i < |n.pins[v]| ensures PinOk(n, v, n.pins[v][i]) {
      assert PinOk(m, v, m.pins[v][i]);
    }
  }
}
