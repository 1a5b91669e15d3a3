/** What the KV slots hold.  The linked system again, now with the tokens: running a job
    writes its tokens into the slots it appends to the context, and a Fill is answered only
    after its tokens were run.  The theorem joins prompt sharing with addressing: reading
    through the block table of a task's path finds the tokens of the task's own prompt. */
module KvContents {
  import opened Wrappers
  import opened ServeContexts
  import opened Execution
  import opened SharingTheorems
  import opened EngineLink
  import opened Strides
  import PM = PagedMemory
  import Addressing
  import SharedPrompts

  type Tokenizer = string -> seq<nat>

  /** `kv` is each engine's cache, token by slot; `written` is the `token_ids` list of each
      engine context; `dead` are the engines whose loop died on an exhausted pool. */
  datatype State = State(link: Linked, kv: map<nat, map<nat, nat>>, written: map<nat, seq<nat>>, dead: set<nat>)

  datatype KvStep = OfServe(step: Step) | Arrive(t: nat) | Run(t: nat, tokens: seq<nat>)

  function ToLink(st: KvStep): LinkStep {
    match st
    case OfServe(step) => Serve(step)
    case Arrive(t) => Deliver(t)
    case Run(t, tokens) => Tokens(t, |tokens|)
  }

  /** The text that a task's current Fill node puts into its context, if it is at one. */
  function FillTokens(tok: Tokenizer, l: Linked, t: nat): Option<seq<nat>>
    requires Flying(l.sys, t)
  {
    var ch, i := l.sys.holds[t].chain, l.sys.execs[t].next;
    if i < |ch.fills| && ch.fills[i] in l.sys.contents then Some(tok(l.sys.contents[ch.fills[i]])) else None
  }

  /** A Fill runs once, with exactly its tokens, and is answered after that; an engine whose
      loop died runs nothing. */
  predicate KvEnabled(tok: Tokenizer, s: State, st: KvStep) {
    && LinkEnabled(s.link, ToLink(st))
    && match st
       case OfServe(step) =>
         step.Complete? && FillTokens(tok, s.link, step.t).Some? ==>
           var c := Target(s.link.sys, step.t);
           c in s.written && s.written[c] == FillTokens(tok, s.link, step.t).value
       case Arrive(t) => true
       case Run(t, tokens) =>
         && s.link.sys.holds[t].engine !in s.dead && s.link.sys.holds[t].engine in s.kv
         && Target(s.link.sys, t) in s.written
         && (FillTokens(tok, s.link, t).Some? ==>
               s.written[Target(s.link.sys, t)] == [] && tokens == FillTokens(tok, s.link, t).value)
  }

  function WriteSlots(m: map<nat, nat>, slots: seq<nat>, tokens: seq<nat>): map<nat, nat>
    requires |slots| == |tokens|
  {
    if slots == [] then m
    else
      var n := |slots| - 1;
      WriteSlots(m, slots[..n], tokens[..n])[slots[n] := tokens[n]]
  }

  lemma {:induction false} WriteSpec(m: map<nat, nat>, slots: seq<nat>, tokens: seq<nat>)
    requires |slots| == |tokens| && forall i, j :: 0 <= i < j < |slots| ==> slots[i] != slots[j]
    ensures var r := WriteSlots(m, slots, tokens);
            && (forall i :: 0 <= i < |slots| ==> slots[i] in r && r[slots[i]] == tokens[i])
            && (forall x :: x !in slots && x in m ==> x in r && r[x] == m[x])
  {
    if slots != [] {
      var n := |slots| - 1;
      WriteSpec(m, slots[..n], tokens[..n]);
      assert forall x :: x in slots[..n] ==> x in slots;
    }
  }

  /** The slots of a context beyond the first n. */
  function SlotsFrom(l: Linked, e: nat, c: nat, n: nat): seq<nat>
    requires InMem(l, e, c)
  {
    var slots := l.mems[e].ctxs[c].cells.slots;
    if n <= |slots| then slots[n..] else []
  }

  /** Running a job: its tokens go into the slots that were appended, one each.  If the pool
      has no room, nothing is written and the engine's loop is dead. */
  function RunJob(tok: Tokenizer, s: State, t: nat, tokens: seq<nat>): State
    requires KvEnabled(tok, s, Run(t, tokens))
  {
    var e, c := s.link.sys.holds[t].engine, Target(s.link.sys, t);
    var l := Appended(s.link, t, |tokens|);
    var slots := SlotsFrom(l, e, c, |s.link.mems[e].ctxs[c].cells.slots|);
    if PM.Extend(s.link.mems[e], c, |tokens|).0 && |slots| == |tokens| then
      State(l, s.kv[e := WriteSlots(s.kv[e], slots, tokens)], s.written[c := s.written[c] + tokens], s.dead)
    else
      State(l, s.kv, s.written, s.dead + {e})
  }

  function KvApply(tok: Tokenizer, s: State, st: KvStep): Result<State>
    requires KvEnabled(tok, s, st)
  {
    match st
    case OfServe(step) =>
      var l :- LinkApply(s.link, Serve(step));
      Ok(s.(link := l))
    case Arrive(t) =>
      var l :- LinkApply(s.link, Deliver(t));
      Ok(s.(link := l, written := s.written[Target(s.link.sys, t) := []]))
    case Run(t, tokens) => Ok(RunJob(tok, s, t, tokens))
  }

  ghost predicate KvRuns(tok: Tokenizer, s0: State, steps: seq<KvStep>, s: State)
    decreases |steps|
  {
    if steps == [] then s == s0
    else
      var k := |steps| - 1;
      exists r :: KvRuns(tok, s0, steps[..k], r) && KvEnabled(tok, r, steps[k]) && KvApply(tok, r, steps[k]) == Ok(s)
  }

  function KvInit(sizes: map<nat, (PM.BlockSize, nat)>): State {
    State(LinkInit(sizes), map e | e in sizes :: map[], map[], {})
  }

  // ---------- The invariant ----------

  /** The first slots of a context hold the tokens written to it, in order; what follows is
      padding, or what a dead engine left behind. */
  ghost predicate HoldsTokens(s: State, e: nat, c: nat)
    requires InMem(s.link, e, c)
  {
    var b := s.link.mems[e].ctxs[c];
    && c in s.written && e in s.kv && |s.written[c]| <= |b.cells.slots|
    && (e !in s.dead && !b.padded ==> |s.written[c]| == |b.cells.slots|)
    && forall i :: 0 <= i < |s.written[c]| ==>
         b.cells.slots[i] in s.kv[e] && s.kv[e][b.cells.slots[i]] == s.written[c][i]
  }

  /** A ready cached context was written with the tokens of the last variable of its
      prefix. */
  ghost predicate ReadyTokens(tok: Tokenizer, s: State, c: nat, p: Path) {
    && p != [] && p[|p| - 1] in s.link.sys.contents
    && c in s.written && s.written[c] == tok(s.link.sys.contents[p[|p| - 1]])
  }

  ghost predicate SlotsInv(s: State) {
    s.kv.Keys == s.link.mems.Keys && forall e, c :: InMem(s.link, e, c) ==> HoldsTokens(s, e, c)
  }

  ghost predicate ReadyInv(tok: Tokenizer, s: State) {
    var m := s.link.sys.mgr;
    forall e, p :: e in m.caches && p in m.caches[e].fwd && m.caches[e].fwd[p] in s.link.sys.ready ==>
      ReadyTokens(tok, s, m.caches[e].fwd[p], p)
  }

  ghost predicate KvInv(tok: Tokenizer, s: State) {
    LinkInv(s.link) && SlotsInv(s) && ReadyInv(tok, s)
  }

  // ---------- Every step keeps it ----------

  /** A context whose slots and tokens are as they were, possibly padded since. */
  lemma SameTokens(s: State, n: State, e: nat, c: nat)
    requires InMem(s.link, e, c) && HoldsTokens(s, e, c) && InMem(n.link, e, c)
    requires s.link.mems[e].ctxs[c].cells.slots <= n.link.mems[e].ctxs[c].cells.slots
    requires n.link.mems[e].ctxs[c].padded || e in n.dead
             || (n.link.mems[e].ctxs[c].cells.slots == s.link.mems[e].ctxs[c].cells.slots
                && !s.link.mems[e].ctxs[c].padded && e !in s.dead)
    requires c in n.written && n.written[c] == s.written[c] && e in n.kv
    requires forall i :: 0 <= i < |s.written[c]| ==>
               var x := s.link.mems[e].ctxs[c].cells.slots[i]; x in n.kv[e] && n.kv[e][x] == s.kv[e][x]
    ensures HoldsTokens(n, e, c)
  {
    var a, b := s.link.mems[e].ctxs[c].cells.slots, n.link.mems[e].ctxs[c].cells.slots;
    forall i | 0 <= i < |s.written[c]| ensures b[i] == a[i] {}
  }

  /** Context ids are global: an id is in the memory of one engine only. */
  lemma OneEngine(l: Linked, e: nat, f: nat, c: nat)
    requires LinkInv(l) && InMem(l, e, c) && InMem(l, f, c)
    ensures e == f
  {
    hide SysInv, Settled, PM.MemInv;
    assert MirrorOne(l.sys.mgr.contexts, e, l.mems[e]) && MirrorOne(l.sys.mgr.contexts, f, l.mems[f]);
  }

  lemma MemOf(l: Linked, e: nat)
    requires LinkInv(l) && e in l.mems
    ensures PM.MemInv(l.mems[e])
  {
    hide SysInv, Settled, PM.MemInv;
    assert MirrorOne(l.sys.mgr.contexts, e, l.mems[e]);
  }

  /** What an extension does to the slots, in the memory it leaves. */
  lemma ExtendSlots(m: PM.Mem, c: nat, k: nat)
    requires PM.MemInv(m) && c in m.ctxs && !m.ctxs[c].padded
    ensures var r := PM.Extend(m, c, k).1;
            && PM.MemInv(r) && r.ctxs.Keys == m.ctxs.Keys
            && (forall d :: d in m.ctxs && d != c ==> r.ctxs[d] == m.ctxs[d])
            && r.ctxs[c].padded == m.ctxs[c].padded && m.ctxs[c].cells.slots <= r.ctxs[c].cells.slots
            && (PM.Extend(m, c, k).0 ==> |r.ctxs[c].cells.slots| == |m.ctxs[c].cells.slots| + k)
  {
    hide PM.MemInv, PM.AllocN;
    PM.ExtendKeeps(m, c, k);
    PM.AllocNExtends(m.bs, m.pool, m.ctxs[c].cells, k);
    ExtendLength(m, c, k);
  }

  lemma ExtendLength(m: PM.Mem, c: nat, k: nat)
    requires PM.MemInv(m) && c in m.ctxs
    ensures PM.Extend(m, c, k).0 ==> |PM.Extend(m, c, k).1.ctxs[c].cells.slots| == |m.ctxs[c].cells.slots| + k
  {
    hide PM.CellsOk, PM.Owned, PM.AllocN, PM.Ownership, PM.Tree;
    PM.CellsOwned(m, c);
    PM.AllocNKeeps(m.bs, m.pool, m.ctxs[c].cells, k);
  }

  /** The appended slots are new: distinct, and no other slot of any context. */
  lemma AddedSlots(m: PM.Mem, c: nat, k: nat)
    requires PM.MemInv(m) && c in m.ctxs && !m.ctxs[c].padded && PM.Extend(m, c, k).0
    ensures var r := PM.Extend(m, c, k).1;
            c in r.ctxs &&
            var before, after := m.ctxs[c].cells.slots, r.ctxs[c].cells.slots;
            before <= after &&
            var added := after[|before|..];
            && |added| == k && after == before + added
            && (forall i, j :: 0 <= i < j < |added| ==> added[i] != added[j])
            && (forall i :: 0 <= i < |before| ==> before[i] !in added)
            && (forall d, i :: d in m.ctxs && d != c && 0 <= i < |m.ctxs[d].cells.slots| ==>
                 m.ctxs[d].cells.slots[i] !in added)
  {
    hide PM.MemInv, PM.Extend;
    ExtendSlots(m, c, k);
    var r := PM.Extend(m, c, k).1;
    var before, after := m.ctxs[c].cells.slots, r.ctxs[c].cells.slots;
    var n := |before|;
    forall i, j | 0 <= i < j < |after| ensures after[i] != after[j] { Addressing.SlotsDistinct(r, c, i, c, j); }
    forall d, i | d in m.ctxs && d != c && 0 <= i < |m.ctxs[d].cells.slots|
      ensures m.ctxs[d].cells.slots[i] !in after[n..]
    {
      forall j | 0 <= j < |after| ensures after[j] != m.ctxs[d].cells.slots[i] {
        Addressing.SlotsDistinct(r, c, j, d, i);
      }
    }
  }

  /** What running a job changes. */
  ghost predicate RunsAs(s: State, n: State, e: nat, c: nat, tokens: seq<nat>) {
    && e in s.kv && c in s.written
    && e in s.link.mems && c in s.link.mems[e].ctxs && !s.link.mems[e].ctxs[c].padded && PM.MemInv(s.link.mems[e])
    && c !in s.link.sys.ready && n.link.sys == s.link.sys
    && var (ok, r) := PM.Extend(s.link.mems[e], c, |tokens|);
    && n.link.mems == s.link.mems[e := r] && c in r.ctxs
    && var k := |s.link.mems[e].ctxs[c].cells.slots|;
    && (ok ==>
          && |r.ctxs[c].cells.slots| == k + |tokens|
          && n.kv == s.kv[e := WriteSlots(s.kv[e], r.ctxs[c].cells.slots[k..], tokens)]
          && n.written == s.written[c := s.written[c] + tokens] && n.dead == s.dead)
    && (!ok ==> n.kv == s.kv && n.written == s.written && n.dead == s.dead + {e})
  }

  lemma RunShape(tok: Tokenizer, s: State, t: nat, tokens: seq<nat>, e: nat, c: nat, n: State)
    requires KvEnabled(tok, s, Run(t, tokens)) && e == s.link.sys.holds[t].engine && c == Target(s.link.sys, t)
    requires n == RunJob(tok, s, t, tokens)
    requires KvInv(tok, s)
    ensures RunsAs(s, n, e, c, tokens)
  {
    hide LinkInv, ReadyInv, SlotsInv, PM.MemInv, PM.Extend;
    FlyingFacts(s.link, t);
    MemOf(s.link, e);
    ExtendSlots(s.link.mems[e], c, |tokens|);
  }

  ghost predicate Good(s: State, e: nat, c: nat) {
    InMem(s.link, e, c) && HoldsTokens(s, e, c)
  }

  lemma TokensOf(tok: Tokenizer, s: State, e: nat, c: nat)
    requires KvInv(tok, s) && InMem(s.link, e, c)
    ensures HoldsTokens(s, e, c)
  {}

  lemma RunKeepsSlots(tok: Tokenizer, s: State, t: nat, tokens: seq<nat>)
    requires KvEnabled(tok, s, Run(t, tokens))
    requires KvInv(tok, s)
    ensures SlotsInv(RunJob(tok, s, t, tokens))
  {
    hide LinkInv, ReadyInv, HoldsTokens, RunJob, RunsAs;
    var e, c := s.link.sys.holds[t].engine, Target(s.link.sys, t);
    var n := RunJob(tok, s, t, tokens);
    RunShape(tok, s, t, tokens, e, c, n);
    RunSameContexts(s, n, e, c, tokens);
    forall f, d | InMem(n.link, f, d) ensures HoldsTokens(n, f, d) {
      if d == c {
        OneEngine(s.link, e, f, c);
        RunOwn(s, n, e, c, tokens);
      } else {
        RunOther(s, n, e, c, tokens, f, d);
      }
    }
  }

  lemma RunSameContexts(s: State, n: State, e: nat, c: nat, tokens: seq<nat>)
    requires RunsAs(s, n, e, c, tokens)
    ensures InMem(s.link, e, c) && n.kv.Keys == s.kv.Keys && n.link.mems.Keys == s.link.mems.Keys
    ensures forall f, d :: InMem(n.link, f, d) <==> InMem(s.link, f, d)
  {
    hide PM.MemInv, PM.Extend, WriteSlots;
    ExtendSlots(s.link.mems[e], c, |tokens|);
  }

  /** The context that was run, on an engine that is alive. */
  lemma RunOwn(s: State, n: State, e: nat, c: nat, tokens: seq<nat>)
    requires RunsAs(s, n, e, c, tokens) && Good(s, e, c) && e !in s.dead
    ensures Good(n, e, c)
  {
    hide PM.MemInv, PM.Extend, WriteSlots;
    ExtendSlots(s.link.mems[e], c, |tokens|);
    if PM.Extend(s.link.mems[e], c, |tokens|).0 {
      AddedSlots(s.link.mems[e], c, |tokens|);
      var before := s.link.mems[e].ctxs[c].cells.slots;
      WriteSpec(s.kv[e], n.link.mems[e].ctxs[c].cells.slots[|before|..], tokens);
    }
  }

  /** Every other context keeps its slots, and none of them was written. */
  lemma RunOther(s: State, n: State, e: nat, c: nat, tokens: seq<nat>, f: nat, d: nat)
    requires RunsAs(s, n, e, c, tokens) && Good(s, f, d) && d != c
    ensures Good(n, f, d)
  {
    hide PM.MemInv, PM.Extend, WriteSlots;
    ExtendSlots(s.link.mems[e], c, |tokens|);
    if f == e && PM.Extend(s.link.mems[e], c, |tokens|).0 {
      AddedSlots(s.link.mems[e], c, |tokens|);
      var before := s.link.mems[e].ctxs[c].cells.slots;
      WriteSpec(s.kv[e], n.link.mems[e].ctxs[c].cells.slots[|before|..], tokens);
    }
  }

  lemma RunKeeps(tok: Tokenizer, s: State, t: nat, tokens: seq<nat>)
    requires KvEnabled(tok, s, Run(t, tokens))
    requires KvInv(tok, s)
    ensures KvInv(tok, RunJob(tok, s, t, tokens))
  {
    hide LinkInv, SlotsInv, PM.Extend;
    RunKeepsSlots(tok, s, t, tokens);
    var n := RunJob(tok, s, t, tokens);
    assert LinkLeaves(s.link, Tokens(t, |tokens|), Appended(s.link, t, |tokens|));
    LinkStepSafe(s.link, Tokens(t, |tokens|));
    FlyingFacts(s.link, t);
    var m := n.link.sys.mgr;
    forall e, p | e in m.caches && p in m.caches[e].fwd && m.caches[e].fwd[p] in n.link.sys.ready
      ensures ReadyTokens(tok, n, m.caches[e].fwd[p], p) { assert ReadyTokens(tok, s, m.caches[e].fwd[p], p); }
  }

  /** What the arrival of a request does to the slots. */
  lemma BindSlots(mem: PM.Mem, c: nat, parent: Option<nat>)
    requires PM.MemInv(mem) && c !in mem.ctxs && (parent.Some? ==> parent.value in mem.ctxs)
    ensures PM.Bind(mem, c, parent).Ok?
    ensures var n := PM.Bind(mem, c, parent).value;
            && n.ctxs.Keys == mem.ctxs.Keys + {c} && n.ctxs[c].cells.slots == []
            && (forall d :: d in mem.ctxs && Some(d) != parent ==> n.ctxs[d] == mem.ctxs[d])
            && (parent.Some? ==>
                 n.ctxs[parent.value].padded && mem.ctxs[parent.value].cells.slots <= n.ctxs[parent.value].cells.slots)
  {
    hide PM.Ownership, PM.AllCellsOk, PM.Aligned, PM.Tree, PM.PoolOk;
    BindLinks(mem, c, parent);
    if parent.Some? && !mem.ctxs[parent.value].padded {
      var b := mem.ctxs[parent.value];
      CeilBounds(|b.cells.blocks|, mem.bs);
      PM.AllocNExtends(mem.bs, mem.pool, b.cells, CeilDiv(|b.cells.blocks|, mem.bs) * mem.bs - |b.cells.blocks|);
    }
  }

  lemma ArriveKeeps(tok: Tokenizer, s: State, t: nat)
    requires KvEnabled(tok, s, Arrive(t))
    requires KvInv(tok, s)
    ensures KvApply(tok, s, Arrive(t)).Ok? && KvInv(tok, KvApply(tok, s, Arrive(t)).value)
  {
    hide LinkInv, SlotsInv, HoldsTokens, PM.MemInv, PM.Bind;
    FlyingFacts(s.link, t);
    DeliverKeeps(s.link, t);
    var e, c := s.link.sys.holds[t].engine, Target(s.link.sys, t);
    var n := KvApply(tok, s, Arrive(t)).value;
    ArriveKeepsSlots(tok, s, n, e, c, s.link.sys.mgr.contexts[c].parent);
    var m := n.link.sys.mgr;
    forall f, p | f in m.caches && p in m.caches[f].fwd && m.caches[f].fwd[p] in n.link.sys.ready
      ensures ReadyTokens(tok, n, m.caches[f].fwd[p], p) { assert ReadyTokens(tok, s, m.caches[f].fwd[p], p); }
  }

  lemma ArriveKeepsSlots(tok: Tokenizer, s: State, n: State, e: nat, c: nat, parent: Option<nat>)
    requires e in s.link.mems && c !in s.link.mems[e].ctxs && (parent.Some? ==> parent.value in s.link.mems[e].ctxs)
    requires c in s.link.sys.mgr.contexts && s.link.sys.mgr.contexts[c].engine == e
    requires PM.Bind(s.link.mems[e], c, parent).Ok?
             && n.link.mems == s.link.mems[e := PM.Bind(s.link.mems[e], c, parent).value]
    requires n.kv == s.kv && n.written == s.written[c := []] && n.dead == s.dead
    requires KvInv(tok, s)
    ensures SlotsInv(n)
  {
    hide LinkInv, ReadyInv, PM.MemInv, PM.Bind;
    MemOf(s.link, e);
    BindSlots(s.link.mems[e], c, parent);
    forall f, d | InMem(n.link, f, d) ensures HoldsTokens(n, f, d) {
      if d == c {
        if f != e { WrongEngine(s.link, f, c); }
      } else {
        assert HoldsTokens(s, f, d);
        SameTokens(s, n, f, d);
      }
    }
  }

  lemma WrongEngine(l: Linked, f: nat, c: nat)
    requires LinkInv(l) && c in l.sys.mgr.contexts && l.sys.mgr.contexts[c].engine != f
    ensures !InMem(l, f, c)
  {
    hide SysInv, Settled, PM.MemInv;
    if f in l.mems { assert MirrorOne(l.sys.mgr.contexts, f, l.mems[f]); }
  }

  /** A step of the serve layer changes the memories only by freeing whole contexts. */
  lemma ServeFrame(l: Linked, step: Step, n: Linked)
    requires LinkEnabled(l, Serve(step)) && LinkApply(l, Serve(step)) == Ok(n)
    requires LinkInv(l)
    ensures Apply(l.sys, step) == Ok(n.sys)
    ensures n.mems.Keys == l.mems.Keys
    ensures forall e, c :: InMem(n, e, c) ==>
              && InMem(l, e, c) && n.mems[e].ctxs[c].cells == l.mems[e].ctxs[c].cells
              && n.mems[e].ctxs[c].padded == l.mems[e].ctxs[c].padded
  {
    hide SysInv, Mirror, Settled, LinkedFreeHeld, LinkedExpire, FreeHeld, Expire, BindTask;
    InvOf(l.sys);
    match step
    case Finish(t) =>
      LinkedFinishKeeps(l, t);
      LinkedFreeHeldKeeps(l.sys.mgr, l.mems, l.sys.holds, l.sys.contents.Keys, t, {});
    case ExpirePrefix(v) =>
      LinkedExpireKeeps(l, v);
      LinkedExpireSpec(l.sys.mgr, l.mems, l.sys.holds, l.sys.contents.Keys, v);
    case _ =>
  }

  predicate CachedReady(s: System, e: nat, p: Path, c: nat) {
    e in s.mgr.caches && p in s.mgr.caches[e].fwd && s.mgr.caches[e].fwd[p] == c && c in s.ready
  }

  /** The step completes a Fill of c, whose cached prefix is p. */
  predicate JustFilled(s: System, step: Step, p: Path, c: nat) {
    && step.Complete? && HasPhase(s, step.t, InFlight)
    && var h, i := s.holds[step.t], s.execs[step.t].next;
    && i < |h.held| && i < |h.chain.fills| && h.held[i] == c && p == h.chain.fills[..i + 1]
    && h.chain.fills[i] in s.contents
  }

  ghost predicate ReadyFrom(r: System, step: Step, n: System) {
    && (forall v :: v in r.contents ==> v in n.contents && n.contents[v] == r.contents[v])
    && forall e, p, c :: CachedReady(n, e, p, c) ==> CachedReady(r, e, p, c) || JustFilled(r, step, p, c)
  }

  lemma PrunedReady(r: System, step: Step, n: System)
    requires Pruned(r.mgr, n.mgr) && n.ready <= r.ready && n.contents == r.contents
    ensures ReadyFrom(r, step, n)
  {}

  lemma SameReady(r: System, step: Step, n: System)
    requires n.mgr.caches == r.mgr.caches && n.ready == r.ready
    requires forall v :: v in r.contents ==> v in n.contents && n.contents[v] == r.contents[v]
    ensures ReadyFrom(r, step, n)
  {}

  lemma BindReady(r: System, t: nat, f: nat, ch: Chain, n: System)
    requires SysInv(r) && Enabled(r, Bind(t, f, ch)) && Apply(r, Bind(t, f, ch)) == Ok(n)
    ensures ReadyFrom(r, Bind(t, f, ch), n)
  {
    hide SysInv, BindTask;
    InvOf(r);
    BindExtends(r, t, f, ch);
  }

  lemma CompleteReady(r: System, t: nat, output: string, n: System)
    requires SysInv(r) && Enabled(r, Complete(t, output)) && Apply(r, Complete(t, output)) == Ok(n)
    ensures ReadyFrom(r, Complete(t, output), n)
  {
    hide SysInv;
    TaskShape(r, t);
    if r.execs[t].next < |r.holds[t].chain.fills| { FillText(r, t); } else { GenFacts(r, t); }
  }

  /** A ready cached context was ready and cached before, unless a Fill of its prefix has
      just completed. */
  lemma ReadyBefore(r: System, step: Step, n: System)
    requires SysInv(r) && Enabled(r, step) && Apply(r, step) == Ok(n)
    ensures ReadyFrom(r, step, n)
  {
    hide SysInv, BindTask, FreeHeld, Expire, ReadyFrom, Pruned;
    InvOf(r);
    match step
    case Bind(t, f, ch) => BindReady(r, t, f, ch, n);
    case Complete(t, output) => CompleteReady(r, t, output, n);
    case Finish(t) =>
      FreeHeldKeeps(r.mgr, r.holds, r.contents.Keys, t, {});
      PrunedReady(r, step, n);
    case ExpirePrefix(v) =>
      ExpireKeeps(r.mgr, r.holds, r.contents.Keys, v);
      PrunedReady(r, step, n);
    case _ => SameReady(r, step, n);
  }

  lemma ServeKeeps(tok: Tokenizer, s: State, step: Step)
    requires KvEnabled(tok, s, OfServe(step)) && KvApply(tok, s, OfServe(step)).Ok?
    requires KvInv(tok, s)
    ensures KvInv(tok, KvApply(tok, s, OfServe(step)).value)
  {
    hide LinkInv, SlotsInv, ReadyInv, LinkApply, ReadyFrom, Apply;
    var n := KvApply(tok, s, OfServe(step)).value;
    ServeFrame(s.link, step, n.link);
    ServeKeepsSlots(s, n);
    assert LinkLeaves(s.link, Serve(step), n.link);
    LinkStepSafe(s.link, Serve(step));
    SysOf(s.link);
    ReadyBefore(s.link.sys, step, n.link.sys);
    ServeKeepsReady(tok, s, step, n);
  }

  lemma ServeKeepsReady(tok: Tokenizer, s: State, step: Step, n: State)
    requires KvEnabled(tok, s, OfServe(step)) && ReadyInv(tok, s) && n.written == s.written
    requires ReadyFrom(s.link.sys, step, n.link.sys)
    ensures ReadyInv(tok, n)
  {
    var m := n.link.sys.mgr;
    forall e, p | e in m.caches && p in m.caches[e].fwd && m.caches[e].fwd[p] in n.link.sys.ready
      ensures ReadyTokens(tok, n, m.caches[e].fwd[p], p)
    {
      var c := m.caches[e].fwd[p];
      assert CachedReady(n.link.sys, e, p, c);
      if CachedReady(s.link.sys, e, p, c) { assert ReadyTokens(tok, s, c, p); }
    }
  }

  lemma SysOf(l: Linked)
    requires LinkInv(l)
    ensures SysInv(l.sys)
  {}

  lemma ServeKeepsSlots(s: State, n: State)
    requires SlotsInv(s) && n.kv == s.kv && n.written == s.written && n.dead == s.dead
             && n.link.mems.Keys == s.link.mems.Keys
    requires forall e, c :: InMem(n.link, e, c) ==>
               && InMem(s.link, e, c) && n.link.mems[e].ctxs[c].cells == s.link.mems[e].ctxs[c].cells
               && n.link.mems[e].ctxs[c].padded == s.link.mems[e].ctxs[c].padded
    ensures SlotsInv(n)
  {
    forall e, c | InMem(n.link, e, c) ensures HoldsTokens(n, e, c) { assert HoldsTokens(s, e, c); }
  }

  // ---------- Whole runs ----------

  lemma KvInitInv(tok: Tokenizer, sizes: map<nat, (PM.BlockSize, nat)>)
    ensures KvInv(tok, KvInit(sizes))
  {
    hide LinkInv;
    LinkInitInv(sizes);
    assert forall e, c :: !InMem(LinkInit(sizes), e, c);
  }

  lemma KvStepKeeps(tok: Tokenizer, s: State, st: KvStep)
    requires KvEnabled(tok, s, st) && KvApply(tok, s, st).Ok?
    requires KvInv(tok, s)
    ensures KvInv(tok, KvApply(tok, s, st).value)
  {
    hide KvInv;
    match st
    case OfServe(step) => ServeKeeps(tok, s, step);
    case Arrive(t) => ArriveKeeps(tok, s, t);
    case Run(t, tokens) => RunKeeps(tok, s, t, tokens);
  }

  lemma {:induction false} KvRunsKeep(tok: Tokenizer, sizes: map<nat, (PM.BlockSize, nat)>, steps: seq<KvStep>,
                                      s: State)
    requires KvRuns(tok, KvInit(sizes), steps, s)
    ensures KvInv(tok, s)
    decreases |steps|
  {
    hide KvInv, KvApply, KvEnabled;
    if steps == [] {
      KvInitInv(tok, sizes);
    } else {
      var k := |steps| - 1;
      var r :| KvRuns(tok, KvInit(sizes), steps[..k], r) && KvEnabled(tok, r, steps[k])
        && KvApply(tok, r, steps[k]) == Ok(s);
      KvRunsKeep(tok, sizes, steps[..k], r);
      KvStepKeeps(tok, r, steps[k]);
    }
  }

  // ---------- Reading back a task's prompt ----------

  /** Position p of the path of g, looked up through the strided block table of g, holds the
      token x. */
  ghost predicate Finds(s: State, e: nat, g: nat, p: nat, x: nat) {
    && InMem(s.link, e, g) && e in s.kv
    && var mem := s.link.mems[e];
    && PM.Tree(mem)
    && var table := Stride(Addressing.BlockIds(mem, g), mem.bs);
    && p < Addressing.ContextLen(mem, g) && p / mem.bs < |table|
    && var x0 := table[p / mem.bs] * mem.bs + p % mem.bs;
    && x0 in s.kv[e] && s.kv[e][x0] == x
  }

  /** Where the tokens of a context start on its path. */
  ghost function Start(mem: PM.Mem, c: nat): nat
    requires PM.Tree(mem) && c in mem.ctxs
  {
    assert PM.NodeOk(mem, c);
    if mem.ctxs[c].parent.Some? then Addressing.ContextLen(mem, mem.ctxs[c].parent.value) else 0
  }

  /** The path of a task is the path in its engine's memory, up to where the task is. */
  lemma PathInMem(l: Linked, t: nat, k: nat)
    requires LinkInv(l) && t in l.sys.holds && t in l.sys.execs && k < l.sys.execs[t].next && k < |l.sys.holds[t].held|
    ensures var h := l.sys.holds[t];
            && InMem(l, h.engine, h.held[k]) && PM.MemInv(l.mems[h.engine]) && PM.Tree(l.mems[h.engine])
            && l.mems[h.engine].ctxs[h.held[k]].parent == (if k == 0 then None else Some(h.held[k - 1]))
            && h.held[k] in l.sys.ready
  {
    hide SysInv, PM.MemInv;
    HeldInSys(l.sys, t, k);
    var e, c := l.sys.holds[t].engine, l.sys.holds[t].held[k];
    assert InMem(l, e, c);
    assert MirrorOne(l.sys.mgr.contexts, e, l.mems[e]);
    SharedPrompts.MemInvTree(l.mems[e]);
  }

  lemma HeldInSys(s: System, t: nat, k: nat)
    requires SysInv(s) && t in s.holds && t in s.execs && k < s.execs[t].next && k < |s.holds[t].held|
    ensures var h := s.holds[t];
            && h.held[k] in s.ready && h.held[k] in s.mgr.contexts
            && s.mgr.contexts[h.held[k]] == Context(h.engine, if k == 0 then None else Some(h.held[k - 1]))
            && (k < |h.chain.fills| ==> CachedReady(s, h.engine, h.chain.fills[..k + 1], h.held[k]))
  {
    hide TextInv, OwnedInv, ExclusiveInv, EventsInv, RefInv, CacheInv, PinInv, PoolInv, BackendInv;
    assert ExecOk(s, t);
    HoldOkOf(s.mgr, s.holds, t);
    HeldOkOf(s.mgr, s.holds[t], k);
  }

  /** The slots of a context stand at its start on the path of every context below it on the
      task's path. */
  lemma {:induction false} SlotsOnPath(l: Linked, t: nat, i: nat, k: nat)
    requires LinkInv(l) && t in l.sys.holds && t in l.sys.execs && i <= k < l.sys.execs[t].next
             && k < |l.sys.holds[t].held|
    ensures var h := l.sys.holds[t];
            && InMem(l, h.engine, h.held[i]) && InMem(l, h.engine, h.held[k]) && PM.Tree(l.mems[h.engine])
            && var mem := l.mems[h.engine];
            && Addressing.SlotIds(mem, h.held[i]) <= Addressing.SlotIds(mem, h.held[k])
            && |Addressing.SlotIds(mem, h.held[i])| == Start(mem, h.held[i]) + |mem.ctxs[h.held[i]].cells.slots|
            && Addressing.SlotIds(mem, h.held[i])[Start(mem, h.held[i])..] == mem.ctxs[h.held[i]].cells.slots
    decreases k
  {
    hide LinkInv, PM.MemInv, PM.Tree, Addressing.SlotIds;
    var h := l.sys.holds[t];
    PathInMem(l, t, i);
    PathInMem(l, t, k);
    var mem := l.mems[h.engine];
    SharedPrompts.SlotsStep(mem, h.held[i]);
    SharedPrompts.SlotsStep(mem, h.held[k]);
    if i < k {
      SlotsOnPath(l, t, i, k - 1);
    } else if i > 0 {
      Addressing.LengthsAgree(mem, h.held[i - 1]);
    }
  }

  /** A token of one context of the path is found at its position through the table of any
      context below. */
  lemma TokenFound(tok: Tokenizer, s: State, t: nat, i: nat, k: nat, j: nat)
    requires t in s.link.sys.holds && t in s.link.sys.execs
    requires i <= k < s.link.sys.execs[t].next && k < |s.link.sys.holds[t].held|
    requires KvInv(tok, s)
    ensures var h := s.link.sys.holds[t];
            && InMem(s.link, h.engine, h.held[i]) && PM.Tree(s.link.mems[h.engine]) && h.held[i] in s.written
            && (j < |s.written[h.held[i]]| ==>
                  Finds(s, h.engine, h.held[k], Start(s.link.mems[h.engine], h.held[i]) + j, s.written[h.held[i]][j]))
  {
    hide LinkInv, ReadyInv, PM.MemInv, PM.Tree;
    hide Addressing.SlotIds, Addressing.BlockIds, Addressing.ContextLen, Stride, Start;
    var h := s.link.sys.holds[t];
    var e, c, g := h.engine, h.held[i], h.held[k];
    PathInMem(s.link, t, i);
    PathInMem(s.link, t, k);
    SlotsOnPath(s.link, t, i, k);
    assert HoldsTokens(s, e, c);
    var mem := s.link.mems[e];
    SharedPrompts.MemInvTree(mem);
    CellsOkOf(mem);
    Addressing.InvStartsAligned(mem, g);
    Addressing.TranslationExact(mem, g);
    Addressing.LengthsAgree(mem, g);
    if j < |s.written[c]| {
      var p := Start(mem, c) + j;
      assert Addressing.SlotIds(mem, c)[p] == mem.ctxs[c].cells.slots[j];
      assert Addressing.SlotIds(mem, g)[p] == mem.ctxs[c].cells.slots[j];
      assert Addressing.Translates(mem.bs, Addressing.BlockIds(mem, g), Addressing.SlotIds(mem, g), p);
    }
  }

  lemma CellsOkOf(m: PM.Mem)
    requires PM.MemInv(m)
    ensures PM.AllCellsOk(m)
  {}

  lemma WrittenIsFill(tok: Tokenizer, s: State, t: nat, i: nat)
    requires t in s.link.sys.holds && t in s.link.sys.execs
    requires i < s.link.sys.execs[t].next && i < |s.link.sys.holds[t].chain.fills|
    requires KvInv(tok, s)
    ensures var h := s.link.sys.holds[t];
            && |h.held| == |h.chain.fills| + 1 && h.chain.fills[i] in s.link.sys.contents
            && h.held[i] in s.written && s.written[h.held[i]] == tok(s.link.sys.contents[h.chain.fills[i]])
  {
    hide LinkInv, SlotsInv;
    SysOf(s.link);
    TaskShape(s.link.sys, t);
    HeldInSys(s.link.sys, t, i);
    var h := s.link.sys.holds[t];
    var p := h.chain.fills[..i + 1];
    assert ReadyTokens(tok, s, h.held[i], p);
    assert p[|p| - 1] == h.chain.fills[i];
  }

  /** End to end: in every interleaving of tasks, engines and iterations, once a task is at
      its Gen node, token j of its Fill i is what its engine's cache holds at the position of
      that token on the task's path, looked up through the block table the kernel uses,
      whoever wrote it there. */
  lemma SlotsHoldPrompt(tok: Tokenizer, sizes: map<nat, (PM.BlockSize, nat)>, steps: seq<KvStep>, s: State, t: nat,
                        i: nat, j: nat)
    requires KvRuns(tok, KvInit(sizes), steps, s) && t in s.link.sys.holds && t in s.link.sys.execs
    requires s.link.sys.execs[t].next >= |s.link.sys.holds[t].chain.fills| && i < |s.link.sys.holds[t].chain.fills|
    ensures var h := s.link.sys.holds[t];
            var n := |h.chain.fills|;
            && |h.held| == n + 1 && h.chain.fills[i] in s.link.sys.contents
            && InMem(s.link, h.engine, h.held[i]) && PM.Tree(s.link.mems[h.engine])
            && var tokens := tok(s.link.sys.contents[h.chain.fills[i]]);
            j < |tokens| ==> Finds(s, h.engine, h.held[n - 1], Start(s.link.mems[h.engine], h.held[i]) + j, tokens[j])
  {
    hide KvInv, KvRuns, Finds, Start, PM.Tree;
    KvRunsKeep(tok, sizes, steps, s);
    WrittenIsFill(tok, s, t, i);
    TokenFound(tok, s, t, i, |s.link.sys.holds[t].chain.fills| - 1, j);
  }

  /** These runs are runs of the linked system, so all its theorems apply. */
  lemma {:induction false} KvRefinesLink(tok: Tokenizer, sizes: map<nat, (PM.BlockSize, nat)>, steps: seq<KvStep>,
                                         s: State)
    requires KvRuns(tok, KvInit(sizes), steps, s)
    ensures LinkRuns(LinkInit(sizes), LinkSteps(steps), s.link)
    decreases |steps|
  {
    hide LinkEnabled, LinkApply, Appended, KvEnabled, KvApply;
    if steps != [] {
      var k := |steps| - 1;
      var r :| KvRuns(tok, KvInit(sizes), steps[..k], r) && KvEnabled(tok, r, steps[k])
        && KvApply(tok, r, steps[k]) == Ok(s);
      KvRefinesLink(tok, sizes, steps[..k], r);
      assert LinkSteps(steps)[..k] == LinkSteps(steps[..k]) && LinkSteps(steps)[k] == ToLink(steps[k]);
      StepRefines(tok, r, steps[k], s);
      assert LinkRuns(LinkInit(sizes), LinkSteps(steps)[..|LinkSteps(steps)| - 1], r.link);
    }
  }

  lemma StepRefines(tok: Tokenizer, r: State, st: KvStep, s: State)
    requires KvEnabled(tok, r, st) && KvApply(tok, r, st) == Ok(s)
    ensures LinkEnabled(r.link, ToLink(st)) && LinkLeaves(r.link, ToLink(st), s.link)
  {
    hide LinkEnabled, LinkApply, Appended;
  }

  function LinkSteps(steps: seq<KvStep>): seq<LinkStep> {
    seq(|steps|, i requires 0 <= i < |steps| => ToLink(steps[i]))
  }
}
