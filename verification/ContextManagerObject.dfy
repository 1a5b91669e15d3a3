/** `ServeCoreContextManager` as the object it is: dictionaries updated in place by loops.
    Each method is proved against the function of the same step in `ServeContexts`;
    `None` and `false` stand for a raised exception. */
module ContextManagerObject {
  import opened Wrappers
  import opened RecyclePools
  import opened ServeContexts

  lemma BindTaskIfInv(m: Manager, hs: Holds, known: set<VarId>, t: nat, e: nat, ch: Chain)
    ensures Inv(m, hs, known) && t !in hs && e in m.caches && ch.fills != []
            && (forall i :: 0 <= i < |ch.fills| ==> ch.fills[i] in known)
            ==> BindTask(m, e, ch).Ok?
                && Inv(BindTask(m, e, ch).value.mgr, hs[t := Hold(e, ch, BindTask(m, e, ch).value.held)], known)
  {
    hide Inv, BindTask;
    if && Inv(m, hs, known) && t !in hs && e in m.caches && ch.fills != []
       && (forall i :: 0 <= i < |ch.fills| ==> ch.fills[i] in known)
    {
      BindTaskKeeps(m, hs, known, t, e, ch);
    }
  }

  class ServeCoreContextManager {
    var contexts: map<nat, Context>
    var refs: map<nat, int>
    var pins: map<VarId, seq<nat>>
    var caches: map<nat, PrefixCache>
    var backend: map<nat, Remote>
    const pool: RecyclePool

    ghost function View(): Manager
      reads this, pool
    {
      Manager(contexts, refs, pins, pool.View(), caches, backend)
    }

    constructor ()
      ensures fresh(pool)
      ensures View() == Manager(map[], map[], map[], New(None, false), map[], map[])
    {
      contexts, refs, pins, caches, backend := map[], map[], map[], map[], map[];
      pool := new RecyclePool(None, false);
    }

    method RegisterEngine(e: nat)
      modifies this`caches
      ensures View() == old(View()).(caches := old(caches)[e := PrefixCache(map[], map[])])
    {
      caches := caches[e := PrefixCache(map[], map[])];
    }

    method AddRefCounter(c: nat)
      modifies this`refs
      ensures View() == AddRef(old(View()), c)
    {
      if c !in refs { refs := refs[c := 0]; }
      refs := refs[c := refs[c] + 1];
    }

    method NewContext(engine: nat, parent: Option<nat>) returns (r: Option<nat>)
      modifies this`contexts, this`refs, pool
      ensures match Create(old(View()), engine, parent)
              case Ok((m, c)) => r == Some(c) && View() == m
              case Raised => r == None
    {
      r := pool.Take();
      if r.Some? {
        contexts := contexts[r.value := Context(engine, parent)];
        AddRefCounter(r.value);
      }
    }

    method CachePrefixContext(e: nat, p: Path, c: nat) returns (ok: bool)
      modifies this`caches
      ensures match CachePrefix(old(View()), e, p, c)
              case Ok(m) => ok && View() == m
              case Raised => !ok
    {
      if e !in caches || p in caches[e].fwd { return false; }
      var k := caches[e];
      caches := caches[e := PrefixCache(k.fwd[p := c], k.rev[c := p])];
      return true;
    }

    method PinConstantPrefix(v: VarId, c: nat) returns (ok: bool)
      modifies this`pins, this`refs
      ensures match Pin(old(View()), v, c)
              case Ok(m) => ok && View() == m
              case Raised => !ok
    {
      if v !in pins { pins := pins[v := []]; }
      if c in pins[v] { return false; }
      pins := pins[v := pins[v] + [c]];
      AddRefCounter(c);
      return true;
    }

    method FreeContext(c: nat) returns (ok: bool)
      modifies this`contexts, this`refs, this`caches, this`backend, pool
      ensures match Release(old(View()), c)
              case Ok(m) => ok && View() == m
              case Raised => !ok
    {
      if c !in refs { return false; }
      refs := refs[c := refs[c] - 1];
      if refs[c] > 0 { return true; }
      if c !in contexts || contexts[c].engine !in caches { return false; }
      var e := contexts[c].engine;
      // The free call to the engine.
      if c in backend {
        if HasRemoteChild(backend, c) { return false; }
        backend := backend - {c};
      }
      var k := caches[e];
      if c in k.rev {
        if k.rev[c] !in k.fwd { return false; }
        k := PrefixCache(k.fwd - {k.rev[c]}, k.rev - {c});
      }
      caches := caches[e := k];
      contexts := contexts - {c};
      ok := pool.Release(c);
    }

    /** `set_task_contexts`: in every state that satisfies the invariant it binds the task
        and keeps the invariant, so the exceptions it could raise never are. */
    method SetTaskContexts(e: nat, ch: Chain, ghost t: nat, ghost hs: Holds, ghost known: set<VarId>)
        returns (r: Option<seq<nat>>)
      modifies this, pool
      ensures match BindTask(old(View()), e, ch)
              case Ok(b) => r == Some(b.held) && View() == b.mgr
              case Raised => r == None
      ensures old(Inv(View(), hs, known)) && t !in hs && e in old(caches) && ch.fills != []
              && (forall i :: 0 <= i < |ch.fills| ==> ch.fills[i] in known)
              ==> r.Some? && Inv(View(), hs[t := Hold(e, ch, r.value)], known)
    {
      hide Inv, BindTask;
      BindTaskIfInv(View(), hs, known, t, e, ch);
      r := WalkChain(e, ch);
    }

    /** Its loop: walk the chain, reuse cached contexts until the first miss, then create,
        fork and cache. */
    method WalkChain(e: nat, ch: Chain) returns (r: Option<seq<nat>>)
      modifies this, pool
      ensures match BindTask(old(View()), e, ch)
              case Ok(b) => r == Some(b.held) && View() == b.mgr
              case Raised => r == None
    {
      hide Create, Pin, AddRef;
      if e !in caches { return None; }
      var vars := ch.Vars();
      var held: seq<nat> := [];
      var prefix: Path := [];
      var miss := false;
      while |held| <= |ch.fills|
        invariant e in caches
        invariant |held| <= |ch.fills| + 1 && prefix == vars[..|held|]
        invariant BindFrom(e, ch, Binding(View(), held, miss)) == BindTask(old(View()), e, ch)
      {
        ghost var b := Binding(View(), held, miss);
        var k := |held|;
        prefix := prefix + [vars[k]];
        assert prefix == vars[..k + 1];
        if !miss && prefix in caches[e].fwd {
          var c := caches[e].fwd[prefix];
          if c !in contexts { return None; }
          AddRefCounter(c);
          held := held + [c];
        } else {
          miss := true;
          var made;
          if k == 0 {
            made := NewContext(e, None);
          } else {
            if held[k - 1] !in contexts { return None; }
            made := NewContext(contexts[held[k - 1]].engine, Some(held[k - 1]));
          }
          if made.None? { return None; }
          var c := made.value;
          if k == 0 && ch.headIsConstantPrefix {
            var pinned := PinConstantPrefix(vars[0], c);
            if !pinned { return None; }
          }
          if k < |ch.fills| {
            var cached := CachePrefixContext(e, prefix, c);
            if !cached { return None; }
          }
          held := held + [c];
        }
        assert BindNode(e, ch, b) == Ok(Binding(View(), held, miss));
      }
      return Some(held);
    }

    /** `free_task_contexts`: leaf first, each context once. */
    method FreeTaskContexts(held: seq<nat>) returns (ok: bool)
      modifies this, pool
      ensures match FreeHeld(old(View()), held, {})
              case Ok(m) => ok && View() == m
              case Raised => !ok
    {
      var visited: set<nat> := {};
      var n := |held|;
      assert held[..n] == held;
      while n > 0
        invariant 0 <= n <= |held|
        invariant FreeHeld(View(), held[..n], visited) == FreeHeld(old(View()), held, {})
      {
        n := n - 1;
        assert held[..n + 1][..n] == held[..n];
        if held[n] !in visited {
          var freed := FreeContext(held[n]);
          if !freed { return false; }
          visited := visited + {held[n]};
        }
      }
      return true;
    }

    /** `free_constant_prefix_contexts`. */
    method FreeConstantPrefixContexts(v: VarId) returns (ok: bool)
      modifies this, pool
      ensures match Expire(old(View()), v)
              case Ok(m) => ok && View() == m
              case Raised => !ok
    {
      if v !in pins { return false; }
      var cs := pins[v];
      var i := 0;
      while i < |cs|
        invariant 0 <= i <= |cs| && pins == old(pins)
        invariant ReleaseAll(View(), cs[i..]) == ReleaseAll(old(View()), cs)
      {
        var freed := FreeContext(cs[i]);
        if !freed { return false; }
        assert cs[i..][1..] == cs[i + 1..];
        i := i + 1;
      }
      pins := pins - {v};
      return true;
    }
  }
}
