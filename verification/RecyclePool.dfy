/** The id pool shared by every layer (`parrot/utils/recycle_pool.py`): serve-layer
    context ids, engine KV blocks, task ids.  Facts are stated over the set of live
    ids; the `allocated_num` statistic is not modelled. */
module RecyclePools {
  import opened Wrappers

  /** `size == None` is the unbounded pool; `fixedOrder` is `debug_mode`. */
  datatype Pool = Pool(size: Option<nat>, fixedOrder: bool, curMax: nat, free: seq<nat>)

  /** How many ids the pool has handed out for the first time.  A failing allocation
      still bumps `curMax`, so this is not `curMax` itself. */
  function Minted(p: Pool): nat {
    match p.size
    case None => p.curMax
    case Some(n) => if p.curMax < n then p.curMax else if n == 0 then 0 else n - 1
  }

  ghost predicate Valid(p: Pool) {
    && (forall i :: 0 <= i < |p.free| ==> p.free[i] < Minted(p))
    && (forall i, j :: 0 <= i < j < |p.free| ==> p.free[i] != p.free[j])
  }

  ghost function Live(p: Pool): (s: set<nat>) {
    set i: nat | i < Minted(p) && i !in p.free
  }

  function New(size: Option<nat>, fixedOrder: bool): Pool {
    Pool(size, fixedOrder, 0, [])
  }

  /** `allocate`: `None` is the raised `ParrotError`. */
  function Allocate(p: Pool): (Option<nat>, Pool) {
    if |p.free| == 0 || p.fixedOrder then
      var q := p.(curMax := p.curMax + 1);
      if p.size.Some? && q.curMax >= p.size.value then (None, q) else (Some(p.curMax), q)
    else
      (Some(p.free[0]), p.(free := p.free[1..]))
  }

  /** `free`: raises when the id is already free. */
  function Free(p: Pool, id: nat): Result<Pool> {
    if id in p.free then Raised else Ok(p.(free := p.free + [id]))
  }

  lemma AllocateKeeps(p: Pool)
    requires Valid(p)
    ensures Valid(Allocate(p).1)
    ensures Allocate(p).1.size == p.size && Allocate(p).1.fixedOrder == p.fixedOrder
    ensures Allocate(p).0.Some? ==> Allocate(p).0.value !in Live(p)
    ensures Live(Allocate(p).1) == match Allocate(p).0 { case Some(i) => Live(p) + {i} case None => Live(p) }
  {
    var (r, q) := Allocate(p);
    if |p.free| == 0 || p.fixedOrder {
      forall i: nat ensures i in Live(q) <==> i in (if r.Some? then Live(p) + {r.value} else Live(p)) {}
    } else {
      assert p.free == [p.free[0]] + p.free[1..];
      forall i: nat ensures i in Live(q) <==> i in Live(p) + {r.value} {
        assert i in p.free <==> i == p.free[0] || i in p.free[1..];
      }
    }
  }

  lemma FreeKeeps(p: Pool, id: nat)
    requires Valid(p) && id in Live(p)
    ensures Free(p, id).Ok? && Valid(Free(p, id).value)
    ensures Live(Free(p, id).value) == Live(p) - {id}
    ensures Free(p, id).value.size == p.size && Free(p, id).value.fixedOrder == p.fixedOrder
  {
    var q := Free(p, id).value;
    forall i: nat ensures i in Live(q) <==> i in Live(p) - {id} {
      assert i in q.free <==> i in p.free || i == id;
    }
  }

  /** Freeing a handed-out id raises exactly when it is not live: the double free. */
  lemma FreeRaisesIffDoubleFree(p: Pool, id: nat)
    requires Valid(p) && id < Minted(p)
    ensures Free(p, id).Raised? <==> id !in Live(p)
  {}

  lemma {:induction false} LiveCount(p: Pool)
    requires Valid(p)
    ensures |Live(p)| + |p.free| == Minted(p)
    decreases |p.free|
  {
    if p.free == [] {
      assert Live(p) == Below(Minted(p));
    } else {
      var k := |p.free| - 1;
      var q := p.(free := p.free[..k]);
      LiveCount(q);
      assert p.free == q.free + [p.free[k]];
      assert Live(q) == Live(p) + {p.free[k]};
    }
  }

  ghost function Below(n: nat): (s: set<nat>)
    ensures forall i: nat :: i in s <==> i < n
    ensures |s| == n
  {
    if n == 0 then {} else Below(n - 1) + {n - 1}
  }

  /** A pool of size n raises exactly when all of the n - 1 ids it can ever hand out
      are live (none at all when n is 0). */
  lemma AllocateRaisesIffExhausted(p: Pool)
    requires Valid(p) && !p.fixedOrder && p.size.Some?
    ensures Allocate(p).0.None? <==> |Live(p)| >= p.size.value - 1
  {
    LiveCount(p);
  }

  lemma LiveInRange(p: Pool, id: nat)
    requires Valid(p) && id in Live(p) && p.size.Some?
    ensures id + 1 < p.size.value
  {}

  /** A call on the pool; a call that raises hands out nothing. */
  datatype Call = Take | Give(id: nat)

  function After(p: Pool, call: Call): Pool {
    match call
    case Take => Allocate(p).1
    case Give(id) => (match Free(p, id) case Ok(q) => q case Raised => p)
  }

  /** The ids handed out by a sequence of calls, in order. */
  function HandedOut(p: Pool, calls: seq<Call>): seq<nat>
    decreases |calls|
  {
    if calls == [] then []
    else
      var rest := HandedOut(After(p, calls[0]), calls[1..]);
      if calls[0].Take? && Allocate(p).0.Some? then [Allocate(p).0.value] + rest else rest
  }

  /** In `debug_mode`, over any sequence of allocations and frees, ids come out in strictly
      increasing order, so none is ever handed out twice. */
  lemma {:induction false} FixedOrderNeverRecycles(p: Pool, calls: seq<Call>)
    requires p.fixedOrder
    ensures forall i :: 0 <= i < |HandedOut(p, calls)| ==> p.curMax <= HandedOut(p, calls)[i]
    ensures forall i, j :: 0 <= i < j < |HandedOut(p, calls)| ==> HandedOut(p, calls)[i] < HandedOut(p, calls)[j]
    decreases |calls|
  {
    if calls != [] {
      var q := After(p, calls[0]);
      FixedOrderNeverRecycles(q, calls[1..]);
      var rest := HandedOut(q, calls[1..]);
      assert HandedOut(p, calls) ==
             if calls[0].Take? && Allocate(p).0.Some? then [Allocate(p).0.value] + rest else rest;
    }
  }

  /** The free of each id in turn, then as many allocations. */
  function Gives(ids: seq<nat>): seq<Call> {
    seq(|ids|, i requires 0 <= i < |ids| => Give(ids[i]))
  }

  function Takes(n: nat): seq<Call> {
    seq(n, i requires 0 <= i < n => Take)
  }

  lemma {:induction false} TakesInOrder(p: Pool, n: nat)
    requires !p.fixedOrder && n <= |p.free|
    ensures HandedOut(p, Takes(n)) == p.free[..n]
    decreases n
  {
    if n > 0 {
      var q := After(p, Take);
      assert Takes(n)[0] == Take && Takes(n)[1..] == Takes(n - 1);
      TakesInOrder(q, n - 1);
      assert p.free[..n] == [p.free[0]] + q.free[..n - 1];
    }
  }

  lemma {:induction false} GivesHandOut(p: Pool, ids: seq<nat>, calls: seq<Call>)
    requires forall i :: 0 <= i < |ids| ==> ids[i] !in p.free
    requires forall i, j :: 0 <= i < j < |ids| ==> ids[i] != ids[j]
    ensures HandedOut(p, Gives(ids) + calls) == HandedOut(p.(free := p.free + ids), calls)
    decreases |ids|
  {
    if ids == [] {
      assert Gives(ids) + calls == calls && p.(free := p.free + ids) == p by { assert p.free + ids == p.free; }
    } else {
      var q := After(p, Give(ids[0]));
      var all := Gives(ids) + calls;
      assert all[0] == Give(ids[0]) && all[1..] == Gives(ids[1..]) + calls;
      assert q == p.(free := p.free + [ids[0]]);
      GivesHandOut(q, ids[1..], calls);
      assert p.free + ids == q.free + ids[1..];
    }
  }

  /** First freed, first reused: ids that are given back come out again in the order of their
      frees, after those that were free before. */
  lemma FirstFreedFirstReused(p: Pool, ids: seq<nat>, n: nat)
    requires !p.fixedOrder && n <= |p.free| + |ids|
    requires forall i :: 0 <= i < |ids| ==> ids[i] !in p.free
    requires forall i, j :: 0 <= i < j < |ids| ==> ids[i] != ids[j]
    ensures HandedOut(p, Gives(ids) + Takes(n)) == (p.free + ids)[..n]
  {
    GivesHandOut(p, ids, Takes(n));
    TakesInOrder(p.(free := p.free + ids), n);
  }

  class RecyclePool {
    const size: Option<nat>
    const fixedOrder: bool
    var curMax: nat
    var freeIds: seq<nat>

    function View(): Pool reads this { Pool(size, fixedOrder, curMax, freeIds) }

    constructor (size: Option<nat>, fixedOrder: bool)
      ensures View() == New(size, fixedOrder) && Valid(View()) && Live(View()) == {}
    {
      this.size, this.fixedOrder := size, fixedOrder;
      curMax, freeIds := 0, [];
    }

    method Take() returns (r: Option<nat>)
      modifies this
      ensures (r, View()) == Allocate(old(View()))
    {
      if |freeIds| == 0 || fixedOrder {
        curMax := curMax + 1;
        if size.Some? && curMax >= size.value { return None; }
        return Some(curMax - 1);
      }
      r := Some(freeIds[0]);
      freeIds := freeIds[1..];
    }

    method Release(id: nat) returns (ok: bool)
      modifies this
      ensures match Free(old(View()), id)
              case Ok(q) => ok && View() == q
              case Raised => !ok && View() == old(View())
    {
      if id in freeIds { return false; }
      freeIds := freeIds + [id];
      return true;
    }
  }
}
