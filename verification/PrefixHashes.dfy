/** The string keys of the prefix cache (`parrot/serve/context_manager.py`): the ids of a
    prefix, each in double braces, concatenated. */
module PrefixHashes {
  import opened ServeContexts

  function PrefixHash(p: Path): string {
    if p == [] then "" else "{{" + p[0] + "}}" + PrefixHash(p[1..])
  }

  predicate BraceFree(v: VarId) {
    forall i :: 0 <= i < |v| ==> v[i] != '{' && v[i] != '}'
  }

  lemma SameHead(v: VarId, w: VarId, x: string, y: string)
    requires BraceFree(v) && BraceFree(w) && v + "}}" + x == w + "}}" + y
    ensures v == w && x == y
  {
    var l, r := v + "}}" + x, w + "}}" + y;
    assert l[|v|] == '}' && r[|w|] == '}';
    assert v == l[..|v|] && w == r[..|w|];
    assert x == l[|v| + 2..] && y == r[|w| + 2..];
  }

  /** Two prefixes of brace-free variable ids have the same string key only if they are
      the same prefix, so keying the cache by the id sequence loses nothing. */
  lemma {:induction false} PrefixHashInjective(p: Path, q: Path)
    requires (forall i :: 0 <= i < |p| ==> BraceFree(p[i])) && (forall i :: 0 <= i < |q| ==> BraceFree(q[i]))
    requires PrefixHash(p) == PrefixHash(q)
    ensures p == q
  {
    if p != [] && q != [] {
      var x, y := PrefixHash(p[1..]), PrefixHash(q[1..]);
      assert p[0] + "}}" + x == PrefixHash(p)[2..];
      assert q[0] + "}}" + y == PrefixHash(q)[2..];
      SameHead(p[0], q[0], x, y);
      PrefixHashInjective(p[1..], q[1..]);
      assert p == [p[0]] + p[1..] && q == [q[0]] + q[1..];
    }
  }

  lemma Assoc(a: string, b: string, c: string)
    ensures (a + b) + c == a + (b + c)
  {}

  function Bracketed(v: VarId): string {
    "{{" + v + "}}"
  }

  /** The loop of `set_task_contexts` extends the key by one bracketed id at a time. */
  lemma {:induction false} PrefixHashGrows(p: Path, v: VarId)
    ensures PrefixHash(p + [v]) == PrefixHash(p) + Bracketed(v)
  {
    if p == [] {
      assert (p + [v])[1..] == [];
      assert PrefixHash(p + [v]) == Bracketed(v) + "";
    } else {
      PrefixHashGrows(p[1..], v);
      assert (p + [v])[1..] == p[1..] + [v];
      Assoc(Bracketed(p[0]), PrefixHash(p[1..]), Bracketed(v));
    }
  }
}
