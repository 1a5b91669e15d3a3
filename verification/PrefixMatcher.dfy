/** The online index of common prompt prefixes (`parrot/serve/prefix_matcher.py`), proved
    against a specification over the whole history of added strings. */
module PrefixMatching {

  const START_LEN := 40
  const GP_THRESHOLD := 3

  // ---------- Longest common prefixes ----------

  /** The longest common prefix of two strings, whose first i characters agree. */
  function CommonLen(a: string, b: string, i: nat): nat
    requires i <= |a| && i <= |b|
    decreases |a| - i
  {
    if i < |a| && i < |b| && a[i] == b[i] then CommonLen(a, b, i + 1) else i
  }

  lemma {:induction false} CommonLenSpec(a: string, b: string, i: nat)
    requires i <= |a| && i <= |b| && a[..i] == b[..i]
    ensures var n := CommonLen(a, b, i);
            && i <= n <= |a| && n <= |b| && a[..n] == b[..n]
            && (n < |a| && n < |b| ==> a[n] != b[n])
    decreases |a| - i
  {
    if i < |a| && i < |b| && a[i] == b[i] {
      assert a[..i + 1] == a[..i] + [a[i]] && b[..i + 1] == b[..i] + [b[i]];
      CommonLenSpec(a, b, i + 1);
    }
  }

  ghost function Lcp(ss: seq<string>): string
    requires ss != []
    decreases |ss|
  {
    if |ss| == 1 then ss[0]
    else
      var p := Lcp(ss[..|ss| - 1]);
      p[..Agree(p, ss[|ss| - 1])]
  }

  ghost function Agree(a: string, b: string): (n: nat)
    ensures n <= |a| && n <= |b|
  {
    CommonLenSpec(a, b, 0);
    CommonLen(a, b, 0)
  }

  /** Scanning may start at any agreed position. */
  lemma {:induction false} AgreeFrom(a: string, b: string, i: nat)
    requires i <= |a| && i <= |b| && a[..i] == b[..i]
    ensures CommonLen(a, b, i) == Agree(a, b)
  {
    if i > 0 {
      assert a[..i][..i - 1] == a[..i - 1] && b[..i][..i - 1] == b[..i - 1];
      AgreeFrom(a, b, i - 1);
      assert a[i - 1] == a[..i][i - 1] && b[i - 1] == b[..i][i - 1];
    }
  }

  lemma NotLonger(p: string, t: string, q: string, n: nat)
    requires q <= p && q <= t && n <= |p| && n <= |t| && p[..n] == t[..n] && (n < |p| && n < |t| ==> p[n] != t[n])
    ensures |q| <= n
  {
    if |q| > n { Agreeing(p, t, q, n); assert false; }
  }

  lemma Agreeing(p: string, t: string, q: string, n: nat)
    requires q <= p && q <= t && n < |q|
    ensures p[n] == t[n]
  {
    assert q[n] == p[n];
  }

  /** `Lcp` is what its name says: a prefix of every string, and no common prefix is
      longer. */
  lemma {:induction false} LcpSpec(ss: seq<string>, q: string)
    requires ss != []
    ensures forall i :: 0 <= i < |ss| ==> Lcp(ss) <= ss[i]
    ensures (forall i :: 0 <= i < |ss| ==> q <= ss[i]) ==> q <= Lcp(ss)
    decreases |ss|
  {
    var k := |ss| - 1;
    if k > 0 {
      LcpSpec(ss[..k], q);
      var p := Lcp(ss[..k]);
      CommonLenSpec(p, ss[k], 0);
      var n := Agree(p, ss[k]);
      forall i | 0 <= i < k ensures p[..n] <= ss[i] { assert ss[..k][i] == ss[i]; }
      if forall i :: 0 <= i < |ss| ==> q <= ss[i] {
        assert forall i :: 0 <= i < k ==> q <= ss[..k][i];
        assert q <= p && q <= ss[k];
        NotLonger(p, ss[k], q, n);
      }
    }
  }

  // ---------- The history ----------

  /** The added strings that share the first 41 characters `c`, in order. */
  ghost function Class(h: seq<string>, c: string): seq<string>
    decreases |h|
  {
    if h == [] then []
    else
      var s := h[|h| - 1];
      Class(h[..|h| - 1], c) + if |s| > START_LEN && s[..START_LEN + 1] == c then [s] else []
  }

  lemma ClassGrows(h: seq<string>, s: string, c: string)
    ensures Class(h + [s], c) == Class(h, c) + if |s| > START_LEN && s[..START_LEN + 1] == c then [s] else []
  {
    assert (h + [s])[..|h|] == h;
  }

  lemma {:induction false} ClassMembers(h: seq<string>, c: string)
    ensures forall i :: 0 <= i < |Class(h, c)| ==> |Class(h, c)[i]| > START_LEN && Class(h, c)[i][..START_LEN + 1] == c
    ensures Class(h, c) != [] ==> |c| == START_LEN + 1
    decreases |h|
  {
    if h != [] { ClassMembers(h[..|h| - 1], c); }
  }

  /** The key of a class starts with the class's 41 characters. */
  lemma KeyHasHead(h: seq<string>, c: string)
    requires Class(h, c) != []
    ensures var k := Lcp(Class(h, c)); |k| > START_LEN && k[..START_LEN + 1] == c && |c| == START_LEN + 1
  {
    ClassMembers(h, c);
    LcpSpec(Class(h, c), c);
    assert forall i :: 0 <= i < |Class(h, c)| ==> c <= Class(h, c)[i];
  }

  /** The first 41 characters: a string's class. */
  function Head(s: string): string
    requires |s| > START_LEN
  {
    s[..START_LEN + 1]
  }

  lemma SameHead(k: string, s: string)
    requires |k| > START_LEN && |s| > START_LEN
    ensures Head(k) == Head(s) <==> k[..START_LEN] == s[..START_LEN] && k[START_LEN] == s[START_LEN]
  {
    assert Head(k) == k[..START_LEN] + [k[START_LEN]] && Head(s) == s[..START_LEN] + [s[START_LEN]];
    if Head(k) == Head(s) {
      assert k[..START_LEN] == Head(k)[..START_LEN] && s[..START_LEN] == Head(s)[..START_LEN];
      assert k[START_LEN] == Head(k)[START_LEN] && s[START_LEN] == Head(s)[START_LEN];
    }
  }

  /** `k` is the key of a class of added strings: their longest common prefix, with their
      number. */
  ghost predicate IsKey(h: seq<string>, k: string, n: nat) {
    |k| > START_LEN && Class(h, Head(k)) != [] && k == Lcp(Class(h, Head(k))) && n == |Class(h, Head(k))|
  }

  ghost predicate Placed(h: seq<string>, l: string, k: string, n: nat) {
    IsKey(h, k, n) && k[..START_LEN] == l
  }

  ghost predicate Listed(table: map<string, map<string, nat>>, h: seq<string>, s: string)
    requires |s| > START_LEN && Class(h, Head(s)) != []
  {
    s[..START_LEN] in table && Lcp(Class(h, Head(s))) in table[s[..START_LEN]]
  }

  /** The table has exactly one entry per class, in the bucket of the first 40
      characters. */
  ghost predicate Indexed(table: map<string, map<string, nat>>, h: seq<string>) {
    && (forall l, k :: l in table && k in table[l] ==> Placed(h, l, k, table[l][k]))
    && (forall s :: |s| > START_LEN && Class(h, Head(s)) != [] ==> Listed(table, h, s))
  }

  lemma EntryOf(table: map<string, map<string, nat>>, h: seq<string>, l: string, k: string)
    requires Indexed(table, h) && l in table && k in table[l]
    ensures IsKey(h, k, table[l][k]) && k[..START_LEN] == l
  {}

  function Bucket(table: map<string, map<string, nat>>, l: string): map<string, nat> {
    if l in table then table[l] else map[]
  }

  /** The history alone determines every bucket, whatever order the entries were visited
      or stored in. */
  lemma IndexUnique(t1: map<string, map<string, nat>>, t2: map<string, map<string, nat>>, h: seq<string>, l: string)
    requires Indexed(t1, h) && Indexed(t2, h)
    ensures Bucket(t1, l) == Bucket(t2, l)
  {
    BucketWithin(t1, t2, h, l);
    BucketWithin(t2, t1, h, l);
  }

  lemma BucketWithin(t1: map<string, map<string, nat>>, t2: map<string, map<string, nat>>, h: seq<string>, l: string)
    requires Indexed(t1, h) && Indexed(t2, h)
    ensures forall k :: k in Bucket(t1, l) ==> k in Bucket(t2, l) && Bucket(t2, l)[k] == Bucket(t1, l)[k]
  {
    forall k | k in Bucket(t1, l) ensures k in Bucket(t2, l) && Bucket(t2, l)[k] == Bucket(t1, l)[k] {
      EntryOf(t1, h, l, k);
      assert Listed(t2, h, k);
      EntryOf(t2, h, l, k);
    }
  }

  /** What a query owes: the length of the class's common prefix if more than three
      strings share it and the query extends it, else -1. */
  ghost function QuerySpec(h: seq<string>, q: string): int {
    if |q| <= START_LEN then -1
    else
      var cls := Class(h, Head(q));
      if |cls| > GP_THRESHOLD && Lcp(cls) <= q then |Lcp(cls)| else -1
  }

  /** The added strings, by position, that share the first 41 characters of q. */
  ghost function Sharing(h: seq<string>, q: string): set<nat>
    requires |q| >= 41
  {
    set i: nat | i < |h| && |h[i]| >= 41 && h[i][..41] == q[..41]
  }

  /** The text starts each of them. */
  ghost predicate CommonTo(h: seq<string>, q: string, p: string)
    requires |q| >= 41
  {
    forall i :: i in Sharing(h, q) ==> p <= h[i]
  }

  lemma {:induction false} ClassIsSharing(h: seq<string>, q: string)
    requires |q| >= 41
    ensures |Class(h, q[..41])| == |Sharing(h, q)|
    ensures forall x :: x in Class(h, q[..41]) <==> exists i :: i in Sharing(h, q) && h[i] == x
    decreases |h|
  {
    var c := q[..41];
    if h == [] {
      assert Sharing(h, q) == {};
    } else {
      var k := |h| - 1;
      var before := h[..k];
      ClassIsSharing(before, q);
      assert h == before + [h[k]];
      ClassGrows(before, h[k], c);
      if |h[k]| >= 41 && h[k][..41] == c {
        assert Sharing(h, q) == Sharing(before, q) + {k};
      } else {
        assert Sharing(h, q) == Sharing(before, q);
      }
      forall x ensures x in Class(h, c) <==> exists i :: i in Sharing(h, q) && h[i] == x {
        assert x in Class(before, c) ==> exists i :: i in Sharing(before, q) && before[i] == x && h[i] == x;
      }
    }
  }

  /** What a query says, in terms of the added strings alone: it fails if and only if the
      query has 40 characters or fewer, at most three added strings share its first 41, or
      those strings have a common prefix that it does not start with.  Otherwise it gives the
      length of their longest common prefix. */
  lemma QueryMeans(h: seq<string>, q: string)
    ensures QuerySpec(h, q) == -1 <==>
              || |q| <= 40 || |Sharing(h, q)| <= 3
              || exists p :: CommonTo(h, q, p) && !(p <= q)
    ensures QuerySpec(h, q) != -1 ==>
              && 41 <= QuerySpec(h, q) <= |q|
              && CommonTo(h, q, q[..QuerySpec(h, q)])
              && (forall p :: CommonTo(h, q, p) ==> |p| <= QuerySpec(h, q))
  {
    hide Lcp, Class, Sharing, CommonTo;
    if |q| > 40 {
      ClassIsSharing(h, q);
      var cls := Class(h, q[..41]);
      if |cls| > 3 {
        KeyHasHead(h, q[..41]);
        var key := Lcp(cls);
        LcpSpec(cls, key);
        KeyIsCommon(h, q, cls, key);
        forall p | CommonTo(h, q, p) ensures p <= key {
          LcpSpec(cls, p);
          CommonToClass(h, q, cls, p);
        }
        assert key <= q ==> q[..|key|] == key;
      }
    }
  }

  lemma KeyIsCommon(h: seq<string>, q: string, cls: seq<string>, key: string)
    requires |q| >= 41 && forall x :: x in cls <==> exists i :: i in Sharing(h, q) && h[i] == x
    requires forall k :: 0 <= k < |cls| ==> key <= cls[k]
    ensures CommonTo(h, q, key)
  {
    forall i | i in Sharing(h, q) ensures key <= h[i] { assert h[i] in cls; }
  }

  lemma CommonToClass(h: seq<string>, q: string, cls: seq<string>, p: string)
    requires |q| >= 41 && forall x :: x in cls <==> exists i :: i in Sharing(h, q) && h[i] == x
    requires CommonTo(h, q, p)
    ensures forall k :: 0 <= k < |cls| ==> p <= cls[k]
  {
    forall k | 0 <= k < |cls| ensures p <= cls[k] { assert cls[k] in cls; }
  }

  lemma OtherClass(h: seq<string>, s: string, k: string)
    requires |s| > START_LEN && |k| > START_LEN && Head(k) != Head(s)
    ensures Class(h + [s], Head(k)) == Class(h, Head(k))
  {
    ClassGrows(h, s, Head(k));
    assert Class(h, Head(k)) + [] == Class(h, Head(k));
  }

  /** The class of the added string: its key is cut back to what the new string shares. */
  lemma OwnClass(h: seq<string>, s: string)
    requires |s| > START_LEN
    ensures |Class(h + [s], Head(s))| == |Class(h, Head(s))| + 1
    ensures Class(h, Head(s)) == [] ==> Lcp(Class(h + [s], Head(s))) == s
    ensures Class(h, Head(s)) != [] ==>
              var k := Lcp(Class(h, Head(s))); Lcp(Class(h + [s], Head(s))) == k[..Agree(k, s)]
  {
    ClassGrows(h, s, Head(s));
    var cls := Class(h, Head(s));
    assert (cls + [s])[..|cls|] == cls;
  }

  lemma KeyOfClass(h: seq<string>, s: string)
    requires |s| > START_LEN && Class(h, Head(s)) != []
    ensures var k := Lcp(Class(h, Head(s))); |k| > START_LEN && Head(k) == Head(s) && k[..START_LEN] == s[..START_LEN]
  {
    KeyHasHead(h, Head(s));
    SameHead(Lcp(Class(h, Head(s))), s);
  }

  /** Replacing the class's entry by the shortened key and the increased count. */
  lemma UpdateKeeps(table: map<string, map<string, nat>>, h: seq<string>, s: string, k: string,
                    table': map<string, map<string, nat>>)
    requires Indexed(table, h) && |s| > START_LEN && |k| > START_LEN && Head(k) == Head(s)
    requires s[..START_LEN] in table && k in table[s[..START_LEN]]
    requires table' == table[s[..START_LEN] :=
                       (table[s[..START_LEN]] - {k})[k[..Agree(k, s)] := table[s[..START_LEN]][k] + 1]]
    ensures Indexed(table', h + [s])
  {
    var l := s[..START_LEN];
    var h' := h + [s];
    OwnClass(h, s);
    EntryOf(table, h, l, k);
    var k' := Lcp(Class(h', Head(s)));
    assert k' == k[..Agree(k, s)];
    KeyOfClass(h', s);
    IsKeyOf(h, k, table[l][k], s);
    forall m, j | m in table' && j in table'[m] ensures Placed(h', m, j, table'[m][j]) {
      if !(m == l && j == k') { UpdatePlaced(table, h, s, k, m, j); }
    }
    forall t | |t| > START_LEN && Class(h', Head(t)) != [] ensures Listed(table', h', t) {
      UpdateListed(table, h, s, k, table', t);
    }
  }

  /** Every class is still listed. */
  lemma UpdateListed(table: map<string, map<string, nat>>, h: seq<string>, s: string, k: string,
                     table': map<string, map<string, nat>>, t: string)
    requires Indexed(table, h) && |s| > START_LEN && |k| > START_LEN && Head(k) == Head(s)
    requires s[..START_LEN] in table && k in table[s[..START_LEN]] && k == Lcp(Class(h, Head(s)))
             && Class(h, Head(s)) != []
    requires table' == table[s[..START_LEN] :=
                       (table[s[..START_LEN]] - {k})[k[..Agree(k, s)] := table[s[..START_LEN]][k] + 1]]
    requires |t| > START_LEN && Class(h + [s], Head(t)) != []
    ensures Listed(table', h + [s], t)
  {
    hide Class, Lcp, Agree;
    SameHead(t, s);
    if Head(t) == Head(s) {
      OwnClass(h, s);
    } else {
      OtherClass(h, s, t);
      KeyOfClass(h, t);
      ListedOf(table, h, t);
    }
  }

  lemma ListedOf(table: map<string, map<string, nat>>, h: seq<string>, t: string)
    requires Indexed(table, h) && |t| > START_LEN && Class(h, Head(t)) != []
    ensures Listed(table, h, t)
  {}

  lemma IsKeyOf(h: seq<string>, k: string, n: nat, s: string)
    requires IsKey(h, k, n) && |s| > START_LEN && Head(k) == Head(s)
    ensures k == Lcp(Class(h, Head(s))) && Class(h, Head(s)) != []
  {}

  /** The other entries stay where they are. */
  lemma UpdatePlaced(table: map<string, map<string, nat>>, h: seq<string>, s: string, k: string, m: string, j: string)
    requires Indexed(table, h) && |s| > START_LEN && |k| > START_LEN && Head(k) == Head(s)
    requires s[..START_LEN] in table && k in table[s[..START_LEN]]
    requires m in table && j in table[m] && !(m == s[..START_LEN] && j == k)
    ensures Placed(h + [s], m, j, table[m][j])
  {
    hide Class, Lcp;
    EntryOf(table, h, s[..START_LEN], k);
    EntryOf(table, h, m, j);
    if Head(j) == Head(s) { SameHead(j, s); }
    OtherClass(h, s, j);
  }

  /** The first string of a new class is its own key. */
  lemma InsertKeeps(table: map<string, map<string, nat>>, h: seq<string>, s: string,
                    table': map<string, map<string, nat>>)
    requires Indexed(table, h) && |s| > START_LEN && Class(h, Head(s)) == []
    requires table' == table[s[..START_LEN] :=
                       (if s[..START_LEN] in table then table[s[..START_LEN]] else map[])[s := 1]]
    ensures Indexed(table', h + [s])
  {
    var l := s[..START_LEN];
    var h' := h + [s];
    OwnClass(h, s);
    forall m, j | m in table' && j in table'[m] ensures Placed(h', m, j, table'[m][j]) {
      if !(m == l && j == s) {
        EntryOf(table, h, m, j);
        OtherClass(h, s, j);
      }
    }
    forall t | |t| > START_LEN && Class(h', Head(t)) != []
      ensures Listed(table', h', t)
    {
      if Head(t) == Head(s) {
        SameHead(t, s);
      } else {
        OtherClass(h, s, t);
      }
    }
  }

  lemma ShortKeeps(table: map<string, map<string, nat>>, h: seq<string>, s: string)
    requires Indexed(table, h) && |s| <= START_LEN
    ensures Indexed(table, h + [s])
  {
    forall m, j | m in table && j in table[m] ensures Placed(h + [s], m, j, table[m][j]) {
      EntryOf(table, h, m, j);
      ShortClass(h, s, Head(j));
    }
    forall t | |t| > START_LEN && Class(h + [s], Head(t)) != [] ensures Listed(table, h + [s], t) {
      ShortClass(h, s, Head(t));
      assert Listed(table, h, t);
    }
  }

  lemma ShortClass(h: seq<string>, s: string, c: string)
    requires |s| <= START_LEN
    ensures Class(h + [s], c) == Class(h, c)
  {
    ClassGrows(h, s, c);
    assert Class(h, c) + [] == Class(h, c);
  }

  /** If no key of the bucket has the string's 41st character, its class is new. */
  lemma NewClass(table: map<string, map<string, nat>>, h: seq<string>, s: string)
    requires Indexed(table, h) && |s| > START_LEN
    requires s[..START_LEN] in table ==>
               forall k :: k in table[s[..START_LEN]] ==> |k| > START_LEN && k[START_LEN] != s[START_LEN]
    ensures Class(h, Head(s)) == []
  {
    if Class(h, Head(s)) != [] {
      KeyOfClass(h, s);
      SameHead(Lcp(Class(h, Head(s))), s);
    }
  }

  // ---------- The matcher ----------

  class PrefixMatcher {
    var table: map<string, map<string, nat>>
    ghost var history: seq<string>

    ghost predicate Valid() reads this { Indexed(table, history) }

    constructor ()
      ensures Valid() && history == []
    {
      table, history := map[], [];
    }

    /** `add_prefix`; the keys are visited in any order. */
    method AddPrefix(prefix: string)
      requires Valid()
      modifies this
      ensures Valid() && history == old(history) + [prefix]
    {
      hide Class, Lcp, CommonLen, Agree, Indexed, Placed, Listed;
      ghost var h := history;
      history := history + [prefix];
      if |prefix| <= START_LEN {
        ShortKeeps(table, h, prefix);
        return;
      }
      var lookup := prefix[..START_LEN];
      var entries := if lookup in table then table[lookup] else map[];
      var todo := entries.Keys;
      while todo != {}
        invariant todo <= entries.Keys && table == old(table) && history == h + [prefix]
        invariant forall k :: k in entries && k !in todo ==> |k| > START_LEN && k[START_LEN] != prefix[START_LEN]
        decreases |todo|
      {
        var k :| k in todo;
        todo := todo - {k};
        EntryOf(table, h, lookup, k);
        if k[START_LEN] == prefix[START_LEN] {
          SameHead(k, prefix);
          var i := ScanCommon(k, prefix);
          if i == |k| {
            assert k[..i] == k;
            entries := entries[k := entries[k] + 1];
          } else {
            entries := entries[k[..i] := entries[k] + 1];
            entries := entries - {k};
          }
          assert entries == (table[lookup] - {k})[k[..i] := table[lookup][k] + 1];
          ghost var before := table;
          table := table[lookup := entries];
          UpdateKeeps(before, h, prefix, k, table);
          return;
        }
      }
      NewClass(table, h, prefix);
      ghost var before := table;
      table := table[lookup := entries[prefix := 1]];
      InsertKeeps(before, h, prefix, table);
    }

    /** `query_prefix`: whichever order the entries are visited in, the answer is the one
        the history determines. */
    method QueryPrefix(prefix: string) returns (r: int)
      requires Valid()
      ensures r == QuerySpec(history, prefix)
    {
      hide Class, Lcp;
      if |prefix| <= START_LEN { return -1; }
      var lookup := prefix[..START_LEN];
      if lookup !in table { return -1; }
      var todo := table[lookup].Keys;
      while todo != {}
        invariant todo <= table[lookup].Keys
        invariant forall k :: k in table[lookup] && k !in todo ==> !(table[lookup][k] > GP_THRESHOLD && k <= prefix)
        decreases |todo|
      {
        var k :| k in todo;
        todo := todo - {k};
        if table[lookup][k] > GP_THRESHOLD && k <= prefix {
          EntryOf(table, history, lookup, k);
          SameHead(k, prefix);
          return |k|;
        }
      }
      if Class(history, Head(prefix)) != [] {
        var key := Lcp(Class(history, Head(prefix)));
        KeyOfClass(history, prefix);
        EntryOf(table, history, lookup, key);
      }
      return -1;
    }
  }

  /** The scan of `add_prefix` from the 41st character on, given that the first 40 agree. */
  method ScanCommon(k: string, prefix: string) returns (i: nat)
    requires |k| > START_LEN && |prefix| > START_LEN && k[..START_LEN] == prefix[..START_LEN]
    ensures i == Agree(k, prefix)
  {
    i := START_LEN;
    while i < |k| && i < |prefix| && k[i] == prefix[i]
      invariant START_LEN <= i <= |k| && i <= |prefix| && k[..i] == prefix[..i]
    {
      assert k[..i + 1] == k[..i] + [k[i]] && prefix[..i + 1] == prefix[..i] + [prefix[i]];
      i := i + 1;
    }
    AgreeFrom(k, prefix, i);
  }
}
