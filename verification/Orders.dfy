/** Options, results and sorting of finite sets, shared by every component. */
module Orders {

  datatype Option<+T> = None | Some(value: T)

  datatype Result<+T, +E> = Ok(value: T) | Err(error: E)

  function Front<T>(p: seq<T>): seq<T>
    requires p != []
  {
    p[..|p| - 1]
  }

  function Last<T>(p: seq<T>): T
    requires p != []
  {
    p[|p| - 1]
  }

  ghost predicate TotalOrder<T(!new)>(leq: (T, T) -> bool) {
    && (forall x, y :: leq(x, y) || leq(y, x))
    && (forall x, y :: leq(x, y) && leq(y, x) ==> x == y)
    && (forall x, y, z :: leq(x, y) && leq(y, z) ==> leq(x, z))
  }

  ghost predicate SortedBy<T>(q: seq<T>, leq: (T, T) -> bool) {
    forall i, j | 0 <= i < j < |q| :: leq(q[i], q[j])
  }

  ghost predicate Distinct<T>(q: seq<T>) {
    forall i, j | 0 <= i < j < |q| :: q[i] != q[j]
  }

  /** q lists the elements of s, each once, in the order leq. */
  ghost predicate Sorts<T(!new)>(q: seq<T>, s: set<T>, leq: (T, T) -> bool) {
    && SortedBy(q, leq)
    && Distinct(q)
    && (forall x :: x in q <==> x in s)
  }

  function Insert<T(!new)>(q: seq<T>, x: T, leq: (T, T) -> bool): (r: seq<T>)
    requires TotalOrder(leq) && SortedBy(q, leq) && Distinct(q) && x !in q
    ensures SortedBy(r, leq) && Distinct(r)
    ensures forall y :: y in r <==> y == x || y in q
  {
    if q == [] then [x]
    else if leq(x, q[0]) then [x] + q
    else
      var tail := Insert(q[1..], x, leq);
      assert forall k | 0 <= k < |tail| :: tail[k] in tail;
      assert forall y | y in q[1..] :: exists k | 0 < k < |q| :: q[k] == y;
      assert forall y | y in tail :: leq(q[0], y) && y != q[0];
      [q[0]] + tail
  }

  /** Python's `sorted` on a set, with `leq` as the key order. */
  method Sort<T(!new,==)>(s: set<T>, leq: (T, T) -> bool) returns (q: seq<T>)
    requires TotalOrder(leq)
    ensures Sorts(q, s, leq)
  {
    q := [];
    var rest := s;
    while rest != {}
      invariant rest <= s && Sorts(q, s - rest, leq)
    {
      var x :| x in rest;
      q := Insert(q, x, leq);
      rest := rest - {x};
    }
  }

  method SortIds(s: set<int>) returns (q: seq<int>)
    ensures forall i, j | 0 <= i < j < |q| :: q[i] < q[j]
    ensures forall x :: x in q <==> x in s
  {
    q := Sort(s, (x: int, y: int) => x <= y);
  }

  /** The elements of s with fewer than n others before them: the first n of
      s in the order leq. */
  ghost function Lowest<T(!new)>(s: set<T>, leq: (T, T) -> bool, n: int): set<T> {
    set x | x in s && |Before(s, leq, x)| < n
  }

  ghost function Before<T(!new)>(s: set<T>, leq: (T, T) -> bool, x: T): set<T> {
    set y | y in s && y != x && leq(y, x)
  }

  /** Whatever is chosen comes before whatever is not. */
  lemma LowestComeFirst<T(!new)>(s: set<T>, leq: (T, T) -> bool, n: int, x: T, y: T)
    requires TotalOrder(leq)
    requires x in Lowest(s, leq, n) && y in s - Lowest(s, leq, n)
    ensures leq(x, y) && x != y
  {
    if !leq(x, y) {
      assert y in Before(s, leq, x);
      assert Before(s, leq, y) <= Before(s, leq, x);
      Smaller(Before(s, leq, y), Before(s, leq, x));
    }
  }

  lemma {:induction false} Smaller<T>(a: set<T>, b: set<T>)
    requires a <= b
    ensures |a| <= |b|
    ensures a != b ==> |a| < |b|
  {
    assert b == a + (b - a);
  }

  lemma DisjointCount<T>(a: set<T>, b: set<T>)
    requires a !! b
    ensures |a + b| == |a| + |b|
  {}

  lemma MapCount<K, V>(m: map<K, V>)
    ensures |m| == |m.Keys|
  {}

  ghost function Elements<T>(q: seq<T>): set<T> { set x | x in q }

  lemma {:induction false} DistinctCount<T>(q: seq<T>)
    requires Distinct(q)
    ensures |Elements(q)| == |q|
  {
    if q == [] {
    } else {
      DistinctCount(Front(q));
      assert Elements(q) == Elements(Front(q)) + {Last(q)};
    }
  }

  /** The first n of a sorted listing are the n lowest. */
  lemma LowestIsPrefix<T(!new)>(q: seq<T>, s: set<T>, leq: (T, T) -> bool, n: nat)
    requires TotalOrder(leq) && Sorts(q, s, leq) && n <= |q|
    ensures Lowest(s, leq, n) == Elements(q[..n])
    ensures |Lowest(s, leq, n)| == n
  {
    forall x ensures x in Lowest(s, leq, n) <==> x in Elements(q[..n]) {
      if x in s {
        var k :| 0 <= k < |q| && q[k] == x;
        RankInListing(q, s, leq, k);
        assert k < n ==> q[..n][k] == x;
      }
    }
    DistinctCount(q[..n]);
  }

  lemma RankInListing<T(!new)>(q: seq<T>, s: set<T>, leq: (T, T) -> bool, k: nat)
    requires TotalOrder(leq) && Sorts(q, s, leq) && k < |q|
    ensures |Before(s, leq, q[k])| == k
  {
    forall y ensures y in Before(s, leq, q[k]) <==> y in Elements(q[..k]) {
      if y in s {
        var j :| 0 <= j < |q| && q[j] == y;
        assert j < k ==> q[..k][j] == y && leq(q[j], q[k]);
        assert j > k ==> leq(q[k], q[j]);
      }
    }
    assert Before(s, leq, q[k]) == Elements(q[..k]);
    DistinctCount(q[..k]);
  }

  lemma {:induction false} ListingExists<T(!new)>(s: set<T>, leq: (T, T) -> bool) returns (q: seq<T>)
    requires TotalOrder(leq)
    ensures Sorts(q, s, leq) && |q| == |s|
  {
    if s == {} {
      q := [];
    } else {
      var x :| x in s;
      q := ListingExists(s - {x}, leq);
      q := Insert(q, x, leq);
    }
    DistinctCount(q);
    assert Elements(q) == s;
  }

  /** n are chosen, or all if there are fewer. */
  lemma LowestCount<T(!new)>(s: set<T>, leq: (T, T) -> bool, n: int)
    requires TotalOrder(leq)
    ensures |Lowest(s, leq, n)| == if n <= 0 then 0 else Min(n, |s|)
    ensures n >= |s| ==> Lowest(s, leq, n) == s
  {
    var q := ListingExists(s, leq);
    if n <= 0 {
      assert Lowest(s, leq, n) == {};
    } else if n <= |s| {
      LowestIsPrefix(q, s, leq, n);
      assert n == |s| ==> q[..n] == q;
    } else {
      forall x | x in s ensures |Before(s, leq, x)| < n {
        Smaller(Before(s, leq, x), s);
      }
      assert Lowest(s, leq, n) == s;
    }
  }

  function PrefixSet<T(==)>(q: seq<T>, n: int): set<T> {
    if n <= 0 then {} else set x | x in q[..Min(n, |q|)]
  }

  /** Listing the candidates in order and taking a prefix is taking the lowest. */
  lemma LowestIsListed<T(!new)>(q: seq<T>, s: set<T>, leq: (T, T) -> bool, n: int)
    requires TotalOrder(leq) && Sorts(q, s, leq)
    ensures Lowest(s, leq, n) == PrefixSet(q, n)
  {
    DistinctCount(q);
    assert Elements(q) == s;
    LowestCount(s, leq, n);
    if 0 < n <= |q| {
      LowestIsPrefix(q, s, leq, n);
    } else if n > |q| {
      assert q[..|q|] == q;
    }
  }

  /** Two sorted listings of one set are the same. */
  lemma {:induction false} ListingUnique<T(!new)>(p: seq<T>, q: seq<T>, s: set<T>, leq: (T, T) -> bool)
    requires TotalOrder(leq) && Sorts(p, s, leq) && Sorts(q, s, leq)
    ensures p == q
  {
    DistinctCount(p);
    DistinctCount(q);
    assert Elements(p) == s == Elements(q);
    forall k | 0 <= k < |p| ensures p[k] == q[k] {
      var j :| 0 <= j < |q| && q[j] == p[k] by { assert p[k] in s; }
      RankInListing(p, s, leq, k);
      RankInListing(q, s, leq, j);
    }
  }

  /** Python's order on strings, by code point. */
  predicate Lex(a: string, b: string) {
    a == "" || (b != "" && (a[0] < b[0] || (a[0] == b[0] && Lex(a[1..], b[1..]))))
  }

  lemma {:induction false} LexTotal(a: string, b: string)
    ensures Lex(a, b) || Lex(b, a)
    ensures Lex(a, b) && Lex(b, a) ==> a == b
  {
    if a == "" || b == "" {
    } else {
      LexTotal(a[1..], b[1..]);
      assert a == [a[0]] + a[1..] && b == [b[0]] + b[1..];
    }
  }

  /** Python's order of strings: a prefix comes first, and otherwise the smaller
      character at the first difference decides. */
  lemma {:induction false} LexExactly(a: string, b: string)
    ensures Lex(a, b) <==> a <= b || exists k :: DiffersAt(a, b, k) && a[k] < b[k]
  {
    if a == "" || b == "" {
    } else if a[0] == b[0] {
      LexExactly(a[1..], b[1..]);
      if k :| DiffersAt(a[1..], b[1..], k) && a[1..][k] < b[1..][k] { assert DiffersAt(a, b, k + 1); }
      if k :| DiffersAt(a, b, k) && a[k] < b[k] { assert DiffersAt(a[1..], b[1..], k - 1); }
    } else {
      assert DiffersAt(a, b, 0);
    }
  }

  ghost predicate DiffersAt(a: string, b: string, k: int) {
    0 <= k < |a| && k < |b| && a[k] != b[k] && forall i | 0 <= i < k :: a[i] == b[i]
  }

  lemma {:induction false} LexTransitive(a: string, b: string, c: string)
    requires Lex(a, b) && Lex(b, c)
    ensures Lex(a, c)
  {
    if a != "" && a[0] == b[0] && b[0] == c[0] { LexTransitive(a[1..], b[1..], c[1..]); }
  }

  /** An address or a decimal device id. */
  datatype Identity = Identity(text: string)

  predicate Alphabetic(a: Identity, b: Identity) { Lex(a.text, b.text) }

  /** Order by an integer key, ties broken by the identity: `(key[s], s)`. */
  predicate KeyLex(key: map<Identity, int>, a: Identity, b: Identity) {
    var x, y := if a in key then key[a] else 0, if b in key then key[b] else 0;
    x < y || (x == y && Alphabetic(a, b))
  }

  lemma AlphabeticIsTotalOrder()
    ensures TotalOrder(Alphabetic)
  {
    forall a: Identity, b: Identity ensures Alphabetic(a, b) || Alphabetic(b, a)
                                    ensures Alphabetic(a, b) && Alphabetic(b, a) ==> a == b {
      LexTotal(a.text, b.text);
    }
    forall a: Identity, b: Identity, c: Identity | Alphabetic(a, b) && Alphabetic(b, c) ensures Alphabetic(a, c) {
      LexTransitive(a.text, b.text, c.text);
    }
  }

  function ByKey(key: map<Identity, int>): (Identity, Identity) -> bool { (a, b) => KeyLex(key, a, b) }

  lemma ByKeyIsTotalOrder(key: map<Identity, int>)
    ensures TotalOrder(ByKey(key))
  {
    AlphabeticIsTotalOrder();
    var leq := ByKey(key);
    forall a, b, c | leq(a, b) && leq(b, c) ensures leq(a, c) {
      assert Alphabetic(a, b) && Alphabetic(b, c) ==> Alphabetic(a, c);
    }
    forall a, b ensures leq(a, b) || leq(b, a)
                ensures leq(a, b) && leq(b, a) ==> a == b {
      assert Alphabetic(a, b) || Alphabetic(b, a);
    }
  }

  method SortIdentities(s: set<Identity>) returns (q: seq<Identity>)
    ensures Sorts(q, s, Alphabetic)
  {
    AlphabeticIsTotalOrder();
    q := Sort(s, Alphabetic);
  }

  /** `sorted(s, key=...)[:n]`, as a set: its first n elements, or all. */
  method FirstByKey(s: set<Identity>, key: map<Identity, int>, n: int) returns (r: set<Identity>)
    ensures r == Lowest(s, ByKey(key), n)
  {
    ByKeyIsTotalOrder(key);
    var q := Sort(s, ByKey(key));
    LowestIsListed(q, s, ByKey(key), n);
    r := PrefixSet(q, n);
  }

  lemma LowestByKey(s: set<Identity>, key: map<Identity, int>, n: int)
    ensures |Lowest(s, ByKey(key), n)| == if n <= 0 then 0 else Min(n, |s|)
    ensures n >= |s| ==> Lowest(s, ByKey(key), n) == s
    ensures Lowest(s, ByKey(key), n) <= s
  {
    ByKeyIsTotalOrder(key);
    LowestCount(s, ByKey(key), n);
  }

  function Max(x: int, y: int): int { if x >= y then x else y }

  function Min(x: int, y: int): int { if x <= y then x else y }
}
