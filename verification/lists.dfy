/** Lists as the kernel keeps them: optional links, no element twice, insertion by rank. */
module Lists {
  datatype Option<+T> = None | Some(value: T)

  ghost predicate Distinct<T>(s: seq<T>) {
    forall i, j :: 0 <= i < j < |s| ==> s[i] != s[j]
  }

  // --- Putting in and taking out by position ----------------------------------------------------------

  /** The list with x in front of what was at position k. */
  function Splice<T>(q: seq<T>, k: nat, x: T): (r: seq<T>)
    requires k <= |q|
    ensures |r| == |q| + 1
    ensures forall i :: 0 <= i < |r| ==> r[i] == if i < k then q[i] else if i == k then x else q[i - 1]
  {
    q[..k] + [x] + q[k..]
  }

  lemma SpliceMembers<T>(q: seq<T>, k: nat, x: T, y: T)
    requires k <= |q|
    ensures y in Splice(q, k, x) <==> y in q || y == x
  {
    assert q == q[..k] + q[k..];
  }

  lemma SpliceDistinct<T>(q: seq<T>, k: nat, x: T)
    requires k <= |q| && Distinct(q) && x !in q
    ensures Distinct(Splice(q, k, x))
  {
  }

  /** The list without what is at position i. */
  function Cut<T>(l: seq<T>, i: nat): (r: seq<T>)
    requires i < |l|
    ensures |r| == |l| - 1
    ensures forall k :: 0 <= k < |r| ==> r[k] == if k < i then l[k] else l[k + 1]
  {
    l[..i] + l[i + 1..]
  }

  lemma CutMembers<T>(l: seq<T>, i: nat)
    requires Distinct(l) && i < |l|
    ensures Distinct(Cut(l, i)) && forall x :: x in Cut(l, i) <==> x in l && x != l[i]
  {
    var r := Cut(l, i);
    forall x ensures x in r <==> x in l && x != l[i] {
      if x in l && x != l[i] {
        var k :| 0 <= k < |l| && l[k] == x;
        assert r[if k < i then k else k - 1] == x;
      }
    }
  }

  // --- Taking out by value ------------------------------------------------------------------------------

  /** Position of the first element that satisfies p, or the end. */
  function Find<T>(l: seq<T>, p: T -> bool): (i: nat)
    ensures i <= |l| && (i < |l| ==> p(l[i]))
    ensures forall j :: 0 <= j < i ==> !p(l[j])
  {
    if l == [] || p(l[0]) then 0 else 1 + Find(l[1..], p)
  }

  /** The list without the first element that satisfies p, if any. */
  function WithoutFirst<T>(l: seq<T>, p: T -> bool): seq<T>
  {
    var i := Find(l, p);
    if i < |l| then Cut(l, i) else l
  }

  /** A walk to that element, and past it. */
  method Unlink<T>(l: seq<T>, p: T -> bool) returns (r: seq<T>)
    ensures r == WithoutFirst(l, p)
  {
    var i := 0;
    while i < |l| && !p(l[i])
      invariant i <= |l| && forall j :: 0 <= j < i ==> !p(l[j])
    {
      i := i + 1;
    }
    r := if i < |l| then l[..i] + l[i + 1..] else l;
  }

  function Is<T(==)>(x: T): T -> bool { (y: T) => y == x }

  /** Position of the first x. */
  ghost function Where<T>(l: seq<T>, x: T): (i: nat)
    requires x in l
    ensures i < |l| && l[i] == x
    ensures forall j :: 0 <= j < i ==> l[j] != x
  {
    Find(l, Is(x))
  }

  lemma RemovedMembers<T>(l: seq<T>, x: T)
    requires Distinct(l)
    ensures var r := WithoutFirst(l, Is(x));
      && Distinct(r) && (forall y :: y in r <==> y in l && y != x)
      && |r| == if x in l then |l| - 1 else |l|
  {
    var i := Find(l, Is(x));
    if i < |l| { CutMembers(l, i); }
  }

  // --- Insertion by rank ------------------------------------------------------------------------------

  /** Highest rank first. */
  ghost predicate Ranked<T>(q: seq<T>, rank: T -> int) {
    forall i, j :: 0 <= i < j < |q| ==> rank(q[i]) >= rank(q[j])
  }

  /** How many at the front rank at least r. */
  ghost function Ahead<T>(q: seq<T>, rank: T -> int, r: int): (k: nat)
    ensures k <= |q|
    ensures forall i :: 0 <= i < k ==> rank(q[i]) >= r
    ensures k < |q| ==> rank(q[k]) < r
  {
    if q == [] || rank(q[0]) < r then 0 else 1 + Ahead(q[1..], rank, r)
  }

  /** Behind everybody in front that ranks at least as high. */
  ghost function Insert<T>(q: seq<T>, rank: T -> int, x: T): (r: seq<T>)
    ensures |r| == |q| + 1
  {
    Splice(q, Ahead(q, rank, rank(x)), x)
  }

  /** A ranked list stays ranked, and the newcomer is behind everybody of its own rank. */
  lemma InsertRanked<T>(q: seq<T>, rank: T -> int, x: T)
    requires Ranked(q, rank)
    ensures Ranked(Insert(q, rank, x), rank)
    ensures forall i :: 0 <= i < Ahead(q, rank, rank(x)) ==> rank(q[i]) >= rank(x)
    ensures forall i :: Ahead(q, rank, rank(x)) <= i < |q| ==> rank(q[i]) < rank(x)
  {
    hide Ahead;
    var k, r := Ahead(q, rank, rank(x)), Insert(q, rank, x);
    forall i | k <= i < |q| ensures rank(q[i]) < rank(x) { assert i > k ==> rank(q[k]) >= rank(q[i]); }
    forall i, j | 0 <= i < j < |r| ensures rank(r[i]) >= rank(r[j]) {
      assert r[i] == if i < k then q[i] else if i == k then x else q[i - 1];
      assert r[j] == if j < k then q[j] else if j == k then x else q[j - 1];
    }
  }

  lemma InsertMembers<T>(q: seq<T>, rank: T -> int, x: T)
    ensures forall y :: y in Insert(q, rank, x) <==> y in q || y == x
    ensures Distinct(q) && x !in q ==> Distinct(Insert(q, rank, x))
  {
    hide Ahead;
    forall y ensures y in Insert(q, rank, x) <==> y in q || y == x { SpliceMembers(q, Ahead(q, rank, rank(x)), x, y); }
    if Distinct(q) && x !in q { SpliceDistinct(q, Ahead(q, rank, rank(x)), x); }
  }

  /** A walk that has passed k entries of at least that rank and stopped is at the right place. */
  lemma {:induction false} AheadIs<T>(q: seq<T>, rank: T -> int, r: int, k: nat)
    requires k <= |q| && (forall i :: 0 <= i < k ==> rank(q[i]) >= r) && (k < |q| ==> rank(q[k]) < r)
    ensures Ahead(q, rank, r) == k
  {
    if q != [] && rank(q[0]) >= r { AheadIs(q[1..], rank, r, k - 1); }
  }

  /** Taking one out keeps the rest ranked. */
  lemma CutRanked<T>(q: seq<T>, rank: T -> int, i: nat)
    requires Ranked(q, rank) && i < |q|
    ensures Ranked(Cut(q, i), rank)
  {
  }
}
