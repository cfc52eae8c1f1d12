/** Topic names and member ids, ordered as Rust orders strings: byte by byte. */
module Names {
  import opened Wire

  /** A string, by its UTF-8 bytes. */
  datatype Name = Name(text: Bytes)

  predicate BytesLeq(a: Bytes, b: Bytes)
    decreases |a|
  {
    a == [] || (b != [] && (a[0] < b[0] || (a[0] == b[0] && BytesLeq(a[1..], b[1..]))))
  }

  /** Rust's `<=` on strings. */
  predicate Leq(a: Name, b: Name) {
    BytesLeq(a.text, b.text)
  }

  lemma {:induction false} BytesLeqTotal(a: Bytes, b: Bytes)
    ensures BytesLeq(a, b) || BytesLeq(b, a)
    decreases |a|
  {
    if a != [] && b != [] && a[0] == b[0] {
      BytesLeqTotal(a[1..], b[1..]);
    }
  }

  lemma {:induction false} BytesLeqAntisymmetric(a: Bytes, b: Bytes)
    requires BytesLeq(a, b) && BytesLeq(b, a)
    ensures a == b
    decreases |a|
  {
    if a != [] {
      BytesLeqAntisymmetric(a[1..], b[1..]);
      assert a == [a[0]] + a[1..] && b == [b[0]] + b[1..];
    }
  }

  lemma {:induction false} BytesLeqTransitive(a: Bytes, b: Bytes, c: Bytes)
    requires BytesLeq(a, b) && BytesLeq(b, c)
    ensures BytesLeq(a, c)
    decreases |a|
  {
    if a != [] && a[0] == b[0] == c[0] {
      BytesLeqTransitive(a[1..], b[1..], c[1..]);
    }
  }

  lemma LeqTotal(a: Name, b: Name)
    ensures Leq(a, b) || Leq(b, a)
  {
    BytesLeqTotal(a.text, b.text);
  }

  lemma LeqAntisymmetric(a: Name, b: Name)
    requires Leq(a, b) && Leq(b, a)
    ensures a == b
  {
    BytesLeqAntisymmetric(a.text, b.text);
  }

  lemma LeqTransitive(a: Name, b: Name, c: Name)
    requires Leq(a, b) && Leq(b, c)
    ensures Leq(a, c)
  {
    BytesLeqTransitive(a.text, b.text, c.text);
  }

  predicate Sorted(q: seq<Name>) {
    forall i, j {:trigger Leq(q[i], q[j])} :: 0 <= i < j < |q| ==> Leq(q[i], q[j])
  }

  predicate Distinct<T(==)>(q: seq<T>) {
    forall i, j :: 0 <= i < j < |q| ==> q[i] != q[j]
  }

  function Elements<T>(q: seq<T>): (s: set<T>) {
    set x | x in q
  }

  // ----- sorting a vector -----

  function Insert(x: Name, q: seq<Name>): (r: seq<Name>)
    ensures multiset(r) == multiset(q) + multiset{x}
  {
    if q == [] || Leq(x, q[0]) then
      [x] + q
    else
      assert q == [q[0]] + q[1..];
      [q[0]] + Insert(x, q[1..])
  }

  /** `Vec::sort`. */
  function Sort(q: seq<Name>): (r: seq<Name>)
    ensures multiset(r) == multiset(q)
  {
    if q == [] then
      []
    else
      assert q == [q[0]] + q[1..];
      Insert(q[0], Sort(q[1..]))
  }

  lemma {:induction false} InsertSorted(x: Name, q: seq<Name>)
    requires Sorted(q)
    ensures Sorted(Insert(x, q))
  {
    var r := Insert(x, q);
    if q == [] || Leq(x, q[0]) {
      forall i, j | 0 <= i < j < |r|
        ensures Leq(r[i], r[j])
      {
        if i == 0 && j > 1 {
          LeqTransitive(x, q[0], q[j - 1]);
        }
      }
    } else {
      var tail := Insert(x, q[1..]);
      InsertSorted(x, q[1..]);
      LeqTotal(x, q[0]);
      forall j | 0 <= j < |tail|
        ensures Leq(q[0], tail[j])
      {
        assert tail[j] in multiset(tail);
        assert tail[j] == x || tail[j] in q[1..];
      }
    }
  }

  lemma {:induction false} SortSorted(q: seq<Name>)
    ensures Sorted(Sort(q))
  {
    if q != [] {
      SortSorted(q[1..]);
      InsertSorted(q[0], Sort(q[1..]));
    }
  }

  lemma SortPermutes(q: seq<Name>)
    ensures |Sort(q)| == |q|
    ensures forall x :: x in Sort(q) <==> x in q
  {
    assert |Sort(q)| == |multiset(Sort(q))| == |multiset(q)| == |q|;
    assert forall x :: x in Sort(q) <==> x in multiset(Sort(q));
    assert forall x :: x in q <==> x in multiset(q);
  }

  lemma TailMultiset<T>(p: seq<T>)
    requires p != []
    ensures multiset(p[1..]) == multiset(p) - multiset{p[0]}
  {
    assert p == [p[0]] + p[1..];
  }

  lemma HeadIsLeast(p: seq<Name>, x: Name)
    requires Sorted(p) && x in p
    ensures Leq(p[0], x)
  {
    LeqTotal(x, x);
  }

  lemma SameHead(p: seq<Name>, q: seq<Name>)
    requires Sorted(p) && Sorted(q) && multiset(p) == multiset(q) && p != [] && q != []
    ensures p[0] == q[0]
  {
    assert q[0] in multiset(p) && p[0] in multiset(q);
    HeadIsLeast(p, q[0]);
    HeadIsLeast(q, p[0]);
    LeqAntisymmetric(p[0], q[0]);
  }

  /** A sorted vector is determined by its elements and their multiplicities. */
  lemma {:induction false} SortedUnique(p: seq<Name>, q: seq<Name>)
    requires Sorted(p) && Sorted(q) && multiset(p) == multiset(q)
    ensures p == q
  {
    assert |p| == |multiset(p)| == |multiset(q)| == |q|;
    if p != [] {
      SameHead(p, q);
      TailMultiset(p);
      TailMultiset(q);
      SortedUnique(p[1..], q[1..]);
      assert p == [p[0]] + p[1..] && q == [q[0]] + q[1..];
    }
  }

  // ----- counting occurrences -----

  function Count(q: seq<Name>, x: Name): (n: nat) {
    if q == [] then 0 else Count(q[..|q| - 1], x) + if q[|q| - 1] == x then 1 else 0
  }

  lemma CountSnoc(q: seq<Name>, y: Name, x: Name)
    ensures Count(q + [y], x) == Count(q, x) + if y == x then 1 else 0
  {
    assert (q + [y])[..|q|] == q;
  }

  lemma {:induction false} CountConcat(p: seq<Name>, q: seq<Name>, x: Name)
    ensures Count(p + q, x) == Count(p, x) + Count(q, x)
    decreases |q|
  {
    if q == [] {
      assert p + q == p;
    } else {
      CountConcat(p, q[..|q| - 1], x);
      assert (p + q)[..|p + q| - 1] == p + q[..|q| - 1];
    }
  }

  lemma {:induction false} CountIsMultiplicity(q: seq<Name>, x: Name)
    ensures Count(q, x) == multiset(q)[x]
    ensures Count(q, x) > 0 <==> x in q
  {
    if q != [] {
      var q', y := q[..|q| - 1], q[|q| - 1];
      CountIsMultiplicity(q', x);
      assert q == q' + [y];
    }
  }

  /** Sorted vectors that contain every name equally often are equal. */
  lemma SortedByCount(p: seq<Name>, q: seq<Name>)
    requires Sorted(p) && Sorted(q) && forall x :: Count(p, x) == Count(q, x)
    ensures p == q
  {
    forall x
      ensures multiset(p)[x] == multiset(q)[x]
    {
      CountIsMultiplicity(p, x);
      CountIsMultiplicity(q, x);
      assert Count(p, x) == Count(q, x);
    }
    assert multiset(p) == multiset(q);
    SortedUnique(p, q);
  }

  lemma SortKeepsCount(q: seq<Name>, x: Name)
    ensures Count(Sort(q), x) == Count(q, x)
  {
    CountIsMultiplicity(q, x);
    CountIsMultiplicity(Sort(q), x);
  }

  /** A vector of k copies. */
  function Repeat(m: Name, k: nat): (r: seq<Name>)
    ensures |r| == k && forall x :: x in r ==> x == m
  {
    if k == 0 then [] else Repeat(m, k - 1) + [m]
  }

  lemma {:induction false} CountRepeat(m: Name, k: nat, x: Name)
    ensures Count(Repeat(m, k), x) == if x == m then k else 0
  {
    if k > 0 {
      CountRepeat(m, k - 1, x);
      CountSnoc(Repeat(m, k - 1), m, x);
    }
  }

  // ----- the keys of a hash map, sorted -----

  ghost predicate Least(x: Name, s: set<Name>) {
    x in s && forall y :: y in s ==> Leq(x, y)
  }

  lemma {:induction false} LeastExists(s: set<Name>)
    requires s != {}
    ensures exists x :: Least(x, s)
  {
    var x :| x in s;
    LeqTotal(x, x);
    if s - {x} == {} {
      forall y | y in s
        ensures y == x
      {
        assert y in s - {x} || y == x;
      }
      assert Least(x, s);
    } else {
      LeastExists(s - {x});
      var y :| Least(y, s - {x});
      LeqTotal(x, y);
      var z := if Leq(x, y) then x else y;
      forall w | w in s
        ensures Leq(z, w)
      {
        if w != x && z == x {
          LeqTransitive(x, y, w);
        }
      }
      assert Least(z, s);
    }
  }

  /** Putting the least element in front of the others, in order. */
  lemma LeastFirst(x: Name, s: set<Name>, q: seq<Name>)
    requires Least(x, s)
    requires Sorted(q) && Distinct(q) && Elements(q) == s - {x} && |q| == |s| - 1
    ensures Sorted([x] + q) && Distinct([x] + q) && Elements([x] + q) == s
  {
    var r := [x] + q;
    assert forall y :: y in q ==> y in Elements(q);
    assert forall y :: y in Elements(q) ==> y in q;
    forall i, j | 0 <= i < j < |r|
      ensures Leq(r[i], r[j]) && r[i] != r[j]
    {
      assert r[j] == q[j - 1] && q[j - 1] in q;
      assert q[j - 1] in s - {x};
      if i > 0 {
        assert r[i] == q[i - 1];
      }
    }
    assert forall y :: y in r <==> y == x || y in q;
  }

  /** The elements of a set in ascending order: what collecting the keys of a
      hash map into a vector and sorting it gives, whatever the map's order. */
  ghost function Ascending(s: set<Name>): (q: seq<Name>)
    ensures Sorted(q) && Distinct(q) && Elements(q) == s && |q| == |s|
    decreases |s|
  {
    if s == {} then
      []
    else
      LeastExists(s);
      var x :| Least(x, s);
      var q := Ascending(s - {x});
      LeastFirst(x, s, q);
      [x] + q
  }

  lemma {:induction false} DistinctMultiset<T>(q: seq<T>)
    requires Distinct(q)
    ensures multiset(q) == multiset(Elements(q))
  {
    if q != [] {
      assert q == [q[0]] + q[1..];
      DistinctMultiset(q[1..]);
      assert Elements(q) == {q[0]} + Elements(q[1..]);
      assert q[0] !in Elements(q[1..]);
    }
  }

  /** Sorting any enumeration of a set gives its ascending sequence. */
  lemma SortOfSet(q: seq<Name>)
    requires Distinct(q)
    ensures Sort(q) == Ascending(Elements(q))
  {
    SortSorted(q);
    DistinctMultiset(q);
    DistinctMultiset(Ascending(Elements(q)));
    SortedUnique(Sort(q), Ascending(Elements(q)));
  }

  /** Two names in order, each once. */
  lemma PairInOrder(q: seq<Name>, x: Name, y: Name)
    requires x != y && Leq(x, y) && Sorted(q) && Distinct(q)
    requires x in q && y in q && forall k :: 0 <= k < |q| ==> q[k] == x || q[k] == y
    ensures q == [x, y]
  {
    var i :| 0 <= i < |q| && q[i] == x;
    var j :| 0 <= j < |q| && q[j] == y;
    if j < i {
      LeqAntisymmetric(x, y);
    }
    assert q[0] == x && q[1] == y && q[|q| - 1] == y;
  }

  lemma AppendFresh<T>(q: seq<T>, x: T)
    requires Distinct(q) && x !in Elements(q)
    ensures Distinct(q + [x]) && Elements(q + [x]) == Elements(q) + {x}
  {
    assert forall y :: y in q ==> y in Elements(q);
  }

  /** Collect a set into a vector in an arbitrary order and sort it. */
  method CollectSorted(s: set<Name>) returns (q: seq<Name>)
    ensures q == Ascending(s)
  {
    var todo := s;
    q := [];
    while todo != {}
      invariant todo <= s && Distinct(q)
      invariant Elements(q) == s - todo
      decreases |todo|
    {
      var x :| x in todo;
      AppendFresh(q, x);
      q := q + [x];
      todo := todo - {x};
    }
    assert Elements(q) == s;
    SortOfSet(q);
    q := Sort(q);
  }
}
