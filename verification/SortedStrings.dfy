/** Strings in byte order, and sorting them. */
module SortedStrings {

  predicate Le(a: string, b: string) {
    a == "" || (b != "" && (a[0] < b[0] || (a[0] == b[0] && Le(a[1..], b[1..]))))
  }

  lemma {:induction false} LeTotal(a: string, b: string)
    ensures Le(a, b) || Le(b, a)
    ensures Le(a, b) && Le(b, a) ==> a == b
  {
    if a != "" && b != "" {
      LeTotal(a[1..], b[1..]);
      assert a == [a[0]] + a[1..] && b == [b[0]] + b[1..];
    }
  }

  lemma {:induction false} LeTransitive(a: string, b: string, c: string)
    requires Le(a, b) && Le(b, c)
    ensures Le(a, c)
  {
    if a != "" && a[0] == b[0] == c[0] {
      LeTransitive(a[1..], b[1..], c[1..]);
    }
  }

  predicate IsSorted(q: seq<string>) {
    forall i, j :: 0 <= i < j < |q| ==> Le(q[i], q[j])
  }

  lemma FirstIsLeast(q: seq<string>, x: string)
    requires q != [] && IsSorted(q) && x in q
    ensures Le(q[0], x)
  {
    LeTotal(x, x);
  }

  lemma SameElements(a: seq<string>, b: seq<string>, x: string)
    requires multiset(a) == multiset(b) && x in a
    ensures x in b
  {
    assert x in multiset(a);
    assert x in multiset(b);
  }

  /** There is only one way to sort. */
  lemma {:induction false} SortedIsUnique(a: seq<string>, b: seq<string>)
    requires IsSorted(a) && IsSorted(b) && multiset(a) == multiset(b)
    ensures a == b
    decreases |a|
  {
    if a == [] {
      assert |multiset(b)| == |b|;
    } else {
      SameElements(a, b, a[0]);
      SameElements(b, a, b[0]);
      FirstIsLeast(a, b[0]);
      FirstIsLeast(b, a[0]);
      LeTotal(a[0], b[0]);
      Rest(a);
      Rest(b);
      SortedIsUnique(a[1..], b[1..]);
    }
  }

  lemma Rest(a: seq<string>)
    requires a != []
    ensures a == [a[0]] + a[1..] && multiset(a[1..]) == multiset(a) - multiset{a[0]}
  {
    assert a == [a[0]] + a[1..];
    assert multiset(a) == multiset{a[0]} + multiset(a[1..]);
  }

  /** Where `x` belongs in a sorted sequence. */
  function Place(q: seq<string>, x: string): (i: nat)
    ensures i <= |q|
  {
    if q == [] || Le(x, q[0]) then 0 else 1 + Place(q[1..], x)
  }

  lemma {:induction false} PlaceSplits(q: seq<string>, x: string)
    requires IsSorted(q)
    ensures forall k :: 0 <= k < Place(q, x) ==> Le(q[k], x)
    ensures forall k :: Place(q, x) <= k < |q| ==> Le(x, q[k])
  {
    if q == [] {
    } else if Le(x, q[0]) {
      forall k | 0 < k < |q| ensures Le(x, q[k]) {
        LeTransitive(x, q[0], q[k]);
      }
    } else {
      LeTotal(x, q[0]);
      PlaceSplits(q[1..], x);
      forall k | 0 < k < |q| ensures q[k] == q[1..][k - 1] {
      }
    }
  }

  function Inserted(q: seq<string>, x: string): seq<string> {
    q[..Place(q, x)] + [x] + q[Place(q, x)..]
  }

  lemma InsertedIsSorted(q: seq<string>, x: string)
    requires IsSorted(q)
    ensures IsSorted(Inserted(q, x)) && multiset(Inserted(q, x)) == multiset(q) + multiset{x}
  {
    PlaceSplits(q, x);
    hide Place, Le;
    var i := Place(q, x);
    SplitsIn(q, i);
    forall a, b | 0 <= a < b < |q| + 1 ensures Le(Inserted(q, x)[a], Inserted(q, x)[b]) {
      AtPlace(q, x, i, a);
      AtPlace(q, x, i, b);
    }
  }

  /** The elements after the insertion, by their place. */
  lemma AtPlace(q: seq<string>, x: string, i: nat, k: nat)
    requires i <= |q| && k <= |q|
    ensures (q[..i] + [x] + q[i..])[k] == if k < i then q[k] else if k == i then x else q[k - 1]
  {
  }

  lemma SplitsIn(q: seq<string>, i: nat)
    requires i <= |q|
    ensures multiset(q) == multiset(q[..i]) + multiset(q[i..])
  {
    assert q == q[..i] + q[i..];
  }

  /** The elements of `q` in order. */
  function Sorted(q: seq<string>): (r: seq<string>)
    ensures IsSorted(r) && multiset(r) == multiset(q)
  {
    if q == [] then []
    else
      var rest := Sorted(q[..|q| - 1]);
      InsertedIsSorted(rest, q[|q| - 1]);
      assert q == q[..|q| - 1] + [q[|q| - 1]];
      Inserted(rest, q[|q| - 1])
  }

  method Sort(q: seq<string>) returns (r: seq<string>)
    ensures r == Sorted(q)
  {
    r := [];
    for i := 0 to |q|
      invariant r == Sorted(q[..i])
    {
      assert q[..i + 1][..i] == q[..i];
      var at := Place(r, q[i]);
      r := r[..at] + [q[i]] + r[at..];
    }
    assert q[..|q|] == q;
  }

  lemma {:induction false} LeastExists(s: set<string>) returns (m: string)
    requires s != {}
    ensures m in s && forall k :: k in s ==> Le(m, k)
    decreases |s|
  {
    var x :| x in s;
    LeTotal(x, x);
    m := x;
    assert s == (s - {x}) + {x};
    if s - {x} != {} {
      var y := LeastExists(s - {x});
      LeTotal(x, y);
      if Le(x, y) {
        forall k | k in s - {x} ensures Le(x, k) {
          LeTransitive(x, y, k);
        }
      } else {
        m := y;
      }
    }
  }

  predicate IsLeast(s: set<string>, m: string) {
    m in s && forall k :: k in s ==> Le(m, k)
  }

  /** What comes before the least element of a set. */
  lemma LeastFirst(s: set<string>, m: string, rest: seq<string>)
    requires IsLeast(s, m) && IsSorted(rest) && multiset(rest) == multiset(s - {m})
    ensures IsSorted([m] + rest) && multiset([m] + rest) == multiset(s)
  {
    forall k | 0 <= k < |rest| ensures Le(m, rest[k]) {
      assert rest[k] in multiset(rest);
    }
    assert multiset(s) == multiset(s - {m}) + multiset{m};
  }

  /** The elements of a set in order. */
  ghost function SortedSet(s: set<string>): (q: seq<string>)
    ensures IsSorted(q) && multiset(q) == multiset(s)
    decreases |s|
  {
    if s == {} then []
    else
      assert exists m :: IsLeast(s, m) by {
        var m := LeastExists(s);
        assert IsLeast(s, m);
      }
      var m :| IsLeast(s, m);
      var rest := SortedSet(s - {m});
      LeastFirst(s, m, rest);
      [m] + rest
  }
}
