/** When the order in which Go ranges over a statement's variables decides a later verdict.

    userVars.poison gives every variable up once 48 names are poisoned and another is reported,
    even one that is poisoned already. Go leaves open which comes last. */
module PoisonOrder {
  import opened SqlChecks
  import opened Statements

  predicate Distinct(q: seq<string>) {
    forall i, j :: 0 <= i < j < |q| ==> q[i] != q[j]
  }

  /** The names of `q` that the statement leaves unaccounted for. */
  function Loose(q: seq<string>, accounted: set<string>): set<string> {
    (set n | n in q) - accounted
  }

  lemma LooseCons(q: seq<string>, accounted: set<string>)
    requires q != []
    ensures Loose(q, accounted) == Loose(q[1..], accounted) + ({q[0]} - accounted)
    ensures Distinct(q) ==> Distinct(q[1..]) && q[0] !in Loose(q[1..], accounted)
  {
    forall n | n in q ensures n == q[0] || n in q[1..] {
      var i :| 0 <= i < |q| && q[i] == n;
      if i > 0 {
        assert q[1..][i - 1] == n;
      }
    }
  }

  lemma {:induction false} UntrustedStays(names: seq<string>, accounted: set<string>)
    ensures Poison(Untrusted, names, accounted) == Untrusted
    decreases |names|
  {
    if names != [] {
      UntrustedStays(names[1..], accounted);
    }
  }

  /** The cases in which the order does not matter, and what they give. */
  predicate Settled(p: set<string>, n: set<string>) {
    "" in n || n == {} || |p| >= MAX_TOKENS || |p + n| != MAX_TOKENS || n * p == {}
  }

  function Outcome(saved: map<string, string>, p: set<string>, n: set<string>): Vars {
    if n == {} then Tracked(saved, p)
    else if "" in n || |p| >= MAX_TOKENS || |p + n| > MAX_TOKENS then Untrusted
    else Tracked(saved, p + n)
  }

  lemma {:induction false} SettledOutcome(saved: map<string, string>, p: set<string>, q: seq<string>, accounted: set<string>)
    requires Distinct(q) && |p| <= MAX_TOKENS && Settled(p, Loose(q, accounted))
    ensures Poison(Tracked(saved, p), q, accounted) == Outcome(saved, p, Loose(q, accounted))
    decreases |q|
  {
    hide Distinct, Settled, Loose;
    if q == [] {
      NothingLoose(accounted);
    } else {
      LooseCons(q, accounted);
      hide Outcome;
      var n, m := Loose(q, accounted), Loose(q[1..], accounted);
      if q[0] in accounted {
        assert n == m;
        SettledOutcome(saved, p, q[1..], accounted);
      } else if q[0] == "" || |p| >= MAX_TOKENS {
        UntrustedOutcome(saved, p, n, q[0]);
        UntrustedStays(q[1..], accounted);
      } else {
        assert n == m + {q[0]};
        SettledStep(saved, p, q[0], m);
        SettledOutcome(saved, p + {q[0]}, q[1..], accounted);
      }
    }
  }

  lemma NothingLoose(accounted: set<string>)
    ensures Loose([], accounted) == {}
  {
  }

  lemma UntrustedOutcome(saved: map<string, string>, p: set<string>, n: set<string>, x: string)
    requires x in n && (x == "" || |p| >= MAX_TOKENS)
    ensures Outcome(saved, p, n) == Untrusted
  {
  }

  lemma SettledStep(saved: map<string, string>, p: set<string>, x: string, m: set<string>)
    requires |p| < MAX_TOKENS && x != "" && x !in m && Settled(p, m + {x})
    ensures |p + {x}| <= MAX_TOKENS && Settled(p + {x}, m)
    ensures Outcome(saved, p + {x}, m) == Outcome(saved, p, m + {x})
  {
    hide Settled, Outcome;
    Grows(p, x);
    if m == {} {
      LastStep(saved, p, x, m);
    } else {
      assert p + {x} + m == p + (m + {x});
      InnerStep(saved, p, p + {x}, x, m, m + {x});
    }
  }

  lemma LastStep(saved: map<string, string>, p: set<string>, x: string, m: set<string>)
    requires |p| < MAX_TOKENS && x != "" && m == {} && |p + {x}| <= MAX_TOKENS
    ensures Settled(p + {x}, m) && Outcome(saved, p + {x}, m) == Outcome(saved, p, m + {x})
  {
    assert m + {x} == {x};
  }

  lemma InnerStep(saved: map<string, string>, p: set<string>, px: set<string>, x: string, m: set<string>, n: set<string>)
    requires |p| < MAX_TOKENS && x != "" && x !in m && m != {} && px == p + {x} && n == m + {x} && px + m == p + n
    requires Settled(p, n)
    ensures Settled(px, m) && Outcome(saved, px, m) == Outcome(saved, p, n)
  {
    assert x in n;
    if |px| >= MAX_TOKENS {
      FullStaysFull(p, x, m);
    } else if |p + n| == MAX_TOKENS && "" !in m {
      StaysDisjoint(p, x, m);
    }
  }

  lemma StaysDisjoint(p: set<string>, x: string, m: set<string>)
    requires x !in m && (m + {x}) * p == {}
    ensures m * (p + {x}) == {}
  {
    forall y | y in m ensures y !in p {
      assert y in p ==> y in (m + {x}) * p;
    }
  }

  lemma Grows(p: set<string>, x: string)
    ensures |p + {x}| == if x in p then |p| else |p| + 1
  {
    if x in p {
      assert p + {x} == p;
    }
  }

  /** Once 48 names are poisoned, any other loose name either adds one or was there already. */
  lemma FullStaysFull(p: set<string>, x: string, m: set<string>)
    requires |p| < MAX_TOKENS && |p + {x}| >= MAX_TOKENS && x !in m && m != {}
    ensures |p + {x} + m| >= MAX_TOKENS
    ensures |p + {x} + m| == MAX_TOKENS ==> (m + {x}) * p != {}
  {
    var full := p + {x};
    Subset(full, full + m);
    if |full + m| == MAX_TOKENS {
      Grows(p, x);
      SameSize(full, full + m);
      var y :| y in m;
      assert y in full;
      assert y in (m + {x}) * p;
    }
  }

  lemma Subset(a: set<string>, b: set<string>)
    requires a <= b
    ensures |a| <= |b|
  {
    assert b == a + (b - a);
  }

  lemma SameSize(a: set<string>, b: set<string>)
    requires a <= b && |a| == |b|
    ensures a == b
  {
    assert b == a + (b - a);
    assert |b| == |a| + |b - a|;
  }

  // ------------------------------------------------- two orders that differ

  lemma {:induction false} SomeOrder(s: set<string>) returns (q: seq<string>)
    ensures Enumerates(q, s) && Distinct(q)
    decreases |s|
  {
    if s == {} {
      q := [];
    } else {
      var x :| x in s;
      var rest := SomeOrder(s - {x});
      q := rest + [x];
      forall y ensures y in s <==> y in q {
        assert y in q <==> y in rest || y == x;
      }
    }
  }

  lemma {:induction false} EnumerationIsDistinct(q: seq<string>, s: set<string>)
    requires Enumerates(q, s)
    ensures Distinct(q)
    decreases |q|
  {
    if q != [] {
      var last := q[|q| - 1];
      var front := q[..|q| - 1];
      assert q == front + [last];
      var t := set x | x in front;
      assert s == t + {last};
      Sizes(front);
      Grows(t, last);
      assert last !in front;
      assert Enumerates(front, t);
      EnumerationIsDistinct(front, t);
    }
  }

  lemma {:induction false} Sizes(q: seq<string>)
    ensures |set x | x in q| <= |q|
  {
    if q != [] {
      var front := q[..|q| - 1];
      assert q == front + [q[|q| - 1]];
      Sizes(front);
      var t := set x | x in front;
      assert (set x | x in q) == t + {q[|q| - 1]};
      Grows(t, q[|q| - 1]);
    }
  }

  lemma {:induction false} PoisonAppends(vars: Vars, a: seq<string>, b: seq<string>, accounted: set<string>)
    ensures Poison(vars, a + b, accounted) == Poison(Poison(vars, a, accounted), b, accounted)
    decreases |a|
  {
    if a == [] {
      assert a + b == b;
    } else {
      assert (a + b)[1..] == a[1..] + b;
      PoisonAppends(PoisonOne(vars, a[0], accounted), a[1..], b, accounted);
    }
  }

  lemma OldFit(saved: map<string, string>, p: set<string>, n: set<string>)
    requires |p| < MAX_TOKENS && "" !in n && n <= p
    ensures Settled(p, n) && Outcome(saved, p, n) == Tracked(saved, p)
  {
    assert p + n == p;
  }

  lemma NewFit(saved: map<string, string>, p: set<string>, n: set<string>)
    requires |p| < MAX_TOKENS && "" !in n && n * p == {} && |p + n| == MAX_TOKENS
    ensures Settled(p, n) && Outcome(saved, p, n) == Tracked(saved, p + n)
  {
    NothingAdds(p);
  }

  lemma NothingAdds(p: set<string>)
    ensures p + {} == p
  {
  }

  /** The names poisoned already come first: everything fits. */
  lemma OldFirst(saved: map<string, string>, p: set<string>, s: set<string>, accounted: set<string>) returns (a: seq<string>)
    requires |p| < MAX_TOKENS && !Settled(p, s - accounted)
    ensures Enumerates(a, s) && Poison(Tracked(saved, p), a, accounted) == Tracked(saved, p + (s - accounted))
  {
    hide Enumerates, Distinct, Loose, Poison, Outcome;
    var n := s - accounted;
    var added := n - p;
    var olds := SomeOrder(s - added);
    var news := SomeOrder(added);
    a := olds + news;
    Enumerated(olds, news, s, added);
    PoisonAppends(Tracked(saved, p), olds, news, accounted);
    LooseOf(olds, s - added, accounted);
    LooseOf(news, added, accounted);
    assert p + added == p + n;
    hide Settled;
    OldFit(saved, p, s - added - accounted);
    SettledOutcome(saved, p, olds, accounted);
    assert added - accounted == added;
    NewFit(saved, p, added);
    SettledOutcome(saved, p, news, accounted);
  }

  lemma LooseOf(q: seq<string>, s: set<string>, accounted: set<string>)
    requires Enumerates(q, s)
    ensures Loose(q, accounted) == s - accounted
  {
  }

  lemma Enumerated(a: seq<string>, b: seq<string>, s: set<string>, t: set<string>)
    requires t <= s && Enumerates(a, s - t) && Enumerates(b, t)
    ensures Enumerates(a + b, s)
  {
    assert s == (s - t) + t;
    forall x ensures x in s <==> x in a + b {
      assert x in a + b <==> x in a || x in b;
    }
  }

  /** One of them comes last: it is one too many. */
  lemma OldLast(saved: map<string, string>, p: set<string>, s: set<string>, accounted: set<string>) returns (b: seq<string>)
    requires |p| < MAX_TOKENS && !Settled(p, s - accounted)
    ensures Enumerates(b, s) && Poison(Tracked(saved, p), b, accounted) == Untrusted
  {
    var o :| o in (s - accounted) * p;
    var front := SomeOrder(s - {o});
    b := front + [o];
    Enumerated(front, [o], s, {o});
    hide Distinct, Enumerates;
    PoisonAppends(Tracked(saved, p), front, [o], accounted);
    LooseOf(front, s - {o}, accounted);
    assert p + Loose(front, accounted) == p + (s - accounted);
    LastIsTooMany(saved, p, front, o, accounted);
  }

  lemma OrdersDiffer(saved: map<string, string>, p: set<string>, s: set<string>, accounted: set<string>)
    requires |p| <= MAX_TOKENS && !Settled(p, s - accounted)
    ensures exists a, b :: Enumerates(a, s) && Enumerates(b, s) &&
              Poison(Tracked(saved, p), a, accounted) != Poison(Tracked(saved, p), b, accounted)
  {
    hide Enumerates, Poison;
    var a := OldFirst(saved, p, s, accounted);
    var b := OldLast(saved, p, s, accounted);
  }

  lemma LastIsTooMany(saved: map<string, string>, p: set<string>, front: seq<string>, o: string, accounted: set<string>)
    requires |p| < MAX_TOKENS && o in p && o !in accounted && |p + Loose(front, accounted)| == MAX_TOKENS
    ensures Poison(Poison(Tracked(saved, p), front, accounted), [o], accounted) == Untrusted
  {
    Collected(saved, p, front, accounted);
    var v := Poison(Tracked(saved, p), front, accounted);
    assert [o][1..] == [];
    assert Poison(PoisonOne(v, o, accounted), [], accounted) == PoisonOne(v, o, accounted);
  }

  lemma {:induction false} Collected(saved: map<string, string>, p: set<string>, q: seq<string>, accounted: set<string>)
    ensures var v := Poison(Tracked(saved, p), q, accounted);
            v.Untrusted? || v == Tracked(saved, p + Loose(q, accounted))
    decreases |q|
  {
    if q == [] {
      assert Loose(q, accounted) == {} && p + {} == p;
    } else {
      LooseCons(q, accounted);
      var v := PoisonOne(Tracked(saved, p), q[0], accounted);
      if v.Untrusted? {
        UntrustedStays(q[1..], accounted);
      } else {
        Collected(saved, v.poisoned, q[1..], accounted);
        assert v.poisoned + Loose(q[1..], accounted) == p + Loose(q, accounted);
      }
    }
  }

  /** Main result: the order decides nothing exactly when the names left over are settled. It does
      when they bring the poisoned names to 48 and at least one was poisoned before. */
  lemma OrderMatters(saved: map<string, string>, p: set<string>, s: set<string>, accounted: set<string>)
    requires |p| <= MAX_TOKENS
    ensures (forall a: seq<string>, b: seq<string> :: Enumerates(a, s) && Enumerates(b, s) ==>
               Poison(Tracked(saved, p), a, accounted) == Poison(Tracked(saved, p), b, accounted))
            <==> Settled(p, s - accounted)
  {
    if Settled(p, s - accounted) {
      forall a: seq<string> | Enumerates(a, s)
        ensures Poison(Tracked(saved, p), a, accounted) == Outcome(saved, p, s - accounted)
      {
        EnumerationIsDistinct(a, s);
        assert Loose(a, accounted) == s - accounted;
        SettledOutcome(saved, p, a, accounted);
      }
    } else {
      OrdersDiffer(saved, p, s, accounted);
    }
  }
}
