/** Cardinalities of finite sets and sums over them. */
module Sets {

  lemma SubsetSize<T>(a: set<T>, b: set<T>)
    requires a <= b
    ensures |a| <= |b|
  {
    assert b == a + (b - a);
  }

  lemma TwoParts(a: set<int>, b: set<int>, all: set<int>)
    requires forall x :: x in all <==> x in a || x in b
    requires forall x :: x in a ==> x !in b
    ensures |all| == |a| + |b|
  {
    assert forall x :: x in all <==> x in a + b;
    assert all == a + b;
    assert forall x :: x in a * b ==> false;
    assert a * b == {};
  }

  lemma FourParts(a: set<int>, b: set<int>, c: set<int>, d: set<int>, all: set<int>)
    requires forall x :: x in all <==> x in a || x in b || x in c || x in d
    requires forall x :: x in a ==> x !in b && x !in c && x !in d
    requires forall x :: x in b ==> x !in c && x !in d
    requires forall x :: x in c ==> x !in d
    ensures |all| == |a| + |b| + |c| + |d|
  {
    TwoParts(a, b, a + b);
    TwoParts(c, d, c + d);
    TwoParts(a + b, c + d, all);
  }

  ghost predicate Injective(f: map<int, int>) {
    forall x, y :: x in f && y in f && f[x] == f[y] ==> x == y
  }

  /** The image of `s` under `f`. */
  ghost function Image(s: set<int>, f: map<int, int>): set<int>
    requires s <= f.Keys
  {
    set x | x in s :: f[x]
  }

  lemma {:induction false} ImageSize(s: set<int>, f: map<int, int>)
    requires s <= f.Keys && Injective(f)
    ensures |Image(s, f)| == |s|
  {
    if s != {} {
      var x := Member(s);
      ImageSize(s - {x}, f);
      assert Image(s, f) == Image(s - {x}, f) + {f[x]};
    }
  }

  ghost function Member<T>(s: set<T>): (x: T)
    requires s != {}
    ensures x in s
  {
    var x :| x in s; x
  }

  ghost function Total(s: set<int>, f: map<int, int>): int
    requires s <= f.Keys
  {
    if s == {} then 0 else var x := Member(s); f[x] + Total(s - {x}, f)
  }

  /** The sum does not depend on which element is taken first. */
  lemma {:induction false} TotalPick(s: set<int>, f: map<int, int>, x: int)
    requires s <= f.Keys && x in s
    ensures Total(s, f) == f[x] + Total(s - {x}, f)
    decreases |s|
  {
    var y := Member(s);
    if y != x {
      TotalPick(s - {y}, f, x);
      TotalPick(s - {x}, f, y);
      assert s - {y} - {x} == s - {x} - {y};
    }
  }

  lemma {:induction false} TotalAgree(s: set<int>, f: map<int, int>, g: map<int, int>)
    requires s <= f.Keys && s <= g.Keys
    requires forall x :: x in s ==> f[x] == g[x]
    ensures Total(s, f) == Total(s, g)
  {
    if s != {} {
      var x := Member(s);
      TotalPick(s, f, x);
      TotalPick(s, g, x);
      TotalAgree(s - {x}, f, g);
    }
  }

  lemma {:induction false} TotalAtMost(s: set<int>, f: map<int, int>, g: map<int, int>)
    requires s <= f.Keys && s <= g.Keys
    requires forall x :: x in s ==> f[x] <= g[x]
    ensures Total(s, f) <= Total(s, g)
    ensures Total(s, f) == Total(s, g) ==> forall x :: x in s ==> f[x] == g[x]
  {
    if s != {} {
      var x := Member(s);
      TotalPick(s, f, x);
      TotalPick(s, g, x);
      TotalAtMost(s - {x}, f, g);
      assert forall y :: y in s ==> y == x || y in s - {x};
    }
  }

  lemma TotalUpdate(s: set<int>, f: map<int, int>, x: int, v: int)
    requires s <= f.Keys && x in s
    ensures Total(s, f[x := v]) == Total(s, f) - f[x] + v
  {
    var g := f[x := v];
    TotalPick(s, f, x);
    TotalPick(s, g, x);
    TotalAgree(s - {x}, f, g);
  }

  lemma {:induction false} TotalZero(s: set<int>, f: map<int, int>)
    requires s <= f.Keys && forall x :: x in s ==> f[x] == 0
    ensures Total(s, f) == 0
  {
    if s != {} {
      var x := Member(s);
      TotalPick(s, f, x);
      TotalZero(s - {x}, f);
    }
  }

  /** Disjoint classes of a set, counted class by class, add up to the set. */
  lemma {:induction false} PartitionSize<V>(classes: set<int>, members: map<int, set<V>>, count: map<int, int>,
      all: set<V>)
    requires classes <= members.Keys && classes <= count.Keys
    requires forall k :: k in classes ==> count[k] == |members[k]|
    requires forall k, l :: k in classes && l in classes && k != l ==> members[k] !! members[l]
    requires forall v :: v in all <==> exists k :: k in classes && v in members[k]
    ensures Total(classes, count) == |all|
  {
    if classes == {} {
      assert all == {};
    } else {
      var k := Member(classes);
      TotalPick(classes, count, k);
      var rest := all - members[k];
      PartitionSize(classes - {k}, members, count, rest);
      assert all == members[k] + rest;
    }
  }

  /** A non-empty finite set of integers has a largest element. */
  lemma {:induction false} LargestExists(s: set<int>) returns (m: int)
    requires s != {}
    ensures m in s && forall x :: x in s ==> x <= m
  {
    var x := Member(s);
    m := x;
    if s - {x} != {} {
      var n := LargestExists(s - {x});
      if m < n { m := n; }
    }
    assert forall y :: y in s ==> y == x || y in s - {x};
  }
}
