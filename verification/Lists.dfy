/** Generic list functions: mapping, summing, collecting and all-or-nothing traversal. */
module Lists {

  datatype Option<+T> = None | Some(value: T)

  function AsSeq<T>(o: Option<T>): seq<T> {
    match o
    case Some(x) => [x]
    case None => []
  }

  function Map<A, B>(f: A -> B, xs: seq<A>): (ys: seq<B>)
    ensures |ys| == |xs| && forall i | 0 <= i < |xs| :: ys[i] == f(xs[i])
  {
    if xs == [] then [] else [f(xs[0])] + Map(f, xs[1..])
  }

  function Sum<A>(f: A -> int, xs: seq<A>): int {
    if xs == [] then 0 else f(xs[0]) + Sum(f, xs[1..])
  }

  function Collect<A, B>(f: A -> Option<B>, xs: seq<A>): seq<B> {
    if xs == [] then [] else AsSeq(f(xs[0])) + Collect(f, xs[1..])
  }

  /** Every element converted, or nothing if one of them does not convert. */
  function Traverse<A, B>(f: A -> Option<B>, xs: seq<A>): (r: Option<seq<B>>)
    ensures r.Some? ==> |r.value| == |xs| && forall i | 0 <= i < |xs| :: f(xs[i]) == Some(r.value[i])
    ensures r.None? ==> exists i | 0 <= i < |xs| :: f(xs[i]).None?
  {
    if xs == [] then Some([])
    else
      match (f(xs[0]), Traverse(f, xs[1..]))
      case (Some(y), Some(ys)) => Some([y] + ys)
      case _ => None
  }

  function Flatten<T>(ss: seq<seq<T>>): seq<T> {
    if ss == [] then [] else ss[0] + Flatten(ss[1..])
  }

  lemma {:induction false} SumAppend<A>(f: A -> int, a: seq<A>, b: seq<A>)
    ensures Sum(f, a + b) == Sum(f, a) + Sum(f, b)
  {
    if a == [] {
      assert a + b == b;
    } else {
      SumAppend(f, a[1..], b);
      assert (a + b)[1..] == a[1..] + b;
    }
  }

  lemma SumSnoc<A>(f: A -> int, a: seq<A>, x: A)
    ensures Sum(f, a + [x]) == Sum(f, a) + f(x)
  {
    SumAppend(f, a, [x]);
    assert Sum(f, [x]) == f(x) + Sum(f, []);
  }

  lemma Associates<T>(a: seq<T>, b: seq<T>, c: seq<T>)
    ensures a + (b + c) == a + b + c
  {}

  lemma {:induction false} CollectAppend<A, B>(f: A -> Option<B>, a: seq<A>, b: seq<A>)
    ensures Collect(f, a + b) == Collect(f, a) + Collect(f, b)
  {
    if a == [] {
      assert a + b == b;
    } else {
      assert (a + b)[1..] == a[1..] + b;
      assert Collect(f, a + b) == AsSeq(f(a[0])) + Collect(f, a[1..] + b);
      CollectAppend(f, a[1..], b);
      Associates(AsSeq(f(a[0])), Collect(f, a[1..]), Collect(f, b));
    }
  }

  lemma CollectSnoc<A, B>(f: A -> Option<B>, a: seq<A>, x: A)
    ensures Collect(f, a + [x]) == Collect(f, a) + AsSeq(f(x))
  {
    CollectAppend(f, a, [x]);
    assert Collect(f, [x]) == AsSeq(f(x)) + Collect(f, []);
  }

  lemma {:induction false} CollectMember<A, B>(f: A -> Option<B>, xs: seq<A>, y: B)
    ensures y in Collect(f, xs) <==> exists i | 0 <= i < |xs| :: f(xs[i]) == Some(y)
  {
    if xs != [] {
      CollectMember(f, xs[1..], y);
      assert forall i | 0 <= i < |xs| - 1 :: xs[1..][i] == xs[i + 1];
      if i: nat :| i < |xs| && f(xs[i]) == Some(y) {
        assert i == 0 || xs[i] == xs[1..][i - 1];
      }
    }
  }

  lemma {:induction false} CollectMap<A, B, C>(f: A -> B, g: B -> Option<C>, h: A -> Option<C>, xs: seq<A>)
    requires forall i | 0 <= i < |xs| :: g(f(xs[i])) == h(xs[i])
    ensures Collect(g, Map(f, xs)) == Collect(h, xs)
  {
    if xs != [] {
      CollectMap(f, g, h, xs[1..]);
    }
  }

  lemma {:induction false} SumMap<A, B>(f: A -> B, g: B -> int, h: A -> int, xs: seq<A>)
    requires forall i | 0 <= i < |xs| :: g(f(xs[i])) == h(xs[i])
    ensures Sum(g, Map(f, xs)) == Sum(h, xs)
  {
    if xs != [] {
      SumMap(f, g, h, xs[1..]);
    }
  }

  lemma {:induction false} TraverseMap<A, B, C>(f: A -> B, g: B -> Option<C>, h: A -> Option<C>, xs: seq<A>)
    requires forall i | 0 <= i < |xs| :: g(f(xs[i])) == h(xs[i])
    ensures Traverse(g, Map(f, xs)) == Traverse(h, xs)
  {
    if xs != [] {
      TraverseMap(f, g, h, xs[1..]);
    }
  }

  lemma {:induction false} TraverseCollects<A, B>(f: A -> Option<B>, xs: seq<A>)
    ensures Traverse(f, xs) ==
            if forall i | 0 <= i < |xs| :: f(xs[i]).Some? then Some(Collect(f, xs)) else None
  {
    if xs != [] {
      TraverseCollects(f, xs[1..]);
      assert forall i | 0 <= i < |xs| - 1 :: xs[1..][i] == xs[i + 1];
      assert forall i | 1 <= i < |xs| :: xs[i] == xs[1..][i - 1];
    }
  }

  lemma {:induction false} SumCollect<A, B>(f: A -> Option<B>, g: B -> int, h: A -> int, xs: seq<A>)
    requires forall i | 0 <= i < |xs| :: h(xs[i]) == match f(xs[i]) case Some(y) => g(y) case None => 0
    ensures Sum(g, Collect(f, xs)) == Sum(h, xs)
  {
    if xs != [] {
      SumCollect(f, g, h, xs[1..]);
      match f(xs[0]) {
        case None => assert Collect(f, xs) == Collect(f, xs[1..]);
        case Some(y) => assert Collect(f, xs)[1..] == Collect(f, xs[1..]);
      }
    }
  }

  lemma {:induction false} FlattenMember<T>(ss: seq<seq<T>>, x: T)
    ensures x in Flatten(ss) <==> exists i | 0 <= i < |ss| :: x in ss[i]
  {
    if ss != [] {
      FlattenMember(ss[1..], x);
      assert forall i | 1 <= i < |ss| :: ss[i] == ss[1..][i - 1];
    }
  }

  lemma {:induction false} SumFlatten<A, B>(f: B -> int, g: A -> seq<B>, h: A -> int, xs: seq<A>)
    requires forall x :: h(x) == Sum(f, g(x))
    ensures Sum(f, Flatten(Map(g, xs))) == Sum(h, xs)
  {
    if xs != [] {
      SumFlatten(f, g, h, xs[1..]);
      SumAppend(f, g(xs[0]), Flatten(Map(g, xs[1..])));
    }
  }

  /** The concatenation of the lists that the elements give, or nothing if one of them gives none. */
  function Gather<A, B>(f: A -> Option<seq<B>>, xs: seq<A>): (r: Option<seq<B>>)
    ensures r.Some? <==> forall i | 0 <= i < |xs| :: f(xs[i]).Some?
  {
    if xs == [] then Some([])
    else
      var rest := Gather(f, xs[..|xs| - 1]);
      match (rest, f(xs[|xs| - 1]))
      case (Some(ys), Some(zs)) => Some(ys + zs)
      case _ => None
  }

  lemma {:induction false} GatherMember<A, B>(f: A -> Option<seq<B>>, xs: seq<A>, y: B)
    requires Gather(f, xs).Some?
    ensures y in Gather(f, xs).value <==> exists i | 0 <= i < |xs| :: y in f(xs[i]).value
  {
    if xs != [] {
      var init := xs[..|xs| - 1];
      GatherMember(f, init, y);
      assert forall i | 0 <= i < |init| :: init[i] == xs[i];
    }
  }

  // ----- Sums do not depend on order -----

  lemma SumSplit<A>(f: A -> int, xs: seq<A>, j: nat)
    requires j < |xs|
    ensures Sum(f, xs) == Sum(f, xs[..j] + xs[j + 1..]) + f(xs[j])
  {
    SumAppend(f, xs[..j], xs[j..]);
    SumAppend(f, xs[..j], xs[j + 1..]);
    assert xs == xs[..j] + xs[j..];
    assert xs[j..][1..] == xs[j + 1..];
  }

  lemma {:induction false} SumPermuted<A>(f: A -> int, a: seq<A>, b: seq<A>)
    requires multiset(a) == multiset(b)
    ensures Sum(f, a) == Sum(f, b)
  {
    if a == [] {
      assert |b| == |multiset(b)| == 0;
    } else {
      var j := HeadIn(a, b);
      SumPermuted(f, a[1..], b[..j] + b[j + 1..]);
      SumSplit(f, b, j);
    }
  }

  lemma {:induction false} SumNonNegative<A>(f: A -> int, xs: seq<A>)
    requires forall i | 0 <= i < |xs| :: f(xs[i]) >= 0
    ensures Sum(f, xs) >= 0
    ensures forall i | 0 <= i < |xs| :: f(xs[i]) <= Sum(f, xs)
  {
    if xs != [] {
      SumNonNegative(f, xs[1..]);
      assert forall i | 1 <= i < |xs| :: xs[i] == xs[1..][i - 1];
    }
  }

  lemma {:induction false} SumPositive<A>(f: A -> int, xs: seq<A>)
    requires forall i | 0 <= i < |xs| :: f(xs[i]) >= 0
    requires Sum(f, xs) > 0
    ensures exists i | 0 <= i < |xs| :: f(xs[i]) > 0
  {
    if f(xs[0]) <= 0 {
      SumPositive(f, xs[1..]);
      var i :| 0 <= i < |xs| - 1 && f(xs[1..][i]) > 0;
      assert f(xs[i + 1]) > 0;
    }
  }

  lemma MapAppend<A, B>(f: A -> B, a: seq<A>, b: seq<A>)
    ensures Map(f, a + b) == Map(f, a) + Map(f, b)
  {}

  lemma MapSplit<A, B>(f: A -> B, a: seq<A>, x: A, b: seq<A>)
    ensures multiset(Map(f, a + [x] + b)) == multiset(Map(f, a + b)) + multiset{f(x)}
  {
    MapAppend(f, a + [x], b);
    MapAppend(f, a, [x]);
    MapAppend(f, a, b);
    MapOne(f, x);
    Middle(Map(f, a), [f(x)], Map(f, b));
  }

  lemma MapOne<A, B>(f: A -> B, x: A)
    ensures Map(f, [x]) == [f(x)]
  {}

  lemma Middle<A>(a: seq<A>, x: seq<A>, b: seq<A>)
    ensures multiset(a + x + b) == multiset(a + b) + multiset(x)
  {}

  /** Where the head of one list is in a reordered one, and that the rests are reordered. */
  lemma HeadIn<A>(a: seq<A>, b: seq<A>) returns (j: nat)
    requires a != [] && multiset(a) == multiset(b)
    ensures j < |b| && b[j] == a[0] && multiset(a[1..]) == multiset(b[..j] + b[j + 1..])
  {
    assert a[0] in multiset(b);
    j :| j < |b| && b[j] == a[0];
    assert a == [a[0]] + a[1..];
    assert b == b[..j] + [b[j]] + b[j + 1..];
    assert multiset(a[1..]) == multiset(a) - multiset{a[0]};
  }

  lemma MapSplitAt<A, B>(f: A -> B, xs: seq<A>, j: nat)
    requires j < |xs|
    ensures multiset(Map(f, xs)) == multiset(Map(f, xs[..j] + xs[j + 1..])) + multiset{f(xs[j])}
  {
    Rejoin(xs, j);
    MapSplit(f, xs[..j], xs[j], xs[j + 1..]);
  }

  lemma Rejoin<A>(xs: seq<A>, j: nat)
    requires j < |xs|
    ensures xs[..j] + [xs[j]] + xs[j + 1..] == xs
  {}

  lemma MapHead<A, B>(f: A -> B, xs: seq<A>)
    requires xs != []
    ensures multiset(Map(f, xs)) == multiset(Map(f, xs[1..])) + multiset{f(xs[0])}
  {
    NothingBefore(xs);
    MapSplit(f, [], xs[0], xs[1..]);
  }

  lemma NothingBefore<A>(xs: seq<A>)
    requires xs != []
    ensures [] + [xs[0]] + xs[1..] == xs && [] + xs[1..] == xs[1..]
  {}

  /** Converting a list commutes with reordering it. */
  lemma {:induction false} MapPermuted<A, B>(f: A -> B, a: seq<A>, b: seq<A>)
    requires multiset(a) == multiset(b)
    ensures multiset(Map(f, a)) == multiset(Map(f, b))
  {
    if a == [] {
      assert |b| == |multiset(b)| == 0;
    } else {
      var j := HeadIn(a, b);
      MapPermuted(f, a[1..], b[..j] + b[j + 1..]);
      MapHead(f, a);
      MapSplitAt(f, b, j);
    }
  }

  // ----- More about sums -----

  function Filter<A>(keep: A -> bool, xs: seq<A>): seq<A> {
    if xs == [] then []
    else
      var init := Filter(keep, xs[..|xs| - 1]);
      if keep(xs[|xs| - 1]) then init + [xs[|xs| - 1]] else init
  }

  lemma FilterSnoc<A>(keep: A -> bool, xs: seq<A>, i: nat)
    requires i < |xs|
    ensures Filter(keep, xs[..i + 1]) ==
            if keep(xs[i]) then Filter(keep, xs[..i]) + [xs[i]] else Filter(keep, xs[..i])
  {
    assert xs[..i + 1][..i] == xs[..i];
  }

  lemma FilterGrows<A>(keep: A -> bool, xs: seq<A>, i: nat)
    requires i < |xs|
    ensures Filter(keep, xs[..i + 1]) == Filter(keep, xs[..i]) + if keep(xs[i]) then [xs[i]] else []
  {
    FilterSnoc(keep, xs, i);
  }

  lemma CollectGrows<A, B>(f: A -> Option<B>, xs: seq<A>, i: nat)
    requires i < |xs|
    ensures Collect(f, xs[..i + 1]) == Collect(f, xs[..i]) + AsSeq(f(xs[i]))
  {
    CollectSnoc(f, xs[..i], xs[i]);
    assert xs[..i + 1] == xs[..i] + [xs[i]];
  }

  lemma {:induction false} FilterMember<A>(keep: A -> bool, xs: seq<A>, x: A)
    ensures x in Filter(keep, xs) <==> x in xs && keep(x)
  {
    if xs != [] {
      FilterMember(keep, xs[..|xs| - 1], x);
      assert xs == xs[..|xs| - 1] + [xs[|xs| - 1]];
    }
  }

  /** Elements that add nothing to a sum can be filtered out. */
  lemma {:induction false} SumFilter<A>(f: A -> int, keep: A -> bool, xs: seq<A>)
    requires forall i | 0 <= i < |xs| && !keep(xs[i]) :: f(xs[i]) == 0
    ensures Sum(f, Filter(keep, xs)) == Sum(f, xs)
  {
    if xs != [] {
      var n := |xs| - 1;
      SumFilter(f, keep, xs[..n]);
      SumSnoc(f, xs[..n], xs[n]);
      SumSnoc(f, Filter(keep, xs[..n]), xs[n]);
      assert xs == xs[..n] + [xs[n]];
    }
  }

  lemma {:induction false} SumLength<A>(f: A -> int, keep: A -> bool, xs: seq<A>)
    requires forall i | 0 <= i < |xs| :: f(xs[i]) == if keep(xs[i]) then 1 else 0
    ensures Sum(f, xs) == |Filter(keep, xs)|
  {
    if xs != [] {
      var n := |xs| - 1;
      SumLength(f, keep, xs[..n]);
      SumSnoc(f, xs[..n], xs[n]);
      assert xs == xs[..n] + [xs[n]];
    }
  }

  lemma {:induction false} SumSame<A>(f: A -> int, g: A -> int, xs: seq<A>)
    requires forall i | 0 <= i < |xs| :: f(xs[i]) == g(xs[i])
    ensures Sum(f, xs) == Sum(g, xs)
  {
    if xs != [] {
      SumSame(f, g, xs[1..]);
    }
  }

  lemma {:induction false} SumAtMost<A>(f: A -> int, g: A -> int, xs: seq<A>)
    requires forall i | 0 <= i < |xs| :: f(xs[i]) <= g(xs[i])
    ensures Sum(f, xs) <= Sum(g, xs)
  {
    if xs != [] {
      SumAtMost(f, g, xs[1..]);
    }
  }

  lemma {:induction false} SumCombine<A>(f: A -> int, g: A -> int, h: A -> int, xs: seq<A>)
    requires forall i | 0 <= i < |xs| :: h(xs[i]) == f(xs[i]) + g(xs[i])
    ensures Sum(h, xs) == Sum(f, xs) + Sum(g, xs)
  {
    if xs != [] {
      SumCombine(f, g, h, xs[1..]);
    }
  }

  lemma {:induction false} FilterSame<A>(keep: A -> bool, other: A -> bool, xs: seq<A>)
    requires forall i | 0 <= i < |xs| :: keep(xs[i]) == other(xs[i])
    ensures Filter(keep, xs) == Filter(other, xs)
  {
    if xs != [] {
      FilterSame(keep, other, xs[..|xs| - 1]);
    }
  }

  lemma {:induction false} SumAligned<A>(f: A -> int, xs: seq<A>, ys: seq<A>)
    requires |xs| == |ys| && forall i | 0 <= i < |xs| :: f(xs[i]) == f(ys[i])
    ensures Sum(f, xs) == Sum(f, ys)
  {
    if xs != [] {
      SumAligned(f, xs[1..], ys[1..]);
    }
  }

  function Plus<A>(f: A -> int, g: A -> int): A -> int {
    x => f(x) + g(x)
  }

  lemma SumPlus<A>(f: A -> int, g: A -> int, xs: seq<A>)
    ensures Sum(Plus(f, g), xs) == Sum(f, xs) + Sum(g, xs)
  {
    SumCombine(f, g, Plus(f, g), xs);
  }

  lemma {:induction false} SumOnes<A>(f: A -> int, xs: seq<A>)
    requires forall i | 0 <= i < |xs| :: f(xs[i]) == 1
    ensures Sum(f, xs) == |xs|
  {
    if xs != [] {
      SumOnes(f, xs[1..]);
    }
  }

  lemma {:induction false} SumFilterAtMost<A>(f: A -> int, keep: A -> bool, xs: seq<A>)
    requires forall i | 0 <= i < |xs| :: f(xs[i]) >= 0
    ensures Sum(f, Filter(keep, xs)) <= Sum(f, xs)
  {
    if xs != [] {
      var n := |xs| - 1;
      SumFilterAtMost(f, keep, xs[..n]);
      SumSnoc(f, xs[..n], xs[n]);
      SumSnoc(f, Filter(keep, xs[..n]), xs[n]);
      assert xs == xs[..n] + [xs[n]];
    }
  }

  lemma {:induction false} SumZero<A>(f: A -> int, xs: seq<A>)
    requires forall i | 0 <= i < |xs| :: f(xs[i]) == 0
    ensures Sum(f, xs) == 0
  {
    if xs != [] {
      SumZero(f, xs[1..]);
    }
  }

  /** One element that counts once, among others that do not count. */
  lemma SumSingle<A>(f: A -> int, xs: seq<A>, j: nat)
    requires j < |xs|
    requires forall i | 0 <= i < |xs| && i != j :: f(xs[i]) == 0
    ensures Sum(f, xs) == f(xs[j])
  {
    SumSplit(f, xs, j);
    SumZero(f, xs[..j] + xs[j + 1..]);
  }

  /** Replacing one element changes a sum by the difference. */
  lemma SumReplace<A>(f: A -> int, xs: seq<A>, j: nat, x: A)
    requires j < |xs|
    ensures Sum(f, xs[j := x]) == Sum(f, xs) - f(xs[j]) + f(x)
  {
    SumSplit(f, xs, j);
    SumSplit(f, xs[j := x], j);
    assert xs[j := x][..j] + xs[j := x][j + 1..] == xs[..j] + xs[j + 1..];
  }

  function Fix<A, B>(g: (A, B) -> int, a: A): B -> int {
    b => g(a, b)
  }

  function Flip<A, B>(g: (A, B) -> int): (B, A) -> int {
    (b, a) => g(a, b)
  }

  function RowSum<A, B>(g: (A, B) -> int, bs: seq<B>): A -> int {
    a => Sum(Fix(g, a), bs)
  }

  /** Double counting: a table summed by rows or by columns. */
  lemma {:induction false} SumSwap<A, B>(g: (A, B) -> int, xs: seq<A>, ys: seq<B>)
    ensures Sum(RowSum(g, ys), xs) == Sum(RowSum(Flip(g), xs), ys)
  {
    if xs == [] {
      SumZero(RowSum(Flip(g), xs), ys);
    } else {
      SumSwap(g, xs[1..], ys);
      SumCombine(Fix(g, xs[0]), RowSum(Flip(g), xs[1..]), RowSum(Flip(g), xs), ys);
    }
  }

  lemma SumMapOnes<A, B>(f: A -> B, g: B -> int, xs: seq<A>)
    requires forall i | 0 <= i < |xs| :: g(f(xs[i])) == 1
    ensures Sum(g, Map(f, xs)) == |xs|
  {
    SumOnes(g, Map(f, xs));
  }

  /** The first element that passes. */
  function First<A>(keep: A -> bool, xs: seq<A>): (r: Option<A>)
    ensures r.Some? ==> r.value in xs && keep(r.value)
    ensures r.None? <==> forall i | 0 <= i < |xs| :: !keep(xs[i])
  {
    if xs == [] then None else if keep(xs[0]) then Some(xs[0]) else First(keep, xs[1..])
  }

  lemma SumCollectLength<A, B>(f: A -> Option<B>, one: A -> int, xs: seq<A>)
    requires forall i | 0 <= i < |xs| :: one(xs[i]) == if f(xs[i]).Some? then 1 else 0
    ensures Sum(one, xs) == |Collect(f, xs)|
  {
    var unit := (y: B) => 1;
    SumCollect(f, unit, one, xs);
    SumOnes(unit, Collect(f, xs));
  }

  lemma {:induction false} EmptyCollect<A, B>(f: A -> Option<B>, xs: seq<A>)
    ensures Collect(f, xs) == [] <==> forall i | 0 <= i < |xs| :: f(xs[i]).None?
  {
    if xs != [] {
      EmptyCollect(f, xs[1..]);
      assert forall i | 1 <= i < |xs| :: xs[i] == xs[1..][i - 1];
    }
  }

  lemma EmptyFilter<A>(keep: A -> bool, xs: seq<A>)
    ensures Filter(keep, xs) == [] <==> forall i | 0 <= i < |xs| :: !keep(xs[i])
  {
    if Filter(keep, xs) != [] {
      FilterMember(keep, xs, Filter(keep, xs)[0]);
    } else {
      forall i | 0 <= i < |xs| ensures !keep(xs[i]) {
        FilterMember(keep, xs, xs[i]);
      }
    }
  }

  /** A member of a filtered and converted list comes from a passing element. */
  lemma MapFilterMember<A, B>(f: A -> B, keep: A -> bool, xs: seq<A>, y: B)
    ensures y in Map(f, Filter(keep, xs)) <==> exists x | x in xs :: keep(x) && f(x) == y
  {
    var kept := Filter(keep, xs);
    if y in Map(f, kept) {
      var i :| 0 <= i < |kept| && f(kept[i]) == y;
      FilterMember(keep, xs, kept[i]);
    }
    if x :| x in xs && keep(x) && f(x) == y {
      FilterMember(keep, xs, x);
      var i :| 0 <= i < |kept| && kept[i] == x;
      assert Map(f, kept)[i] == y;
    }
  }

  ghost predicate NoRepeats<A>(xs: seq<A>) {
    forall i, j | 0 <= i < |xs| && 0 <= j < |xs| && xs[i] == xs[j] :: i == j
  }

  /** Without repeats, one value is counted at most once. */
  lemma SumOnce<A>(f: A -> int, xs: seq<A>, a: A)
    requires NoRepeats(xs)
    requires forall i | 0 <= i < |xs| :: f(xs[i]) == 0 || (xs[i] == a && f(xs[i]) <= 1)
    ensures Sum(f, xs) <= 1
  {
    if j: nat :| j < |xs| && xs[j] == a {
      SumSingle(f, xs, j);
    } else {
      SumZero(f, xs);
    }
  }

  lemma NoRepeatsSnoc<A>(xs: seq<A>, x: A)
    requires NoRepeats(xs) && x !in xs
    ensures NoRepeats(xs + [x])
  {}

  /** The concatenation of the lists that the elements give. */
  function FlatMap<A, B>(f: A -> seq<B>, xs: seq<A>): seq<B> {
    if xs == [] then [] else FlatMap(f, xs[..|xs| - 1]) + f(xs[|xs| - 1])
  }

  lemma FlatMapNext<A, B>(f: A -> seq<B>, xs: seq<A>, i: nat)
    requires i < |xs|
    ensures FlatMap(f, xs[..i + 1]) == FlatMap(f, xs[..i]) + f(xs[i])
  {
    assert xs[..i + 1][..i] == xs[..i];
  }

  lemma {:induction false} FlatMapMember<A(!new), B>(f: A -> seq<B>, xs: seq<A>, y: B)
    ensures y in FlatMap(f, xs) <==> exists x <- xs :: y in f(x)
  {
    if xs != [] {
      var n := |xs| - 1;
      FlatMapMember(f, xs[..n], y);
      assert xs == xs[..n] + [xs[n]];
      assert forall x :: x in xs <==> x in xs[..n] || x == xs[n];
    }
  }

  lemma {:induction false} FlatMapHas<A, B>(f: A -> seq<B>, xs: seq<A>, i: nat, y: B)
    requires i < |xs| && y in f(xs[i])
    ensures y in FlatMap(f, xs)
  {
    var n := |xs| - 1;
    if i < n {
      FlatMapHas(f, xs[..n], i, y);
    }
  }

  // ----- Sets -----

  function ToSet<T>(xs: seq<T>): set<T> {
    set x <- xs
  }

  lemma SubsetSize<T>(a: set<T>, b: set<T>)
    requires a <= b
    ensures |a| <= |b|
  {
    assert b == a + (b - a);
  }

  // ----- Sorting -----

  ghost predicate IsOrder<A(!new)>(le: (A, A) -> bool) {
    (forall a, b :: le(a, b) || le(b, a)) && forall a, b, c :: le(a, b) && le(b, c) ==> le(a, c)
  }

  ghost predicate InOrder<A>(le: (A, A) -> bool, xs: seq<A>) {
    forall i, j | 0 <= i < j < |xs| :: le(xs[i], xs[j])
  }

  function Insert<A>(le: (A, A) -> bool, x: A, sorted: seq<A>): seq<A> {
    if sorted == [] then [x]
    else if le(x, sorted[0]) then [x] + sorted
    else [sorted[0]] + Insert(le, x, sorted[1..])
  }

  lemma {:induction false} InsertAdds<A>(le: (A, A) -> bool, x: A, sorted: seq<A>)
    ensures multiset(Insert(le, x, sorted)) == multiset(sorted) + multiset{x}
  {
    if sorted != [] && !le(x, sorted[0]) {
      InsertAdds(le, x, sorted[1..]);
      assert sorted == [sorted[0]] + sorted[1..];
    }
  }

  lemma {:induction false} InsertSorts<A(!new)>(le: (A, A) -> bool, x: A, sorted: seq<A>)
    requires IsOrder(le) && InOrder(le, sorted)
    ensures InOrder(le, Insert(le, x, sorted))
    ensures forall k | 0 <= k < |Insert(le, x, sorted)| ::
              Insert(le, x, sorted)[k] == x || Insert(le, x, sorted)[k] in sorted
  {
    if sorted != [] && !le(x, sorted[0]) {
      InsertSorts(le, x, sorted[1..]);
    }
  }

  /** The library sort, which may order equal elements in any way. */
  function Sort<A>(le: (A, A) -> bool, xs: seq<A>): seq<A> {
    if xs == [] then [] else Insert(le, xs[0], Sort(le, xs[1..]))
  }

  lemma {:induction false} SortPermutes<A>(le: (A, A) -> bool, xs: seq<A>)
    ensures multiset(Sort(le, xs)) == multiset(xs)
  {
    if xs != [] {
      SortPermutes(le, xs[1..]);
      InsertAdds(le, xs[0], Sort(le, xs[1..]));
      assert xs == [xs[0]] + xs[1..];
    }
  }

  lemma {:induction false} SortOrders<A(!new)>(le: (A, A) -> bool, xs: seq<A>)
    requires IsOrder(le)
    ensures InOrder(le, Sort(le, xs))
  {
    if xs != [] {
      SortOrders(le, xs[1..]);
      InsertSorts(le, xs[0], Sort(le, xs[1..]));
    }
  }

  lemma SortSorts<A(!new)>(le: (A, A) -> bool, xs: seq<A>)
    requires IsOrder(le)
    ensures InOrder(le, Sort(le, xs)) && multiset(Sort(le, xs)) == multiset(xs) && |Sort(le, xs)| == |xs|
  {
    SortOrders(le, xs);
    SortPermutes(le, xs);
    assert |multiset(Sort(le, xs))| == |multiset(xs)|;
  }

  // ----- Along a run -----

  ghost predicate PassesOn(p: nat -> bool, k: nat) {
    p(k) ==> p(k + 1)
  }

  /** What one step after the other passes on holds all along. */
  lemma {:induction false} Along(p: nat -> bool, i: nat, j: nat)
    requires i <= j && p(i) && forall k: nat | i <= k < j :: PassesOn(p, k)
    ensures p(j)
    decreases j
  {
    if i < j {
      Along(p, i, j - 1);
      assert PassesOn(p, j - 1);
    }
  }
}
