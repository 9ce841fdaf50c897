/** Counting over a view whose ids are distinct: ids, replica shortages and replica totals. */
module TopologyCounting {
  import opened Lists
  import opened ReplicaTopology

  function HasId(id: string): Entry -> int {
    (e: Entry) => if e.id == id then 1 else 0
  }

  ghost predicate Distinct(view: seq<Entry>) {
    forall id {:trigger Sum(HasId(id), view)} :: Sum(HasId(id), view) <= 1
  }

  lemma DistinctAt(view: seq<Entry>, i: nat, j: nat)
    requires Distinct(view) && i < |view| && j < |view| && view[i].id == view[j].id
    ensures i == j
  {
    if i != j {
      var f, at := HasId(view[i].id), if j < i then j else j - 1;
      SumSplit(f, view, i);
      var rest := view[..i] + view[i + 1..];
      assert rest[at] == view[j];
      SumNonNegative(f, rest);
    }
  }

  lemma FilterDistinct(keep: Entry -> bool, view: seq<Entry>)
    requires Distinct(view)
    ensures Distinct(Filter(keep, view))
  {
    forall id ensures Sum(HasId(id), Filter(keep, view)) <= 1 {
      SumFilterAtMost(HasId(id), keep, view);
      assert Sum(HasId(id), view) <= 1;
    }
  }

  lemma {:induction false} IdsSize(view: seq<Entry>)
    requires Distinct(view)
    ensures |Ids(view)| == |view|
  {
    if view != [] {
      var n := |view| - 1;
      var init, e := view[..n], view[n];
      assert view == init + [e];
      IdsSnoc(init, e);
      forall id ensures Sum(HasId(id), init) <= 1 {
        SumSnoc(HasId(id), init, e);
        assert Sum(HasId(id), view) <= 1;
      }
      IdsSize(init);
      if e.id in Ids(init) {
        var i :| 0 <= i < |init| && init[i].id == e.id;
        DistinctAt(view, i, n);
      }
    }
  }

  lemma IdsOfFilter(keep: Entry -> bool, view: seq<Entry>, id: string)
    ensures id in Ids(Filter(keep, view)) <==> exists i | 0 <= i < |view| :: keep(view[i]) && view[i].id == id
  {
    if id in Ids(Filter(keep, view)) {
      var e :| e in Filter(keep, view) && e.id == id;
      FilterMember(keep, view, e);
      var i :| 0 <= i < |view| && view[i] == e;
    }
    if i: nat :| i < |view| && keep(view[i]) && view[i].id == id {
      FilterMember(keep, view, view[i]);
    }
  }

  function Names(keep: Entry -> bool): (Entry, string) -> int {
    (e: Entry, name: string) => if keep(e) && e.id == name then 1 else 0
  }

  /** How often `names` names an entry that passes. */
  function NamedAt(keep: Entry -> bool, names: seq<string>): Entry -> int {
    (e: Entry) => if keep(e) then Occurs(names, e.id) else 0
  }

  lemma NamesInRow(keep: Entry -> bool, names: seq<string>, e: Entry)
    ensures RowSum(Names(keep), names)(e) == NamedAt(keep, names)(e)
  {
    if keep(e) {
      SumSame(Fix(Names(keep), e), Is(e.id), names);
    } else {
      SumZero(Fix(Names(keep), e), names);
    }
  }

  lemma NamesInColumn(view: seq<Entry>, keep: Entry -> bool, name: string)
    requires Distinct(view) && name in Ids(Filter(keep, view))
    ensures RowSum(Flip(Names(keep)), view)(name) == 1
  {
    IdsOfFilter(keep, view, name);
    var j :| 0 <= j < |view| && keep(view[j]) && view[j].id == name;
    forall i | 0 <= i < |view| && i != j ensures Fix(Flip(Names(keep)), name)(view[i]) == 0 {
      if view[i].id == name {
        DistinctAt(view, i, j);
      }
    }
    SumSingle(Fix(Flip(Names(keep)), name), view, j);
  }

  /** A list of names of passing entries is as long as the mentions of all passing entries together. */
  lemma NamesCounted(view: seq<Entry>, keep: Entry -> bool, names: seq<string>)
    requires Distinct(view)
    requires forall i | 0 <= i < |names| :: names[i] in Ids(Filter(keep, view))
    ensures Sum(NamedAt(keep, names), view) == |names|
  {
    SumSwap(Names(keep), view, names);
    forall i | 0 <= i < |view| ensures RowSum(Names(keep), names)(view[i]) == NamedAt(keep, names)(view[i]) {
      NamesInRow(keep, names, view[i]);
    }
    SumSame(RowSum(Names(keep), names), NamedAt(keep, names), view);
    forall i | 0 <= i < |names| ensures RowSum(Flip(Names(keep)), view)(names[i]) == 1 {
      NamesInColumn(view, keep, names[i]);
    }
    SumOnes(RowSum(Flip(Names(keep)), view), names);
  }

  lemma OccursPositive(names: seq<string>, i: nat)
    requires i < |names|
    ensures Occurs(names, names[i]) >= 1
  {
    SumNonNegative(Is(names[i]), names);
  }

  function OfName(e: Entry): string {
    if e.role.Replica? then e.role.of else ""
  }

  /** How many of the listed replicas follow an entry that passes. */
  function FollowersAt(keep: Entry -> bool, list: seq<Entry>): Entry -> int {
    (e: Entry) => if keep(e) then Followers(list, e.id) else 0
  }

  lemma FollowersAreNames(list: seq<Entry>, p: string)
    requires forall i | 0 <= i < |list| :: list[i].role.Replica?
    ensures Occurs(Map(OfName, list), p) == Followers(list, p)
  {
    SumMap(OfName, Is(p), Follows(p), list);
  }

  /** A list of replicas of passing entries is as long as the followers of all passing entries together. */
  lemma FollowersCounted(view: seq<Entry>, keep: Entry -> bool, list: seq<Entry>)
    requires Distinct(view)
    requires forall i | 0 <= i < |list| ::
               list[i].role.Replica? && list[i].role.of in Ids(Filter(keep, view))
    ensures Sum(FollowersAt(keep, list), view) == |list|
  {
    var names := Map(OfName, list);
    NamesCounted(view, keep, names);
    forall i | 0 <= i < |view| ensures FollowersAt(keep, list)(view[i]) == NamedAt(keep, names)(view[i]) {
      FollowersAreNames(list, view[i].id);
    }
    SumSame(FollowersAt(keep, list), NamedAt(keep, names), view);
  }

  /** The replicas among `replicas` that follow a passing entry. */
  function Attached(keep: Entry -> bool, view: seq<Entry>): Entry -> bool {
    var ids := Ids(Filter(keep, view));
    (r: Entry) => r.role.Replica? && r.role.of in ids
  }

  lemma AttachedCounted(view: seq<Entry>, keep: Entry -> bool, replicas: seq<Entry>)
    requires Distinct(view)
    ensures Sum(FollowersAt(keep, replicas), view) == |Filter(Attached(keep, view), replicas)|
  {
    var own := Attached(keep, view);
    var list := Filter(own, replicas);
    forall i | 0 <= i < |list| ensures list[i].role.Replica? && list[i].role.of in Ids(Filter(keep, view)) {
      FilterMember(own, replicas, list[i]);
    }
    FollowersCounted(view, keep, list);
    forall i | 0 <= i < |view| ensures FollowersAt(keep, replicas)(view[i]) == FollowersAt(keep, list)(view[i]) {
      if keep(view[i]) {
        IdsOfFilter(keep, view, view[i].id);
        SumFilter(Follows(view[i].id), own, replicas);
      }
    }
    SumSame(FollowersAt(keep, replicas), FollowersAt(keep, list), view);
  }

  lemma {:induction false} FilterParts(a: Entry -> bool, b: Entry -> bool, xs: seq<Entry>)
    requires forall i | 0 <= i < |xs| :: a(xs[i]) != b(xs[i])
    ensures |Filter(a, xs)| + |Filter(b, xs)| == |xs|
  {
    if xs != [] {
      FilterParts(a, b, xs[..|xs| - 1]);
    }
  }

  lemma {:induction false} FilterShorter<A>(keep: A -> bool, xs: seq<A>)
    ensures |Filter(keep, xs)| <= |xs|
  {
    if xs != [] {
      FilterShorter(keep, xs[..|xs| - 1]);
    }
  }

  /** Exactly the replicas beyond the quota are taken from each primary. */
  lemma {:induction false} ExtrasFollowers(replicas: seq<Entry>, ids: set<string>, quota: nat, p: string)
    requires forall i | 0 <= i < |replicas| :: replicas[i].role.Replica?
    ensures Followers(Extras(replicas, ids, quota), p) ==
            if p in ids && Followers(replicas, p) > quota then Followers(replicas, p) - quota else 0
    ensures Followers(replicas, p) >= 0
  {
    if replicas != [] {
      ExtrasFollowers(replicas[1..], ids, quota, p);
      var rest := Extras(replicas[1..], ids, quota);
      if IsExtra(replicas, ids, quota) {
        assert Extras(replicas, ids, quota)[1..] == rest;
      } else {
        assert Extras(replicas, ids, quota) == rest;
      }
    }
  }
}
