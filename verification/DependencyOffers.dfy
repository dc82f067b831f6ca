/** For which offers greedy selection never misses a plan, whatever the skills depend on. */
module DependencyOffers {
  import opened Options
  import opened Versions
  import opened DependencyResolver
  import opened DependencyPlans
  import opened DependencyCompleteness

  ghost predicate SameItems(xs: seq<Skill>, ys: seq<Skill>) {
    |xs| == |ys| && forall i :: 0 <= i < |xs| ==> SameItem(xs[i], ys[i])
  }

  predicate SameItem(x: Skill, y: Skill) { x.name == y.name && x.version == y.version }

  /** The two indexes offer the same names and versions; what the skills depend on may differ. */
  ghost predicate SameOffer(a: Index, b: Index) {
    a.Keys == b.Keys && forall n :: n in a ==> SameItems(a[n], b[n])
  }

  /** Whatever the offered skills and the root depend on, a plan is found if there is one. */
  ghost predicate FindsExistingPlans(idx: Index) {
    forall other: Index, root: Skill :: SameOffer(idx, other) && HasPlan(other, root) ==> Resolve(other, root).Ok?
  }

  ghost predicate HasPlan(idx: Index, root: Skill) { exists st :: Drawn(idx, root, st) }

  predicate OneOffered(idx: Index, n: string) { |Candidates(idx, n)| <= 1 }

  lemma {:induction false} NamedSame(xs: seq<Skill>, ys: seq<Skill>, n: string)
    requires SameItems(xs, ys)
    ensures SameItems(Named(xs, n), Named(ys, n))
  {
    if xs != [] {
      assert SameItem(xs[0], ys[0]);
      forall i | 0 <= i < |xs[1..]| ensures SameItem(xs[1..][i], ys[1..][i]) { assert SameItem(xs[i + 1], ys[i + 1]); }
      NamedSame(xs[1..], ys[1..], n);
    }
  }

  /** With one candidate for every name, nothing is missed. */
  lemma OneOfferedSuffices(idx: Index, other: Index, root: Skill)
    requires SameOffer(idx, other) && HasPlan(other, root) && forall n :: OneOffered(idx, n)
    ensures Resolve(other, root).Ok?
  {
    forall dep, a, b | MetOnTheWay(other, root, dep) && Suits(other, dep, a) && Suits(other, dep, b) ensures a == b {
      assert OneOffered(idx, dep.name);
      if dep.name in idx { NamedSame(idx[dep.name], other[dep.name], dep.name); }
      OneCandidate(Candidates(other, dep.name), a, b);
    }
    ExistingPlanIsFound(other, root);
  }

  // ----- Two candidates are too many -----

  /** Equally named and versioned candidates have their newest in the same place. */
  lemma NewestSame(xs: seq<Skill>, ys: seq<Skill>, i: nat, j: nat)
    requires SameItems(xs, ys) && NewestAt(xs, i) && NewestAt(ys, j)
    ensures i == j
  {
    assert SameItem(xs[i], ys[i]) && SameItem(xs[j], ys[j]);
  }

  lemma {:induction false} BlankMatchesAll(items: seq<Skill>)
    ensures Matching(items, Blank) == items
  {
    if items != [] { BlankMatchesAll(items[1..]); }
  }

  /** Without a constraint the newest candidate is selected. */
  lemma NewestIsSelected(idx: Index, n: string, i: nat)
    requires NewestAt(Candidates(idx, n), i)
    ensures Select(idx, n, Blank) == Chosen(Candidates(idx, n)[i])
  {
    var cs := Candidates(idx, n);
    BlankMatchesAll(cs);
    var j := SortedLastIsNewest(cs);
    assert forall k :: 0 <= k < |cs| ==> SameItem(cs[k], cs[k]);
    NewestSame(cs, cs, i, j);
  }

  /** The items with these dependencies for the k-th one named `n`, and none for the others. */
  function Rigged(items: seq<Skill>, n: string, k: int, deps: Deps): seq<Skill> {
    if items == [] then []
    else
      var x := items[0];
      if x.name != n then [x.(deps := [])] + Rigged(items[1..], n, k, deps)
      else [x.(deps := if k == 0 then deps else [])] + Rigged(items[1..], n, k - 1, deps)
  }

  lemma {:induction false} RiggedSame(items: seq<Skill>, n: string, k: int, deps: Deps)
    ensures SameItems(items, Rigged(items, n, k, deps))
  {
    if items != [] {
      var r := Rigged(items, n, k, deps);
      RiggedSame(items[1..], n, if items[0].name != n then k else k - 1, deps);
      forall i | 0 <= i < |items| ensures SameItem(items[i], r[i]) {
        if 0 < i { assert SameItem(items[1..][i - 1], r[1..][i - 1]); }
      }
    }
  }

  /** The dependencies of the k-th candidate are these, and the others have none. */
  ghost predicate RiggedRight(cs: seq<Skill>, k: int, deps: Deps) {
    forall i :: 0 <= i < |cs| ==> cs[i].deps == if i == k then deps else []
  }

  lemma {:induction false} RiggedDeps(items: seq<Skill>, n: string, k: int, deps: Deps)
    ensures RiggedRight(Named(Rigged(items, n, k, deps), n), k, deps)
  {
    if items != [] {
      var k' := if items[0].name != n then k else k - 1;
      var r, rest := Rigged(items, n, k, deps), Rigged(items[1..], n, k', deps);
      RiggedDeps(items[1..], n, k', deps);
      assert r[1..] == rest;
      assert Named(r, n) == (if items[0].name == n then [r[0]] else []) + Named(rest, n);
    }
  }

  function RiggedIndex(idx: Index, n: string, k: int, deps: Deps): Index {
    map m | m in idx :: if m == n then Rigged(idx[m], n, k, deps) else idx[m]
  }

  lemma RiggedOffersSame(idx: Index, n: string, k: int, deps: Deps)
    ensures SameOffer(idx, RiggedIndex(idx, n, k, deps))
  {
    forall m | m in idx ensures SameItems(idx[m], RiggedIndex(idx, n, k, deps)[m]) {
      if m == n { RiggedSame(idx[m], n, k, deps); } else { SameAsItself(idx[m]); }
    }
  }

  lemma SameAsItself(items: seq<Skill>)
    ensures SameItems(items, items)
  {
  }

  lemma {:induction false} LongestKey(keys: set<string>) returns (n: nat)
    ensures forall k :: k in keys ==> |k| <= n
  {
    n := 0;
    if keys != {} {
      var key :| key in keys;
      n := LongestKey(keys - {key});
      forall k | k in keys ensures |k| <= if n < |key| then |key| else n { assert k == key || k in keys - {key}; }
      if n < |key| { n := |key|; }
    }
  }

  /** A name that nobody offers. */
  lemma FreshName(keys: set<string>) returns (name: string)
    ensures name !in keys
  {
    var n := LongestKey(keys);
    name := seq(n + 1, _ => 'x');
  }

  const ANY: VersionText := VersionText("", None)

  /** A root that needs any version of `n`. */
  function RootFor(n: string, unused: string): Skill { Skill(unused, ANY, "", [Dep(n, Blank)]) }

  /** The newest candidate needs a name that nobody offers, so the resolver fails. */
  lemma NewestFails(idx: Index, n: string, unused: string)
    requires unused !in idx && n in idx && Select(idx, n, Blank).Chosen?
    requires Select(idx, n, Blank).skill.deps == [Dep(unused, Blank)]
    ensures Resolve(idx, RootFor(n, unused)) == Err(Missing(unused))
  {
    var root := RootFor(n, unused);
    var names := Names(idx, root);
    var open, newest := Open(START, unused), Select(idx, n, Blank).skill;
    SelectIsNewestMatch(idx, n, Blank);
    assert Select(idx, unused, Blank) == NoCandidate;
    assert newest.deps[0] == Dep(unused, Blank);
    assert VisitDeps(idx, names, Open(open, n), newest.deps) == Err(Missing(unused));
    assert Visit(idx, names, open, newest, Some(Blank)) == Err(Missing(unused));
    assert root.deps[0] == Dep(n, Blank);
    assert VisitDeps(idx, names, open, root.deps) == Err(Missing(unused));
  }

  /** Another candidate, which needs nothing, makes a plan. */
  lemma OtherServes(idx: Index, n: string, unused: string, s: Skill)
    requires unused !in idx && n in idx && s in Candidates(idx, n) && s.deps == []
    ensures HasPlan(idx, RootFor(n, unused))
  {
    var root := RootFor(n, unused);
    var st := Dfs({}, map[n := s, unused := root], [n, unused]);
    NamedIsFilter(idx[n], n);
    PairIsOrdered(n, unused, s);
    assert Indexed(idx, n, s);
    assert Drawn(idx, root, st);
  }

  lemma PairIsOrdered(n: string, unused: string, s: Skill)
    requires n != unused && s.name == n && s.deps == []
    ensures Ordered(Dfs({}, map[n := s, unused := RootFor(n, unused)], [n, unused]))
  {
    var st := Dfs({}, map[n := s, unused := RootFor(n, unused)], [n, unused]);
    assert st.order[0] == n && st.order[1] == unused;
    assert MetBefore(st, 1, Dep(n, Blank));
    assert Listed(st.order, n) && Listed(st.order, unused);
  }

  /** Two candidates of one name: with these dependencies an existing plan is missed. */
  lemma TwoMiss(idx: Index, n: string)
    requires !OneOffered(idx, n)
    ensures !FindsExistingPlans(idx)
  {
    var unused := FreshName(idx.Keys);
    var k := SortedLastIsNewest(Candidates(idx, n));
    var deps: Deps := [Dep(unused, Blank)];
    var other := RiggedIndex(idx, n, k, deps);
    RiggedOffersSame(idx, n, k, deps);
    RiggedCandidates(idx, n, k, deps);
    NewestIsSelected(other, n, k);
    NewestFails(other, n, unused);
    OtherServes(other, n, unused, Candidates(other, n)[if k == 0 then 1 else 0]);
  }

  lemma RiggedCandidates(idx: Index, n: string, k: nat, deps: Deps)
    requires !OneOffered(idx, n) && NewestAt(Candidates(idx, n), k)
    ensures var cs := Candidates(RiggedIndex(idx, n, k, deps), n);
            && n in RiggedIndex(idx, n, k, deps) && 2 <= |cs| && NewestAt(cs, k) && cs[k].deps == deps
            && cs[if k == 0 then 1 else 0].deps == []
  {
    var other := RiggedIndex(idx, n, k, deps);
    assert n in idx;
    RiggedSame(idx[n], n, k, deps);
    NamedSame(idx[n], other[n], n);
    RiggedDeps(idx[n], n, k, deps);
    var cs := Candidates(other, n);
    NewestStays(Candidates(idx, n), cs, k);
    assert RiggedRight(cs, k, deps);
  }

  lemma NewestStays(xs: seq<Skill>, ys: seq<Skill>, k: nat)
    requires SameItems(xs, ys) && NewestAt(xs, k)
    ensures NewestAt(ys, k)
  {
    assert forall i :: 0 <= i < |xs| ==> SameItem(xs[i], ys[i]);
  }

  /** Greedy selection finds every existing plan, whatever the root and the offered skills depend
      on, exactly when no name is offered twice. */
  lemma NothingIsMissedExactlyWhen(idx: Index)
    ensures FindsExistingPlans(idx) <==> forall n :: OneOffered(idx, n)
  {
    if forall n :: OneOffered(idx, n) {
      forall other: Index, root: Skill | SameOffer(idx, other) && HasPlan(other, root)
        ensures Resolve(other, root).Ok?
      {
        OneOfferedSuffices(idx, other, root);
      }
    } else {
      var n :| !OneOffered(idx, n);
      TwoMiss(idx, n);
    }
  }
}
