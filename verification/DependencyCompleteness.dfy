/** When the resolver succeeds: what must hold of the skills it can select. */
module DependencyCompleteness {
  import opened Options
  import opened Versions
  import opened DependencyResolver
  import opened DependencyPlans
  import opened DependencyErrors

  ghost predicate DistinctNames(walk: seq<Skill>) {
    forall i, j :: 0 <= i < j < |walk| ==> walk[i].name != walk[j].name
  }

  /** A dependency of a skill that some chain of selections leads to. */
  ghost predicate MetOnTheWay(idx: Index, root: Skill, dep: Dep) {
    exists chain: seq<Skill> :: Chain(idx, root, chain) && dep in chain[|chain| - 1].deps
  }

  /** What the resolver can select is acyclic, and every dependency of it has a selection. */
  ghost predicate Settled(idx: Index, root: Skill) {
    && (forall chain: seq<Skill> :: Chain(idx, root, chain) ==> DistinctNames(chain))
    && forall dep :: MetOnTheWay(idx, root, dep) ==> Select(idx, dep.name, dep.constraint).Chosen?
  }

  /** Any two dependencies of one name that the resolver can meet select the same skill. */
  ghost predicate SingleChoice(idx: Index, root: Skill) {
    forall a, b :: MetOnTheWay(idx, root, a) && MetOnTheWay(idx, root, b) && a.name == b.name ==>
      SameChoice(Select(idx, a.name, a.constraint), Select(idx, b.name, b.constraint))
  }

  predicate SameChoice(a: Choice, b: Choice) { a.Chosen? && b.Chosen? ==> a == b }

  lemma ChainPrefix(idx: Index, root: Skill, chain: seq<Skill>, n: nat)
    requires Chain(idx, root, chain) && 0 < n <= |chain|
    ensures Chain(idx, root, chain[..n])
  {
    forall k | 0 <= k < n - 1 ensures PicksNext(idx, chain[..n], k) { assert PicksNext(idx, chain, k); }
  }

  lemma OnTheWay(idx: Index, root: Skill, chain: seq<Skill>, k: nat)
    requires Chain(idx, root, chain) && k < |chain|
    ensures forall dep :: dep in chain[k].deps ==> MetOnTheWay(idx, root, dep)
  {
    ChainPrefix(idx, root, chain, k + 1);
    assert chain[..k + 1][k] == chain[k];
  }

  lemma ErrorUnsettles(idx: Index, root: Skill, e: Error)
    requires Explained(idx, root, e)
    ensures !SingleChoice(idx, root) || !Settled(idx, root)
  {
    var chain: seq<Skill> :| Explains(idx, root, chain, e);
    var last := chain[|chain| - 1];
    assert forall dep :: dep in last.deps ==> MetOnTheWay(idx, root, dep);
    match e
    case Circular(_) => assert !DistinctNames(chain);
    case Missing(n) =>
      var dep :| dep in last.deps && dep.name == n;
      assert MetOnTheWay(idx, root, dep);
      SelectIsNewestMatch(idx, n, dep.constraint);
    case NoVersion(n, c) =>
      assert MetOnTheWay(idx, root, Dep(n, c));
      SelectIsNewestMatch(idx, n, c);
    case Conflict(s, c) =>
      var edge := SelectedFor(idx, root, s);
      assert MetOnTheWay(idx, root, Dep(s.name, c));
      assert !SameChoice(Select(idx, edge.name, edge.constraint), Select(idx, s.name, c));
  }

  /** The dependency for which a skill was selected. */
  lemma SelectedFor(idx: Index, root: Skill, s: Skill) returns (dep: Dep)
    requires Selected(idx, root, s)
    ensures MetOnTheWay(idx, root, dep) && dep.name == s.name
    ensures Select(idx, dep.name, dep.constraint) == Chosen(s) && s in Candidates(idx, s.name)
  {
    var chain: seq<Skill> :| Chain(idx, root, chain) && 2 <= |chain| && chain[|chain| - 1] == s;
    var n := |chain| - 2;
    assert Picks(idx, chain[n], s) by { assert PicksNext(idx, chain, n); }
    OnTheWay(idx, root, chain, n);
    dep :| dep in chain[n].deps && Select(idx, dep.name, dep.constraint) == Chosen(s);
    SelectIsNewestMatch(idx, dep.name, dep.constraint);
  }

  /** What is needed of a plan: dependencies first, the root last, all else from the index. */
  ghost predicate Drawn(idx: Index, root: Skill, st: Dfs) {
    && Ordered(st) && ClosedBy(st, root)
    && forall n :: n in st.resolved && n != root.name ==> Indexed(idx, n, st.resolved[n])
  }

  ghost predicate Indexed(idx: Index, name: string, s: Skill) { s in Candidates(idx, name) }

  lemma PlanIsDrawn(idx: Index, root: Skill)
    requires Resolve(idx, root).Ok?
    ensures Drawn(idx, root, Resolve(idx, root).value)
  {
    var st := Resolve(idx, root).value;
    PlanIsOrdered(idx, root);
    OutcomeIsExplained(idx, root);
    forall n | n in st.resolved && n != root.name ensures Indexed(idx, n, st.resolved[n]) {
      var _ := SelectedFor(idx, root, st.resolved[n]);
    }
  }

  ghost predicate InPlan(st: Dfs, s: Skill) {
    s.name in st.resolved && st.resolved[s.name] == s
  }

  ghost predicate Precedes(st: Dfs, a: string, b: string) {
    exists p, q :: 0 <= p < q < |st.order| && st.order[p] == a && st.order[q] == b
  }

  lemma PrecedesTransitive(st: Dfs, a: string, b: string, c: string)
    requires Ordered(st) && Precedes(st, a, b) && Precedes(st, b, c)
    ensures Precedes(st, a, c)
  {
    var p, q :| 0 <= p < q < |st.order| && st.order[p] == a && st.order[q] == b;
    var q', r :| 0 <= q' < r < |st.order| && st.order[q'] == b && st.order[r] == c;
    assert q == q';
  }

  lemma DependencyFirst(st: Dfs, s: Skill, dep: Dep, root: Skill)
    requires Ordered(st) && ClosedBy(st, root) && InPlan(st, s) && dep in s.deps
    ensures Met(st, dep) && dep.name != root.name && Precedes(st, dep.name, s.name)
  {
    assert Listed(st.order, s.name);
    var i :| 0 <= i < |st.order| && st.order[i] == s.name;
    assert MetBefore(st, i, dep);
  }

  ghost predicate StepsDown(st: Dfs, walk: seq<Skill>, k: nat)
    requires k + 1 < |walk|
  {
    Precedes(st, walk[k + 1].name, walk[k].name)
  }

  /** A walk each of whose steps goes to an earlier entry goes to earlier and earlier ones. */
  lemma {:induction false} WalkDescends(st: Dfs, walk: seq<Skill>, i: nat, j: nat)
    requires Ordered(st) && i < j < |walk| && forall k :: i <= k < j ==> StepsDown(st, walk, k)
    ensures Precedes(st, walk[j].name, walk[i].name)
    decreases j
  {
    assert StepsDown(st, walk, j - 1);
    if i < j - 1 {
      WalkDescends(st, walk, i, j - 1);
      PrecedesTransitive(st, walk[j].name, walk[j - 1].name, walk[i].name);
    }
  }

  lemma PrecedesIsStrict(st: Dfs, a: string, b: string)
    requires Ordered(st) && Precedes(st, a, b)
    ensures a != b
  {
  }

  // ----- Chains inside a plan -----

  /** Whatever the resolver can select for a dependency is the plan's entry, if it has one that
      meets the dependency. */
  ghost predicate Follows(idx: Index, root: Skill, st: Dfs) {
    forall dep :: MetOnTheWay(idx, root, dep) && dep.name != root.name && Met(st, dep) ==>
      SameChoice(Select(idx, dep.name, dep.constraint), Chosen(st.resolved[dep.name]))
  }

  lemma NextInPlan(idx: Index, root: Skill, st: Dfs, s: Skill, next: Skill)
    requires Drawn(idx, root, st) && Follows(idx, root, st) && InPlan(st, s) && Picks(idx, s, next)
    requires forall dep :: dep in s.deps ==> MetOnTheWay(idx, root, dep)
    ensures InPlan(st, next) && Precedes(st, next.name, s.name)
  {
    var dep :| dep in s.deps && Select(idx, dep.name, dep.constraint) == Chosen(next);
    DependencyFirst(st, s, dep, root);
    SelectIsNewestMatch(idx, dep.name, dep.constraint);
    assert SameChoice(Chosen(next), Chosen(st.resolved[dep.name]));
  }

  lemma {:induction false} ChainInPlan(idx: Index, root: Skill, st: Dfs, chain: seq<Skill>, k: nat)
    requires Drawn(idx, root, st) && Follows(idx, root, st) && Chain(idx, root, chain) && k < |chain|
    ensures InPlan(st, chain[k])
  {
    if 0 < k {
      ChainInPlan(idx, root, st, chain, k - 1);
      ChainStep(idx, root, st, chain, k - 1);
    }
  }

  lemma ChainStep(idx: Index, root: Skill, st: Dfs, chain: seq<Skill>, k: nat)
    requires Drawn(idx, root, st) && Follows(idx, root, st) && Chain(idx, root, chain) && k + 1 < |chain|
    requires InPlan(st, chain[k])
    ensures InPlan(st, chain[k + 1]) && StepsDown(st, chain, k)
  {
    assert PicksNext(idx, chain, k);
    OnTheWay(idx, root, chain, k);
    NextInPlan(idx, root, st, chain[k], chain[k + 1]);
  }

  lemma ChainIsDistinct(idx: Index, root: Skill, st: Dfs, chain: seq<Skill>)
    requires Drawn(idx, root, st) && Follows(idx, root, st) && Chain(idx, root, chain)
    ensures DistinctNames(chain)
  {
    forall k: nat | k + 1 < |chain| ensures StepsDown(st, chain, k) {
      ChainInPlan(idx, root, st, chain, k);
      ChainStep(idx, root, st, chain, k);
    }
    forall i, j | 0 <= i < j < |chain| ensures chain[i].name != chain[j].name {
      WalkDescends(st, chain, i, j);
      PrecedesIsStrict(st, chain[j].name, chain[i].name);
    }
  }

  /** A dependency met on the way is met by the plan, with the resolver's own selection. */
  lemma SelectionInPlan(idx: Index, root: Skill, st: Dfs, dep: Dep)
    requires Drawn(idx, root, st) && Follows(idx, root, st) && MetOnTheWay(idx, root, dep)
    ensures Met(st, dep) && Select(idx, dep.name, dep.constraint) == Chosen(st.resolved[dep.name])
  {
    MetInPlan(idx, root, st, dep);
    assert Indexed(idx, dep.name, st.resolved[dep.name]);
    assert Select(idx, dep.name, dep.constraint).Chosen? by { SelectIsNewestMatch(idx, dep.name, dep.constraint); }
    assert SameChoice(Select(idx, dep.name, dep.constraint), Chosen(st.resolved[dep.name]));
  }

  lemma MetInPlan(idx: Index, root: Skill, st: Dfs, dep: Dep)
    requires Drawn(idx, root, st) && Follows(idx, root, st) && MetOnTheWay(idx, root, dep)
    ensures Met(st, dep) && dep.name != root.name
  {
    var chain: seq<Skill> :| Chain(idx, root, chain) && dep in chain[|chain| - 1].deps;
    ChainInPlan(idx, root, st, chain, |chain| - 1);
    DependencyFirst(st, chain[|chain| - 1], dep, root);
  }

  /** A plan that follows the selections settles what the resolver can meet. */
  lemma FollowedIsSettled(idx: Index, root: Skill, st: Dfs)
    requires Drawn(idx, root, st) && Follows(idx, root, st)
    ensures Settled(idx, root) && SingleChoice(idx, root)
  {
    forall chain: seq<Skill> | Chain(idx, root, chain) ensures DistinctNames(chain) {
      ChainIsDistinct(idx, root, st, chain);
    }
    forall dep | MetOnTheWay(idx, root, dep)
      ensures Met(st, dep) && Select(idx, dep.name, dep.constraint) == Chosen(st.resolved[dep.name])
    {
      SelectionInPlan(idx, root, st, dep);
    }
  }

  // ----- Completeness -----

  /** When dependencies of one name agree on the selection, the resolver succeeds exactly if what
      it can select is acyclic and complete. */
  lemma SingleChoiceComplete(idx: Index, root: Skill)
    requires SingleChoice(idx, root)
    ensures Resolve(idx, root).Ok? <==> Settled(idx, root)
  {
    OutcomeIsExplained(idx, root);
    if Resolve(idx, root).Ok? {
      var st := Resolve(idx, root).value;
      PlanIsDrawn(idx, root);
      forall dep | MetOnTheWay(idx, root, dep) && dep.name != root.name && Met(st, dep)
        ensures SameChoice(Select(idx, dep.name, dep.constraint), Chosen(st.resolved[dep.name]))
      {
        var edge := SelectedFor(idx, root, st.resolved[dep.name]);
        assert SameChoice(Select(idx, dep.name, dep.constraint), Select(idx, edge.name, edge.constraint));
      }
      FollowedIsSettled(idx, root, st);
    } else {
      ErrorUnsettles(idx, root, Resolve(idx, root).error);
    }
  }

  ghost predicate Suits(idx: Index, dep: Dep, s: Skill) {
    s in Candidates(idx, dep.name) && Match(s.version, dep.constraint)
  }

  /** No dependency the resolver can meet has two candidates that match it. */
  ghost predicate OneMatch(idx: Index, root: Skill) {
    forall dep, a, b :: MetOnTheWay(idx, root, dep) && Suits(idx, dep, a) && Suits(idx, dep, b) ==> a == b
  }

  /** Then nothing is lost by not backtracking: the resolver finds a plan exactly if there is one. */
  lemma ExistingPlanIsFound(idx: Index, root: Skill)
    requires OneMatch(idx, root)
    ensures Resolve(idx, root).Ok? <==> exists st :: Drawn(idx, root, st)
  {
    if Resolve(idx, root).Ok? {
      PlanIsDrawn(idx, root);
    } else if exists st :: Drawn(idx, root, st) {
      var st :| Drawn(idx, root, st);
      forall dep | MetOnTheWay(idx, root, dep) && dep.name != root.name && Met(st, dep)
        ensures SameChoice(Select(idx, dep.name, dep.constraint), Chosen(st.resolved[dep.name]))
      {
        SelectIsNewestMatch(idx, dep.name, dep.constraint);
        var choice := Select(idx, dep.name, dep.constraint);
        if choice.Chosen? {
          assert Indexed(idx, dep.name, st.resolved[dep.name]);
          assert Suits(idx, dep, choice.skill) && Suits(idx, dep, st.resolved[dep.name]);
        }
      }
      FollowedIsSettled(idx, root, st);
      SingleChoiceComplete(idx, root);
    }
  }

  // ----- No name with two candidates -----

  /** A path through the raw dependency graph: each step goes to a candidate for a dependency,
      whether or not its version matches. */
  ghost predicate Walk(idx: Index, root: Skill, walk: seq<Skill>) {
    && walk != [] && walk[0] == root
    && forall k :: 0 <= k < |walk| - 1 ==> NeedsNext(idx, walk, k)
  }

  ghost predicate NeedsNext(idx: Index, walk: seq<Skill>, k: nat)
    requires k + 1 < |walk|
  {
    Needs(idx, walk[k], walk[k + 1])
  }

  ghost predicate Needs(idx: Index, a: Skill, b: Skill) {
    exists dep :: dep in a.deps && b in Candidates(idx, dep.name)
  }

  /** The dependency is present at a version that satisfies its constraint. */
  ghost predicate Available(idx: Index, dep: Dep) {
    exists s :: s in Candidates(idx, dep.name) && Match(s.version, dep.constraint)
  }

  /** The raw graph reachable from the root is acyclic, complete and constraint-satisfying. */
  ghost predicate Sound(idx: Index, root: Skill) {
    forall walk: seq<Skill> :: Walk(idx, root, walk) ==>
      DistinctNames(walk) && forall dep :: dep in walk[|walk| - 1].deps ==> Available(idx, dep)
  }

  /** No name that the raw graph reaches has two candidates. */
  ghost predicate SingleVersion(idx: Index, root: Skill) {
    forall walk: seq<Skill> :: Walk(idx, root, walk) ==> SingleCandidates(idx, walk[|walk| - 1])
  }

  ghost predicate SingleCandidates(idx: Index, s: Skill) {
    forall dep :: dep in s.deps ==> |Candidates(idx, dep.name)| <= 1
  }

  lemma ChainIsWalk(idx: Index, root: Skill, chain: seq<Skill>)
    requires Chain(idx, root, chain)
    ensures Walk(idx, root, chain)
  {
    forall k | 0 <= k < |chain| - 1 ensures NeedsNext(idx, chain, k) {
      assert PicksNext(idx, chain, k);
      var dep :| dep in chain[k].deps && Select(idx, dep.name, dep.constraint) == Chosen(chain[k + 1]);
      SelectIsNewestMatch(idx, dep.name, dep.constraint);
    }
  }

  lemma OneCandidate(candidates: seq<Skill>, a: Skill, b: Skill)
    requires |candidates| <= 1 && a in candidates && b in candidates
    ensures a == b
  {
  }

  lemma OnTheWaySingle(idx: Index, root: Skill, dep: Dep)
    requires SingleVersion(idx, root) && MetOnTheWay(idx, root, dep)
    ensures |Candidates(idx, dep.name)| <= 1
  {
    var chain: seq<Skill> :| Chain(idx, root, chain) && dep in chain[|chain| - 1].deps;
    ChainIsWalk(idx, root, chain);
    assert SingleCandidates(idx, chain[|chain| - 1]);
  }

  lemma SingleVersionIsSingleChoice(idx: Index, root: Skill)
    requires SingleVersion(idx, root)
    ensures SingleChoice(idx, root)
  {
    forall a, b | MetOnTheWay(idx, root, a) && MetOnTheWay(idx, root, b) && a.name == b.name
      ensures SameChoice(Select(idx, a.name, a.constraint), Select(idx, b.name, b.constraint))
    {
      OnTheWaySingle(idx, root, a);
      SingleSelection(idx, a.name, a.constraint, b.constraint);
    }
  }

  lemma SingleSelection(idx: Index, name: string, a: Constraint, b: Constraint)
    requires |Candidates(idx, name)| <= 1
    ensures SameChoice(Select(idx, name, a), Select(idx, name, b))
  {
    SelectIsNewestMatch(idx, name, a);
    SelectIsNewestMatch(idx, name, b);
  }

  /** Whatever the skills on chains of selections need is what they select. */
  ghost predicate NeedsArePicks(idx: Index, root: Skill) {
    forall chain: seq<Skill>, next: Skill :: NeedIsPick(idx, root, chain, next)
  }

  ghost predicate NeedIsPick(idx: Index, root: Skill, chain: seq<Skill>, next: Skill) {
    Chain(idx, root, chain) && Needs(idx, chain[|chain| - 1], next) ==> Chain(idx, root, chain + [next])
  }

  lemma SettledNeedsArePicks(idx: Index, root: Skill)
    requires SingleVersion(idx, root) && Settled(idx, root)
    ensures NeedsArePicks(idx, root)
  {
    forall chain: seq<Skill>, next: Skill ensures NeedIsPick(idx, root, chain, next) {
      if Chain(idx, root, chain) && Needs(idx, chain[|chain| - 1], next) { PickGrowsChain(idx, root, chain, next); }
    }
  }

  lemma PickGrowsChain(idx: Index, root: Skill, chain: seq<Skill>, next: Skill)
    requires SingleVersion(idx, root) && Settled(idx, root)
    requires Chain(idx, root, chain) && Needs(idx, chain[|chain| - 1], next)
    ensures Chain(idx, root, chain + [next])
  {
    var dep :| dep in chain[|chain| - 1].deps && next in Candidates(idx, dep.name);
    assert MetOnTheWay(idx, root, dep);
    OnTheWaySingle(idx, root, dep);
    OnlySelection(idx, dep, next);
    ChainGrows(idx, root, chain, dep, next);
  }

  lemma OnlySelection(idx: Index, dep: Dep, s: Skill)
    requires |Candidates(idx, dep.name)| <= 1 && s in Candidates(idx, dep.name)
    requires Select(idx, dep.name, dep.constraint).Chosen?
    ensures Select(idx, dep.name, dep.constraint) == Chosen(s)
  {
    SelectIsNewestMatch(idx, dep.name, dep.constraint);
    OneCandidate(Candidates(idx, dep.name), s, Select(idx, dep.name, dep.constraint).skill);
  }

  lemma {:induction false} WalkIsChain(idx: Index, root: Skill, walk: seq<Skill>)
    requires NeedsArePicks(idx, root) && Walk(idx, root, walk)
    ensures Chain(idx, root, walk)
    decreases |walk|
  {
    if 1 < |walk| {
      var init, next := walk[..|walk| - 1], walk[|walk| - 1];
      WalkPrefix(idx, root, walk);
      WalkIsChain(idx, root, init);
      assert Needs(idx, init[|init| - 1], next) by { assert NeedsNext(idx, walk, |walk| - 2); }
      assert NeedIsPick(idx, root, init, next);
      assert init + [next] == walk;
    }
  }

  lemma WalkPrefix(idx: Index, root: Skill, walk: seq<Skill>)
    requires Walk(idx, root, walk) && 1 < |walk|
    ensures Walk(idx, root, walk[..|walk| - 1])
  {
    var init := walk[..|walk| - 1];
    forall k | 0 <= k < |init| - 1 ensures NeedsNext(idx, init, k) { assert NeedsNext(idx, walk, k); }
  }

  /** With one candidate per reachable name the resolver succeeds exactly on the sound graphs. */
  lemma SingleVersionComplete(idx: Index, root: Skill)
    requires SingleVersion(idx, root)
    ensures Resolve(idx, root).Ok? <==> Sound(idx, root)
  {
    SingleVersionIsSingleChoice(idx, root);
    SingleChoiceComplete(idx, root);
    if Settled(idx, root) { SettledIsSound(idx, root); }
    if Sound(idx, root) { SoundIsSettled(idx, root); }
  }

  lemma SettledIsSound(idx: Index, root: Skill)
    requires SingleVersion(idx, root) && Settled(idx, root)
    ensures Sound(idx, root)
  {
    SettledNeedsArePicks(idx, root);
    forall walk: seq<Skill> | Walk(idx, root, walk)
      ensures DistinctNames(walk) && forall dep :: dep in walk[|walk| - 1].deps ==> Available(idx, dep)
    {
      WalkIsChain(idx, root, walk);
      forall dep | dep in walk[|walk| - 1].deps ensures Available(idx, dep) {
        assert MetOnTheWay(idx, root, dep);
        SelectIsNewestMatch(idx, dep.name, dep.constraint);
      }
    }
  }

  lemma SoundIsSettled(idx: Index, root: Skill)
    requires Sound(idx, root)
    ensures Settled(idx, root)
  {
    forall chain: seq<Skill> | Chain(idx, root, chain) ensures DistinctNames(chain) {
      ChainIsWalk(idx, root, chain);
    }
    forall dep | MetOnTheWay(idx, root, dep) ensures Select(idx, dep.name, dep.constraint).Chosen? {
      var chain: seq<Skill> :| Chain(idx, root, chain) && dep in chain[|chain| - 1].deps;
      ChainIsWalk(idx, root, chain);
      assert Available(idx, dep);
      SelectIsNewestMatch(idx, dep.name, dep.constraint);
    }
  }

  // ----- Greedy selection does not backtrack -----

  function Text(text: string, major: nat): VersionText { VersionText(text, Some(Version(major, 0, 0.0))) }

  const A1 := Skill("a", Text("1.0.0", 1), "p", [])
  const A2 := Skill("a", Text("2.0.0", 2), "p", [])
  const OLD := Dep("a", Exactly("1.0.0"))
  const B := Skill("b", Text("1.0.0", 1), "p", [OLD])
  const ROOT := Skill("r", Text("1.0.0", 1), "p", [Dep("a", Blank), Dep("b", Blank)])
  const SMALL: Index := map["a" := [A1, A2], "b" := [B]]

  lemma SmallCandidates()
    ensures A1 in Candidates(SMALL, "a") && A2 in Candidates(SMALL, "a") && B in Candidates(SMALL, "b")
    ensures forall s :: s in Candidates(SMALL, "a") ==> s in [A1, A2]
  {
    NamedIsFilter(SMALL["a"], "a");
    NamedIsFilter(SMALL["b"], "b");
    assert SMALL["a"][0] == A1 && SMALL["a"][1] == A2 && SMALL["b"][0] == B;
  }

  lemma SmallChoices()
    ensures Select(SMALL, "a", Blank) == Chosen(A2)
    ensures Select(SMALL, "a", OLD.constraint) == Chosen(A1)
    ensures Select(SMALL, "b", Blank) == Chosen(B)
  {
    SmallCandidates();
    NamedIsFilter(SMALL["b"], "b");
    SelectIsNewestMatch(SMALL, "a", Blank);
    SelectIsNewestMatch(SMALL, "a", OLD.constraint);
    SelectIsNewestMatch(SMALL, "b", Blank);
  }

  lemma BConflicts(names: set<string>, one: Dfs)
    requires SMALL.Keys <= names && one.visiting == {"r"} && one.resolved == map["a" := A2]
    ensures VisitDeps(SMALL, names, one, [Dep("b", Blank)]) == Err(Conflict(A2, OLD.constraint))
  {
    SmallChoices();
    var two := Open(one, "b");
    assert B.deps[0] == OLD;
    assert Visit(SMALL, names, two, A1, Some(OLD.constraint)) == Err(Conflict(A2, OLD.constraint));
    assert VisitDeps(SMALL, names, two, B.deps) == Err(Conflict(A2, OLD.constraint));
    assert Visit(SMALL, names, one, B, Some(Blank)) == Err(Conflict(A2, OLD.constraint));
    assert [Dep("b", Blank)][0] == Dep("b", Blank);
  }

  /** With two candidates a valid plan can exist and still be missed: the newest `a` is resolved
      first, and `b` then asks for the older one; drawing the older `a` serves both. */
  lemma GreedyMissesAPlan()
    ensures Resolve(SMALL, ROOT) == Err(Conflict(A2, OLD.constraint))
    ensures Drawn(SMALL, ROOT, Dfs({}, map["a" := A1, "b" := B, "r" := ROOT], ["a", "b", "r"]))
  {
    var names := Names(SMALL, ROOT);
    var open := Open(START, "r");
    var one := Dfs({"r"}, map["a" := A2], ["a"]);
    assert Visit(SMALL, names, open, A2, Some(Blank)) == Ok(one) by {
      assert Close(Open(open, "a"), A2) == one;
    }
    assert ROOT.deps[0] == Dep("a", Blank) && ROOT.deps[1..] == [Dep("b", Blank)];
    assert VisitDeps(SMALL, names, open, ROOT.deps) == VisitDeps(SMALL, names, one, [Dep("b", Blank)]) by {
      SmallChoices();
    }
    BConflicts(names, one);
    OtherPlan();
  }

  lemma OtherPlan()
    ensures Drawn(SMALL, ROOT, Dfs({}, map["a" := A1, "b" := B, "r" := ROOT], ["a", "b", "r"]))
  {
    var st := Dfs({}, map["a" := A1, "b" := B, "r" := ROOT], ["a", "b", "r"]);
    assert st.order[0] == "a" && st.order[1] == "b" && st.order[2] == "r";
    assert Indexed(SMALL, "a", A1) && Indexed(SMALL, "b", B) by { SmallCandidates(); }
    assert MetBefore(st, 1, OLD) && MetBefore(st, 2, Dep("a", Blank)) && MetBefore(st, 2, Dep("b", Blank));
  }
}
