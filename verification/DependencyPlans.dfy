/** What every plan the resolver returns, and every error it raises, means. */
module DependencyPlans {
  import opened Options
  import opened Versions
  import opened DependencyResolver

  // ----- Correctness of plans -----

  /** The edge is met by a skill strictly before position `i`. */
  ghost predicate MetBefore(st: Dfs, i: int, dep: Dep)
    requires i <= |st.order|
  {
    exists j :: 0 <= j < i && st.order[j] == dep.name
      && dep.name in st.resolved && Match(st.resolved[dep.name].version, dep.constraint)
  }

  predicate Listed(order: seq<string>, n: string) { n in order }

  /** Names are distinct and exactly the resolved ones, and dependencies come first. */
  ghost predicate Ordered(st: Dfs) {
    && (forall i, j :: 0 <= i < j < |st.order| ==> st.order[i] != st.order[j])
    && (forall i :: 0 <= i < |st.order| ==> st.order[i] in st.resolved)
    && (forall n {:trigger Listed(st.order, n)} :: n in st.resolved ==> Listed(st.order, n))
    && (forall n :: n in st.resolved ==> st.resolved[n].name == n && n !in st.visiting)
    && (forall i :: 0 <= i < |st.order| ==>
          forall dep :: dep in st.resolved[st.order[i]].deps ==> MetBefore(st, i, dep))
  }

  ghost predicate Met(st: Dfs, dep: Dep) {
    dep.name in st.resolved && Match(st.resolved[dep.name].version, dep.constraint)
  }

  lemma {:induction false} VisitOrdered(idx: Index, names: set<string>, st: Dfs, skill: Skill,
      constraint: Option<Constraint>)
    requires idx.Keys <= names && skill.name in names && Ordered(st)
    ensures var r := Visit(idx, names, st, skill, constraint);
            r.Ok? ==> Ordered(r.value) && ResolvedAs(r.value, skill.name, constraint)
                      && (skill.name !in st.resolved ==> ClosedBy(r.value, skill))
    decreases Unopened(names, st), 0
  {
    var r := Visit(idx, names, st, skill, constraint);
    if r.Ok? && skill.name !in st.resolved {
      var open := Open(st, skill.name);
      OpenOrdered(st, skill.name);
      Shrinks(names, st, skill.name);
      DepsOrdered(idx, names, open, skill.deps);
      AppendOrdered(VisitDeps(idx, names, open, skill.deps).value, skill);
    }
  }

  ghost predicate ResolvedAs(st: Dfs, name: string, constraint: Option<Constraint>) {
    name in st.resolved && Satisfied(st.resolved[name], constraint)
  }

  ghost predicate ClosedBy(st: Dfs, skill: Skill) {
    && skill.name in st.resolved && st.resolved[skill.name] == skill
    && st.order != [] && st.order[|st.order| - 1] == skill.name
  }

  lemma OpenOrdered(st: Dfs, name: string)
    requires Ordered(st) && name !in st.resolved
    ensures Ordered(Open(st, name))
  {
    forall i, dep | 0 <= i < |st.order| && dep in st.resolved[st.order[i]].deps
      ensures MetBefore(Open(st, name), i, dep)
    {
      assert MetBefore(st, i, dep);
    }
  }

  lemma AppendOrdered(done: Dfs, skill: Skill)
    requires Ordered(done) && skill.name in done.visiting && forall dep :: dep in skill.deps ==> Met(done, dep)
    ensures Ordered(Close(done, skill)) && ClosedBy(Close(done, skill), skill)
  {
    var st := Close(done, skill);
    assert skill.name !in done.resolved;
    forall n | n in st.resolved ensures Listed(st.order, n) {
      if n == skill.name { assert st.order[|done.order|] == n; }
      else { assert Listed(done.order, n); }
    }
    forall i, dep | 0 <= i < |st.order| && dep in st.resolved[st.order[i]].deps
      ensures MetBefore(st, i, dep)
    {
      assert i < |done.order| ==> MetBefore(done, i, dep);
      assert i == |done.order| ==> Met(done, dep) && Listed(done.order, dep.name);
      var j :| 0 <= j < |done.order| && done.order[j] == dep.name && j < i;
      assert st.order[j] == dep.name;
    }
  }

  lemma {:induction false} DepsOrdered(idx: Index, names: set<string>, st: Dfs, deps: seq<Dep>)
    requires idx.Keys <= names && Ordered(st)
    ensures var r := VisitDeps(idx, names, st, deps);
            r.Ok? ==> Ordered(r.value) && forall dep :: dep in deps ==> Met(r.value, dep)
    decreases Unopened(names, st), |deps|
  {
    var r := VisitDeps(idx, names, st, deps);
    if deps != [] && r.Ok? {
      var name, c := deps[0].name, deps[0].constraint;
      var candidate := Select(idx, name, c).skill;
      SelectIsNewestMatch(idx, name, c);
      var st' := Visit(idx, names, st, candidate, Some(c)).value;
      VisitOrdered(idx, names, st, candidate, Some(c));
      DepsOrdered(idx, names, st', deps[1..]);
      assert Met(st', deps[0]);
    }
  }

  // ----- Names reached through plan edges -----

  ghost predicate Edge(resolved: map<string, Skill>, a: string, b: string) {
    a in resolved && exists dep :: dep in resolved[a].deps && dep.name == b
  }

  ghost predicate Path(resolved: map<string, Skill>, p: seq<string>) {
    p != [] && forall k :: 0 <= k < |p| - 1 ==> EdgeAt(resolved, p, k)
  }

  ghost predicate EdgeAt(resolved: map<string, Skill>, p: seq<string>, k: nat)
    requires k + 1 < |p|
  {
    Edge(resolved, p[k], p[k + 1])
  }

  ghost predicate Reaches(resolved: map<string, Skill>, a: string, b: string) {
    exists p :: Path(resolved, p) && p[0] == a && p[|p| - 1] == b
  }

  /** Everything the step from `st` to `st'` resolved is reached from `a`. */
  ghost predicate NewReached(st: Dfs, st': Dfs, a: string) {
    forall n :: n in st'.resolved && n !in st.resolved ==> Reaches(st'.resolved, a, n)
  }

  ghost predicate NewReachedFrom(st: Dfs, st': Dfs, deps: seq<Dep>) {
    forall n :: n in st'.resolved && n !in st.resolved ==>
      exists dep :: dep in deps && Reaches(st'.resolved, dep.name, n)
  }

  lemma ReachesExtends(st: Dfs, st': Dfs, a: string, b: string)
    requires Grows(st, st') && Reaches(st.resolved, a, b)
    ensures Reaches(st'.resolved, a, b)
  {
    var p :| Path(st.resolved, p) && p[0] == a && p[|p| - 1] == b;
    forall k | 0 <= k < |p| - 1 ensures EdgeAt(st'.resolved, p, k) { assert EdgeAt(st.resolved, p, k); }
    assert Path(st'.resolved, p);
  }

  lemma ReachesPrepend(resolved: map<string, Skill>, a: string, b: string, n: string)
    requires Edge(resolved, a, b) && Reaches(resolved, b, n)
    ensures Reaches(resolved, a, n)
  {
    var p :| Path(resolved, p) && p[0] == b && p[|p| - 1] == n;
    var longer := [a] + p;
    forall k | 0 <= k < |p| ensures EdgeAt(resolved, longer, k) {
      if 0 < k { assert EdgeAt(resolved, p, k - 1); }
    }
    assert Path(resolved, longer);
  }

  lemma {:induction false} VisitReached(idx: Index, names: set<string>, st: Dfs, skill: Skill,
      constraint: Option<Constraint>)
    requires idx.Keys <= names && skill.name in names && Ordered(st)
    ensures var r := Visit(idx, names, st, skill, constraint);
            r.Ok? ==> NewReached(st, r.value, skill.name)
    decreases Unopened(names, st), 0
  {
    var r := Visit(idx, names, st, skill, constraint);
    if r.Ok? && skill.name !in st.resolved {
      var open := Open(st, skill.name);
      OpenOrdered(st, skill.name);
      Shrinks(names, st, skill.name);
      DepsReached(idx, names, open, skill.deps);
      DepsOrdered(idx, names, open, skill.deps);
      CloseReached(st, VisitDeps(idx, names, open, skill.deps).value, skill);
    }
  }

  lemma CloseReached(st: Dfs, done: Dfs, skill: Skill)
    requires NewReachedFrom(st, done, skill.deps) && skill.name !in done.resolved
    ensures NewReached(st, Close(done, skill), skill.name)
  {
    var st' := Close(done, skill);
    forall n | n in st'.resolved && n !in st.resolved ensures Reaches(st'.resolved, skill.name, n) {
      if n == skill.name {
        assert Path(st'.resolved, [n]);
      } else {
        var dep :| dep in skill.deps && Reaches(done.resolved, dep.name, n);
        ReachesExtends(done, st'.(visiting := done.visiting), dep.name, n);
        assert Edge(st'.resolved, skill.name, dep.name);
        ReachesPrepend(st'.resolved, skill.name, dep.name, n);
      }
    }
  }

  lemma {:induction false} DepsReached(idx: Index, names: set<string>, st: Dfs, deps: seq<Dep>)
    requires idx.Keys <= names && Ordered(st)
    ensures var r := VisitDeps(idx, names, st, deps);
            r.Ok? ==> NewReachedFrom(st, r.value, deps)
    decreases Unopened(names, st), |deps|
  {
    var r := VisitDeps(idx, names, st, deps);
    if deps != [] && r.Ok? {
      var name, c := deps[0].name, deps[0].constraint;
      var candidate := Select(idx, name, c).skill;
      SelectIsNewestMatch(idx, name, c);
      var st', end := Visit(idx, names, st, candidate, Some(c)).value, r.value;
      VisitReached(idx, names, st, candidate, Some(c));
      VisitOrdered(idx, names, st, candidate, Some(c));
      DepsReached(idx, names, st', deps[1..]);
      forall n | n in end.resolved && n !in st.resolved
        ensures exists dep :: dep in deps && Reaches(end.resolved, dep.name, n)
      {
        if n in st'.resolved {
          ReachesExtends(st', end, name, n);
          assert deps[0] in deps;
        } else {
          var dep :| dep in deps[1..] && Reaches(end.resolved, dep.name, n);
          assert dep in deps;
        }
      }
    }
  }

  lemma {:induction false} PathStaysInPlan(st: Dfs, p: seq<string>)
    requires Ordered(st) && Path(st.resolved, p) && p[0] in st.resolved
    ensures p[|p| - 1] in st.resolved
    decreases |p|
  {
    if 1 < |p| {
      assert EdgeAt(st.resolved, p, 0);
      assert Listed(st.order, p[0]);
      var i :| 0 <= i < |st.order| && st.order[i] == p[0];
      var dep :| dep in st.resolved[p[0]].deps && dep.name == p[1];
      assert MetBefore(st, i, dep);
      forall k | 0 <= k < |p[1..]| - 1 ensures EdgeAt(st.resolved, p[1..], k) {
        assert EdgeAt(st.resolved, p, k + 1);
      }
      PathStaysInPlan(st, p[1..]);
    }
  }

  lemma PlanIsOrdered(idx: Index, root: Skill)
    requires Resolve(idx, root).Ok?
    ensures Ordered(Resolve(idx, root).value) && ClosedBy(Resolve(idx, root).value, root)
  {
    VisitOrdered(idx, Names(idx, root), START, root, None);
  }

  /** Every plan is correct: names distinct, the root last, every edge met strictly earlier at a
      matching version (also edges met after the node was resolved), and the names are exactly
      those reached from the root through plan edges. */
  lemma PlanIsCorrect(idx: Index, root: Skill)
    requires Resolve(idx, root).Ok?
    ensures var st := Resolve(idx, root).value;
            && Ordered(st) && st.visiting == {}
            && st.order != [] && st.order[|st.order| - 1] == root.name && st.resolved[root.name] == root
            && forall n :: n in st.order <==> Reaches(st.resolved, root.name, n)
  {
    var st := Resolve(idx, root).value;
    VisitOrdered(idx, Names(idx, root), START, root, None);
    VisitReached(idx, Names(idx, root), START, root, None);
    forall n | Reaches(st.resolved, root.name, n) ensures n in st.order {
      var p :| Path(st.resolved, p) && p[0] == root.name && p[|p| - 1] == n;
      PathStaysInPlan(st, p);
      assert Listed(st.order, n);
    }
  }

  /** Every dependency of every skill in a plan is met, strictly earlier, by a version that its
      constraint permits. */
  lemma PlanKeepsConstraints(idx: Index, root: Skill, i: nat, dep: Dep)
    requires Resolve(idx, root).Ok? && i < |Resolve(idx, root).value.order|
    requires var st := Resolve(idx, root).value; st.order[i] in st.resolved && dep in st.resolved[st.order[i]].deps
    ensures var st := Resolve(idx, root).value;
            exists j :: 0 <= j < i && st.order[j] == dep.name && dep.name in st.resolved
              && Permitted(st.resolved[dep.name].version, dep.constraint)
  {
    PlanIsCorrect(idx, root);
    var st := Resolve(idx, root).value;
    assert MetBefore(st, i, dep);
    MatchIsPermitted(st.resolved[dep.name].version, dep.constraint);
  }
}
