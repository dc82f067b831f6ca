/** What the resolver's errors prove about the index. */
module DependencyErrors {
  import opened Options
  import opened Versions
  import opened DependencyResolver

  /** `b` is the candidate selected for one of `a`'s dependencies. */
  ghost predicate Picks(idx: Index, a: Skill, b: Skill) {
    exists dep :: dep in a.deps && Select(idx, dep.name, dep.constraint) == Chosen(b)
  }

  /** A chain of selections starting at the root. */
  ghost predicate Chain(idx: Index, root: Skill, chain: seq<Skill>) {
    && chain != [] && chain[0] == root
    && forall k :: 0 <= k < |chain| - 1 ==> PicksNext(idx, chain, k)
  }

  ghost predicate PicksNext(idx: Index, chain: seq<Skill>, k: nat)
    requires k + 1 < |chain|
  {
    Picks(idx, chain[k], chain[k + 1])
  }

  ghost predicate Explains(idx: Index, root: Skill, chain: seq<Skill>, e: Error) {
    && Chain(idx, root, chain)
    && var last := chain[|chain| - 1];
       match e
       // the chain of selected skills returns to a name still open on it
       case Circular(n) => last.name == n && exists k :: 0 <= k < |chain| - 1 && chain[k].name == n
       // a selected skill needs a name that has no candidate
       case Missing(n) => exists dep :: dep in last.deps && dep.name == n && Candidates(idx, n) == []
       // a selected skill needs a version that no candidate has
       case NoVersion(n, c) =>
         Dep(n, c) in last.deps && Candidates(idx, n) != []
         && forall s :: s in Candidates(idx, n) ==> !Match(s.version, c)
       // a selected skill needs another version of a skill that was itself selected
       case Conflict(s, c) =>
         Dep(s.name, c) in last.deps && !Match(s.version, c) && Selected(idx, root, s)
         && exists other :: other != s && Select(idx, s.name, c) == Chosen(other)
  }

  ghost predicate Explained(idx: Index, root: Skill, e: Error) {
    exists chain :: Explains(idx, root, chain, e)
  }

  /** `s` was selected for an edge of a chain of selections. */
  ghost predicate Selected(idx: Index, root: Skill, s: Skill) {
    exists chain :: Chain(idx, root, chain) && 2 <= |chain| && chain[|chain| - 1] == s
  }

  ghost predicate AllSelected(idx: Index, root: Skill, st: Dfs) {
    forall n :: n in st.resolved ==> st.resolved[n].name == n && Selected(idx, root, st.resolved[n])
  }

  /** The open names are those of the chain from the root to the skill being visited. */
  ghost predicate OpenAre(st: Dfs, chain: seq<Skill>) {
    forall n :: n in st.visiting <==> exists k :: 0 <= k < |chain| && chain[k].name == n
  }

  lemma ChainGrows(idx: Index, root: Skill, chain: seq<Skill>, dep: Dep, next: Skill)
    requires Chain(idx, root, chain) && dep in chain[|chain| - 1].deps
    requires Select(idx, dep.name, dep.constraint) == Chosen(next)
    ensures Chain(idx, root, chain + [next])
  {
    var longer, n := chain + [next], |chain| - 1;
    forall k | 0 <= k < n + 1 ensures PicksNext(idx, longer, k) {
      if k < n { assert PicksNext(idx, chain, k); } else { assert longer[k] == chain[n] && longer[k + 1] == next; }
    }
  }

  lemma OpenGrows(st: Dfs, chain: seq<Skill>, next: Skill)
    requires OpenAre(st, chain)
    ensures OpenAre(Open(st, next.name), chain + [next])
  {
    var longer := chain + [next];
    forall n | n in Open(st, next.name).visiting ensures exists k :: 0 <= k < |longer| && longer[k].name == n {
      if n == next.name { assert longer[|chain|].name == n; }
      else {
        var k :| 0 <= k < |chain| && chain[k].name == n;
        assert longer[k].name == n;
      }
    }
  }

  lemma CircularExplained(idx: Index, root: Skill, chain: seq<Skill>, k: nat)
    requires Chain(idx, root, chain) && k < |chain| - 1 && chain[k].name == chain[|chain| - 1].name
    ensures Explained(idx, root, Circular(chain[|chain| - 1].name))
  {
    assert Explains(idx, root, chain, Circular(chain[|chain| - 1].name));
  }

  lemma ChoiceExplained(idx: Index, root: Skill, chain: seq<Skill>, dep: Dep)
    requires Chain(idx, root, chain) && dep in chain[|chain| - 1].deps
    ensures Select(idx, dep.name, dep.constraint) == NoCandidate ==> Explained(idx, root, Missing(dep.name))
    ensures Select(idx, dep.name, dep.constraint) == NoneMatch
        ==> Explained(idx, root, NoVersion(dep.name, dep.constraint))
  {
    SelectIsNewestMatch(idx, dep.name, dep.constraint);
    assert dep == Dep(dep.name, dep.constraint);
    match Select(idx, dep.name, dep.constraint)
    case NoCandidate => assert Explains(idx, root, chain, Missing(dep.name));
    case NoneMatch => assert Explains(idx, root, chain, NoVersion(dep.name, dep.constraint));
    case _ =>
  }

  lemma ConflictExplained(idx: Index, root: Skill, chain: seq<Skill>, dep: Dep, s: Skill, other: Skill)
    requires Chain(idx, root, chain) && dep in chain[|chain| - 1].deps && dep.name == s.name
    requires Selected(idx, root, s) && !Match(s.version, dep.constraint)
    requires Select(idx, dep.name, dep.constraint) == Chosen(other)
    ensures Explained(idx, root, Conflict(s, dep.constraint))
  {
    SelectIsNewestMatch(idx, dep.name, dep.constraint);
    assert dep == Dep(s.name, dep.constraint);
    assert Explains(idx, root, chain, Conflict(s, dep.constraint));
  }

  lemma CloseSelected(idx: Index, root: Skill, done: Dfs, skill: Skill, chain: seq<Skill>)
    requires AllSelected(idx, root, done) && Chain(idx, root, chain) && 2 <= |chain| && chain[|chain| - 1] == skill
    ensures AllSelected(idx, root, Close(done, skill))
  {
    assert Selected(idx, root, skill);
  }

  lemma {:induction false} VisitExplained(idx: Index, names: set<string>, root: Skill, st: Dfs, dep: Dep,
      skill: Skill, chain: seq<Skill>)
    requires idx.Keys <= names && skill.name in names
    requires Chain(idx, root, chain) && dep in chain[|chain| - 1].deps
        && Select(idx, dep.name, dep.constraint) == Chosen(skill)
    requires OpenAre(st, chain) && AllSelected(idx, root, st)
    ensures match Visit(idx, names, st, skill, Some(dep.constraint))
            case Ok(st') => AllSelected(idx, root, st')
            case Err(e) => Explained(idx, root, e)
    decreases Unopened(names, st), 0
  {
    assert skill.name == dep.name && Match(skill.version, dep.constraint) by {
      SelectIsNewestMatch(idx, dep.name, dep.constraint);
    }
    var next := chain + [skill];
    ChainGrows(idx, root, chain, dep, skill);
    if skill.name in st.resolved {
      var s := st.resolved[skill.name];
      if !Match(s.version, dep.constraint) { ConflictExplained(idx, root, chain, dep, s, skill); }
    } else if skill.name in st.visiting {
      var k :| 0 <= k < |chain| && chain[k].name == skill.name;
      assert next[k] == chain[k];
      CircularExplained(idx, root, next, k);
    } else {
      Shrinks(names, st, skill.name);
      OpenGrows(st, chain, skill);
      DepsExplained(idx, names, root, Open(st, skill.name), skill.deps, next);
      var r := VisitDeps(idx, names, Open(st, skill.name), skill.deps);
      if r.Ok? { CloseSelected(idx, root, r.value, skill, next); }
    }
  }

  lemma {:induction false} DepsExplained(idx: Index, names: set<string>, root: Skill, st: Dfs, deps: seq<Dep>,
      chain: seq<Skill>)
    requires idx.Keys <= names
    requires Chain(idx, root, chain) && forall i :: 0 <= i < |deps| ==> deps[i] in chain[|chain| - 1].deps
    requires OpenAre(st, chain) && AllSelected(idx, root, st)
    ensures match VisitDeps(idx, names, st, deps)
            case Ok(st') => AllSelected(idx, root, st')
            case Err(e) => Explained(idx, root, e)
    decreases Unopened(names, st), |deps|
  {
    if deps != [] {
      var dep := deps[0];
      ChoiceExplained(idx, root, chain, dep);
      var choice := Select(idx, dep.name, dep.constraint);
      if choice.Chosen? {
        SelectIsNewestMatch(idx, dep.name, dep.constraint);
        VisitExplained(idx, names, root, st, dep, choice.skill, chain);
        var r := Visit(idx, names, st, choice.skill, Some(dep.constraint));
        if r.Ok? { DepsExplained(idx, names, root, r.value, deps[1..], chain); }
      }
    }
  }

  /** Every error the resolver raises is real: it comes with a chain of selections from the root
      that shows it, and every skill of a plan other than the root was selected on such a chain. */
  lemma OutcomeIsExplained(idx: Index, root: Skill)
    ensures match Resolve(idx, root)
            case Ok(st) => forall n :: n in st.resolved && n != root.name ==> Selected(idx, root, st.resolved[n])
            case Err(e) => Explained(idx, root, e)
  {
    var names := Names(idx, root);
    var open := Open(START, root.name);
    assert Chain(idx, root, [root]);
    assert OpenAre(open, [root]) by { assert [root][0].name == root.name; }
    DepsExplained(idx, names, root, open, root.deps, [root]);
  }
}
