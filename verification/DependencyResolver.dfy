/** The depth-first dependency resolver: its specification function and the imperative resolver
    that computes it. */
module DependencyResolver {
  import opened Options
  import opened Versions

  datatype Error =
    | Circular(name: string)
    | Missing(name: string)
    | NoVersion(name: string, constraint: Constraint)
    | Conflict(skill: Skill, constraint: Constraint)

  /** The resolver's working state; a resolved node carries its skill. */
  datatype Dfs = Dfs(visiting: set<string>, resolved: map<string, Skill>, order: seq<string>)

  datatype Result<+T> = Ok(value: T) | Err(error: Error)

  predicate Satisfied(skill: Skill, constraint: Option<Constraint>) {
    constraint.Some? ==> Match(skill.version, constraint.value)
  }

  /** Names the walk can open: those in the index, and the root. */
  function Names(idx: Index, root: Skill): set<string> { idx.Keys + {root.name} }

  function Unopened(names: set<string>, st: Dfs): set<string> { names - st.visiting - st.resolved.Keys }

  function Open(st: Dfs, name: string): Dfs { st.(visiting := st.visiting + {name}) }

  function Close(st: Dfs, skill: Skill): Dfs {
    Dfs(st.visiting - {skill.name}, st.resolved[skill.name := skill], st.order + [skill.name])
  }

  /** `st'` adds resolved skills to `st` and changes nothing else. */
  predicate Grows(st: Dfs, st': Dfs) {
    && st'.visiting == st.visiting && st.order <= st'.order
    && forall n :: n in st.resolved ==> n in st'.resolved && st'.resolved[n] == st.resolved[n]
  }

  /** Visit one skill.  Termination: names that are neither open nor resolved. */
  function Visit(idx: Index, names: set<string>, st: Dfs, skill: Skill,
                 constraint: Option<Constraint>): (r: Result<Dfs>)
    requires idx.Keys <= names && skill.name in names
    ensures r.Ok? ==> Grows(st, r.value)
    decreases Unopened(names, st), 0
  {
    var name := skill.name;
    if name in st.resolved then
      if Satisfied(st.resolved[name], constraint) then Ok(st) else Err(Conflict(st.resolved[name], constraint.value))
    else if name in st.visiting then Err(Circular(name))
    else if !Satisfied(skill, constraint) then Err(Conflict(skill, constraint.value))
    else
      Shrinks(names, st, name);
      var r := VisitDeps(idx, names, Open(st, name), skill.deps);
      if r.Err? then r else Ok(Close(r.value, skill))
  }

  function VisitDeps(idx: Index, names: set<string>, st: Dfs, deps: seq<Dep>): (r: Result<Dfs>)
    requires idx.Keys <= names
    ensures r.Ok? ==> Grows(st, r.value)
    decreases Unopened(names, st), |deps|
  {
    if deps == [] then Ok(st)
    else
      var choice := Select(idx, deps[0].name, deps[0].constraint);
      match choice
      case NoCandidate => Err(Missing(deps[0].name))
      case NoneMatch => Err(NoVersion(deps[0].name, deps[0].constraint))
      case Chosen(candidate) =>
        SelectIsNewestMatch(idx, deps[0].name, deps[0].constraint);
        var r := Visit(idx, names, st, candidate, Some(deps[0].constraint));
        if r.Err? then r
        else
          VisitDeps(idx, names, r.value, deps[1..])
  }

  lemma Shrinks(names: set<string>, st: Dfs, name: string)
    requires name in Unopened(names, st)
    ensures Unopened(names, Open(st, name)) < Unopened(names, st)
  {
    assert name !in Unopened(names, Open(st, name));
  }

  lemma FewerUnopened(names: set<string>, st: Dfs, st': Dfs)
    requires Grows(st, st')
    ensures Unopened(names, st') <= Unopened(names, st)
  {
  }

  /** One turn of the loop over dependencies. */
  lemma DepsTurn(idx: Index, names: set<string>, st: Dfs, deps: seq<Dep>, i: nat)
    requires idx.Keys <= names && i < |deps|
    ensures var dep := deps[i];
            match Select(idx, dep.name, dep.constraint)
            case NoCandidate => VisitDeps(idx, names, st, deps[i..]) == Err(Missing(dep.name))
            case NoneMatch => VisitDeps(idx, names, st, deps[i..]) == Err(NoVersion(dep.name, dep.constraint))
            case Chosen(candidate) =>
              candidate.name in names
              && match Visit(idx, names, st, candidate, Some(dep.constraint))
                 case Ok(st') => VisitDeps(idx, names, st, deps[i..]) == VisitDeps(idx, names, st', deps[i + 1..])
                 case Err(e) => VisitDeps(idx, names, st, deps[i..]) == Err(e)
  {
    SelectIsNewestMatch(idx, deps[i].name, deps[i].constraint);
    assert deps[i..][1..] == deps[i + 1..];
  }

  const START := Dfs({}, map[], [])

  /** The install plan: the resolved skills, dependencies first. */
  function Resolve(idx: Index, root: Skill): Result<Dfs> {
    Visit(idx, Names(idx, root), START, root, None)
  }

  function Plan(st: Dfs): (r: seq<Skill>)
    requires forall n :: n in st.order ==> n in st.resolved
  {
    seq(|st.order|, i requires 0 <= i < |st.order| => st.resolved[st.order[i]])
  }

  /** The resolver object: `Visit` updates the sets, the map and the order in place. */
  class Resolver {
    const idx: Index
    var visiting: set<string>
    var visited: set<string>
    var resolved: map<string, Skill>
    var order: seq<string>

    ghost predicate Valid()
      reads this
    {
      visited == resolved.Keys && forall i :: 0 <= i < |order| ==> order[i] in resolved
    }

    ghost function State(): Dfs
      reads this
    {
      Dfs(visiting, resolved, order)
    }

    constructor (idx: Index)
      ensures this.idx == idx && Valid() && State() == START
    {
      this.idx := idx;
      visiting, visited, resolved, order := {}, {}, map[], [];
    }

    method VisitSkill(ghost names: set<string>, skill: Skill,
                      constraint: Option<Constraint>) returns (err: Option<Error>)
      requires Valid() && idx.Keys <= names && skill.name in names
      modifies this
      ensures Agrees(Visit(idx, names, old(State()), skill, constraint), err)
      decreases Unopened(names, State()), 0
    {
      var name := skill.name;
      if name in visited {
        if !Satisfied(resolved[name], constraint) { return Some(Conflict(resolved[name], constraint.value)); }
        return None;
      }
      if name in visiting { return Some(Circular(name)); }
      ghost var before := State();
      visiting := visiting + {name};
      assert State() == Open(before, name);
      if !Satisfied(skill, constraint) { return Some(Conflict(skill, constraint.value)); }
      Shrinks(names, before, name);
      err := VisitAll(names, skill.deps);
      if err.Some? { return; }
      MarkResolved(skill);
    }

    method MarkResolved(skill: Skill)
      requires Valid()
      modifies this
      ensures Valid() && State() == Close(old(State()), skill)
    {
      var name := skill.name;
      visiting := visiting - {name};
      visited := visited + {name};
      resolved := resolved[name := skill];
      order := order + [name];
    }

    /** The loop over a skill's dependencies. */
    method VisitAll(ghost names: set<string>, deps: seq<Dep>) returns (err: Option<Error>)
      requires Valid() && idx.Keys <= names
      modifies this
      ensures Agrees(VisitDeps(idx, names, old(State()), deps), err)
      decreases Unopened(names, State()), 1
    {
      ghost var open := State();
      assert deps[0..] == deps;
      for i := 0 to |deps|
        invariant Valid() && Unopened(names, State()) <= Unopened(names, open)
        invariant VisitDeps(idx, names, open, deps) == VisitDeps(idx, names, State(), deps[i..])
      {
        var dep := deps[i];
        ghost var st := State();
        DepsTurn(idx, names, st, deps, i);
        var choice := Select(idx, dep.name, dep.constraint);
        if choice.NoCandidate? { return Some(Missing(dep.name)); }
        if choice.NoneMatch? { return Some(NoVersion(dep.name, dep.constraint)); }
        err := VisitSkill(names, choice.skill, Some(dep.constraint));
        if err.Some? { return; }
        FewerUnopened(names, st, State());
      }
      err := None;
    }

    /** On success the fields hold the state the specification reaches; on failure the same error. */
    ghost predicate Agrees(r: Result<Dfs>, err: Option<Error>)
      reads this
    {
      match r
      case Ok(st) => err == None && Valid() && State() == st
      case Err(e) => err == Some(e)
    }
  }

  /** `resolve`: a fresh walk from the root, returning the plan or the error it raised. */
  method ResolvePlan(idx: Index, root: Skill) returns (r: Result<seq<Skill>>)
    ensures match Resolve(idx, root)
            case Ok(st) => (forall n :: n in st.order ==> n in st.resolved) && r == Ok(Plan(st))
            case Err(e) => r == Err(e)
  {
    var resolver := new Resolver(idx);
    var err := resolver.VisitSkill(Names(idx, root), root, None);
    if err.Some? { return Err(err.value); }
    var plan := [];
    for i := 0 to |resolver.order|
      invariant |plan| == i
      invariant forall j :: 0 <= j < i ==> plan[j] == resolver.resolved[resolver.order[j]]
    {
      plan := plan + [resolver.resolved[resolver.order[i]]];
    }
    assert plan == Plan(resolver.State());
    r := Ok(plan);
  }
}
