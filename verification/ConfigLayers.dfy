/** Layered precedence: the algebra of the deep merge. */
module ConfigLayers {
  import opened ConfigTree

  /** The empty layer changes nothing on either side, and applying a layer twice is applying it once. */
  lemma {:induction false} MergeIdentity(a: Kids)
    ensures Merge(map[], a) == a && Merge(a, map[]) == a && Merge(a, a) == a
    decreases Dict(a)
  {
    forall k | k in a ensures MergeTree(a[k], a[k]) == a[k] {
      if a[k].Dict? { MergeIdentity(a[k].kids); }
    }
  }

  /** Everything in `a` is overridden by `c`. */
  predicate Absorbed(a: Kids, c: Kids)
    decreases Dict(c)
  {
    a.Keys <= c.Keys
    && forall k :: k in c && k in a && a[k].Dict? && c[k].Dict? ==> Absorbed(a[k].kids, c[k].kids)
  }

  lemma {:induction false} AbsorbedMeansOverridden(a: Kids, c: Kids)
    ensures Merge(a, c) == c <==> Absorbed(a, c)
    decreases Dict(c)
  {
    forall k | k in c && k in a && a[k].Dict? && c[k].Dict?
      ensures Merge(a, c)[k] == c[k] <==> Absorbed(a[k].kids, c[k].kids)
    {
      AbsorbedMeansOverridden(a[k].kids, c[k].kids);
    }
    if Absorbed(a, c) {
      forall k | k in c ensures Merge(a, c)[k] == c[k] {}
    }
  }

  /** Where the middle layer puts a value between two dictionaries, the outer one must be covered. */
  predicate Layered(a: Kids, b: Kids, c: Kids)
    decreases Dict(c), 0
  {
    forall k :: k in c && k in a && k in b ==> LayeredTree(a[k], b[k], c[k])
  }

  predicate LayeredTree(x: Tree, y: Tree, z: Tree)
    decreases z, 1
  {
    x.Dict? && z.Dict? ==> if y.Dict? then Layered(x.kids, y.kids, z.kids) else Absorbed(x.kids, z.kids)
  }

  lemma {:induction false} TreeAssociative(x: Tree, y: Tree, z: Tree)
    ensures MergeTree(MergeTree(x, y), z) == MergeTree(x, MergeTree(y, z)) <==> LayeredTree(x, y, z)
    decreases z, 2
  {
    if x.Dict? && z.Dict? {
      if y.Dict? { MergeAssociative(x.kids, y.kids, z.kids); } else { AbsorbedMeansOverridden(x.kids, z.kids); }
    }
  }

  lemma {:induction false} AssociativeAt(a: Kids, b: Kids, c: Kids, k: string)
    requires k in a.Keys + b.Keys + c.Keys
    ensures Merge(Merge(a, b), c)[k] == Merge(a, Merge(b, c))[k]
         <==> (k in a && k in b && k in c ==> LayeredTree(a[k], b[k], c[k]))
    decreases Dict(c), 0
  {
    var left, right := Merge(Merge(a, b), c), Merge(a, Merge(b, c));
    if k in a && k in b && k in c {
      TreeAssociative(a[k], b[k], c[k]);
      assert left[k] == MergeTree(MergeTree(a[k], b[k]), c[k]);
      assert right[k] == MergeTree(a[k], MergeTree(b[k], c[k]));
    } else if k !in c {
      assert left[k] == Merge(a, b)[k];
    } else if k !in a {
      assert left[k] == Merge(b, c)[k];
    } else {
      assert left[k] == MergeTree(a[k], c[k]);
    }
  }

  /** Merging three layers does not depend on the grouping exactly when no value of the middle
      layer hides a dictionary of the lowest from one of the highest that leaves part of it out. */
  lemma {:induction false} MergeAssociative(a: Kids, b: Kids, c: Kids)
    ensures Merge(Merge(a, b), c) == Merge(a, Merge(b, c)) <==> Layered(a, b, c)
    decreases Dict(c), 1
  {
    var left, right := Merge(Merge(a, b), c), Merge(a, Merge(b, c));
    assert left.Keys == right.Keys;
    forall k | k in left
      ensures left[k] == right[k] <==> (k in a && k in b && k in c ==> LayeredTree(a[k], b[k], c[k]))
    {
      AssociativeAt(a, b, c, k);
    }
    if Layered(a, b, c) { assert forall k :: k in left ==> left[k] == right[k]; }
  }

  /** What one layer says about a path: the tree there; nothing, the key at index `depth` being
      absent; or a value at index `depth` where the path needs a dictionary. */
  datatype Look = Found(tree: Tree) | Silent(depth: nat) | Blocked(depth: nat)

  function Deeper(l: Look): Look {
    match l
    case Found(_) => l
    case Silent(n) => Silent(n + 1)
    case Blocked(n) => Blocked(n + 1)
  }

  function LookUp(m: Kids, p: Path): Look
    requires p != []
    decreases |p|
  {
    if p[0] !in m then Silent(0)
    else if |p| == 1 then Found(m[p[0]])
    else if m[p[0]].Dict? then Deeper(LookUp(m[p[0]].kids, p[1..]))
    else Blocked(0)
  }

  /** The dictionary that the first `n` keys of a path lead to, if they do. */
  function DictAlong(m: Kids, p: Path, n: nat): (d: (bool, Kids))
    requires n <= |p|
  {
    if n == 0 then (true, m)
    else
      var (found, d) := DictAlong(m, p, n - 1);
      if found && p[n - 1] in d && d[p[n - 1]].Dict? then (true, d[p[n - 1]].kids) else (false, map[])
  }

  lemma {:induction false} DictAlongFirst(m: Kids, p: Path, n: nat)
    requires 0 < n <= |p| && p[0] in m && m[p[0]].Dict?
    ensures DictAlong(m, p, n) == DictAlong(m[p[0]].kids, p[1..], n - 1)
  {
    if 1 < n { DictAlongFirst(m, p, n - 1); }
  }

  /** A lookup finds exactly what is at the end of the path; else it tells the first key on the way
      that is missing, or under which there is no dictionary. */
  lemma {:induction false} LookUpMeans(m: Kids, p: Path)
    requires p != []
    ensures match LookUp(m, p)
            case Found(t) =>
              var (found, d) := DictAlong(m, p, |p| - 1);
              found && p[|p| - 1] in d && d[p[|p| - 1]] == t
            case Silent(n) =>
              n < |p| && var (found, d) := DictAlong(m, p, n); found && p[n] !in d
            case Blocked(n) =>
              n + 1 < |p| && var (found, d) := DictAlong(m, p, n); found && p[n] in d && d[p[n]].Leaf?
    decreases |p|
  {
    var k := p[0];
    if 1 < |p| && k in m && m[k].Dict? {
      LookUpMeans(m[k].kids, p[1..]);
      forall n: nat | 0 < n <= |p| ensures DictAlong(m, p, n) == DictAlong(m[k].kids, p[1..], n - 1) {
        DictAlongFirst(m, p, n);
      }
    }
  }

  /** A higher layer over a lower one, path by path. */
  function Over(lower: Look, higher: Look): Look {
    match higher
    case Found(t) => if lower.Found? then Found(MergeTree(lower.tree, t)) else higher
    case Blocked(_) => higher
    case Silent(n) =>
      if lower.Found? then lower
      else if lower.depth < n then higher
      else lower
  }

  lemma {:induction false} LookUpMerge(a: Kids, b: Kids, p: Path)
    requires p != []
    ensures LookUp(Merge(a, b), p) == Over(LookUp(a, p), LookUp(b, p))
    decreases |p|
  {
    var k := p[0];
    if 1 < |p| && k in a && k in b && a[k].Dict? && b[k].Dict? {
      LookUpMerge(a[k].kids, b[k].kids, p[1..]);
      assert Merge(a, b)[k] == Dict(Merge(a[k].kids, b[k].kids));
    }
  }

  /** A lookup in the merged settings is decided by the overrides, then the environment, then the
      file; a value found in a higher layer always wins. */
  lemma Precedence(yaml: Kids, env: Kids, overrides: Kids, p: Path)
    requires p != []
    ensures var merged := Merge(Merge(yaml, env), overrides);
            var (y, e, o) := (LookUp(yaml, p), LookUp(env, p), LookUp(overrides, p));
            && LookUp(merged, p) == Over(Over(y, e), o)
            && (o.Found? && o.tree.Leaf? ==> LookUp(merged, p) == o)
            && (o == Silent(0) && e.Found? && e.tree.Leaf? ==> LookUp(merged, p) == e)
            && (o == Silent(0) && e == Silent(0) ==> LookUp(merged, p) == y)
  {
    LookUpMerge(yaml, env, p);
    LookUpMerge(Merge(yaml, env), overrides, p);
  }

  /** Every lookup in `raw` is decided by the overrides, then the environment, then the file. */
  ghost predicate Decided(raw: Kids, yaml: Kids, env: Kids, overrides: Kids) {
    forall p: Path :: p != [] ==> DecidedAt(raw, yaml, env, overrides, p)
  }

  ghost predicate DecidedAt(raw: Kids, yaml: Kids, env: Kids, overrides: Kids, p: Path)
    requires p != []
  {
    LookUp(raw, p) == Over(Over(LookUp(yaml, p), LookUp(env, p)), LookUp(overrides, p))
  }

  lemma MergeIsDecided(yaml: Kids, env: Kids, overrides: Kids)
    ensures Decided(Merge(Merge(yaml, env), overrides), yaml, env, overrides)
  {
    forall p: Path | p != [] ensures DecidedAt(Merge(Merge(yaml, env), overrides), yaml, env, overrides, p) {
      Precedence(yaml, env, overrides, p);
    }
  }

  /** The layers leave only one such tree. */
  lemma DecidedIsUnique(raw: Kids, other: Kids, yaml: Kids, env: Kids, overrides: Kids)
    requires Decided(raw, yaml, env, overrides) && Decided(other, yaml, env, overrides)
    ensures raw == other
  {
    forall k ensures k in raw <==> k in other
      ensures k in raw ==> raw[k] == other[k]
    {
      assert DecidedAt(raw, yaml, env, overrides, [k]) && DecidedAt(other, yaml, env, overrides, [k]);
    }
  }
}
