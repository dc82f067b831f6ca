/** Nested configuration dictionaries: merge, structural diff, and patches made of path settings. */
module ConfigTree {

  /** A scalar or list value, up to the equality that comparison uses. */
  datatype Value = Null | Scalar(text: string)

  datatype Tree = Leaf(value: Value) | Dict(kids: Kids)

  type Kids = map<string, Tree>
  type Path = seq<string>

  const NONE := Leaf(Null)

  // ----- Merge -----

  function MergeTree(base: Tree, update: Tree): Tree
    decreases update, 1
  {
    if base.Dict? && update.Dict? then Dict(Merge(base.kids, update.kids)) else update
  }

  function Merge(base: Kids, updates: Kids): (r: Kids)
    ensures r.Keys == base.Keys + updates.Keys
    decreases Dict(updates), 0
  {
    map k | k in base.Keys + updates.Keys ::
      if k !in updates then base[k]
      else if k !in base then updates[k]
      else MergeTree(base[k], updates[k])
  }

  // ----- Diff -----

  /** Dictionary lookup with a missing key read as None. */
  function Get(m: Kids, k: string): Tree { if k in m then m[k] else NONE }

  predicate Both(was: Kids, now: Kids, k: string) { Get(was, k).Dict? && Get(now, k).Dict? }

  /** The diff of the two dictionaries reports a change at exactly this path. */
  predicate Changed(was: Kids, now: Kids, p: Path)
    decreases |p|
  {
    && p != []
    && if Both(was, now, p[0]) then Changed(Get(was, p[0]).kids, Get(now, p[0]).kids, p[1..])
       else |p| == 1 && Get(was, p[0]) != Get(now, p[0])
  }

  /** The tree at a path, None where there is nothing. */
  function At(m: Kids, p: Path): Tree
    requires p != []
    decreases |p|
  {
    var t := Get(m, p[0]);
    if |p| == 1 then t else if t.Dict? then At(t.kids, p[1..]) else NONE
  }

  lemma {:induction false} ChangesArePrefixFree(was: Kids, now: Kids, p: Path, q: Path)
    requires Changed(was, now, p) && Changed(was, now, q) && p <= q
    ensures p == q
    decreases |p|
  {
    assert q[0] == p[0];
    if Both(was, now, p[0]) {
      ChangesArePrefixFree(Get(was, p[0]).kids, Get(now, p[0]).kids, p[1..], q[1..]);
      assert p == [p[0]] + p[1..] && q == [q[0]] + q[1..];
    }
  }

  // ----- Patches -----

  /** Set one path, replacing whatever is not a dictionary on the way. */
  function SetPath(target: Kids, p: Path, v: Tree): Kids
    decreases |p|
  {
    if p == [] then target
    else if |p| == 1 then target[p[0] := v]
    else
      var child := if Get(target, p[0]).Dict? then Get(target, p[0]).kids else map[];
      target[p[0] := Dict(SetPath(child, p[1..], v))]
  }

  function Tail(sel: set<Path>, k: string): set<Path> {
    set s | s in sel && s != [] && s[0] == k :: s[1..]
  }

  /** Every selected path is a change. */
  ghost predicate Selects(was: Kids, now: Kids, sel: set<Path>) {
    forall p :: p in sel ==> Changed(was, now, p)
  }

  /** The patch that carries the new value of every selected path and nothing else. */
  function PatchOf(was: Kids, now: Kids, sel: set<Path>): Kids
    decreases Dict(was)
  {
    map k | k in was.Keys + now.Keys && Tail(sel, k) != {} ::
      if Both(was, now, k) then Dict(PatchOf(was[k].kids, now[k].kids, Tail(sel, k))) else Get(now, k)
  }

  /** The old tree with the new value at every selected path. */
  function Mix(was: Kids, now: Kids, sel: set<Path>): Kids
    decreases Dict(was)
  {
    map k | k in was.Keys + now.Keys && (k in was || [k] in sel) ::
      if Both(was, now, k) then Dict(Mix(was[k].kids, now[k].kids, Tail(sel, k)))
      else if [k] in sel then Get(now, k) else was[k]
  }

  lemma TailMember(sel: set<Path>, k: string, q: Path)
    ensures q in Tail(sel, k) <==> [k] + q in sel
  {
    assert ([k] + q)[1..] == q;
    forall s | s in sel && s != [] && s[0] == k ensures [k] + s[1..] == s {}
  }

  lemma TailAdd(sel: set<Path>, p: Path, k: string)
    requires p != []
    ensures Tail(sel + {p}, k) == if p[0] == k then Tail(sel, k) + {p[1..]} else Tail(sel, k)
  {
    forall q ensures q in Tail(sel + {p}, k) <==> q in (if p[0] == k then Tail(sel, k) + {p[1..]} else Tail(sel, k)) {
      TailMember(sel + {p}, k, q);
      TailMember(sel, k, q);
      assert p == [p[0]] + p[1..];
      assert ([k] + q)[1..] == q;
    }
  }

  lemma TailSelects(was: Kids, now: Kids, sel: set<Path>, k: string)
    requires Selects(was, now, sel)
    ensures Both(was, now, k) ==> Selects(was[k].kids, now[k].kids, Tail(sel, k))
    ensures !Both(was, now, k) ==> Tail(sel, k) == if [k] in sel then {[]} else {}
  {
    forall q | q in Tail(sel, k)
      ensures [k] + q in sel && (if Both(was, now, k) then Changed(was[k].kids, now[k].kids, q) else q == [])
    {
      TailMember(sel, k, q);
      assert Changed(was, now, [k] + q);
      assert ([k] + q)[1..] == q;
    }
    TailMember(sel, k, []);
    assert [k] + [] == [k];
  }

  lemma ChangedHasKey(was: Kids, now: Kids, p: Path)
    requires Changed(was, now, p)
    ensures p[0] in was.Keys + now.Keys
  {
  }

  lemma {:induction false} PatchOfNothing(was: Kids, now: Kids)
    ensures PatchOf(was, now, {}) == map[]
  {
    assert forall k :: Tail({}, k) == {};
  }

  /** The two dictionaries have the same entry, or none, for key `k`. */
  ghost predicate SameEntry(a: Kids, b: Kids, k: string) {
    (k in a <==> k in b) && (k in a ==> a[k] == b[k])
  }

  lemma OtherEntries(was: Kids, now: Kids, sel: set<Path>, p: Path, k: string)
    requires p != [] && k != p[0]
    ensures SameEntry(PatchOf(was, now, sel), PatchOf(was, now, sel + {p}), k)
  {
    TailAdd(sel, p, k);
  }

  lemma OwnEntry(was: Kids, now: Kids, sel: set<Path>, p: Path)
    requires Selects(was, now, sel) && Changed(was, now, p)
    ensures SameEntry(SetPath(PatchOf(was, now, sel), p, At(now, p)), PatchOf(was, now, sel + {p}), p[0])
    decreases |p|, 0
  {
    var k := p[0];
    TailAdd(sel, p, k);
    ChangedHasKey(was, now, p);
    if Both(was, now, k) {
      var a, b := was[k].kids, now[k].kids;
      TailSelects(was, now, sel, k);
      SetPathExtends(a, b, Tail(sel, k), p[1..]);
      if Tail(sel, k) == {} { PatchOfNothing(a, b); }
    }
  }

  /** Setting one more changed path extends the selection by it: whatever the order in which the
      paths are set, the patch is the same. */
  lemma {:induction false} SetPathExtends(was: Kids, now: Kids, sel: set<Path>, p: Path)
    requires Selects(was, now, sel) && Changed(was, now, p)
    ensures SetPath(PatchOf(was, now, sel), p, At(now, p)) == PatchOf(was, now, sel + {p})
    decreases |p|, 1
  {
    var after, more := SetPath(PatchOf(was, now, sel), p, At(now, p)), PatchOf(was, now, sel + {p});
    forall k ensures SameEntry(after, more, k) {
      if k == p[0] { OwnEntry(was, now, sel, p); } else { OtherEntries(was, now, sel, p, k); }
    }
    SameEntries(after, more);
  }

  lemma SameEntries(a: Kids, b: Kids)
    requires forall k :: SameEntry(a, b, k)
    ensures a == b
  {
    forall k ensures (k in a <==> k in b) && (k in a ==> a[k] == b[k]) { assert SameEntry(a, b, k); }
  }

  lemma {:induction false} MixNothing(was: Kids, now: Kids)
    ensures Mix(was, now, {}) == was
    decreases Dict(was)
  {
    forall k | k in was ensures Mix(was, now, {})[k] == was[k] {
      assert Tail({}, k) == {};
      if Both(was, now, k) { MixNothing(was[k].kids, now[k].kids); }
    }
  }

  /** Merging the patch into the old tree puts the new values at the selected paths. */
  lemma {:induction false} MergePatch(was: Kids, now: Kids, sel: set<Path>)
    requires Selects(was, now, sel)
    ensures Merge(was, PatchOf(was, now, sel)) == Mix(was, now, sel)
    decreases Dict(was)
  {
    var patch, mix := PatchOf(was, now, sel), Mix(was, now, sel);
    forall k | k in was.Keys + now.Keys
      ensures k in was.Keys + patch.Keys <==> k in mix
      ensures k in mix ==> Merge(was, patch)[k] == mix[k]
    {
      TailSelects(was, now, sel, k);
      if Both(was, now, k) {
        if Tail(sel, k) == {} { MixNothing(was[k].kids, now[k].kids); }
        else { MergePatch(was[k].kids, now[k].kids, Tail(sel, k)); }
      } else if [k] in sel {
        assert Changed(was, now, [k]);
      }
    }
  }

  // ----- What a mixed tree is -----

  /** A dictionary on both sides, all the way down to this path. */
  predicate Shared(was: Kids, now: Kids, p: Path)
    decreases |p|
  {
    p == [] || (Both(was, now, p[0]) && Shared(Get(was, p[0]).kids, Get(now, p[0]).kids, p[1..]))
  }

  /** A selected path at or above this one. */
  ghost predicate Under(sel: set<Path>, p: Path) {
    exists q :: q in sel && q <= p
  }

  lemma UnderTail(was: Kids, now: Kids, sel: set<Path>, p: Path)
    requires Selects(was, now, sel) && p != []
    ensures Both(was, now, p[0]) ==> (Under(sel, p) <==> Under(Tail(sel, p[0]), p[1..]))
    ensures !Both(was, now, p[0]) ==> (Under(sel, p) <==> [p[0]] in sel)
  {
    var k := p[0];
    TailSelects(was, now, sel, k);
    forall q | q in Tail(sel, k) && q <= p[1..] ensures Under(sel, p) {
      TailMember(sel, k, q);
      assert [k] + q <= p;
    }
    forall q | q in sel && q <= p ensures q[1..] in Tail(sel, k) && q[1..] <= p[1..] && q == [k] + q[1..] {
      assert Changed(was, now, q);
      TailMember(sel, k, q[1..]);
    }
    if [k] in sel { assert [k] <= p; }
  }

  /** Away from the dictionaries both sides share, a mixed tree has the new value at and below the
      selected paths, and the old value everywhere else. */
  lemma {:induction false} MixAt(was: Kids, now: Kids, sel: set<Path>, p: Path)
    requires Selects(was, now, sel) && p != [] && !Shared(was, now, p)
    ensures At(Mix(was, now, sel), p) == if Under(sel, p) then At(now, p) else At(was, p)
    decreases |p|
  {
    var k := p[0];
    UnderTail(was, now, sel, p);
    TailSelects(was, now, sel, k);
    if Both(was, now, k) {
      assert 1 < |p|;
      MixAt(was[k].kids, now[k].kids, Tail(sel, k), p[1..]);
    } else if [k] in sel {
      ChangedHasKey(was, now, [k]);
    }
  }

  lemma {:induction false} SelfUnchanged(m: Kids, p: Path)
    ensures !Changed(m, m, p)
    decreases |p|
  {
    if p != [] && Both(m, m, p[0]) { SelfUnchanged(m[p[0]].kids, p[1..]); }
  }

  /** What is left to change after a mix is exactly what was not selected. */
  lemma {:induction false} MixLeaves(was: Kids, now: Kids, sel: set<Path>, p: Path)
    requires Selects(was, now, sel)
    ensures Changed(Mix(was, now, sel), now, p) <==> Changed(was, now, p) && p !in sel
    decreases |p|
  {
    if p != [] {
      var k, mix := p[0], Mix(was, now, sel);
      TailSelects(was, now, sel, k);
      TailMember(sel, k, p[1..]);
      assert [k] + p[1..] == p;
      if Both(was, now, k) {
        MixLeaves(was[k].kids, now[k].kids, Tail(sel, k), p[1..]);
      } else if [k] in sel {
        ChangedHasKey(was, now, [k]);
        assert Get(mix, k) == Get(now, k);
        if Get(now, k).Dict? { SelfUnchanged(Get(now, k).kids, p[1..]); }
      } else {
        assert Get(mix, k) == Get(was, k);
      }
    }
  }

  /** Keys are never deleted by a patch, and a new key holding None is never added; the two trees
      must avoid both, at every dictionary they share. */
  predicate Covers(was: Kids, now: Kids)
    decreases Dict(was)
  {
    && was.Keys <= now.Keys
    && (forall k :: k in now && k !in was ==> now[k] != NONE)
    && (forall k :: k in was && k in now && was[k].Dict? && now[k].Dict? ==> Covers(was[k].kids, now[k].kids))
  }

  /** Diff, patch, merge: taking every change gives the new tree back exactly when the new tree
      drops no key and adds no None; it always gives a tree with no difference left to report. */
  lemma {:induction false} RoundTrip(was: Kids, now: Kids, all: set<Path>)
    requires forall p :: p in all <==> Changed(was, now, p)
    ensures Merge(was, PatchOf(was, now, all)) == now <==> Covers(was, now)
    ensures forall p :: !Changed(Merge(was, PatchOf(was, now, all)), now, p)
    decreases Dict(was)
  {
    MergePatch(was, now, all);
    forall p ensures !Changed(Mix(was, now, all), now, p) { MixLeaves(was, now, all, p); }
    MixAll(was, now, all);
  }

  lemma {:induction false} MixAll(was: Kids, now: Kids, all: set<Path>)
    requires forall p :: p in all <==> Changed(was, now, p)
    ensures Mix(was, now, all) == now <==> Covers(was, now)
    decreases Dict(was)
  {
    var mix := Mix(was, now, all);
    forall k | k in was && Both(was, now, k)
      ensures mix[k] == now[k] <==> Covers(was[k].kids, now[k].kids)
    {
      forall p ensures p in Tail(all, k) <==> Changed(was[k].kids, now[k].kids, p) {
        TailMember(all, k, p);
        assert ([k] + p)[1..] == p;
      }
      MixAll(was[k].kids, now[k].kids, Tail(all, k));
    }
    forall k | k in was.Keys + now.Keys && !Both(was, now, k)
      ensures k in mix <==> k in was || Get(now, k) != NONE
      ensures k in mix ==> mix[k] == Get(now, k)
    {
      assert [k] in all <==> Changed(was, now, [k]);
    }
    assert forall k :: k in was ==> k in mix;
    if Covers(was, now) {
      forall k | k in now ensures k in mix && mix[k] == now[k] {}
      assert mix == now;
    }
  }
}
