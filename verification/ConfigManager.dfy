/** Dotted paths and the configuration manager: load, and hot reload. */
module ConfigManager {
  import opened ConfigTree
  import opened ConfigLayers
  import opened Options

  // ----- Dotted paths -----

  /** The text for a key below what `prefix` writes. */
  function Extend(prefix: string, k: string): string { if prefix == "" then k else prefix + "." + k }

  function WrittenFrom(prefix: string, p: Path): string
    decreases |p|
  {
    if p == [] then prefix else WrittenFrom(Extend(prefix, p[0]), p[1..])
  }

  /** A path as the diff reports it. */
  function Written(p: Path): string { WrittenFrom("", p) }

  function Word(w: string): Path { if w == "" then [] else [w] }

  /** The non-empty parts between dots; `word` is the part being read. */
  function SplitFrom(s: string, word: string): Path {
    if s == "" then Word(word)
    else if s[0] == '.' then Word(word) + SplitFrom(s[1..], "")
    else SplitFrom(s[1..], word + [s[0]])
  }

  function Split(s: string): Path { SplitFrom(s, "") }

  predicate CleanKey(k: string) { k != "" && '.' !in k }

  predicate CleanPath(p: Path) { forall i :: 0 <= i < |p| ==> CleanKey(p[i]) }

  lemma {:induction false} SplitIsClean(s: string, word: string)
    requires '.' !in word
    ensures CleanPath(SplitFrom(s, word))
  {
    if s != "" {
      if s[0] == '.' { SplitIsClean(s[1..], ""); } else { SplitIsClean(s[1..], word + [s[0]]); }
    }
  }

  lemma {:induction false} SplitWord(w: string, rest: string, word: string)
    requires '.' !in w
    ensures SplitFrom(w + rest, word) == SplitFrom(rest, word + w)
  {
    if w == "" {
      assert w + rest == rest && word + w == word;
    } else {
      assert (w + rest)[1..] == w[1..] + rest;
      SplitWord(w[1..], rest, word + [w[0]]);
      assert word + [w[0]] + w[1..] == word + w;
    }
  }

  lemma {:induction false} WrittenBelow(prefix: string, p: Path)
    requires CleanPath(p) && prefix != "" && p != []
    ensures WrittenFrom(prefix, p) == prefix + "." + Written(p)
    decreases |p|
  {
    var k, rest := p[0], p[1..];
    assert Written(p) == WrittenFrom(k, rest) && WrittenFrom(prefix, p) == WrittenFrom(prefix + "." + k, rest);
    if 1 < |p| {
      WrittenBelow(prefix + "." + k, rest);
      WrittenBelow(k, rest);
      assert prefix + "." + k + "." + Written(rest) == prefix + "." + (k + "." + Written(rest));
    }
  }

  lemma {:induction false} SplitWrittenClean(p: Path)
    requires CleanPath(p)
    ensures Split(Written(p)) == p
  {
    if p != [] {
      var rest := if |p| == 1 then "" else "." + Written(p[1..]);
      if 1 < |p| { WrittenBelow(p[0], p[1..]); }
      assert Written(p) == WrittenFrom(p[0], p[1..]);
      assert p[0] + rest == Written(p);
      SplitWord(p[0], rest, "");
      assert "" + p[0] == p[0];
      if |p| == 1 {
        assert p == [p[0]];
      } else {
        assert rest[1..] == Written(p[1..]);
        SplitWrittenClean(p[1..]);
        assert SplitFrom(rest, p[0]) == Word(p[0]) + Split(Written(p[1..]));
        assert p == [p[0]] + p[1..];
      }
    }
  }

  /** A path survives being written with dots and split again exactly when no key on it is empty
      or contains a dot. */
  lemma SplitWritten(p: Path)
    ensures Split(Written(p)) == p <==> CleanPath(p)
  {
    SplitIsClean(Written(p), "");
    if CleanPath(p) { SplitWrittenClean(p); }
  }

  lemma {:induction false} WrittenGrows(prefix: string, q: Path, p: Path)
    requires q <= p
    ensures prefix <= WrittenFrom(prefix, q) <= WrittenFrom(prefix, p)
    decreases |p|
  {
    if p != [] {
      var k := p[0];
      WrittenGrows(Extend(prefix, k), if q == [] then [] else q[1..], p[1..]);
    }
  }

  // ----- Hot-reloadable paths -----

  const HOT_PREFIXES: seq<string> := ["governance", "security", "triggers", "agent.heartbeat_interval_minutes"]

  /** The written path starts, as a string, with one of the prefixes. */
  predicate Hot(path: string) {
    exists h :: h in HOT_PREFIXES && h <= path
  }

  /** The text of a path after its first key: nothing, or a dot and more. */
  lemma FirstKey(p: Path) returns (rest: string)
    requires CleanPath(p) && p != []
    ensures Written(p) == p[0] + rest && if |p| == 1 then rest == "" else rest == "." + Written(p[1..])
  {
    assert Written(p) == WrittenFrom(p[0], p[1..]);
    if |p| == 1 {
      assert p[1..] == [];
      rest := "";
    } else {
      WrittenBelow(p[0], p[1..]);
      rest := "." + Written(p[1..]);
    }
  }

  /** A beginning without dots lies within the first key. */
  lemma DotlessPrefix(h: string, k: string, rest: string)
    requires '.' !in h && (rest == "" || rest[0] == '.')
    ensures h <= k + rest <==> h <= k
  {
    if |k| < |h| && rest != "" { assert (k + rest)[|k|] == '.' && h[|k|] != '.'; }
  }

  lemma DottedPrefix(a: string, b: string, k: string, rest: string)
    requires '.' !in a && '.' !in k && (rest == "" || rest[0] == '.')
    ensures a + "." + b <= k + rest <==> k == a && rest != "" && b <= rest[1..]
  {
    var h, w := a + "." + b, k + rest;
    assert h[|a|] == '.';
    if |a| < |k| {
      assert w[|a|] != '.';
    } else if |k| < |a| {
      assert h[|k|] != '.' && (rest != "" ==> w[|k|] == '.');
    } else {
      assert h[..|a|] == a && w[..|a|] == k;
      assert h[|a| + 1..] == b && (rest != "" ==> w[|a| + 1..] == rest[1..]);
      if h <= w { assert w[..|a|] == h[..|a|] && w[|a| + 1..|h|] == b; }
      if k == a && rest != "" && b <= rest[1..] { assert w[..|h|] == h; }
    }
  }

  /** The hot paths: a first key that begins with one of three names, or below `agent` a key that
      begins with `heartbeat_interval_minutes`. */
  lemma HotPathsAre(p: Path)
    requires CleanPath(p) && p != []
    ensures Hot(Written(p))
        <==> "governance" <= p[0] || "security" <= p[0] || "triggers" <= p[0]
             || (2 <= |p| && p[0] == "agent" && "heartbeat_interval_minutes" <= p[1])
  {
    HotBeginnings(Written(p));
    PrefixesAre();
    PlainBeginning("governance", p);
    PlainBeginning("security", p);
    PlainBeginning("triggers", p);
    NestedBeginning("agent", "heartbeat_interval_minutes", p);
  }

  lemma PlainBeginning(h: string, p: Path)
    requires CleanPath(p) && p != [] && '.' !in h
    ensures h <= Written(p) <==> h <= p[0]
  {
    var rest := FirstKey(p);
    DotlessPrefix(h, p[0], rest);
  }

  lemma NestedBeginning(a: string, b: string, p: Path)
    requires CleanPath(p) && p != [] && '.' !in a && '.' !in b
    ensures a + "." + b <= Written(p) <==> 2 <= |p| && p[0] == a && b <= p[1]
  {
    var rest := FirstKey(p);
    DottedPrefix(a, b, p[0], rest);
    if 2 <= |p| {
      PlainBeginning(b, p[1..]);
      assert rest[1..] == Written(p[1..]);
    }
  }

  lemma PrefixesAre()
    ensures HOT_PREFIXES[0] == "governance" && HOT_PREFIXES[1] == "security" && HOT_PREFIXES[2] == "triggers"
    ensures HOT_PREFIXES[3] == "agent" + "." + "heartbeat_interval_minutes"
  {
  }

  lemma HotBeginnings(path: string)
    ensures Hot(path) <==> HOT_PREFIXES[0] <= path || HOT_PREFIXES[1] <= path || HOT_PREFIXES[2] <= path
                           || HOT_PREFIXES[3] <= path
  {
    assert forall i :: 0 <= i < 4 ==> HOT_PREFIXES[i] in HOT_PREFIXES;
  }

  lemma HotDown(q: Path, p: Path)
    requires q <= p && Hot(Written(q))
    ensures Hot(Written(p))
  {
    WrittenGrows("", q, p);
  }

  /** The text begins a hot path, or is one. */
  predicate Near(path: string) {
    exists h :: h in HOT_PREFIXES && (h <= path || path <= h)
  }

  /** Keys on the way to and below the hot paths are not empty and hold no dot; keys elsewhere,
      such as those of free-form dictionaries, are arbitrary. */
  predicate CleanHot(m: Kids, prefix: string)
    decreases Dict(m)
  {
    forall k :: k in m && Near(Extend(prefix, k)) ==>
      CleanKey(k) && (m[k].Dict? ==> CleanHot(m[k].kids, Extend(prefix, k)))
  }

  /** Every change that reads as hot has a clean path. */
  ghost predicate HotChangesClean(was: Kids, now: Kids) {
    forall p :: Changed(was, now, p) && Hot(Written(p)) ==> CleanPath(p)
  }

  lemma {:induction false} HotChangeIsClean(was: Kids, now: Kids, prefix: string, p: Path)
    requires CleanHot(was, prefix) && CleanHot(now, prefix)
    requires Changed(was, now, p) && Hot(WrittenFrom(prefix, p))
    ensures CleanPath(p)
    decreases |p|
  {
    var k, next := p[0], Extend(prefix, p[0]);
    assert Near(next) by { WrittenGrows(next, [], p[1..]); }
    ChangedHasKey(was, now, p);
    assert CleanKey(k);
    if Both(was, now, k) {
      HotChangeIsClean(was[k].kids, now[k].kids, next, p[1..]);
      CleanFront(p);
    } else {
      assert |p| == 1;
    }
  }

  lemma CleanFront(p: Path)
    requires p != [] && CleanKey(p[0]) && CleanPath(p[1..])
    ensures CleanPath(p)
  {
    assert p == [p[0]] + p[1..];
  }

  lemma CleanHotChanges(was: Kids, now: Kids)
    requires CleanHot(was, "") && CleanHot(now, "")
    ensures HotChangesClean(was, now)
  {
    forall p | Changed(was, now, p) && Hot(Written(p)) ensures CleanPath(p) { HotChangeIsClean(was, now, "", p); }
  }

  // ----- Merge and diff by loops over the keys -----

  method DeepMerge(base: Kids, updates: Kids) returns (merged: Kids)
    ensures merged == Merge(base, updates)
    decreases Dict(updates)
  {
    merged := base;
    var rest := updates.Keys;
    while rest != {}
      invariant rest <= updates.Keys && merged.Keys == base.Keys + (updates.Keys - rest)
      invariant forall k :: k in merged ==>
                  merged[k] == if k in updates && k !in rest then Merge(base, updates)[k] else base[k]
      decreases rest
    {
      var key :| key in rest;
      var value := updates[key];
      if key in merged && merged[key].Dict? && value.Dict? {
        var sub := DeepMerge(merged[key].kids, value.kids);
        merged := merged[key := Dict(sub)];
      } else {
        merged := merged[key := value];
      }
      rest := rest - {key};
    }
  }

  /** `s` writes the path `p` of a change, counted from the dictionary that `prefix` writes. */
  ghost predicate Writes(was: Kids, now: Kids, prefix: string, p: Path, s: string) {
    Changed(was, now, p) && WrittenFrom(prefix, p) == s
  }

  /** The changes whose first key is not in `rest`: every one is reported under its written path,
      and every report is one of them with its new value. */
  ghost predicate IsPartial(changes: map<string, Tree>, was: Kids, now: Kids, prefix: string, rest: set<string>) {
    && (forall p :: Changed(was, now, p) && p[0] !in rest ==> WrittenFrom(prefix, p) in changes)
    && (forall s :: s in changes ==>
          exists p :: Writes(was, now, prefix, p, s) && p[0] !in rest && changes[s] == At(now, p))
  }

  ghost predicate IsDiff(changes: map<string, Tree>, was: Kids, now: Kids, prefix: string) {
    IsPartial(changes, was, now, prefix, {})
  }

  lemma BelowWrites(was: Kids, now: Kids, prefix: string, k: string, q: Path, s: string)
    requires Both(was, now, k) && Writes(was[k].kids, now[k].kids, Extend(prefix, k), q, s)
    ensures Writes(was, now, prefix, [k] + q, s) && At(now, [k] + q) == At(now[k].kids, q)
  {
    assert ([k] + q)[1..] == q;
  }

  lemma BelowAdds(changes: map<string, Tree>, sub: map<string, Tree>, was: Kids, now: Kids, prefix: string,
                  rest: set<string>, k: string)
    requires IsPartial(changes, was, now, prefix, rest) && k in rest && Both(was, now, k)
    requires IsDiff(sub, was[k].kids, now[k].kids, Extend(prefix, k))
    ensures IsPartial(changes + sub, was, now, prefix, rest - {k})
  {
    var all := changes + sub;
    forall p | Changed(was, now, p) && p[0] !in rest - {k} ensures WrittenFrom(prefix, p) in all {
      if p[0] == k { assert Changed(was[k].kids, now[k].kids, p[1..]); }
    }
    forall s | s in all
      ensures exists p :: Writes(was, now, prefix, p, s) && p[0] !in rest - {k} && all[s] == At(now, p)
    {
      if s in sub {
        var q :| Writes(was[k].kids, now[k].kids, Extend(prefix, k), q, s) && sub[s] == At(now[k].kids, q);
        BelowWrites(was, now, prefix, k, q, s);
      } else {
        var p :| Writes(was, now, prefix, p, s) && p[0] !in rest && changes[s] == At(now, p);
      }
    }
  }

  lemma HereAdds(changes: map<string, Tree>, was: Kids, now: Kids, prefix: string, rest: set<string>, k: string)
    requires IsPartial(changes, was, now, prefix, rest) && k in rest && !Both(was, now, k)
    ensures IsPartial(if Get(was, k) != Get(now, k) then changes[Extend(prefix, k) := Get(now, k)] else changes,
                      was, now, prefix, rest - {k})
  {
    var all := if Get(was, k) != Get(now, k) then changes[Extend(prefix, k) := Get(now, k)] else changes;
    assert WrittenFrom(Extend(prefix, k), []) == Extend(prefix, k);
    forall p | Changed(was, now, p) && p[0] !in rest - {k} ensures WrittenFrom(prefix, p) in all {
      if p[0] == k { assert p == [k] && p[1..] == []; }
    }
    forall s | s in all
      ensures exists p :: Writes(was, now, prefix, p, s) && p[0] !in rest - {k} && all[s] == At(now, p)
    {
      if s == Extend(prefix, k) && Get(was, k) != Get(now, k) {
        assert [k][1..] == [];
        assert Writes(was, now, prefix, [k], s);
      } else {
        var p :| Writes(was, now, prefix, p, s) && p[0] !in rest && changes[s] == At(now, p);
      }
    }
  }

  method DictDiff(was: Kids, now: Kids, prefix: string) returns (changes: map<string, Tree>)
    ensures IsDiff(changes, was, now, prefix)
    decreases Dict(was)
  {
    changes := map[];
    var rest := was.Keys + now.Keys;
    forall p | Changed(was, now, p) ensures p[0] in rest { ChangedHasKey(was, now, p); }
    while rest != {}
      invariant rest <= was.Keys + now.Keys && IsPartial(changes, was, now, prefix, rest)
      decreases rest
    {
      var key :| key in rest;
      var path := if prefix == "" then key else prefix + "." + key;
      var a, b := Get(was, key), Get(now, key);
      if a.Dict? && b.Dict? {
        var sub := DictDiff(a.kids, b.kids, path);
        BelowAdds(changes, sub, was, now, prefix, rest, key);
        changes := changes + sub;
      } else {
        HereAdds(changes, was, now, prefix, rest, key);
        if a != b { changes := changes[path := b]; }
      }
      rest := rest - {key};
    }
  }

  // ----- The manager -----

  function PathsOf(written: set<string>): set<Path> {
    set s | s in written :: Split(s)
  }

  lemma PathsOfAdd(written: set<string>, s: string)
    ensures PathsOf(written + {s}) == PathsOf(written) + {Split(s)}
  {
  }

  ghost predicate Reports(was: Kids, now: Kids, s: string) {
    exists p :: Writes(was, now, "", p, s)
  }

  ghost predicate ReportsWith(was: Kids, now: Kids, s: string, v: Tree) {
    exists p :: Writes(was, now, "", p, s) && At(now, p) == v
  }

  /** Applied and skipped split the diff by hotness. */
  ghost predicate SplitsDiff(applied: map<string, Tree>, skipped: map<string, Tree>, was: Kids, now: Kids) {
    && (forall s :: s in applied <==> Reports(was, now, s) && Hot(s))
    && (forall s :: s in skipped <==> Reports(was, now, s) && !Hot(s))
    && (forall s :: s in applied ==> ReportsWith(was, now, s, applied[s]))
    && (forall s :: s in skipped ==> ReportsWith(was, now, s, skipped[s]))
  }

  /** A hot report is of the one change that its parts spell. */
  lemma HotReport(was: Kids, now: Kids, p: Path, s: string)
    requires HotChangesClean(was, now) && Writes(was, now, "", p, s) && Hot(s)
    ensures p == Split(s)
  {
    SplitWritten(p);
  }

  ghost predicate HotReports(was: Kids, now: Kids, written: set<string>) {
    forall s :: s in written ==> Reports(was, now, s) && Hot(s)
  }

  lemma SelectedReports(was: Kids, now: Kids, written: set<string>)
    requires HotChangesClean(was, now) && HotReports(was, now, written)
    ensures Selects(was, now, PathsOf(written)) && forall s :: s in written ==> Written(Split(s)) == s
  {
    forall s | s in written ensures Changed(was, now, Split(s)) && Written(Split(s)) == s {
      var p :| Writes(was, now, "", p, s);
      HotReport(was, now, p, s);
    }
  }

  /** Every hot report is of the change at the path its parts spell, with the new value. */
  ghost predicate HotSpelled(changes: map<string, Tree>, was: Kids, now: Kids) {
    forall s :: s in changes && Hot(s) ==> Changed(was, now, Split(s)) && changes[s] == At(now, Split(s))
  }

  lemma HotIsSpelled(changes: map<string, Tree>, was: Kids, now: Kids)
    requires HotChangesClean(was, now) && IsDiff(changes, was, now, "")
    ensures HotSpelled(changes, was, now)
  {
    forall s | s in changes && Hot(s) ensures Changed(was, now, Split(s)) && changes[s] == At(now, Split(s)) {
      var p :| Writes(was, now, "", p, s) && changes[s] == At(now, p);
      HotReport(was, now, p, s);
    }
  }

  /** `patch` carries exactly the changes applied so far. */
  ghost predicate Carries(patch: Kids, was: Kids, now: Kids, applied: map<string, Tree>) {
    Selects(was, now, PathsOf(applied.Keys)) && patch == PatchOf(was, now, PathsOf(applied.Keys))
  }

  lemma SetOne(changes: map<string, Tree>, was: Kids, now: Kids, applied: map<string, Tree>, patch: Kids, s: string)
    requires HotSpelled(changes, was, now) && s in changes && Hot(s)
    requires Carries(patch, was, now, applied)
    ensures Carries(SetPath(patch, Split(s), changes[s]), was, now, applied[s := changes[s]])
  {
    assert applied[s := changes[s]].Keys == applied.Keys + {s};
    PathsOfAdd(applied.Keys, s);
    SetPathExtends(was, now, PathsOf(applied.Keys), Split(s));
  }

  /** The changes of one hotness among those not in `rest`. */
  ghost predicate Taken(part: map<string, Tree>, changes: map<string, Tree>, rest: set<string>, hot: bool) {
    forall s ::
      (s in part <==> s in changes && s !in rest && Hot(s) == hot)
      && (s in part && s in changes ==> part[s] == changes[s])
  }

  lemma TakenSplits(applied: map<string, Tree>, skipped: map<string, Tree>, changes: map<string, Tree>, was: Kids,
                    now: Kids)
    requires IsDiff(changes, was, now, "") && Taken(applied, changes, {}, true) && Taken(skipped, changes, {}, false)
    ensures SplitsDiff(applied, skipped, was, now)
  {
    forall s ensures s in changes <==> Reports(was, now, s) {
      if s in changes { var p :| Writes(was, now, "", p, s) && changes[s] == At(now, p); }
      if Reports(was, now, s) {
        var p :| Writes(was, now, "", p, s);
        assert Changed(was, now, p);
      }
    }
    forall s | s in changes ensures ReportsWith(was, now, s, changes[s]) {
      var p :| Writes(was, now, "", p, s) && changes[s] == At(now, p);
    }
  }

  /** The loop over the diff: sort each change by hotness and set the hot ones in the patch. */
  method SplitChanges(changes: map<string, Tree>, ghost was: Kids, ghost now: Kids)
      returns (applied: map<string, Tree>, skipped: map<string, Tree>, patch: Kids)
    requires HotSpelled(changes, was, now)
    ensures Taken(applied, changes, {}, true) && Taken(skipped, changes, {}, false)
    ensures patch == PatchOf(was, now, PathsOf(applied.Keys))
  {
    applied, skipped, patch := map[], map[], map[];
    PatchOfNothing(was, now);
    var rest := changes.Keys;
    while rest != {}
      invariant rest <= changes.Keys && Taken(applied, changes, rest, true) && Taken(skipped, changes, rest, false)
      invariant Carries(patch, was, now, applied)
      decreases rest
    {
      var s :| s in rest;
      var value := changes[s];
      if Hot(s) {
        SetOne(changes, was, now, applied, patch, s);
        patch := SetPath(patch, Split(s), value);
        applied := applied[s := value];
      } else {
        skipped := skipped[s := value];
      }
      rest := rest - {s};
    }
  }

  /** The layers decide a tree, and its validated form replaces the old config where it is applied. */
  ghost predicate Reloaded(validate: Kids -> Kids, yaml: Kids, env: Kids, overrides: Kids, was: Kids, config: Kids,
                           applied: map<string, Tree>, skipped: map<string, Tree>) {
    exists raw :: Decided(raw, yaml, env, overrides) && Takes(validate(raw), was, config, applied, skipped)
  }

  ghost predicate Takes(now: Kids, was: Kids, config: Kids, applied: map<string, Tree>, skipped: map<string, Tree>) {
    SplitsDiff(applied, skipped, was, now) && config == Mix(was, now, PathsOf(applied.Keys))
  }

  lemma MergedPatch(was: Kids, now: Kids, applied: map<string, Tree>, skipped: map<string, Tree>)
    requires SplitsDiff(applied, skipped, was, now) && HotChangesClean(was, now)
    ensures Merge(was, PatchOf(was, now, PathsOf(applied.Keys))) == Mix(was, now, PathsOf(applied.Keys))
    ensures applied == map[] ==> Mix(was, now, PathsOf(applied.Keys)) == was
  {
    SelectedReports(was, now, applied.Keys);
    MergePatch(was, now, PathsOf(applied.Keys));
    if applied == map[] {
      assert PathsOf(applied.Keys) == {};
      MixNothing(was, now);
    }
  }

  /** The old config with the hot changes of the candidate. */
  method ApplyHot(was: Kids, now: Kids) returns (applied: map<string, Tree>, skipped: map<string, Tree>, next: Kids)
    requires CleanHot(was, "") && CleanHot(now, "")
    ensures SplitsDiff(applied, skipped, was, now) && next == Mix(was, now, PathsOf(applied.Keys))
  {
    CleanHotChanges(was, now);
    var changes := DictDiff(was, now, "");
    var patch;
    HotIsSpelled(changes, was, now);
    applied, skipped, patch := SplitChanges(changes, was, now);
    TakenSplits(applied, skipped, changes, was, now);
    MergedPatch(was, now, applied, skipped);
    next := was;
    if applied != map[] { next := DeepMerge(was, patch); }
  }

  /** The manager object; `validate` turns raw settings into the dump of a validated config, and is
      the identity on what a reload installs.  `announced` lists the calls made to the listeners, each
      with the config before and after. */
  class Manager {
    const validate: Kids -> Kids
    var config: Kids
    var configPath: Option<string>
    var runtimeOverrides: Kids
    var announced: seq<(Kids, Kids)>

    constructor (validate: Kids -> Kids)
      ensures this.validate == validate && config == validate(map[]) && configPath == None && runtimeOverrides == map[]
      ensures announced == []
    {
      this.validate := validate;
      config, configPath, runtimeOverrides, announced := validate(map[]), None, map[], [];
    }

    /** Settings merged with precedence overrides, then environment, then file. */
    function Candidate(yaml: Kids, env: Kids, overrides: Kids): Kids {
      validate(Merge(Merge(yaml, env), overrides))
    }

    method Load(yaml: Kids, env: Kids, path: Option<string>, overrides: Kids)
      modifies this
      ensures config == Candidate(yaml, env, overrides) && configPath == path && runtimeOverrides == overrides
      ensures exists raw :: Decided(raw, yaml, env, overrides) && config == validate(raw)
      ensures announced == old(announced) + [(old(config), config)]
    {
      var merged := DeepMerge(yaml, env);
      merged := DeepMerge(merged, overrides);
      var was := config;
      MergeIsDecided(yaml, env, overrides);
      config, configPath, runtimeOverrides := validate(merged), path, overrides;
      announced := announced + [(was, config)];
    }

    /** Apply the hot-reloadable changes only; the listeners are called only if there are any. */
    method Reload(yaml: Kids, env: Kids, path: Option<string>)
        returns (applied: map<string, Tree>, skipped: map<string, Tree>)
      requires CleanHot(config, "") && CleanHot(Candidate(yaml, env, runtimeOverrides), "")
      modifies this`config, this`configPath, this`announced
      ensures Takes(Candidate(yaml, env, runtimeOverrides), old(config), config, applied, skipped)
      ensures Reloaded(validate, yaml, env, runtimeOverrides, old(config), config, applied, skipped)
      ensures configPath == if path.Some? then path else old(configPath)
      ensures announced == old(announced) + if applied != map[] then [(old(config), config)] else []
    {
      var merged := DeepMerge(yaml, env);
      merged := DeepMerge(merged, runtimeOverrides);
      var was, now := config, validate(merged);
      applied, skipped, config := ApplyHot(was, now);
      assert Reloaded(validate, yaml, env, runtimeOverrides, was, config, applied, skipped) by {
        MergeIsDecided(yaml, env, runtimeOverrides);
      }
      if applied != map[] { announced := announced + [(was, config)]; }
      configPath := if path.Some? then path else configPath;
    }
  }

  // ----- What a reload means -----

  ghost predicate ChangesAboveAreHot(was: Kids, now: Kids, p: Path) {
    forall q :: q <= p && Changed(was, now, q) ==> Hot(Written(q))
  }

  /** A reload installs the candidate at every hot path and keeps the old config at every other
      path, and at a hot path below a change that is not itself hot, of which the schema has none. */
  lemma ReloadSplitsTree(was: Kids, now: Kids, applied: map<string, Tree>, skipped: map<string, Tree>, p: Path)
    requires SplitsDiff(applied, skipped, was, now) && CleanHot(was, "") && CleanHot(now, "")
    requires p != [] && !Shared(was, now, p)
    ensures At(Mix(was, now, PathsOf(applied.Keys)), p)
         == if Hot(Written(p)) && ChangesAboveAreHot(was, now, p) then At(now, p) else At(was, p)
  {
    var sel := PathsOf(applied.Keys);
    CleanHotChanges(was, now);
    SelectedReports(was, now, applied.Keys);
    MixAt(was, now, sel, p);
    if Under(sel, p) {
      AppliedAbove(was, now, applied, p);
    } else if Hot(Written(p)) && ChangesAboveAreHot(was, now, p) {
      forall q | q <= p ensures !Changed(was, now, q) {
        if Changed(was, now, q) { HotChangeApplied(was, now, applied, skipped, q); }
      }
      NothingAbove(was, now, p);
    }
  }

  /** An applied change above a path is the only change above it. */
  lemma AppliedAbove(was: Kids, now: Kids, applied: map<string, Tree>, p: Path)
    requires HotReports(was, now, applied.Keys) && HotChangesClean(was, now) && Under(PathsOf(applied.Keys), p)
    ensures Hot(Written(p)) && ChangesAboveAreHot(was, now, p)
  {
    var q :| q in PathsOf(applied.Keys) && q <= p;
    var s :| s in applied && Split(s) == q;
    SelectedReports(was, now, applied.Keys);
    HotDown(q, p);
    forall other | other <= p && Changed(was, now, other) ensures other == q {
      if other <= q { ChangesArePrefixFree(was, now, other, q); }
      else { ChangesArePrefixFree(was, now, q, other); }
    }
  }

  lemma HotChangeApplied(was: Kids, now: Kids, applied: map<string, Tree>, skipped: map<string, Tree>, q: Path)
    requires SplitsDiff(applied, skipped, was, now) && HotChangesClean(was, now)
    requires Changed(was, now, q) && Hot(Written(q))
    ensures q in PathsOf(applied.Keys)
  {
    assert Writes(was, now, "", q, Written(q));
    SplitWritten(q);
    assert Written(q) in applied;
  }

  /** Where neither the path nor anything above it changed, both trees agree. */
  lemma {:induction false} NothingAbove(was: Kids, now: Kids, p: Path)
    requires p != [] && !Shared(was, now, p) && forall q :: q <= p ==> !Changed(was, now, q)
    ensures At(was, p) == At(now, p)
    decreases |p|
  {
    var k := p[0];
    assert [k] <= p && !Changed(was, now, [k]);
    if Both(was, now, k) {
      forall q | q <= p[1..] ensures !Changed(was[k].kids, now[k].kids, q) {
        assert [k] + q <= p && ([k] + q)[1..] == q;
        assert !Changed(was, now, [k] + q);
      }
      NothingAbove(was[k].kids, now[k].kids, p[1..]);
    }
  }

  lemma {:induction false} MixIsClean(was: Kids, now: Kids, sel: set<Path>, prefix: string)
    requires CleanHot(was, prefix) && CleanHot(now, prefix)
    ensures CleanHot(Mix(was, now, sel), prefix)
    decreases Dict(was)
  {
    forall k | k in was && Both(was, now, k) && Near(Extend(prefix, k))
      ensures CleanHot(Mix(was[k].kids, now[k].kids, Tail(sel, k)), Extend(prefix, k))
    {
      MixIsClean(was[k].kids, now[k].kids, Tail(sel, k), Extend(prefix, k));
    }
  }

  /** No two changes are written alike. */
  ghost predicate Distinct(was: Kids, now: Kids) {
    forall p, q :: Changed(was, now, p) && Changed(was, now, q) && Written(p) == Written(q) ==> p == q
  }

  /** Changes at clean paths are never written alike. */
  lemma CleanChangesAreDistinct(was: Kids, now: Kids)
    requires forall p :: Changed(was, now, p) ==> CleanPath(p)
    ensures Distinct(was, now)
  {
    forall p, q | Changed(was, now, p) && Changed(was, now, q) && Written(p) == Written(q) ensures p == q {
      SplitWritten(p);
      SplitWritten(q);
    }
  }

  /** Reloading again from the same sources applies nothing, calls no listener, skips the same
      changes and leaves the config alone. */
  method ReloadTwice(m: Manager, yaml: Kids, env: Kids, path: Option<string>)
      returns (applied: map<string, Tree>, skipped: map<string, Tree>,
               applied2: map<string, Tree>, skipped2: map<string, Tree>)
    requires CleanHot(m.config, "") && CleanHot(m.Candidate(yaml, env, m.runtimeOverrides), "")
    modifies m
    ensures applied2 == map[] && skipped2.Keys == skipped.Keys
    ensures Distinct(old(m.config), m.Candidate(yaml, env, m.runtimeOverrides)) ==> skipped2 == skipped
    ensures m.config == Mix(old(m.config), m.Candidate(yaml, env, m.runtimeOverrides), PathsOf(applied.Keys))
    ensures m.announced == old(m.announced) + if applied != map[] then [(old(m.config), m.config)] else []
  {
    ghost var was, now := m.config, m.Candidate(yaml, env, m.runtimeOverrides);
    applied, skipped := m.Reload(yaml, env, path);
    ghost var mid := m.config;
    assert CleanHot(mid, "") by { TakenIsClean(now, was, mid, applied, skipped); }
    applied2, skipped2 := m.Reload(yaml, env, path);
    SecondTake(now, was, mid, m.config, applied, skipped, applied2, skipped2);
  }

  lemma TakenIsClean(now: Kids, was: Kids, config: Kids, applied: map<string, Tree>, skipped: map<string, Tree>)
    requires Takes(now, was, config, applied, skipped) && CleanHot(was, "") && CleanHot(now, "")
    ensures CleanHot(config, "")
  {
    MixIsClean(was, now, PathsOf(applied.Keys), "");
  }

  lemma SecondTake(now: Kids, was: Kids, mid: Kids, end: Kids, applied: map<string, Tree>, skipped: map<string, Tree>,
                   applied2: map<string, Tree>, skipped2: map<string, Tree>)
    requires Takes(now, was, mid, applied, skipped) && Takes(now, mid, end, applied2, skipped2)
    requires CleanHot(was, "") && CleanHot(now, "")
    ensures applied2 == map[] && skipped2.Keys == skipped.Keys && end == mid
    ensures Distinct(was, now) ==> skipped2 == skipped
    ensures mid == Mix(was, now, PathsOf(applied.Keys))
  {
    CleanHotChanges(was, now);
    NothingLeft(now, was, mid, applied, skipped, applied2, skipped2);
    TakesNothing(now, mid, end, applied2, skipped2);
    if Distinct(was, now) { SameSkipped(now, was, mid, end, applied, skipped, applied2, skipped2); }
  }

  lemma TakesNothing(now: Kids, was: Kids, config: Kids, applied: map<string, Tree>, skipped: map<string, Tree>)
    requires Takes(now, was, config, applied, skipped) && applied == map[]
    ensures config == was
  {
    assert PathsOf(applied.Keys) == {};
    MixNothing(was, now);
  }

  lemma SameSkipped(now: Kids, was: Kids, mid: Kids, end: Kids, applied: map<string, Tree>, skipped: map<string, Tree>,
                    applied2: map<string, Tree>, skipped2: map<string, Tree>)
    requires Takes(now, was, mid, applied, skipped) && Takes(now, mid, end, applied2, skipped2)
    requires HotChangesClean(was, now) && Distinct(was, now) && skipped2.Keys == skipped.Keys
    ensures skipped2 == skipped
  {
    assert HotReports(was, now, applied.Keys);
    SelectedReports(was, now, applied.Keys);
    SameValues(was, now, PathsOf(applied.Keys), skipped, skipped2);
  }

  lemma NothingLeft(now: Kids, was: Kids, mid: Kids, applied: map<string, Tree>, skipped: map<string, Tree>,
                    applied2: map<string, Tree>, skipped2: map<string, Tree>)
    requires Takes(now, was, mid, applied, skipped) && SplitsDiff(applied2, skipped2, mid, now)
    requires HotChangesClean(was, now)
    ensures applied2 == map[] && skipped2.Keys == skipped.Keys
  {
    SecondDiff(was, now, applied, skipped);
    assert applied2.Keys == {};
    assert skipped2.Keys == skipped.Keys;
  }

  lemma SecondDiff(was: Kids, now: Kids, applied: map<string, Tree>, skipped: map<string, Tree>)
    requires SplitsDiff(applied, skipped, was, now) && HotChangesClean(was, now)
    ensures forall s :: Reports(Mix(was, now, PathsOf(applied.Keys)), now, s) <==> s in skipped
  {
    var sel := PathsOf(applied.Keys);
    SelectedReports(was, now, applied.Keys);
    forall p ensures Changed(Mix(was, now, sel), now, p) <==> Changed(was, now, p) && !Hot(Written(p)) {
      MixLeaves(was, now, sel, p);
      if Changed(was, now, p) && Hot(Written(p)) { HotChangeApplied(was, now, applied, skipped, p); }
      if p in sel { var t :| t in applied && Split(t) == p; }
    }
    forall s ensures Reports(Mix(was, now, sel), now, s) <==> s in skipped {
      if s in skipped {
        var p :| Writes(was, now, "", p, s);
        assert Writes(Mix(was, now, sel), now, "", p, s);
      }
      if Reports(Mix(was, now, sel), now, s) {
        var p :| Writes(Mix(was, now, sel), now, "", p, s);
        assert Writes(was, now, "", p, s);
      }
    }
  }

  /** Where no two changes are written alike, a report has one value. */
  lemma OneValue(was: Kids, now: Kids, s: string, v: Tree, v2: Tree)
    requires Distinct(was, now) && ReportsWith(was, now, s, v) && ReportsWith(was, now, s, v2)
    ensures v == v2
  {
    var p :| Writes(was, now, "", p, s) && At(now, p) == v;
    var q :| Writes(was, now, "", q, s) && At(now, q) == v2;
    assert p == q;
  }

  lemma LeftWith(was: Kids, now: Kids, sel: set<Path>, s: string, v: Tree)
    requires Selects(was, now, sel) && ReportsWith(Mix(was, now, sel), now, s, v)
    ensures ReportsWith(was, now, s, v)
  {
    var q :| Writes(Mix(was, now, sel), now, "", q, s) && At(now, q) == v;
    MixLeaves(was, now, sel, q);
    assert Writes(was, now, "", q, s);
  }

  lemma SameValues(was: Kids, now: Kids, sel: set<Path>, skipped: map<string, Tree>, skipped2: map<string, Tree>)
    requires Distinct(was, now) && Selects(was, now, sel) && skipped.Keys == skipped2.Keys
    requires forall s :: s in skipped ==> ReportsWith(was, now, s, skipped[s])
    requires forall s :: s in skipped2 ==> ReportsWith(Mix(was, now, sel), now, s, skipped2[s])
    ensures skipped == skipped2
  {
    forall s | s in skipped ensures skipped[s] == skipped2[s] {
      assert s in skipped2;
      LeftWith(was, now, sel, s, skipped2[s]);
      OneValue(was, now, s, skipped[s], skipped2[s]);
    }
  }
}
