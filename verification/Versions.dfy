/** Versions, version constraints and the greedy choice of a candidate. */
module Versions {
  import opened Options

  /** A parsed epoch-0 version: its major and minor numbers, and a rank that orders the versions
      sharing both (any countable order embeds in the reals).  Rank 0 is the plain release x.y.0;
      its pre-releases and development releases have negative rank. */
  datatype Version = Version(major: nat, minor: nat, rank: real)

  /** A version as written, together with what the parser makes of it. */
  datatype VersionText = VersionText(text: string, parsed: Option<Version>)

  datatype Constraint =
    | Blank
    | Caret(base: VersionText)
    | Tilde(base: VersionText)
    | Between(lower: VersionText, upper: VersionText)
    | Exactly(text: string)

  predicate Before(a: Version, b: Version) {
    a.major < b.major
    || (a.major == b.major && (a.minor < b.minor || (a.minor == b.minor && a.rank < b.rank)))
  }

  predicate InRange(lower: Version, v: Version, upper: Version) {
    !Before(v, lower) && Before(v, upper)
  }

  predicate Match(v: VersionText, c: Constraint) {
    match c
    case Blank => true
    case Caret(base) =>
      if base.parsed.None? || v.parsed.None? then v.text == base.text
      else InRange(base.parsed.value, v.parsed.value, Version(base.parsed.value.major + 1, 0, 0.0))
    case Tilde(base) =>
      if base.parsed.None? || v.parsed.None? then v.text == base.text
      else
        var b := base.parsed.value;
        InRange(b, v.parsed.value, Version(b.major, b.minor + 1, 0.0))
    case Between(lower, upper) =>
      if lower.parsed.None? || upper.parsed.None? || v.parsed.None? then v.text == lower.text
      else InRange(lower.parsed.value, v.parsed.value, upper.parsed.value)
    case Exactly(text) => v.text == text
  }

  // ----- What the constraints mean -----

  /** Versions are totally ordered: of two different ones exactly one comes first; a higher major
      comes later, then a higher minor, then a higher rank. */
  lemma VersionOrder(a: Version, b: Version, c: Version)
    ensures !(Before(a, b) && Before(b, a)) && (a != b <==> Before(a, b) || Before(b, a))
    ensures Before(a, b) && Before(b, c) ==> Before(a, c)
    ensures Before(a, b) ==> a.major <= b.major
    ensures a.major == b.major && Before(a, b) ==> a.minor <= b.minor
    ensures a.major == b.major && a.minor == b.minor ==> (Before(a, b) <==> a.rank < b.rank)
  {
  }

  /** An interval is the disjoint union of its two parts at any version within it. */
  lemma IntervalSplits(v: VersionText, l: VersionText, m: VersionText, u: VersionText)
    requires v.parsed.Some? && l.parsed.Some? && m.parsed.Some? && u.parsed.Some?
    requires !Before(m.parsed.value, l.parsed.value) && !Before(u.parsed.value, m.parsed.value)
    ensures Match(v, Between(l, u)) <==> Match(v, Between(l, m)) || Match(v, Between(m, u))
    ensures !(Match(v, Between(l, m)) && Match(v, Between(m, u)))
  {
  }

  /** An interval holds its lower end, unless it is empty, and not its upper end. */
  lemma IntervalEnds(v: VersionText, l: VersionText, u: VersionText)
    requires v.parsed.Some? && l.parsed.Some? && u.parsed.Some?
    ensures !Match(v, Between(l, l)) && !Match(u, Between(l, u))
    ensures Match(l, Between(l, u)) <==> Before(l.parsed.value, u.parsed.value)
    ensures Match(v, Between(l, u)) ==> Match(v, Between(l, v)) == false && Before(v.parsed.value, u.parsed.value)
  {
  }

  /** Caret and tilde constraints are intervals up to the next major or minor release. */
  lemma RangesAreIntervals(v: VersionText, base: VersionText, major: VersionText, minor: VersionText)
    requires base.parsed.Some? ==> var b := base.parsed.value;
               && major.parsed == Some(Version(b.major + 1, 0, 0.0))
               && minor.parsed == Some(Version(b.major, b.minor + 1, 0.0))
    ensures Match(v, Caret(base)) <==> Match(v, Between(base, major))
    ensures Match(v, Tilde(base)) <==> Match(v, Between(base, minor))
  {
  }

  /** What a version may be under a constraint. */
  ghost predicate Permitted(v: VersionText, c: Constraint) {
    match c
    // any version
    case Blank => true
    // that very text
    case Exactly(text) => v.text == text
    // not before the lower and before the upper end; without versions to compare, the lower end's text
    case Between(l, u) =>
      if v.parsed == None || l.parsed == None || u.parsed == None then v.text == l.text
      else !Before(v.parsed.value, l.parsed.value) && Before(v.parsed.value, u.parsed.value)
    // not before the base, and of its major number or a pre-release of the next major release
    case Caret(b) =>
      if v.parsed == None || b.parsed == None then v.text == b.text
      else !Before(v.parsed.value, b.parsed.value)
           && (v.parsed.value.major == b.parsed.value.major || PreRelease(v.parsed.value, b.parsed.value.major + 1, 0))
    // not before the base, and of its minor number or a pre-release of the next minor release
    case Tilde(b) =>
      if v.parsed == None || b.parsed == None then v.text == b.text
      else !Before(v.parsed.value, b.parsed.value) && v.parsed.value.major == b.parsed.value.major
           && (v.parsed.value.minor == b.parsed.value.minor
               || PreRelease(v.parsed.value, b.parsed.value.major, b.parsed.value.minor + 1))
  }

  predicate PreRelease(v: Version, major: nat, minor: nat) { v.major == major && v.minor == minor && v.rank < 0.0 }

  lemma MatchIsPermitted(v: VersionText, c: Constraint)
    ensures Match(v, c) <==> Permitted(v, c)
  {
    match c
    case Caret(b) => if v.parsed.Some? && b.parsed.Some? { CaretMeaning(v, b); }
    case Tilde(b) => if v.parsed.Some? && b.parsed.Some? { TildeMeaning(v, b); }
    case _ =>
  }

  /** A caret range does not quite keep the major number: it also lets in the pre-releases of the
      next major's first release. */
  lemma CaretMeaning(v: VersionText, base: VersionText)
    requires v.parsed.Some? && base.parsed.Some?
    ensures var b, x := base.parsed.value, v.parsed.value;
            Match(v, Caret(base)) <==>
              !Before(x, b) && (x.major == b.major || (x.major == b.major + 1 && x.minor == 0 && x.rank < 0.0))
  {
  }

  /** Likewise a tilde range lets in the pre-releases of the next minor. */
  lemma TildeMeaning(v: VersionText, base: VersionText)
    requires v.parsed.Some? && base.parsed.Some?
    ensures var b, x := base.parsed.value, v.parsed.value;
            Match(v, Tilde(base)) <==>
              !Before(x, b) && x.major == b.major && (x.minor == b.minor || (x.minor == b.minor + 1 && x.rank < 0.0))
  {
  }

  // ----- The sort key -----

  predicate TextLeq(a: string, b: string) {
    a == [] || (b != [] && (a[0] < b[0] || (a[0] == b[0] && TextLeq(a[1..], b[1..]))))
  }

  /** Unparseable versions come first, by text; parsed ones after, by version. */
  predicate KeyLeq(a: VersionText, b: VersionText) {
    match (a.parsed, b.parsed)
    case (None, None) => TextLeq(a.text, b.text)
    case (None, Some(_)) => true
    case (Some(_), None) => false
    case (Some(x), Some(y)) => !Before(y, x)
  }

  lemma {:induction false} TextTotal(a: string, b: string)
    ensures TextLeq(a, b) || TextLeq(b, a)
  {
    if a != [] && b != [] { TextTotal(a[1..], b[1..]); }
  }

  lemma {:induction false} TextTransitive(a: string, b: string, c: string)
    requires TextLeq(a, b) && TextLeq(b, c)
    ensures TextLeq(a, c)
  {
    if a != [] && a[0] == b[0] && b[0] == c[0] { TextTransitive(a[1..], b[1..], c[1..]); }
  }

  /** Texts are ordered as words: a beginning comes first, and else the first difference decides. */
  lemma {:induction false} TextOrder(p: string, a: string, b: string)
    ensures TextLeq(p, p + a)
    ensures a != "" && b != "" && a[0] < b[0] ==> TextLeq(p + a, p + b) && !TextLeq(p + b, p + a)
    ensures a != "" ==> !TextLeq(p + a, p)
  {
    if p == "" {
      assert p + a == a && p + b == b;
    } else {
      TextOrder(p[1..], a, b);
      assert (p + a)[1..] == p[1..] + a && (p + b)[1..] == p[1..] + b;
    }
  }

  lemma KeyTotal(a: VersionText, b: VersionText)
    ensures KeyLeq(a, b) || KeyLeq(b, a)
  {
    TextTotal(a.text, b.text);
  }

  lemma KeyTransitive(a: VersionText, b: VersionText, c: VersionText)
    requires KeyLeq(a, b) && KeyLeq(b, c)
    ensures KeyLeq(a, c)
  {
    if a.parsed.None? && b.parsed.None? && c.parsed.None? { TextTransitive(a.text, b.text, c.text); }
  }

  // ----- Skills and the index -----

  datatype Dep = Dep(name: string, constraint: Constraint)

  predicate DistinctDeps(deps: seq<Dep>) { forall i, j :: 0 <= i < j < |deps| ==> deps[i].name != deps[j].name }

  /** What a skill depends on: a dictionary from names to constraints, in its own order. */
  type Deps = deps: seq<Dep> | DistinctDeps(deps)

  datatype Skill = Skill(name: string, version: VersionText, publisher: string, deps: Deps)

  type Index = map<string, seq<Skill>>

  function Named(items: seq<Skill>, name: string): seq<Skill> {
    if items == [] then []
    else (if items[0].name == name then [items[0]] else []) + Named(items[1..], name)
  }

  function Candidates(idx: Index, name: string): seq<Skill> {
    if name in idx then Named(idx[name], name) else []
  }

  function Matching(items: seq<Skill>, c: Constraint): seq<Skill> {
    if items == [] then []
    else (if Match(items[0].version, c) then [items[0]] else []) + Matching(items[1..], c)
  }

  /** Stable insertion: after every element whose key is not greater. */
  function Insert(sorted: seq<Skill>, x: Skill): seq<Skill> {
    if sorted == [] || KeyLeq(sorted[|sorted| - 1].version, x.version) then sorted + [x]
    else Insert(sorted[..|sorted| - 1], x) + [sorted[|sorted| - 1]]
  }

  function SortByVersion(items: seq<Skill>): (r: seq<Skill>)
    ensures |r| == |items|
  {
    if items == [] then [] else
      var r := SortByVersion(items[..|items| - 1]);
      InsertLast(r, items[|items| - 1]);
      Insert(r, items[|items| - 1])
  }

  lemma {:induction false} InsertLast(sorted: seq<Skill>, x: Skill)
    ensures var r := Insert(sorted, x);
            |r| == |sorted| + 1
            && r[|sorted|] == if sorted == [] || KeyLeq(sorted[|sorted| - 1].version, x.version) then x
                              else sorted[|sorted| - 1]
  {
    if sorted != [] { InsertLast(sorted[..|sorted| - 1], x); }
  }

  datatype Choice = Chosen(skill: Skill) | NoCandidate | NoneMatch

  function Select(idx: Index, name: string, c: Constraint): Choice {
    var candidates := Candidates(idx, name);
    if candidates == [] then NoCandidate
    else
      var valid := Matching(candidates, c);
      if valid == [] then NoneMatch
      else
        var sorted := SortByVersion(valid);
        Chosen(sorted[|sorted| - 1])
  }

  /** `items[i]` is the newest of `items`, and of equally new ones the last. */
  ghost predicate NewestAt(items: seq<Skill>, i: nat) {
    && i < |items|
    && (forall j :: 0 <= j < |items| ==> KeyLeq(items[j].version, items[i].version))
    && (forall j :: i < j < |items| ==> !KeyLeq(items[i].version, items[j].version))
  }

  ghost predicate IsNewest(items: seq<Skill>, x: Skill) {
    exists i: nat :: NewestAt(items, i) && items[i] == x
  }

  lemma {:induction false} SortedLastIsNewest(items: seq<Skill>) returns (i: nat)
    requires items != []
    ensures NewestAt(items, i) && SortByVersion(items)[|items| - 1] == items[i]
  {
    var n := |items| - 1;
    var x, rest := items[n], items[..n];
    InsertLast(SortByVersion(rest), x);
    KeyTotal(x.version, x.version);
    i := n;
    if n != 0 {
      var k := SortedLastIsNewest(rest);
      var best := rest[k];
      KeyTotal(x.version, best.version);
      if KeyLeq(best.version, x.version) {
        forall j | 0 <= j < n ensures KeyLeq(items[j].version, x.version) {
          assert KeyLeq(rest[j].version, best.version);
          KeyTransitive(items[j].version, best.version, x.version);
        }
      } else {
        i := k;
        assert forall j :: 0 <= j < n ==> items[j] == rest[j];
      }
    }
  }

  lemma {:induction false} MatchingIsFilter(items: seq<Skill>, c: Constraint)
    ensures forall s :: s in Matching(items, c) <==> s in items && Match(s.version, c)
  {
    if items != [] { MatchingIsFilter(items[1..], c); }
  }

  lemma {:induction false} NamedIsFilter(items: seq<Skill>, name: string)
    ensures forall s :: s in Named(items, name) <==> s in items && s.name == name
  {
    if items != [] { NamedIsFilter(items[1..], name); }
  }

  /** The chosen candidate carries the name, satisfies the constraint and is the newest that does;
      the two failures say exactly that there is no candidate, or none that matches. */
  lemma SelectIsNewestMatch(idx: Index, name: string, c: Constraint)
    ensures var choice := Select(idx, name, c);
            var candidates := Candidates(idx, name);
            && (choice.NoCandidate? <==> candidates == [])
            && (choice.NoneMatch? <==> candidates != [] && forall s :: s in candidates ==> !Match(s.version, c))
            && (choice.Chosen? ==>
                  && choice.skill in candidates && choice.skill.name == name && Match(choice.skill.version, c)
                  && IsNewest(Matching(candidates, c), choice.skill)
                  && forall s :: s in candidates && Match(s.version, c) ==> KeyLeq(s.version, choice.skill.version))
  {
    var candidates := Candidates(idx, name);
    var valid := Matching(candidates, c);
    MatchingIsFilter(candidates, c);
    if name in idx { NamedIsFilter(idx[name], name); }
    if valid != [] {
      var i := SortedLastIsNewest(valid);
      assert SortByVersion(valid)[|valid| - 1] in valid;
    } else {
      forall s | s in candidates ensures !Match(s.version, c) { assert s !in valid; }
    }
  }

  /** The selection is a version that parses if any candidate that matches does, and then none of
      those is later; else it is the last in the order of texts. */
  lemma SelectionIsLatest(idx: Index, name: string, c: Constraint, other: Skill)
    requires Select(idx, name, c).Chosen? && other in Candidates(idx, name) && Match(other.version, c)
    ensures var v, o := Select(idx, name, c).skill.version, other.version;
            && (o.parsed.Some? ==> v.parsed.Some? && !Before(v.parsed.value, o.parsed.value))
            && (v.parsed == None ==> o.parsed == None && TextLeq(o.text, v.text))
  {
    SelectIsNewestMatch(idx, name, c);
  }
}
