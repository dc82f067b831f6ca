/** Greedy selection of skills under a token budget. */
module KnowledgeSelection {
  import opened Options

  /** A loaded skill and the token estimate of its content. */
  datatype Skill = Skill(name: string, tokens: nat)

  /** The loaded skills by name, the name normalisation, and the caller's filter and focus in one. */
  datatype Setting = Setting(skills: map<string, Skill>, normalize: string -> string, eligible: Skill -> bool)

  /** The loader files every skill under its own name. */
  ghost predicate Filed(w: Setting) {
    forall k :: k in w.skills ==> w.skills[k].name == k
  }

  /** A requested name; None is an entry that is not a string. */
  type Request = Option<string>

  /** The normalised non-empty names, each at its first occurrence. */
  function Requested(w: Setting, names: seq<Request>): seq<string> {
    if names == [] then []
    else
      var sofar, last := Requested(w, names[..|names| - 1]), names[|names| - 1];
      if last.Some? && w.normalize(last.value) != "" && w.normalize(last.value) !in sofar
      then sofar + [w.normalize(last.value)] else sofar
  }

  function Known(w: Setting, requested: seq<string>): seq<Skill> {
    if requested == [] then []
    else
      var before, last := Known(w, requested[..|requested| - 1]), requested[|requested| - 1];
      if last in w.skills then before + [w.skills[last]] else before
  }

  function Eligible(w: Setting, known: seq<Skill>): seq<Skill> {
    if known == [] then []
    else
      var before, last := Eligible(w, known[..|known| - 1]), known[|known| - 1];
      if w.eligible(last) then before + [last] else before
  }

  /** The skills the selection chooses from, in request order. */
  function Choices(w: Setting, names: seq<Request>): seq<Skill> {
    Eligible(w, Known(w, Requested(w, names)))
  }

  /** Tokens of the marked skills among the first `i`. */
  function Used(es: seq<Skill>, marks: seq<bool>, i: nat): nat
    requires i <= |es| && i <= |marks|
  {
    if i == 0 then 0 else Used(es, marks, i - 1) + (if marks[i - 1] then es[i - 1].tokens else 0)
  }

  function Marked(es: seq<Skill>, marks: seq<bool>): seq<string>
    requires |es| == |marks|
  {
    if es == [] then []
    else
      var n := |es| - 1;
      var before := Marked(es[..n], marks[..n]);
      if marks[n] then before + [es[n].name] else before
  }

  /** The greedy rule: the first choice is always taken, and taken alone when it is oversize;
      otherwise a choice is taken exactly when it fits in what the earlier ones left. */
  ghost predicate Greedy(es: seq<Skill>, budget: int, marks: seq<bool>) {
    |marks| == |es| && forall i :: 0 <= i < |es| ==> RightAt(es, budget, marks, i)
  }

  predicate RightAt(es: seq<Skill>, budget: int, marks: seq<bool>, i: nat)
    requires i < |es| == |marks|
  {
    marks[i] <==> i == 0 || (es[0].tokens <= budget && Used(es, marks, i) + es[i].tokens <= budget)
  }

  function Budget(tokenLimit: Option<int>, maxTokens: Option<int>, default: int): int {
    if tokenLimit.Some? && tokenLimit.value > 0 then tokenLimit.value
    else if maxTokens.Some? && maxTokens.value > 0 then maxTokens.value
    else default
  }

  lemma {:induction false} UsedPrefix(es: seq<Skill>, marks: seq<bool>, e: Skill, take: bool, i: nat)
    requires i <= |es| == |marks|
    ensures Used(es + [e], marks + [take], i) == Used(es, marks, i)
  {
    if 0 < i { UsedPrefix(es, marks, e, take, i - 1); }
  }

  /** One more choice, judged by the rule. */
  lemma GreedyGrows(es: seq<Skill>, budget: int, marks: seq<bool>, e: Skill, take: bool)
    requires Greedy(es, budget, marks)
    requires take <==> es == [] || (es[0].tokens <= budget && Used(es, marks, |es|) + e.tokens <= budget)
    ensures Greedy(es + [e], budget, marks + [take])
  {
    forall i | 0 <= i < |es| + 1 ensures RightAt(es + [e], budget, marks + [take], i) {
      UsedPrefix(es, marks, e, take, i);
      if i < |es| { StaysRight(es, budget, marks, e, take, i); }
    }
  }

  lemma StaysRight(es: seq<Skill>, budget: int, marks: seq<bool>, e: Skill, take: bool, i: nat)
    requires i < |es| == |marks| && RightAt(es, budget, marks, i)
    ensures RightAt(es + [e], budget, marks + [take], i)
  {
    UsedPrefix(es, marks, e, take, i);
    assert (es + [e])[i] == es[i] && (es + [e])[0] == es[0] && (marks + [take])[i] == marks[i];
  }

  /** `selected` holds the names of the choices marked by the rule, in order. */
  ghost predicate Obeys(es: seq<Skill>, budget: int, marks: seq<bool>, selected: seq<string>) {
    Greedy(es, budget, marks) && selected == Marked(es, marks)
  }

  /** The state of the selection loop after the choices `es`. */
  ghost predicate Progress(es: seq<Skill>, budget: int, marks: seq<bool>, selected: seq<string>, used: nat) {
    && Obeys(es, budget, marks, selected) && used == Used(es, marks, |es|)
    && (selected == [] <==> es == []) && (es != [] ==> es[0].tokens <= budget)
  }

  lemma AppendOne(es: seq<Skill>, marks: seq<bool>, e: Skill, take: bool)
    requires |es| == |marks|
    ensures Used(es + [e], marks + [take], |es| + 1) == Used(es, marks, |es|) + (if take then e.tokens else 0)
    ensures Marked(es + [e], marks + [take]) == if take then Marked(es, marks) + [e.name] else Marked(es, marks)
  {
    UsedPrefix(es, marks, e, take, |es|);
    assert (es + [e])[..|es|] == es && (marks + [take])[..|es|] == marks;
  }

  lemma Take(es: seq<Skill>, budget: int, marks: seq<bool>, selected: seq<string>, used: nat, e: Skill)
    requires Progress(es, budget, marks, selected, used)
    requires if es == [] then e.tokens <= budget else used + e.tokens <= budget
    ensures Progress(es + [e], budget, marks + [true], selected + [e.name], used + e.tokens)
  {
    AppendOne(es, marks, e, true);
    GreedyGrows(es, budget, marks, e, true);
  }

  lemma Skip(es: seq<Skill>, budget: int, marks: seq<bool>, selected: seq<string>, used: nat, e: Skill)
    requires Progress(es, budget, marks, selected, used) && es != [] && used + e.tokens > budget
    ensures Progress(es + [e], budget, marks + [false], selected, used)
  {
    AppendOne(es, marks, e, false);
    GreedyGrows(es, budget, marks, e, false);
  }

  function OnlyFirst(n: nat): seq<bool> { seq(n, i => i == 0) }

  /** An oversize first choice is taken alone. */
  lemma {:induction false} OversizeAlone(es: seq<Skill>, budget: int)
    requires es != [] && es[0].tokens > budget
    ensures Greedy(es, budget, OnlyFirst(|es|)) && Marked(es, OnlyFirst(|es|)) == [es[0].name]
  {
    var n := |es| - 1;
    assert OnlyFirst(|es|)[..n] == OnlyFirst(n);
    if 0 < n { OversizeAlone(es[..n], budget); }
  }

  function NameSet(names: seq<string>): set<string> { set n | n in names }

  /** Read one request: the names seen so far with this one, and the skill it loads if it is a
      string, not empty, new and known. */
  function Look(w: Setting, seen: set<string>, r: Request): (set<string>, Option<Skill>) {
    if r == None then (seen, None)
    else
      var name := w.normalize(r.value);
      if name == "" || name in seen then (seen, None)
      else (seen + {name}, if name in w.skills then Some(w.skills[name]) else None)
  }

  predicate Asks(w: Setting, names: seq<Request>, i: nat, n: string)
    requires i < |names|
  {
    names[i].Some? && w.normalize(names[i].value) == n
  }

  ghost predicate AskedFor(w: Setting, names: seq<Request>, n: string) {
    exists i :: 0 <= i < |names| && Asks(w, names, i, n)
  }

  /** The requested names are exactly those asked for that are not empty, each once, in the order in
      which they are first asked for. */
  lemma {:induction false} RequestedAre(w: Setting, names: seq<Request>, k: nat)
    requires k <= |names|
    ensures forall n :: n in Requested(w, names) <==> n != "" && AskedFor(w, names, n)
    ensures NoRepeats(Requested(w, names)) && Requested(w, names[..k]) <= Requested(w, names)
  {
    RequestedOnce(w, names);
    if names == [] {
      assert names[..k] == [];
    } else {
      var m := |names| - 1;
      RequestedAre(w, names[..m], if k <= m then k else m);
      forall n ensures n in Requested(w, names) <==> n != "" && AskedFor(w, names, n) {
        AskedLast(w, names, n);
      }
      if k <= m { assert names[..m][..k] == names[..k]; } else { assert names[..k] == names; }
    }
  }

  lemma AskedLast(w: Setting, names: seq<Request>, n: string)
    requires names != []
    ensures AskedFor(w, names, n) <==> AskedFor(w, names[..|names| - 1], n) || Asks(w, names, |names| - 1, n)
  {
    var m := |names| - 1;
    forall i | 0 <= i < m ensures Asks(w, names, i, n) <==> Asks(w, names[..m], i, n) {}
  }

  /** How one more request changes the choices. */
  lemma NextChoice(w: Setting, names: seq<Request>, i: nat)
    requires i < |names|
    ensures var (seen, found) := Look(w, NameSet(Requested(w, names[..i])), names[i]);
            && seen == NameSet(Requested(w, names[..i + 1]))
            && Choices(w, names[..i + 1])
               == (if found.Some? && w.eligible(found.value) then Choices(w, names[..i]) + [found.value]
                   else Choices(w, names[..i]))
            && NamesKnown(w, names[..i + 1])
               == (if found.Some? then NamesKnown(w, names[..i]) + [found.value] else NamesKnown(w, names[..i]))
  {
    assert names[..i + 1][..i] == names[..i];
    var sofar, now := Requested(w, names[..i]), Requested(w, names[..i + 1]);
    if now != sofar {
      assert now[..|sofar|] == sofar;
      var known, more := Known(w, sofar), Known(w, now);
      if more != known { assert more[..|known|] == known; }
    }
  }

  function NamesKnown(w: Setting, names: seq<Request>): seq<Skill> { Known(w, Requested(w, names)) }

  /** The budget decision on one eligible skill; `alone` means that it is oversize and first, and
      ends the selection. */
  method Consider(skill: Skill, budget: int, selected: seq<string>, used: nat, ghost es: seq<Skill>,
                  ghost marks: seq<bool>)
      returns (chosen: seq<string>, total: nat, alone: bool, ghost marked: seq<bool>)
    requires Progress(es, budget, marks, selected, used)
    ensures alone <==> es == [] && skill.tokens > budget
    ensures alone ==> chosen == [skill.name]
    ensures !alone ==> Progress(es + [skill], budget, marked, chosen, total)
  {
    chosen, total, alone, marked := selected, used, false, marks;
    if selected != [] && used + skill.tokens > budget {
      Skip(es, budget, marks, selected, used, skill);
      marked := marks + [false];
      return;
    }
    chosen := selected + [skill.name];
    if selected == [] && skill.tokens > budget {
      alone := true;
      return;
    }
    Take(es, budget, marks, selected, used, skill);
    marked := marks + [true];
    total := used + skill.tokens;
  }

  /** `select_skills`. */
  method SelectSkills(w: Setting, names: seq<Request>, tokenLimit: Option<int>, maxTokens: Option<int>, default: int)
      returns (selected: seq<string>)
    ensures exists marks :: Obeys(Choices(w, names), Budget(tokenLimit, maxTokens, default), marks, selected)
    ensures tokenLimit.Some? && 0 < tokenLimit.value ==>
              exists marks :: Obeys(Choices(w, names), tokenLimit.value, marks, selected)
    ensures (tokenLimit.Some? ==> tokenLimit.value <= 0) && maxTokens.Some? && 0 < maxTokens.value ==>
              exists marks :: Obeys(Choices(w, names), maxTokens.value, marks, selected)
    ensures (tokenLimit.Some? ==> tokenLimit.value <= 0) && (maxTokens.Some? ==> maxTokens.value <= 0) ==>
              exists marks :: Obeys(Choices(w, names), default, marks, selected)
  {
    var budget := Budget(tokenLimit, maxTokens, default);
    var seen: set<string>, used: nat, alone: bool := {}, 0, false;
    ghost var marks: seq<bool> := [];
    selected := [];
    for i := 0 to |names|
      invariant seen == NameSet(Requested(w, names[..i]))
      invariant Progress(Choices(w, names[..i]), budget, marks, selected, used)
    {
      ghost var es := Choices(w, names[..i]);
      NextChoice(w, names, i);
      var (now, found) := Look(w, seen, names[i]);
      seen := now;
      if found.Some? && w.eligible(found.value) {
        selected, used, alone, marks := Consider(found.value, budget, selected, used, es, marks);
        if alone {
          ChoicesGrow(w, names, i + 1);
          OversizeAlone(Choices(w, names), budget);
          assert Obeys(Choices(w, names), budget, OnlyFirst(|Choices(w, names)|), selected);
          return;
        }
      }
    }
    assert names[..|names|] == names;
    assert Obeys(Choices(w, names), budget, marks, selected);
  }

  lemma {:induction false} ChoicesGrow(w: Setting, names: seq<Request>, i: nat)
    requires i <= |names|
    ensures Choices(w, names[..i]) <= Choices(w, names)
    decreases |names| - i
  {
    if i < |names| {
      NextChoice(w, names, i);
      ChoicesGrow(w, names, i + 1);
    } else {
      assert names[..i] == names;
    }
  }

  // ----- What the selection means -----

  /** The selection stays within the budget unless it is exactly one oversize skill. */
  lemma {:induction false} WithinBudget(es: seq<Skill>, budget: int, marks: seq<bool>, i: nat)
    requires Greedy(es, budget, marks) && i <= |es| && 0 <= budget
    ensures es != [] && es[0].tokens <= budget ==> Used(es, marks, i) <= budget
    ensures es != [] && es[0].tokens > budget && 0 < i ==> Used(es, marks, i) == es[0].tokens
    ensures es != [] && es[0].tokens > budget ==> forall j :: 0 <= j < |es| ==> (marks[j] <==> j == 0)
  {
    if 0 < i {
      WithinBudget(es, budget, marks, i - 1);
      assert RightAt(es, budget, marks, i - 1);
    }
    if es != [] && es[0].tokens > budget {
      forall j | 0 <= j < |es| ensures marks[j] <==> j == 0 { assert RightAt(es, budget, marks, j); }
    }
  }

  lemma {:induction false} UsedMonotone(es: seq<Skill>, marks: seq<bool>, i: nat, j: nat)
    requires i <= j <= |es| == |marks|
    ensures Used(es, marks, i) <= Used(es, marks, j)
  {
    if i < j { UsedMonotone(es, marks, i, j - 1); }
  }

  /** The selection is maximal: no skill it left out could be added without exceeding the budget. */
  lemma SelectionIsMaximal(es: seq<Skill>, budget: int, marks: seq<bool>, i: nat)
    requires Greedy(es, budget, marks) && i < |es| && !marks[i] && 0 <= budget
    ensures Used(es, marks, |es|) + es[i].tokens > budget
  {
    assert RightAt(es, budget, marks, i);
    UsedMonotone(es, marks, i, |es|);
    WithinBudget(es, budget, marks, |es|);
  }

  /** The rule leaves nothing open: two selections obeying it are the same. */
  lemma {:induction false} GreedyIsUnique(es: seq<Skill>, budget: int, a: seq<bool>, b: seq<bool>, n: nat)
    requires Greedy(es, budget, a) && Greedy(es, budget, b) && n <= |es|
    ensures Used(es, a, n) == Used(es, b, n) && forall i :: 0 <= i < n ==> a[i] == b[i]
  {
    if 0 < n {
      GreedyIsUnique(es, budget, a, b, n - 1);
      assert RightAt(es, budget, a, n - 1) && RightAt(es, budget, b, n - 1);
    }
  }

  // ----- Selected and dropped -----

  predicate NoRepeats(s: seq<string>) { forall i, j :: 0 <= i < j < |s| ==> s[i] != s[j] }

  function NamesOf(s: seq<Skill>): seq<string> {
    if s == [] then [] else NamesOf(s[..|s| - 1]) + [s[|s| - 1].name]
  }

  lemma {:induction false} RequestedOnce(w: Setting, names: seq<Request>)
    ensures NoRepeats(Requested(w, names))
  {
    if names != [] { RequestedOnce(w, names[..|names| - 1]); }
  }

  lemma NamesAppend(s: seq<Skill>, x: Skill)
    ensures NamesOf(s + [x]) == NamesOf(s) + [x.name]
  {
    assert (s + [x])[..|s|] == s;
  }

  lemma NoRepeatsAppend(s: seq<string>, x: string)
    ensures NoRepeats(s + [x]) <==> NoRepeats(s) && x !in s
  {
    if NoRepeats(s + [x]) {
      forall i, j | 0 <= i < j < |s| ensures s[i] != s[j] { assert (s + [x])[i] != (s + [x])[j]; }
      forall i | 0 <= i < |s| ensures s[i] != x { assert (s + [x])[i] != (s + [x])[|s|]; }
    }
  }

  /** The known skills' names are the requested names that are loaded, each once. */
  lemma {:induction false} KnownNames(w: Setting, requested: seq<string>)
    requires Filed(w) && NoRepeats(requested)
    ensures NoRepeats(NamesOf(Known(w, requested)))
    ensures forall n :: n in NamesOf(Known(w, requested)) <==> n in requested && n in w.skills
  {
    if requested != [] {
      var k := |requested| - 1;
      var last, init := requested[k], requested[..k];
      assert requested == init + [last];
      NoRepeatsAppend(init, last);
      KnownNames(w, init);
      if last in w.skills {
        NamesAppend(Known(w, init), w.skills[last]);
        NoRepeatsAppend(NamesOf(Known(w, init)), last);
      }
    }
  }

  lemma {:induction false} EligibleNames(w: Setting, known: seq<Skill>)
    requires NoRepeats(NamesOf(known))
    ensures NoRepeats(NamesOf(Eligible(w, known)))
    ensures forall n :: n in NamesOf(Eligible(w, known)) ==> n in NamesOf(known)
  {
    if known != [] {
      var k := |known| - 1;
      var init, last := known[..k], known[k];
      NoRepeatsAppend(NamesOf(init), last.name);
      EligibleNames(w, init);
      NamesAppend(Eligible(w, init), last);
      NoRepeatsAppend(NamesOf(Eligible(w, init)), last.name);
    }
  }

  lemma {:induction false} MarkedNames(es: seq<Skill>, marks: seq<bool>)
    requires |es| == |marks| && NoRepeats(NamesOf(es))
    ensures NoRepeats(Marked(es, marks)) && forall n :: n in Marked(es, marks) ==> n in NamesOf(es)
  {
    if es != [] {
      var k := |es| - 1;
      NoRepeatsAppend(NamesOf(es[..k]), es[k].name);
      MarkedNames(es[..k], marks[..k]);
      NoRepeatsAppend(Marked(es[..k], marks[..k]), es[k].name);
    }
  }

  /** The selected/dropped split of the report: without repeats, the two together are exactly the
      distinct known requested names, and they do not overlap. */
  method Report(w: Setting, names: seq<Request>, maxTokens: Option<int>, default: int)
      returns (selected: seq<string>, dropped: seq<string>)
    requires Filed(w)
    ensures NoRepeats(selected) && NoRepeats(dropped)
    ensures forall n :: n in selected ==> n !in dropped
    ensures forall n :: n in selected || n in dropped <==> n in Requested(w, names) && n in w.skills
  {
    selected := SelectSkills(w, names, None, maxTokens, default);
    ghost var marks :| Obeys(Choices(w, names), Budget(None, maxTokens, default), marks, selected);
    dropped := [];
    var seen: set<string> := {};
    for i := 0 to |names|
      invariant seen == NameSet(Requested(w, names[..i]))
      invariant dropped == Outside(NamesKnown(w, names[..i]), selected)
    {
      NextChoice(w, names, i);
      var (now, found) := Look(w, seen, names[i]);
      seen := now;
      if found.Some? {
        OutsideAppend(NamesKnown(w, names[..i]), found.value, selected);
        if found.value.name !in selected { dropped := dropped + [found.value.name]; }
      }
    }
    assert names[..|names|] == names;
    RequestedOnce(w, names);
    KnownNames(w, Requested(w, names));
    OutsideNames(NamesKnown(w, names), selected);
    EligibleNames(w, NamesKnown(w, names));
    MarkedNames(Choices(w, names), marks);
  }

  /** The names of the skills not selected, in order. */
  function Outside(known: seq<Skill>, selected: seq<string>): seq<string> {
    if known == [] then []
    else
      var before, last := Outside(known[..|known| - 1], selected), known[|known| - 1];
      if last.name !in selected then before + [last.name] else before
  }

  lemma OutsideAppend(known: seq<Skill>, e: Skill, selected: seq<string>)
    ensures Outside(known + [e], selected)
         == if e.name !in selected then Outside(known, selected) + [e.name] else Outside(known, selected)
  {
    assert (known + [e])[..|known|] == known;
  }

  lemma {:induction false} OutsideNames(known: seq<Skill>, selected: seq<string>)
    requires NoRepeats(NamesOf(known))
    ensures NoRepeats(Outside(known, selected))
    ensures forall n :: n in Outside(known, selected) <==> n in NamesOf(known) && n !in selected
  {
    if known != [] {
      var k := |known| - 1;
      NoRepeatsAppend(NamesOf(known[..k]), known[k].name);
      OutsideNames(known[..k], selected);
      NoRepeatsAppend(Outside(known[..k], selected), known[k].name);
    }
  }
}
