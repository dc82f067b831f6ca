/** The contract diff classifier and its gate. */
module ContractDiff {
  import opened Options

  /** A JSON document, its scalars given by their serialised text.  Two documents have the same
      canonical serialisation exactly when they are equal here. */
  datatype Json = Scalar(text: string) | List(items: seq<Json>) | Object(fields: map<string, Json>)

  type Fields = map<string, Json>

  /** How scalars compare as values.  `value` names the value of a text: texts such as 1, 1.0 and
      true have one value.  `odd` are the values that are not equal to themselves, such as NaN. */
  datatype Reading = Reading(value: string -> string, odd: set<string>)

  /** A document with the values of its scalars for their texts. */
  function Value(rd: Reading, j: Json): Json {
    match j
    case Scalar(text) => Scalar(rd.value(text))
    case List(items) => List(seq(|items|, i requires 0 <= i < |items| => Value(rd, items[i])))
    case Object(fields) => Object(map key | key in fields :: Value(rd, fields[key]))
  }

  /** Equality of values, as used on whole lists. */
  predicate Equal(rd: Reading, a: Json, b: Json) { Value(rd, a) == Value(rd, b) }

  /** Equality of values where two leaves, or two documents of different kinds, meet. */
  predicate LeafEqual(rd: Reading, a: Json, b: Json) {
    Equal(rd, a, b) && !(a.Scalar? && rd.value(a.text) in rd.odd)
  }

  /** One line of the report: a path, or a list element at a path. */
  datatype Entry = Key(path: string) | Element(path: string, value: Json)

  function Child(path: string, key: string): string { if path == "" then key else path + "." + key }

  function Place(path: string): string { if path == "" then "<root>" else path }

  // ----- What is reported -----

  ghost predicate Removed(rd: Reading, before: Json, after: Json, path: string, s: Entry)
    decreases before, 1
  {
    if before.Object? && after.Object? then exists key :: RemovedAt(rd, before.fields, after.fields, path, key, s)
    else
      before.List? && after.List? && !Equal(rd, before, after) && s.Element? && s.path == path
      && s.value in before.items && s.value !in after.items
  }

  ghost predicate RemovedAt(rd: Reading, before: Fields, after: Fields, path: string, key: string, s: Entry)
    decreases Object(before), 0
  {
    && key in before
    && if key in after then Removed(rd, before[key], after[key], Child(path, key), s) else s == Key(Child(path, key))
  }

  ghost predicate Added(rd: Reading, before: Json, after: Json, path: string, s: Entry)
    decreases before, 1
  {
    if before.Object? && after.Object? then exists key :: AddedAt(rd, before.fields, after.fields, path, key, s)
    else
      before.List? && after.List? && !Equal(rd, before, after) && s.Element? && s.path == path
      && s.value in after.items && s.value !in before.items
  }

  ghost predicate AddedAt(rd: Reading, before: Fields, after: Fields, path: string, key: string, s: Entry)
    decreases Object(before), 0
  {
    && key in after
    && if key in before then Added(rd, before[key], after[key], Child(path, key), s) else s == Key(Child(path, key))
  }

  ghost predicate Changed(rd: Reading, before: Json, after: Json, path: string, s: Entry)
    decreases before, 1
  {
    if before.Object? && after.Object? then exists key :: ChangedAt(rd, before.fields, after.fields, path, key, s)
    else !(before.List? && after.List?) && !LeafEqual(rd, before, after) && s == Key(Place(path))
  }

  ghost predicate ChangedAt(rd: Reading, before: Fields, after: Fields, path: string, key: string, s: Entry)
    decreases Object(before), 0
  {
    key in before && key in after && Changed(rd, before[key], after[key], Child(path, key), s)
  }

  /** The three shared report lists. */
  class Changes {
    var removed: seq<Entry>
    var added: seq<Entry>
    var changed: seq<Entry>

    constructor ()
      ensures removed == [] && added == [] && changed == []
    {
      removed, added, changed := [], [], [];
    }

    /** Record the differences between two field maps, key by key. */
    method WalkFields(rd: Reading, before: Fields, after: Fields, path: string)
      modifies this
      ensures forall s :: s in removed <==>
                s in old(removed) || exists key :: RemovedAt(rd, before, after, path, key, s)
      ensures forall s :: s in added <==>
                s in old(added) || exists key :: AddedAt(rd, before, after, path, key, s)
      ensures forall s :: s in changed <==>
                s in old(changed) || exists key :: ChangedAt(rd, before, after, path, key, s)
      decreases Object(before), 0
    {
      var rest := before.Keys + after.Keys;
      while rest != {}
        invariant rest <= before.Keys + after.Keys
        invariant forall s :: s in removed <==>
                    s in old(removed) || exists key :: key !in rest && RemovedAt(rd, before, after, path, key, s)
        invariant forall s :: s in added <==>
                    s in old(added) || exists key :: key !in rest && AddedAt(rd, before, after, path, key, s)
        invariant forall s :: s in changed <==>
                    s in old(changed) || exists key :: key !in rest && ChangedAt(rd, before, after, path, key, s)
        decreases rest
      {
        var key :| key in rest;
        var child := Child(path, key);
        if key !in after {
          removed := removed + [Key(child)];
        } else if key !in before {
          added := added + [Key(child)];
        } else {
          WalkDiff(rd, before[key], after[key], child);
        }
        rest := rest - {key};
      }
    }

    method WalkDiff(rd: Reading, before: Json, after: Json, path: string)
      modifies this
      ensures forall s :: s in removed <==> s in old(removed) || Removed(rd, before, after, path, s)
      ensures forall s :: s in added <==> s in old(added) || Added(rd, before, after, path, s)
      ensures forall s :: s in changed <==> s in old(changed) || Changed(rd, before, after, path, s)
      decreases before, 1
    {
      if before.Object? && after.Object? {
        WalkFields(rd, before.fields, after.fields, path);
        return;
      }
      if before.List? && after.List? {
        if Equal(rd, before, after) { return; }
        var gone := Lacking(before.items, after.items, path);
        var extra := Lacking(after.items, before.items, path);
        removed, added := removed + gone, added + extra;
        return;
      }
      if !LeafEqual(rd, before, after) { changed := changed + [Key(Place(path))]; }
    }
  }

  /** The distinct elements of `items` that `others` lacks. */
  method Lacking(items: seq<Json>, others: seq<Json>, path: string) returns (r: seq<Entry>)
    ensures forall s :: s in r <==> s.Element? && s.path == path && s.value in items && s.value !in others
  {
    r := [];
    for i := 0 to |items|
      invariant forall s :: s in r <==> s.Element? && s.path == path && s.value in items[..i] && s.value !in others
    {
      assert items[..i + 1] == items[..i] + [items[i]];
      if items[i] !in others && Element(path, items[i]) !in r { r := r + [Element(path, items[i])]; }
    }
  }

  // ----- Embedding -----

  /** `after` keeps everything `before` promises: keys kept, leaves equal, lists equal or each
      element kept in its text. */
  predicate Embeds(rd: Reading, before: Json, after: Json)
    decreases before
  {
    if before.Object? && after.Object? then
      forall key :: key in before.fields ==>
        key in after.fields && Embeds(rd, before.fields[key], after.fields[key])
    else if before.List? && after.List? then Equal(rd, before, after) || Kept(before.items, after.items)
    else LeafEqual(rd, before, after)
  }

  predicate Kept(items: seq<Json>, others: seq<Json>) { forall x :: x in items ==> x in others }

  /** Both embed: the same keys, equal leaves, and lists equal or with the same elements. */
  predicate Agrees(rd: Reading, before: Json, after: Json)
    decreases before
  {
    if before.Object? && after.Object? then
      before.fields.Keys == after.fields.Keys
      && forall key :: key in before.fields && key in after.fields ==>
           Agrees(rd, before.fields[key], after.fields[key])
    else if before.List? && after.List? then
      Equal(rd, before, after) || (Kept(before.items, after.items) && Kept(after.items, before.items))
    else LeafEqual(rd, before, after)
  }

  /** No leaf outside a list has a value that is not equal to itself. */
  predicate Definite(rd: Reading, a: Json) {
    match a
    case Scalar(text) => rd.value(text) !in rd.odd
    case List(_) => true
    case Object(fields) => forall key :: key in fields ==> Definite(rd, fields[key])
  }

  lemma {:induction false} EmbedsReflexive(rd: Reading, a: Json)
    ensures Embeds(rd, a, a) <==> Definite(rd, a)
  {
    if a.Object? {
      forall key | key in a.fields
        ensures Embeds(rd, a.fields[key], a.fields[key]) <==> Definite(rd, a.fields[key])
      {
        EmbedsReflexive(rd, a.fields[key]);
      }
    }
  }

  /** Every scalar of the document has a text in `texts`. */
  ghost predicate Uses(texts: set<string>, j: Json) {
    match j
    case Scalar(text) => text in texts
    case List(items) => forall i :: 0 <= i < |items| ==> Uses(texts, items[i])
    case Object(fields) => forall key :: key in fields ==> Uses(texts, fields[key])
  }

  /** Every scalar within a list of the document has a text in `texts`. */
  ghost predicate ListsUse(texts: set<string>, j: Json) {
    match j
    case Scalar(_) => true
    case List(_) => Uses(texts, j)
    case Object(fields) => forall key :: key in fields ==> ListsUse(texts, fields[key])
  }

  /** The texts of all scalars of a document. */
  ghost function TextsOf(j: Json): set<string> {
    match j
    case Scalar(text) => {text}
    case List(items) => set i, t | 0 <= i < |items| && t in TextsOf(items[i]) :: t
    case Object(fields) => set key, t | key in fields && t in TextsOf(fields[key]) :: t
  }

  /** Every document uses its own texts, and no others are needed. */
  lemma {:induction false} TextsAreUsed(texts: set<string>, j: Json)
    ensures Uses(texts, j) <==> TextsOf(j) <= texts
    ensures Uses(texts, j) ==> ListsUse(texts, j)
  {
    match j
    case Scalar(_) =>
    case List(items) =>
      forall i | 0 <= i < |items| ensures Uses(texts, items[i]) <==> TextsOf(items[i]) <= texts {
        TextsAreUsed(texts, items[i]);
      }
    case Object(fields) =>
      forall key | key in fields
        ensures Uses(texts, fields[key]) <==> TextsOf(fields[key]) <= texts
        ensures Uses(texts, fields[key]) ==> ListsUse(texts, fields[key])
      {
        TextsAreUsed(texts, fields[key]);
      }
  }

  /** No value is written in two ways. */
  ghost predicate OneSpelling(rd: Reading, texts: set<string>) {
    forall s, t :: s in texts && t in texts && rd.value(s) == rd.value(t) ==> s == t
  }

  lemma {:induction false} EqualIsSame(rd: Reading, texts: set<string>, a: Json, b: Json)
    requires OneSpelling(rd, texts) && Uses(texts, a) && Uses(texts, b) && Equal(rd, a, b)
    ensures a == b
  {
    var va, vb := Value(rd, a), Value(rd, b);
    match a
    case Scalar(_) =>
    case List(items) =>
      forall i | 0 <= i < |items| ensures items[i] == b.items[i] {
        assert va.items[i] == vb.items[i];
        EqualIsSame(rd, texts, items[i], b.items[i]);
      }
    case Object(fields) =>
      assert va.fields.Keys == fields.Keys && vb.fields.Keys == b.fields.Keys;
      forall key | key in fields ensures fields[key] == b.fields[key] {
        assert va.fields[key] == vb.fields[key];
        EqualIsSame(rd, texts, fields[key], b.fields[key]);
      }
  }

  /** Embedding composes when no value within lists is written in two ways. */
  lemma {:induction false} EmbedsTransitive(rd: Reading, texts: set<string>, a: Json, b: Json, c: Json)
    requires OneSpelling(rd, texts) && ListsUse(texts, a) && ListsUse(texts, b) && ListsUse(texts, c)
    requires Embeds(rd, a, b) && Embeds(rd, b, c)
    ensures Embeds(rd, a, c)
  {
    if a.Object? {
      forall key | key in a.fields ensures key in c.fields && Embeds(rd, a.fields[key], c.fields[key]) {
        EmbedsTransitive(rd, texts, a.fields[key], b.fields[key], c.fields[key]);
      }
    } else if a.List? {
      if Equal(rd, a, b) { EqualIsSame(rd, texts, a, b); }
      if Equal(rd, b, c) { EqualIsSame(rd, texts, b, c); }
    }
  }

  /** Somewhere one of the two steps only respells a list while the other does not, and an element
      of the first version is gone in its text. */
  predicate Respelled(rd: Reading, a: Json, b: Json, c: Json)
    decreases a
  {
    if a.Object? && b.Object? && c.Object? then
      exists key :: key in a.fields && key in b.fields && key in c.fields
                    && Respelled(rd, a.fields[key], b.fields[key], c.fields[key])
    else a.List? && b.List? && c.List? && Equal(rd, a, b) != Equal(rd, b, c) && !Kept(a.items, c.items)
  }

  /** Exactly when two steps that break nothing break something together. */
  lemma {:induction false} ComposedStepBreaks(rd: Reading, a: Json, b: Json, c: Json)
    requires Embeds(rd, a, b) && Embeds(rd, b, c)
    ensures !Embeds(rd, a, c) <==> Respelled(rd, a, b, c)
  {
    if a.Object? {
      forall key | key in a.fields
        ensures !Embeds(rd, a.fields[key], c.fields[key])
            <==> Respelled(rd, a.fields[key], b.fields[key], c.fields[key])
      {
        ComposedStepBreaks(rd, a.fields[key], b.fields[key], c.fields[key]);
      }
    }
  }

  /** The equivalence of the relation is agreement. */
  lemma {:induction false} AgreesIsBothWays(rd: Reading, a: Json, b: Json)
    ensures Agrees(rd, a, b) <==> Embeds(rd, a, b) && Embeds(rd, b, a)
  {
    if a.Object? && b.Object? {
      forall key | key in a.fields && key in b.fields
        ensures Agrees(rd, a.fields[key], b.fields[key])
            <==> Embeds(rd, a.fields[key], b.fields[key]) && Embeds(rd, b.fields[key], a.fields[key])
      {
        AgreesIsBothWays(rd, a.fields[key], b.fields[key]);
      }
    }
  }

  // ----- Where reports point -----

  /** The document below these keys. */
  function Sub(j: Json, keys: seq<string>): Option<Json>
    decreases |keys|
  {
    if keys == [] then Some(j)
    else if j.Object? && keys[0] in j.fields then Sub(j.fields[keys[0]], keys[1..])
    else None
  }

  function PathFrom(path: string, keys: seq<string>): string
    decreases |keys|
  {
    if keys == [] then path else PathFrom(Child(path, keys[0]), keys[1..])
  }

  /** Keys with dots between them, empty ones at the front left out. */
  function Dotted(keys: seq<string>): string {
    if keys == [] then "" else if keys[0] == "" then Dotted(keys[1..]) else keys[0] + Rest(keys[1..])
  }

  function Rest(keys: seq<string>): string { if keys == [] then "" else "." + keys[0] + Rest(keys[1..]) }

  lemma {:induction false} PathIsDotted(path: string, keys: seq<string>)
    ensures PathFrom(path, keys) == if path == "" then Dotted(keys) else path + Rest(keys)
    decreases |keys|
  {
    if keys != [] {
      PathIsDotted(Child(path, keys[0]), keys[1..]);
      if path != "" {
        assert path + "." + keys[0] + Rest(keys[1..]) == path + ("." + keys[0] + Rest(keys[1..]));
      }
    }
  }

  /** What is missing in the second of two documents met at a path. */
  ghost predicate Gone(rd: Reading, x: Option<Json>, y: Option<Json>, path: string, s: Entry) {
    x.Some? && y.Some?
    && if x.value.Object? && y.value.Object? then
         exists k :: k in x.value.fields && k !in y.value.fields && s == Key(PathFrom(path, [k]))
       else
         x.value.List? && y.value.List? && !Equal(rd, x.value, y.value) && s.Element? && s.path == path
         && s.value in x.value.items && s.value !in y.value.items
  }

  ghost predicate GoneAt(rd: Reading, before: Json, after: Json, path: string, s: Entry, keys: seq<string>) {
    Gone(rd, Sub(before, keys), Sub(after, keys), PathFrom(path, keys), s)
  }

  lemma {:induction false} RemovedIsGone(rd: Reading, before: Json, after: Json, path: string, s: Entry)
      returns (keys: seq<string>)
    requires Removed(rd, before, after, path, s)
    ensures GoneAt(rd, before, after, path, s, keys)
    decreases before
  {
    keys := [];
    if before.Object? && after.Object? {
      var key :| RemovedAt(rd, before.fields, after.fields, path, key, s);
      if key in after.fields {
        var below := RemovedIsGone(rd, before.fields[key], after.fields[key], Child(path, key), s);
        keys := [key] + below;
        assert keys[1..] == below;
      } else {
        assert PathFrom(path, [key]) == Child(path, key) by { assert [key][1..] == []; }
      }
    }
  }

  lemma {:induction false} GoneIsRemoved(rd: Reading, before: Json, after: Json, path: string, s: Entry,
                                         keys: seq<string>)
    requires GoneAt(rd, before, after, path, s, keys)
    ensures Removed(rd, before, after, path, s)
    decreases |keys|
  {
    if keys == [] {
      if before.Object? && after.Object? {
        var k :| k in before.fields && k !in after.fields && s == Key(PathFrom(path, [k]));
        assert PathFrom(path, [k]) == Child(path, k) by { assert [k][1..] == []; }
        assert RemovedAt(rd, before.fields, after.fields, path, k, s);
      }
    } else {
      var k := keys[0];
      GoneIsRemoved(rd, before.fields[k], after.fields[k], Child(path, k), s, keys[1..]);
      assert RemovedAt(rd, before.fields, after.fields, path, k, s);
    }
  }

  /** Something is added exactly when it would be removed the other way round. */
  lemma {:induction false} AddedIsRemovedBack(rd: Reading, before: Json, after: Json, path: string, s: Entry)
    ensures Added(rd, before, after, path, s) <==> Removed(rd, after, before, path, s)
    decreases before
  {
    if before.Object? && after.Object? {
      forall key
        ensures AddedAt(rd, before.fields, after.fields, path, key, s)
            <==> RemovedAt(rd, after.fields, before.fields, path, key, s)
      {
        if key in before.fields && key in after.fields {
          AddedIsRemovedBack(rd, before.fields[key], after.fields[key], Child(path, key), s);
        }
      }
    }
  }

  /** Two documents met at a path that are neither both objects nor both lists, and not equal. */
  ghost predicate Differs(rd: Reading, x: Option<Json>, y: Option<Json>, path: string, s: Entry) {
    x.Some? && y.Some? && !(x.value.Object? && y.value.Object?) && !(x.value.List? && y.value.List?)
    && !LeafEqual(rd, x.value, y.value) && s == Key(if path == "" then "<root>" else path)
  }

  ghost predicate DiffersAt(rd: Reading, before: Json, after: Json, path: string, s: Entry, keys: seq<string>) {
    Differs(rd, Sub(before, keys), Sub(after, keys), PathFrom(path, keys), s)
  }

  lemma {:induction false} ChangedDiffers(rd: Reading, before: Json, after: Json, path: string, s: Entry)
      returns (keys: seq<string>)
    requires Changed(rd, before, after, path, s)
    ensures DiffersAt(rd, before, after, path, s, keys)
    decreases before
  {
    keys := [];
    if before.Object? && after.Object? {
      var key :| ChangedAt(rd, before.fields, after.fields, path, key, s);
      var below := ChangedDiffers(rd, before.fields[key], after.fields[key], Child(path, key), s);
      keys := [key] + below;
      assert keys[1..] == below;
    }
  }

  lemma {:induction false} DiffersIsChanged(rd: Reading, before: Json, after: Json, path: string, s: Entry,
                                            keys: seq<string>)
    requires DiffersAt(rd, before, after, path, s, keys)
    ensures Changed(rd, before, after, path, s)
    decreases |keys|
  {
    if keys != [] {
      var k := keys[0];
      DiffersIsChanged(rd, before.fields[k], after.fields[k], Child(path, k), s, keys[1..]);
      assert ChangedAt(rd, before.fields, after.fields, path, k, s);
    }
  }

  /** Every line of a report tells the keys that lead to the difference, with dots between them. */
  lemma ReportsPoint(rd: Reading, before: Json, after: Json, s: Entry)
    ensures Removed(rd, before, after, "", s) <==> exists keys :: GoneAt(rd, before, after, "", s, keys)
    ensures Added(rd, before, after, "", s) <==> exists keys :: GoneAt(rd, after, before, "", s, keys)
    ensures Changed(rd, before, after, "", s) <==> exists keys :: DiffersAt(rd, before, after, "", s, keys)
    ensures forall keys :: PathFrom("", keys) == Dotted(keys)
  {
    RemovedIff(rd, before, after, s);
    RemovedIff(rd, after, before, s);
    AddedIsRemovedBack(rd, before, after, "", s);
    if Changed(rd, before, after, "", s) { var keys := ChangedDiffers(rd, before, after, "", s); }
    forall keys | DiffersAt(rd, before, after, "", s, keys) ensures Changed(rd, before, after, "", s) {
      DiffersIsChanged(rd, before, after, "", s, keys);
    }
    forall keys ensures PathFrom("", keys) == Dotted(keys) { PathIsDotted("", keys); }
  }

  lemma RemovedIff(rd: Reading, before: Json, after: Json, s: Entry)
    ensures Removed(rd, before, after, "", s) <==> exists keys :: GoneAt(rd, before, after, "", s, keys)
  {
    if Removed(rd, before, after, "", s) { var keys := RemovedIsGone(rd, before, after, "", s); }
    forall keys | GoneAt(rd, before, after, "", s, keys) ensures Removed(rd, before, after, "", s) {
      GoneIsRemoved(rd, before, after, "", s, keys);
    }
  }

  // ----- Classification -----

  datatype Level = Breaking | Additive | Compatible

  function ChangeLevel(removed: seq<Entry>, added: seq<Entry>, changed: seq<Entry>): Level {
    if removed != [] || changed != [] then Breaking else if added != [] then Additive else Compatible
  }

  /** Something is reported removed or changed exactly when the new contract does not embed the old. */
  lemma {:induction false} BreakingIff(rd: Reading, before: Json, after: Json, path: string)
    ensures (exists s :: Removed(rd, before, after, path, s) || Changed(rd, before, after, path, s))
        <==> !Embeds(rd, before, after)
    decreases before
  {
    if before.Object? && after.Object? {
      var b, a := before.fields, after.fields;
      forall key | key in b && key in a
        ensures !Embeds(rd, b[key], a[key]) <==>
                  exists s :: Removed(rd, b[key], a[key], Child(path, key), s)
                              || Changed(rd, b[key], a[key], Child(path, key), s)
      {
        BreakingIff(rd, b[key], a[key], Child(path, key));
      }
      if !Embeds(rd, before, after) {
        var key :| key in b && !(key in a && Embeds(rd, b[key], a[key]));
        if key !in a {
          assert RemovedAt(rd, b, a, path, key, Key(Child(path, key)));
          assert Removed(rd, before, after, path, Key(Child(path, key)));
        } else {
          var s :| Removed(rd, b[key], a[key], Child(path, key), s) || Changed(rd, b[key], a[key], Child(path, key), s);
          assert RemovedAt(rd, b, a, path, key, s) || ChangedAt(rd, b, a, path, key, s);
          assert Removed(rd, before, after, path, s) || Changed(rd, before, after, path, s);
        }
      } else {
        forall s ensures !Removed(rd, before, after, path, s) && !Changed(rd, before, after, path, s) {
          forall key ensures !RemovedAt(rd, b, a, path, key, s) && !ChangedAt(rd, b, a, path, key, s) {
            if key in b && key in a { assert Embeds(rd, b[key], a[key]); }
          }
        }
      }
    } else if before.List? && after.List? {
      if !Embeds(rd, before, after) {
        var x :| x in before.items && x !in after.items;
        assert Removed(rd, before, after, path, Element(path, x));
      }
    } else if !LeafEqual(rd, before, after) {
      assert Changed(rd, before, after, path, Key(Place(path)));
    }
  }

  /** When nothing breaks, something is reported added exactly when the contracts do not agree. */
  lemma {:induction false} AddedIff(rd: Reading, before: Json, after: Json, path: string)
    requires Embeds(rd, before, after)
    ensures (exists s :: Added(rd, before, after, path, s)) <==> !Agrees(rd, before, after)
    decreases before
  {
    if before.Object? && after.Object? {
      var b, a := before.fields, after.fields;
      forall key | key in b && key in a
        ensures (exists s :: Added(rd, b[key], a[key], Child(path, key), s)) <==> !Agrees(rd, b[key], a[key])
      {
        AddedIff(rd, b[key], a[key], Child(path, key));
      }
      if b.Keys != a.Keys {
        var key :| key in a && key !in b;
        assert AddedAt(rd, b, a, path, key, Key(Child(path, key)));
        assert Added(rd, before, after, path, Key(Child(path, key)));
      } else if !Agrees(rd, before, after) {
        var key :| key in b && key in a && !Agrees(rd, b[key], a[key]);
        var s :| Added(rd, b[key], a[key], Child(path, key), s);
        assert AddedAt(rd, b, a, path, key, s);
        assert Added(rd, before, after, path, s);
      } else {
        forall s ensures !Added(rd, before, after, path, s) {
          forall key ensures !AddedAt(rd, b, a, path, key, s) {
            if key in b && key in a { assert Agrees(rd, b[key], a[key]); }
          }
        }
      }
    } else if before.List? && after.List? {
      if !Agrees(rd, before, after) {
        var x :| x in after.items && x !in before.items;
        assert Added(rd, before, after, path, Element(path, x));
      }
    }
  }

  /** The report of two contract roots and its level: breaking unless the old contract embeds in
      the new one, compatible exactly when the two agree. */
  method Classify(rd: Reading, before: Fields, after: Fields) returns (level: Level)
    ensures level == Breaking <==> !Embeds(rd, Object(before), Object(after))
    ensures level == Compatible <==> Agrees(rd, Object(before), Object(after))
  {
    var changes := new Changes();
    changes.WalkDiff(rd, Object(before), Object(after), "");
    level := ChangeLevel(changes.removed, changes.added, changes.changed);
    LevelOfReport(rd, Object(before), Object(after), changes.removed, changes.added, changes.changed);
  }

  lemma LevelOfReport(rd: Reading, before: Json, after: Json, removed: seq<Entry>, added: seq<Entry>,
                      changed: seq<Entry>)
    requires forall s :: s in removed <==> Removed(rd, before, after, "", s)
    requires forall s :: s in added <==> Added(rd, before, after, "", s)
    requires forall s :: s in changed <==> Changed(rd, before, after, "", s)
    ensures var level := ChangeLevel(removed, added, changed);
            (level == Breaking <==> !Embeds(rd, before, after)) && (level == Compatible <==> Agrees(rd, before, after))
  {
    BreakingIff(rd, before, after, "");
    AgreesIsBothWays(rd, before, after);
    if removed != [] {
      assert Removed(rd, before, after, "", removed[0]);
    } else if changed != [] {
      assert Changed(rd, before, after, "", changed[0]);
    } else {
      assert forall s :: !Removed(rd, before, after, "", s) && !Changed(rd, before, after, "", s);
      AddedIff(rd, before, after, "");
      if added != [] { assert Added(rd, before, after, "", added[0]); }
      else { assert forall s :: !Added(rd, before, after, "", s); }
    }
  }

  /** The level as a function of the two contracts. */
  function LevelOf(rd: Reading, before: Json, after: Json): Level {
    if !Embeds(rd, before, after) then Breaking else if Agrees(rd, before, after) then Compatible else Additive
  }

  /** Levels compose along a release when no value within lists is written in two ways: without a
      breaking step, the end-to-end level is compatible if both are, and else additive. */
  lemma LevelsCompose(rd: Reading, texts: set<string>, a: Json, b: Json, c: Json)
    requires OneSpelling(rd, texts) && ListsUse(texts, a) && ListsUse(texts, b) && ListsUse(texts, c)
    requires LevelOf(rd, a, b) != Breaking && LevelOf(rd, b, c) != Breaking
    ensures LevelOf(rd, a, c)
         == if LevelOf(rd, a, b) == Compatible && LevelOf(rd, b, c) == Compatible then Compatible else Additive
  {
    EmbedsTransitive(rd, texts, a, b, c);
    AgreesIsBothWays(rd, a, b);
    AgreesIsBothWays(rd, b, c);
    AgreesIsBothWays(rd, a, c);
    if Embeds(rd, c, a) {
      EmbedsTransitive(rd, texts, b, c, a);
      EmbedsTransitive(rd, texts, c, a, b);
    }
    if Embeds(rd, b, a) && Embeds(rd, c, b) { EmbedsTransitive(rd, texts, c, b, a); }
  }

  function Enum(items: seq<Json>): Json { Object(map["enum" := List(items)]) }

  lemma EnumEmbeds(rd: Reading, items: seq<Json>, others: seq<Json>)
    ensures Embeds(rd, Enum(items), Enum(others))
        <==> Equal(rd, List(items), List(others)) || Kept(items, others)
  {
    var b, a := Enum(items).fields, Enum(others).fields;
    assert Embeds(rd, b["enum"], a["enum"]) <==> Equal(rd, List(items), List(others)) || Kept(items, others);
  }

  /** A value written in two ways: the list [s] is respelled as [t], which is compatible, then
      extended, which is additive; end to end s is gone, which is breaking. */
  lemma RespellingBreaks(rd: Reading, s: string, t: string)
    requires s != t && rd.value(s) == rd.value(t)
    ensures var a, b, c := Enum([Scalar(s)]), Enum([Scalar(t)]), Enum([Scalar(t), List([])]);
            && LevelOf(rd, a, b) == Compatible && LevelOf(rd, b, c) == Additive && LevelOf(rd, a, c) == Breaking
  {
    var a, b, c := [Scalar(s)], [Scalar(t)], [Scalar(t), List([])];
    assert |Value(rd, List(a)).items| == |Value(rd, List(b)).items| == 1 && |Value(rd, List(c)).items| == 2;
    assert Value(rd, List(a)) == Value(rd, List(b));
    assert c[1] !in b && a[0] !in c;
    EnumEmbeds(rd, a, b);
    EnumEmbeds(rd, b, a);
    EnumEmbeds(rd, b, c);
    EnumEmbeds(rd, c, b);
    EnumEmbeds(rd, a, c);
    AgreesIsBothWays(rd, Enum(a), Enum(b));
    AgreesIsBothWays(rd, Enum(b), Enum(c));
  }

  // ----- The gate -----

  datatype Decision = Pass | Warn | Block

  /** An optional text that is absent or empty does not count. */
  predicate Present(t: Option<string>) { t.Some? && t.value != "" }

  function EvaluateGate(level: Level, mode: string, plan: Option<string>, ticket: Option<string>): (Decision, int) {
    if mode == "warning" then
      if level == Breaking && !Present(plan) then (Warn, 0) else (Pass, 0)
    else if level == Breaking && Present(ticket) then (Warn, 0)
    else if level == Breaking && !Present(plan) then (Block, 2)
    else (Pass, 0)
  }

  /** The gate fails a build exactly for a breaking change outside warning mode with neither a
      migration plan nor an exemption; it says so by blocking.  It warns exactly of a breaking change
      without a plan in warning mode, or with an exemption outside it; all else passes. */
  lemma GateBlocks(level: Level, mode: string, plan: Option<string>, ticket: Option<string>)
    ensures var (decision, code) := EvaluateGate(level, mode, plan, ticket);
            var planned, exempt := plan !in {None, Some("")}, ticket !in {None, Some("")};
            && (code != 0 <==> mode != "warning" && level == Breaking && !planned && !exempt)
            && (decision == Block <==> code != 0) && (code == 0 || code == 2)
            && (decision == Warn <==> level == Breaking && if mode == "warning" then !planned else exempt)
  {
  }

  /** Two or more releases, each of which the blocking gate let through with neither a plan nor a
      ticket, and whose lists use only the given texts. */
  ghost predicate Gated(rd: Reading, texts: set<string>, releases: seq<Json>, mode: string) {
    && 2 <= |releases| && mode != "warning"
    && (forall k :: 0 <= k < |releases| ==> releases[k].Object? && ListsUse(texts, releases[k]))
    && forall k :: 0 < k < |releases| ==>
         EvaluateGate(LevelOf(rd, releases[k - 1], releases[k]), mode, None, None).1 == 0
  }

  /** When no value within lists is written in two ways, a gated history never breaks an early
      consumer: the first contract embeds in the last. */
  lemma {:induction false} GatedHistoryIsSafe(rd: Reading, texts: set<string>, releases: seq<Json>, mode: string)
    requires OneSpelling(rd, texts) && Gated(rd, texts, releases, mode)
    ensures Embeds(rd, releases[0], releases[|releases| - 1])
    decreases |releases|
  {
    var n := |releases| - 1;
    assert EvaluateGate(LevelOf(rd, releases[n - 1], releases[n]), mode, None, None).1 == 0;
    if 1 < n {
      GatedHistoryIsSafe(rd, texts, releases[..n], mode);
      EmbedsTransitive(rd, texts, releases[0], releases[n - 1], releases[n]);
    }
  }

  /** That condition is exact: the gate protects every history over a set of texts exactly when no
      two of them are the same value. */
  lemma GateIsSafeExactlyWhen(rd: Reading, texts: set<string>, mode: string)
    requires mode != "warning"
    ensures OneSpelling(rd, texts)
        <==> forall releases :: Gated(rd, texts, releases, mode) ==>
                                  Embeds(rd, releases[0], releases[|releases| - 1])
  {
    if OneSpelling(rd, texts) {
      forall releases | Gated(rd, texts, releases, mode)
        ensures Embeds(rd, releases[0], releases[|releases| - 1])
      {
        GatedHistoryIsSafe(rd, texts, releases, mode);
      }
    } else {
      var s, t :| s in texts && t in texts && rd.value(s) == rd.value(t) && s != t;
      RespellingBreaks(rd, s, t);
      var releases := [Enum([Scalar(s)]), Enum([Scalar(t)]), Enum([Scalar(t), List([])])];
      assert Uses(texts, Scalar(s)) && Uses(texts, Scalar(t)) && Uses(texts, List([]));
      forall k | 0 <= k < |releases| ensures releases[k].Object? && ListsUse(texts, releases[k]) {
        assert ListsUse(texts, releases[k].fields["enum"]);
      }
      forall k | 0 < k < |releases|
        ensures EvaluateGate(LevelOf(rd, releases[k - 1], releases[k]), mode, None, None).1 == 0
      {
      }
      assert Gated(rd, texts, releases, mode);
    }
  }
}
