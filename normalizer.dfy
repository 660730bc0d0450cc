/**
 * `convertIconifyResultsToIcons` (src/lib/icons/iconService.ts): turns the raw
 * `prefix:name` strings of one provider response into `Icon` records, skipping
 * malformed names and inferring style, category, tags and a display name.
 */
module Normalizer {
  import opened Text
  import opened Icons

  datatype QualifiedName = QualifiedName(prefix: string, name: string)

  /**
   * `const [prefix, name] = iconName.split(':')` followed by the skip test
   * `!prefix || !name`: the prefix is the text before the first `:`, the name
   * the text between the first and the second `:` (anything after a second
   * `:` is ignored).
   */
  function ParseIconName(raw: string): (r: Option<QualifiedName>)
    ensures r.Some? ==> r.value.prefix != [] && r.value.name != []
    ensures r.Some? ==> ':' !in r.value.prefix && ':' !in r.value.name
    ensures r.Some? ==>
      var n := |r.value.prefix| + 1 + |r.value.name|;
      n <= |raw| && raw[..n] == r.value.prefix + ":" + r.value.name && (n == |raw| || raw[n] == ':')
    ensures r.None? <==>
      || ':' !in raw
      || raw[0] == ':'
      || (var i := IndexOf(raw, ':'); i + 1 == |raw| || raw[i + 1] == ':')
  {
    var i := IndexOf(raw, ':');
    if i == |raw| then None
    else
      var prefix := raw[..i];
      var name := BeforeFirst(raw[i + 1..], ':');
      assert raw[..i + 1 + |name|] == prefix + ":" + name;
      if prefix == [] || name == [] then None else Some(QualifiedName(prefix, name))
  }

  /** Any raw string that starts with `prefix:name` (both non-empty, free of `:`) and goes on with nothing or with `:` parses to exactly that pair. */
  lemma ParseIconNameComplete(prefix: string, name: string, rest: string)
    requires prefix != [] && name != [] && ':' !in prefix && ':' !in name
    requires rest == [] || rest[0] == ':'
    ensures ParseIconName(prefix + ":" + name + rest) == Some(QualifiedName(prefix, name))
  {
    var raw := prefix + ":" + name + rest;
    assert forall j :: 0 <= j < |prefix| ==> raw[j] == prefix[j] != ':';
    IndexOfIs(raw, ':', |prefix|);
    var after := raw[|prefix| + 1..];
    assert after == name + rest;
    assert forall j :: 0 <= j < |name| ==> after[j] == name[j] != ':';
    assert rest != [] ==> after[|name|] == rest[0];
    IndexOfIs(after, ':', |name|);
    assert raw[..|prefix|] == prefix;
    assert after[..|name|] == name;
  }

  // ---------------------------------------------------------------------------
  // Style and category inference

  /**
   * The style rules as the source writes them: an if / else-if chain, first
   * match wins. The style is outline exactly when none of the solid, thin,
   * duotone or bold markers occurs.
   */
  function InferStyle(prefix: string, name: string): (r: Style)
    ensures r == Outline <==>
      && !Includes(prefix, "solid") && !Includes(prefix, "thin") && !Includes(prefix, "duotone") && !Includes(prefix, "bold")
      && !Includes(name, "fill") && !Includes(name, "solid") && !Includes(name, "thin") && !Includes(name, "duotone") && !Includes(name, "bold")
  {
    if Includes(prefix, "solid") || Includes(name, "fill") || Includes(name, "solid") then Solid
    else if Includes(prefix, "thin") || Includes(name, "thin") then Thin
    else if Includes(prefix, "duotone") || Includes(name, "duotone") then Duotone
    else if Includes(prefix, "bold") || Includes(name, "bold") then Bold
    else Outline
  }

  /** The categories `InferCategory` can produce: interface and the ten keyword groups. */
  const ReachableCategories: set<Category> :=
    {Interface, Arrows, Users, Files, Ecommerce, Media, Maps, Business, Social, Brands, Development}

  /** The category rules as the source writes them: an if / else-if chain over the name, first match wins. */
  function InferCategory(name: string): (r: Category)
    ensures r in ReachableCategories
  {
      if Includes(name, "arrow") || Includes(name, "chevron") || Includes(name, "caret") then Arrows
      else if Includes(name, "user") || Includes(name, "person") || Includes(name, "profile") || Includes(name, "avatar") then Users
      else if Includes(name, "file") || Includes(name, "document") || Includes(name, "page") then Files
      else if Includes(name, "cart") || Includes(name, "shop") || Includes(name, "store") || Includes(name, "bag") then Ecommerce
      else if Includes(name, "camera") || Includes(name, "video") || Includes(name, "music") || Includes(name, "play") then Media
      else if Includes(name, "map") || Includes(name, "location") || Includes(name, "pin") || Includes(name, "navigation") then Maps
      else if Includes(name, "chart") || Includes(name, "graph") || Includes(name, "business") || Includes(name, "analytics") then Business
      else if Includes(name, "facebook") || Includes(name, "twitter") || Includes(name, "instagram") || Includes(name, "linkedin") then Social
      else if Includes(name, "brand") || Includes(name, "logo") then Brands
      else if Includes(name, "code") || Includes(name, "git") || Includes(name, "development") || Includes(name, "terminal") then Development
      else Interface
  }

  /**
   * The same heuristics as data: an ordered table of rules, each naming its
   * result and the words that trigger it in the prefix or in the name,
   * evaluated top to bottom.
   */
  datatype Rule<T> = Rule(result: T, prefixWords: seq<string>, nameWords: seq<string>)

  function FirstMatch<T>(rules: seq<Rule<T>>, prefix: string, name: string, default: T): (r: T)
    ensures r == default || exists k :: 0 <= k < |rules| && r == rules[k].result
  {
    if rules == [] then default
    else if IncludesAny(prefix, rules[0].prefixWords) || IncludesAny(name, rules[0].nameWords) then rules[0].result
    else FirstMatch(rules[1..], prefix, name, default)
  }

  const StyleRules: seq<Rule<Style>> := [
    Rule(Solid, ["solid"], ["fill", "solid"]),
    Rule(Thin, ["thin"], ["thin"]),
    Rule(Duotone, ["duotone"], ["duotone"]),
    Rule(Bold, ["bold"], ["bold"])
  ]

  const CategoryRules: seq<Rule<Category>> := [
    Rule(Arrows, [], ["arrow", "chevron", "caret"]),
    Rule(Users, [], ["user", "person", "profile", "avatar"]),
    Rule(Files, [], ["file", "document", "page"]),
    Rule(Ecommerce, [], ["cart", "shop", "store", "bag"]),
    Rule(Media, [], ["camera", "video", "music", "play"]),
    Rule(Maps, [], ["map", "location", "pin", "navigation"]),
    Rule(Business, [], ["chart", "graph", "business", "analytics"]),
    Rule(Social, [], ["facebook", "twitter", "instagram", "linkedin"]),
    Rule(Brands, [], ["brand", "logo"]),
    Rule(Development, [], ["code", "git", "development", "terminal"])
  ]

  lemma IncludesAny1(s: string, a: string)
    ensures IncludesAny(s, [a]) == Includes(s, a)
  {
    assert [a][1..] == [];
  }

  lemma IncludesAny2(s: string, a: string, b: string)
    ensures IncludesAny(s, [a, b]) == (Includes(s, a) || Includes(s, b))
  {
    assert [a, b][1..] == [b];
    IncludesAny1(s, b);
  }

  lemma IncludesAny3(s: string, a: string, b: string, c: string)
    ensures IncludesAny(s, [a, b, c]) == (Includes(s, a) || Includes(s, b) || Includes(s, c))
  {
    assert [a, b, c][1..] == [b, c];
    IncludesAny2(s, b, c);
  }

  lemma IncludesAny4(s: string, a: string, b: string, c: string, d: string)
    ensures IncludesAny(s, [a, b, c, d]) == (Includes(s, a) || Includes(s, b) || Includes(s, c) || Includes(s, d))
  {
    assert [a, b, c, d][1..] == [b, c, d];
    IncludesAny3(s, b, c, d);
  }

  /** Each category rule's name test spelled out as the source's disjunction. */
  lemma CategoryRulesUnfold(name: string)
    ensures |CategoryRules| == 10
    ensures forall k :: 0 <= k < 10 ==> CategoryRules[k].prefixWords == []
    ensures IncludesAny(name, CategoryRules[0].nameWords) == (Includes(name, "arrow") || Includes(name, "chevron") || Includes(name, "caret"))
    ensures IncludesAny(name, CategoryRules[1].nameWords) == (Includes(name, "user") || Includes(name, "person") || Includes(name, "profile") || Includes(name, "avatar"))
    ensures IncludesAny(name, CategoryRules[2].nameWords) == (Includes(name, "file") || Includes(name, "document") || Includes(name, "page"))
    ensures IncludesAny(name, CategoryRules[3].nameWords) == (Includes(name, "cart") || Includes(name, "shop") || Includes(name, "store") || Includes(name, "bag"))
    ensures IncludesAny(name, CategoryRules[4].nameWords) == (Includes(name, "camera") || Includes(name, "video") || Includes(name, "music") || Includes(name, "play"))
    ensures IncludesAny(name, CategoryRules[5].nameWords) == (Includes(name, "map") || Includes(name, "location") || Includes(name, "pin") || Includes(name, "navigation"))
    ensures IncludesAny(name, CategoryRules[6].nameWords) == (Includes(name, "chart") || Includes(name, "graph") || Includes(name, "business") || Includes(name, "analytics"))
    ensures IncludesAny(name, CategoryRules[7].nameWords) == (Includes(name, "facebook") || Includes(name, "twitter") || Includes(name, "instagram") || Includes(name, "linkedin"))
    ensures IncludesAny(name, CategoryRules[8].nameWords) == (Includes(name, "brand") || Includes(name, "logo"))
    ensures IncludesAny(name, CategoryRules[9].nameWords) == (Includes(name, "code") || Includes(name, "git") || Includes(name, "development") || Includes(name, "terminal"))
  {
    IncludesAny3(name, "arrow", "chevron", "caret");
    IncludesAny4(name, "user", "person", "profile", "avatar");
    IncludesAny3(name, "file", "document", "page");
    IncludesAny4(name, "cart", "shop", "store", "bag");
    IncludesAny4(name, "camera", "video", "music", "play");
    IncludesAny4(name, "map", "location", "pin", "navigation");
    IncludesAny4(name, "chart", "graph", "business", "analytics");
    IncludesAny4(name, "facebook", "twitter", "instagram", "linkedin");
    IncludesAny2(name, "brand", "logo");
    IncludesAny4(name, "code", "git", "development", "terminal");
  }

  lemma FirstMatchStep<T>(rules: seq<Rule<T>>, k: nat, prefix: string, name: string, default: T)
    requires k < |rules|
    ensures FirstMatch(rules[k..], prefix, name, default) ==
      if IncludesAny(prefix, rules[k].prefixWords) || IncludesAny(name, rules[k].nameWords)
      then rules[k].result
      else FirstMatch(rules[k + 1..], prefix, name, default)
  {
    assert rules[k..][1..] == rules[k + 1..];
  }

  /** The style chain is the ordered style table, evaluated top to bottom with default outline. */
  lemma InferStyleIsFirstMatch(prefix: string, name: string)
    ensures InferStyle(prefix, name) == FirstMatch(StyleRules, prefix, name, Outline)
  {
    IncludesAny1(prefix, "solid");
    IncludesAny2(name, "fill", "solid");
    IncludesAny1(prefix, "thin");
    IncludesAny1(name, "thin");
    IncludesAny1(prefix, "duotone");
    IncludesAny1(name, "duotone");
    IncludesAny1(prefix, "bold");
    IncludesAny1(name, "bold");
    var rules := StyleRules;
    assert rules[0..] == rules;
    FirstMatchStep(rules, 0, prefix, name, Outline);
    FirstMatchStep(rules, 1, prefix, name, Outline);
    FirstMatchStep(rules, 2, prefix, name, Outline);
    FirstMatchStep(rules, 3, prefix, name, Outline);
    assert rules[4..] == [];
  }

  /** Rows 9 to 9 of the keyword table, written out as a chain of tests. */
  lemma CategoryRulesChainFrom9(name: string)
    ensures FirstMatch(CategoryRules[9..], [], name, Interface) ==
      (if IncludesAny(name, CategoryRules[9].nameWords) then Development else Interface)
  {
    assert CategoryRules[9].prefixWords == [];
    FirstMatchStep(CategoryRules, 9, [], name, Interface);
    assert CategoryRules[10..] == [];
  }

  /** Rows 8 to 9 of the keyword table, written out as a chain of tests. */
  lemma CategoryRulesChainFrom8(name: string)
    ensures FirstMatch(CategoryRules[8..], [], name, Interface) ==
      (if IncludesAny(name, CategoryRules[8].nameWords) then Brands else (if IncludesAny(name, CategoryRules[9].nameWords) then Development else Interface))
  {
    assert CategoryRules[8].prefixWords == [];
    FirstMatchStep(CategoryRules, 8, [], name, Interface);
    CategoryRulesChainFrom9(name);
  }

  /** Rows 7 to 9 of the keyword table, written out as a chain of tests. */
  lemma CategoryRulesChainFrom7(name: string)
    ensures FirstMatch(CategoryRules[7..], [], name, Interface) ==
      (if IncludesAny(name, CategoryRules[7].nameWords) then Social else (if IncludesAny(name, CategoryRules[8].nameWords) then Brands else (if IncludesAny(name, CategoryRules[9].nameWords) then Development else Interface)))
  {
    assert CategoryRules[7].prefixWords == [];
    FirstMatchStep(CategoryRules, 7, [], name, Interface);
    CategoryRulesChainFrom8(name);
  }

  /** Rows 6 to 9 of the keyword table, written out as a chain of tests. */
  lemma CategoryRulesChainFrom6(name: string)
    ensures FirstMatch(CategoryRules[6..], [], name, Interface) ==
      (if IncludesAny(name, CategoryRules[6].nameWords) then Business else (if IncludesAny(name, CategoryRules[7].nameWords) then Social else (if IncludesAny(name, CategoryRules[8].nameWords) then Brands else (if IncludesAny(name, CategoryRules[9].nameWords) then Development else Interface))))
  {
    assert CategoryRules[6].prefixWords == [];
    FirstMatchStep(CategoryRules, 6, [], name, Interface);
    CategoryRulesChainFrom7(name);
  }

  /** Rows 5 to 9 of the keyword table, written out as a chain of tests. */
  lemma CategoryRulesChainFrom5(name: string)
    ensures FirstMatch(CategoryRules[5..], [], name, Interface) ==
      (if IncludesAny(name, CategoryRules[5].nameWords) then Maps else (if IncludesAny(name, CategoryRules[6].nameWords) then Business else (if IncludesAny(name, CategoryRules[7].nameWords) then Social else (if IncludesAny(name, CategoryRules[8].nameWords) then Brands else (if IncludesAny(name, CategoryRules[9].nameWords) then Development else Interface)))))
  {
    assert CategoryRules[5].prefixWords == [];
    FirstMatchStep(CategoryRules, 5, [], name, Interface);
    CategoryRulesChainFrom6(name);
  }

  /** Rows 4 to 9 of the keyword table, written out as a chain of tests. */
  lemma CategoryRulesChainFrom4(name: string)
    ensures FirstMatch(CategoryRules[4..], [], name, Interface) ==
      (if IncludesAny(name, CategoryRules[4].nameWords) then Media else (if IncludesAny(name, CategoryRules[5].nameWords) then Maps else (if IncludesAny(name, CategoryRules[6].nameWords) then Business else (if IncludesAny(name, CategoryRules[7].nameWords) then Social else (if IncludesAny(name, CategoryRules[8].nameWords) then Brands else (if IncludesAny(name, CategoryRules[9].nameWords) then Development else Interface))))))
  {
    assert CategoryRules[4].prefixWords == [];
    FirstMatchStep(CategoryRules, 4, [], name, Interface);
    CategoryRulesChainFrom5(name);
  }

  /** Rows 3 to 9 of the keyword table, written out as a chain of tests. */
  lemma CategoryRulesChainFrom3(name: string)
    ensures FirstMatch(CategoryRules[3..], [], name, Interface) ==
      (if IncludesAny(name, CategoryRules[3].nameWords) then Ecommerce else (if IncludesAny(name, CategoryRules[4].nameWords) then Media else (if IncludesAny(name, CategoryRules[5].nameWords) then Maps else (if IncludesAny(name, CategoryRules[6].nameWords) then Business else (if IncludesAny(name, CategoryRules[7].nameWords) then Social else (if IncludesAny(name, CategoryRules[8].nameWords) then Brands else (if IncludesAny(name, CategoryRules[9].nameWords) then Development else Interface)))))))
  {
    assert CategoryRules[3].prefixWords == [];
    FirstMatchStep(CategoryRules, 3, [], name, Interface);
    CategoryRulesChainFrom4(name);
  }

  /** Rows 2 to 9 of the keyword table, written out as a chain of tests. */
  lemma CategoryRulesChainFrom2(name: string)
    ensures FirstMatch(CategoryRules[2..], [], name, Interface) ==
      (if IncludesAny(name, CategoryRules[2].nameWords) then Files else (if IncludesAny(name, CategoryRules[3].nameWords) then Ecommerce else (if IncludesAny(name, CategoryRules[4].nameWords) then Media else (if IncludesAny(name, CategoryRules[5].nameWords) then Maps else (if IncludesAny(name, CategoryRules[6].nameWords) then Business else (if IncludesAny(name, CategoryRules[7].nameWords) then Social else (if IncludesAny(name, CategoryRules[8].nameWords) then Brands else (if IncludesAny(name, CategoryRules[9].nameWords) then Development else Interface))))))))
  {
    assert CategoryRules[2].prefixWords == [];
    FirstMatchStep(CategoryRules, 2, [], name, Interface);
    CategoryRulesChainFrom3(name);
  }

  /** Rows 1 to 9 of the keyword table, written out as a chain of tests. */
  lemma CategoryRulesChainFrom1(name: string)
    ensures FirstMatch(CategoryRules[1..], [], name, Interface) ==
      (if IncludesAny(name, CategoryRules[1].nameWords) then Users else (if IncludesAny(name, CategoryRules[2].nameWords) then Files else (if IncludesAny(name, CategoryRules[3].nameWords) then Ecommerce else (if IncludesAny(name, CategoryRules[4].nameWords) then Media else (if IncludesAny(name, CategoryRules[5].nameWords) then Maps else (if IncludesAny(name, CategoryRules[6].nameWords) then Business else (if IncludesAny(name, CategoryRules[7].nameWords) then Social else (if IncludesAny(name, CategoryRules[8].nameWords) then Brands else (if IncludesAny(name, CategoryRules[9].nameWords) then Development else Interface)))))))))
  {
    assert CategoryRules[1].prefixWords == [];
    FirstMatchStep(CategoryRules, 1, [], name, Interface);
    CategoryRulesChainFrom2(name);
  }

  /** The keyword table evaluated top to bottom, written out as a chain of tests. */
  lemma CategoryRulesChain(name: string)
    ensures FirstMatch(CategoryRules, [], name, Interface) ==
      (if IncludesAny(name, CategoryRules[0].nameWords) then Arrows else (if IncludesAny(name, CategoryRules[1].nameWords) then Users else (if IncludesAny(name, CategoryRules[2].nameWords) then Files else (if IncludesAny(name, CategoryRules[3].nameWords) then Ecommerce else (if IncludesAny(name, CategoryRules[4].nameWords) then Media else (if IncludesAny(name, CategoryRules[5].nameWords) then Maps else (if IncludesAny(name, CategoryRules[6].nameWords) then Business else (if IncludesAny(name, CategoryRules[7].nameWords) then Social else (if IncludesAny(name, CategoryRules[8].nameWords) then Brands else (if IncludesAny(name, CategoryRules[9].nameWords) then Development else Interface))))))))))
  {
    assert CategoryRules[0].prefixWords == [];
    FirstMatchStep(CategoryRules, 0, [], name, Interface);
    CategoryRulesChainFrom1(name);
    assert CategoryRules[0..] == CategoryRules;
  }

  /** The source's if / else-if chain, with each group's disjunction read as a table row. */
  lemma InferCategoryChain(name: string)
    ensures InferCategory(name) ==
      (if IncludesAny(name, CategoryRules[0].nameWords) then Arrows else (if IncludesAny(name, CategoryRules[1].nameWords) then Users else (if IncludesAny(name, CategoryRules[2].nameWords) then Files else (if IncludesAny(name, CategoryRules[3].nameWords) then Ecommerce else (if IncludesAny(name, CategoryRules[4].nameWords) then Media else (if IncludesAny(name, CategoryRules[5].nameWords) then Maps else (if IncludesAny(name, CategoryRules[6].nameWords) then Business else (if IncludesAny(name, CategoryRules[7].nameWords) then Social else (if IncludesAny(name, CategoryRules[8].nameWords) then Brands else (if IncludesAny(name, CategoryRules[9].nameWords) then Development else Interface))))))))))
  {
    CategoryRulesUnfold(name);
  }

  /** The category chain is the ordered keyword table, evaluated top to bottom with default interface. */
  lemma InferCategoryIsFirstMatch(name: string)
    ensures InferCategory(name) == FirstMatch(CategoryRules, [], name, Interface)
  {
    CategoryRulesChain(name);
    InferCategoryChain(name);
  }

  /** Rule order decides overlaps: a name with both "thin" and "bold" (and no solid marker) is thin. */
  lemma ThinBeforeBold(prefix: string, name: string)
    requires !Includes(prefix, "solid") && !Includes(name, "fill") && !Includes(name, "solid")
    requires Includes(name, "thin") && Includes(name, "bold")
    ensures InferStyle(prefix, name) == Thin
  {
  }

  // ---------------------------------------------------------------------------
  // Tags and display name

  /** `name.split(/[-_]/).filter(Boolean)`. */
  function Tags(name: string): (tags: seq<string>)
    ensures forall k :: 0 <= k < |tags| ==> tags[k] != [] && NoSep(tags[k])
    ensures Concat(tags) == RemoveSeps(name)
  {
    ConcatNonEmptySplit(name);
    NonEmpty(SplitSeps(name))
  }

  /** A name without separators is its own single tag. */
  lemma TagsOfWord(x: string)
    requires x != [] && NoSep(x)
    ensures Tags(x) == [x]
  {
    SplitWord(x);
    NonEmptyAppend([], [x]);
  }

  /**
   * A separator ends a tag: the tags of a name split at a `-` or `_` are the
   * tags of the part before it followed by those of the part after it.
   */
  lemma TagsSplitAt(a: string, c: char, b: string)
    requires IsSep(c)
    ensures Tags(a + [c] + b) == Tags(a) + Tags(b)
  {
    SplitAtSep(a, c, b);
    NonEmptyAppend(SplitSeps(a), SplitSeps(b));
  }

  /** `name.split(/[-_]/).map(capitalize).join(' ')`. */
  function ReadableName(name: string): (r: string)
    ensures r == TitleCase(name, true)
    ensures |r| == |name|
  {
    CapitalizedJoinIsTitleCase(name);
    JoinWith(CapitalizeAll(SplitSeps(name)), " ")
  }

  // ---------------------------------------------------------------------------
  // One raw name, and a whole response

  /** The record the loop body pushes for one raw name, or nothing when the name is skipped. */
  function Normalize(raw: string, apiSource: string): (r: Option<Icon>)
    ensures r.Some? <==> ParseIconName(raw).Some?
    ensures r.Some? ==>
      && r.value.id == raw && r.value.iconifyName == raw
      && r.value.library == BeforeFirst(raw, ':') && r.value.library != []
      && ':' in raw
      && r.value.apiSource == apiSource
      && r.value.category in ReachableCategories
    ensures r.Some? ==>
      var q := ParseIconName(raw).value;
      && r.value.library == q.prefix
      && r.value.style == InferStyle(q.prefix, q.name)
      && r.value.category == InferCategory(q.name)
      && r.value.tags == Tags(q.name)
      && r.value.name == ReadableName(q.name)
  {
    match ParseIconName(raw)
    case None => None
    case Some(q) =>
      assert raw[|q.prefix|] == ':';
      assert BeforeFirst(raw, ':') == q.prefix by {
        assert forall j :: 0 <= j < |q.prefix| ==> raw[j] == q.prefix[j];
      }
      Some(Icon(
        id := raw,
        name := ReadableName(q.name),
        tags := Tags(q.name),
        style := InferStyle(q.prefix, q.name),
        library := q.prefix,
        category := InferCategory(q.name),
        iconifyName := raw,
        apiSource := apiSource))
  }

  /** An icon is normalised when it is exactly what the normaliser makes of its own name and source. */
  predicate Normalized(icon: Icon)
  {
    Normalize(icon.iconifyName, icon.apiSource) == Some(icon)
  }

  /** Two normalised icons with the same id agree on everything except, possibly, the provider that produced them. */
  lemma SameIdSameRecord(a: Icon, b: Icon)
    requires Normalized(a) && Normalized(b) && a.id == b.id
    ensures a.(apiSource := b.apiSource) == b
  {
  }

  /** The raw names a response keeps, in order: those with a non-empty prefix and name. */
  function KeptNames(raws: seq<string>): (r: seq<string>)
    ensures |r| <= |raws|
    ensures forall k :: 0 <= k < |r| ==> r[k] in raws && ParseIconName(r[k]).Some?
    ensures forall x :: x in raws && ParseIconName(x).Some? ==> x in r
  {
    if raws == [] then []
    else
      var init := raws[..|raws| - 1];
      assert forall x :: x in raws ==> x in init || x == raws[|raws| - 1];
      KeptNames(init) + (if ParseIconName(raws[|raws| - 1]).Some? then [raws[|raws| - 1]] else [])
  }

  /** Keeping names keeps their order and multiplicity: it distributes over concatenation. */
  lemma {:induction false} KeptNamesAppend(a: seq<string>, b: seq<string>)
    ensures KeptNames(a + b) == KeptNames(a) + KeptNames(b)
    decreases |b|
  {
    if b != [] {
      var b' := b[..|b| - 1];
      var last := b[|b| - 1];
      var tail := if ParseIconName(last).Some? then [last] else [];
      assert (a + b)[..|a + b| - 1] == a + b';
      assert (a + b)[|a + b| - 1] == last;
      assert KeptNames(a + b) == KeptNames(a + b') + tail;
      assert KeptNames(b) == KeptNames(b') + tail;
      KeptNamesAppend(a, b');
    } else {
      assert a + b == a;
    }
  }

  /** A single raw name is kept exactly when it parses. */
  lemma KeptName(x: string)
    ensures KeptNames([x]) == (if ParseIconName(x).Some? then [x] else [])
  {
    assert [x][..0] == [];
  }

  /**
   * What `convertIconifyResultsToIcons` returns for a response whose
   * `icons` list is `raws` (a missing list behaves as the empty one).
   */
  function NormalizeAll(raws: seq<string>, apiSource: string): (icons: seq<Icon>)
    ensures Keys(icons, ById) == KeptNames(raws)
    ensures forall k :: 0 <= k < |icons| ==> Normalized(icons[k]) && icons[k].apiSource == apiSource
  {
    if raws == [] then []
    else
      var init := NormalizeAll(raws[..|raws| - 1], apiSource);
      var last := Normalize(raws[|raws| - 1], apiSource);
      var tail := if last.Some? then [last.value] else [];
      KeysOfAppend(init, tail, ById);
      AppendNormalized(init, tail, apiSource);
      init + tail
  }

  lemma KeysOfAppend(a: seq<Icon>, b: seq<Icon>, field: DedupKey)
    ensures Keys(a + b, field) == Keys(a, field) + Keys(b, field)
  {
  }

  lemma AppendNormalized(a: seq<Icon>, b: seq<Icon>, apiSource: string)
    requires forall k :: 0 <= k < |a| ==> Normalized(a[k]) && a[k].apiSource == apiSource
    requires forall k :: 0 <= k < |b| ==> Normalized(b[k]) && b[k].apiSource == apiSource
    ensures forall k :: 0 <= k < |a + b| ==> Normalized((a + b)[k]) && (a + b)[k].apiSource == apiSource
  {
    forall k | 0 <= k < |a + b|
      ensures Normalized((a + b)[k]) && (a + b)[k].apiSource == apiSource
    {
      if k >= |a| {
        assert (a + b)[k] == b[k - |a|];
      }
    }
  }

  /** Any record in a normalised response is normalised and carries the response's source tag. */
  lemma NormalizeAllMember(raws: seq<string>, apiSource: string, icon: Icon)
    requires icon in NormalizeAll(raws, apiSource)
    ensures Normalized(icon) && icon.apiSource == apiSource
  {
    var icons := NormalizeAll(raws, apiSource);
    var k :| 0 <= k < |icons| && icons[k] == icon;
  }

  /** Normalising a concatenation of responses is concatenating their normalisations. */
  lemma {:induction false} NormalizeAllAppend(a: seq<string>, b: seq<string>, apiSource: string)
    ensures NormalizeAll(a + b, apiSource) == NormalizeAll(a, apiSource) + NormalizeAll(b, apiSource)
    decreases |b|
  {
    if b != [] {
      var b' := b[..|b| - 1];
      assert (a + b)[..|a + b| - 1] == a + b';
      assert (a + b)[|a + b| - 1] == b[|b| - 1];
      NormalizeAllAppend(a, b', apiSource);
    } else {
      assert a + b == a;
    }
  }

  /**
   * `convertIconifyResultsToIcons(data, apiSource)`: walks the raw names in
   * order and pushes one record per well-formed name.
   */
  method ConvertIconifyResultsToIcons(raws: seq<string>, apiSource: string) returns (icons: seq<Icon>)
    ensures icons == NormalizeAll(raws, apiSource)
  {
    icons := [];
    var i := 0;
    while i < |raws|
      invariant 0 <= i <= |raws|
      invariant icons == NormalizeAll(raws[..i], apiSource)
    {
      var iconName := raws[i];
      assert raws[..i + 1][..i] == raws[..i];
      var parsed := ParseIconName(iconName);
      if parsed.Some? {
        var prefix, name := parsed.value.prefix, parsed.value.name;
        var style := InferStyle(prefix, name);
        var tags := Tags(name);
        var category := InferCategory(name);
        var readableName := ReadableName(name);
        icons := icons + [Icon(iconName, readableName, tags, style, prefix, category, iconName, apiSource)];
      }
      i := i + 1;
    }
    assert raws[..i] == raws;
  }

  /** A bold marker decides the style only when no solid, thin or duotone marker comes first. */
  lemma BoldWhenNoEarlierMarker(prefix: string, name: string)
    requires !Includes(prefix, "solid") && !Includes(prefix, "thin") && !Includes(prefix, "duotone")
    requires !Includes(name, "fill") && !Includes(name, "solid") && !Includes(name, "thin") && !Includes(name, "duotone")
    requires Includes(prefix, "bold") || Includes(name, "bold")
    ensures InferStyle(prefix, name) == Bold
  {
  }

  // Single facts about the words of the two example names below, one lemma
  // each so that each literal is unfolded on its own: all sixteen are
  // instances of `Excludes`, but stated together inside the two example
  // lemmas they make the solver unfold every literal against every word.
  lemma NotIn0() ensures !Includes("tabler", "solid") { Excludes("tabler", "solid", 's'); }
  lemma NotIn1() ensures !Includes("tabler", "thin") { Excludes("tabler", "thin", 'h'); }
  lemma NotIn2() ensures !Includes("tabler", "duotone") { Excludes("tabler", "duotone", 'd'); }
  lemma NotIn3() ensures !Includes("tabler", "bold") { Excludes("tabler", "bold", 'o'); }
  lemma NotIn4() ensures !Includes("arrow-right", "fill") { Excludes("arrow-right", "fill", 'f'); }
  lemma NotIn5() ensures !Includes("arrow-right", "solid") { Excludes("arrow-right", "solid", 's'); }
  lemma NotIn6() ensures !Includes("arrow-right", "thin") { Excludes("arrow-right", "thin", 'n'); }
  lemma NotIn7() ensures !Includes("arrow-right", "duotone") { Excludes("arrow-right", "duotone", 'u'); }
  lemma NotIn8() ensures !Includes("arrow-right", "bold") { Excludes("arrow-right", "bold", 'b'); }
  lemma NotIn9() ensures !Includes("mdi", "solid") { Excludes("mdi", "solid", 's'); }
  lemma NotIn10() ensures !Includes("mdi", "thin") { Excludes("mdi", "thin", 't'); }
  lemma NotIn11() ensures !Includes("mdi", "duotone") { Excludes("mdi", "duotone", 'u'); }
  lemma NotIn12() ensures !Includes("arrow-right-bold", "fill") { Excludes("arrow-right-bold", "fill", 'f'); }
  lemma NotIn13() ensures !Includes("arrow-right-bold", "solid") { Excludes("arrow-right-bold", "solid", 's'); }
  lemma NotIn14() ensures !Includes("arrow-right-bold", "thin") { Excludes("arrow-right-bold", "thin", 'n'); }
  lemma NotIn15() ensures !Includes("arrow-right-bold", "duotone") { Excludes("arrow-right-bold", "duotone", 'u'); }

  /** The icon "tabler:arrow-right" is an outline arrow. */
  lemma TablerArrowRight()
    ensures InferStyle("tabler", "arrow-right") == Outline
    ensures InferCategory("arrow-right") == Arrows
  {
    NotIn0(); NotIn1(); NotIn2(); NotIn3(); NotIn4(); NotIn5(); NotIn6(); NotIn7(); NotIn8();
    assert OccursAt("arrow-right", "arrow", 0);
  }

  /** The icon "mdi:arrow-right-bold" is a bold arrow. */
  lemma MdiArrowRightBold()
    ensures InferStyle("mdi", "arrow-right-bold") == Bold
    ensures InferCategory("arrow-right-bold") == Arrows
  {
    NotIn9(); NotIn10(); NotIn11(); NotIn12(); NotIn13(); NotIn14(); NotIn15();
    ArrowRightBoldHasBold();
    BoldWhenNoEarlierMarker("mdi", "arrow-right-bold");
    ArrowRightBoldIsArrow();
  }

  lemma ArrowRightBoldHasBold()
    ensures Includes("arrow-right-bold", "bold")
  {
    assert OccursAt("arrow-right-bold", "bold", 12);
  }

  lemma ArrowRightBoldIsArrow()
    ensures InferCategory("arrow-right-bold") == Arrows
  {
    assert OccursAt("arrow-right-bold", "arrow", 0);
  }
}
