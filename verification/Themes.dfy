/** Grouping results by theme when the category table and the groups are both walked in an
    order the runtime does not fix. */
module Themes {
  import opened SearchTypes

  const GENERAL := "General"

  const CATEGORIES: map<string, seq<string>> := map[
    "Technical Documentation" := ["docs", "documentation", "api", "reference", "guide", "tutorial", "manual"],
    "Code & Programming" := ["github", "code", "source", "repository", "commit", "pull", "issue", "stackoverflow"],
    "News & Updates" := ["news", "announcement", "release", "update", "version", "2024", "2025", "2026"],
    "Packages & Dependencies" := ["npm", "pypi", "nuget", "docker", "hub", "package", "library", "framework"],
    "Community & Discussion" := ["community", "forum", "discussion", "blog", "article", "post"]]

  datatype Theme = Theme(name: string, items: seq<Item>)

  function Text(lower: string -> string, item: Item): string { lower(item.title + " " + item.snippet) }

  /** Some keyword of the category occurs in the text. */
  predicate Names(category: string, text: string)
    requires category in CATEGORIES
  {
    exists i :: 0 <= i < |CATEGORIES[category]| && Contains(text, CATEGORIES[category][i])
  }

  /** The themes an item may be given: a category one of whose keywords it carries, or General
      if it is blank or carries none at all. */
  predicate Possible(lower: string -> string, item: Item, theme: string) {
    if item.title == "" && item.snippet == "" then theme == "General"
    else if theme in CATEGORIES then Names(theme, lower(item.title + " " + item.snippet))
    else theme == "General" && forall c :: c in CATEGORIES ==> !Names(c, lower(item.title + " " + item.snippet))
  }

  /** Walks the table in some order and stops at the first keyword met. */
  method CategorizeByTitle(lower: string -> string, item: Item) returns (theme: string)
    ensures Possible(lower, item, theme)
  {
    if item.title == "" && item.snippet == "" {
      return GENERAL;
    }
    var text := Text(lower, item);
    var todo := CATEGORIES.Keys;
    while todo != {}
      invariant todo <= CATEGORIES.Keys
      invariant forall c :: c in CATEGORIES && c !in todo ==> !Names(c, text)
      decreases |todo|
    {
      var category :| category in todo;
      todo := todo - {category};
      var named := HasKeyword(text, CATEGORIES[category]);
      if named {
        return category;
      }
    }
    assert GENERAL !in CATEGORIES;
    return GENERAL;
  }

  method HasKeyword(text: string, keywords: seq<string>) returns (found: bool)
    ensures found <==> exists i :: 0 <= i < |keywords| && Contains(text, keywords[i])
  {
    var i := 0;
    while i < |keywords|
      invariant 0 <= i <= |keywords|
      invariant forall j :: 0 <= j < i ==> !Contains(text, keywords[j])
    {
      if Contains(text, keywords[i]) {
        return true;
      }
      i := i + 1;
    }
    return false;
  }

  /** The theme is determined exactly when the item is blank or at most one category has a
      keyword in it; otherwise it depends on the walk. */
  lemma ThemeIsDeterminedIff(lower: string -> string, item: Item)
    ensures (forall a, b :: Possible(lower, item, a) && Possible(lower, item, b) ==> a == b) <==>
              (item.title == "" && item.snippet == "")
              || forall c, d | c in CATEGORIES && d in CATEGORIES ::
                   Names(c, Text(lower, item)) && Names(d, Text(lower, item)) ==> c == d
  {
    assert GENERAL !in CATEGORIES;
    if !(item.title == "" && item.snippet == "") {
      forall c | c in CATEGORIES
        ensures Possible(lower, item, c) <==> Names(c, Text(lower, item))
      {
      }
    }
  }

  // ---- partition -------------------------------------------------------------------------

  /** The items labelled `name`, in input order. */
  function Pick(results: seq<Item>, labels: seq<string>, name: string): seq<Item>
    requires |results| == |labels|
  {
    if results == [] then []
    else
      var init := Pick(results[..|results| - 1], labels[..|labels| - 1], name);
      if labels[|labels| - 1] == name then init + [results[|results| - 1]] else init
  }

  function Union(themes: seq<Theme>): multiset<Item> {
    if themes == [] then multiset{} else Union(themes[..|themes| - 1]) + multiset(themes[|themes| - 1].items)
  }

  predicate DistinctNames(themes: seq<Theme>) {
    forall i, j :: 0 <= i < j < |themes| ==> themes[i].name != themes[j].name
  }

  /** `themes` are the label classes: each label once, each with exactly its items in order. */
  predicate Classes(results: seq<Item>, labels: seq<string>, themes: seq<Theme>)
    requires |results| == |labels|
  {
    && DistinctNames(themes)
    && (forall g :: g in themes ==> g.items == Pick(results, labels, g.name) && g.items != [])
    && (forall l :: l in labels ==> exists g :: g in themes && g.name == l)
  }

  predicate HasName(themes: seq<Theme>, l: string) {
    exists i :: 0 <= i < |themes| && themes[i].name == l
  }

  /** `after` are the classes of `before` with one more labelled result. */
  predicate Grown(x: Item, l: string, before: seq<Theme>, after: seq<Theme>) {
    && |before| == |after|
    && forall i :: 0 <= i < |after| ==>
         after[i] == Theme(before[i].name, before[i].items + (if before[i].name == l then [x] else []))
  }

  /** Adding one labelled result adds it to the union once, if its label has a theme. */
  lemma {:induction false} UnionGrows(x: Item, l: string, before: seq<Theme>, after: seq<Theme>)
    requires Grown(x, l, before, after) && DistinctNames(after)
    ensures Union(after) == Union(before) + One(x, HasName(after, l))
  {
    if after != [] {
      var k := |after| - 1;
      var b, a := before[..k], after[..k];
      UnionGrows(x, l, b, a);
      HasNameSnoc(after, l);
      LastUnion(x, l, before, after);
      AddLast(Union(b), multiset(before[k].items), x, HasName(a, l), after[k].name == l);
    }
  }

  function One(x: Item, present: bool): multiset<Item> { if present then multiset{x} else multiset{} }

  lemma AddLast(u: multiset<Item>, m: multiset<Item>, x: Item, p: bool, q: bool)
    requires !(p && q)
    ensures (u + One(x, p)) + (m + One(x, q)) == (u + m) + One(x, p || q)
  {
  }

  lemma HasNameSnoc(themes: seq<Theme>, l: string)
    requires themes != [] && DistinctNames(themes)
    ensures var k := |themes| - 1;
            && (HasName(themes, l) <==> HasName(themes[..k], l) || themes[k].name == l)
            && !(HasName(themes[..k], l) && themes[k].name == l)
  {
    var k := |themes| - 1;
    if HasName(themes, l) && themes[k].name != l {
      var i :| 0 <= i < |themes| && themes[i].name == l;
      assert themes[..k][i].name == l;
    }
    if HasName(themes[..k], l) {
      var i :| 0 <= i < k && themes[..k][i].name == l;
      assert themes[i].name == l;
    }
  }

  lemma LastUnion(x: Item, l: string, before: seq<Theme>, after: seq<Theme>)
    requires Grown(x, l, before, after) && after != []
    ensures var k := |after| - 1;
            multiset(after[k].items) == multiset(before[k].items) + One(x, after[k].name == l)
  {
  }

  function Renamed(results: seq<Item>, labels: seq<string>, names: seq<string>): (ts: seq<Theme>)
    requires |results| == |labels|
    ensures |ts| == |names|
    ensures forall i :: 0 <= i < |names| ==> ts[i] == Theme(names[i], Pick(results, labels, names[i]))
  {
    seq(|names|, i requires 0 <= i < |names| => Theme(names[i], Pick(results, labels, names[i])))
  }

  /** Classes over any names that cover the labels unite to the whole input. */
  lemma {:induction false} ClassesUnite(results: seq<Item>, labels: seq<string>, names: seq<string>)
    requires |results| == |labels|
    requires forall i, j :: 0 <= i < j < |names| ==> names[i] != names[j]
    requires forall l :: l in labels ==> l in names
    ensures Union(Renamed(results, labels, names)) == multiset(results)
  {
    if results == [] {
      EmptyUnion(Renamed(results, labels, names));
    } else {
      var k := |results| - 1;
      var before, after := Renamed(results[..k], labels[..k], names), Renamed(results, labels, names);
      assert forall l :: l in labels[..k] ==> l in labels;
      ClassesUnite(results[..k], labels[..k], names);
      assert results == results[..k] + [results[k]] && labels == labels[..k] + [labels[k]];
      forall i | 0 <= i < |names|
        ensures after[i] == Theme(names[i], before[i].items + (if names[i] == labels[k] then [results[k]] else []))
      {
        PickSnoc(results[..k], labels[..k], results[k], labels[k], names[i]);
      }
      UnionGrows(results[k], labels[k], before, after);
      assert labels[k] in names;
      var i :| 0 <= i < |names| && names[i] == labels[k];
      assert after[i].name == labels[k];
    }
  }

  lemma {:induction false} EmptyUnion(themes: seq<Theme>)
    requires forall i :: 0 <= i < |themes| ==> themes[i].items == []
    ensures Union(themes) == multiset{}
  {
    if themes != [] {
      EmptyUnion(themes[..|themes| - 1]);
    }
  }

  /** So the themes of any classification together hold every result exactly once. */
  lemma PartitionIsComplete(results: seq<Item>, labels: seq<string>, themes: seq<Theme>)
    requires |results| == |labels| && Classes(results, labels, themes)
    ensures Union(themes) == multiset(results)
  {
    var names := seq(|themes|, i requires 0 <= i < |themes| => themes[i].name);
    forall l | l in labels
      ensures l in names
    {
      var g :| g in themes && g.name == l;
      var i :| 0 <= i < |themes| && themes[i] == g;
      assert names[i] == l;
    }
    ClassesUnite(results, labels, names);
    assert forall i :: 0 <= i < |themes| ==> themes[i] in themes;
    assert Renamed(results, labels, names) == themes;
  }

  // ---- the method ------------------------------------------------------------------------

  /** Groups results by theme, larger groups first. `labels` are the themes the walks chose. */
  method GroupByTheme(lower: string -> string, results: seq<Item>)
    returns (themes: seq<Theme>, ghost labels: seq<string>)
    ensures |labels| == |results| && forall i :: 0 <= i < |results| ==> Possible(lower, results[i], labels[i])
    ensures Classes(results, labels, themes)
    ensures Union(themes) == multiset(results)
    ensures forall i, j :: 0 <= i < j < |themes| ==> |themes[i].items| >= |themes[j].items|
  {
    var themeMap: map<string, seq<Item>>;
    themeMap, labels := CollectThemes(lower, results);
    var unsorted := ListThemes(themeMap);
    forall l | l in labels
      ensures exists g :: g in unsorted && g.name == l
    {
      assert Theme(l, themeMap[l]) in unsorted;
    }
    themes := SortBySize(unsorted);
    PartitionIsComplete(results, labels, themes);
  }

  /** Lists the groups in some order. */
  method ListThemes(themeMap: map<string, seq<Item>>) returns (unsorted: seq<Theme>)
    ensures forall g :: g in unsorted <==> g.name in themeMap && g.items == themeMap[g.name]
    ensures DistinctNames(unsorted)
  {
    unsorted := [];
    var todo := themeMap.Keys;
    while todo != {}
      invariant todo <= themeMap.Keys
      invariant forall g :: g in unsorted <==> g.name in themeMap && g.name !in todo && g.items == themeMap[g.name]
      invariant DistinctNames(unsorted)
      decreases |todo|
    {
      var name :| name in todo;
      todo := todo - {name};
      assert forall i :: 0 <= i < |unsorted| ==> unsorted[i] in unsorted;
      unsorted := unsorted + [Theme(name, themeMap[name])];
    }
  }

  /** The map groups the results by label. */
  ghost predicate Grouped(results: seq<Item>, labels: seq<string>, m: map<string, seq<Item>>)
    requires |results| == |labels|
  {
    && (forall l :: l in m <==> l in labels)
    && forall l :: l in m ==> m[l] == Pick(results, labels, l) && m[l] != []
  }

  lemma GroupedSnoc(results: seq<Item>, labels: seq<string>, m: map<string, seq<Item>>, x: Item, theme: string)
    requires |results| == |labels| && Grouped(results, labels, m)
    ensures Grouped(results + [x], labels + [theme], m[theme := (if theme in m then m[theme] else []) + [x]])
  {
    var m' := m[theme := (if theme in m then m[theme] else []) + [x]];
    forall l | l in m'
      ensures m'[l] == Pick(results + [x], labels + [theme], l) && m'[l] != []
    {
      PickSnoc(results, labels, x, theme, l);
    }
  }

  method CollectThemes(lower: string -> string, results: seq<Item>)
    returns (themeMap: map<string, seq<Item>>, ghost labels: seq<string>)
    ensures |labels| == |results| && forall i :: 0 <= i < |results| ==> Possible(lower, results[i], labels[i])
    ensures Grouped(results, labels, themeMap)
  {
    themeMap, labels := map[], [];
    var i := 0;
    while i < |results|
      invariant 0 <= i <= |results| && |labels| == i
      invariant forall j :: 0 <= j < i ==> Possible(lower, results[j], labels[j])
      invariant Grouped(results[..i], labels, themeMap)
    {
      var theme := CategorizeByTitle(lower, results[i]);
      GroupedSnoc(results[..i], labels, themeMap, results[i], theme);
      assert results[..i + 1] == results[..i] + [results[i]];
      themeMap := themeMap[theme := (if theme in themeMap then themeMap[theme] else []) + [results[i]]];
      labels := labels + [theme];
      i := i + 1;
    }
    assert results[..|results|] == results;
  }

  lemma PickSnoc(results: seq<Item>, labels: seq<string>, x: Item, l: string, name: string)
    requires |results| == |labels|
    ensures Pick(results + [x], labels + [l], name)
         == Pick(results, labels, name) + (if name == l then [x] else [])
    ensures name !in labels ==> Pick(results, labels, name) == []
  {
    assert (results + [x])[..|results|] == results && (labels + [l])[..|labels|] == labels;
    if name !in labels {
      PickNone(results, labels, name);
    }
  }

  lemma {:induction false} PickNone(results: seq<Item>, labels: seq<string>, l: string)
    requires |results| == |labels| && l !in labels
    ensures Pick(results, labels, l) == []
  {
    if results != [] {
      PickNone(results[..|results| - 1], labels[..|labels| - 1], l);
    }
  }

  /** Some sort by descending size; groups of one size may come in either order. */
  method SortBySize(themes: seq<Theme>) returns (sorted: seq<Theme>)
    requires DistinctNames(themes)
    ensures forall g :: g in sorted <==> g in themes
    ensures DistinctNames(sorted)
    ensures forall i, j :: 0 <= i < j < |sorted| ==> |sorted[i].items| >= |sorted[j].items|
  {
    sorted := [];
    var i := 0;
    while i < |themes|
      invariant 0 <= i <= |themes|
      invariant forall g :: g in sorted <==> g in themes[..i]
      invariant DistinctNames(sorted) && BySize(sorted)
    {
      assert themes[..i + 1] == themes[..i] + [themes[i]];
      InsertKeepsSize(sorted, themes[i]);
      InsertKeepsNames(sorted, themes[i]);
      sorted := InsertBySize(sorted, themes[i]);
      i := i + 1;
    }
    assert themes[..|themes|] == themes;
  }

  predicate BySize(s: seq<Theme>) {
    forall i, j :: 0 <= i < j < |s| ==> |s[i].items| >= |s[j].items|
  }

  function InsertBySize(s: seq<Theme>, x: Theme): (r: seq<Theme>)
    ensures forall g :: g in r <==> g == x || g in s
  {
    if s == [] || |s[|s| - 1].items| >= |x.items| then s + [x]
    else
      assert s == s[..|s| - 1] + [s[|s| - 1]];
      InsertBySize(s[..|s| - 1], x) + [s[|s| - 1]]
  }

  lemma {:induction false} InsertKeepsSize(s: seq<Theme>, x: Theme)
    requires BySize(s)
    ensures BySize(InsertBySize(s, x))
  {
    if s != [] && |s[|s| - 1].items| < |x.items| {
      var init, last := s[..|s| - 1], s[|s| - 1];
      InsertKeepsSize(init, x);
      var r := InsertBySize(init, x);
      forall i | 0 <= i < |r|
        ensures |r[i].items| >= |last.items|
      {
        assert r[i] in r;
      }
    }
  }

  lemma {:induction false} InsertKeepsNames(s: seq<Theme>, x: Theme)
    requires DistinctNames(s) && forall g :: g in s ==> g.name != x.name
    ensures DistinctNames(InsertBySize(s, x))
  {
    assert forall i :: 0 <= i < |s| ==> s[i] in s;
    if s != [] && |s[|s| - 1].items| < |x.items| {
      var init, last := s[..|s| - 1], s[|s| - 1];
      InsertKeepsNames(init, x);
      var r := InsertBySize(init, x);
      forall i | 0 <= i < |r|
        ensures r[i].name != last.name
      {
        assert r[i] in r;
      }
    }
  }
}
