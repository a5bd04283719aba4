/**
  The documentation sidebar: the list of expanded section ids with its
  toggle, the search box gated on a non-empty query, and the section icon
  lookup with its `BookOpen` fallback.
*/
module DocSidebar {
  import opened Wrappers
  import opened Seqs
  import opened Text
  import opened DocsIndex
  import opened Docs

  // ---------------------------------------------------------------------
  // The expanded-sections list
  // ---------------------------------------------------------------------

  /** The initial list: the current section's id, or the empty id when there is none. */
  function InitialExpanded(currentSection: Option<string>): (r: seq<string>)
    ensures |r| == 1
    ensures currentSection.Some? ==> r[0] == currentSection.value
    ensures currentSection.None? ==> r[0] == ""
  {
    [if currentSection.Some? then currentSection.value else ""]
  }

  /** `toggleSection`: drops every copy of `id` when present, appends it otherwise. */
  function Toggle(expanded: seq<string>, id: string): (r: seq<string>)
    ensures id in r <==> id !in expanded
  {
    if id in expanded then Filter(expanded, x => x != id) else expanded + [id]
  }

  /** A toggle flips whether `id` is expanded and leaves every other id as it was. */
  lemma ToggleFlips(expanded: seq<string>, id: string)
    ensures id in Toggle(expanded, id) <==> id !in expanded
    ensures forall x :: x != id ==> (x in Toggle(expanded, id) <==> x in expanded)
  {
    var r := Toggle(expanded, id);
    if id in expanded {
      forall x | x != id && x in expanded ensures x in r {
        var i :| 0 <= i < |expanded| && expanded[i] == x;
      }
    }
  }

  /**
    Collapsing removes every copy of `id` and keeps every other copy of
    every other id, in the original order; expanding appends one copy.
  */
  lemma ToggleContents(expanded: seq<string>, id: string)
    ensures id in expanded ==> IsSubsequence(Toggle(expanded, id), expanded)
    ensures id in expanded ==> multiset(Toggle(expanded, id)) == multiset(expanded)[id := 0]
    ensures id !in expanded ==> Toggle(expanded, id)[..|expanded|] == expanded
    ensures id !in expanded ==> multiset(Toggle(expanded, id)) == multiset(expanded) + multiset{id}
  {
    if id in expanded {
      FilterOut(expanded, x => x != id, id);
    }
  }

  /** Toggling an id that is not expanded twice gives back exactly the same list. */
  lemma ToggleTwiceAbsent(expanded: seq<string>, id: string)
    requires id !in expanded
    ensures Toggle(Toggle(expanded, id), id) == expanded
  {
    var p := (x: string) => x != id;
    FilterAppend(expanded, [id], p);
    FilterKeepsAll(expanded, p);
    assert Filter([id], p) == [];
  }

  /** Collapsing an id expanded exactly once, at position `k`, removes that one entry. */
  lemma CollapseOnce(expanded: seq<string>, id: string, k: int)
    requires 0 <= k < |expanded| && expanded[k] == id
    requires forall i :: 0 <= i < |expanded| && i != k ==> expanded[i] != id
    ensures Toggle(expanded, id) == expanded[..k] + expanded[k + 1..]
  {
    var p := (x: string) => x != id;
    var before, after := expanded[..k], expanded[k + 1..];
    assert expanded == before + ([id] + after);
    FilterAppend(before, [id] + after, p);
    FilterCons(id, after, p);
    forall i | 0 <= i < |before| ensures p(before[i]) {
      assert before[i] == expanded[i];
    }
    forall i | 0 <= i < |after| ensures p(after[i]) {
      assert after[i] == expanded[k + 1 + i];
    }
    FilterKeepsAll(before, p);
    FilterKeepsAll(after, p);
  }

  /**
    Toggling an id that is expanded exactly once, at position `k`, twice
    keeps it expanded but moves it to the end of the list.
  */
  lemma ToggleTwicePresentOnce(expanded: seq<string>, id: string, k: int)
    requires 0 <= k < |expanded| && expanded[k] == id
    requires forall i :: 0 <= i < |expanded| && i != k ==> expanded[i] != id
    ensures Toggle(Toggle(expanded, id), id) == expanded[..k] + expanded[k + 1..] + [id]
  {
    CollapseOnce(expanded, id, k);
    var rest := expanded[..k] + expanded[k + 1..];
    forall i | 0 <= i < |rest| ensures rest[i] != id {
      if i < k {
        assert rest[i] == expanded[i];
      } else {
        assert rest[i] == expanded[i + 1];
      }
    }
  }

  // ---------------------------------------------------------------------
  // Search results and icons
  // ---------------------------------------------------------------------

  /**
    The results list shown under the search box: nothing for the empty
    query; otherwise the matching articles, in flattened order.
  */
  function SearchResults(docs: seq<DocSection>, query: string): (r: seq<DocArticle>)
    ensures query == "" ==> r == []
    ensures IsSubsequence(r, AllArticles(docs))
    ensures forall a :: a in r <==> query != "" && a in AllArticles(docs) && Matches(a, LowerStr(query))
  {
    if query != "" then SearchArticles(docs, query) else []
  }

  /** The gate is what hides the articles: the empty query itself matches every article. */
  lemma EmptyQueryGated(docs: seq<DocSection>)
    ensures SearchResults(docs, "") == []
    ensures SearchArticles(docs, "") == AllArticles(docs)
  {
    SearchEmptyQuery(docs);
  }

  /** The five section icons the sidebar knows. */
  datatype Icon = BookOpen | Brain | BarChart | PlayCircle | Download

  /** The key under which each icon is registered. */
  function IconName(i: Icon): string
  {
    match i
    case BookOpen => "BookOpen"
    case Brain => "Brain"
    case BarChart => "BarChart"
    case PlayCircle => "PlayCircle"
    case Download => "Download"
  }

  /** `getIconComponent`: the icon registered under `name`, or `BookOpen` when none is. */
  function IconFor(name: string): (r: Icon)
    ensures (exists i :: IconName(i) == name) ==> IconName(r) == name
    ensures (forall i :: IconName(i) != name) ==> r == BookOpen
  {
    if name == "Brain" then Brain
    else if name == "BarChart" then BarChart
    else if name == "PlayCircle" then PlayCircle
    else if name == "Download" then Icon.Download
    else BookOpen
  }

  /** Every registered icon is found under its own key. */
  lemma IconRoundTrip(i: Icon)
    ensures IconFor(IconName(i)) == i
  {
  }

  // ---------------------------------------------------------------------
  // The component's state
  // ---------------------------------------------------------------------

  /** The sidebar's state: the search box text and the expanded section ids. */
  class Sidebar {
    var searchQuery: string
    var expandedSections: seq<string>

    /** An empty search box and the current section expanded. */
    constructor (currentSection: Option<string>)
      ensures searchQuery == ""
      ensures expandedSections == InitialExpanded(currentSection)
    {
      searchQuery := "";
      expandedSections := InitialExpanded(currentSection);
    }

    /** The search box's change handler. */
    method SetSearchQuery(query: string)
      modifies this
      ensures searchQuery == query
      ensures expandedSections == old(expandedSections)
    {
      searchQuery := query;
    }

    /** `toggleSection`, applied to the current list. */
    method ToggleSection(id: string)
      modifies this
      ensures expandedSections == Toggle(old(expandedSections), id)
      ensures id in expandedSections <==> id !in old(expandedSections)
      ensures forall x :: x != id ==> (x in expandedSections <==> x in old(expandedSections))
      ensures searchQuery == old(searchQuery)
    {
      ToggleFlips(expandedSections, id);
      expandedSections := Toggle(expandedSections, id);
    }

    /**
      One render: the section list comes from `getAllSections`, which sorts
      the store in place, and the results are computed on the sorted store.
    */
    method Render(store: DocStore) returns (sections: seq<DocSection>, results: seq<DocArticle>)
      modifies store
      ensures store.docsData == SortByOrder(old(store.docsData))
      ensures sections == store.docsData
      ensures results == SearchResults(store.docsData, searchQuery)
    {
      sections := store.GetAllSections();
      results := SearchResults(sections, searchQuery);
    }
  }
}
