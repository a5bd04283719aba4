/**
  The documentation query service: lookups, flattening, search, recency and
  next/previous traversal over the store of sections.

  The store is the module-level `docsData` array. Every query reads its
  current value, passed here as `docs`. `getAllSections` sorts that array in
  place, so `DocStore` holds it as a field and models the calls that can
  reorder it (`GetAllSections`, `GetNextArticle`, `GetPreviousArticle`) as
  methods.
*/
module Docs {
  import opened Wrappers
  import opened Seqs
  import opened Text
  import opened DocsIndex

  function OrderKey(s: DocSection): int { s.order }
  function SectionId(s: DocSection): string { s.id }
  function ArticleId(a: DocArticle): string { a.id }

  /** Section ids are pairwise distinct. */
  ghost predicate UniqueSectionIds(docs: seq<DocSection>)
  {
    DistinctBy(docs, SectionId)
  }

  /** Within every section, article ids are pairwise distinct. */
  ghost predicate UniqueArticleIdsPerSection(docs: seq<DocSection>)
  {
    forall i :: 0 <= i < |docs| ==> DistinctBy(docs[i].articles, ArticleId)
  }

  // ---------------------------------------------------------------------
  // getAllSections
  // ---------------------------------------------------------------------

  /**
    The order `getAllSections` leaves the sections in: ascending `order`,
    a permutation of the input, and sections with equal `order` in their
    original relative order.
  */
  function SortByOrder(docs: seq<DocSection>): (r: seq<DocSection>)
    ensures |r| == |docs|
    ensures multiset(r) == multiset(docs)
    ensures forall i, j :: 0 <= i < j < |r| ==> r[i].order <= r[j].order
    ensures forall k :: WithKey(r, OrderKey, k) == WithKey(docs, OrderKey, k)
  {
    SortBySorted(docs, OrderKey);
    assert forall k :: WithKey(SortBy(docs, OrderKey), OrderKey, k) == WithKey(docs, OrderKey, k) by {
      forall k ensures WithKey(SortBy(docs, OrderKey), OrderKey, k) == WithKey(docs, OrderKey, k) {
        SortByStable(docs, OrderKey, k);
      }
    }
    SortBy(docs, OrderKey)
  }

  /** A store already in `order` is left exactly as it is by the sort. */
  lemma SortByOrderOfSorted(docs: seq<DocSection>)
    requires forall i, j :: 0 <= i < j < |docs| ==> docs[i].order <= docs[j].order
    ensures SortByOrder(docs) == docs
  {
    SortByIdentity(docs, OrderKey);
  }

  /** Sorting keeps section ids distinct. */
  lemma SortByOrderUnique(docs: seq<DocSection>)
    requires UniqueSectionIds(docs)
    ensures UniqueSectionIds(SortByOrder(docs))
  {
    SortByDistinct(docs, OrderKey, SectionId);
  }

  // ---------------------------------------------------------------------
  // Lookups (Array.prototype.find / findIndex)
  // ---------------------------------------------------------------------

  /** `findIndex` by section id: the first position with that id, or -1. */
  function SectionIndex(docs: seq<DocSection>, id: string): (r: int)
    ensures -1 <= r < |docs|
    ensures r == -1 <==> forall k :: 0 <= k < |docs| ==> docs[k].id != id
    ensures r >= 0 ==> docs[r].id == id && forall k :: 0 <= k < r ==> docs[k].id != id
  {
    if docs == [] then -1
    else if docs[0].id == id then 0
    else
      var r := SectionIndex(docs[1..], id);
      if r == -1 then -1 else r + 1
  }

  /** `findIndex` by article id: the first position with that id, or -1. */
  function ArticleIndex(arts: seq<DocArticle>, id: string): (r: int)
    ensures -1 <= r < |arts|
    ensures r == -1 <==> forall k :: 0 <= k < |arts| ==> arts[k].id != id
    ensures r >= 0 ==> arts[r].id == id && forall k :: 0 <= k < r ==> arts[k].id != id
  {
    if arts == [] then -1
    else if arts[0].id == id then 0
    else
      var r := ArticleIndex(arts[1..], id);
      if r == -1 then -1 else r + 1
  }

  /** With distinct ids, the id of the section at `k` finds position `k`. */
  lemma SectionIndexOfUnique(docs: seq<DocSection>, k: int)
    requires UniqueSectionIds(docs) && 0 <= k < |docs|
    ensures SectionIndex(docs, docs[k].id) == k
  {
  }

  /** With distinct ids, the id of the article at `k` finds position `k`. */
  lemma ArticleIndexOfUnique(arts: seq<DocArticle>, k: int)
    requires DistinctBy(arts, ArticleId) && 0 <= k < |arts|
    ensures ArticleIndex(arts, arts[k].id) == k
  {
  }

  /** `getSectionById`: the first section with this exact id. */
  function SectionById(docs: seq<DocSection>, id: string): (r: Option<DocSection>)
    ensures r.None? <==> forall k :: 0 <= k < |docs| ==> docs[k].id != id
    ensures r.Some? ==> r.value in docs && r.value.id == id
    ensures r.Some? ==> r.value == docs[SectionIndex(docs, id)]
  {
    var i := SectionIndex(docs, id);
    if i == -1 then None else Some(docs[i])
  }

  /** With distinct section ids, looking up the id of a stored section finds that section. */
  lemma SectionByIdOfMember(docs: seq<DocSection>, s: DocSection)
    requires UniqueSectionIds(docs) && s in docs
    ensures SectionById(docs, s.id) == Some(s)
  {
    var k :| 0 <= k < |docs| && docs[k] == s;
    SectionIndexOfUnique(docs, k);
  }

  /**
    `getArticleById`: the lookup is scoped to the section with id `sectionId`;
    an article with the same id in another section is never returned.
  */
  function ArticleById(docs: seq<DocSection>, sectionId: string, articleId: string): (r: Option<DocArticle>)
    ensures SectionById(docs, sectionId).None? ==> r.None?
    ensures SectionById(docs, sectionId).Some? ==>
      (r.None? <==> forall a :: a in SectionById(docs, sectionId).value.articles ==> a.id != articleId)
    ensures r.Some? ==> r.value in SectionById(docs, sectionId).value.articles && r.value.id == articleId
    ensures r.Some? ==> r.value == SectionById(docs, sectionId).value.articles[
      ArticleIndex(SectionById(docs, sectionId).value.articles, articleId)]
  {
    match SectionById(docs, sectionId)
    case None => None
    case Some(section) =>
      var i := ArticleIndex(section.articles, articleId);
      if i == -1 then None else Some(section.articles[i])
  }

  // ---------------------------------------------------------------------
  // getAllArticles, findSectionByArticleId, getArticlePath
  // ---------------------------------------------------------------------

  /** The number of articles across all sections. */
  function ArticleCount(docs: seq<DocSection>): nat
  {
    if docs == [] then 0 else |docs[0].articles| + ArticleCount(docs[1..])
  }

  /** Some section of the store holds article `a`. */
  predicate InSomeSection(docs: seq<DocSection>, a: DocArticle)
  {
    exists i :: 0 <= i < |docs| && a in docs[i].articles
  }

  /** `getAllArticles`: every section's articles, in the store's current order. */
  function AllArticles(docs: seq<DocSection>): (r: seq<DocArticle>)
    ensures |r| == ArticleCount(docs)
    ensures forall a :: a in r <==> InSomeSection(docs, a)
  {
    if docs == [] then []
    else
      var rest := AllArticles(docs[1..]);
      assert forall a :: InSomeSection(docs, a) <==> a in docs[0].articles || InSomeSection(docs[1..], a) by {
        forall a ensures InSomeSection(docs, a) ==> a in docs[0].articles || InSomeSection(docs[1..], a) {
          if i :| 0 <= i < |docs| && a in docs[i].articles {
            if i > 0 {
              assert docs[1..][i - 1] == docs[i];
            }
          }
        }
        forall a ensures InSomeSection(docs[1..], a) ==> InSomeSection(docs, a) {
          if i :| 0 <= i < |docs[1..]| && a in docs[1..][i].articles {
            assert docs[1..][i] == docs[i + 1];
          }
        }
      }
      docs[0].articles + rest
  }

  /** Flattening distributes over concatenation of stores. */
  lemma {:induction false} AllArticlesAppend(d1: seq<DocSection>, d2: seq<DocSection>)
    ensures AllArticles(d1 + d2) == AllArticles(d1) + AllArticles(d2)
    ensures ArticleCount(d1 + d2) == ArticleCount(d1) + ArticleCount(d2)
  {
    if d1 != [] {
      assert (d1 + d2)[1..] == d1[1..] + d2;
      AllArticlesAppend(d1[1..], d2);
    } else {
      assert d1 + d2 == d2;
    }
  }

  /**
    Position of an article in the flattened list: article `k` of section `i`
    comes after all articles of the sections before `i`.
  */
  lemma AllArticlesAt(docs: seq<DocSection>, i: int, k: int)
    requires 0 <= i < |docs| && 0 <= k < |docs[i].articles|
    ensures ArticleCount(docs[..i]) + k < |AllArticles(docs)|
    ensures AllArticles(docs)[ArticleCount(docs[..i]) + k] == docs[i].articles[k]
  {
    assert docs == docs[..i] + docs[i..];
    AllArticlesAppend(docs[..i], docs[i..]);
    assert docs[i..][0] == docs[i];
  }

  /** `findIndex` of the first section holding an article with this id, or -1. */
  function OwnerIndex(docs: seq<DocSection>, articleId: string): (r: int)
    ensures -1 <= r < |docs|
    ensures r == -1 <==> forall k :: 0 <= k < |docs| ==> ArticleIndex(docs[k].articles, articleId) == -1
    ensures r >= 0 ==> ArticleIndex(docs[r].articles, articleId) != -1
    ensures r >= 0 ==> forall k :: 0 <= k < r ==> ArticleIndex(docs[k].articles, articleId) == -1
  {
    if docs == [] then -1
    else if ArticleIndex(docs[0].articles, articleId) != -1 then 0
    else
      var r := OwnerIndex(docs[1..], articleId);
      assert forall k :: 1 <= k < |docs| ==> docs[k] == docs[1..][k - 1];
      if r == -1 then -1 else r + 1
  }

  /**
    `findSectionByArticleId`: the first section, in the store's current order,
    holding an article with this id; none when no section holds one.
  */
  function FindSectionByArticleId(docs: seq<DocSection>, articleId: string): (r: Option<DocSection>)
    ensures r.None? <==> forall a :: a in AllArticles(docs) ==> a.id != articleId
    ensures r.Some? ==> r.value in docs && exists a :: a in r.value.articles && a.id == articleId
    ensures r.Some? ==> r.value == docs[OwnerIndex(docs, articleId)]
  {
    var i := OwnerIndex(docs, articleId);
    if i == -1 then None
    else
      var j := ArticleIndex(docs[i].articles, articleId);
      assert docs[i].articles[j] in docs[i].articles;
      Some(docs[i])
  }

  /** `getArticlePath`: `/docs/<section id>/<article id>`, or `/docs` for an unknown article. */
  function ArticlePath(docs: seq<DocSection>, articleId: string): (r: string)
    ensures r == "/docs" <==> FindSectionByArticleId(docs, articleId).None?
    ensures FindSectionByArticleId(docs, articleId).Some? ==>
      r == "/docs/" + FindSectionByArticleId(docs, articleId).value.id + "/" + articleId
  {
    match FindSectionByArticleId(docs, articleId)
    case None => "/docs"
    case Some(section) =>
      var r := "/docs/" + section.id + "/" + articleId;
      assert |r| > |"/docs"|;
      r
  }

  // ---------------------------------------------------------------------
  // searchArticles
  // ---------------------------------------------------------------------

  /** Some tag, lower-cased, contains the lower-cased query. */
  predicate AnyTagContains(tags: seq<string>, lowerQuery: string)
  {
    exists i :: 0 <= i < |tags| && Contains(LowerStr(tags[i]), lowerQuery)
  }

  /** The search test on one article, for an already lower-cased query. */
  predicate Matches(a: DocArticle, lowerQuery: string)
    ensures lowerQuery == "" ==> Matches(a, lowerQuery)
  {
    // the empty query is contained in the title, so it always matches
    ContainsEmpty(LowerStr(a.title));
    Contains(LowerStr(a.title), lowerQuery)
    || Contains(LowerStr(a.description), lowerQuery)
    || AnyTagContains(a.tags, lowerQuery)
  }

  /**
    `searchArticles`: the articles, in flattened order, whose lower-cased title,
    description or some tag contains the lower-cased query.
  */
  function SearchArticles(docs: seq<DocSection>, query: string): (r: seq<DocArticle>)
    ensures IsSubsequence(r, AllArticles(docs))
    ensures forall a :: a in r <==> a in AllArticles(docs) && Matches(a, LowerStr(query))
  {
    var lowerQuery := LowerStr(query);
    Filter(AllArticles(docs), a => Matches(a, lowerQuery))
  }

  /** The empty query matches every article: the result is the whole flattened list. */
  lemma SearchEmptyQuery(docs: seq<DocSection>)
    ensures SearchArticles(docs, "") == AllArticles(docs)
  {
    var all := AllArticles(docs);
    forall i | 0 <= i < |all| ensures Matches(all[i], LowerStr("")) {
      ContainsEmpty(LowerStr(all[i].title));
    }
    FilterKeepsAll(all, a => Matches(a, LowerStr("")));
  }

  /** Queries that differ only in letter case give the same result. */
  lemma SearchCaseInsensitive(docs: seq<DocSection>, q1: string, q2: string)
    requires LowerStr(q1) == LowerStr(q2)
    ensures SearchArticles(docs, q1) == SearchArticles(docs, q2)
  {
  }

  /** A longer query (one containing a shorter one) returns a subsequence of the shorter query's results. */
  lemma SearchNarrows(docs: seq<DocSection>, q1: string, q2: string)
    requires Contains(LowerStr(q2), LowerStr(q1))
    ensures IsSubsequence(SearchArticles(docs, q2), SearchArticles(docs, q1))
  {
    var l1, l2 := LowerStr(q1), LowerStr(q2);
    forall a | Matches(a, l2) ensures Matches(a, l1) {
      if Contains(LowerStr(a.title), l2) {
        ContainsTransitive(LowerStr(a.title), l2, l1);
      } else if Contains(LowerStr(a.description), l2) {
        ContainsTransitive(LowerStr(a.description), l2, l1);
      } else {
        var i :| 0 <= i < |a.tags| && Contains(LowerStr(a.tags[i]), l2);
        ContainsTransitive(LowerStr(a.tags[i]), l2, l1);
      }
    }
    FilterMonotone(AllArticles(docs), a => Matches(a, l2), a => Matches(a, l1));
  }

  // ---------------------------------------------------------------------
  // getRecentArticles
  // ---------------------------------------------------------------------

  /** The sort key of the recency order: later dates first. */
  function RecencyKey(a: DocArticle): int { -DayNumber(a.lastUpdated) }

  /** The end index `Array.prototype.slice(0, limit)` uses on a list of length `len`. */
  function SliceEnd(len: nat, limit: int): (e: nat)
    ensures e <= len
    ensures limit >= 0 ==> e == (if limit < len then limit else len)
    ensures limit < 0 ==> e == (if len + limit > 0 then len + limit else 0)
  {
    if limit < 0 then (if len + limit > 0 then len + limit else 0)
    else if limit < len then limit else len
  }

  /**
    `getRecentArticles`: the flattened articles stably sorted newest first,
    cut with `slice(0, limit)`; the limit defaults to 5.
  */
  function RecentArticles(docs: seq<DocSection>, limit: int := 5): (r: seq<DocArticle>)
    ensures |r| <= ArticleCount(docs)
    ensures r == SortBy(AllArticles(docs), RecencyKey)[..|r|]
    ensures limit >= 0 ==> |r| == (if limit < ArticleCount(docs) then limit else ArticleCount(docs))
    ensures limit < 0 ==> |r| == (if ArticleCount(docs) + limit > 0 then ArticleCount(docs) + limit else 0)
    ensures forall a :: a in r ==> a in AllArticles(docs)
    ensures forall i, j :: 0 <= i < j < |r| ==> DayNumber(r[i].lastUpdated) >= DayNumber(r[j].lastUpdated)
  {
    var all := AllArticles(docs);
    var end := SliceEnd(|all|, limit);
    RecentPrefix(all, end);
    SortBy(all, RecencyKey)[..end]
  }

  /** Any prefix of the recency order holds stored articles, newest first. */
  lemma RecentPrefix(all: seq<DocArticle>, end: nat)
    requires end <= |all|
    ensures var p := SortBy(all, RecencyKey)[..end];
      && (forall a :: a in p ==> a in all)
      && (forall i, j :: 0 <= i < j < |p| ==> DayNumber(p[i].lastUpdated) >= DayNumber(p[j].lastUpdated))
  {
    var sorted := SortBy(all, RecencyKey);
    SortBySorted(all, RecencyKey);
    var p := sorted[..end];
    forall a | a in p ensures a in all {
      assert a in sorted;
      assert a in multiset(sorted);
    }
    forall i, j | 0 <= i < j < |p| ensures DayNumber(p[i].lastUpdated) >= DayNumber(p[j].lastUpdated) {
      assert RecencyKey(sorted[i]) <= RecencyKey(sorted[j]);
    }
  }

  /** Articles updated on the same day appear in the recency order as they do in the flattened list. */
  lemma RecentTiesKeepOrder(docs: seq<DocSection>, d: Date)
    ensures WithKey(SortBy(AllArticles(docs), RecencyKey), RecencyKey, -DayNumber(d))
         == WithKey(AllArticles(docs), RecencyKey, -DayNumber(d))
  {
    SortByStable(AllArticles(docs), RecencyKey, -DayNumber(d));
  }

  // ---------------------------------------------------------------------
  // getNextArticle / getPreviousArticle
  // ---------------------------------------------------------------------

  /** The `{ article, section }` pair the traversal functions return. */
  datatype Nav = Nav(article: DocArticle, section: DocSection)

  /** The current article is the last of its section: the next step looks at the following section. */
  predicate AtSectionEnd(docs: seq<DocSection>, sectionId: string, articleId: string)
  {
    SectionById(docs, sectionId).Some? &&
    var arts := SectionById(docs, sectionId).value.articles;
    var i := ArticleIndex(arts, articleId);
    i != -1 && i == |arts| - 1
  }

  /** The current article is the first of its section: the previous step looks at the preceding section. */
  predicate AtSectionStart(docs: seq<DocSection>, sectionId: string, articleId: string)
  {
    SectionById(docs, sectionId).Some? &&
    ArticleIndex(SectionById(docs, sectionId).value.articles, articleId) == 0
  }

  /**
    The section step of `getNextArticle`: the first article of the section
    right after `sectionId` in the sorted store, if that section has one.
  */
  function NextAcross(docs: seq<DocSection>, sectionId: string): (r: Option<Nav>)
    ensures r.Some? ==> r.value.article in r.value.section.articles && r.value.section in docs
    ensures r.Some? <==>
      SectionIndex(SortByOrder(docs), sectionId) < |docs| - 1
      && |SortByOrder(docs)[SectionIndex(SortByOrder(docs), sectionId) + 1].articles| > 0
    ensures r.Some? ==>
      r.value.section == SortByOrder(docs)[SectionIndex(SortByOrder(docs), sectionId) + 1]
      && r.value.article == r.value.section.articles[0]
  {
    var sections := SortByOrder(docs);
    var j := SectionIndex(sections, sectionId);
    if j < |sections| - 1 && |sections[j + 1].articles| > 0 then
      assert sections[j + 1] in multiset(docs);
      Some(Nav(sections[j + 1].articles[0], sections[j + 1]))
    else None
  }

  /**
    The section step of `getPreviousArticle`: the last article of the section
    right before `sectionId` in the sorted store, if that section has one.
  */
  function PreviousAcross(docs: seq<DocSection>, sectionId: string): (r: Option<Nav>)
    ensures r.Some? ==> r.value.article in r.value.section.articles && r.value.section in docs
    ensures r.Some? <==>
      SectionIndex(SortByOrder(docs), sectionId) > 0
      && |SortByOrder(docs)[SectionIndex(SortByOrder(docs), sectionId) - 1].articles| > 0
    ensures r.Some? ==>
      r.value.section == SortByOrder(docs)[SectionIndex(SortByOrder(docs), sectionId) - 1]
      && r.value.article == r.value.section.articles[|r.value.section.articles| - 1]
  {
    var sections := SortByOrder(docs);
    var j := SectionIndex(sections, sectionId);
    if j > 0 && |sections[j - 1].articles| > 0 then
      assert sections[j - 1] in multiset(docs);
      var prev := sections[j - 1];
      Some(Nav(prev.articles[|prev.articles| - 1], prev))
    else None
  }

  /**
    `getNextArticle`: the following article of the same section, or else the
    first article of the section right after it in `order`; none when the
    section or article is unknown, the section is last, or that next section
    is empty (later sections are not searched).
  */
  function NextArticle(docs: seq<DocSection>, sectionId: string, articleId: string): (r: Option<Nav>)
    ensures ArticleById(docs, sectionId, articleId).None? ==> r.None?
    ensures r.Some? ==> r.value.article in r.value.section.articles && r.value.section in docs
    ensures (SectionById(docs, sectionId).Some?
             && 0 <= ArticleIndex(SectionById(docs, sectionId).value.articles, articleId)
                   < |SectionById(docs, sectionId).value.articles| - 1) ==>
      r == Some(Nav(SectionById(docs, sectionId).value.articles[
                      ArticleIndex(SectionById(docs, sectionId).value.articles, articleId) + 1],
                    SectionById(docs, sectionId).value))
    ensures AtSectionEnd(docs, sectionId, articleId) ==> r == NextAcross(docs, sectionId)
  {
    match SectionById(docs, sectionId)
    case None => None
    case Some(section) =>
      var i := ArticleIndex(section.articles, articleId);
      if i == -1 then None
      else if i < |section.articles| - 1 then Some(Nav(section.articles[i + 1], section))
      else NextAcross(docs, sectionId)
  }

  /**
    `getPreviousArticle`: the mirror image of `NextArticle`: the preceding
    article of the same section, or else the last article of the section
    right before it in `order`.
  */
  function PreviousArticle(docs: seq<DocSection>, sectionId: string, articleId: string): (r: Option<Nav>)
    ensures ArticleById(docs, sectionId, articleId).None? ==> r.None?
    ensures r.Some? ==> r.value.article in r.value.section.articles && r.value.section in docs
    ensures (SectionById(docs, sectionId).Some?
             && 0 < ArticleIndex(SectionById(docs, sectionId).value.articles, articleId)) ==>
      r == Some(Nav(SectionById(docs, sectionId).value.articles[
                      ArticleIndex(SectionById(docs, sectionId).value.articles, articleId) - 1],
                    SectionById(docs, sectionId).value))
    ensures AtSectionStart(docs, sectionId, articleId) ==> r == PreviousAcross(docs, sectionId)
  {
    match SectionById(docs, sectionId)
    case None => None
    case Some(section) =>
      var i := ArticleIndex(section.articles, articleId);
      if i == -1 then None
      else if i > 0 then Some(Nav(section.articles[i - 1], section))
      else PreviousAcross(docs, sectionId)
  }

  /** The store after `getNextArticle`: sorted when the call reached the section step. */
  function StoreAfterNext(docs: seq<DocSection>, sectionId: string, articleId: string): (r: seq<DocSection>)
    ensures multiset(r) == multiset(docs)
    ensures !AtSectionEnd(docs, sectionId, articleId) ==> r == docs
  {
    if AtSectionEnd(docs, sectionId, articleId) then SortByOrder(docs) else docs
  }

  /** The store after `getPreviousArticle`: sorted when the call reached the section step. */
  function StoreAfterPrevious(docs: seq<DocSection>, sectionId: string, articleId: string): (r: seq<DocSection>)
    ensures multiset(r) == multiset(docs)
    ensures !AtSectionStart(docs, sectionId, articleId) ==> r == docs
  {
    if AtSectionStart(docs, sectionId, articleId) then SortByOrder(docs) else docs
  }

  /** Membership in the sorted store is membership in the store. */
  lemma SortedMembers(docs: seq<DocSection>)
    ensures forall s :: s in SortByOrder(docs) <==> s in docs
  {
    var sorted := SortByOrder(docs);
    forall s ensures s in sorted <==> s in docs {
      assert s in sorted <==> s in multiset(sorted);
      assert s in docs <==> s in multiset(docs);
    }
  }

  /** Two sections of a store with distinct ids and the same id are the same section. */
  lemma SameIdSameSection(docs: seq<DocSection>, s: DocSection, t: DocSection)
    requires UniqueSectionIds(docs) && s in docs && t in docs && s.id == t.id
    ensures s == t
  {
    var a :| 0 <= a < |docs| && docs[a] == s;
    var b :| 0 <= b < |docs| && docs[b] == t;
  }

  /** The forward step inside one section, undone by the backward step. */
  lemma NextThenPreviousWithin(docs: seq<DocSection>, sectionId: string, articleId: string)
    requires UniqueSectionIds(docs) && UniqueArticleIdsPerSection(docs)
    requires NextArticle(docs, sectionId, articleId).Some? && !AtSectionEnd(docs, sectionId, articleId)
    ensures var n := NextArticle(docs, sectionId, articleId).value;
      PreviousArticle(docs, n.section.id, n.article.id)
        == Some(Nav(ArticleById(docs, sectionId, articleId).value, SectionById(docs, sectionId).value))
  {
    var section := SectionById(docs, sectionId).value;
    var arts := section.articles;
    var i := ArticleIndex(arts, articleId);
    var k :| 0 <= k < |docs| && docs[k] == section;
    assert DistinctBy(arts, ArticleId);
    var h := i + 1;
    assert NextArticle(docs, sectionId, articleId) == Some(Nav(arts[h], section));
    ArticleIndexOfUnique(arts, h);
    SectionByIdOfMember(docs, section);
    assert PreviousArticle(docs, section.id, arts[h].id) == Some(Nav(arts[h - 1], section));
  }

  /** At the last article of a section, `getNextArticle` takes the section step. */
  lemma NextOfLast(docs: seq<DocSection>, s: DocSection)
    requires UniqueSectionIds(docs) && s in docs && |s.articles| > 0 && DistinctBy(s.articles, ArticleId)
    ensures NextArticle(docs, s.id, s.articles[|s.articles| - 1].id) == NextAcross(docs, s.id)
  {
    SectionByIdOfMember(docs, s);
    ArticleIndexOfUnique(s.articles, |s.articles| - 1);
  }

  /** At the first article of a section, `getPreviousArticle` takes the section step. */
  lemma PreviousOfFirst(docs: seq<DocSection>, s: DocSection)
    requires UniqueSectionIds(docs) && s in docs && |s.articles| > 0
    ensures PreviousArticle(docs, s.id, s.articles[0].id) == PreviousAcross(docs, s.id)
  {
    SectionByIdOfMember(docs, s);
  }

  /** On a sorted store the section step forward lands on the next section's first article. */
  lemma NextAcrossSorted(docs: seq<DocSection>, i: int, j: int)
    requires UniqueSectionIds(docs) && forall p, q :: 0 <= p < q < |docs| ==> docs[p].order <= docs[q].order
    requires 0 <= i && j == i + 1 && j < |docs| && |docs[j].articles| > 0
    ensures NextAcross(docs, docs[i].id) == Some(Nav(docs[j].articles[0], docs[j]))
  {
    SortByOrderOfSorted(docs);
    SectionIndexOfUnique(docs, i);
  }

  /** On a sorted store the section step backward lands on the previous section's last article. */
  lemma PreviousAcrossSorted(docs: seq<DocSection>, i: int, j: int)
    requires UniqueSectionIds(docs) && forall p, q :: 0 <= p < q < |docs| ==> docs[p].order <= docs[q].order
    requires 0 <= i && j == i + 1 && j < |docs| && |docs[i].articles| > 0
    ensures PreviousAcross(docs, docs[j].id) == Some(Nav(docs[i].articles[|docs[i].articles| - 1], docs[i]))
  {
    SortByOrderOfSorted(docs);
    SectionIndexOfUnique(docs, j);
  }

  /** On the sorted store, the first article of section `j = i + 1` steps back to the last of section `i`. */
  lemma BackFromSectionStart(docs: seq<DocSection>, i: int, j: int)
    requires UniqueSectionIds(docs)
    requires 0 <= i && j == i + 1 && j < |docs|
    requires |SortByOrder(docs)[i].articles| > 0 && |SortByOrder(docs)[j].articles| > 0
    ensures var sorted := SortByOrder(docs);
      PreviousArticle(sorted, sorted[j].id, sorted[j].articles[0].id)
        == Some(Nav(sorted[i].articles[|sorted[i].articles| - 1], sorted[i]))
  {
    var sorted := SortByOrder(docs);
    SortByOrderUnique(docs);
    PreviousOfFirst(sorted, sorted[j]);
    PreviousAcrossSorted(sorted, i, j);
  }

  /** On the sorted store, the last article of section `i` steps on to the first of section `j = i + 1`. */
  lemma OnFromSectionEnd(docs: seq<DocSection>, i: int, j: int)
    requires UniqueSectionIds(docs) && UniqueArticleIdsPerSection(docs)
    requires 0 <= i && j == i + 1 && j < |docs|
    requires |SortByOrder(docs)[i].articles| > 0 && |SortByOrder(docs)[j].articles| > 0
    ensures NextArticle(SortByOrder(docs), SortByOrder(docs)[i].id, SortByOrder(docs)[i].articles[|SortByOrder(docs)[i].articles| - 1].id)
        == Some(Nav(SortByOrder(docs)[j].articles[0], SortByOrder(docs)[j]))
  {
    var sorted := SortByOrder(docs);
    var s := sorted[i];
    SortByOrderUnique(docs);
    SortedMembers(docs);
    assert s in sorted;
    assert s in docs;
    var m :| 0 <= m < |docs| && docs[m] == s;
    assert DistinctBy(s.articles, ArticleId);
    NextOfLast(sorted, s);
    NextAcrossSorted(sorted, i, j);
  }

  /**
    At the end of a section the forward step lands on the first article of
    the section after it in the sorted store; `j` is the starting section's
    position there.
  */
  lemma NextAtSectionEnd(docs: seq<DocSection>, sectionId: string, articleId: string) returns (j: int)
    requires NextArticle(docs, sectionId, articleId).Some? && AtSectionEnd(docs, sectionId, articleId)
    ensures var sorted := SortByOrder(docs);
      && 0 <= j < |sorted| - 1 && sorted[j].id == sectionId && |sorted[j + 1].articles| > 0
      && NextArticle(docs, sectionId, articleId) == Some(Nav(sorted[j + 1].articles[0], sorted[j + 1]))
  {
    assert NextArticle(docs, sectionId, articleId) == NextAcross(docs, sectionId);
    var sorted := SortByOrder(docs);
    // The section was found in the store, so the sorted store holds it too.
    SortedMembers(docs);
    assert SectionById(docs, sectionId).value in sorted;
    j := SectionIndex(sorted, sectionId);
    assert j != -1;
    assert NextAcross(docs, sectionId) == Some(Nav(sorted[j + 1].articles[0], sorted[j + 1]));
  }

  /**
    At the start of a section the backward step lands on the last article of
    the section before it in the sorted store; `j` is the starting section's
    position there.
  */
  lemma PreviousAtSectionStart(docs: seq<DocSection>, sectionId: string, articleId: string) returns (i: int, j: int)
    requires PreviousArticle(docs, sectionId, articleId).Some? && AtSectionStart(docs, sectionId, articleId)
    ensures var sorted := SortByOrder(docs);
      && 0 <= i && j == i + 1 && j < |sorted| && sorted[j].id == sectionId && |sorted[i].articles| > 0
      && PreviousArticle(docs, sectionId, articleId)
         == Some(Nav(sorted[i].articles[|sorted[i].articles| - 1], sorted[i]))
  {
    assert PreviousArticle(docs, sectionId, articleId) == PreviousAcross(docs, sectionId);
    var sorted := SortByOrder(docs);
    j := SectionIndex(sorted, sectionId);
    i := j - 1;
  }

  /** The section at position `j` of the sorted store is the one `SectionById` finds by its id. */
  lemma SortedAtIsById(docs: seq<DocSection>, j: int)
    requires UniqueSectionIds(docs) && 0 <= j < |SortByOrder(docs)|
    ensures SectionById(docs, SortByOrder(docs)[j].id) == Some(SortByOrder(docs)[j])
  {
    SortedMembers(docs);
    SectionByIdOfMember(docs, SortByOrder(docs)[j]);
  }

  /** The traversal stops at the end: the last article of the last section in `order` has no next article. */
  lemma NoNextAfterLastSection(docs: seq<DocSection>)
    requires UniqueSectionIds(docs) && UniqueArticleIdsPerSection(docs)
    requires |docs| > 0 && |SortByOrder(docs)[|docs| - 1].articles| > 0
    ensures var s := SortByOrder(docs)[|docs| - 1];
      NextArticle(docs, s.id, s.articles[|s.articles| - 1].id).None?
  {
    var sorted := SortByOrder(docs);
    var s := sorted[|docs| - 1];
    SortByOrderUnique(docs);
    SortedMembers(docs);
    assert s in docs;
    var m :| 0 <= m < |docs| && docs[m] == s;
    assert DistinctBy(s.articles, ArticleId);
    NextOfLast(docs, s);
    SectionIndexOfUnique(sorted, |docs| - 1);
    assert NextAcross(docs, s.id).None?;
  }

  /** The traversal stops at the start: the first article of the first section in `order` has no previous article. */
  lemma NoPreviousBeforeFirstSection(docs: seq<DocSection>)
    requires UniqueSectionIds(docs)
    requires |docs| > 0 && |SortByOrder(docs)[0].articles| > 0
    ensures var s := SortByOrder(docs)[0];
      PreviousArticle(docs, s.id, s.articles[0].id).None?
  {
    var sorted := SortByOrder(docs);
    var s := sorted[0];
    SortByOrderUnique(docs);
    SortedMembers(docs);
    assert s in docs;
    PreviousOfFirst(docs, s);
    SectionIndexOfUnique(sorted, 0);
    assert PreviousAcross(docs, s.id).None?;
  }

  /** The forward step across a section boundary, undone by the backward step on the sorted store. */
  lemma NextThenPreviousAcross(docs: seq<DocSection>, sectionId: string, articleId: string)
    requires UniqueSectionIds(docs) && UniqueArticleIdsPerSection(docs)
    requires NextArticle(docs, sectionId, articleId).Some? && AtSectionEnd(docs, sectionId, articleId)
    ensures var n := NextArticle(docs, sectionId, articleId).value;
      PreviousArticle(SortByOrder(docs), n.section.id, n.article.id)
        == Some(Nav(ArticleById(docs, sectionId, articleId).value, SectionById(docs, sectionId).value))
  {
    var j := NextAtSectionEnd(docs, sectionId, articleId);
    // `SortByOrder(docs)[j]` is the section the forward call started from ...
    SortedAtIsById(docs, j);
    var section := SortByOrder(docs)[j];
    assert ArticleById(docs, sectionId, articleId).value == section.articles[|section.articles| - 1];
    // ... and the backward call steps from the following section back to it.
    BackFromSectionStart(docs, j, j + 1);
    var next := SortByOrder(docs)[j + 1];
    assert NextArticle(docs, sectionId, articleId).value == Nav(next.articles[0], next);
    assert PreviousArticle(SortByOrder(docs), next.id, next.articles[0].id)
      == Some(Nav(section.articles[|section.articles| - 1], section));
  }

  /**
    Going forward and then back returns to the start: when ids are unique,
    if `getNextArticle(s, a)` gives `(b, t)`, then `getPreviousArticle(t.id, b.id)`,
    run on the store as the first call left it, gives back `(a, s)`.
  */
  lemma NextThenPrevious(docs: seq<DocSection>, sectionId: string, articleId: string)
    requires UniqueSectionIds(docs) && UniqueArticleIdsPerSection(docs)
    requires NextArticle(docs, sectionId, articleId).Some?
    ensures var n := NextArticle(docs, sectionId, articleId).value;
      PreviousArticle(StoreAfterNext(docs, sectionId, articleId), n.section.id, n.article.id)
        == Some(Nav(ArticleById(docs, sectionId, articleId).value, SectionById(docs, sectionId).value))
  {
    if AtSectionEnd(docs, sectionId, articleId) {
      NextThenPreviousAcross(docs, sectionId, articleId);
    } else {
      NextThenPreviousWithin(docs, sectionId, articleId);
    }
  }

  /** The backward step inside one section, undone by the forward step. */
  lemma PreviousThenNextWithin(docs: seq<DocSection>, sectionId: string, articleId: string)
    requires UniqueSectionIds(docs) && UniqueArticleIdsPerSection(docs)
    requires PreviousArticle(docs, sectionId, articleId).Some? && !AtSectionStart(docs, sectionId, articleId)
    ensures var p := PreviousArticle(docs, sectionId, articleId).value;
      NextArticle(docs, p.section.id, p.article.id)
        == Some(Nav(ArticleById(docs, sectionId, articleId).value, SectionById(docs, sectionId).value))
  {
    var section := SectionById(docs, sectionId).value;
    var arts := section.articles;
    var i := ArticleIndex(arts, articleId);
    var k :| 0 <= k < |docs| && docs[k] == section;
    assert DistinctBy(arts, ArticleId);
    var h := i - 1;
    assert PreviousArticle(docs, sectionId, articleId) == Some(Nav(arts[h], section));
    ArticleIndexOfUnique(arts, h);
    SectionByIdOfMember(docs, section);
    assert NextArticle(docs, section.id, arts[h].id) == Some(Nav(arts[h + 1], section));
  }

  /** The backward step across a section boundary, undone by the forward step on the sorted store. */
  lemma PreviousThenNextAcross(docs: seq<DocSection>, sectionId: string, articleId: string)
    requires UniqueSectionIds(docs) && UniqueArticleIdsPerSection(docs)
    requires PreviousArticle(docs, sectionId, articleId).Some? && AtSectionStart(docs, sectionId, articleId)
    ensures var p := PreviousArticle(docs, sectionId, articleId).value;
      NextArticle(SortByOrder(docs), p.section.id, p.article.id)
        == Some(Nav(ArticleById(docs, sectionId, articleId).value, SectionById(docs, sectionId).value))
  {
    var i, j := PreviousAtSectionStart(docs, sectionId, articleId);
    var sorted := SortByOrder(docs);
    var prev := sorted[i];
    var b := prev.articles[|prev.articles| - 1];
    assert PreviousArticle(docs, sectionId, articleId).value == Nav(b, prev);
    // `sorted[j]` is the section the backward call started from ...
    SortedAtIsById(docs, j);
    var section := sorted[j];
    assert |section.articles| > 0 && ArticleById(docs, sectionId, articleId).value == section.articles[0];
    // ... and the forward call steps from the preceding section on to it.
    OnFromSectionEnd(docs, i, j);
    assert NextArticle(sorted, prev.id, b.id) == Some(Nav(section.articles[0], section));
  }

  /**
    Going back and then forward returns to the start: when ids are unique,
    if `getPreviousArticle(s, a)` gives `(b, t)`, then `getNextArticle(t.id, b.id)`,
    run on the store as the first call left it, gives back `(a, s)`.
  */
  lemma PreviousThenNext(docs: seq<DocSection>, sectionId: string, articleId: string)
    requires UniqueSectionIds(docs) && UniqueArticleIdsPerSection(docs)
    requires PreviousArticle(docs, sectionId, articleId).Some?
    ensures var p := PreviousArticle(docs, sectionId, articleId).value;
      NextArticle(StoreAfterPrevious(docs, sectionId, articleId), p.section.id, p.article.id)
        == Some(Nav(ArticleById(docs, sectionId, articleId).value, SectionById(docs, sectionId).value))
  {
    if AtSectionStart(docs, sectionId, articleId) {
      PreviousThenNextAcross(docs, sectionId, articleId);
    } else {
      PreviousThenNextWithin(docs, sectionId, articleId);
    }
  }

  /**
    The store object: `docsData`, whose order `getAllSections` changes in
    place. Later lookups see the new order.
  */
  class DocStore {
    var docsData: seq<DocSection>

    /** The store as loaded from the content tree. */
    constructor ()
      ensures docsData == DocsData
    {
      docsData := DocsData;
    }

    /** `getAllSections`: sorts the store by `order` in place and returns it. */
    method GetAllSections() returns (sections: seq<DocSection>)
      modifies this
      ensures docsData == SortByOrder(old(docsData))
      ensures sections == docsData
    {
      docsData := SortByOrder(docsData);
      sections := docsData;
    }

    /** `getNextArticle`; the store is re-sorted only when the section step is reached. */
    method GetNextArticle(sectionId: string, articleId: string) returns (r: Option<Nav>)
      modifies this
      ensures r == NextArticle(old(docsData), sectionId, articleId)
      ensures docsData == StoreAfterNext(old(docsData), sectionId, articleId)
    {
      var found := SectionById(docsData, sectionId);
      if found.None? {
        return None;
      }
      var section := found.value;
      var currentIndex := ArticleIndex(section.articles, articleId);
      if currentIndex == -1 {
        return None;
      }
      if currentIndex < |section.articles| - 1 {
        return Some(Nav(section.articles[currentIndex + 1], section));
      }
      var sections := GetAllSections();
      var sectionIndex := SectionIndex(sections, sectionId);
      if sectionIndex < |sections| - 1 {
        var nextSection := sections[sectionIndex + 1];
        if |nextSection.articles| > 0 {
          return Some(Nav(nextSection.articles[0], nextSection));
        }
      }
      return None;
    }

    /** `getPreviousArticle`; the store is re-sorted only when the section step is reached. */
    method GetPreviousArticle(sectionId: string, articleId: string) returns (r: Option<Nav>)
      modifies this
      ensures r == PreviousArticle(old(docsData), sectionId, articleId)
      ensures docsData == StoreAfterPrevious(old(docsData), sectionId, articleId)
    {
      var found := SectionById(docsData, sectionId);
      if found.None? {
        return None;
      }
      var section := found.value;
      var currentIndex := ArticleIndex(section.articles, articleId);
      if currentIndex == -1 {
        return None;
      }
      if currentIndex > 0 {
        return Some(Nav(section.articles[currentIndex - 1], section));
      }
      var sections := GetAllSections();
      var sectionIndex := SectionIndex(sections, sectionId);
      if sectionIndex > 0 {
        var prevSection := sections[sectionIndex - 1];
        if |prevSection.articles| > 0 {
          return Some(Nav(prevSection.articles[|prevSection.articles| - 1], prevSection));
        }
      }
      return None;
    }
  }
}
