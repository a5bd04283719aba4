/**
  Facts about the shipped store: its shape, its identifiers, and what the
  query service answers on it.
*/
module DocsFixture {
  import opened Wrappers
  import opened Seqs
  import opened Text
  import opened DocsIndex
  import opened Docs

  /** The five section ids, in array position order. */
  lemma StoreIds()
    ensures |DocsData| == 5
    ensures DocsData[0].id == "introduction" && DocsData[1].id == "training" && DocsData[2].id == "results"
         && DocsData[3].id == "demo-guide" && DocsData[4].id == "downloads"
  {
    assert DocsData[0] == Introduction && DocsData[1] == Training && DocsData[2] == Results;
    assert DocsData[3] == DemoGuide && DocsData[4] == Downloads;
  }

  /** The sections carry `order` 1 to 5 in array position order. */
  lemma StoreOrders()
    ensures |DocsData| == 5
    ensures DocsData[0].order == 1 && DocsData[1].order == 2 && DocsData[2].order == 3
         && DocsData[3].order == 4 && DocsData[4].order == 5
  {
    assert DocsData[0] == Introduction && DocsData[1] == Training && DocsData[2] == Results;
    assert DocsData[3] == DemoGuide && DocsData[4] == Downloads;
  }

  /** The store is already in `order`, so `getAllSections` leaves it as it is. */
  lemma StoreIsInOrder()
    ensures SortByOrder(DocsData) == DocsData
  {
    StoreOrders();
    var d := DocsData;
    assert forall i, j :: 0 <= i < j < |d| ==> d[i].order <= d[j].order;
    SortByOrderOfSorted(d);
  }

  /** No section is empty: the article counts are 2, 2, 1, 1, 1 (seven in all). */
  lemma ArticleCounts()
    ensures |DocsData[0].articles| == 2 && |DocsData[1].articles| == 2 && |DocsData[2].articles| == 1
         && |DocsData[3].articles| == 1 && |DocsData[4].articles| == 1
    ensures ArticleCount(DocsData) == 7
    ensures AllArticles(DocsData)
         == [WhatIsNeuroMuseo, Architecture, DatasetPreparation, TrainingProcess, PerformanceMetrics, HowToUse, Resources]
  {
    var d := DocsData;
    assert d[4..] == [Downloads] && d[4..][1..] == [];
    assert AllArticles(d[4..]) == [Resources];
    assert d[3..][1..] == d[4..];
    assert AllArticles(d[3..]) == [HowToUse, Resources];
    assert d[2..][1..] == d[3..];
    assert AllArticles(d[2..]) == [PerformanceMetrics, HowToUse, Resources];
    assert d[1..][1..] == d[2..];
    assert AllArticles(d[1..]) == [DatasetPreparation, TrainingProcess, PerformanceMetrics, HowToUse, Resources];
  }

  /** Section ids are pairwise distinct, and so are all seven article ids across the store. */
  lemma StoreIdsUnique()
    ensures UniqueSectionIds(DocsData)
    ensures DistinctBy(AllArticles(DocsData), ArticleId)
    ensures UniqueArticleIdsPerSection(DocsData)
  {
    ArticleCounts();
  }

  /** Every article was last updated on 2024-01-15 and has a positive reading time. */
  lemma ArticleMetadata()
    ensures forall a :: a in AllArticles(DocsData) ==> a.lastUpdated == Date(2024, 1, 15) && a.readTime > 0
  {
    ArticleCounts();
    var all := [WhatIsNeuroMuseo, Architecture, DatasetPreparation, TrainingProcess, PerformanceMetrics, HowToUse, Resources];
    forall a | a in all ensures a.lastUpdated == Date(2024, 1, 15) && a.readTime > 0 {
      var i :| 0 <= i < |all| && all[i] == a;
    }
  }

  /** With one date for all articles, the recent list is the first `n` articles in flattened order. */
  lemma RecentIsFlattenedPrefix(n: int)
    requires n >= 0
    ensures |AllArticles(DocsData)| == 7
    ensures RecentArticles(DocsData, n) == AllArticles(DocsData)[..if n < 7 then n else 7]
  {
    ArticleCounts();
    var all := AllArticles(DocsData);
    assert SortedBy(all, RecencyKey);
    SortByIdentity(all, RecencyKey);
  }

  /** The default limit of five gives the first five articles. */
  lemma RecentDefaultLimit()
    ensures RecentArticles(DocsData)
         == [WhatIsNeuroMuseo, Architecture, DatasetPreparation, TrainingProcess, PerformanceMetrics]
  {
    ArticleCounts();
    RecentIsFlattenedPrefix(5);
  }

  /** Crossing the first section boundary forwards. */
  lemma NextAcrossFirstBoundary()
    ensures NextArticle(DocsData, "introduction", "architecture") == Some(Nav(DatasetPreparation, Training))
  {
    StoreIsInOrder();
    StoreIds();
    StoreIdsUnique();
    ArticleCounts();
    OnFromSectionEnd(DocsData, 0, 1);
  }

  /** Crossing the first section boundary backwards. */
  lemma PreviousAcrossFirstBoundary()
    ensures PreviousArticle(DocsData, "training", "dataset-preparation") == Some(Nav(Architecture, Introduction))
  {
    StoreIsInOrder();
    StoreIds();
    StoreIdsUnique();
    ArticleCounts();
    BackFromSectionStart(DocsData, 0, 1);
  }

  /** Nothing follows the last article of the last section. */
  lemma NothingAfterLast()
    ensures NextArticle(DocsData, "downloads", "resources").None?
  {
    StoreIsInOrder();
    StoreIdsUnique();
    ArticleCounts();
    assert DocsData[4] == Downloads;
    NoNextAfterLastSection(DocsData);
  }

  /** Nothing precedes the first article of the first section. */
  lemma NothingBeforeFirst()
    ensures PreviousArticle(DocsData, "introduction", "what-is-neuro-museo").None?
  {
    StoreIsInOrder();
    StoreIdsUnique();
    ArticleCounts();
    assert DocsData[0] == Introduction;
    NoPreviousBeforeFirstSection(DocsData);
  }

  /** The scoped lookup finds an article of the named section. */
  lemma ScopedLookupFinds()
    ensures ArticleById(DocsData, "introduction", "architecture") == Some(Architecture)
  {
    assert SectionById(DocsData, "introduction") == Some(Introduction);
    assert ArticleIndex(Introduction.articles, "architecture") == 1;
  }

  /** The scoped lookup does not find an article of another section. */
  lemma ScopedLookupMisses()
    ensures ArticleById(DocsData, "training", "architecture").None?
  {
    StoreIdsUnique();
    assert DocsData[1] == Training;
    SectionByIdOfMember(DocsData, Training);
    var arts := Training.articles;
    assert arts == [DatasetPreparation, TrainingProcess];
    assert arts[0].id != "architecture" && arts[1].id != "architecture";
    assert ArticleIndex(arts, "architecture") == -1;
  }

  /** The article "architecture" belongs to the first section. */
  lemma ArchitectureOwner()
    ensures FindSectionByArticleId(DocsData, "architecture") == Some(Introduction)
  {
    assert ArticleIndex(DocsData[0].articles, "architecture") == 1;
    assert OwnerIndex(DocsData, "architecture") == 0;
  }

  /** A known article's path names the section holding it. */
  lemma PathOfKnownArticle()
    ensures ArticlePath(DocsData, "architecture") == "/docs/" + "introduction" + "/" + "architecture"
  {
    ArchitectureOwner();
  }

  /** An unknown article's path is the documentation root. */
  lemma PathOfUnknownArticle()
    ensures ArticlePath(DocsData, "no-such-article") == "/docs"
  {
    ArticleCounts();
    assert FindSectionByArticleId(DocsData, "no-such-article").None?;
  }

  /** The upper-case query "DATASET" lower-cases to the tag "dataset". */
  lemma LowerQuery()
    ensures LowerStr("DATASET") == "dataset"
  {
    var r := LowerStr("DATASET");
    assert r[0] == 'd' && r[1] == 'a' && r[2] == 't' && r[3] == 'a' && r[4] == 's' && r[5] == 'e' && r[6] == 't';
  }

  /** An upper-case query finds the article tagged "dataset". */
  lemma SearchIgnoresCase()
    ensures DatasetPreparation in SearchArticles(DocsData, "DATASET")
  {
    ArticleCounts();
    assert DatasetPreparation in AllArticles(DocsData);
    LowerQuery();
    var q := LowerStr("DATASET");
    assert DatasetPreparation.tags[0] == q;
    LowerStrIdempotent("DATASET");
    ContainsSelf(q);
    assert Contains(LowerStr(DatasetPreparation.tags[0]), q);
    assert Matches(DatasetPreparation, q);
  }

  /** A one-article section with the given id, order and article id. */
  function Single(id: string, order: int, articleId: string): (s: DocSection)
    ensures s.id == id && s.order == order && |s.articles| == 1 && s.articles[0].id == articleId
  {
    DocSection(id, "", "", "BookOpen", order, [DocArticle(articleId, "", "", [], [], JAN_15_2024, 1)])
  }

  /** A store whose middle section is empty, already in `order`. */
  function GappedStore(): (d: seq<DocSection>)
    ensures |d| == 3 && d[0].id == "a" && d[1].id == "b" && d[2].id == "c"
    ensures |d[0].articles| == 1 && d[0].articles[0].id == "x" && d[1].articles == []
    ensures |d[2].articles| == 1 && d[2].articles[0].id == "y"
    ensures SortByOrder(d) == d
  {
    var d := [Single("a", 1, "x"), DocSection("b", "", "", "BookOpen", 2, []), Single("c", 3, "y")];
    SortByOrderOfSorted(d);
    d
  }

  /**
    The traversal looks only at the adjacent section: with an empty section in
    the middle, the step forward from the first section finds nothing even
    though the third section has an article.
  */
  lemma EmptyNeighbourStopsNext()
    ensures NextArticle(GappedStore(), "a", "x").None?
  {
    var d := GappedStore();
    assert SectionIndex(d, "a") == 0;
    assert ArticleIndex(d[0].articles, "x") == 0;
    assert NextArticle(d, "a", "x") == NextAcross(d, "a");
  }

  /** The mirror image: the step back from the third section finds nothing. */
  lemma EmptyNeighbourStopsPrevious()
    ensures PreviousArticle(GappedStore(), "c", "y").None?
  {
    var d := GappedStore();
    assert d[0].id != "c" && d[1].id != "c";
    assert SectionIndex(d, "c") == 2;
    assert ArticleIndex(d[2].articles, "y") == 0;
    assert PreviousArticle(d, "c", "y") == PreviousAcross(d, "c");
  }
}
