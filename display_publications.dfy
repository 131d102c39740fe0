/**
  The public publications page: the list loaded once, a null-safe
  four-field search that returns to page 1, six-item pages with Previous
  and Next buttons, and the sidebar insights over the whole collection.
 */
module DisplayPublications {
  import opened Common
  import opened Text
  import opened Lists
  import opened Paging
  import opened Insights

  const POSTS_PER_PAGE: nat := 6

  /** A publication as loaded; any text field may be absent. */
  datatype Publication = Publication(
    id: string, title: Option<string>, author: Option<string>, summary: Option<string>, category: Option<string>)

  predicate Matches(p: Publication, term: string) {
    || Contains(Field(p.author), term)
    || Contains(Field(p.title), term)
    || Contains(Field(p.summary), term)
    || Contains(Field(p.category), term)
  }

  /** The search filter: an order-preserving sublist of `list`; a blank input keeps everything. */
  function Search(list: seq<Publication>, input: string): (r: seq<Publication>)
    ensures IsSubseq(r, list)
    ensures Trim(input) == "" ==> r == list
  {
    var keep := (p: Publication) => Matches(p, Lower(Trim(input)));
    KeepIsSubseq(list, keep);
    if Trim(input) == "" then
      KeepAll(list, keep);
      Keep(list, keep)
    else
      Keep(list, keep)
  }

  /**
    The search keeps every publication whose author, title, summary or
    category contains the trimmed, lower-cased term, as often as it occurs,
    and nothing else.
   */
  lemma SearchKeepsMatches(list: seq<Publication>, input: string, p: Publication)
    ensures multiset(Search(list, input))[p] == if Matches(p, Lower(Trim(input))) then multiset(list)[p] else 0
  {
    KeepCounts(list, (q: Publication) => Matches(q, Lower(Trim(input))), p);
  }

  /**
    Absent fields do not stop the search: a publication with no text
    fields at all is kept exactly when the input is blank.
   */
  lemma BareMatchesOnlyBlank(p: Publication, input: string)
    requires p.title.None? && p.author.None? && p.summary.None? && p.category.None?
    ensures Matches(p, Lower(Trim(input))) <==> Trim(input) == ""
  {
    ContainedInEmpty(Lower(Trim(input)));
  }

  /** The module-level state of the page and the handlers that change it. */
  class PublicationsPage {
    var allPublications: seq<Publication>
    var filteredPublications: seq<Publication>
    var currentPage: int
    /** The page count of the controls last rendered. */
    var totalPages: nat
    /** The items rendered in the container. */
    var shown: seq<Publication>
    var prevDisabled: bool
    var nextDisabled: bool

    /** The rendered page and controls belong to `filteredPublications` and `currentPage`. */
    ghost predicate Rendered()
      reads this
    {
      && shown == PageSlice(filteredPublications, currentPage, POSTS_PER_PAGE)
      && totalPages == TotalPages(|filteredPublications|, POSTS_PER_PAGE)
      && (prevDisabled <==> currentPage == 1)
      && (nextDisabled <==> currentPage == totalPages)
    }

    constructor ()
      ensures allPublications == [] && filteredPublications == [] && currentPage == 1
      ensures shown == [] && totalPages == 0
    {
      allPublications, filteredPublications, currentPage := [], [], 1;
      shown, totalPages, prevDisabled, nextDisabled := [], 0, true, false;
    }

    /** `renderPublications(filteredPublications)` with `renderPaginationControls`. */
    method Render()
      modifies this`shown, this`totalPages, this`prevDisabled, this`nextDisabled
      ensures Rendered()
    {
      shown := PageSlice(filteredPublications, currentPage, POSTS_PER_PAGE);
      totalPages := TotalPages(|filteredPublications|, POSTS_PER_PAGE);
      prevDisabled := currentPage == 1;
      nextDisabled := currentPage == totalPages;
    }

    /** `loadPublications`: the snapshot becomes both lists and is rendered at the current page. */
    method Load(docs: seq<Publication>)
      modifies this`allPublications, this`filteredPublications, this`shown, this`totalPages,
               this`prevDisabled, this`nextDisabled
      ensures allPublications == docs && filteredPublications == docs
      ensures Rendered()
    {
      allPublications := docs;
      filteredPublications := allPublications;
      Render();
    }

    /** The search handler: filter the whole list and return to page 1. */
    method SearchInput(input: string)
      modifies this`filteredPublications, this`currentPage, this`shown, this`totalPages,
               this`prevDisabled, this`nextDisabled
      ensures filteredPublications == Search(allPublications, input)
      ensures currentPage == 1
      ensures Rendered()
    {
      filteredPublications := Search(allPublications, input);
      currentPage := 1;
      Render();
    }

    /**
      The Previous button, which can only be clicked while enabled: one page
      back, with no check of its own. From a page within the count, it stays
      within the count.
     */
    method ClickPrev()
      requires Rendered() && !prevDisabled
      modifies this`currentPage, this`shown, this`totalPages, this`prevDisabled, this`nextDisabled
      ensures currentPage == old(currentPage) - 1
      ensures Rendered() && totalPages == old(totalPages)
      ensures 1 <= old(currentPage) <= totalPages ==> 1 <= currentPage <= totalPages
    {
      currentPage := currentPage - 1;
      Render();
    }

    /**
      The Next button, which can only be clicked while enabled: one page on.
      From a page within the count it stays within the count; with nothing
      to show the count is 0, so Next is never disabled again.
     */
    method ClickNext()
      requires Rendered() && !nextDisabled
      modifies this`currentPage, this`shown, this`totalPages, this`prevDisabled, this`nextDisabled
      ensures currentPage == old(currentPage) + 1
      ensures Rendered() && totalPages == old(totalPages)
      ensures 1 <= old(currentPage) <= totalPages ==> 1 <= currentPage <= totalPages
      ensures filteredPublications == [] && old(currentPage) >= 1 ==> !nextDisabled && shown == []
    {
      currentPage := currentPage + 1;
      Render();
    }
  }

  /** The variables the sidebar's `forEach` updates. */
  datatype Counters = Counters(
    categories: Tally, authors: Tally, latestPost: Stamp, latestUpdated: Stamp,
    totalWords: nat, postsWithContent: nat)

  /**
    The `forEach` callback on one document: count its category and author,
    offer it as the latest created post (a held post with no timestamp is
    replaced by any document) and as the latest modified post (a timestamp
    is required), and add its words when the summary has more than one.
   */
  function Visit(c: Counters, d: SidebarDoc): Counters {
    var wordCount := WordCount(d.summary);
    Counters(
      Bump(c.categories, OrDefault(d.category, "Uncategorized")),
      Bump(c.authors, OrDefault(d.author, "Unknown")),
      Newer(c.latestPost, Candidate(d.title, d.dateCreated), false),
      Newer(c.latestUpdated, Candidate(d.title, d.dateModified), true),
      if wordCount > 1 then c.totalWords + wordCount else c.totalWords,
      if wordCount > 1 then c.postsWithContent + 1 else c.postsWithContent)
  }

  /** The counters after the callback has visited `docs` in order. */
  function Collect(docs: seq<SidebarDoc>): Counters
    decreases |docs|
  {
    if docs == [] then Counters(Tally([], map[]), Tally([], map[]), NO_POST, NO_POST, 0, 0)
    else Visit(Collect(docs[..|docs| - 1]), docs[|docs| - 1])
  }

  /** The category and author counters of the pass are the tallies of their labels. */
  lemma {:induction false} CollectTallies(docs: seq<SidebarDoc>)
    ensures Collect(docs).categories == TallyOf(Categories(docs))
    ensures Collect(docs).authors == TallyOf(Authors(docs))
    decreases |docs|
  {
    if docs != [] {
      var init, i := docs[..|docs| - 1], |docs| - 1;
      CollectTallies(init);
      LabelsOfPrefix(docs, i);
      assert TallyOf(Categories(docs)) == Bump(TallyOf(Categories(init)), Categories(docs)[i]);
      assert TallyOf(Authors(docs)) == Bump(TallyOf(Authors(init)), Authors(docs)[i]);
    }
  }

  /** The two latest posts of the pass are the selections over their timestamps. */
  lemma {:induction false} CollectLatest(docs: seq<SidebarDoc>)
    ensures Collect(docs).latestPost == LatestOf(Created(docs), false)
    ensures Collect(docs).latestUpdated == LatestOf(Modified(docs), true)
    decreases |docs|
  {
    if docs != [] {
      var init, i := docs[..|docs| - 1], |docs| - 1;
      CollectLatest(init);
      LabelsOfPrefix(docs, i);
      assert LatestOf(Created(docs), false) == Newer(LatestOf(Created(init), false), Created(docs)[i], false);
      assert LatestOf(Modified(docs), true) == Newer(LatestOf(Modified(init), true), Modified(docs)[i], true);
    }
  }

  /** The word totals of the pass are the content statistics of the summaries. */
  lemma {:induction false} CollectContent(docs: seq<SidebarDoc>)
    ensures Collect(docs).totalWords == ContentStats(Summaries(docs)).0
    ensures Collect(docs).postsWithContent == ContentStats(Summaries(docs)).1
    decreases |docs|
  {
    if docs != [] {
      var init, i := docs[..|docs| - 1], |docs| - 1;
      CollectContent(init);
      LabelsOfPrefix(docs, i);
    }
  }

  /** What the sidebar shows: the post count, both counters, their top entries, the latest posts and the word totals. */
  datatype PublicationInsights = PublicationInsights(
    totalPosts: nat, categories: Tally, authors: Tally, topCategory: (string, nat), topAuthor: (string, nat),
    latestPost: Stamp, latestUpdated: Stamp, totalWords: nat, postsWithContent: nat)

  /**
    `populateSidebarInsights` over the snapshot: one pass of the callback,
    then the top category and author.
   */
  method PopulateSidebarInsights(docs: seq<SidebarDoc>) returns (s: PublicationInsights)
    ensures s.totalPosts == |docs|
    ensures s.categories == TallyOf(Categories(docs)) && s.authors == TallyOf(Authors(docs))
    ensures Total(s.categories, s.categories.keys) == |docs| && Total(s.authors, s.authors.keys) == |docs|
    ensures s.topCategory == Top(s.categories) && s.topAuthor == Top(s.authors)
    ensures s.latestPost == LatestOf(Created(docs), false)
    ensures s.latestUpdated == LatestOf(Modified(docs), true)
    ensures s.totalWords == ContentStats(Summaries(docs)).0 && s.postsWithContent == ContentStats(Summaries(docs)).1
  {
    var c := Pass(docs);
    CollectTallies(docs);
    CollectLatest(docs);
    CollectContent(docs);
    assert Total(c.categories, c.categories.keys) == |docs| by { TallyTotal(Categories(docs)); }
    assert Total(c.authors, c.authors.keys) == |docs| by { TallyTotal(Authors(docs)); }
    s := PublicationInsights(|docs|, c.categories, c.authors, Top(c.categories), Top(c.authors),
                             c.latestPost, c.latestUpdated, c.totalWords, c.postsWithContent);
  }

  /** The `forEach` over the snapshot: the variables it updates end as the whole pass leaves them. */
  method Pass(docs: seq<SidebarDoc>) returns (c: Counters)
    ensures c == Collect(docs)
  {
    var categories := Tally([], map[]);
    var authors := Tally([], map[]);
    var latestPost := NO_POST;
    var latestUpdated := NO_POST;
    var totalWords, postsWithContent := 0, 0;
    var i := 0;
    while i < |docs|
      invariant 0 <= i <= |docs|
      invariant Counters(categories, authors, latestPost, latestUpdated, totalWords, postsWithContent)
                == Collect(docs[..i])
    {
      var d := docs[i];
      assert docs[..i + 1][..i] == docs[..i];
      categories := Bump(categories, OrDefault(d.category, "Uncategorized"));
      authors := Bump(authors, OrDefault(d.author, "Unknown"));
      latestPost := Newer(latestPost, Candidate(d.title, d.dateCreated), false);
      latestUpdated := Newer(latestUpdated, Candidate(d.title, d.dateModified), true);
      var wordCount := WordCount(d.summary);
      if wordCount > 1 {
        totalWords := totalWords + wordCount;
        postsWithContent := postsWithContent + 1;
      }
      i := i + 1;
    }
    assert docs[..i] == docs;
    c := Counters(categories, authors, latestPost, latestUpdated, totalWords, postsWithContent);
  }
}
