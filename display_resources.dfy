/**
  The public resources page: the list loaded once, twelve-card pages whose
  render filters by the search box and clamps the page, Previous and Next
  handlers with their own bounds, and the sidebar insights.
 */
module DisplayResources {
  import opened Common
  import opened Text
  import opened Lists
  import opened Paging
  import opened Insights

  const RESOURCES_PER_PAGE: nat := 12

  /** A resource as loaded; any text field may be absent. */
  datatype Resource = Resource(id: string, title: Option<string>, author: Option<string>, category: Option<string>)

  predicate Matches(r: Resource, term: string) {
    || Contains(Field(r.title), term)
    || Contains(Field(r.author), term)
    || Contains(Field(r.category), term)
  }

  /** The filter of `renderResources`: an order-preserving sublist; a blank box keeps everything. */
  function Search(list: seq<Resource>, input: string): (r: seq<Resource>)
    ensures |r| <= |list| && IsSubseq(r, list)
    ensures Trim(input) == "" ==> r == list
  {
    var keep := (x: Resource) => Matches(x, Lower(Trim(input)));
    KeepIsSubseq(list, keep);
    if Trim(input) == "" then
      KeepAll(list, keep);
      Keep(list, keep)
    else
      Keep(list, keep)
  }

  /**
    The filter keeps every resource whose title, author or category contains
    the trimmed, lower-cased term, as often as it occurs, and nothing else;
    an absent field counts as empty.
   */
  lemma SearchKeepsMatches(list: seq<Resource>, input: string, x: Resource)
    ensures multiset(Search(list, input))[x] == if Matches(x, Lower(Trim(input))) then multiset(list)[x] else 0
  {
    KeepCounts(list, (y: Resource) => Matches(y, Lower(Trim(input))), x);
  }

  /** `Math.min(currentPage, totalPages || 1)`. */
  function Clamp(page: int, total: nat): (r: int)
    ensures r <= page && r <= Max(1, total)
    ensures page <= Max(1, total) ==> r == page
  {
    Min(page, if total == 0 then 1 else total)
  }

  /** The module-level state of the page and the handlers that change it. */
  class ResourcesPage {
    var allResources: seq<Resource>
    /** The value of the search box. */
    var searchValue: string
    var currentPage: int
    /** The page count of the filtered list at the last render. */
    var totalPages: nat
    /** The cards rendered in the container. */
    var shown: seq<Resource>
    var prevDisabled: bool
    var nextDisabled: bool
    /** The count in the "Page X of Y" label. */
    var labelTotal: nat

    /**
      The display belongs to the filtered list: its page count, a page
      within `[1, max(1, totalPages)]`, that page's cards, the buttons and
      the label.
     */
    ghost predicate Valid()
      reads this
    {
      && totalPages == TotalPages(|Search(allResources, searchValue)|, RESOURCES_PER_PAGE)
      && 1 <= currentPage <= Max(1, totalPages)
      && shown == PageSlice(Search(allResources, searchValue), currentPage, RESOURCES_PER_PAGE)
      && (prevDisabled <==> currentPage == 1)
      && (nextDisabled <==> currentPage >= totalPages)
      && labelTotal == Max(1, totalPages)
    }

    constructor ()
      ensures Valid()
      ensures allResources == [] && searchValue == "" && currentPage == 1 && shown == []
    {
      allResources, searchValue, currentPage := [], "", 1;
      totalPages, shown := 0, [];
      prevDisabled, nextDisabled, labelTotal := true, true, 1;
    }

    /**
      The body of `renderResources` after filtering: clamp the page into the
      filtered count and render that page with its controls. The clamp only
      ever lowers the page, and whenever something matches, something is
      shown.
     */
    method Show(filtered: seq<Resource>)
      requires currentPage >= 1
      modifies this`currentPage, this`totalPages, this`shown, this`prevDisabled, this`nextDisabled, this`labelTotal
      ensures totalPages == TotalPages(|filtered|, RESOURCES_PER_PAGE)
      ensures currentPage == Clamp(old(currentPage), totalPages)
      ensures 1 <= currentPage <= Max(1, totalPages)
      ensures shown == PageSlice(filtered, currentPage, RESOURCES_PER_PAGE)
      ensures filtered != [] ==> shown != []
      ensures (prevDisabled <==> currentPage == 1) && (nextDisabled <==> currentPage >= totalPages)
      ensures labelTotal == Max(1, totalPages)
    {
      totalPages := TotalPages(|filtered|, RESOURCES_PER_PAGE);
      currentPage := Clamp(currentPage, totalPages);
      shown := PageSlice(filtered, currentPage, RESOURCES_PER_PAGE);
      prevDisabled := currentPage == 1;
      nextDisabled := currentPage >= totalPages;
      labelTotal := if totalPages == 0 then 1 else totalPages;
      PageEmptyIffBeyond(filtered, currentPage, RESOURCES_PER_PAGE);
    }

    /** `renderResources`: filter the list by the search box, then show the clamped page. */
    method Render()
      requires currentPage >= 1
      modifies this`currentPage, this`totalPages, this`shown, this`prevDisabled, this`nextDisabled, this`labelTotal
      ensures Valid()
      ensures currentPage == Clamp(old(currentPage), totalPages)
      ensures shown == PageSlice(Search(allResources, searchValue), currentPage, RESOURCES_PER_PAGE)
    {
      var filtered := Search(allResources, searchValue);
      Show(filtered);
    }

    /** `loadResources`: the snapshot replaces the list, which is rendered. */
    method Load(docs: seq<Resource>)
      requires Valid()
      modifies this`allResources, this`currentPage, this`totalPages, this`shown, this`prevDisabled,
               this`nextDisabled, this`labelTotal
      ensures allResources == docs && Valid()
      ensures currentPage == Clamp(old(currentPage), totalPages) && currentPage <= old(currentPage)
      ensures shown == PageSlice(Search(docs, searchValue), currentPage, RESOURCES_PER_PAGE)
    {
      allResources := docs;
      Render();
    }

    /** The search handler: back to page 1, then render. */
    method SearchInput(input: string)
      requires Valid()
      modifies this`searchValue, this`currentPage, this`totalPages, this`shown, this`prevDisabled,
               this`nextDisabled, this`labelTotal
      ensures searchValue == input && Valid()
      ensures currentPage == 1
      ensures shown == PageSlice(Search(allResources, input), 1, RESOURCES_PER_PAGE)
    {
      searchValue := input;
      currentPage := 1;
      Render();
    }

    /** The Previous handler: one page back, only from a page after the first. */
    method ClickPrev()
      requires Valid()
      modifies this`currentPage, this`totalPages, this`shown, this`prevDisabled, this`nextDisabled, this`labelTotal
      ensures Valid()
      ensures currentPage == if old(currentPage) > 1 then old(currentPage) - 1 else old(currentPage)
      ensures shown == PageSlice(Search(allResources, searchValue), currentPage, RESOURCES_PER_PAGE)
    {
      if currentPage > 1 {
        currentPage := currentPage - 1;
        Render();
      }
    }

    /**
      The Next handler, bounded by the page count of the unfiltered list.
      Since the render clamps to the filtered count, the page still moves
      only while it is before the last filtered page.
     */
    method ClickNext()
      requires Valid()
      modifies this`currentPage, this`totalPages, this`shown, this`prevDisabled, this`nextDisabled, this`labelTotal
      ensures Valid() && totalPages == old(totalPages)
      ensures currentPage == if old(currentPage) < totalPages then old(currentPage) + 1 else old(currentPage)
      ensures shown == PageSlice(Search(allResources, searchValue), currentPage, RESOURCES_PER_PAGE)
    {
      var total := TotalPages(|allResources|, RESOURCES_PER_PAGE);
      TotalPagesMono(|Search(allResources, searchValue)|, |allResources|, RESOURCES_PER_PAGE);
      if currentPage < total {
        currentPage := currentPage + 1;
        Render();
      }
    }
  }

  /** The variables the sidebar's `forEach` updates. */
  datatype Counters = Counters(categories: Tally, authors: Tally, latestPost: Stamp, latestUpdated: Stamp)

  /**
    The `forEach` callback on one document: count its category and author,
    and offer it as the latest created and latest modified post; both
    require the document to carry the timestamp.
   */
  function Visit(c: Counters, d: SidebarDoc): Counters {
    Counters(
      Bump(c.categories, OrDefault(d.category, "Uncategorized")),
      Bump(c.authors, OrDefault(d.author, "Unknown")),
      Newer(c.latestPost, Candidate(d.title, d.dateCreated), true),
      Newer(c.latestUpdated, Candidate(d.title, d.dateModified), true))
  }

  /** The counters after the callback has visited `docs` in order. */
  function Collect(docs: seq<SidebarDoc>): Counters
    decreases |docs|
  {
    if docs == [] then Counters(Tally([], map[]), Tally([], map[]), NO_POST, NO_POST)
    else Visit(Collect(docs[..|docs| - 1]), docs[|docs| - 1])
  }

  /** The category and author counters of the pass are the tallies of their labels. */
  lemma {:induction false} CollectTallies(docs: seq<SidebarDoc>)
    ensures Collect(docs).categories == TallyOf(Categories(docs))
    ensures Collect(docs).authors == TallyOf(Authors(docs))
    decreases |docs|
  {
    if docs != [] {
      var init, i := docs[..|docs| - 1], |docs| - 1;
      CollectTallies(init);
      LabelsOfPrefix(docs, i);
      assert TallyOf(Categories(docs)) == Bump(TallyOf(Categories(init)), Categories(docs)[i]);
      assert TallyOf(Authors(docs)) == Bump(TallyOf(Authors(init)), Authors(docs)[i]);
    }
  }

  /** The two latest posts of the pass are the dated selections over their timestamps. */
  lemma {:induction false} CollectLatest(docs: seq<SidebarDoc>)
    ensures Collect(docs).latestPost == LatestOf(Created(docs), true)
    ensures Collect(docs).latestUpdated == LatestOf(Modified(docs), true)
    decreases |docs|
  {
    if docs != [] {
      var init, i := docs[..|docs| - 1], |docs| - 1;
      CollectLatest(init);
      LabelsOfPrefix(docs, i);
      assert LatestOf(Created(docs), true) == Newer(LatestOf(Created(init), true), Created(docs)[i], true);
      assert LatestOf(Modified(docs), true) == Newer(LatestOf(Modified(init), true), Modified(docs)[i], true);
    }
  }

  /** What the sidebar shows: the resource count, both counters, their top entries and the latest posts. */
  datatype ResourceInsights = ResourceInsights(
    totalPosts: nat, categories: Tally, authors: Tally, topCategory: (string, nat), topAuthor: (string, nat),
    latestPost: Stamp, latestUpdated: Stamp)

  /** `populateSidebarInsights` over the snapshot: one pass of the callback, then the top entries. */
  method PopulateSidebarInsights(docs: seq<SidebarDoc>) returns (s: ResourceInsights)
    ensures s.totalPosts == |docs|
    ensures s.categories == TallyOf(Categories(docs)) && s.authors == TallyOf(Authors(docs))
    ensures Total(s.categories, s.categories.keys) == |docs| && Total(s.authors, s.authors.keys) == |docs|
    ensures s.topCategory == Top(s.categories) && s.topAuthor == Top(s.authors)
    ensures s.latestPost == LatestOf(Created(docs), true)
    ensures s.latestUpdated == LatestOf(Modified(docs), true)
  {
    var categories := Tally([], map[]);
    var authors := Tally([], map[]);
    var latestPost := NO_POST;
    var latestUpdated := NO_POST;
    var i := 0;
    while i < |docs|
      invariant 0 <= i <= |docs|
      invariant Counters(categories, authors, latestPost, latestUpdated) == Collect(docs[..i])
    {
      var d := docs[i];
      assert docs[..i + 1][..i] == docs[..i];
      categories := Bump(categories, OrDefault(d.category, "Uncategorized"));
      authors := Bump(authors, OrDefault(d.author, "Unknown"));
      latestPost := Newer(latestPost, Candidate(d.title, d.dateCreated), true);
      latestUpdated := Newer(latestUpdated, Candidate(d.title, d.dateModified), true);
      i := i + 1;
    }
    assert docs[..i] == docs;
    CollectTallies(docs);
    CollectLatest(docs);
    assert Total(categories, categories.keys) == |docs| by { TallyTotal(Categories(docs)); }
    assert Total(authors, authors.keys) == |docs| by { TallyTotal(Authors(docs)); }
    s := ResourceInsights(|docs|, categories, authors, Top(categories), Top(authors), latestPost, latestUpdated);
  }
}
