/**
  The manager's publications page: one-shot fetches of up to twenty
  documents appended to `fullList`, a three-field search (title, category,
  summary) re-applied after every fetch, six-item pages with the
  four-button window, and the save and delete handlers, which refetch
  from the start after success.
 */
module ManagePublications {
  import opened Common
  import opened Text
  import opened Lists
  import opened Paging
  import opened Publications

  const PAGE_SIZE: nat := 6

  /** The filter of this page: the author is not searched. */
  predicate Matches(p: Publication, term: string) {
    || Contains(Lower(p.title), term)
    || Contains(Lower(p.category), term)
    || Contains(Lower(p.summary), term)
  }

  /**
    The search filter used by the input handler and after each fetch: an
    order-preserving sublist of `list`; a blank input keeps everything.
   */
  function Search(list: seq<Publication>, input: string): (r: seq<Publication>)
    ensures IsSubseq(r, list)
    ensures Trim(input) == "" ==> r == list
  {
    var keep := (p: Publication) => Matches(p, SearchTerm(input));
    KeepIsSubseq(list, keep);
    if Trim(input) == "" then
      KeepAll(list, keep);
      Keep(list, keep)
    else
      Keep(list, keep)
  }

  /**
    The search keeps every publication whose title, category or summary
    contains the term, as often as it occurs, and nothing else.
   */
  lemma SearchKeepsMatches(list: seq<Publication>, input: string, p: Publication)
    ensures multiset(Search(list, input))[p] == if Matches(p, SearchTerm(input)) then multiset(list)[p] else 0
  {
    KeepCounts(list, (q: Publication) => Matches(q, SearchTerm(input)), p);
  }

  /**
    Filtering the accumulated list is filtering what was there and then the
    new batch: a fetch appends the batch's matches after the earlier ones.
   */
  lemma SearchOfAppend(before: seq<Publication>, batch: seq<Publication>, input: string)
    ensures Search(before + batch, input) == Search(before, input) + Search(batch, input)
  {
    KeepAppend(before, batch, (p: Publication) => Matches(p, SearchTerm(input)));
  }

  /**
    The author is never searched: changing it does not change whether a
    publication matches, so a publication whose author contains the term
    but that matches nowhere else is not found, however often it is listed.
   */
  lemma AuthorIsNotSearched(list: seq<Publication>, input: string, p: Publication, author: string)
    ensures Matches(p.(author := author), SearchTerm(input)) == Matches(p, SearchTerm(input))
    ensures Contains(Lower(p.author), SearchTerm(input)) && !Matches(p, SearchTerm(input)) ==>
              multiset(Search(list, input))[p] == 0
  {
    SearchKeepsMatches(list, input, p);
    SearchKeepsMatches(list, input, p.(author := author));
  }

  /** Such a publication exists: one whose author alone contains the term is filtered out. */
  lemma AuthorOnlyMatchIsDropped()
    ensures var p := Publication("p1", "x", "ann", "y", "z", "", "u1");
            Contains(Lower(p.author), SearchTerm("ann")) && Search([p], "ann") == []
  {
    var p := Publication("p1", "x", "ann", "y", "z", "", "u1");
    var term := SearchTerm("ann");
    assert Trim("ann") == "ann";
    assert Lower(p.author) == term;
    assert term <= term;
    assert |term| == 3;
    if Contains(Lower(p.title), term) { ContainsNoLonger(Lower(p.title), term); }
    if Contains(Lower(p.category), term) { ContainsNoLonger(Lower(p.category), term); }
    if Contains(Lower(p.summary), term) { ContainsNoLonger(Lower(p.summary), term); }
    assert [p][1..] == [];
  }

  /** The object the form writes: `imageURL` is always empty. */
  datatype PublicationRecord = PublicationRecord(
    title: string, author: string, category: string, imageURL: string, summary: string,
    dateCreatedSet: bool)

  /** How a submit ends: the write succeeded or threw. */
  datatype SubmitOutcome =
    | Saved(kind: WriteKind, record: PublicationRecord)
    | SaveFailed(kind: WriteKind, record: PublicationRecord)

  /**
    The decision of the submit handler: the trimmed fields, an empty
    `imageURL` whether or not an image was chosen, an update when the hidden
    id is non-empty and an addition with `dateCreated` otherwise.
   */
  function SubmitPublication(form: PublicationForm, writeFails: bool): (o: SubmitOutcome)
    ensures o.Saved? <==> !writeFails
    ensures o.kind == Create <==> Trim(form.publicationId) == ""
    ensures o.kind.Update? ==> o.kind.id == Trim(form.publicationId)
    ensures o.record.dateCreatedSet <==> o.kind == Create
    ensures o.record.imageURL == ""
    ensures o.record.title == Trim(form.title) && o.record.author == Trim(form.author)
    ensures o.record.category == Trim(form.category) && o.record.summary == Trim(form.summary)
  {
    var id := Trim(form.publicationId);
    var kind := if id != "" then Update(id) else Create;
    var record := PublicationRecord(
      Trim(form.title), Trim(form.author), Trim(form.category), "", Trim(form.summary), kind.Create?);
    if writeFails then SaveFailed(kind, record) else Saved(kind, record)
  }

  /** The module-level state of the page and the handlers that change it. */
  class PublicationsPage {
    var fullList: seq<Publication>
    /** The id of the last document of the latest non-empty batch (`lastVisible`). */
    var lastVisible: Option<string>
    var currentPage: int
    var totalPages: nat
    /** The items rendered in the container. */
    var shown: seq<Publication>
    /** The filtered list the current page links re-render when clicked. */
    var pagedList: seq<Publication>
    var buttons: seq<PageButton>
    var prev: NavLink
    var next: NavLink

    /** The page is at least 1 and the page count belongs to the list the links show. */
    ghost predicate Valid()
      reads this
    {
      currentPage >= 1 && totalPages == TotalPages(|pagedList|, PAGE_SIZE)
    }

    /**
      What `renderPublications(list)` followed by `updatePagination(list)`
      leaves on the page: the current page of `pagedList`, the button window
      and the previous and next links around the current page.
     */
    ghost predicate Rendered()
      reads this
    {
      && shown == PageSlice(pagedList, currentPage, PAGE_SIZE)
      && IsWindow(buttons, currentPage, totalPages)
      && prev == NavLink(currentPage - 1, currentPage == 1)
      && next == NavLink(currentPage + 1, currentPage == totalPages)
    }

    /** The pagination is the one drawn before, whatever the page now is. */
    ghost predicate SamePagination(pagedList0: seq<Publication>, totalPages0: nat, buttons0: seq<PageButton>,
                                   prev0: NavLink, next0: NavLink)
      reads this
    {
      pagedList == pagedList0 && totalPages == totalPages0 && buttons == buttons0 && prev == prev0 && next == next0
    }

    /**
      The page after `fetchPublications(true)` read `refetch` (`None` when
      the read threw) with `searchInput` in the search box: page 1 of the
      matches among the fetched list and its cursor; a failed read leaves the
      container empty and the earlier pagination.
     */
    ghost predicate Refetched(refetch: Option<seq<Publication>>, searchInput: string, pagedList0: seq<Publication>,
                              totalPages0: nat, buttons0: seq<PageButton>, prev0: NavLink, next0: NavLink)
      reads this
    {
      && currentPage == 1
      && fullList == (if refetch.Some? then refetch.value else [])
      && lastVisible == (if fullList == [] then None else Some(fullList[|fullList| - 1].id))
      && (refetch.Some? ==> pagedList == Search(fullList, searchInput) && Rendered())
      && (refetch.None? ==> shown == [] && SamePagination(pagedList0, totalPages0, buttons0, prev0, next0))
    }

    constructor ()
      ensures Valid()
      ensures fullList == [] && lastVisible == None && currentPage == 1 && totalPages == 0
      ensures shown == [] && pagedList == [] && buttons == []
    {
      fullList, lastVisible, currentPage, totalPages := [], None, 1, 0;
      shown, pagedList, buttons := [], [], [];
      prev, next := NavLink(0, true), NavLink(2, false);
    }

    /** `renderPublications(list)`: the six-item slice for the current page. */
    method Render(list: seq<Publication>)
      modifies this`shown
      ensures shown == PageSlice(list, currentPage, PAGE_SIZE)
    {
      shown := PageSlice(list, currentPage, PAGE_SIZE);
    }

    /** `updatePagination(filteredList)`: page count, links and numbered buttons. */
    method UpdatePagination(list: seq<Publication>)
      modifies this`totalPages, this`pagedList, this`buttons, this`prev, this`next
      ensures totalPages == TotalPages(|list|, PAGE_SIZE) && pagedList == list
      ensures IsWindow(buttons, currentPage, totalPages)
      ensures prev == NavLink(currentPage - 1, currentPage == 1)
      ensures next == NavLink(currentPage + 1, currentPage == totalPages)
    {
      totalPages := TotalPages(|list|, PAGE_SIZE);
      pagedList := list;
      buttons := PageButtons(currentPage, totalPages);
      prev := NavLink(currentPage - 1, currentPage == 1);
      next := NavLink(currentPage + 1, currentPage == totalPages);
    }

    /**
      `fetchPublications(reset)`: a reset first empties the list, forgets the
      cursor and returns to page 1; the batch (`None` when the read throws)
      is appended, and the search box's current input is applied to the
      whole accumulated list before rendering.
     */
    method FetchPublications(reset: bool, batch: Option<seq<Publication>>, searchInput: string)
      requires Valid()
      modifies this`shown, this`fullList, this`lastVisible, this`currentPage, this`totalPages,
               this`pagedList, this`buttons, this`prev, this`next
      ensures Valid()
      ensures currentPage == if reset then 1 else old(currentPage)
      ensures var before := if reset then [] else old(fullList);
              fullList == before + (if batch.Some? then batch.value else [])
      ensures var cursor := if reset then None else old(lastVisible);
              lastVisible == if batch.Some? && batch.value != [] then Some(batch.value[|batch.value| - 1].id) else cursor
      ensures batch.Some? ==> pagedList == Search(fullList, searchInput) && Rendered()
      ensures batch.None? ==>
                && shown == (if reset then [] else old(shown))
                && SamePagination(old(pagedList), old(totalPages), old(buttons), old(prev), old(next))
    {
      if reset {
        Reset();
      }
      if batch.Some? {
        Load(batch.value, searchInput);
      }
    }

    /** The reset branch of `fetchPublications(true)`: an empty container and list, no cursor, page 1. */
    method Reset()
      requires Valid()
      modifies this`shown, this`fullList, this`lastVisible, this`currentPage
      ensures Valid()
      ensures shown == [] && fullList == [] && lastVisible == None && currentPage == 1
    {
      shown := [];
      fullList, lastVisible, currentPage := [], None, 1;
    }

    /** A batch that was read: appended, then the search box's input applied to the whole list and rendered. */
    method Load(docs: seq<Publication>, searchInput: string)
      requires Valid()
      modifies this`shown, this`fullList, this`lastVisible, this`totalPages, this`pagedList, this`buttons,
               this`prev, this`next
      ensures Valid()
      ensures fullList == old(fullList) + docs
      ensures lastVisible == if docs != [] then Some(docs[|docs| - 1].id) else old(lastVisible)
      ensures pagedList == Search(fullList, searchInput) && Rendered()
    {
      Append(docs);
      SearchInput(searchInput);
    }

    /** A fetched batch joins `fullList`, and its last document becomes the cursor. */
    method Append(docs: seq<Publication>)
      modifies this`fullList, this`lastVisible
      ensures fullList == old(fullList) + docs
      ensures lastVisible == if docs != [] then Some(docs[|docs| - 1].id) else old(lastVisible)
    {
      if docs != [] {
        lastVisible := Some(docs[|docs| - 1].id);
      }
      fullList := fullList + docs;
    }

    /** The search handler: it filters `fullList` and leaves `currentPage` where it was. */
    method SearchInput(input: string)
      requires Valid()
      modifies this`shown, this`totalPages, this`pagedList, this`buttons, this`prev, this`next
      ensures Valid()
      ensures pagedList == Search(fullList, input)
      ensures Rendered() && currentPage == old(currentPage)
    {
      var filtered := Search(fullList, input);
      Render(filtered);
      UpdatePagination(filtered);
    }

    /** A page-link click: `parsed` is `parseInt(btn.dataset.page)`, `None` for `NaN`. */
    method ClickPage(parsed: Option<int>)
      requires Valid()
      modifies this`currentPage, this`shown, this`totalPages, this`pagedList, this`buttons, this`prev, this`next
      ensures Valid()
      ensures currentPage == ClickTarget(old(currentPage), parsed, old(totalPages))
      ensures pagedList == old(pagedList) && totalPages == old(totalPages)
      ensures ClickTaken(parsed, old(totalPages)) ==> Rendered()
      ensures !ClickTaken(parsed, old(totalPages)) ==> unchanged(this)
    {
      if parsed.Some? && 1 <= parsed.value <= totalPages {
        currentPage := parsed.value;
        Render(pagedList);
        UpdatePagination(pagedList);
      }
    }

    /**
      The submit handler: after a successful write the list is fetched
      again from the start (`refetch` is that batch); a failed write leaves
      the page as it was.
     */
    method Submit(form: PublicationForm, writeFails: bool, refetch: Option<seq<Publication>>, searchInput: string)
      returns (o: SubmitOutcome)
      requires Valid()
      modifies this`shown, this`fullList, this`lastVisible, this`currentPage, this`totalPages,
               this`pagedList, this`buttons, this`prev, this`next
      ensures Valid()
      ensures o == SubmitPublication(form, writeFails)
      ensures o.Saved? ==>
                Refetched(refetch, searchInput, old(pagedList), old(totalPages), old(buttons), old(prev), old(next))
      ensures o.SaveFailed? ==> unchanged(this)
    {
      o := SubmitPublication(form, writeFails);
      if o.Saved? {
        Refetch(refetch, searchInput);
      }
    }

    /** A confirmed delete: the document is removed remotely, then the list is fetched again. */
    method Delete(deleteFails: bool, refetch: Option<seq<Publication>>, searchInput: string)
      requires Valid()
      modifies this`shown, this`fullList, this`lastVisible, this`currentPage, this`totalPages,
               this`pagedList, this`buttons, this`prev, this`next
      ensures Valid()
      ensures !deleteFails ==>
                Refetched(refetch, searchInput, old(pagedList), old(totalPages), old(buttons), old(prev), old(next))
      ensures deleteFails ==> unchanged(this)
    {
      if !deleteFails {
        Refetch(refetch, searchInput);
      }
    }

    /** `fetchPublications(true)` after a save or a delete. */
    method Refetch(refetch: Option<seq<Publication>>, searchInput: string)
      requires Valid()
      modifies this`shown, this`fullList, this`lastVisible, this`currentPage, this`totalPages,
               this`pagedList, this`buttons, this`prev, this`next
      ensures Valid()
      ensures Refetched(refetch, searchInput, old(pagedList), old(totalPages), old(buttons), old(prev), old(next))
    {
      FetchPublications(true, refetch, searchInput);
    }
  }
}
