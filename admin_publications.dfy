/**
  The admin publications page: a live list replaced by each snapshot, a
  debounced search that filters four fields without resetting the page,
  six-item pages with a four-button window, role-gated edit/delete controls,
  and the submit decision of the publication form.
 */
module AdminPublications {
  import opened Common
  import opened Text
  import opened Lists
  import opened Paging
  import opened Roles
  import opened Publications

  const PAGE_SIZE: nat := 6
  /** The image limit of the form, `5 * 1024 * 1024` bytes. */
  const IMAGE_LIMIT: nat := 5242880

  predicate Matches(p: Publication, term: string) {
    || Contains(Lower(p.title), term)
    || Contains(Lower(p.author), term)
    || Contains(Lower(p.category), term)
    || Contains(Lower(p.summary), term)
  }

  /**
    The search filter: an order-preserving sublist of `list`; a blank input
    keeps everything.
   */
  function Search(list: seq<Publication>, input: string): (r: seq<Publication>)
    ensures IsSubseq(r, list)
    ensures Trim(input) == "" ==> r == list
  {
    var keep := (p: Publication) => Matches(p, SearchTerm(input));
    KeepIsSubseq(list, keep);
    if Trim(input) == "" then
      KeepAll(list, keep);
      Keep(list, keep)
    else
      Keep(list, keep)
  }

  /**
    The search keeps every publication whose title, author, category or
    summary contains the term, as often as it occurs, and nothing else.
   */
  lemma SearchKeepsMatches(list: seq<Publication>, input: string, p: Publication)
    ensures multiset(Search(list, input))[p] == if Matches(p, SearchTerm(input)) then multiset(list)[p] else 0
  {
    KeepCounts(list, (q: Publication) => Matches(q, SearchTerm(input)), p);
  }

  /** The stored fields of an existing publication that the submit handler reads. */
  datatype StoredPublication = StoredPublication(uid: string, imageURL: string)

  /** The object written to the `publications` collection. */
  datatype PublicationRecord = PublicationRecord(
    title: string, author: string, category: string, imageURL: string, summary: string,
    uid: Option<string>, lastEditedBy: Option<string>, dateCreatedSet: bool)

  /**
    What the remote calls of one submit return: the stored document when
    editing, the download URL of an uploaded image or whether the upload
    throws, whether Cancel was pressed before the write or after it, and
    whether the write throws.
   */
  datatype SubmitEnv = SubmitEnv(
    existing: Lookup<StoredPublication>, uploadedUrl: string, uploadFails: bool,
    cancelledBeforeWrite: bool, writeFails: bool, cancelledAfterWrite: bool)

  /** How a submit ends; `closed` says the modal was hidden and the form reset. */
  datatype SubmitOutcome =
    | LookupError                                     // the read of the stored document threw: the button stays disabled
    | TooLarge                                        // the image exceeds 5MB: nothing uploaded, nothing written
    | UploadError                                     // the upload threw before the `try`: no alert, the button stays disabled
    | Cancelled(uploaded: bool)                       // the cancel flag was seen before the write
    | Saved(kind: WriteKind, record: PublicationRecord, closed: bool)
    | SaveFailed(kind: WriteKind, record: PublicationRecord)

  predicate Written(o: SubmitOutcome) {
    o.Saved? || o.SaveFailed?
  }

  /**
    The submit handler with its remote calls as inputs. The stored document
    is read and the image uploaded before the `try`, so a failed read or a
    failed upload ends the handler with the button still disabled and no
    error alert.
   */
  function SubmitPublication(form: PublicationForm, image: Option<nat>, currentUid: Option<string>, env: SubmitEnv)
    : (o: SubmitOutcome)
    ensures o == LookupError <==> Trim(form.publicationId) != "" && env.existing == LookupFailed
    ensures o == TooLarge <==> !o.LookupError? && image.Some? && image.value > IMAGE_LIMIT
    ensures o == UploadError <==> !o.LookupError? && !o.TooLarge? && image.Some? && env.uploadFails
    ensures o.Cancelled? <==>
              !o.LookupError? && !o.TooLarge? && !o.UploadError? && env.cancelledBeforeWrite
    ensures o.Cancelled? ==> o.uploaded == image.Some?
    ensures o.Saved? ==> !env.writeFails && (o.closed <==> !env.cancelledAfterWrite)
    ensures o.SaveFailed? ==> env.writeFails
    ensures Written(o) ==>
              && (o.kind == Create <==> Trim(form.publicationId) == "")
              && (o.kind.Update? ==> o.kind.id == Trim(form.publicationId))
              && o.record.dateCreatedSet == o.kind.Create?
              && o.record.title == Trim(form.title) && o.record.author == Trim(form.author)
              && o.record.category == Trim(form.category) && o.record.summary == Trim(form.summary)
              && o.record.lastEditedBy == currentUid
    ensures Written(o) && image.Some? ==> o.record.imageURL == env.uploadedUrl
    ensures Written(o) && image.None? ==>
              o.record.imageURL == (if o.kind.Update? && env.existing.Found? then env.existing.doc.imageURL else "")
    ensures Written(o) ==>
              o.record.uid ==
                (if o.kind.Update? && env.existing.Found? && env.existing.doc.uid != ""
                 then Some(env.existing.doc.uid) else currentUid)
  {
    var id := Trim(form.publicationId);
    if id != "" && env.existing == LookupFailed then LookupError
    else
      var found := id != "" && env.existing.Found?;
      var uid := if found && env.existing.doc.uid != "" then Some(env.existing.doc.uid) else currentUid;
      if image.Some? && image.value > IMAGE_LIMIT then TooLarge
      else if image.Some? && env.uploadFails then UploadError
      else if env.cancelledBeforeWrite then Cancelled(image.Some?)
      else
        var imageURL :=
          if image.Some? then env.uploadedUrl
          else if found then OrElse(env.existing.doc.imageURL, "")
          else "";
        var kind := if id != "" then Update(id) else Create;
        var record := PublicationRecord(
          Trim(form.title), Trim(form.author), Trim(form.category), imageURL, Trim(form.summary),
          uid, currentUid, kind.Create?);
        if env.writeFails then SaveFailed(kind, record) else Saved(kind, record, !env.cancelledAfterWrite)
  }

  /** The module-level state of the page and the handlers that change it. */
  class PublicationsPage {
    var fullList: seq<Publication>
    /** The id of the last document of the latest non-empty snapshot (`lastVisible`). */
    var lastVisible: Option<string>
    var currentPage: int
    var totalPages: nat
    /** The items rendered in the container. */
    var shown: seq<Publication>
    /** Whether each rendered item shows its edit and delete buttons. */
    var controlsShown: seq<bool>
    /** The list the current page links re-render when clicked. */
    var pagedList: seq<Publication>
    var buttons: seq<PageButton>
    var prev: NavLink
    var next: NavLink
    /** The "No results found" banner replaced the items. */
    var noResults: bool
    var currentUserRole: string
    var currentUserUid: Option<string>

    /** The page is at least 1 and the page count belongs to the list the links show. */
    ghost predicate Valid()
      reads this
    {
      currentPage >= 1 && totalPages == TotalPages(|pagedList|, PAGE_SIZE)
    }

    /** Each rendered item shows its edit and delete buttons exactly when the role gate allows it. */
    ghost predicate ControlsApplied()
      reads this
    {
      && |controlsShown| == |shown|
      && forall k :: 0 <= k < |shown| ==>
           controlsShown[k] == CanEditOrDelete(currentUserRole, currentUserUid, shown[k].uid)
    }

    /**
      What a render followed by `updatePagination` leaves on the page: the
      current page of `pagedList` with the role gate applied, the button
      window, and the previous and next links around the current page.
     */
    ghost predicate Rendered()
      reads this
    {
      && shown == PageSlice(pagedList, currentPage, PAGE_SIZE)
      && ControlsApplied()
      && IsWindow(buttons, currentPage, totalPages)
      && prev == NavLink(currentPage - 1, currentPage == 1)
      && next == NavLink(currentPage + 1, currentPage == totalPages)
    }

    constructor ()
      ensures Valid()
      ensures fullList == [] && lastVisible == None && currentPage == 1 && totalPages == 0
      ensures shown == [] && controlsShown == [] && pagedList == [] && buttons == [] && !noResults
      ensures currentUserRole == "User" && currentUserUid == None
    {
      fullList, lastVisible, currentPage, totalPages := [], None, 1, 0;
      shown, controlsShown, pagedList, buttons := [], [], [], [];
      prev, next, noResults := NavLink(0, true), NavLink(2, false), false;
      currentUserRole, currentUserUid := "User", None;
    }

    /** `updateEditDeleteVisibilityRoleBased` over the rendered items. */
    method UpdateEditDeleteVisibility()
      modifies this`controlsShown
      ensures ControlsApplied()
    {
      var items := shown;
      controlsShown := ControlFlags(currentUserRole, currentUserUid, seq(|items|, k requires 0 <= k < |items| => items[k].uid));
    }

    /** `renderPublications(list)`: the six-item slice for the current page. */
    method Render(list: seq<Publication>)
      modifies this`shown, this`controlsShown, this`noResults
      ensures shown == PageSlice(list, currentPage, PAGE_SIZE) && !noResults
      ensures ControlsApplied()
    {
      shown := PageSlice(list, currentPage, PAGE_SIZE);
      noResults := false;
      UpdateEditDeleteVisibility();
    }

    /** `updatePagination(list)`: page count, links and numbered buttons. */
    method UpdatePagination(list: seq<Publication>)
      modifies this`totalPages, this`pagedList, this`buttons, this`prev, this`next
      ensures totalPages == TotalPages(|list|, PAGE_SIZE) && pagedList == list
      ensures IsWindow(buttons, currentPage, totalPages)
      ensures prev == NavLink(currentPage - 1, currentPage == 1)
      ensures next == NavLink(currentPage + 1, currentPage == totalPages)
    {
      totalPages := TotalPages(|list|, PAGE_SIZE);
      pagedList := list;
      buttons := PageButtons(currentPage, totalPages);
      prev := NavLink(currentPage - 1, currentPage == 1);
      next := NavLink(currentPage + 1, currentPage == totalPages);
    }

    /** The reset branch of `fetchPublications(true)`, before subscribing. */
    method FetchReset()
      requires Valid()
      modifies this`shown, this`controlsShown, this`fullList, this`lastVisible, this`currentPage
      ensures Valid()
      ensures shown == [] && controlsShown == [] && fullList == [] && lastVisible == None && currentPage == 1
    {
      shown, controlsShown := [], [];
      fullList, lastVisible, currentPage := [], None, 1;
    }

    /** A snapshot of the subscription: it replaces `fullList` wholesale. */
    method OnSnapshot(batch: seq<Publication>)
      requires Valid()
      modifies this
      ensures Valid() && currentPage == old(currentPage)
      ensures fullList == batch
      ensures lastVisible == if batch == [] then old(lastVisible) else Some(batch[|batch| - 1].id)
      ensures pagedList == batch && Rendered() && !noResults
      ensures currentUserRole == old(currentUserRole) && currentUserUid == old(currentUserUid)
    {
      if batch != [] {
        lastVisible := Some(batch[|batch| - 1].id);
      }
      fullList := batch;
      Show(fullList);
    }

    /** `renderPublications(list)` followed by `updatePagination(list)`. */
    method Show(list: seq<Publication>)
      requires currentPage >= 1
      modifies this`shown, this`controlsShown, this`noResults, this`totalPages, this`pagedList,
               this`buttons, this`prev, this`next
      ensures Valid()
      ensures pagedList == list && Rendered() && !noResults
    {
      Render(list);
      UpdatePagination(list);
    }

    /**
      The debounced search callback. It filters `fullList` but leaves
      `currentPage` where it was, so the page shown may lie beyond the
      filtered list; an empty result replaces the items with a banner.
     */
    method SearchInput(input: string)
      requires Valid()
      modifies this`shown, this`controlsShown, this`noResults, this`totalPages, this`pagedList,
               this`buttons, this`prev, this`next
      ensures Valid()
      ensures pagedList == Search(fullList, input)
      ensures noResults <==> pagedList == []
      ensures Rendered() && currentPage == old(currentPage)
    {
      var filtered := Search(fullList, input);
      Show(filtered);
      noResults := filtered == [];
    }

    /** A page-link click: `parsed` is `parseInt(btn.dataset.page)`, `None` for `NaN`. */
    method ClickPage(parsed: Option<int>)
      requires Valid()
      modifies this`currentPage, this`shown, this`controlsShown, this`noResults, this`totalPages,
               this`pagedList, this`buttons, this`prev, this`next
      ensures Valid()
      ensures currentPage == ClickTarget(old(currentPage), parsed, old(totalPages))
      ensures pagedList == old(pagedList) && totalPages == old(totalPages)
      ensures ClickTaken(parsed, old(totalPages)) ==> Rendered() && !noResults
      ensures !ClickTaken(parsed, old(totalPages)) ==> unchanged(this)
    {
      if parsed.Some? && 1 <= parsed.value <= totalPages {
        currentPage := parsed.value;
        Show(pagedList);
      }
    }

    /** The role listener: a new profile snapshot re-applies the role gate. */
    method OnRoleSnapshot(profileRole: Option<string>)
      modifies this`currentUserRole, this`controlsShown
      ensures currentUserRole == if profileRole.Some? then profileRole.value else old(currentUserRole)
      ensures profileRole.Some? ==> ControlsApplied()
      ensures profileRole.None? ==> controlsShown == old(controlsShown)
    {
      if profileRole.Some? {
        currentUserRole := profileRole.value;
        UpdateEditDeleteVisibility();
      }
    }

    /**
      The `onAuthStateChanged` callback of `init`: a signed-in user becomes
      the page's uid and the list is fetched again from the start; with no
      user only a warning is logged.
     */
    method OnAuthState(user: Option<string>)
      requires Valid()
      modifies this
      ensures Valid()
      ensures user.None? ==> unchanged(this)
      ensures user.Some? ==>
                && currentUserUid == user
                && shown == [] && controlsShown == [] && fullList == [] && lastVisible == None && currentPage == 1
                && pagedList == old(pagedList) && totalPages == old(totalPages) && currentUserRole == old(currentUserRole)
                && buttons == old(buttons) && prev == old(prev) && next == old(next) && noResults == old(noResults)
    {
      if user.Some? {
        currentUserUid := user;
        FetchReset();
      }
    }
  }

  /**
    Because the search keeps the page, a page past the filtered list shows
    nothing even though some publications match.
   */
  lemma StalePageAfterSearch(list: seq<Publication>, input: string, page: int)
    requires page > TotalPages(|Search(list, input)|, PAGE_SIZE)
    ensures PageSlice(Search(list, input), page, PAGE_SIZE) == []
  {
    PageEmptyIffBeyond(Search(list, input), page, PAGE_SIZE);
  }
}
