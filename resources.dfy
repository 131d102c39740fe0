/**
  What the two resource editors share: the resource entity, the three-field
  search, removing a deleted id, and the submit handler's save flow, both as
  written and corrected.
 */
module Resources {
  import opened Common
  import opened Text
  import opened Lists
  import opened Uploads

  /** A resource as held in `fullList`: the document id spread with its fields. */
  datatype Resource = Resource(
    id: string, title: string, category: string, author: string,
    uid: string, imageURL: string, fileURL: string)

  predicate Matches(r: Resource, term: string) {
    || Contains(Lower(r.title), term)
    || Contains(Lower(r.category), term)
    || Contains(Lower(r.author), term)
  }

  /**
    The resources search: the input is lower-cased but not trimmed. The
    result is an order-preserving sublist; an empty input keeps everything.
   */
  function Search(list: seq<Resource>, input: string): (r: seq<Resource>)
    ensures IsSubseq(r, list)
    ensures input == "" ==> r == list
  {
    var keep := (x: Resource) => Matches(x, Lower(input));
    KeepIsSubseq(list, keep);
    if input == "" then
      KeepAll(list, keep);
      Keep(list, keep)
    else
      Keep(list, keep)
  }

  /** The search keeps every resource whose title, category or author contains the term, and nothing else. */
  lemma SearchKeepsMatches(list: seq<Resource>, input: string, x: Resource)
    ensures multiset(Search(list, input))[x] == if Matches(x, Lower(input)) then multiset(list)[x] else 0
  {
    KeepCounts(list, (y: Resource) => Matches(y, Lower(input)), x);
  }

  /** `fullList.filter((r) => r.id !== id)` after a delete. */
  function Remove(list: seq<Resource>, id: string): (r: seq<Resource>)
    ensures IsSubseq(r, list)
    ensures forall k :: 0 <= k < |r| ==> r[k].id != id
  {
    KeepIsSubseq(list, (x: Resource) => x.id != id);
    Keep(list, (x: Resource) => x.id != id)
  }

  /** A delete removes every entry with that id and keeps every other entry as often as before. */
  lemma RemoveKeepsOthers(list: seq<Resource>, id: string, x: Resource)
    ensures multiset(Remove(list, id))[x] == if x.id == id then 0 else multiset(list)[x]
  {
    KeepCounts(list, (y: Resource) => y.id != id, x);
  }

  /** The stored fields the submit handler reads; a field absent from the document is "". */
  datatype StoredResource = StoredResource(uid: string, imageURL: string, fileURL: string)

  /** The form as submitted; `id` is the hidden field, empty when creating. */
  datatype ResourceForm = ResourceForm(id: string, title: string, category: string, author: string)

  /** The `uid` and `lastEditedBy` fields, written only by the admin editor. */
  datatype Owner = Owner(uid: Option<string>, lastEditedBy: Option<string>)

  /** The object merged into the resource document. */
  datatype ResourceRecord = ResourceRecord(
    title: string, category: string, author: string, imageURL: string, fileURL: string,
    owner: Option<Owner>, dateCreatedSet: bool)

  /** The remote calls a submit or a delete makes, in order. */
  datatype Effect =
    | UploadImage(url: string)
    | UploadFile(url: string)
    | DeleteObject(url: string)
    | SetDoc(docId: string, record: ResourceRecord)
    | DeleteDoc(docId: string)

  /** The calls a confirmed delete makes: the document, then its stored image and file when set. */
  function DeleteCalls(id: string, stored: StoredResource): (e: seq<Effect>)
    ensures |e| >= 1 && e[0] == DeleteDoc(id)
    ensures DeleteObject(stored.imageURL) in e <==> stored.imageURL != ""
    ensures DeleteObject(stored.fileURL) in e <==> stored.fileURL != ""
    ensures forall k :: 1 <= k < |e| ==> e[k] == DeleteObject(stored.imageURL) || e[k] == DeleteObject(stored.fileURL)
  {
    [DeleteDoc(id)]
      + (if stored.imageURL != "" then [DeleteObject(stored.imageURL)] else [])
      + (if stored.fileURL != "" then [DeleteObject(stored.fileURL)] else [])
  }

  /** The call at position `rejected` of `calls` exists, so awaiting it throws. */
  predicate Rejects(calls: seq<Effect>, rejected: Option<nat>) {
    rejected.Some? && rejected.value < |calls|
  }

  /**
    The calls actually made when `calls` are awaited one after another and
    the one at position `rejected` (if any) rejects: everything up to and
    including the rejected call, nothing after it.
   */
  function CallsMade(calls: seq<Effect>, rejected: Option<nat>): (r: seq<Effect>)
    ensures r <= calls
    ensures !Rejects(calls, rejected) ==> r == calls
    ensures Rejects(calls, rejected) ==> |r| == rejected.value + 1
  {
    if Rejects(calls, rejected) then calls[..rejected.value + 1] else calls
  }

  /**
    What the remote calls of one submit return: the id a new document would
    get, the stored document, the download URLs of the uploads, and whether
    the write throws.
   */
  datatype SaveEnv = SaveEnv(
    freshId: string, existing: Lookup<StoredResource>, imageUrl: string, fileUrl: string, writeFails: bool)

  /** The alert a submit ends with. */
  datatype Toast = Uploaded | Rejected(message: string) | UploadError

  /** One run of the submit handler: the calls made, the alert shown, and `isSaving` afterwards. */
  datatype SaveRun = SaveRun(effects: seq<Effect>, toast: Option<Toast>, savingAfter: bool)

  /** `idField.value || doc(collection(db, "resources")).id`. */
  function DocId(form: ResourceForm, env: SaveEnv): (id: string)
    ensures form.id != "" ==> id == form.id
    ensures form.id == "" ==> id == env.freshId
  {
    OrElse(form.id, env.freshId)
  }

  /** `existingDoc.exists() ? existingDoc.data() : {}`. */
  function OldData(existing: Lookup<StoredResource>): StoredResource {
    if existing.Found? then existing.doc else StoredResource("", "", "")
  }

  /** The owner fields: the stored uid when it is set, else the editor's; the editor as last editor. */
  function OwnerOf(tracksOwner: bool, stored: StoredResource, currentUid: Option<string>): (o: Option<Owner>)
    ensures o.Some? <==> tracksOwner
    ensures o.Some? ==> o.value.lastEditedBy == currentUid
    ensures o.Some? && stored.uid != "" ==> o.value.uid == Some(stored.uid)
    ensures o.Some? && stored.uid == "" ==> o.value.uid == currentUid
  {
    if tracksOwner then Some(Owner(if stored.uid != "" then Some(stored.uid) else currentUid, currentUid)) else None
  }

  function ImageCheck(image: Option<FileInfo>): FileCheck {
    if image.Some? then ValidateFile(image.value, IMAGE_TYPES, IMAGE_MAX_MB, "Image") else Valid
  }

  function DocumentCheck(docFile: Option<FileInfo>): FileCheck {
    if docFile.Some? then ValidateFile(docFile.value, DOCUMENT_TYPES, DOCUMENT_MAX_MB, "Document") else Valid
  }

  /** The record the handler writes once both files are accepted. */
  function NewRecord(
    tracksOwner: bool, form: ResourceForm, image: Option<FileInfo>, docFile: Option<FileInfo>,
    currentUid: Option<string>, env: SaveEnv): (r: ResourceRecord)
    ensures r.title == Trim(form.title) && r.author == Trim(form.author) && r.category == form.category
    ensures r.imageURL == MergeUrl(if image.Some? then Some(env.imageUrl) else None, OldData(env.existing).imageURL)
    ensures r.fileURL == MergeUrl(if docFile.Some? then Some(env.fileUrl) else None, OldData(env.existing).fileURL)
    ensures r.dateCreatedSet <==> !env.existing.Found?
    ensures r.owner == OwnerOf(tracksOwner, OldData(env.existing), currentUid)
  {
    var stored := OldData(env.existing);
    ResourceRecord(
      Trim(form.title), form.category, Trim(form.author),
      MergeUrl(if image.Some? then Some(env.imageUrl) else None, stored.imageURL),
      MergeUrl(if docFile.Some? then Some(env.fileUrl) else None, stored.fileURL),
      OwnerOf(tracksOwner, stored, currentUid), !env.existing.Found?)
  }

  /** Uploading a replacement and, when the stored URL is set and differs, deleting the stored object. */
  function Replace(upload: Effect, newUrl: string, oldUrl: string): (e: seq<Effect>)
    ensures 1 <= |e| <= 2 && e[0] == upload
    ensures |e| == 2 <==> ShouldDeleteOld(oldUrl, newUrl)
    ensures |e| == 2 ==> e[1] == DeleteObject(oldUrl)
  {
    [upload] + (if ShouldDeleteOld(oldUrl, newUrl) then [DeleteObject(oldUrl)] else [])
  }

  function ImageEffects(image: Option<FileInfo>, env: SaveEnv): seq<Effect> {
    if image.Some? then Replace(UploadImage(env.imageUrl), env.imageUrl, OldData(env.existing).imageURL) else []
  }

  function FileEffects(docFile: Option<FileInfo>, env: SaveEnv): seq<Effect> {
    if docFile.Some? then Replace(UploadFile(env.fileUrl), env.fileUrl, OldData(env.existing).fileURL) else []
  }

  predicate Writes(effects: seq<Effect>) {
    exists k :: 0 <= k < |effects| && effects[k].SetDoc?
  }

  predicate Deletes(effects: seq<Effect>, url: string) {
    exists k :: 0 <= k < |effects| && effects[k] == DeleteObject(url)
  }

  /**
    The submit handler of both resource editors as written. The stored
    document is read before the `try`, so a failed read skips the `finally`
    and `isSaving` stays set. The image is uploaded, and the stored image
    deleted, before the document file is checked, so a rejected document
    leaves the stored record pointing at a deleted object.
   */
  function SaveAsWritten(
    tracksOwner: bool, form: ResourceForm, image: Option<FileInfo>, docFile: Option<FileInfo>,
    currentUid: Option<string>, env: SaveEnv): (r: SaveRun)
    ensures r.savingAfter <==> env.existing.LookupFailed?
    ensures env.existing.LookupFailed? ==> r.effects == [] && r.toast.None?
    ensures !env.existing.LookupFailed? && ImageCheck(image).Invalid? ==>
              r == SaveRun([], Some(Rejected(ImageCheck(image).message)), false)
    ensures !env.existing.LookupFailed? && ImageCheck(image).Valid? && DocumentCheck(docFile).Invalid? ==>
              r == SaveRun(ImageEffects(image, env), Some(Rejected(DocumentCheck(docFile).message)), false)
    ensures !env.existing.LookupFailed? && ImageCheck(image).Valid? && DocumentCheck(docFile).Valid? ==>
              && r.effects == ImageEffects(image, env) + FileEffects(docFile, env)
                              + [SetDoc(DocId(form, env), NewRecord(tracksOwner, form, image, docFile, currentUid, env))]
              && r.toast == Some(if env.writeFails then UploadError else Uploaded)
  {
    if env.existing.LookupFailed? then SaveRun([], None, true)
    else if ImageCheck(image).Invalid? then SaveRun([], Some(Rejected(ImageCheck(image).message)), false)
    else
      var imageEffects := ImageEffects(image, env);
      if DocumentCheck(docFile).Invalid? then SaveRun(imageEffects, Some(Rejected(DocumentCheck(docFile).message)), false)
      else
        var record := NewRecord(tracksOwner, form, image, docFile, currentUid, env);
        SaveRun(imageEffects + FileEffects(docFile, env) + [SetDoc(DocId(form, env), record)],
                Some(if env.writeFails then UploadError else Uploaded), false)
  }

  /** Replacing a stored image while attaching a rejected document: the stored image is deleted and nothing is written. */
  lemma AsWrittenDeletesWithoutWriting()
    ensures var env := SaveEnv("fresh", Found(StoredResource("u1", "stored.png", "")), "new.png", "doc.pdf", false);
            var r := SaveAsWritten(true, ResourceForm("r1", "T", "C", "A"),
                                   Some(FileInfo("image/png", 1000)), Some(FileInfo("text/plain", 1000)), Some("u1"), env);
            Deletes(r.effects, "stored.png") && !Writes(r.effects) && OldData(env.existing).imageURL == "stored.png"
  {
    var env := SaveEnv("fresh", Found(StoredResource("u1", "stored.png", "")), "new.png", "doc.pdf", false);
    var image := Some(FileInfo("image/png", 1000));
    var docFile := Some(FileInfo("text/plain", 1000));
    assert ImageCheck(image).Valid?;
    assert DocumentCheck(docFile).Invalid?;
    var r := SaveAsWritten(true, ResourceForm("r1", "T", "C", "A"), image, docFile, Some("u1"), env);
    assert r.effects == [UploadImage("new.png"), DeleteObject("stored.png")];
    assert r.effects[1] == DeleteObject("stored.png");
  }

  /** Deleting the stored object `oldUrl` when the written value `recorded` no longer names it. */
  function DeleteReplaced(oldUrl: string, recorded: string): (e: seq<Effect>)
    ensures e == [] || (e == [DeleteObject(oldUrl)] && oldUrl != "" && oldUrl != recorded)
  {
    if oldUrl != "" && oldUrl != recorded then [DeleteObject(oldUrl)] else []
  }

  /** The uploads of the accepted files, image first. */
  function UploadCalls(image: Option<FileInfo>, docFile: Option<FileInfo>, env: SaveEnv): (e: seq<Effect>)
    ensures forall k :: 0 <= k < |e| ==> e[k].UploadImage? || e[k].UploadFile?
  {
    (if image.Some? then [UploadImage(env.imageUrl)] else []) + (if docFile.Some? then [UploadFile(env.fileUrl)] else [])
  }

  /** After a successful write, the stored objects that the record no longer names. */
  function Cleanup(stored: StoredResource, record: ResourceRecord, writeFails: bool): seq<Effect> {
    if writeFails then []
    else DeleteReplaced(stored.imageURL, record.imageURL) + DeleteReplaced(stored.fileURL, record.fileURL)
  }

  /** `url` is deleted at some point after the record has been written. */
  predicate DeletedAfterWrite(effects: seq<Effect>, url: string) {
    exists k :: 0 <= k < |effects| && effects[k] == DeleteObject(url) && Writes(effects[..k])
  }

  /**
    The submit handler as evidently intended: a failed read of the stored
    document ends in the error alert with `isSaving` cleared, both files are
    checked before anything is uploaded, and a replaced object is deleted
    only after the record that no longer names it has been written.
   */
  function Save(
    tracksOwner: bool, form: ResourceForm, image: Option<FileInfo>, docFile: Option<FileInfo>,
    currentUid: Option<string>, env: SaveEnv): (r: SaveRun)
    ensures !r.savingAfter
    ensures env.existing.LookupFailed? ==> r == SaveRun([], Some(UploadError), false)
    ensures !env.existing.LookupFailed? && ImageCheck(image).Invalid? ==>
              r == SaveRun([], Some(Rejected(ImageCheck(image).message)), false)
    ensures !env.existing.LookupFailed? && ImageCheck(image).Valid? && DocumentCheck(docFile).Invalid? ==>
              r == SaveRun([], Some(Rejected(DocumentCheck(docFile).message)), false)
    ensures !env.existing.LookupFailed? && ImageCheck(image).Valid? && DocumentCheck(docFile).Valid? ==>
              && r.effects == UploadCalls(image, docFile, env)
                              + [SetDoc(DocId(form, env), NewRecord(tracksOwner, form, image, docFile, currentUid, env))]
                              + Cleanup(OldData(env.existing), NewRecord(tracksOwner, form, image, docFile, currentUid, env), env.writeFails)
              && r.toast == Some(if env.writeFails then UploadError else Uploaded)
  {
    if env.existing.LookupFailed? then SaveRun([], Some(UploadError), false)
    else if ImageCheck(image).Invalid? then SaveRun([], Some(Rejected(ImageCheck(image).message)), false)
    else if DocumentCheck(docFile).Invalid? then SaveRun([], Some(Rejected(DocumentCheck(docFile).message)), false)
    else
      var record := NewRecord(tracksOwner, form, image, docFile, currentUid, env);
      SaveRun(UploadCalls(image, docFile, env) + [SetDoc(DocId(form, env), record)]
                + Cleanup(OldData(env.existing), record, env.writeFails),
              Some(if env.writeFails then UploadError else Uploaded), false)
  }

  /** In uploads, then a write, then the clean-up, every delete follows the write and removes a replaced object. */
  lemma CleanupAfterWrite(u: seq<Effect>, w: Effect, stored: StoredResource, record: ResourceRecord, writeFails: bool, url: string)
    requires forall k :: 0 <= k < |u| ==> u[k].UploadImage? || u[k].UploadFile?
    requires w.SetDoc?
    requires Deletes(u + [w] + Cleanup(stored, record, writeFails), url)
    ensures DeletedAfterWrite(u + [w] + Cleanup(stored, record, writeFails), url)
    ensures !writeFails && url != ""
    ensures (url == stored.imageURL && url != record.imageURL) || (url == stored.fileURL && url != record.fileURL)
  {
    var d := Cleanup(stored, record, writeFails);
    var effects := u + [w] + d;
    var k :| 0 <= k < |effects| && effects[k] == DeleteObject(url);
    assert k > |u|;
    assert effects[..k][|u|] == w;
    assert d[k - |u| - 1] == DeleteObject(url);
    var a := DeleteReplaced(stored.imageURL, record.imageURL);
    if k - |u| - 1 < |a| {
      assert a[k - |u| - 1] == DeleteObject(url);
    } else {
      assert DeleteReplaced(stored.fileURL, record.fileURL)[k - |u| - 1 - |a|] == DeleteObject(url);
    }
  }

  /**
    The corrected handler deletes a stored object only after a successful
    write, and only an object whose field the written record now fills with
    another URL; when a file is rejected nothing is deleted.
   */
  lemma SaveDeletesOnlyReplaced(
    tracksOwner: bool, form: ResourceForm, image: Option<FileInfo>, docFile: Option<FileInfo>,
    currentUid: Option<string>, env: SaveEnv, url: string)
    requires Deletes(Save(tracksOwner, form, image, docFile, currentUid, env).effects, url)
    ensures DeletedAfterWrite(Save(tracksOwner, form, image, docFile, currentUid, env).effects, url)
    ensures !env.writeFails && url != ""
    ensures ImageCheck(image).Valid? && DocumentCheck(docFile).Valid?
    ensures var stored := OldData(env.existing);
            var record := NewRecord(tracksOwner, form, image, docFile, currentUid, env);
            (url == stored.imageURL && url != record.imageURL) || (url == stored.fileURL && url != record.fileURL)
  {
    var record := NewRecord(tracksOwner, form, image, docFile, currentUid, env);
    CleanupAfterWrite(UploadCalls(image, docFile, env), SetDoc(DocId(form, env), record),
                      OldData(env.existing), record, env.writeFails, url);
  }

  /** An image or file slot: the calls the written handler makes for it, split into upload and clean-up. */
  lemma SlotEffects(upload: Effect, present: bool, newUrl: string, oldUrl: string, recorded: string)
    requires recorded == MergeUrl(if present then Some(newUrl) else None, oldUrl)
    requires newUrl != ""
    ensures (if present then Replace(upload, newUrl, oldUrl) else [])
            == (if present then [upload] else []) + DeleteReplaced(oldUrl, recorded)
  {
    if !present {
      assert recorded == oldUrl;
    }
  }

  /** Moving the uploads ahead and the write before the clean-up keeps the same calls. */
  lemma Reordered(imgUp: seq<Effect>, imgDel: seq<Effect>, fileUp: seq<Effect>, fileDel: seq<Effect>, w: Effect)
    ensures multiset(imgUp + fileUp + [w] + (imgDel + fileDel)) == multiset(imgUp + imgDel + (fileUp + fileDel) + [w])
  {
  }

  /**
    When the stored document is read, both files are accepted, the write
    succeeds and the uploads return real URLs, the corrected handler makes
    the same calls as the written one and ends with the same alert; only
    their order differs.
   */
  lemma SaveAgreesWhenAccepted(
    tracksOwner: bool, form: ResourceForm, image: Option<FileInfo>, docFile: Option<FileInfo>,
    currentUid: Option<string>, env: SaveEnv)
    requires !env.existing.LookupFailed? && !env.writeFails
    requires ImageCheck(image).Valid? && DocumentCheck(docFile).Valid?
    requires env.imageUrl != "" && env.fileUrl != ""
    ensures var fixed := Save(tracksOwner, form, image, docFile, currentUid, env);
            var written := SaveAsWritten(tracksOwner, form, image, docFile, currentUid, env);
            multiset(fixed.effects) == multiset(written.effects) && fixed.toast == written.toast
            && fixed.savingAfter == written.savingAfter
  {
    var stored := OldData(env.existing);
    var record := NewRecord(tracksOwner, form, image, docFile, currentUid, env);
    var imgUp: seq<Effect> := if image.Some? then [UploadImage(env.imageUrl)] else [];
    var fileUp: seq<Effect> := if docFile.Some? then [UploadFile(env.fileUrl)] else [];
    var imgDel := DeleteReplaced(stored.imageURL, record.imageURL);
    var fileDel := DeleteReplaced(stored.fileURL, record.fileURL);
    var w := SetDoc(DocId(form, env), record);
    SlotEffects(UploadImage(env.imageUrl), image.Some?, env.imageUrl, stored.imageURL, record.imageURL);
    SlotEffects(UploadFile(env.fileUrl), docFile.Some?, env.fileUrl, stored.fileURL, record.fileURL);
    Reordered(imgUp, imgDel, fileUp, fileDel, w);
  }
}
