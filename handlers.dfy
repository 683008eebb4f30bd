/** The user API handlers over the document store: each one checks the query,
    the caller's account id and memberships, then passes a store outcome
    through. The store outcome (a load, list or remove result) is an input,
    so each handler is stated as a decision procedure in its own right; where
    the handler calls the store in a way the store cannot serve, a separate
    member says what the call as written yields. */
module Handlers {
  import opened Common
  import opened Keys
  import opened Store

  /** `req.body` of the create-document POST; an absent text field is "". */
  datatype PostBody = PostBody(document: string, documentid: string, organizationid: string, public: bool)

  /** `req.query.accountid` is present and names the signed-in account. */
  predicate AccountMatches(queryAccountid: string, accountid: string)
  {
    queryAccountid != "" && queryAccountid == accountid
  }

  predicate HasDocument(body: Option<PostBody>)
  {
    body.Some? && body.value.document != ""
  }

  /** `global.maxLength && length > global.maxLength` does not fire (0 is
      unset); `length` counts UTF-16 code units. */
  predicate WithinLength(document: string, maxLength: nat)
  {
    maxLength == 0 || Utf16Length(document) <= maxLength
  }

  /** The create handler's own check of `req.body.documentid`. It follows the
      store's syntax rules, but the extension test reads
      `Document.validExtensions`, which the store module does not export: for
      an alphanumeric two-part id that read of `indexOf` on `undefined` is a
      TypeError. */
  function FilenameCheck(documentid: string): (r: Option<Error>)
    ensures r == Some(InvalidFilename) <==> ValidateCustomKey(documentid) == Some(InvalidFilename)
    ensures r == Some(UndefinedPropertyRead) <==> Count(documentid, '.') == 1 && !HasNonAlnum(NamePart(documentid))
    ensures r == None <==> Count(documentid, '.') == 0 && !HasNonAlnum(NamePart(documentid))
    ensures r.None? ==> ValidateCustomKey(documentid).None?
  {
    SplitPieces(documentid, '.');
    SplitFirstPieces(documentid);
    var parts := Split(documentid, '.');
    if |parts| > 2 then Some(InvalidFilename)
    else if |parts| == 2 then
      if HasNonAlnum(parts[0]) then Some(InvalidFilename) else Some(UndefinedPropertyRead)
    else
      if HasNonAlnum(parts[0]) then Some(InvalidFilename) else None
  }

  predicate FilenamePasses(documentid: string)
  {
    documentid == "" || FilenameCheck(documentid).None?
  }

  predicate OrganizationPasses(organizationid: string, memberships: seq<Membership>)
  {
    organizationid == "" || HasMembership(memberships, organizationid)
  }

  /** The account, document and length guards pass, so the filename guard runs. */
  predicate ReachesFilename(queryAccountid: string, accountid: string, body: Option<PostBody>, maxLength: nat)
  {
    AccountMatches(queryAccountid, accountid) && HasDocument(body) && WithinLength(body.value.document, maxLength)
  }

  /** The guards before the organization guard pass. */
  predicate ReachesOrganization(queryAccountid: string, accountid: string, body: Option<PostBody>, maxLength: nat)
  {
    ReachesFilename(queryAccountid, accountid, body, maxLength) && FilenamePasses(body.value.documentid)
  }

  /** The guards of create-document `post`, in the order they run; the first
      failing one is reported. The duplicate probe that follows the filename
      check calls a `load` the handler never imports, and its `catch` drops
      the resulting error, so it never rejects and is not modelled. */
  method CreateGuards(queryAccountid: string, accountid: string, body: Option<PostBody>,
                      memberships: seq<Membership>, maxLength: nat) returns (failure: Option<Error>)
    ensures queryAccountid == "" ==> failure == Some(InvalidAccountId)
    ensures queryAccountid != "" && queryAccountid != accountid ==> failure == Some(InvalidAccount)
    ensures AccountMatches(queryAccountid, accountid) && !HasDocument(body) ==> failure == Some(InvalidDocument)
    ensures AccountMatches(queryAccountid, accountid) && HasDocument(body) && !WithinLength(body.value.document, maxLength) ==> failure == Some(InvalidDocumentLength)
    ensures ReachesFilename(queryAccountid, accountid, body, maxLength) && !FilenamePasses(body.value.documentid) ==> failure == FilenameCheck(body.value.documentid)
    ensures ReachesOrganization(queryAccountid, accountid, body, maxLength) && !OrganizationPasses(body.value.organizationid, memberships) ==> failure == Some(InvalidOrganization)
    ensures failure.None? <==>
      ReachesOrganization(queryAccountid, accountid, body, maxLength) && OrganizationPasses(body.value.organizationid, memberships)
  {
    if queryAccountid == "" {
      return Some(InvalidAccountId);
    }
    if queryAccountid != accountid {
      return Some(InvalidAccount);
    }
    if body.None? || body.value.document == "" {
      return Some(InvalidDocument);
    }
    var b := body.value;
    if maxLength != 0 && Utf16Length(b.document) > maxLength {
      return Some(InvalidDocumentLength);
    }
    if b.documentid != "" {
      var check := FilenameCheck(b.documentid);
      if check.Some? {
        return check;
      }
    }
    if b.organizationid != "" {
      if |memberships| == 0 {
        return Some(InvalidOrganization);
      }
      var found := SearchMemberships(memberships, b.organizationid);
      if !found {
        return Some(InvalidOrganization);
      }
    }
    return None;
  }

  /** create-document `post` against the store. The handler passes its
      arguments to `Document.create` one by one, so the store's `req` is the
      document text: it has no `body`, no `accountid` and no
      `organizationid`. Whatever the store raises is raised again with the
      same message. */
  method PostCreateDocument(store: DocumentStore, queryAccountid: string, accountid: string, body: Option<PostBody>,
                            memberships: seq<Membership>, organizations: seq<Membership>, now: int)
    returns (r: Result<Metadata>)
    requires store.Valid()
    modifies store`files, store`dirs
    ensures store.Valid()
    ensures store.files == old(store.files) && store.dirs == old(store.dirs)
    ensures queryAccountid == "" ==> r == Err(InvalidAccountId)
    ensures queryAccountid != "" && queryAccountid != accountid ==> r == Err(InvalidAccount)
    ensures AccountMatches(queryAccountid, accountid) && !HasDocument(body) ==> r == Err(InvalidDocument)
    ensures AccountMatches(queryAccountid, accountid) && HasDocument(body) && !WithinLength(body.value.document, store.maxLength) ==> r == Err(InvalidDocumentLength)
    ensures ReachesFilename(queryAccountid, accountid, body, store.maxLength) && !FilenamePasses(body.value.documentid) ==> r == Err(FilenameCheck(body.value.documentid).value)
    ensures ReachesOrganization(queryAccountid, accountid, body, store.maxLength) && !OrganizationPasses(body.value.organizationid, memberships) ==> r == Err(InvalidOrganization)
    ensures ReachesOrganization(queryAccountid, accountid, body, store.maxLength) && OrganizationPasses(body.value.organizationid, memberships) ==> r == Err(InvalidDocument)
    ensures r.Err?
  {
    var failure := CreateGuards(queryAccountid, accountid, body, memberships, store.maxLength);
    if failure.Some? {
      return Err(failure.value);
    }
    var created := store.Create(CreateRequest("", "", None), organizations, now, [], 0);
    match created {
      case Err(e) => return Err(e);
      case Ok(record) => return Ok(record);
    }
  }

  /** `result.document.toString()`: the payload as text. */
  function AsText(p: Payload): (q: Payload)
    ensures q.Text?
    ensures p.Buffer? ==> q.text == p.bytes
    ensures p.Text? ==> q == p
  {
    match p
    case Buffer(bytes) => Text(bytes)
    case Text(_) => p
  }

  /** The record names an organization (`result.organizationid` is truthy). */
  predicate InOrganization(meta: Metadata)
  {
    meta.organizationid.Some? && meta.organizationid.value != ""
  }

  /** document.js `get`: `loaded` is the outcome of `Document.load(documentid)`
      and `caller` is `req.account.accountid`. The owner receives the record
      with its payload turned into text; a member of the record's organization
      receives it as loaded. */
  method GetDocument(documentid: string, loaded: Result<Document>, caller: string, memberships: seq<Membership>)
    returns (r: Result<Document>)
    ensures documentid == "" || loaded.Err? ==> r == Err(InvalidDocumentId)
    ensures documentid != "" && loaded.Ok? ==>
      (r.Ok? <==> loaded.value.meta.accountid == caller
                  || (InOrganization(loaded.value.meta) && HasMembership(memberships, loaded.value.meta.organizationid.value)))
    ensures documentid != "" && loaded.Ok? && r.Err? ==> r.error == InvalidDocument
    ensures documentid != "" && loaded.Ok? && loaded.value.meta.accountid == caller ==>
      r == Ok(Document(loaded.value.meta, AsText(loaded.value.document)))
    ensures r.Ok? && loaded.Ok? && loaded.value.meta.accountid != caller ==> r == loaded
  {
    if documentid == "" {
      return Err(InvalidDocumentId);
    }
    if loaded.Err? {
      return Err(InvalidDocumentId);
    }
    var result := loaded.value;
    if caller != result.meta.accountid {
      if !InOrganization(result.meta) {
        return Err(InvalidDocument);
      }
      if |memberships| == 0 {
        return Err(InvalidDocument);
      }
      var organizationid := result.meta.organizationid.value;
      for i := 0 to |memberships|
        invariant forall j :: 0 <= j < i ==> memberships[j].organizationid != organizationid
      {
        if memberships[i].organizationid == organizationid {
          return Ok(result);
        }
      }
      return Err(InvalidDocument);
    }
    result := result.(document := AsText(result.document));
    return Ok(result);
  }

  /** public-document.js `get`, which needs no signed-in account: only a
      record flagged public is returned, and then exactly as loaded. */
  function GetPublicDocument(documentid: string, loaded: Result<Document>): (r: Result<Document>)
    ensures documentid == "" || loaded.Err? ==> r == Err(InvalidDocumentId)
    ensures r.Ok? <==> documentid != "" && loaded.Ok? && loaded.value.meta.public
    ensures r.Ok? ==> r == loaded
    ensures documentid != "" && loaded.Ok? && !loaded.value.meta.public ==> r == Err(InvalidDocument)
  {
    if documentid == "" then Err(InvalidDocumentId)
    else if loaded.Err? then Err(InvalidDocumentId)
    else if !loaded.value.meta.public then Err(InvalidDocument)
    else loaded
  }

  /** What delete-document answers, and whether it went on to call `remove`. */
  datatype DeleteOutcome = DeleteOutcome(result: Result<bool>, removeCalled: bool)

  /** delete-document.js `delete`: `loaded` is the outcome of
      `Document.load(documentid)`, `removed` that of the `remove` call. */
  function DeleteDocument(documentid: string, loaded: Result<Document>, accountid: string, removed: Result<bool>): (o: DeleteOutcome)
    ensures documentid == "" || loaded.Err? ==> o == DeleteOutcome(Err(InvalidDocumentId), false)
    ensures documentid != "" && loaded.Ok? && loaded.value.meta.accountid != accountid ==>
      o == DeleteOutcome(Err(InvalidDocument), false)
    ensures o.removeCalled <==> documentid != "" && loaded.Ok? && loaded.value.meta.accountid == accountid
    ensures o.removeCalled && removed.Err? ==> o.result == Err(removed.error)
    ensures o.removeCalled && removed.Ok? ==> o.result == Ok(true)
    ensures o.result.Ok? ==> o.result == Ok(true) && o.removeCalled
  {
    if documentid == "" then DeleteOutcome(Err(InvalidDocumentId), false)
    else if loaded.Err? then DeleteOutcome(Err(InvalidDocumentId), false)
    else if loaded.value.meta.accountid != accountid then DeleteOutcome(Err(InvalidDocument), false)
    else match removed
      case Err(e) => DeleteOutcome(Err(e), true)
      case Ok(_) => DeleteOutcome(Ok(true), true)
  }

  /** `Document.remove(documentid)` as delete-document calls it, without the
      request: the store's `load` runs, then `req.accountid` is read from
      `undefined`. */
  function RemoveWithoutRequest(loaded: Result<Document>): (r: Result<bool>)
    ensures r.Err?
    ensures loaded.Err? ==> r == Err(loaded.error)
    ensures loaded.Ok? ==> r == Err(UndefinedPropertyRead)
  {
    if loaded.Err? then Err(loaded.error) else Err(UndefinedPropertyRead)
  }

  /** As wired, an owner's delete reaches `remove` and fails there, so the
      handler never answers `true`. The handler's load and the store's load
      see the same state. */
  lemma DeleteAsWiredFails(documentid: string, loaded: Result<Document>, accountid: string)
    ensures var o := DeleteDocument(documentid, loaded, accountid, RemoveWithoutRequest(loaded));
      && o.result.Err?
      && (o.removeCalled ==> o.result == Err(UndefinedPropertyRead))
  {
  }

  /** The `null` the listing handlers return for an error or an empty list, or the list. */
  function ListingAnswer(listed: Result<Option<seq<Document>>>): (a: Option<seq<Document>>)
    ensures a.Some? <==> listed.Ok? && listed.value.Some? && |listed.value.value| > 0
    ensures a.Some? ==> a == listed.value
  {
    match listed
    case Err(_) => None
    case Ok(None) => None
    case Ok(Some(list)) => if |list| == 0 then None else Some(list)
  }

  /** What organization-documents answers, and whether it asked for the listing. */
  datatype ListingOutcome = ListingOutcome(result: Result<Option<seq<Document>>>, listCalled: bool)

  /** organization-documents.js `get`: `listed` is the outcome of the
      organization listing. Only a member of the organization gets as far as
      the listing. */
  function GetOrganizationDocuments(organizationid: string, memberships: seq<Membership>,
                                    listed: Result<Option<seq<Document>>>): (o: ListingOutcome)
    ensures organizationid == "" ==> o == ListingOutcome(Err(InvalidOrganizationId), false)
    ensures organizationid != "" && |memberships| == 0 ==> o == ListingOutcome(Err(InvalidOrganization), false)
    ensures organizationid != "" && !HasMembership(memberships, organizationid) ==>
      o == ListingOutcome(Err(InvalidOrganization), false)
    ensures o.listCalled <==> organizationid != "" && HasMembership(memberships, organizationid)
    ensures o.listCalled ==> o.result == Ok(ListingAnswer(listed))
  {
    if organizationid == "" then ListingOutcome(Err(InvalidOrganizationId), false)
    else if |memberships| == 0 then ListingOutcome(Err(InvalidOrganization), false)
    else if HasMembership(memberships, organizationid) then ListingOutcome(Ok(ListingAnswer(listed)), true)
    else ListingOutcome(Err(InvalidOrganization), false)
  }

  /** The organization listing as written: the handler calls
      `Document.listOrganization`, which the store does not export, and its
      `catch` drops the TypeError. */
  const ListOrganizationAsWired: Result<Option<seq<Document>>> := Err(NotAFunction)

  /** So a member of an organization always receives `null`. */
  lemma OrganizationDocumentsAsWiredIsNull(organizationid: string, memberships: seq<Membership>)
    ensures var o := GetOrganizationDocuments(organizationid, memberships, ListOrganizationAsWired);
      o.result.Ok? ==> o.result == Ok(None)
  {
  }

  /** documents.js `get`: `listed` is the outcome of `Document.list`. */
  function GetDocuments(queryAccountid: string, accountid: string, listed: Result<Option<seq<Document>>>): (r: Result<Option<seq<Document>>>)
    ensures queryAccountid == "" ==> r == Err(InvalidAccountId)
    ensures queryAccountid != "" && queryAccountid != accountid ==> r == Err(InvalidAccount)
    ensures AccountMatches(queryAccountid, accountid) ==> r == Ok(ListingAnswer(listed))
  {
    if queryAccountid == "" then Err(InvalidAccountId)
    else if queryAccountid != accountid then Err(InvalidAccount)
    else Ok(ListingAnswer(listed))
  }

  /** A folder one level below the base holds no document pointers: the
      store keeps only metadata and payload files there and index roots
      below it, so every entry fails to load. */
  lemma {:induction false} TopLevelEntryFails(files: map<Path, string>, dirs: set<Path>, codec: Codec, name: string, n: string)
    requires forall p :: p in files ==> FileShape(p)
    requires n in Entries(files, dirs, [name])
    ensures LoadEntry(files, dirs, codec, [name], n) == Err(IsADirectory)
  {
    var p := [name] + [n];
    if exists q :: q in files && IsChild([name], q) && q[|[name]|] == n {
      assert false;
    }
    var q :| q in dirs && IsChild([name], q) && q[|[name]|] == n;
    assert q == p;
  }

  /** documents.js `get` against the store. The handler lists the bare
      account id, a folder directly under the base, whereas the account index
      is `account/<accountid>`, so the caller never receives a list. */
  method GetDocumentsFromStore(store: DocumentStore, queryAccountid: string, accountid: string)
    returns (r: Result<Option<seq<Document>>>)
    requires store.Valid()
    ensures r == Err(InvalidAccountId) || r == Err(InvalidAccount) || r == Ok(None)
    ensures queryAccountid == "" ==> r == Err(InvalidAccountId)
    ensures queryAccountid != "" && queryAccountid != accountid ==> r == Err(InvalidAccount)
    ensures AccountMatches(queryAccountid, accountid) ==> r == Ok(None)
  {
    if !AccountMatches(queryAccountid, accountid) {
      return GetDocuments(queryAccountid, accountid, Ok(None));
    }
    var listed := store.List([queryAccountid]);
    if listed.Ok? && listed.value.Some? {
      ghost var names :| && Enumerates(names, Entries(store.files, store.dirs, [queryAccountid]))
                   && |names| == |listed.value.value|
                   && forall i :: 0 <= i < |names| ==> LoadEntry(store.files, store.dirs, store.codec, [queryAccountid], names[i]) == Ok(listed.value.value[i]);
      assert names[0] in Entries(store.files, store.dirs, [queryAccountid]);
      TopLevelEntryFails(store.files, store.dirs, store.codec, queryAccountid, names[0]);
      assert false;
    }
    r := GetDocuments(queryAccountid, accountid, listed);
  }
}
