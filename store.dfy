/** The document store of the application server (application-server/src/document.js).

    The directory tree under the base path is a map from file paths to
    contents plus a set of directories; a path is the sequence of its segments
    below the base path, so the base directory itself is `[]`. The store
    writes, per document with key `k` and `a = md5(k)`:
      [a]                        the metadata record, as JSON
      [a + ".raw"]               the payload
      ["account", id, a]         a copy of the metadata in the owner's index
      ["organization", id, a]    a copy in the organization's index, if any
    MD5 and the JSON encoder and parser are the `Codec` the store is built with. */
module Store {
  import opened Common
  import opened Keys

  type Path = seq<string>

  /** The JSON object `create` writes: `public` is present only as `true`
      (false stands for absent) and `organizationid` only when one was given. */
  datatype Metadata = Metadata(
    accountid: string,
    created: int,
    key: string,
    public: bool,
    organizationid: Option<string>)

  /** `readFile` without an encoding yields a Buffer; the owner's read
      converts it to a string with `toString()`. */
  datatype Payload = Buffer(bytes: string) | Text(text: string)

  /** What `load` returns: the parsed metadata with `document` set to the payload. */
  datatype Document = Document(meta: Metadata, document: Payload)

  /** MD5 as lowercase hex, `JSON.stringify` and `JSON.parse` (None when the
      text does not parse to a metadata object). */
  datatype Codec = Codec(
    md5: string -> string,
    stringify: Metadata -> string,
    parse: string -> Option<Metadata>)

  /** MD5 yields 32 hex digits; parsing what was stringified gives it back;
      a stringified object is never empty; empty text does not parse. */
  ghost predicate CodecValid(codec: Codec)
  {
    && (forall k :: IsDigest(codec.md5(k)))
    && (forall m :: codec.parse(codec.stringify(m)) == Some(m))
    && (forall m :: codec.stringify(m) != "")
    && codec.parse("") == None
  }

  /** The request fields `create` reads. Absent strings are "" (falsy). */
  datatype Body = Body(
    document: string,
    organizationid: string,
    organization: bool,
    customid: string,
    public: bool)

  /** `req.accountid`, `req.organizationid` (read by `checkQuota` only) and `req.body`. */
  datatype CreateRequest = CreateRequest(accountid: string, organizationid: string, body: Option<Body>)

  /** What `checkQuota` returns; `unusedOrganizationQuota` is absent when
      `req.organizationid` is not set. */
  datatype Quota = Quota(unusedPersonalQuota: bool, unusedOrganizationQuota: Option<bool>)

  /** The per-index ceiling. */
  const QuotaLimit: nat := 1000

  predicate IsHexDigit(c: char)
  {
    ('0' <= c <= '9') || ('a' <= c <= 'f')
  }

  predicate IsDigest(s: string)
  {
    |s| == 32 && forall i :: 0 <= i < |s| ==> IsHexDigit(s[i])
  }

  predicate IsRawName(s: string)
  {
    |s| == 36 && IsDigest(s[..32]) && s[32..] == ".raw"
  }

  function MetaPath(a: string): Path { [a] }
  function RawPath(a: string): Path { [a + ".raw"] }
  function AccountDir(id: string): Path { ["account", id] }
  function OrganizationDir(id: string): Path { ["organization", id] }
  function AccountPointer(id: string, a: string): Path { AccountDir(id) + [a] }
  function OrganizationPointer(id: string, a: string): Path { OrganizationDir(id) + [a] }

  function Parent(p: Path): Path
  {
    if p == [] then [] else p[..|p| - 1]
  }

  /** The files the store writes: a metadata file, a payload, or an index pointer. */
  predicate FileShape(p: Path)
  {
    || (|p| == 1 && (IsDigest(p[0]) || IsRawName(p[0])))
    || (|p| == 3 && (p[0] == "account" || p[0] == "organization") && IsDigest(p[2]))
  }

  /** The directories the store creates: the base, the two index roots and one level below them. */
  predicate DirShape(d: Path)
  {
    d == [] || ((|d| == 1 || |d| == 2) && (d[0] == "account" || d[0] == "organization"))
  }

  /** Every file and directory has one of the shapes the store creates,
      files and directories are distinct, the base directory exists and
      every file sits in an existing directory. */
  predicate WellShaped(files: map<Path, string>, dirs: set<Path>)
  {
    && [] in dirs
    && (forall p :: p in files ==> p !in dirs)
    && (forall p :: p in files ==> FileShape(p) && Parent(p) in dirs)
    && (forall d :: d in dirs ==> DirShape(d))
  }

  /** The non-empty prefixes of `p`, which `createFolder` makes sure exist. */
  function Prefixes(p: Path): set<Path>
  {
    set k | 1 <= k <= |p| :: p[..k]
  }

  // ---------------------------------------------------------------------
  // Reading the tree

  /** `load(key)`: read the metadata at `md5(key)` and attach the payload. */
  function Load(files: map<Path, string>, dirs: set<Path>, codec: Codec, key: string): (r: Result<Document>)
    ensures r == Err(InvalidKey) <==> MetaPath(codec.md5(key)) !in files && MetaPath(codec.md5(key)) !in dirs
    ensures r == Err(InvalidDocument) <==>
      && MetaPath(codec.md5(key)) in files && MetaPath(codec.md5(key)) !in dirs
      && (files[MetaPath(codec.md5(key))] == "" || codec.parse(files[MetaPath(codec.md5(key))]).None?)
    ensures r.Ok? ==>
      && MetaPath(codec.md5(key)) in files
      && codec.parse(files[MetaPath(codec.md5(key))]) == Some(r.value.meta)
      && RawPath(codec.md5(key)) in files
      && r.value.document == Buffer(files[RawPath(codec.md5(key))])
    ensures
      && MetaPath(codec.md5(key)) in files && MetaPath(codec.md5(key)) !in dirs
      && files[MetaPath(codec.md5(key))] != "" && codec.parse(files[MetaPath(codec.md5(key))]).Some?
      && RawPath(codec.md5(key)) in files && RawPath(codec.md5(key)) !in dirs
      ==> r == Ok(Document(codec.parse(files[MetaPath(codec.md5(key))]).value, Buffer(files[RawPath(codec.md5(key))])))
  {
    var a := codec.md5(key);
    var filename := MetaPath(a);
    if filename !in files && filename !in dirs then Err(InvalidKey)
    else if filename in dirs then Err(IsADirectory)
    else
      var text := files[filename];
      if text == "" then Err(InvalidDocument)
      else match codec.parse(text)
        case None => Err(InvalidDocument)
        case Some(json) =>
          var raw := RawPath(a);
          if raw in dirs then Err(IsADirectory)
          else if raw !in files then Err(FileNotFound)
          else Ok(Document(json, Buffer(files[raw])))
  }

  predicate IsChild(folder: Path, p: Path)
  {
    |p| == |folder| + 1 && p[..|folder|] == folder
  }

  /** The names `readdir` reports for `folder`: its files and sub-directories. */
  function Entries(files: map<Path, string>, dirs: set<Path>, folder: Path): set<string>
  {
    (set p | p in files && IsChild(folder, p) :: p[|folder|])
      + (set p | p in dirs && IsChild(folder, p) :: p[|folder|])
  }

  /** One step of `list`: read the index file, parse it and load the key it names. */
  function LoadEntry(files: map<Path, string>, dirs: set<Path>, codec: Codec, folder: Path, name: string): (r: Result<Document>)
    ensures r.Ok? ==> folder + [name] in files && codec.parse(files[folder + [name]]).Some?
                      && r == Load(files, dirs, codec, codec.parse(files[folder + [name]]).value.key)
    ensures folder + [name] in files && folder + [name] !in dirs && codec.parse(files[folder + [name]]).Some? ==>
      r == Load(files, dirs, codec, codec.parse(files[folder + [name]]).value.key)
  {
    var p := folder + [name];
    if p in dirs then Err(IsADirectory)
    else if p !in files then Err(FileNotFound)
    else match codec.parse(files[p])
      case None => Err(JsonSyntaxError)
      case Some(metadata) => Load(files, dirs, codec, metadata.key)
  }

  /** `list(folder)` would succeed: the folder is not a plain file and every entry loads. */
  ghost predicate Listable(files: map<Path, string>, dirs: set<Path>, codec: Codec, folder: Path)
  {
    && (folder in files ==> folder in dirs)
    && (folder in dirs ==> forall n :: n in Entries(files, dirs, folder) ==> LoadEntry(files, dirs, codec, folder, n).Ok?)
  }

  /** `e` is an error `list(folder)` can throw: `ENOTDIR` for a plain file,
      or the error of loading some entry of the folder. */
  ghost predicate ListingError(files: map<Path, string>, dirs: set<Path>, codec: Codec, folder: Path, e: Error)
  {
    || (folder !in dirs && folder in files && e == NotADirectory)
    || (folder in dirs && exists n :: n in Entries(files, dirs, folder) && LoadEntry(files, dirs, codec, folder, n) == Err(e))
  }

  /** The length `list(folder)` reports, with null counted as 0. */
  ghost function ListedCount(files: map<Path, string>, dirs: set<Path>, folder: Path): nat
  {
    if folder in dirs then |Entries(files, dirs, folder)| else 0
  }

  /** `names` lists every element of `s` exactly once. */
  ghost predicate Enumerates(names: seq<string>, s: set<string>)
  {
    && (forall i, j :: 0 <= i < j < |names| ==> names[i] != names[j])
    && (forall n :: n in s <==> n in names)
  }

  ghost predicate QuotaListable(files: map<Path, string>, dirs: set<Path>, codec: Codec, accountid: string, organizationid: string)
  {
    && Listable(files, dirs, codec, AccountDir(accountid))
    && (organizationid != "" ==> Listable(files, dirs, codec, OrganizationDir(organizationid)))
  }

  /** `e` is the error `checkQuota` throws: the account listing's error, or,
      when that listing succeeds, the organization listing's error. */
  ghost predicate QuotaListingError(files: map<Path, string>, dirs: set<Path>, codec: Codec, accountid: string, organizationid: string, e: Error)
  {
    if !Listable(files, dirs, codec, AccountDir(accountid)) then ListingError(files, dirs, codec, AccountDir(accountid), e)
    else organizationid != "" && ListingError(files, dirs, codec, OrganizationDir(organizationid), e)
  }

  /** The quota `checkQuota` reports when its listings succeed. */
  ghost function QuotaOf(files: map<Path, string>, dirs: set<Path>, accountid: string, organizationid: string): Quota
  {
    Quota(
      ListedCount(files, dirs, AccountDir(accountid)) < QuotaLimit,
      if organizationid == "" then None
      else Some(ListedCount(files, dirs, OrganizationDir(organizationid)) < QuotaLimit))
  }

  /** The first three checks of `create`, in order: a non-empty document,
      then the organization among the caller's organizations, then the
      length ceiling (`maxLength` 0 means unset), measured in UTF-16 code
      units as `document.length` counts them. */
  function EarlyCheck(req: CreateRequest, organizations: seq<Membership>, maxLength: nat): (r: Option<Error>)
    ensures r == Some(InvalidDocument) <==> req.body.None? || req.body.value.document == ""
    ensures r == Some(InvalidDocumentOwner) <==>
      && req.body.Some? && req.body.value.document != ""
      && req.body.value.organizationid != "" && !HasMembership(organizations, req.body.value.organizationid)
    ensures r == Some(InvalidDocumentLength) <==>
      && req.body.Some? && req.body.value.document != ""
      && (req.body.value.organizationid != "" ==> HasMembership(organizations, req.body.value.organizationid))
      && maxLength != 0 && Utf16Length(req.body.value.document) > maxLength
    ensures r == None || r == Some(InvalidDocument) || r == Some(InvalidDocumentOwner) || r == Some(InvalidDocumentLength)
  {
    if req.body.None? || req.body.value.document == "" then Some(InvalidDocument)
    else if req.body.value.organizationid != "" && !HasMembership(organizations, req.body.value.organizationid) then
      Some(InvalidDocumentOwner)
    else if maxLength != 0 && Utf16Length(req.body.value.document) > maxLength then Some(InvalidDocumentLength)
    else None
  }

  /** The quota branch of `create`. It tests `req.body.organization`, and
      an absent organization flag counts as exhausted. */
  function QuotaError(body: Body, quota: Quota): (r: Option<Error>)
    ensures r == Some(OrganizationQuotaExceeded) <==> body.organization && quota.unusedOrganizationQuota != Some(true)
    ensures r == Some(PersonalQuotaExceeded) <==> !body.organization && !quota.unusedPersonalQuota
    ensures r == None || r == Some(OrganizationQuotaExceeded) || r == Some(PersonalQuotaExceeded)
  {
    if body.organization && quota.unusedOrganizationQuota != Some(true) then Some(OrganizationQuotaExceeded)
    else if !body.organization && !quota.unusedPersonalQuota then Some(PersonalQuotaExceeded)
    else None
  }

  // ---------------------------------------------------------------------
  // Writing the tree

  /** The four writes of a successful `create`, in the source's order. */
  function WriteDocument(files: map<Path, string>, codec: Codec, record: Metadata, document: string): map<Path, string>
  {
    var a := codec.md5(record.key);
    var json := codec.stringify(record);
    var f := files[MetaPath(a) := json][RawPath(a) := document][AccountPointer(record.accountid, a) := json];
    if record.organizationid.Some? then f[OrganizationPointer(record.organizationid.value, a) := json] else f
  }

  /** The folders a successful `create` makes sure exist. */
  function DocumentDirs(record: Metadata): set<Path>
  {
    Prefixes(AccountDir(record.accountid))
      + (if record.organizationid.Some? then Prefixes(OrganizationDir(record.organizationid.value)) else {})
  }

  /** The unlinks of a successful `remove`: the caller's pointer, the
      organization pointer when the record names an organization, and the
      metadata file. The payload is not removed. */
  function Unlinked(files: map<Path, string>, a: string, accountid: string, organizationid: Option<string>): map<Path, string>
  {
    var orgPointers := if organizationid.Some? && organizationid.value != "" then {OrganizationPointer(organizationid.value, a)} else {};
    files - {AccountPointer(accountid, a)} - orgPointers - {MetaPath(a)}
  }

  /** A random draw `Math.random()` mapped to a keyspace position. */
  function DrawIndex(x: real): (i: int)
    requires 0.0 <= x < 1.0
    ensures 0 <= i < |Keyspace|
  {
    (x * 62.0).Floor
  }

  /** The candidate key built from `keyLength` draws. */
  function KeyFromDraws(draws: seq<real>): (text: string)
    requires forall i :: 0 <= i < |draws| ==> 0.0 <= draws[i] < 1.0
    ensures |text| == |draws|
    ensures forall i :: 0 <= i < |text| ==> text[i] in Keyspace
  {
    seq(|draws|, i requires 0 <= i < |draws| => Keyspace[DrawIndex(draws[i])])
  }

  /** The `n`-th candidate key of a search with key length `len`. */
  function Candidate(draws: seq<real>, len: nat, n: nat): string
    requires (n + 1) * len <= |draws|
    requires forall i :: 0 <= i < |draws| ==> 0.0 <= draws[i] < 1.0
  {
    assert n * len + len == (n + 1) * len;
    KeyFromDraws(draws[n * len..(n + 1) * len])
  }

  /** The quota branch and then the custom-key syntax, the checks of
      `create` that follow the length ceiling. */
  function CreateSyntaxCheck(body: Body, quota: Quota): (r: Option<Error>)
    ensures QuotaError(body, quota).Some? ==> r == QuotaError(body, quota)
    ensures QuotaError(body, quota).None? && body.customid == "" ==> r.None?
    ensures QuotaError(body, quota).None? && body.customid != "" ==> r == ValidateCustomKey(body.customid)
  {
    if QuotaError(body, quota).Some? then QuotaError(body, quota)
    else if body.customid != "" then ValidateCustomKey(body.customid)
    else None
  }

  /** The record `create` builds: `public` only when the body's flag is set,
      `organizationid` only when one was given. */
  function NewRecord(accountid: string, created: int, key: string, body: Body): (m: Metadata)
    ensures m.accountid == accountid && m.created == created && m.key == key
    ensures m.public <==> body.public
    ensures m.organizationid.Some? <==> body.organizationid != ""
    ensures m.organizationid.Some? ==> m.organizationid.value == body.organizationid
  {
    Metadata(accountid, created, key, body.public, if body.organizationid != "" then Some(body.organizationid) else None)
  }

  /** A document of one character outside the Basic Multilingual Plane has
      `length` 2, so a ceiling of 1 rejects it. */
  lemma AstralCharCountsTwice()
    ensures EarlyCheck(CreateRequest("a", "", Some(Body("\U{1F600}", "", false, "", false))), [], 1) == Some(InvalidDocumentLength)
  {
    assert IsAstral('\U{1F600}');
    assert Utf16Length("\U{1F600}") == 2 + Utf16Length([]);
  }

  /** Load after create yields the record and the payload just written,
      whatever the tree held before. */
  lemma LoadAfterWrite(files: map<Path, string>, dirs: set<Path>, codec: Codec, record: Metadata, document: string)
    requires CodecValid(codec)
    requires MetaPath(codec.md5(record.key)) !in dirs && RawPath(codec.md5(record.key)) !in dirs
    ensures Load(WriteDocument(files, codec, record, document), dirs, codec, record.key) == Ok(Document(record, Buffer(document)))
  {
    var a := codec.md5(record.key);
    assert MetaPath(a) != RawPath(a) by { assert |a + ".raw"| != |a|; }
  }

  /** After `create` both index directories hold the new document's pointer,
      and listing that pointer loads the document just written. */
  lemma {:induction false} WriteDocumentIndexes(files: map<Path, string>, dirs: set<Path>, codec: Codec, record: Metadata, document: string)
    requires CodecValid(codec)
    requires MetaPath(codec.md5(record.key)) !in dirs && RawPath(codec.md5(record.key)) !in dirs
    requires forall d :: d in dirs ==> |d| <= 2
    ensures var written := WriteDocument(files, codec, record, document);
      var a := codec.md5(record.key);
      && a in Entries(written, dirs, AccountDir(record.accountid))
      && LoadEntry(written, dirs, codec, AccountDir(record.accountid), a) == Ok(Document(record, Buffer(document)))
      && (record.organizationid.Some? ==>
            && a in Entries(written, dirs, OrganizationDir(record.organizationid.value))
            && LoadEntry(written, dirs, codec, OrganizationDir(record.organizationid.value), a) == Ok(Document(record, Buffer(document))))
  {
    var written := WriteDocument(files, codec, record, document);
    var a := codec.md5(record.key);
    LoadAfterWrite(files, dirs, codec, record, document);
    var accountPointer := AccountPointer(record.accountid, a);
    assert accountPointer in written && IsChild(AccountDir(record.accountid), accountPointer);
    assert accountPointer[|AccountDir(record.accountid)|] == a;
    if record.organizationid.Some? {
      var organizationPointer := OrganizationPointer(record.organizationid.value, a);
      assert organizationPointer in written && IsChild(OrganizationDir(record.organizationid.value), organizationPointer);
      assert organizationPointer[|OrganizationDir(record.organizationid.value)|] == a;
    }
  }

  /** After `remove` neither index directory lists the document, although
      its payload stays on disk. */
  lemma {:induction false} UnlinkedUnindexes(files: map<Path, string>, dirs: set<Path>, a: string, accountid: string, organizationid: Option<string>)
    requires forall d :: d in dirs ==> |d| <= 2
    ensures a !in Entries(Unlinked(files, a, accountid, organizationid), dirs, AccountDir(accountid))
    ensures organizationid.Some? && organizationid.value != "" ==>
      a !in Entries(Unlinked(files, a, accountid, organizationid), dirs, OrganizationDir(organizationid.value))
    ensures RawPath(a) in files ==>
      RawPath(a) in Unlinked(files, a, accountid, organizationid) && Unlinked(files, a, accountid, organizationid)[RawPath(a)] == files[RawPath(a)]
  {
    var after := Unlinked(files, a, accountid, organizationid);
    forall p | p in after && IsChild(AccountDir(accountid), p)
      ensures p[2] != a
    {
      assert p != AccountPointer(accountid, a);
    }
    if organizationid.Some? && organizationid.value != "" {
      forall p | p in after && IsChild(OrganizationDir(organizationid.value), p)
        ensures p[2] != a
      {
        assert p != OrganizationPointer(organizationid.value, a);
      }
    }
    if RawPath(a) in files {
      assert |a + ".raw"| != |a|;
    }
  }

  /** The first account's index file for digest `a` is none of the files the
      second account's `create` and `remove` write or unlink. */
  lemma OtherAccountPointer(first: string, second: string, organizationid: Option<string>, a: string)
    requires first != second
    ensures AccountPointer(first, a) != AccountPointer(second, a)
    ensures AccountPointer(first, a) != MetaPath(a) && AccountPointer(first, a) != RawPath(a)
    ensures organizationid.Some? ==> AccountPointer(first, a) != OrganizationPointer(organizationid.value, a)
  {
    assert AccountPointer(first, a)[1] == first && AccountPointer(second, a)[1] == second;
    assert |AccountPointer(first, a)| == 3;
    if organizationid.Some? {
      assert AccountPointer(first, a)[0] != OrganizationPointer(organizationid.value, a)[0] by {
        assert |"account"| != |"organization"|;
      }
    }
  }

  /** The first account's index file survives the second account's
      overwrite and removal of the same key, with the first record in it. */
  lemma PointerSurvives(files: map<Path, string>, codec: Codec,
                        first: Metadata, firstDocument: string, second: Metadata, secondDocument: string)
    requires first.key == second.key && first.accountid != second.accountid
    ensures var a := codec.md5(first.key);
      var pointer := AccountPointer(first.accountid, a);
      var after := Unlinked(WriteDocument(WriteDocument(files, codec, first, firstDocument), codec, second, secondDocument),
                            a, second.accountid, second.organizationid);
      pointer in after && after[pointer] == codec.stringify(first) && MetaPath(a) !in after
  {
    var a := codec.md5(first.key);
    OtherAccountPointer(first.accountid, second.accountid, second.organizationid, a);
  }

  /** A custom key is taken by a second account, which overwrites the first
      account's document and then removes it. The first account's index
      still lists the digest, but its entry now fails with `invalid-key`, so
      that account's index no longer lists, and its quota check, and so every
      `create` by it that passes the first checks, fails, until some account
      creates that key again and the entry loads that account's document. */
  lemma {:induction false} OverwrittenKeyLocksOut(files: map<Path, string>, dirs: set<Path>, codec: Codec,
                                                  first: Metadata, firstDocument: string,
                                                  second: Metadata, secondDocument: string)
    requires CodecValid(codec)
    requires first.key == second.key && first.accountid != second.accountid
    requires AccountDir(first.accountid) in dirs
    requires forall d :: d in dirs ==> DirShape(d)
    ensures var a := codec.md5(first.key);
      var written := WriteDocument(WriteDocument(files, codec, first, firstDocument), codec, second, secondDocument);
      var after := Unlinked(written, a, second.accountid, second.organizationid);
      && a in Entries(after, dirs, AccountDir(first.accountid))
      && LoadEntry(after, dirs, codec, AccountDir(first.accountid), a) == Err(InvalidKey)
      && !Listable(after, dirs, codec, AccountDir(first.accountid))
      && QuotaListingError(after, dirs, codec, first.accountid, "", InvalidKey)
  {
    var a := codec.md5(first.key);
    var after := Unlinked(WriteDocument(WriteDocument(files, codec, first, firstDocument), codec, second, secondDocument),
                          a, second.accountid, second.organizationid);
    var folder := AccountDir(first.accountid);
    var pointer := AccountPointer(first.accountid, a);
    PointerSurvives(files, codec, first, firstDocument, second, secondDocument);
    assert IsChild(folder, pointer) && pointer[|folder|] == a;
    assert folder + [a] == pointer && pointer !in dirs;
    assert MetaPath(a) !in dirs by {
      assert IsDigest(a);
      assert |a| != |"account"| && |a| != |"organization"|;
    }
    assert codec.parse(after[pointer]) == Some(first);
  }

  /** `!list || list.length < 1000` */
  function Unused(listing: Option<seq<Document>>): bool
  {
    listing.None? || |listing.value| < QuotaLimit
  }

  /** Every candidate before the `n`-th that the draws can supply was taken. */
  ghost predicate AllTaken(files: map<Path, string>, dirs: set<Path>, codec: Codec, draws: seq<real>, len: nat, n: nat)
    requires forall i :: 0 <= i < |draws| ==> 0.0 <= draws[i] < 1.0
  {
    forall m :: 0 <= m < n && (m + 1) * len <= |draws| ==> Load(files, dirs, codec, Candidate(draws, len, m)).Ok?
  }

  /** Once the draws cannot supply the `n`-th candidate they supply no later one. */
  lemma AllTakenBeyondDraws(files: map<Path, string>, dirs: set<Path>, codec: Codec, draws: seq<real>, len: nat, n: nat, attempts: nat)
    requires forall i :: 0 <= i < |draws| ==> 0.0 <= draws[i] < 1.0
    requires n <= attempts && (n == attempts || n * len + len > |draws|)
    requires AllTaken(files, dirs, codec, draws, len, n)
    ensures AllTaken(files, dirs, codec, draws, len, attempts)
  {
    forall m | 0 <= m < attempts && (m + 1) * len <= |draws|
      ensures Load(files, dirs, codec, Candidate(draws, len, m)).Ok?
    {
      CandidateBeforeLimit(n, m, len, |draws|, attempts);
    }
  }

  /** A candidate the draws can supply, within the attempts, comes before
      the point where the search stopped. */
  lemma CandidateBeforeLimit(n: nat, m: nat, len: nat, size: nat, attempts: nat)
    requires n <= attempts && (n == attempts || n * len + len > size)
    requires m < attempts && (m + 1) * len <= size
    ensures m < n
  {
    if m >= n {
      MulMonotone(n + 1, m + 1, len);
      assert false;
    }
  }

  lemma MulMonotone(a: nat, b: nat, c: nat)
    ensures a <= b ==> a * c <= b * c
  {
  }

  class DocumentStore {
    var files: map<Path, string>
    var dirs: set<Path>
    const codec: Codec
    /** `global.keyLength`, 10 unless configured. */
    const keyLength: nat
    /** `global.maxLength`, 100000 unless configured; 0 disables the ceiling. */
    const maxLength: nat

    /** The store's invariant: a valid codec over a well-shaped tree. */
    ghost predicate Valid()
      reads this
    {
      CodecValid(codec) && WellShaped(files, dirs)
    }

    /** Loading the module runs `createFolder(basePath)` over whatever the
        data directory already holds (`files`, `dirs`, perhaps written by an
        earlier run): the base folder is created when missing and every
        document already there is kept. */
    constructor (codec: Codec, keyLength: nat, maxLength: nat, files: map<Path, string>, dirs: set<Path>)
      requires CodecValid(codec)
      requires WellShaped(files, dirs + {[]})
      ensures Valid()
      ensures this.files == files && this.dirs == dirs + {[]}
      ensures this.codec == codec && this.keyLength == keyLength && this.maxLength == maxLength
    {
      this.codec := codec;
      this.keyLength := keyLength;
      this.maxLength := maxLength;
      this.files := files;
      this.dirs := dirs + {[]};
    }

    /** `createFolder(path)`: create each missing prefix of `p`, from the top. */
    method CreateFolder(p: Path)
      requires Valid()
      requires forall k :: 1 <= k <= |p| ==> p[..k] !in files && DirShape(p[..k])
      modifies this`dirs
      ensures Valid()
      ensures dirs == old(dirs) + Prefixes(p)
    {
      var i := 0;
      while i < |p|
        invariant 0 <= i <= |p|
        invariant dirs == old(dirs) + (set k | 1 <= k <= i :: p[..k])
        invariant Valid()
      {
        var nestedPath := p[..i + 1];
        if nestedPath !in dirs && nestedPath !in files {
          dirs := dirs + {nestedPath};
        }
        i := i + 1;
        assert (set k | 1 <= k <= i :: p[..k]) == (set k | 1 <= k <= i - 1 :: p[..k]) + {nestedPath};
      }
    }

    /** `fsa.writeFile(p, content)` on a path whose directory exists. */
    method WriteFile(p: Path, content: string)
      requires Valid()
      requires FileShape(p) && Parent(p) in dirs && p !in dirs
      modifies this`files
      ensures Valid()
      ensures files == old(files)[p := content]
    {
      files := files[p := content];
    }

    /** `fsa.unlink(p)` on an existing file. */
    method Unlink(p: Path)
      requires Valid() && p in files
      modifies this`files
      ensures Valid()
      ensures files == old(files) - {p}
    {
      files := files - {p};
    }

    /** `list(folder)`: null for a missing or empty folder, otherwise one
        loaded document per entry. The order `readdir` returns is not
        modelled: entries are taken in an arbitrary order. */
    method List(folder: Path) returns (r: Result<Option<seq<Document>>>)
      ensures folder !in dirs && folder !in files ==> r == Ok(None)
      ensures folder !in dirs && folder in files ==> r == Err(NotADirectory)
      ensures folder in dirs && Entries(files, dirs, folder) == {} ==> r == Ok(None)
      ensures r.Ok? <==> Listable(files, dirs, codec, folder)
      ensures r == Ok(None) ==> folder !in dirs || Entries(files, dirs, folder) == {}
      ensures r.Ok? && r.value.Some? ==>
        && folder in dirs
        && |r.value.value| == |Entries(files, dirs, folder)| > 0
        && exists names ::
             && Enumerates(names, Entries(files, dirs, folder))
             && |names| == |r.value.value|
             && forall i :: 0 <= i < |names| ==> LoadEntry(files, dirs, codec, folder, names[i]) == Ok(r.value.value[i])
      ensures r.Err? && folder in dirs ==>
        exists n :: n in Entries(files, dirs, folder) && LoadEntry(files, dirs, codec, folder, n) == Err(r.error)
    {
      if folder !in dirs {
        if folder in files {
          return Err(NotADirectory);
        }
        return Ok(None);
      }
      var entries := Entries(files, dirs, folder);
      if entries == {} {
        return Ok(None);
      }
      var loaded, names := LoadEntries(folder, entries);
      if loaded.Err? {
        return Err(loaded.error);
      }
      return Ok(Some(loaded.value));
    }

    /** The loop of `list`: load each entry of `folder`, stopping at the first
        failure. `names` is the order the entries were taken in. */
    method LoadEntries(folder: Path, entries: set<string>) returns (r: Result<seq<Document>>, ghost names: seq<string>)
      ensures r.Ok? <==> forall n :: n in entries ==> LoadEntry(files, dirs, codec, folder, n).Ok?
      ensures r.Ok? ==>
        && Enumerates(names, entries)
        && |names| == |r.value| == |entries|
        && forall i :: 0 <= i < |names| ==> LoadEntry(files, dirs, codec, folder, names[i]) == Ok(r.value[i])
      ensures r.Err? ==> exists n :: n in entries && LoadEntry(files, dirs, codec, folder, n) == Err(r.error)
    {
      var remaining := entries;
      var list: seq<Document> := [];
      names := [];
      while remaining != {}
        invariant remaining <= entries
        invariant |names| == |list|
        invariant |list| + |remaining| == |entries|
        invariant forall n :: n in entries <==> n in remaining || n in names
        invariant forall n :: n in names ==> n !in remaining
        invariant forall i, j :: 0 <= i < j < |names| ==> names[i] != names[j]
        invariant forall i :: 0 <= i < |names| ==> LoadEntry(files, dirs, codec, folder, names[i]) == Ok(list[i])
        decreases remaining
      {
        var n :| n in remaining;
        var loaded := LoadEntry(files, dirs, codec, folder, n);
        if loaded.Err? {
          return Err(loaded.error), names;
        }
        list := list + [loaded.value];
        names := names + [n];
        remaining := remaining - {n};
      }
      return Ok(list), names;
    }

    /** `checkQuota(req)`: counts the account index and, only when
        `req.organizationid` is set, the organization index. */
    method CheckQuota(accountid: string, organizationid: string) returns (r: Result<Quota>)
      ensures r.Ok? <==> QuotaListable(files, dirs, codec, accountid, organizationid)
      ensures r.Ok? ==> r.value == QuotaOf(files, dirs, accountid, organizationid)
      ensures r.Err? ==> QuotaListingError(files, dirs, codec, accountid, organizationid, r.error)
    {
      var personal := List(AccountDir(accountid));
      if personal.Err? {
        return Err(personal.error);
      }
      var unusedPersonal := Unused(personal.value);
      assert unusedPersonal == (ListedCount(files, dirs, AccountDir(accountid)) < QuotaLimit);
      if organizationid == "" {
        return Ok(Quota(unusedPersonal, None));
      }
      var organization := List(OrganizationDir(organizationid));
      if organization.Err? {
        return Err(organization.error);
      }
      var unusedOrganization := Unused(organization.value);
      assert unusedOrganization == (ListedCount(files, dirs, OrganizationDir(organizationid)) < QuotaLimit);
      return Ok(Quota(unusedPersonal, Some(unusedOrganization)));
    }

    /** The inner loop of `generateUniqueKey`: `keyLength` characters from
        consecutive draws starting at `offset`. */
    method DrawKey(draws: seq<real>, offset: nat) returns (text: string)
      requires offset + keyLength <= |draws|
      requires forall i :: 0 <= i < |draws| ==> 0.0 <= draws[i] < 1.0
      ensures text == KeyFromDraws(draws[offset..offset + keyLength])
    {
      text := "";
      var i := 0;
      while i < keyLength
        invariant 0 <= i <= keyLength
        invariant |text| == i
        invariant forall j :: 0 <= j < i ==> text[j] == Keyspace[DrawIndex(draws[offset + j])]
      {
        text := text + [Keyspace[DrawIndex(draws[offset + i])]];
        i := i + 1;
      }
    }

    /** `generateUniqueKey`: draw `keyLength` characters per attempt until
        `load` fails for the candidate. The source retries forever; here the
        draws of `Math.random()` are given and at most `attempts` candidates are tried. */
    method GenerateUniqueKey(draws: seq<real>, attempts: nat) returns (r: Option<string>)
      requires forall i :: 0 <= i < |draws| ==> 0.0 <= draws[i] < 1.0
      ensures r.Some? ==>
        && |r.value| == keyLength
        && (forall i :: 0 <= i < |r.value| ==> r.value[i] in Keyspace)
        && Load(files, dirs, codec, r.value).Err?
      ensures r.Some? ==>
        exists n :: 0 <= n < attempts && (n + 1) * keyLength <= |draws| && r.value == Candidate(draws, keyLength, n)
                 && AllTaken(files, dirs, codec, draws, keyLength, n)
      ensures r.None? ==> AllTaken(files, dirs, codec, draws, keyLength, attempts)
    {
      var n := 0;
      var offset := 0;
      while n < attempts && offset + keyLength <= |draws|
        invariant 0 <= n <= attempts
        invariant offset == n * keyLength
        invariant AllTaken(files, dirs, codec, draws, keyLength, n)
      {
        assert (n + 1) * keyLength == offset + keyLength;
        var text := DrawKey(draws, offset);
        assert text == Candidate(draws, keyLength, n);
        if Load(files, dirs, codec, text).Err? {
          return Some(text);
        }
        n := n + 1;
        offset := offset + keyLength;
      }
      AllTakenBeyondDraws(files, dirs, codec, draws, keyLength, n, attempts);
      return None;
    }

    /** The checks `create` makes before it allocates a key, in the source's
        order; the first failure is the one reported. The duplicate probe that
        follows the custom-key syntax check throws inside its own `try`, and
        the empty `catch` discards the error, so an existing key never
        rejects. */
    method CheckCreate(req: CreateRequest, organizations: seq<Membership>) returns (r: Option<Error>)
      ensures EarlyCheck(req, organizations, maxLength).Some? ==> r == EarlyCheck(req, organizations, maxLength)
      ensures EarlyCheck(req, organizations, maxLength).None? ==>
        && (!QuotaListable(files, dirs, codec, req.accountid, req.organizationid) ==>
              r.Some? && QuotaListingError(files, dirs, codec, req.accountid, req.organizationid, r.value))
        && (QuotaListable(files, dirs, codec, req.accountid, req.organizationid) ==>
              r == CreateSyntaxCheck(req.body.value, QuotaOf(files, dirs, req.accountid, req.organizationid)))
    {
      if req.body.None? || req.body.value.document == "" {
        return Some(InvalidDocument);
      }
      var body := req.body.value;
      if body.organizationid != "" {
        var found := SearchMemberships(organizations, body.organizationid);
        if !found {
          return Some(InvalidDocumentOwner);
        }
      }
      if maxLength != 0 && Utf16Length(body.document) > maxLength {
        return Some(InvalidDocumentLength);
      }
      var quota := CheckQuota(req.accountid, req.organizationid);
      if quota.Err? {
        return Some(quota.error);
      }
      r := QuotaError(body, quota.value);
      if r.Some? {
        return;
      }
      if body.customid != "" {
        r := ValidateCustomKey(body.customid);
      }
    }

    /** The writes of a successful `create`: metadata, payload and account
        pointer, then the organization pointer when the record names one,
        each after `createFolder` of its directory. */
    method WriteDocumentFiles(record: Metadata, document: string)
      requires Valid()
      modifies this`files, this`dirs
      ensures Valid()
      ensures files == WriteDocument(old(files), codec, record, document)
      ensures dirs == old(dirs) + DocumentDirs(record)
    {
      var md5Key := codec.md5(record.key);
      var json := codec.stringify(record);
      WritePrimary(md5Key, json, document);
      WritePointer(AccountDir(record.accountid), "account", md5Key, json);
      if record.organizationid.Some? {
        WritePointer(OrganizationDir(record.organizationid.value), "organization", md5Key, json);
      }
    }

    /** `createFolder(basePath)`, then the metadata file and the payload. */
    method WritePrimary(md5Key: string, json: string, document: string)
      requires Valid() && IsDigest(md5Key)
      modifies this`files, this`dirs
      ensures Valid()
      ensures files == old(files)[MetaPath(md5Key) := json][RawPath(md5Key) := document]
      ensures dirs == old(dirs)
    {
      assert Prefixes([]) == {};
      CreateFolder([]);
      WriteFile(MetaPath(md5Key), json);
      var rawName := md5Key + ".raw";
      assert rawName[..32] == md5Key && rawName[32..] == ".raw";
      WriteFile(RawPath(md5Key), document);
    }

    /** `createFolder` of an index directory, then the index file in it. */
    method WritePointer(folder: Path, scope: string, md5Key: string, json: string)
      requires Valid() && IsDigest(md5Key)
      requires scope == "account" || scope == "organization"
      requires |folder| == 2 && folder[0] == scope
      modifies this`files, this`dirs
      ensures Valid()
      ensures files == old(files)[folder + [md5Key] := json]
      ensures dirs == old(dirs) + Prefixes(folder)
    {
      assert folder[..1] == [scope] && folder[..2] == folder;
      CreateFolder(folder);
      assert folder in dirs;
      WriteFile(folder + [md5Key], json);
    }

    /** `create(req)`: admit the request, take the custom key or generate
        one, and write the document. `organizations` is the caller's
        organization list from the dashboard, `now` the clock in seconds. */
    method Create(req: CreateRequest, organizations: seq<Membership>, now: int, draws: seq<real>, attempts: nat)
      returns (r: Result<Metadata>)
      requires Valid()
      requires forall i :: 0 <= i < |draws| ==> 0.0 <= draws[i] < 1.0
      modifies this`files, this`dirs
      ensures Valid()
      ensures r.Err? ==> files == old(files) && dirs == old(dirs)
      ensures EarlyCheck(req, organizations, maxLength).Some? ==> r == Err(EarlyCheck(req, organizations, maxLength).value)
      ensures EarlyCheck(req, organizations, maxLength).None? && !QuotaListable(old(files), old(dirs), codec, req.accountid, req.organizationid) ==>
        r.Err? && QuotaListingError(old(files), old(dirs), codec, req.accountid, req.organizationid, r.error)
      ensures EarlyCheck(req, organizations, maxLength).None? && QuotaListable(old(files), old(dirs), codec, req.accountid, req.organizationid) ==>
        var verdict := CreateSyntaxCheck(req.body.value, QuotaOf(old(files), old(dirs), req.accountid, req.organizationid));
        && (verdict.Some? ==> r == Err(verdict.value))
        && (verdict.None? && req.body.value.customid != "" ==> r == Ok(NewRecord(req.accountid, now, req.body.value.customid, req.body.value)))
        && (verdict.None? && req.body.value.customid == "" ==> r.Ok? || r == Err(KeyAttemptsExhausted))
      ensures r.Ok? ==>
        && req.body.Some?
        && r.value == NewRecord(req.accountid, now, r.value.key, req.body.value)
        && (req.body.value.customid == "" ==>
              |r.value.key| == keyLength && (forall i :: 0 <= i < keyLength ==> r.value.key[i] in Keyspace)
              && Load(old(files), old(dirs), codec, r.value.key).Err?)
        && files == WriteDocument(old(files), codec, r.value, req.body.value.document)
        && dirs == old(dirs) + DocumentDirs(r.value)
        && Load(files, dirs, codec, r.value.key) == Ok(Document(r.value, Buffer(req.body.value.document)))
    {
      var rejected := CheckCreate(req, organizations);
      if rejected.Some? {
        return Err(rejected.value);
      }
      var body := req.body.value;
      var key;
      if body.customid != "" {
        key := body.customid;
      } else {
        var generated := GenerateUniqueKey(draws, attempts);
        if generated.None? {
          return Err(KeyAttemptsExhausted);
        }
        key := generated.value;
      }
      var record := NewRecord(req.accountid, now, key, body);
      WriteDocumentFiles(record, body.document);
      LoadAfterWrite(old(files), dirs, codec, record, body.document);
      r := Ok(record);
    }

    /** `remove(key, req)`: load the document, refuse a caller who does not
        own it, then unlink the caller's pointer and the organization pointer
        where they exist, and the metadata file. The `.raw` payload is left
        behind. */
    method Remove(key: string, accountid: string) returns (r: Result<bool>)
      requires Valid()
      modifies this`files
      ensures Valid()
      ensures var loaded := Load(old(files), dirs, codec, key);
        && (loaded.Err? ==> r == Err(loaded.error) && files == old(files))
        && (loaded.Ok? && loaded.value.meta.accountid != accountid ==> r == Err(InvalidDocument) && files == old(files))
        && (loaded.Ok? && loaded.value.meta.accountid == accountid ==>
              r == Ok(true) && files == Unlinked(old(files), codec.md5(key), accountid, loaded.value.meta.organizationid))
      ensures r.Ok? ==> Load(files, dirs, codec, key) == Err(InvalidKey)
    {
      var loaded := Load(files, dirs, codec, key);
      if loaded.Err? {
        return Err(loaded.error);
      }
      if loaded.value.meta.accountid != accountid {
        return Err(InvalidDocument);
      }
      UnlinkDocument(codec.md5(key), accountid, loaded.value.meta.organizationid);
      return Ok(true);
    }

    /** The three `unlink` calls of `remove`; a pointer that does not exist
        is skipped. */
    method UnlinkDocument(md5Key: string, accountid: string, organizationid: Option<string>)
      requires Valid() && MetaPath(md5Key) in files
      modifies this`files
      ensures Valid()
      ensures files == Unlinked(old(files), md5Key, accountid, organizationid)
    {
      UnlinkIfPresent(AccountPointer(accountid, md5Key));
      if organizationid.Some? && organizationid.value != "" {
        UnlinkIfPresent(OrganizationPointer(organizationid.value, md5Key));
      }
      UnlinkIfPresent(MetaPath(md5Key));
    }

    /** `if (fs.existsSync(p)) await fsa.unlink(p)`. */
    method UnlinkIfPresent(p: Path)
      requires Valid()
      modifies this`files
      ensures Valid()
      ensures files == old(files) - {p}
    {
      if p in files {
        Unlink(p);
      } else {
        assert files - {p} == files;
      }
    }
  }
}
