# Document store of the paste-bin application server

This project models the core of the application server: a store that keeps
text documents in a directory tree, the user API handlers built on that
store, and four string helpers of the browser client. The model is written in
Dafny, and its properties are proved.

The store (`store.dfy`, module `Store`) is a class, `DocumentStore`. Its state is
the tree under the base path:

- `files`: a map from path to contents;
- `dirs`: the set of directories.

A path is a sequence of segments below the base path. For a document with key
`k`, where `a = md5(k)`, the store writes:

- the metadata JSON at `[a]`;
- the payload at `[a + ".raw"]`;
- a copy of the metadata in the owner's index, at `["account", id, a]`;
- a copy in the organization's index, at `["organization", id, a]`, when the
  document belongs to one.

The operations are `create`, `load`, `list`, `remove`, `checkQuota`,
`generateUniqueKey` and `createFolder`. Each one that changes the tree is a
method. Its `ensures` give the whole new tree as a function of the old one
(`WriteDocument`, `Unlinked`, `Prefixes`). Lemmas then relate these functions
to `Load` and to the index entries (`Entries`). The object invariant `Valid()`
lists the shapes of file and directory the store creates. Every method keeps
it.

The custom-key syntax is in `keys.dfy` (module `Keys`). It covers
`String.prototype.split` with its inverse `Join`, and the list of valid
extensions. `common.dfy` (module `Common`) holds the error kinds, the
`Option`/`Result` wrappers and the membership search.

Each user handler (`handlers.dfy`, module `Handlers`) is a decision procedure.
It takes:

- the query;
- the caller's account id and memberships;
- the outcome of the store call it makes, given as an input.

Several handlers call the store in a way the store cannot serve. For those, a
separate member states what the call as written yields. These members are:

- **`PostCreateDocument`.** It passes its arguments to `Document.create` one by
  one, but the store reads `req.body`. So an admitted request always ends in
  `invalid-document`, and the tree does not change.
- **`FilenameCheck`.** It reads `Document.validExtensions`, which the store
  module does not export. So an alphanumeric documentid with one extension
  raises a TypeError.
- **`DeleteAsWiredFails`.** The handler calls `remove` without the request. So
  an owner's delete always fails with a TypeError.
- **`OrganizationDocumentsAsWiredIsNull`.** The handler calls
  `Document.listOrganization`, which is never exported. So a member always
  receives `null`.
- **`GetDocumentsFromStore`.** The handler lists the bare account id, a folder
  directly under the base. That folder holds no pointers, so the caller never
  receives a list.

The client helpers of `public/app.js` are in `client.dfy` (module `Client`):
`htmlEscape`, the rename done by the language menu, the filename check of
`saveNewDocument`, and `addLineNumbers`.

In several places the code does something other than what it evidently sets
out to do. The model follows the code as written:

- `create` throws `duplicate-document-id` when a custom key already loads
  (document.js lines 148-154). But it throws inside its own `try`, whose empty
  `catch` swallows the error, so an existing document is silently overwritten.
- `remove` unlinks the metadata file and the index files, but never the
  `.raw` payload that `create` wrote beside them.
- The quota branch of `create` tests `req.body.organization`. `checkQuota`
  lists `req.organizationid`. The ownership check reads
  `req.body.organizationid`. All three are separate inputs.
- An absent `unusedOrganizationQuota` counts as exhausted.
- The first point can lock an account out. A second account can overwrite a custom key the first account used, then remove it. The first account's index still lists the key, which no longer loads. `remove` unlinks only the remover's own index file, so the first account's quota check fails with `invalid-key`. This lasts until some account creates that key again; the entry then loads that account's document.

## Model

| member | source | states |
|---|---|---|
| Common.SearchMemberships | application-server/src/www/api/user/create-document.js:46-53 | the loop that recomputes `found` over the membership list ends with `found` exactly when some membership has the organization id |
| Common.Utf16Length | application-server/src/document.js:122 | JavaScript's `length` counts UTF-16 code units: never fewer than the characters and never more than twice as many; equal to the character count exactly when no character lies outside the Basic Multilingual Plane, and twice it exactly when every one does |
| Keys.JoinSplit | application-server/src/document.js:132 | joining the pieces of `split('.')` with `.` gives back the key |
| Keys.SplitPieces | application-server/src/document.js:132-133 | `split` yields one more piece than there are separators, and no piece contains the separator |
| Keys.SplitJoin | application-server/src/document.js:132 | splitting a join of separator-free pieces gives back the pieces |
| Keys.SplitFirstPieces | application-server/src/document.js:135-139 | the first piece is the text before the first `.`; in a two-piece split the last piece is the text after it |
| Keys.IndexOf | application-server/src/www/public/app.js:62 | `indexOf` is -1 exactly when the character is absent, and otherwise the position of its first occurrence |
| Keys.ValidateCustomKey | application-server/src/document.js:131-147 | `invalid-filename` exactly when the key has more than one `.` or a non-alphanumeric name part; `invalid-filename-extension` exactly when it has one `.`, an alphanumeric name and a lower-cased extension outside the list at lines 6-13; no other error |
| Store.Load | application-server/src/document.js:32-52 | `invalid-key` exactly when the metadata file is missing; `invalid-document` exactly when it is empty or does not parse; on success the parsed record and the `.raw` contents, both read from the tree |
| Store.LoadEntry | application-server/src/document.js:63-67 | an index entry loads only when its index file parses, and then it is `load` of the key recorded in that file |
| Store.EarlyCheck | application-server/src/document.js:104-124 | the first three checks of `create`, in order: `invalid-document` exactly for a missing or empty document, then `invalid-document-owner` exactly for an organization the caller does not belong to, then `invalid-document-length` exactly when the document's `length`, in UTF-16 code units, is above a set `maxLength` |
| Store.QuotaError | application-server/src/document.js:126-130 | `organization-quota-exceeded` exactly when `body.organization` is set and the organization quota is not known to be unused; `personal-quota-exceeded` exactly when the flag is unset and the personal quota is used up |
| Store.CreateSyntaxCheck | application-server/src/document.js:126-147 | a quota failure wins; otherwise the custom-key verdict when a custom key is given, and no error without one |
| Store.NewRecord | application-server/src/document.js:157-167 | the record has the caller's account id, the creation time and the key; `public` exactly when the body's flag is set; `organizationid` exactly when one was given, and then that id |
| Store.AstralCharCountsTwice | application-server/src/document.js:122-124 | a document of one character outside the Basic Multilingual Plane has `length` 2, so a ceiling of 1 rejects it with `invalid-document-length` |
| Store.LoadAfterWrite | application-server/src/document.js:168-171 | loading a key after the writes of `create` yields the record and payload just written, whatever the tree held before |
| Store.WriteDocumentIndexes | application-server/src/document.js:172-177 | after the writes of `create`, the account index lists the document, and the organization index lists it when one was given; each entry loads the written document |
| Store.UnlinkedUnindexes | application-server/src/document.js:76-85 | after the unlinks of `remove`, neither index lists the document, and the `.raw` payload is still there with the same contents |
| Store.OverwrittenKeyLocksOut | application-server/src/document.js:63-67 | when a second account creates a custom key the first account already used and then removes it, the first account's index still lists the digest, that entry fails with `invalid-key`, and so the account's listing, its quota check and every `create` by it that passes the first checks fail, until the key is created again |
| Store.DrawIndex | application-server/src/document.js:186 | `Math.floor(random * 62)` is an index into the keyspace |
| Store.KeyFromDraws | application-server/src/document.js:184-188 | a key built from `n` draws has `n` characters, all from the 62-character keyspace |
| Store.DocumentStore.constructor | application-server/src/document.js:22-23 | the store starts over the tree already in the data directory: every file and directory there is kept, the base directory is added when missing, and the store invariant holds |
| Store.DocumentStore.CreateFolder | application-server/src/document.js:197-209 | afterwards every prefix of the path is a directory and nothing else changed; existing directories are kept, so repeating the call changes nothing |
| Store.DocumentStore.List | application-server/src/document.js:54-69 | a missing folder gives `null`, a plain file `ENOTDIR`, an empty folder `null`; success exactly when every entry loads; a non-null result has one loaded document per entry, in some order of the entries; a failure is the error of some entry |
| Store.DocumentStore.LoadEntries | application-server/src/document.js:63-67 | the loop over the entries succeeds exactly when every entry loads; then it yields one loaded document per entry, each entry taken once; a failure is the error of some entry |
| Store.DocumentStore.CheckQuota | application-server/src/document.js:89-101 | it succeeds exactly when the indexes it lists load; personal quota is unused exactly when the account index is absent, empty or has fewer than 1000 entries; the organization flag is present only when `req.organizationid` is set, and it is computed the same way; a failure is the account listing's error (`ENOTDIR` or the error of one of its entries) or, when that listing succeeds, the organization listing's |
| Store.DocumentStore.DrawKey | application-server/src/document.js:184-188 | the characters drawn for one candidate are the keyspace characters at the indexes of `keyLength` consecutive draws |
| Store.DocumentStore.GenerateUniqueKey | application-server/src/document.js:181-195 | a returned key has exactly `keyLength` keyspace characters, and `load` fails for it; it is the first candidate for which `load` fails; when it gives up, every candidate tried loads |
| Store.DocumentStore.CheckCreate | application-server/src/document.js:104-155 | the checks of `create` in order, the first failure winning: a document, then ownership, then length, then quota, then custom-key syntax; a failed quota listing is reported with that listing's own error; the tree is only read |
| Store.DocumentStore.WritePrimary | application-server/src/document.js:169-171 | the metadata file and then the payload are written, and the directories are unchanged |
| Store.DocumentStore.WritePointer | application-server/src/document.js:172-176 | the folders of an index are created, then the index file for the document is written into it |
| Store.DocumentStore.WriteDocumentFiles | application-server/src/document.js:168-177 | the new tree is exactly the old one plus the four writes (three without an organization), and the new directories are exactly the index folders |
| Store.DocumentStore.Create | application-server/src/document.js:103-179 | a rejected request leaves the tree unchanged; the first failing check is the one reported, and a failed quota listing with that listing's own error; a custom key is used as given, even when a document with that key exists; otherwise a fresh generated key is used; on success the returned record is the one built from the request, the tree changes by exactly the writes of `create`, and `load` of the key yields the record and the payload |
| Store.DocumentStore.Remove | application-server/src/document.js:71-87 | a failed load is reported as is; a caller who is not the owner gets `invalid-document` and the tree is unchanged; for the owner the index files and the metadata file are unlinked and nothing else, after which `load` of the key gives `invalid-key` |
| Store.DocumentStore.UnlinkDocument | application-server/src/document.js:77-85 | the account pointer, the organization pointer when the record names an organization, and the metadata file are removed, each only if present; nothing else changes |
| Handlers.FilenameCheck | application-server/src/www/api/user/create-document.js:17-33 | `invalid-filename` exactly when the store's check says so; a TypeError exactly for an alphanumeric name with one extension; it passes only for a plain alphanumeric name, which the store also accepts |
| Handlers.CreateGuards | application-server/src/www/api/user/create-document.js:5-56 | the guards in order, the first failure winning: a missing query account id, then a different account, then a missing document, then the length ceiling on the UTF-16 `length` (a document of exactly `maxLength` code units passes), then the filename, then an organization with no matching membership; no error exactly when every guard passes |
| Handlers.PostCreateDocument | application-server/src/www/api/user/create-document.js:57-69 | the guards' failure is reported; an admitted request reaches the store with a request that has no body, so the answer is always `invalid-document`, raised again with the store's message, and the tree is unchanged |
| Handlers.AsText | application-server/src/www/api/user/document.js:30 | `toString` of the payload is text with the same contents |
| Handlers.GetDocument | application-server/src/www/api/user/document.js:4-32 | a missing id or a failed load gives `invalid-documentid`; a record is returned exactly when the caller owns it or is a member of its organization; every other case gives `invalid-document`; the owner gets the payload as text, and a member gets the record as loaded |
| Handlers.GetPublicDocument | application-server/src/www/api/user/public-document.js:5-21 | a missing id or a failed load gives `invalid-documentid`; a record is returned exactly when it is flagged public, and then unchanged; a record that is not public gives `invalid-document`; no account data is an input |
| Handlers.DeleteDocument | application-server/src/www/api/user/delete-document.js:4-26 | a missing id or a failed load gives `invalid-documentid`, and an owner mismatch gives `invalid-document`: in these cases `remove` is not called; `remove` is called exactly for the owner; its error is re-raised as is, and otherwise the answer is `true` |
| Handlers.RemoveWithoutRequest | application-server/src/www/api/user/delete-document.js:21 | `remove` called without a request always fails: with the load error, or with the TypeError of reading `req.accountid` |
| Handlers.DeleteAsWiredFails | application-server/src/www/api/user/delete-document.js:19-25 | with `remove` as the handler calls it, an owner's delete never answers `true` |
| Handlers.ListingAnswer | application-server/src/www/api/user/documents.js:16-19 | the listing handlers return the list exactly when the listing succeeded with a non-empty list, and otherwise `null` |
| Handlers.GetOrganizationDocuments | application-server/src/www/api/user/organization-documents.js:4-25 | a missing id gives `invalid-organizationid`; no memberships, or no matching membership, give `invalid-organization`, and then no listing is made; the listing is made exactly for a member, and its answer is returned |
| Handlers.OrganizationDocumentsAsWiredIsNull | application-server/src/www/api/user/organization-documents.js:13-20 | with `listOrganization` missing from the store's exports, every successful answer is `null` |
| Handlers.GetDocuments | application-server/src/www/api/user/documents.js:4-20 | a missing query account id gives `invalid-accountid`; a different account gives `invalid-account`; for the caller's own account the listing's answer is returned |
| Handlers.TopLevelEntryFails | application-server/src/www/api/user/documents.js:13 | in a tree of the store's shapes, every entry of a folder directly under the base is a directory, so it fails to load |
| Handlers.GetDocumentsFromStore | application-server/src/www/api/user/documents.js:11-19 | listing the bare account id never yields a list: the answer is one of the two account errors or `null` |
| Client.ReplaceAll | application-server/src/www/public/app.js:303 | a string without the character is unchanged, and a replacement without the character leaves none in the output |
| Client.HtmlEscape | application-server/src/www/public/app.js:302-304 | the output has no `<`, `>` or `"`; a string with none of `&<>"` is unchanged |
| Client.HtmlEscapeIsOnePass | application-server/src/www/public/app.js:303 | the chain of replacements equals escaping each character on its own, so each input `&` becomes exactly `&amp;` and the entities added later are not escaped again |
| Client.Rename | application-server/src/www/public/app.js:56-67 | an empty menu value leaves the documentid unchanged; otherwise the result is the text before the first `.`, then `.`, then the extension |
| Client.RenameProperties | application-server/src/www/public/app.js:61-67 | after renaming with a dot-free extension, the name part is kept and the extension part is that extension; renaming twice with it gives the same result as once |
| Client.FindOption | application-server/src/www/public/app.js:146-152 | the loop over the menu's option values finds the extension exactly when it is one of them |
| Client.CheckNewDocument | application-server/src/www/public/app.js:135-164 | a documentid with more than two parts or a non-alphanumeric name is refused with the filename message; one with an extension the menu lacks is refused with the extension message; an empty text is refused next; the request is built exactly when the documentid is accepted and the text is non-empty |
| Client.ClientMatchesStore | application-server/src/www/public/app.js:138-158 | with the store's extension list as the menu, the client accepts a documentid exactly when the store's custom-key check does |
| Client.GutterItems | application-server/src/www/public/app.js:310-316 | the markup for `n` lines has 9 + 9n characters, and its `k`-th list item starts at offset `4 + 9k` |
| Client.AddLineNumbers | application-server/src/www/public/app.js:310-316 | the markup is `<ol>`, then one `<li></li>` per line (none for a count below one), then `</ol>`; the `k`-th item sits at offset `4 + 9k` |

## Left out

- MD5 (RFC 1321), `JSON.stringify` and `JSON.parse` are the abstract `Codec` the store is built with. The model relies only on these facts:
  - MD5 yields 32 lowercase hex digits;
  - a stringified record parses back to itself;
  - a stringified record is never empty;
  - empty text does not parse.
  MD5 is not assumed injective, so two keys may share a document.
- The store starts over a data directory that holds only what the store itself writes: digest-named metadata files, `.raw` payloads, and `account/<id>/<digest>` and `organization/<id>/<digest>` index files in their folders. Any other content of the data directory is not modelled.
- `JSON.parse` of text that is valid JSON but not a metadata object is not modelled. Such text counts as unparseable.
- Each `Error` value stands for the message the code throws. The handlers re-raise a store error with `throw new Error(error.message)`, which keeps the message, so the model passes the same value on. The message texts themselves are not modelled.
- The clock is the parameter `now`, in seconds. The organizations lookup of the dashboard server is the input list `organizations`.
- Store.DocumentStore.GenerateUniqueKey: the source retries forever. The model takes the `Math.random()` values as a finite sequence of draws, tries at most `attempts` candidates, and otherwise reports `KeyAttemptsExhausted`, an error the source does not have.
- Store.DocumentStore.Create: it inherits that bound. When key generation gives up, it reports `KeyAttemptsExhausted` where the source would keep drawing.
- Store.DocumentStore.List: the entries are taken in some order. The `readdir` order is not modelled.
- The model does not scan a key or id containing `/` again for path separators: it is one path segment. Paths above the base path are not modelled.
- `load` calls `createFolder` on the base path. The model leaves this out, because the base directory always exists.
- `toLowerCase` is modelled on ASCII letters only. No valid extension contains a letter whose lower-casing outside ASCII would matter.
- Handlers.GetDocument: the `result.document` field is not updated in place. The owner receives a copy of the record with the text payload.
- In the handlers, an absent `req.memberships` is the empty list, and an absent `req.body` is `None`.
- The handler's duplicate check at create-document.js lines 34-40 is left out. It calls a `load` the module never imports, and its empty `catch` swallows the error, so it has no effect.
- Concurrency: the awaits are sequential, and each operation is one atomic step. Crash recovery is not modelled.
- `server.js` (HTTP, body parsing, static files, token checks), `dashboard-server.js` and `bcrypt.js` are not part of this model. Neither are the administrator handlers, the dashboard-server proxies and the test files.
- From `app.js`, only the four helpers above are modelled. The DOM updates, requests and syntax highlighting are left out. The helpers return the text that the source assigns to the page.
- The configuration values `keyLength` (10 unless configured) and `maxLength` (100000 unless configured) are constructor parameters. A `maxLength` of 0 means no ceiling.
