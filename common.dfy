/** Values shared by the document store, the request handlers and the client helpers:
    the error kinds the code throws, Option/Result wrappers, memberships and
    the character classes used by the filename checks. */
module Common {

  datatype Option<+T> = None | Some(value: T)

  /** The outcome of an operation that may throw: `Err` carries the error kind. */
  datatype Result<+T> = Ok(value: T) | Err(error: Error)

  /** Every error the modelled code can raise. The first group are the
      messages the code throws itself; the second group are the runtime errors
      Node.js raises from the file system, `JSON.parse` or a property read on
      `undefined` or a call of an undefined member; the last one stands in for the unbounded key search. */
  datatype Error =
    | InvalidKey
    | InvalidDocument
    | InvalidDocumentOwner
    | InvalidDocumentLength
    | OrganizationQuotaExceeded
    | PersonalQuotaExceeded
    | InvalidFilename
    | InvalidFilenameExtension
    | InvalidAccountId
    | InvalidAccount
    | InvalidDocumentId
    | InvalidOrganization
    | InvalidOrganizationId
    | FileNotFound
    | IsADirectory
    | NotADirectory
    | JsonSyntaxError
    | UndefinedPropertyRead
    | NotAFunction
    | KeyAttemptsExhausted

  /** An organization reference as the dashboard returns it: an organization
      the account belongs to (the store's lookup) or one of the account's
      memberships (the handlers' `req.memberships`). Only its id is read. */
  datatype Membership = Membership(organizationid: string)

  /** Some membership names organization `id`. */
  predicate HasMembership(ms: seq<Membership>, id: string)
  {
    exists i :: 0 <= i < |ms| && ms[i].organizationid == id
  }

  /** The search loop the store and the create handler run over a membership
      list: `found` is recomputed for each entry and the loop stops at the
      first match. */
  method SearchMemberships(ms: seq<Membership>, id: string) returns (found: bool)
    ensures found <==> HasMembership(ms, id)
  {
    found := false;
    var i := 0;
    while i < |ms|
      invariant 0 <= i <= |ms|
      invariant !found
      invariant forall j :: 0 <= j < i ==> ms[j].organizationid != id
    {
      found := ms[i].organizationid == id;
      if found {
        return;
      }
      i := i + 1;
    }
  }

  /** The characters of the class `[a-zA-Z0-9]`. */
  predicate IsAlnum(c: char)
  {
    ('a' <= c <= 'z') || ('A' <= c <= 'Z') || ('0' <= c <= '9')
  }

  /** `/[^a-zA-Z0-9]+/.test(s)`: some character of `s` is not alphanumeric.
      The empty string does not match. */
  predicate HasNonAlnum(s: string)
  {
    exists i :: 0 <= i < |s| && !IsAlnum(s[i])
  }

  /** A character outside the Basic Multilingual Plane, which a JavaScript
      string holds as a surrogate pair of two UTF-16 code units. */
  predicate IsAstral(c: char)
  {
    c as int >= 0x1_0000
  }

  /** `s.length` in JavaScript: the number of UTF-16 code units, one per
      character of the Basic Multilingual Plane and two per astral one. */
  function Utf16Length(s: string): (n: nat)
    ensures |s| <= n <= 2 * |s|
    ensures n == |s| <==> forall i :: 0 <= i < |s| ==> !IsAstral(s[i])
    ensures n == 2 * |s| <==> forall i :: 0 <= i < |s| ==> IsAstral(s[i])
  {
    if s == [] then 0 else (if IsAstral(s[0]) then 2 else 1) + Utf16Length(s[1..])
  }

  /** `toLowerCase` on the ASCII letters; every other character is kept. */
  function LowerChar(c: char): (r: char)
    ensures 'A' <= c <= 'Z' ==> 'a' <= r <= 'z'
    ensures !('A' <= c <= 'Z') ==> r == c
  {
    if 'A' <= c <= 'Z' then (c as int + 32) as char else c
  }

  function ToLower(s: string): (r: string)
    ensures |r| == |s|
    ensures forall i :: 0 <= i < |s| ==> r[i] == LowerChar(s[i])
  {
    seq(|s|, i requires 0 <= i < |s| => LowerChar(s[i]))
  }
}
