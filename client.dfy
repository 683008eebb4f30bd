/** The browser-side helpers of the single-page client: escaping text for
    HTML, the rename that follows the language menu, the filename check run
    before a new document is posted, and the line-number gutter markup. */
module Client {
  import opened Common
  import opened Keys

  /** `s.replace(/c/g, rep)`: every `c` replaced by `rep`, left to right. */
  function ReplaceAll(s: string, c: char, rep: string): (r: string)
    ensures c !in s ==> r == s
    ensures c !in rep ==> c !in r
  {
    if s == [] then []
    else (if s[0] == c then rep else [s[0]]) + ReplaceAll(s[1..], c, rep)
  }

  /** A character in neither the input nor the replacement is not in the output. */
  lemma {:induction false} ReplaceAllKeepsAbsent(s: string, c: char, rep: string, d: char)
    requires d !in s && d !in rep
    ensures d !in ReplaceAll(s, c, rep)
    decreases |s|
  {
    if s != [] {
      ReplaceAllKeepsAbsent(s[1..], c, rep, d);
    }
  }

  /** Replacing in a concatenation replaces in each half. */
  lemma {:induction false} ReplaceAllAppend(a: string, b: string, c: char, rep: string)
    ensures ReplaceAll(a + b, c, rep) == ReplaceAll(a, c, rep) + ReplaceAll(b, c, rep)
    decreases |a|
  {
    if a == [] {
      assert a + b == b;
    } else {
      assert (a + b)[0] == a[0];
      assert (a + b)[1..] == a[1..] + b;
      ReplaceAllAppend(a[1..], b, c, rep);
    }
  }

  /** `htmlEscape`: `&` first, then `>`, `<` and `"`. */
  function HtmlEscape(s: string): (r: string)
    ensures '<' !in r && '>' !in r && '"' !in r
    ensures '&' !in s && '<' !in s && '>' !in s && '"' !in s ==> r == s
  {
    var r1 := ReplaceAll(s, '&', "&amp;");
    var r2 := ReplaceAll(r1, '>', "&gt;");
    assert '>' !in "&lt;" && '>' !in "&quot;" && '<' !in "&quot;";
    ReplaceAllKeepsAbsent(r2, '<', "&lt;", '>');
    var r3 := ReplaceAll(r2, '<', "&lt;");
    ReplaceAllKeepsAbsent(r3, '"', "&quot;", '>');
    ReplaceAllKeepsAbsent(r3, '"', "&quot;", '<');
    ReplaceAll(r3, '"', "&quot;")
  }

  /** The entity each character stands for in one left-to-right pass. */
  function EscapeChar(x: char): string
  {
    match x
    case '&' => "&amp;"
    case '>' => "&gt;"
    case '<' => "&lt;"
    case '"' => "&quot;"
    case _ => [x]
  }

  /** Escaping each character on its own, independently of the others. */
  function EscapeEach(s: string): string
  {
    if s == [] then [] else EscapeChar(s[0]) + EscapeEach(s[1..])
  }

  /** A one-character string is replaced as a whole or kept. */
  lemma ReplaceOne(x: char, c: char, rep: string)
    ensures ReplaceAll([x], c, rep) == if x == c then rep else [x]
  {
    assert [x][1..] == [];
  }

  /** Escaping a concatenation escapes each half. */
  lemma HtmlEscapeAppend(a: string, b: string)
    ensures HtmlEscape(a + b) == HtmlEscape(a) + HtmlEscape(b)
  {
    var a1, b1 := ReplaceAll(a, '&', "&amp;"), ReplaceAll(b, '&', "&amp;");
    var a2, b2 := ReplaceAll(a1, '>', "&gt;"), ReplaceAll(b1, '>', "&gt;");
    var a3, b3 := ReplaceAll(a2, '<', "&lt;"), ReplaceAll(b2, '<', "&lt;");
    ReplaceAllAppend(a, b, '&', "&amp;");
    ReplaceAllAppend(a1, b1, '>', "&gt;");
    ReplaceAllAppend(a2, b2, '<', "&lt;");
    ReplaceAllAppend(a3, b3, '"', "&quot;");
  }

  /** `&` becomes `&amp;`, which the later replacements leave alone. */
  lemma EscapeAmpersand()
    ensures HtmlEscape("&") == "&amp;"
  {
    ReplaceOne('&', '&', "&amp;");
    assert '>' !in "&amp;" && '<' !in "&amp;" && '"' !in "&amp;";
  }

  /** Any other character is replaced by at most one of the later steps. */
  lemma EscapeOther(x: char)
    requires x != '&'
    ensures HtmlEscape([x]) == EscapeChar(x)
  {
    ReplaceOne(x, '&', "&amp;");
    var r2 := ReplaceAll([x], '>', "&gt;");
    ReplaceOne(x, '>', "&gt;");
    var r3 := ReplaceAll(r2, '<', "&lt;");
    if x == '>' {
      assert '<' !in r2 && '"' !in r2;
    } else {
      ReplaceOne(x, '<', "&lt;");
      if x == '<' {
        assert '"' !in r3;
      } else {
        ReplaceOne(x, '"', "&quot;");
      }
    }
  }

  /** One character escapes to its entity. */
  lemma HtmlEscapeChar(x: char)
    ensures HtmlEscape([x]) == EscapeChar(x)
  {
    if x == '&' {
      EscapeAmpersand();
    } else {
      EscapeOther(x);
    }
  }

  /** Because `&` is replaced first, the chain of replacements is the same as
      one pass over the input: every input `&` becomes exactly `&amp;`, and
      the `&` of the entities added later is never escaped again. */
  lemma {:induction false} HtmlEscapeIsOnePass(s: string)
    ensures HtmlEscape(s) == EscapeEach(s)
    decreases |s|
  {
    if s != [] {
      assert s == [s[0]] + s[1..];
      HtmlEscapeAppend([s[0]], s[1..]);
      HtmlEscapeChar(s[0]);
      HtmlEscapeIsOnePass(s[1..]);
    }
  }

  /** The new documentid after choosing `extension` from the language menu. */
  function Renamed(documentid: string, extension: string): string
  {
    if extension == "" then documentid else NamePart(documentid) + "." + extension
  }

  /** `language.onchange`: nothing happens for the empty option; otherwise
      whatever follows the first `.` of the documentid is dropped and
      `.` plus the extension appended. This is the handler's statement-by-
      statement form; `Renamed` is the value it computes, which the lemmas
      below are about. */
  method Rename(documentid: string, extension: string) returns (newid: string)
    ensures newid == Renamed(documentid, extension)
  {
    if extension == "" {
      return documentid;
    }
    newid := documentid;
    var oldPeriod := IndexOf(newid, '.');
    if oldPeriod > -1 {
      newid := newid[..oldPeriod];
    }
    newid := newid + "." + extension;
  }

  /** In a name without `.` followed by `.`, the first `.` is that one. */
  lemma IndexOfAfterDotFree(name: string, rest: string)
    requires '.' !in name
    ensures IndexOf(name + "." + rest, '.') == |name|
  {
    var s := name + "." + rest;
    var k := IndexOf(s, '.');
    assert s[|name|] == '.';
  }

  /** Renaming keeps the name part and makes the chosen extension the text
      after the first `.`; so choosing the same extension twice changes
      nothing the second time. */
  lemma RenameProperties(documentid: string, extension: string)
    requires extension != "" && '.' !in extension
    ensures NamePart(Renamed(documentid, extension)) == NamePart(documentid)
    ensures ExtensionPart(Renamed(documentid, extension)) == extension
    ensures Renamed(Renamed(documentid, extension), extension) == Renamed(documentid, extension)
  {
    var name := NamePart(documentid);
    IndexOfAfterDotFree(name, extension);
    var s := name + "." + extension;
    assert s[..|name|] == name;
    assert s[|name| + 1..] == extension;
  }

  const FilenameMessage := "Filenames must be alphanumeric, with optional supported file extensions."
  const ExtensionMessage := "An unsupported extension was provided"
  const NoDocumentMessage := "No document to save"

  /** The search over the language menu's option values. */
  method FindOption(options: seq<string>, extension: string) returns (found: bool)
    ensures found <==> extension in options
  {
    found := false;
    for i := 0 to |options|
      invariant !found
      invariant forall j :: 0 <= j < i ==> options[j] != extension
    {
      found := options[i] == extension;
      if found {
        return;
      }
    }
  }

  /** The documentid the client lets through: none, a plain alphanumeric name,
      or an alphanumeric name with one extension among the menu's values. */
  predicate ClientAccepts(documentid: string, options: seq<string>)
  {
    || documentid == ""
    || (Count(documentid, '.') == 0 && !HasNonAlnum(NamePart(documentid)))
    || (Count(documentid, '.') == 1 && !HasNonAlnum(NamePart(documentid))
        && ToLower(ExtensionPart(documentid)) in options)
  }

  /** The checks `saveNewDocument` makes before building the request:
      `message` is what it shows instead of posting, `None` when it posts. */
  method CheckNewDocument(documentid: string, options: seq<string>, text: string) returns (message: Option<string>)
    ensures documentid != "" && (Count(documentid, '.') > 1 || HasNonAlnum(NamePart(documentid))) ==>
      message == Some(FilenameMessage)
    ensures documentid != "" && Count(documentid, '.') == 1 && !HasNonAlnum(NamePart(documentid)) && ToLower(ExtensionPart(documentid)) !in options ==>
      message == Some(ExtensionMessage)
    ensures ClientAccepts(documentid, options) && text == "" ==> message == Some(NoDocumentMessage)
    ensures message.None? <==> ClientAccepts(documentid, options) && text != ""
  {
    if documentid != "" {
      SplitPieces(documentid, '.');
      SplitFirstPieces(documentid);
      var parts := Split(documentid, '.');
      if |parts| > 2 {
        return Some(FilenameMessage);
      } else if |parts| == 2 {
        if HasNonAlnum(parts[0]) {
          return Some(FilenameMessage);
        }
        var extension := ToLower(parts[|parts| - 1]);
        var found := FindOption(options, extension);
        if !found {
          return Some(ExtensionMessage);
        }
      } else {
        if HasNonAlnum(parts[0]) {
          return Some(FilenameMessage);
        }
      }
    }
    if text == "" {
      return Some(NoDocumentMessage);
    }
    return None;
  }

  /** With the store's extension list as the menu, the client accepts exactly
      the custom keys the store's syntax check accepts. */
  lemma ClientMatchesStore(documentid: string)
    ensures ClientAccepts(documentid, ValidExtensions) <==> documentid == "" || ValidateCustomKey(documentid).None?
  {
  }

  /** `h.join('')`. */
  function Concat(parts: seq<string>): string
  {
    if parts == [] then "" else parts[0] + Concat(parts[1..])
  }

  /** `n` copies of `item`, one after the other. */
  function Repeat(item: string, n: nat): (r: string)
    ensures |r| == n * |item|
  {
    if n == 0 then "" else item + Repeat(item, n - 1)
  }

  lemma {:induction false} ConcatCopies(item: string, n: nat)
    ensures Concat(seq(n, _ => item)) == Repeat(item, n)
  {
    if n > 0 {
      var copies := seq(n, _ => item);
      assert copies[1..] == seq(n - 1, _ => item);
      ConcatCopies(item, n - 1);
    }
  }

  /** The `k`-th copy of `item` sits at offset `k * |item|`. */
  lemma {:induction false} RepeatSlices(item: string, n: nat, k: nat)
    requires k < n
    ensures k * |item| + |item| <= n * |item|
    ensures Repeat(item, n)[k * |item|..k * |item| + |item|] == item
  {
    var rest := Repeat(item, n - 1);
    assert Repeat(item, n) == item + rest;
    if k > 0 {
      RepeatSlices(item, n - 1, k - 1);
      assert k * |item| == (k - 1) * |item| + |item|;
      assert (item + rest)[k * |item|..k * |item| + |item|] == rest[(k - 1) * |item|..(k - 1) * |item| + |item|];
    }
  }

  const LineItem := "<li></li>"

  /** The gutter for `n` lines: `<ol>`, then `n` list items, then `</ol>`. */
  function Gutter(n: nat): string
  {
    "<ol>" + Repeat(LineItem, n) + "</ol>"
  }

  /** The gutter is 9 characters of list markup plus 9 per item, and the
      `k`-th item starts right after the 4 characters of `<ol>` and the `k`
      items before it. */
  lemma GutterItems(n: nat)
    ensures |Gutter(n)| == 9 + 9 * n
    ensures forall k :: 0 <= k < n ==> Gutter(n)[4 + 9 * k..13 + 9 * k] == LineItem
  {
    var body := Repeat(LineItem, n);
    forall k | 0 <= k < n
      ensures Gutter(n)[4 + 9 * k..13 + 9 * k] == LineItem
    {
      RepeatSlices(LineItem, n, k);
      assert Gutter(n)[4 + 9 * k..13 + 9 * k] == body[9 * k..9 * k + 9];
    }
  }

  /** `addLineNumbers(lineCount)`: the gutter markup, one empty list item per
      line inside an ordered list (none for a count below one). */
  method AddLineNumbers(lineCount: int) returns (html: string)
    ensures html == Gutter(if lineCount > 0 then lineCount else 0)
    ensures |html| == 9 + 9 * (if lineCount > 0 then lineCount else 0)
    ensures forall k :: 0 <= k < lineCount ==> html[4 + 9 * k..13 + 9 * k] == LineItem
  {
    var h := ["<ol>"];
    var i := 0;
    while i < lineCount
      invariant 0 <= i && (lineCount > 0 ==> i <= lineCount) && (lineCount <= 0 ==> i == 0)
      invariant h == ["<ol>"] + seq(i, _ => LineItem)
    {
      assert seq(i + 1, _ => LineItem) == seq(i, _ => LineItem) + [LineItem];
      h := h + [LineItem];
      i := i + 1;
    }
    assert h[1..] == seq(i, _ => LineItem);
    ConcatCopies(LineItem, i);
    assert Concat(h) == "<ol>" + Concat(h[1..]);
    html := Concat(h) + "</ol>";
    GutterItems(i);
  }
}
