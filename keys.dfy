/** Document keys: `String.prototype.split('.')`, the custom-key syntax check
    of the store and the alphabet of generated keys. */
module Keys {
  import opened Common

  /** The extensions a custom key may carry (document.js, `validExtensions`). */
  const ValidExtensions: seq<string> := [
    "bash", "coffee", "cpp", "css", "pas",
    "diff", "erl", "go", "hs", "html", "ini",
    "java", "js", "json", "lisp", "lua", "md",
    "m", "php", "pl", "py", "rb", "scala",
    "sm", "sql", "swift", "tex", "txt", "vala",
    "vbs", "xml"
  ]

  /** The 62 characters generated keys are drawn from, in the source's order. */
  const Keyspace: string := "ABCDEFGHIJKLMNOPQRSTUVWXYZabcdefghijklmnopqrstuvwxyz0123456789"

  /** `s.split(d)` for a one-character separator: the pieces between the
      separators, always at least one (the empty string splits into `[""]`). */
  function Split(s: string, d: char): (parts: seq<string>)
    ensures |parts| >= 1
    decreases |s|
  {
    if s == [] then [""]
    else if s[0] == d then [""] + Split(s[1..], d)
    else
      var rest := Split(s[1..], d);
      [[s[0]] + rest[0]] + rest[1..]
  }

  /** `parts.join(d)`, the inverse of `Split`. */
  function Join(parts: seq<string>, d: char): string
    requires |parts| >= 1
    decreases |parts|
  {
    if |parts| == 1 then parts[0] else parts[0] + [d] + Join(parts[1..], d)
  }

  /** The number of occurrences of `c` in `s`. */
  function Count(s: string, c: char): nat
  {
    if s == [] then 0 else (if s[0] == c then 1 else 0) + Count(s[1..], c)
  }

  /** `s.indexOf(c)`: the position of the first `c`, or -1. */
  function IndexOf(s: string, c: char): (k: int)
    ensures -1 <= k < |s|
    ensures k == -1 <==> c !in s
    ensures k >= 0 ==> s[k] == c && c !in s[..k]
  {
    if s == [] then -1
    else if s[0] == c then 0
    else
      var k := IndexOf(s[1..], c);
      if k == -1 then -1
      else
        assert s[..k + 1] == [s[0]] + s[1..][..k];
        k + 1
  }

  /** The text before the first `.` (all of `s` when it has none). */
  function NamePart(s: string): (r: string)
    ensures '.' !in r
  {
    var k := IndexOf(s, '.');
    if k < 0 then s else s[..k]
  }

  /** The text after the first `.` (empty when `s` has none). */
  function ExtensionPart(s: string): string
  {
    var k := IndexOf(s, '.');
    if k < 0 then "" else s[k + 1..]
  }

  /** Prefixing the first piece with a character prefixes the joined string. */
  lemma JoinConsChar(c: char, parts: seq<string>, d: char)
    requires |parts| >= 1
    ensures Join([[c] + parts[0]] + parts[1..], d) == [c] + Join(parts, d)
  {
    var q := [[c] + parts[0]] + parts[1..];
    assert q[1..] == parts[1..];
  }

  lemma {:induction false} JoinSplit(s: string, d: char)
    ensures Join(Split(s, d), d) == s
    decreases |s|
  {
    if s != [] {
      JoinSplit(s[1..], d);
      var rest := Split(s[1..], d);
      if s[0] == d {
        assert Split(s, d)[1..] == rest;
      } else {
        JoinConsChar(s[0], rest, d);
      }
    }
  }

  lemma {:induction false} SplitPieces(s: string, d: char)
    ensures |Split(s, d)| == Count(s, d) + 1
    ensures forall i :: 0 <= i < |Split(s, d)| ==> d !in Split(s, d)[i]
    decreases |s|
  {
    if s != [] {
      SplitPieces(s[1..], d);
      var rest := Split(s[1..], d);
      if s[0] == d {
        assert forall i :: 1 <= i < |Split(s, d)| ==> Split(s, d)[i] == rest[i - 1];
      } else {
        assert forall i :: 1 <= i < |Split(s, d)| ==> Split(s, d)[i] == rest[i];
      }
    }
  }

  /** Splitting pieces that hold no separator recovers the pieces. */
  lemma {:induction false} SplitJoin(parts: seq<string>, d: char)
    requires |parts| >= 1
    requires forall i :: 0 <= i < |parts| ==> d !in parts[i]
    ensures Split(Join(parts, d), d) == parts
    decreases |parts|, |parts[0]|
  {
    if parts[0] == [] {
      if |parts| > 1 {
        SplitJoin(parts[1..], d);
        assert Join(parts, d) == [d] + Join(parts[1..], d);
        assert Join(parts, d)[1..] == Join(parts[1..], d);
      }
    } else {
      var c := parts[0][0];
      var shorter := [parts[0][1..]] + parts[1..];
      assert parts[0] == [c] + parts[0][1..];
      assert shorter[1..] == parts[1..];
      assert [[c] + shorter[0]] + shorter[1..] == parts;
      JoinConsChar(c, shorter, d);
      SplitJoin(shorter, d);
      var s := Join(parts, d);
      assert s[1..] == Join(shorter, d);
    }
  }

  /** Past a leading non-`.` character, the name part grows by that
      character and the extension part is the same. */
  lemma PartsAfterNonDot(s: string)
    requires s != [] && s[0] != '.'
    ensures NamePart(s) == [s[0]] + NamePart(s[1..])
    ensures ExtensionPart(s) == ExtensionPart(s[1..])
  {
    var k := IndexOf(s[1..], '.');
    assert IndexOf(s, '.') == if k < 0 then -1 else k + 1;
    if k >= 0 {
      assert s[..k + 1] == [s[0]] + s[1..][..k];
      assert s[k + 2..] == s[1..][k + 1..];
    }
  }

  /** Past a leading `.`, the name part is empty and the extension part is the rest. */
  lemma PartsAfterDot(s: string)
    requires s != [] && s[0] == '.'
    ensures NamePart(s) == "" && ExtensionPart(s) == s[1..]
  {
    assert IndexOf(s, '.') == 0;
  }

  /** A string that splits into one piece is that piece. */
  lemma OnePiece(e: string)
    requires |Split(e, '.')| == 1
    ensures NamePart(e) == e && Split(e, '.')[0] == e
  {
    JoinSplit(e, '.');
    SplitPieces(e, '.');
    assert '.' !in e;
  }

  /** The first piece of the split is the text before the first separator,
      and the second piece of a two-piece split is the text after it. */
  lemma {:induction false} SplitFirstPieces(s: string)
    ensures Split(s, '.')[0] == NamePart(s)
    ensures |Split(s, '.')| >= 2 ==> Split(s, '.')[1] == NamePart(ExtensionPart(s))
    ensures |Split(s, '.')| == 2 ==> Split(s, '.')[1] == ExtensionPart(s)
    decreases |s|
  {
    if s != [] {
      var rest := Split(s[1..], '.');
      SplitFirstPieces(s[1..]);
      if s[0] != '.' {
        PartsAfterNonDot(s);
        assert Split(s, '.') == [[s[0]] + rest[0]] + rest[1..];
      } else {
        PartsAfterDot(s);
        assert Split(s, '.') == [""] + rest;
        if |rest| == 1 {
          OnePiece(s[1..]);
        }
      }
    }
  }

  /** The store's check of a caller-chosen key (document.js), before the
      duplicate probe: at most two dot-separated parts, an alphanumeric name
      part, and an extension (lower-cased) from `ValidExtensions`. */
  function ValidateCustomKey(id: string): (r: Option<Error>)
    ensures r == Some(InvalidFilename) <==> Count(id, '.') > 1 || HasNonAlnum(NamePart(id))
    ensures r == Some(InvalidFilenameExtension) <==>
      Count(id, '.') == 1 && !HasNonAlnum(NamePart(id)) && ToLower(ExtensionPart(id)) !in ValidExtensions
    ensures r == None || r == Some(InvalidFilename) || r == Some(InvalidFilenameExtension)
  {
    SplitPieces(id, '.');
    SplitFirstPieces(id);
    var parts := Split(id, '.');
    if |parts| > 2 then Some(InvalidFilename)
    else if |parts| == 2 then
      if HasNonAlnum(parts[0]) then Some(InvalidFilename)
      else
        var extension := ToLower(parts[|parts| - 1]);
        if extension !in ValidExtensions then Some(InvalidFilenameExtension) else None
    else
      if HasNonAlnum(parts[0]) then Some(InvalidFilename) else None
  }
}
