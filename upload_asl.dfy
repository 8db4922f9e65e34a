/** The local logic of uploading a compiled collection: cleaning up a
    path typed or dropped into the terminal, the answers the prompts
    accept, and the names of the compressed file and of the storage keys. */
module UploadAsl {

  /** The characters `String.prototype.trim` removes: the white space and
      line terminators of ECMAScript. */
  predicate IsJsWhitespace(c: char)
  {
    c == '\U{9}' || c == '\U{B}' || c == '\U{C}' || c == ' ' || c == '\U{A0}' || c == '\U{FEFF}' ||
    c == '\U{A}' || c == '\U{D}' || c == '\U{2028}' || c == '\U{2029}' ||
    c == '\U{1680}' || ('\U{2000}' <= c <= '\U{200A}') || c == '\U{202F}' || c == '\U{205F}' || c == '\U{3000}'
  }

  /** `s.trimStart()`: the longest suffix of `s` after a run of white space. */
  function TrimStart(s: string): (r: string)
    ensures |r| <= |s|
    ensures r == [] || !IsJsWhitespace(r[0])
    ensures r == s[|s| - |r|..]
    ensures forall i :: 0 <= i < |s| - |r| ==> IsJsWhitespace(s[i])
  {
    if s != [] && IsJsWhitespace(s[0]) then TrimStart(s[1..]) else s
  }

  /** `s.trimEnd()`: the longest prefix of `s` before a run of white space. */
  function TrimEnd(s: string): (r: string)
    ensures |r| <= |s|
    ensures r == [] || !IsJsWhitespace(r[|r| - 1])
    ensures r == s[..|r|]
    ensures forall i :: |r| <= i < |s| ==> IsJsWhitespace(s[i])
  {
    if s != [] && IsJsWhitespace(s[|s| - 1]) then TrimEnd(s[..|s| - 1]) else s
  }

  /** `s.trim()`. */
  function Trim(s: string): string
  {
    TrimEnd(TrimStart(s))
  }

  /** `s.replace(/\\ /g, ' ')`: every backslash followed by a space becomes a
      space, matches being taken from left to right without overlapping. */
  function ReplaceEscapedSpaces(s: string): (r: string)
    ensures |r| <= |s|
  {
    if |s| >= 2 && s[0] == '\\' && s[1] == ' ' then " " + ReplaceEscapedSpaces(s[2..])
    else if s == [] then []
    else [s[0]] + ReplaceEscapedSpaces(s[1..])
  }

  /** `sanitizeInput`. */
  function SanitizeInput(input: string): string
  {
    Trim(ReplaceEscapedSpaces(input))
  }

  /** Every character of `t` from `lo` up to `hi` is white space. */
  predicate WhiteSpaceBetween(t: string, lo: int, hi: int)
  {
    forall i :: lo <= i < hi && 0 <= i < |t| ==> IsJsWhitespace(t[i])
  }

  /** `r` is `t` with white space, and only white space, cut off at both
      ends: the slice of `t` from `k` on, which neither starts nor ends with
      white space. */
  predicate TrimmedFrom(t: string, r: string, k: int)
  {
    0 <= k && k + |r| <= |t| && r == t[k..k + |r|] &&
    WhiteSpaceBetween(t, 0, k) && WhiteSpaceBetween(t, k + |r|, |t|) &&
    (r == [] || (!IsJsWhitespace(r[0]) && !IsJsWhitespace(r[|r| - 1])))
  }

  /** What trimming keeps is one slice of the text. */
  lemma TrimIsSlice(t: string)
    ensures var k := |t| - |TrimStart(t)|;
      k + |Trim(t)| <= |t| && Trim(t) == t[k..k + |Trim(t)|]
  {
    var u := TrimStart(t);
    var k := |t| - |u|;
    PrefixOfSuffix(t, k, |TrimEnd(u)|);
  }

  /** A prefix of a suffix is a slice. */
  lemma PrefixOfSuffix(t: string, k: int, n: int)
    requires 0 <= k && 0 <= n && k + n <= |t|
    ensures t[k..][..n] == t[k..k + n]
  {
  }

  /** What trimming cuts off after the kept slice is white space. */
  lemma TrimCutsWhiteSpaceAfter(t: string)
    ensures var k := |t| - |TrimStart(t)|;
      WhiteSpaceBetween(t, k + |Trim(t)|, |t|)
  {
    var u := TrimStart(t);
    var r := TrimEnd(u);
    var k := |t| - |u|;
    assert u == t[k..];
    forall i | k + |r| <= i < |t| ensures IsJsWhitespace(t[i]) {
      assert t[i] == u[i - k];
    }
  }

  /** Trimming cuts off the white space at both ends and nothing else. */
  lemma TrimSlice(t: string)
    ensures TrimmedFrom(t, Trim(t), |t| - |TrimStart(t)|)
  {
    TrimIsSlice(t);
    TrimCutsWhiteSpaceAfter(t);
    var u := TrimStart(t);
    if Trim(t) != [] {
      assert Trim(t)[0] == u[0];
    }
  }

  /** A sanitized input is the unescaped input with the white space at both
      ends cut off and nothing else, and it is no longer than the input. */
  lemma SanitizeInputTrimmed(input: string)
    ensures var t := ReplaceEscapedSpaces(input);
      TrimmedFrom(t, SanitizeInput(input), |t| - |TrimStart(t)|) && |SanitizeInput(input)| <= |input|
  {
    TrimSlice(ReplaceEscapedSpaces(input));
  }

  /** The replacement's units: an escaped space becomes one space, and any
      other single character is kept. */
  lemma ReplaceEscapedSpacesUnits(c: char)
    ensures ReplaceEscapedSpaces("\\ ") == " "
    ensures ReplaceEscapedSpaces([c]) == [c]
  {
    assert "\\ "[2..] == [];
  }

  /** The replacement works piece by piece: a text can be cut anywhere that
      does not separate a backslash from what follows it. */
  lemma {:induction false} ReplaceEscapedSpacesAppend(a: string, b: string)
    requires a == [] || a[|a| - 1] != '\\'
    ensures ReplaceEscapedSpaces(a + b) == ReplaceEscapedSpaces(a) + ReplaceEscapedSpaces(b)
  {
    var ab := a + b;
    if a == [] {
      assert ab == b;
    } else if |a| >= 2 && a[0] == '\\' && a[1] == ' ' {
      assert ab[0] == '\\' && ab[1] == ' ' && ab[2..] == a[2..] + b;
      ReplaceEscapedSpacesAppend(a[2..], b);
      assert ReplaceEscapedSpaces(ab) == " " + ReplaceEscapedSpaces(a[2..] + b);
      assert ReplaceEscapedSpaces(a) == " " + ReplaceEscapedSpaces(a[2..]);
      ConcatAssoc(" ", ReplaceEscapedSpaces(a[2..]), ReplaceEscapedSpaces(b));
    } else {
      assert ab[0] == a[0] && ab[1..] == a[1..] + b;
      assert !(|ab| >= 2 && ab[0] == '\\' && ab[1] == ' ') by {
        if |a| == 1 { assert ab[0] != '\\'; } else { assert ab[1] == a[1]; }
      }
      ReplaceEscapedSpacesAppend(a[1..], b);
      assert ReplaceEscapedSpaces(ab) == [a[0]] + ReplaceEscapedSpaces(a[1..] + b);
      assert ReplaceEscapedSpaces(a) == [a[0]] + ReplaceEscapedSpaces(a[1..]);
      ConcatAssoc([a[0]], ReplaceEscapedSpaces(a[1..]), ReplaceEscapedSpaces(b));
    }
  }

  /** Concatenation is associative. */
  lemma ConcatAssoc(x: string, y: string, z: string)
    ensures x + (y + z) == (x + y) + z
  {
  }

  /** A backslash that is not followed by a space is kept, and so is the
      character after it, which may start an escaped space of its own. */
  lemma LoneBackslashKept(c: char, b: string)
    requires c != ' '
    ensures ReplaceEscapedSpaces(['\\', c] + b) == ['\\'] + ReplaceEscapedSpaces([c] + b)
  {
    assert (['\\', c] + b)[1..] == [c] + b;
  }

  lemma {:induction false} NoBackslashReplace(s: string)
    requires forall i :: 0 <= i < |s| ==> s[i] != '\\'
    ensures ReplaceEscapedSpaces(s) == s
  {
    if s != [] {
      NoBackslashReplace(s[1..]);
      assert s == [s[0]] + s[1..];
    }
  }

  /** Without a backslash sanitizing is trimming. */
  lemma NoBackslashUnchanged(s: string)
    requires '\\' !in s
    ensures SanitizeInput(s) == Trim(s)
  {
    NoBackslashReplace(s);
  }

  /** How a terminal escapes the spaces of a path dropped into it. */
  function EscapeSpaces(p: string): (r: string)
    ensures r == [] || r[0] != ' '
  {
    if p == [] then []
    else if p[0] == ' ' then "\\ " + EscapeSpaces(p[1..])
    else [p[0]] + EscapeSpaces(p[1..])
  }

  /** Sanitizing undoes the escaping: a dropped path comes back as it was,
      trimmed. */
  lemma {:induction false} UnescapeRoundTrip(p: string)
    ensures ReplaceEscapedSpaces(EscapeSpaces(p)) == p
    ensures SanitizeInput(EscapeSpaces(p)) == Trim(p)
  {
    if p != [] {
      UnescapeRoundTrip(p[1..]);
      var e := EscapeSpaces(p[1..]);
      if p[0] == ' ' {
        assert EscapeSpaces(p) == "\\ " + e;
        assert ("\\ " + e)[2..] == e;
      } else {
        assert EscapeSpaces(p) == [p[0]] + e;
        assert ([p[0]] + e)[1..] == e;
        if p[0] == '\\' && e != [] {
          assert ([p[0]] + e)[1] == e[0];
        }
      }
      assert p == [p[0]] + p[1..];
    }
  }

  /** The outcome of a prompt's `validate`: accepted, or the message shown. */
  datatype Validation = Accepted | Rejected(message: string)

  predicate EndsWithJson(file: string)
  {
    |file| >= 5 && file[|file| - 5..] == ".json"
  }

  /** The path prompt's check, after sanitizing: a `.json` file that exists
      (`fileExists` stands for `fs.access`). */
  function ValidateAslPath(input: string, fileExists: string -> bool): (r: Validation)
    ensures r == Accepted <==> EndsWithJson(SanitizeInput(input)) && fileExists(SanitizeInput(input))
    ensures !EndsWithJson(SanitizeInput(input)) ==> r == Rejected("The asl must be a .json file")
    ensures !fileExists(SanitizeInput(input)) && EndsWithJson(SanitizeInput(input)) ==>
              r == Rejected("File does not exist. Please enter a valid file path")
  {
    var file := SanitizeInput(input);
    if !EndsWithJson(file) then Rejected("The asl must be a .json file")
    else if fileExists(file) then Accepted
    else Rejected("File does not exist. Please enter a valid file path")
  }

  predicate IsAsciiDigit(c: char) { '0' <= c <= '9' }

  /** `/\d+/.test(id)`: the pattern is not anchored, so one digit anywhere is enough. */
  function HasDigit(id: string): (r: bool)
    ensures r <==> exists i :: 0 <= i < |id| && IsAsciiDigit(id[i])
  {
    if id == [] then false
    else if IsAsciiDigit(id[0]) then true
    else
      var r := HasDigit(id[1..]);
      assert r ==> exists i :: 0 <= i < |id| && IsAsciiDigit(id[i]) by {
        if r {
          var i :| 0 <= i < |id[1..]| && IsAsciiDigit(id[1..][i]);
          assert id[i + 1] == id[1..][i];
        }
      }
      assert (exists i :: 0 <= i < |id| && IsAsciiDigit(id[i])) ==> r by {
        if exists i :: 0 <= i < |id| && IsAsciiDigit(id[i]) {
          var i :| 0 <= i < |id| && IsAsciiDigit(id[i]);
          assert i > 0 && id[1..][i - 1] == id[i];
        }
      }
      r
  }

  /** The collection-id prompt's check. */
  function ValidateCollectionId(id: string): (r: Validation)
    ensures r == Accepted <==> exists i :: 0 <= i < |id| && IsAsciiDigit(id[i])
    ensures r != Accepted ==> r == Rejected("Please enter a valid collection ID")
  {
    if HasDigit(id) then Accepted else Rejected("Please enter a valid collection ID")
  }

  /** The unanchored check lets through ids that are not numbers. */
  lemma ValidateCollectionIdUnanchored()
    ensures ValidateCollectionId("abc1") == Accepted
    ensures ValidateCollectionId("abc") == Rejected("Please enter a valid collection ID")
  {
    assert IsAsciiDigit("abc1"[3]);
    assert !IsAsciiDigit("abc"[0]) && !IsAsciiDigit("abc"[1]) && !IsAsciiDigit("abc"[2]);
  }

  /** The compressed copy of the file. */
  function GzPath(filePath: string): string { filePath + ".gz" }

  /** The key an earlier, uncompressed upload of the collection was stored under. */
  function LegacyKey(collectionId: string): string { collectionId + ".json" }

  /** The key the compressed collection is uploaded under. */
  function UploadKey(collectionId: string): string { collectionId + ".json.gz" }

  /** The upload key is the compressed name of the legacy key, and it is never
      a legacy key, so deleting a legacy object never deletes an upload. */
  lemma KeyNames(a: string, b: string)
    ensures UploadKey(a) == GzPath(LegacyKey(a))
    ensures LegacyKey(a) != UploadKey(b)
    ensures UploadKey(a) == UploadKey(b) ==> a == b
  {
    assert UploadKey(a) == LegacyKey(a) + ".gz";
    var l, u := LegacyKey(a), UploadKey(b);
    assert l[|l| - 1] == 'n' && u[|u| - 1] == 'z';
    if UploadKey(a) == UploadKey(b) {
      assert a == UploadKey(a)[..|a|];
      assert b == UploadKey(b)[..|b|];
    }
  }
}
