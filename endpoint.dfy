/** `changeEndpointName`: replacing the last path segment's base name of a
    URL path, keeping its extension, by rewriting the path with the pattern
    `/\/([^/]+)(\.[^.]+)$/` and the replacement template `/<newName>$2`. */
module Endpoint {
  import opened Wrappers

  /** The greatest index below `upTo` at which `s` holds `c`, or -1. */
  function LastIndex(s: string, c: char, upTo: nat): (r: int)
    requires upTo <= |s|
    ensures -1 <= r < upTo
    ensures r >= 0 ==> s[r] == c
    ensures forall i :: r < i < upTo ==> s[i] != c
  {
    if upTo == 0 then -1
    else if s[upTo - 1] == c then upTo - 1
    else LastIndex(s, c, upTo - 1)
  }

  /** The pattern matches `s` with the `/` at `p` and group 2 starting at
      the `.` at `k`: group 1 is `s[p+1..k]`, one or more characters
      other than `/`, and group 2 is `s[k..]`, a `.` followed by one or
      more characters other than `.` up to the end of the path. */
  predicate MatchAt(s: string, p: int, k: int)
  {
    0 <= p && p + 1 < k && k + 1 < |s| && s[p] == '/' && s[k] == '.' &&
    (forall i :: p < i < k ==> s[i] != '/') &&
    (forall i :: k < i < |s| ==> s[i] != '.')
  }

  /** Where the pattern matches: group 2 must start at the last `.`, and
      the `/` must be the last one before it. */
  function FindMatch(s: string): Option<(int, int)>
  {
    var k := LastIndex(s, '.', |s|);
    if k < 0 || k + 1 >= |s| then None
    else
      var p := LastIndex(s, '/', k);
      if p < 0 || p + 1 >= k then None else Some((p, k))
  }

  /** `LastIndex` finds an occurrence that nothing after it repeats. */
  lemma LastIndexIs(s: string, c: char, upTo: nat, j: int)
    requires 0 <= j < upTo <= |s| && s[j] == c
    requires forall i :: j < i < upTo ==> s[i] != c
    ensures LastIndex(s, c, upTo) == j
    decreases upTo
  {
    if upTo - 1 != j {
      LastIndexIs(s, c, upTo - 1, j);
    }
  }

  /** `FindMatch` finds a match exactly when there is one; the match is the
      only one, so it is also the leftmost one a regular-expression search
      returns. */
  lemma FindMatchExactly(s: string, p: int, k: int)
    ensures FindMatch(s) == Some((p, k)) <==> MatchAt(s, p, k)
  {
    if MatchAt(s, p, k) {
      LastIndexIs(s, '.', |s|, k);
      LastIndexIs(s, '/', k, p);
    }
  }

  /** The pattern matches nowhere when `FindMatch` finds nothing. */
  lemma NoMatchAnywhere(s: string)
    requires FindMatch(s).None?
    ensures forall p, k :: !MatchAt(s, p, k)
  {
    forall p, k ensures !MatchAt(s, p, k) {
      FindMatchExactly(s, p, k);
    }
  }

  predicate IsDigit(c: char) { '0' <= c <= '9' }

  /** The captures of the pattern: there are two groups. */
  function Capture(s: string, p: int, k: int, n: int): string
    requires MatchAt(s, p, k) && 1 <= n <= 2
  {
    if n == 1 then s[p + 1..k] else s[k..]
  }

  /** The `$` reference at the start of the template `t`, as
      `String.prototype.replace` reads it: `$$` is a `$`, `$&` the matched
      text, `` $` `` the text before the match, `$'` the text after it (empty,
      as the match ends the path), `$1`, `$2`, `$01` and `$02` the groups; a
      two-digit reference beyond the two groups is read as a one-digit
      reference followed by a digit, and any other `$` stays as it is. The
      second component is how many characters of `t` the reference takes. */
  function Reference(t: string, s: string, p: int, k: int): (r: (string, nat))
    requires MatchAt(s, p, k) && |t| >= 2 && t[0] == '$'
    ensures 1 <= r.1 <= |t|
  {
    if t[1] == '$' then ("$", 2)
    else if t[1] == '&' then (s[p..], 2)
    else if t[1] == '`' then (s[..p], 2)
    else if t[1] == '\'' then ("", 2)
    else if t[1] == '0' && |t| >= 3 && (t[2] == '1' || t[2] == '2') then
      (Capture(s, p, k, if t[2] == '1' then 1 else 2), 3)
    else if t[1] == '1' || t[1] == '2' then (Capture(s, p, k, if t[1] == '1' then 1 else 2), 2)
    else ("$", 1)
  }

  /** The replacement template `t` expanded for the match at `(p, k)`. */
  function Expand(t: string, s: string, p: int, k: int): string
    requires MatchAt(s, p, k)
    decreases |t|
  {
    if t == [] then []
    else if |t| >= 2 && t[0] == '$' then
      var r := Reference(t, s, p, k);
      r.0 + Expand(t[r.1..], s, p, k)
    else [t[0]] + Expand(t[1..], s, p, k)
  }

  /** Text without `$` expands to itself. */
  lemma {:induction false} ExpandLiteral(a: string, b: string, s: string, p: int, k: int)
    requires MatchAt(s, p, k) && '$' !in a
    ensures Expand(a + b, s, p, k) == a + Expand(b, s, p, k)
    decreases |a|
  {
    if a != [] {
      assert a[0] in a;
      assert '$' !in a[1..] by {
        forall i | 0 <= i < |a[1..]| ensures a[1..][i] != '$' { assert a[1..][i] == a[i + 1]; }
      }
      assert (a + b)[0] == a[0];
      assert (a + b)[1..] == a[1..] + b;
      ExpandLiteral(a[1..], b, s, p, k);
      assert a == [a[0]] + a[1..];
      calc {
        Expand(a + b, s, p, k);
        [a[0]] + Expand(a[1..] + b, s, p, k);
        [a[0]] + (a[1..] + Expand(b, s, p, k));
        a + Expand(b, s, p, k);
      }
    } else {
      assert a + b == b;
    }
  }

  /** The replacement template `/<newName>$2`. */
  function Template(newName: string): string
  {
    "/" + newName + "$2"
  }

  /** The path with the match replaced; unchanged when the pattern does not match. */
  function ChangePathname(s: string, newName: string): string
  {
    match FindMatch(s)
    case None => s
    case Some((p, k)) =>
      FindMatchExactly(s, p, k);
      s[..p] + Expand(Template(newName), s, p, k)
  }

  /** A path the pattern does not match is left as it is. */
  lemma NoMatchUnchanged(s: string, newName: string)
    requires forall p, k :: !MatchAt(s, p, k)
    ensures ChangePathname(s, newName) == s
  {
    if FindMatch(s).Some? {
      var (p, k) := FindMatch(s).value;
      FindMatchExactly(s, p, k);
      assert false;
    }
  }

  /** For a new name without `$`, the last segment's base name becomes the
      new name and everything before it and the extension are kept. */
  lemma RenamesBaseName(s: string, newName: string, p: int, k: int)
    requires MatchAt(s, p, k) && '$' !in newName
    ensures ChangePathname(s, newName) == s[..p] + "/" + newName + s[k..]
  {
    FindMatchExactly(s, p, k);
    var lit := "/" + newName;
    assert '$' !in lit by {
      assert lit[0] == '/' && lit[1..] == newName;
    }
    assert Template(newName) == lit + "$2";
    ExpandLiteral(lit, "$2", s, p, k);
    ExpandGroupTwo(s, p, k);
    assert s[..p] + (lit + s[k..]) == s[..p] + "/" + newName + s[k..];
  }

  lemma ExpandGroupTwo(s: string, p: int, k: int)
    requires MatchAt(s, p, k)
    ensures Expand("$2", s, p, k) == s[k..]
  {
    assert Reference("$2", s, p, k) == (s[k..], 2);
    assert "$2"[2..] == [];
  }

  /** Renaming twice to the same plain name (no `/`, `.` or `$`) is the
      same as renaming once. */
  lemma ChangePathnameIdempotent(s: string, newName: string)
    requires '/' !in newName && '.' !in newName && '$' !in newName
    ensures ChangePathname(ChangePathname(s, newName), newName) == ChangePathname(s, newName)
  {
    match FindMatch(s)
    case None =>
    case Some((p, k)) =>
      FindMatchExactly(s, p, k);
      RenamesBaseName(s, newName, p, k);
      var r := s[..p] + "/" + newName + s[k..];
      var k' := p + 1 + |newName|;
      assert r[p] == '/' && r[k'] == '.';
      assert forall i :: p < i < k' ==> r[i] == newName[i - p - 1];
      assert forall i :: k' < i < |r| ==> r[i] == s[i - k' + k];
      LastIndexIs(r, '.', |r|, k');
      if newName == [] {
        LastIndexIs(r, '/', k', p);
        assert FindMatch(r).None?;
      } else {
        assert MatchAt(r, p, k');
        RenamesBaseName(r, newName, p, k');
        assert r[..p] == s[..p];
        assert r[k'..] == s[k..];
      }
  }

  /** A path whose last segment has no extension is left as it is. */
  lemma NoExtensionUnchanged(s: string, newName: string)
    requires '.' !in s
    ensures ChangePathname(s, newName) == s
  {
  }
}
