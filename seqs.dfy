/** Array operations of JavaScript (`filter`, `map` to a field, `join`,
    `find`) over Dafny sequences, with the facts the rest of the model uses. */
module Seqs {
  import opened Wrappers

  /** `s.filter(p)`: the elements of `s` satisfying `p`, in their order. */
  function Filter<T>(s: seq<T>, p: T -> bool): (r: seq<T>)
    ensures |r| <= |s|
    ensures forall x :: x in r ==> x in s && p(x)
  {
    if s == [] then [] else (if p(s[0]) then [s[0]] else []) + Filter(s[1..], p)
  }

  /** `a` can be obtained from `b` by deleting elements. */
  predicate IsSubsequence<T(==)>(a: seq<T>, b: seq<T>)
  {
    if a == [] then true
    else if b == [] then false
    else IsSubsequence(a, b[1..]) || (a[0] == b[0] && IsSubsequence(a[1..], b[1..]))
  }

  lemma {:induction false} FilterIsSubsequence<T>(s: seq<T>, p: T -> bool)
    ensures IsSubsequence(Filter(s, p), s)
  {
    if s != [] {
      FilterIsSubsequence(s[1..], p);
      if p(s[0]) {
        assert Filter(s, p) == [s[0]] + Filter(s[1..], p);
        assert Filter(s, p)[1..] == Filter(s[1..], p);
      } else {
        assert Filter(s, p) == Filter(s[1..], p);
      }
    }
  }

  /** Every element of `s` that satisfies `p` is kept. */
  lemma {:induction false} FilterKeeps<T>(s: seq<T>, p: T -> bool, x: T)
    requires x in s && p(x)
    ensures x in Filter(s, p)
  {
    if s[0] != x {
      FilterKeeps(s[1..], p, x);
    }
  }

  /** Filtering keeps each element exactly as often as it occurs, or never. */
  lemma {:induction false} FilterMultiset<T>(s: seq<T>, p: T -> bool)
    ensures forall x :: multiset(Filter(s, p))[x] == if p(x) then multiset(s)[x] else 0
  {
    if s != [] {
      FilterMultiset(s[1..], p);
      assert s == [s[0]] + s[1..];
      assert multiset(s) == multiset([s[0]]) + multiset(s[1..]);
    }
  }

  /** Filtering by `p` and by its complement splits `s` into two parts. */
  lemma {:induction false} FilterPartition<T>(s: seq<T>, p: T -> bool, q: T -> bool)
    requires forall x :: q(x) == !p(x)
    ensures |Filter(s, p)| + |Filter(s, q)| == |s|
    ensures multiset(Filter(s, p)) + multiset(Filter(s, q)) == multiset(s)
  {
    if s != [] {
      FilterPartition(s[1..], p, q);
      assert s == [s[0]] + s[1..];
      assert multiset(s) == multiset([s[0]]) + multiset(s[1..]);
    }
  }

  /** Filtering with a predicate that implies `p` may as well start from
      what `p` kept. */
  lemma {:induction false} FilterStronger<T>(s: seq<T>, p: T -> bool, q: T -> bool)
    requires forall x :: q(x) ==> p(x)
    ensures Filter(Filter(s, p), q) == Filter(s, q)
  {
    if s != [] {
      FilterStronger(s[1..], p, q);
      if p(s[0]) {
        var t := Filter(s, p);
        assert t == [s[0]] + Filter(s[1..], p);
        assert t[0] == s[0] && t[1..] == Filter(s[1..], p);
        assert Filter(t, q) == (if q(s[0]) then [s[0]] else []) + Filter(t[1..], q);
      } else {
        assert Filter(s, p) == Filter(s[1..], p);
      }
    }
  }

  /** Filters that agree on every element of `s` give the same result. */
  lemma {:induction false} FilterCongruent<T>(s: seq<T>, p: T -> bool, q: T -> bool)
    requires forall i :: 0 <= i < |s| ==> p(s[i]) == q(s[i])
    ensures Filter(s, p) == Filter(s, q)
  {
    if s != [] {
      FilterCongruent(s[1..], p, q);
    }
  }

  /** A filter that rejects every element gives the empty sequence, and
      only then. */
  lemma {:induction false} FilterEmpty<T>(s: seq<T>, p: T -> bool)
    ensures Filter(s, p) == [] <==> forall i :: 0 <= i < |s| ==> !p(s[i])
  {
    if s != [] {
      FilterEmpty(s[1..], p);
      assert forall i :: 1 <= i < |s| ==> s[i] == s[1..][i - 1];
    }
  }

  /** `parts.join(sep)`. */
  function Join(sep: string, parts: seq<string>): string
  {
    if parts == [] then ""
    else if |parts| == 1 then parts[0]
    else parts[0] + sep + Join(sep, parts[1..])
  }

  /** `s.split(" ")`: the pieces between single spaces. */
  function SplitOnSpace(s: string): (r: seq<string>)
    ensures |r| >= 1
  {
    if s == [] then [""]
    else if s[0] == ' ' then [""] + SplitOnSpace(s[1..])
    else
      var rest := SplitOnSpace(s[1..]);
      [[s[0]] + rest[0]] + rest[1..]
  }

  lemma SplitCons(c: char, x: string)
    requires c != ' '
    ensures SplitOnSpace([c] + x) == [[c] + SplitOnSpace(x)[0]] + SplitOnSpace(x)[1..]
  {
    assert ([c] + x)[0] == c && ([c] + x)[1..] == x;
  }

  /** Splitting a text that starts with a word without spaces: the word
      joins the first piece. */
  lemma {:induction false} SplitWord(w: string, s: string)
    requires forall i :: 0 <= i < |w| ==> w[i] != ' '
    ensures SplitOnSpace(w + s) == [w + SplitOnSpace(s)[0]] + SplitOnSpace(s)[1..]
  {
    var t := SplitOnSpace(s);
    if w != [] {
      SplitWord(w[1..], s);
      assert w + s == [w[0]] + (w[1..] + s);
      SplitCons(w[0], w[1..] + s);
      assert [w[0]] + (w[1..] + t[0]) == w + t[0];
    } else {
      assert w + s == s && w + t[0] == t[0];
      assert t == [t[0]] + t[1..];
    }
  }

  lemma JoinCons(sep: string, parts: seq<string>)
    requires |parts| >= 2
    ensures Join(sep, parts) == parts[0] + (sep + Join(sep, parts[1..]))
  {
  }

  lemma SplitSpace(x: string)
    ensures SplitOnSpace(" " + x) == [""] + SplitOnSpace(x)
  {
    assert (" " + x)[0] == ' ' && (" " + x)[1..] == x;
  }

  /** Joining words with single spaces and splitting on spaces gives the
      words back, as long as no word contains a space. */
  lemma {:induction false} SplitJoinRoundTrip(parts: seq<string>)
    requires |parts| >= 1
    requires forall i :: 0 <= i < |parts| ==> ' ' !in parts[i]
    ensures SplitOnSpace(Join(" ", parts)) == parts
  {
    var w := parts[0];
    assert forall j :: 0 <= j < |w| ==> w[j] != ' ' by {
      forall j | 0 <= j < |w| ensures w[j] != ' ' { assert w[j] in w; }
    }
    if |parts| == 1 {
      SplitWord(w, "");
      assert w + "" == w;
    } else {
      var tail := parts[1..];
      assert forall i :: 0 <= i < |tail| ==> ' ' !in tail[i] by {
        forall i | 0 <= i < |tail| ensures ' ' !in tail[i] { assert tail[i] == parts[i + 1]; }
      }
      var rest := Join(" ", tail);
      SplitJoinRoundTrip(tail);
      JoinCons(" ", parts);
      SplitWord(w, " " + rest);
      SplitSpace(rest);
      assert SplitOnSpace(" " + rest) == [""] + tail;
      assert ([""] + tail)[0] == "" && ([""] + tail)[1..] == tail;
      assert w + "" == w;
      assert parts == [w] + tail;
    }
  }

  /** `candidates.find((c) => c in files)`. */
  function Find(candidates: seq<string>, files: seq<string>): (r: Option<string>)
    ensures r.None? <==> forall i :: 0 <= i < |candidates| ==> candidates[i] !in files
    ensures r.Some? ==> exists k :: 0 <= k < |candidates| && candidates[k] == r.value && candidates[k] in files &&
                                 forall j :: 0 <= j < k ==> candidates[j] !in files
  {
    if candidates == [] then None
    else if candidates[0] in files then Some(candidates[0])
    else
      var r := Find(candidates[1..], files);
      assert forall i :: 1 <= i < |candidates| ==> candidates[i] == candidates[1..][i - 1];
      if r.Some? then
        var k :| 0 <= k < |candidates[1..]| && candidates[1..][k] == r.value && candidates[1..][k] in files &&
                 forall j :: 0 <= j < k ==> candidates[1..][j] !in files;
        assert candidates[k + 1] == r.value;
        r
      else r
  }
}
