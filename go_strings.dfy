/** The parts of Go's `strings` package that the archive indexer relies on,
    over strings as sequences of characters. Every separator and cut set the
    indexer passes is a single character, so `Split`, `Join` and `Trim` take
    one `char`. */
module GoStrings {

  import opened Wrappers

  /** Index of the first occurrence of `c` in `s`. */
  function IndexOf(s: string, c: char): (i: nat)
    requires c in s
    ensures i < |s| && s[i] == c && c !in s[..i]
  {
    if s[0] == c then 0 else 1 + IndexOf(s[1..], c)
  }

  /** `strings.Split(s, string(sep))`: the pieces between occurrences of
      `sep`; there is always at least one piece and no piece holds `sep`. */
  function Split(s: string, sep: char): (parts: seq<string>)
    ensures |parts| >= 1
    ensures forall k :: 0 <= k < |parts| ==> sep !in parts[k]
    decreases |s|
  {
    if sep !in s then [s]
    else
      var i := IndexOf(s, sep);
      [s[..i]] + Split(s[i + 1..], sep)
  }

  /** `strings.Join(parts, string(sep))`. */
  function Join(parts: seq<string>, sep: char): string
  {
    if |parts| == 0 then ""
    else if |parts| == 1 then parts[0]
    else parts[0] + [sep] + Join(parts[1..], sep)
  }

  /** Number of occurrences of `c` in `s`. */
  function Count(s: string, c: char): nat
  {
    multiset(s)[c]
  }

  /** Splitting and re-joining with the same separator gives back the input. */
  lemma {:induction false} JoinSplit(s: string, sep: char)
    ensures Join(Split(s, sep), sep) == s
    decreases |s|
  {
    if sep in s {
      var i := IndexOf(s, sep);
      var rest := s[i + 1..];
      JoinSplit(rest, sep);
      assert Split(s, sep) == [s[..i]] + Split(rest, sep);
      assert s == s[..i] + [sep] + rest;
    }
  }

  /** Joining pieces that do not hold the separator and splitting again gives
      back the pieces. */
  lemma {:induction false} SplitJoin(parts: seq<string>, sep: char)
    requires |parts| >= 1
    requires forall k :: 0 <= k < |parts| ==> sep !in parts[k]
    ensures Split(Join(parts, sep), sep) == parts
    decreases |parts|
  {
    if |parts| > 1 {
      var j := Join(parts, sep);
      var tail := Join(parts[1..], sep);
      assert j == parts[0] + [sep] + tail;
      assert j == parts[0] + ([sep] + tail);
      IndexOfConcat(parts[0], [sep] + tail, sep);
      assert IndexOf(j, sep) == |parts[0]|;
      assert j[|parts[0]| + 1..] == tail;
      assert j[..|parts[0]|] == parts[0];
      SplitJoin(parts[1..], sep);
      assert Split(j, sep) == [parts[0]] + Split(tail, sep);
      assert parts == [parts[0]] + parts[1..];
    } else {
      assert Join(parts, sep) == parts[0];
      assert parts == [parts[0]];
    }
  }

  /** The first `c` of `a + b`, when `a` has none, lies in `b`. */
  lemma {:induction false} IndexOfConcat(a: string, b: string, c: char)
    requires c !in a && c in b
    ensures c in a + b && IndexOf(a + b, c) == |a| + IndexOf(b, c)
    decreases |a|
  {
    if a != [] {
      assert (a + b)[1..] == a[1..] + b;
      IndexOfConcat(a[1..], b, c);
    } else {
      assert a + b == b;
    }
  }

  /** The number of pieces is one more than the number of separators. */
  lemma {:induction false} SplitCount(s: string, sep: char)
    ensures |Split(s, sep)| == Count(s, sep) + 1
    decreases |s|
  {
    if sep in s {
      var i := IndexOf(s, sep);
      SplitCount(s[i + 1..], sep);
      assert s == s[..i] + [sep] + s[i + 1..];
      assert multiset(s) == multiset(s[..i]) + multiset{sep} + multiset(s[i + 1..]);
      assert multiset(s[..i])[sep] == 0;
    } else {
      assert multiset(s)[sep] == 0;
    }
  }

  /** With exactly one separator the split is the text before it and the
      text after it. */
  lemma SplitOne(s: string, sep: char)
    requires Count(s, sep) == 1
    ensures sep in s
    ensures Split(s, sep) == [s[..IndexOf(s, sep)], s[IndexOf(s, sep) + 1..]]
  {
    assert sep in multiset(s);
    var i := IndexOf(s, sep);
    var rest := s[i + 1..];
    assert s == s[..i] + [sep] + rest;
    assert multiset(s) == multiset(s[..i]) + multiset{sep} + multiset(rest);
    assert multiset(s[..i])[sep] == 0;
    assert multiset(rest)[sep] == 0;
    assert sep !in rest;
    assert Split(rest, sep) == [rest];
    assert Split(s, sep) == [s[..i]] + Split(rest, sep);
  }

  /** A string without `sep` splits into itself alone. */
  lemma SplitNone(s: string, sep: char)
    requires sep !in s
    ensures Split(s, sep) == [s]
  {
  }

  /** The first piece of a split is the text before the first separator. */
  lemma SplitHead(s: string, sep: char)
    requires sep in s
    ensures |Split(s, sep)| >= 2
    ensures Split(s, sep)[0] == s[..IndexOf(s, sep)]
    ensures Split(s, sep)[1..] == Split(s[IndexOf(s, sep) + 1..], sep)
  {
  }

  // ---------------------------------------------------------------------
  // Trimming

  /** `unicode.IsSpace`: the Latin-1 spaces and the other code points with
      the Unicode White_Space property. */
  predicate IsSpace(c: char)
  {
    var n := c as int;
    (0x09 <= n <= 0x0D) || n == 0x20 || n == 0x85 || n == 0xA0 || n == 0x1680
    || (0x2000 <= n <= 0x200A) || n == 0x2028 || n == 0x2029 || n == 0x202F
    || n == 0x205F || n == 0x3000
  }

  /** Drops the leading characters that satisfy `cut`; the result is the
      suffix of `s` that starts at the first character not in the cut set. */
  function TrimLeft(s: string, cut: char -> bool): (r: string)
    ensures |r| <= |s| && r == s[|s| - |r|..]
    ensures r != [] ==> !cut(r[0])
    ensures forall k :: 0 <= k < |s| - |r| ==> cut(s[k])
    decreases |s|
  {
    if s != [] && cut(s[0]) then TrimLeft(s[1..], cut) else s
  }

  /** Drops the trailing characters that satisfy `cut`; the result is the
      prefix of `s` that ends at the last character not in the cut set. */
  function TrimRight(s: string, cut: char -> bool): (r: string)
    ensures |r| <= |s| && r == s[..|r|]
    ensures r != [] ==> !cut(r[|r| - 1])
    ensures forall k :: |r| <= k < |s| ==> cut(s[k])
    decreases |s|
  {
    if s != [] && cut(s[|s| - 1]) then TrimRight(s[..|s| - 1], cut) else s
  }

  /** `strings.TrimSpace`. */
  function TrimSpace(s: string): string
  {
    TrimRight(TrimLeft(s, IsSpace), IsSpace)
  }

  /** The cut set holding the single character `c`. */
  function EqualTo(c: char): char -> bool
  {
    x => x == c
  }

  /** `strings.Trim(s, string(c))`: removes `c` from both ends. */
  function Trim(s: string, c: char): string
  {
    TrimRight(TrimLeft(s, EqualTo(c)), EqualTo(c))
  }

  /** Leading characters in the cut set do not change what `TrimLeft` keeps. */
  lemma {:induction false} TrimLeftSkips(z: string, s: string, cut: char -> bool)
    requires forall k :: 0 <= k < |z| ==> cut(z[k])
    ensures TrimLeft(z + s, cut) == TrimLeft(s, cut)
    decreases |z|
  {
    if z != [] {
      assert (z + s)[1..] == z[1..] + s;
      TrimLeftSkips(z[1..], s, cut);
    } else {
      assert z + s == s;
    }
  }

  /** `TrimLeft` keeps a string that does not start in the cut set. */
  lemma TrimLeftStops(s: string, cut: char -> bool)
    requires s != [] && !cut(s[0])
    ensures TrimLeft(s, cut) == s
  {
  }

  /** `TrimRight` keeps a string that does not end in the cut set. */
  lemma TrimRightStops(s: string, cut: char -> bool)
    requires s != [] && !cut(s[|s| - 1])
    ensures TrimRight(s, cut) == s
  {
  }

  /** A string made only of cut characters trims to nothing. */
  lemma TrimLeftAll(s: string, cut: char -> bool)
    requires forall k :: 0 <= k < |s| ==> cut(s[k])
    ensures TrimLeft(s, cut) == []
  {
  }

  /** What `TrimSpace` keeps: a slice of the input with no space at either
      end, everything cut off being space. */
  lemma TrimSpaceSlice(s: string)
    ensures exists i, j :: 0 <= i <= j <= |s| && TrimSpace(s) == s[i..j]
              && (forall k :: 0 <= k < i ==> IsSpace(s[k]))
              && (forall k :: j <= k < |s| ==> IsSpace(s[k]))
    ensures TrimSpace(s) != [] ==>
              !IsSpace(TrimSpace(s)[0]) && !IsSpace(TrimSpace(s)[|TrimSpace(s)| - 1])
  {
    TrimBothSlice(s, IsSpace);
  }

  /** Trimming both ends with one cut set keeps a slice with no cut
      character at either end, everything cut off being in the set. */
  lemma TrimBothSlice(s: string, cut: char -> bool)
    ensures var t := TrimRight(TrimLeft(s, cut), cut);
            exists i, j :: 0 <= i <= j <= |s| && t == s[i..j]
              && (forall k :: 0 <= k < i ==> cut(s[k]))
              && (forall k :: j <= k < |s| ==> cut(s[k]))
    ensures var t := TrimRight(TrimLeft(s, cut), cut);
            t != [] ==> !cut(t[0]) && !cut(t[|t| - 1])
  {
    var l := TrimLeft(s, cut);
    var r := TrimRight(l, cut);
    var i := |s| - |l|;
    var j := i + |r|;
    assert l == s[i..];
    assert r == l[..|r|];
    assert r == s[i..j];
    assert forall k :: 0 <= k < i ==> cut(s[k]);
    forall k | j <= k < |s| ensures cut(s[k]) {
      assert s[k] == l[k - i];
    }
    assert 0 <= i <= j <= |s| && r == s[i..j]
           && (forall k :: 0 <= k < i ==> cut(s[k]))
           && (forall k :: j <= k < |s| ==> cut(s[k]));
  }

  /** A string with no space at either end is its own `TrimSpace`. */
  lemma TrimSpaceNoEnds(s: string)
    requires s != [] && !IsSpace(s[0]) && !IsSpace(s[|s| - 1])
    ensures TrimSpace(s) == s
  {
    assert TrimLeft(s, IsSpace) == s;
  }

  // ---------------------------------------------------------------------
  // Prefixes, case and replacement

  /** `strings.HasPrefix`. */
  predicate HasPrefix(s: string, prefix: string)
  {
    |prefix| <= |s| && s[..|prefix|] == prefix
  }

  /** Lower-case mapping of one character (ASCII letters only). */
  function LowerChar(c: char): char
  {
    if 'A' <= c <= 'Z' then (c as int + 32) as char else c
  }

  /** `strings.ToLower`, restricted to ASCII letters; it keeps the length
      and maps position by position. */
  function ToLower(s: string): (r: string)
    ensures |r| == |s| && forall k :: 0 <= k < |s| ==> r[k] == LowerChar(s[k])
  {
    seq(|s|, k requires 0 <= k < |s| => LowerChar(s[k]))
  }

  /** Whether `t` occurs in `s` at position `i`. */
  predicate OccursAt(s: string, t: string, i: int)
  {
    0 <= i && i + |t| <= |s| && s[i..i + |t|] == t
  }

  /** Position of the first occurrence of `t` in `s`, searching from `from`. */
  function FindFrom(s: string, t: string, from: nat): (r: Option<nat>)
    ensures r.Some? ==> from <= r.value && OccursAt(s, t, r.value)
    ensures r.Some? ==> forall k :: from <= k < r.value ==> !OccursAt(s, t, k)
    ensures r.None? ==> forall k :: from <= k ==> !OccursAt(s, t, k)
    decreases |s| - from
  {
    if from + |t| > |s| then None
    else if s[from..from + |t|] == t then Some(from)
    else FindFrom(s, t, from + 1)
  }

  /** `strings.Index(s, t)` as an option. */
  function Find(s: string, t: string): Option<nat>
  {
    FindFrom(s, t, 0)
  }

  /** `strings.Replace(s, pat, new, 1)`: replaces the first occurrence of
      `pat`; an empty `pat` matches at the start. */
  function ReplaceFirst(s: string, pat: string, repl: string): string
  {
    match Find(s, pat)
    case None => s
    case Some(i) => s[..i] + repl + s[i + |pat|..]
  }

  /** What `ReplaceFirst` does: the first occurrence, and only it, is replaced;
      a string without `pat` is returned unchanged. */
  lemma ReplaceFirstSpec(s: string, pat: string, repl: string)
    ensures (forall k :: !OccursAt(s, pat, k)) ==> ReplaceFirst(s, pat, repl) == s
    ensures forall i :: OccursAt(s, pat, i) && (forall k :: 0 <= k < i ==> !OccursAt(s, pat, k))
               ==> ReplaceFirst(s, pat, repl) == s[..i] + repl + s[i + |pat|..]
  {
    match Find(s, pat)
    case None =>
    case Some(j) =>
      forall i | OccursAt(s, pat, i) && (forall k :: 0 <= k < i ==> !OccursAt(s, pat, k))
        ensures i == j
      {
        assert i >= j;
        assert j >= i;
      }
  }

}
