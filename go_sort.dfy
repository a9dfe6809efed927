/** `sort.Sort(sort.Reverse(sort.StringSlice(s)))`: strings in decreasing
    order. Go compares strings byte by byte in their UTF-8 encoding, which
    orders them as their sequences of code points do. */
module GoSort {

  /** Go's `a <= b` on strings: lexicographic, a prefix first. */
  predicate LexLe(a: string, b: string)
    decreases |a|
  {
    a == [] || (b != [] && (a[0] < b[0] || (a[0] == b[0] && LexLe(a[1..], b[1..]))))
  }

  lemma {:induction false} LexLeRefl(a: string)
    ensures LexLe(a, a)
    decreases |a|
  {
    if a != [] {
      LexLeRefl(a[1..]);
    }
  }

  lemma {:induction false} LexLeTotal(a: string, b: string)
    ensures LexLe(a, b) || LexLe(b, a)
    decreases |a|
  {
    if a != [] && b != [] && a[0] == b[0] {
      LexLeTotal(a[1..], b[1..]);
    }
  }

  lemma {:induction false} LexLeAntisym(a: string, b: string)
    requires LexLe(a, b) && LexLe(b, a)
    ensures a == b
    decreases |a|
  {
    if a != [] {
      LexLeAntisym(a[1..], b[1..]);
      assert a == [a[0]] + a[1..] && b == [b[0]] + b[1..];
    }
  }

  lemma {:induction false} LexLeTrans(a: string, b: string, c: string)
    requires LexLe(a, b) && LexLe(b, c)
    ensures LexLe(a, c)
    decreases |a|
  {
    if a != [] && a[0] == b[0] && b[0] == c[0] {
      LexLeTrans(a[1..], b[1..], c[1..]);
    }
  }

  /** Every string is at most each later one's predecessor: decreasing
      order. */
  predicate SortedDesc(s: seq<string>)
  {
    forall i, j :: 0 <= i < j < |s| ==> LexLe(s[j], s[i])
  }

  /** Put `x` into the decreasing sequence `s`. */
  function Insert(x: string, s: seq<string>): seq<string>
    decreases |s|
  {
    if s == [] then [x]
    else if LexLe(s[0], x) then [x] + s
    else [s[0]] + Insert(x, s[1..])
  }

  /** `s` in decreasing order. */
  function ReverseSorted(s: seq<string>): seq<string>
    decreases |s|
  {
    if s == [] then [] else Insert(s[0], ReverseSorted(s[1..]))
  }

  lemma {:induction false} InsertPerm(x: string, s: seq<string>)
    ensures multiset(Insert(x, s)) == multiset(s) + multiset{x}
    decreases |s|
  {
    if s != [] && !LexLe(s[0], x) {
      InsertPerm(x, s[1..]);
      assert s == [s[0]] + s[1..];
    }
  }

  lemma {:induction false} InsertSorted(x: string, s: seq<string>)
    requires SortedDesc(s)
    ensures SortedDesc(Insert(x, s))
    decreases |s|
  {
    if s != [] {
      if LexLe(s[0], x) {
        var r := [x] + s;
        forall i, j | 0 <= i < j < |r| ensures LexLe(r[j], r[i]) {
          if i == 0 {
            if j > 1 {
              LexLeTrans(s[j - 1], s[0], x);
            }
          }
        }
      } else {
        LexLeTotal(s[0], x);
        var t := s[1..];
        assert SortedDesc(t) by {
          forall i, j | 0 <= i < j < |t| ensures LexLe(t[j], t[i]) {
            assert t[j] == s[j + 1] && t[i] == s[i + 1];
          }
        }
        InsertSorted(x, t);
        InsertPerm(x, t);
        var r := [s[0]] + Insert(x, t);
        forall i, j | 0 <= i < j < |r| ensures LexLe(r[j], r[i]) {
          if i == 0 {
            var y := r[j];
            assert y in multiset(Insert(x, t));
            assert y in multiset(t) || y == x;
            if y != x {
              var k :| 0 <= k < |t| && t[k] == y;
              assert s[k + 1] == y;
            }
          }
        }
      }
    }
  }

  /** The sorted sequence is in decreasing order and holds the same strings
      as many times each. */
  lemma {:induction false} ReverseSortedSpec(s: seq<string>)
    ensures SortedDesc(ReverseSorted(s))
    ensures multiset(ReverseSorted(s)) == multiset(s)
    decreases |s|
  {
    if s != [] {
      ReverseSortedSpec(s[1..]);
      InsertSorted(s[0], ReverseSorted(s[1..]));
      InsertPerm(s[0], ReverseSorted(s[1..]));
      assert s == [s[0]] + s[1..];
    }
  }

  /** The first string of a decreasing sequence is its largest. */
  lemma HeadIsMax(t: seq<string>, x: string)
    requires SortedDesc(t) && x in multiset(t)
    ensures LexLe(x, t[0])
  {
    var k :| 0 <= k < |t| && t[k] == x;
    if k == 0 {
      LexLeRefl(x);
    }
  }

  /** Dropping the first string keeps a sequence decreasing. */
  lemma SortedTail(t: seq<string>)
    requires SortedDesc(t) && t != []
    ensures SortedDesc(t[1..])
  {
    var r := t[1..];
    forall i, j | 0 <= i < j < |r| ensures LexLe(r[j], r[i]) {
      assert r[j] == t[j + 1] && r[i] == t[i + 1];
    }
  }

  /** Two sequences holding the same strings, with the same first string,
      hold the same strings after it. */
  lemma SameTail(t: seq<string>, u: seq<string>)
    requires t != [] && u != [] && t[0] == u[0] && multiset(t) == multiset(u)
    ensures multiset(t[1..]) == multiset(u[1..])
  {
    assert t == [t[0]] + t[1..] && u == [u[0]] + u[1..];
    assert multiset(t) == multiset{t[0]} + multiset(t[1..]);
    assert multiset(u) == multiset{u[0]} + multiset(u[1..]);
    assert multiset(t[1..]) == multiset(t) - multiset{t[0]};
    assert multiset(u[1..]) == multiset(u) - multiset{u[0]};
  }

  /** Two decreasing orders of the same strings are the same sequence, so
      the result does not depend on the sorting algorithm (nor on its
      stability). */
  lemma {:induction false} SortedUnique(t: seq<string>, u: seq<string>)
    requires SortedDesc(t) && SortedDesc(u) && multiset(t) == multiset(u)
    ensures t == u
    decreases |t|
  {
    assert |u| == |t| by {
      assert |multiset(t)| == |t| && |multiset(u)| == |u|;
    }
    if t != [] {
      assert t[0] in multiset(u);
      assert u[0] in multiset(t);
      HeadIsMax(u, t[0]);
      HeadIsMax(t, u[0]);
      LexLeAntisym(t[0], u[0]);
      SameTail(t, u);
      SortedTail(t);
      SortedTail(u);
      SortedUnique(t[1..], u[1..]);
      assert t == [t[0]] + t[1..] && u == [u[0]] + u[1..];
    }
  }

  /** Any decreasing ordering of `s` is `ReverseSorted(s)`. */
  lemma ReverseSortedUnique(s: seq<string>, t: seq<string>)
    requires SortedDesc(t) && multiset(t) == multiset(s)
    ensures t == ReverseSorted(s)
  {
    ReverseSortedSpec(s);
    SortedUnique(t, ReverseSorted(s));
  }
}
