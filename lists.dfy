/** `Array.prototype.filter` and the counts the pages display (`filter(...).length`). */
module Lists {

  /** `s.filter(p)`: the elements satisfying `p`, in their original order. */
  function Filter<T(==)>(s: seq<T>, p: T -> bool): (r: seq<T>)
    ensures |r| <= |s|
  {
    if s == [] then [] else (if p(s[0]) then [s[0]] else []) + Filter(s[1..], p)
  }

  /** What a filter keeps: elements of the list that satisfy the condition, and all of them. */
  lemma {:induction false} FilterMembers<T>(s: seq<T>, p: T -> bool)
    ensures forall i :: 0 <= i < |Filter(s, p)| ==> Filter(s, p)[i] in s && p(Filter(s, p)[i])
    ensures forall i :: 0 <= i < |s| && p(s[i]) ==> s[i] in Filter(s, p)
  {
    if s != [] {
      FilterMembers(s[1..], p);
      var r := Filter(s, p);
      var t := Filter(s[1..], p);
      forall i | 0 <= i < |r| ensures r[i] in s && p(r[i]) {
        if p(s[0]) && i == 0 {
        } else {
          var k := if p(s[0]) then i - 1 else i;
          assert r[i] == t[k];
        }
      }
      forall i | 0 <= i < |s| && p(s[i]) ensures s[i] in r {
        if i > 0 {
          assert s[i] == s[1..][i - 1];
        }
      }
    }
  }

  /** `a` can be obtained from `b` by deleting elements: `a` keeps `b`'s order. Matching each
      element of `a` against the first equal element of `b` finds such a deletion whenever one exists. */
  predicate IsSubsequence<T(==)>(a: seq<T>, b: seq<T>)
    decreases |b|
  {
    if a == [] then true
    else if b == [] then false
    else if a[0] == b[0] then IsSubsequence(a[1..], b[1..])
    else IsSubsequence(a, b[1..])
  }

  /** Putting an element in front of `b` keeps every subsequence of `b`. */
  lemma {:induction false} SubsequenceExtend<T>(a: seq<T>, y: T, b: seq<T>)
    requires IsSubsequence(a, b)
    ensures IsSubsequence(a, [y] + b)
    decreases |b|, 1
  {
    assert ([y] + b)[1..] == b;
    if a != [] && a[0] == y {
      assert [a[0]] + a[1..] == a;
      SubsequenceDropHead(a[0], a[1..], b);
    }
  }

  /** Dropping the first element of a subsequence leaves a subsequence. */
  lemma {:induction false} SubsequenceDropHead<T>(x: T, a: seq<T>, b: seq<T>)
    requires IsSubsequence([x] + a, b)
    ensures IsSubsequence(a, b)
    decreases |b|, 0
  {
    assert ([x] + a)[0] == x && ([x] + a)[1..] == a;
    if x == b[0] {
      SubsequenceExtend(a, b[0], b[1..]);
      assert [b[0]] + b[1..] == b;
    } else {
      SubsequenceDropHead(x, a, b[1..]);
      SubsequenceExtend(a, b[0], b[1..]);
      assert [b[0]] + b[1..] == b;
    }
  }

  /** Filtering keeps the original order. */
  lemma {:induction false} FilterIsSubsequence<T>(s: seq<T>, p: T -> bool)
    ensures IsSubsequence(Filter(s, p), s)
  {
    if s != [] {
      FilterIsSubsequence(s[1..], p);
      if p(s[0]) {
        assert Filter(s, p) == [s[0]] + Filter(s[1..], p);
        assert Filter(s, p)[1..] == Filter(s[1..], p);
      } else {
        assert Filter(s, p) == Filter(s[1..], p);
        SubsequenceExtend(Filter(s[1..], p), s[0], s[1..]);
        assert [s[0]] + s[1..] == s;
      }
    }
  }

  /** One step of a filter that starts part-way along a list. */
  lemma FilterFrom<T>(s: seq<T>, k: nat, p: T -> bool)
    requires k < |s|
    ensures Filter(s[k..], p) == (if p(s[k]) then [s[k]] else []) + Filter(s[k + 1..], p)
  {
    assert s[k..][1..] == s[k + 1..];
  }

  /** A filter passes over a prefix none of whose elements it keeps. */
  lemma {:induction false} FilterSkip<T>(s: seq<T>, k: nat, p: T -> bool)
    requires k <= |s|
    requires forall i | 0 <= i < k :: !p(s[i])
    ensures Filter(s, p) == Filter(s[k..], p)
  {
    if k == 0 {
      assert s[0..] == s;
    } else {
      FilterSkip(s, k - 1, p);
      FilterFrom(s, k - 1, p);
    }
  }

  /** What a filter keeps of one element. */
  function Keep<T>(x: T, p: T -> bool): seq<T> { if p(x) then [x] else [] }

  /** A filter over a nine-element list, element by element. */
  lemma FilterNine<T>(s: seq<T>, p: T -> bool)
    requires |s| == 9
    ensures Filter(s, p) == Keep(s[0], p) + (Keep(s[1], p) + (Keep(s[2], p) + (Keep(s[3], p) + (Keep(s[4], p)
                            + (Keep(s[5], p) + (Keep(s[6], p) + (Keep(s[7], p) + Keep(s[8], p))))))))
  {
    var t8 := Keep(s[8], p);
    assert Filter(s[8..], p) == t8 by { FilterFrom(s, 8, p); assert s[9..] == []; }
    var t7 := Keep(s[7], p) + t8;
    assert Filter(s[7..], p) == t7 by { FilterFrom(s, 7, p); }
    var t6 := Keep(s[6], p) + t7;
    assert Filter(s[6..], p) == t6 by { FilterFrom(s, 6, p); }
    var t5 := Keep(s[5], p) + t6;
    assert Filter(s[5..], p) == t5 by { FilterFrom(s, 5, p); }
    var t4 := Keep(s[4], p) + t5;
    assert Filter(s[4..], p) == t4 by { FilterFrom(s, 4, p); }
    var t3 := Keep(s[3], p) + t4;
    assert Filter(s[3..], p) == t3 by { FilterFrom(s, 3, p); }
    var t2 := Keep(s[2], p) + t3;
    assert Filter(s[2..], p) == t2 by { FilterFrom(s, 2, p); }
    var t1 := Keep(s[1], p) + t2;
    assert Filter(s[1..], p) == t1 by { FilterFrom(s, 1, p); }
    assert Filter(s, p) == Keep(s[0], p) + t1 by { FilterFrom(s, 0, p); assert s[0..] == s; }
  }

  /** A filter keeps every copy of an element it keeps: each kept value occurs as often as in
      the list, and every other value not at all. */
  lemma {:induction false} FilterMultiset<T>(s: seq<T>, p: T -> bool)
    ensures forall x :: multiset(Filter(s, p))[x] == if p(x) then multiset(s)[x] else 0
  {
    if s != [] {
      FilterMultiset(s[1..], p);
      assert s == [s[0]] + s[1..];
      assert Filter(s, p) == (if p(s[0]) then [s[0]] else []) + Filter(s[1..], p);
    }
  }

  /** Filtering distributes over concatenation. */
  lemma {:induction false} FilterConcat<T>(a: seq<T>, b: seq<T>, p: T -> bool)
    ensures Filter(a + b, p) == Filter(a, p) + Filter(b, p)
  {
    if a != [] {
      FilterConcat(a[1..], b, p);
      assert (a + b)[0] == a[0];
      assert (a + b)[1..] == a[1..] + b;
      assert Filter(a + b, p) == (if p(a[0]) then [a[0]] else []) + Filter(a[1..] + b, p);
    } else {
      assert a + b == b;
    }
  }

  /** Filtering a one-element list keeps the element exactly when it satisfies the condition. */
  lemma FilterSingleton<T>(x: T, p: T -> bool)
    ensures Filter([x], p) == if p(x) then [x] else []
  {
    assert [x][1..] == [];
  }

  /** A filter that keeps every element is the identity. */
  lemma {:induction false} FilterAll<T>(s: seq<T>, p: T -> bool)
    requires forall i :: 0 <= i < |s| ==> p(s[i])
    ensures Filter(s, p) == s
  {
    if s != [] {
      FilterAll(s[1..], p);
      assert s == [s[0]] + s[1..];
    }
  }

  /** A filter and its complement split a list: their lengths add up, and so do their contents. */
  lemma {:induction false} FilterComplement<T>(s: seq<T>, p: T -> bool, q: T -> bool)
    requires forall i :: 0 <= i < |s| ==> q(s[i]) == !p(s[i])
    ensures |Filter(s, p)| + |Filter(s, q)| == |s|
    ensures multiset(Filter(s, p)) + multiset(Filter(s, q)) == multiset(s)
  {
    if s != [] {
      FilterComplement(s[1..], p, q);
      assert s == [s[0]] + s[1..];
    }
  }

  /** Two filters whose conditions never hold together count at most the whole list. */
  lemma {:induction false} FilterDisjoint<T>(s: seq<T>, p: T -> bool, q: T -> bool)
    requires forall i :: 0 <= i < |s| ==> !(p(s[i]) && q(s[i]))
    ensures |Filter(s, p)| + |Filter(s, q)| <= |s|
  {
    if s != [] {
      FilterDisjoint(s[1..], p, q);
    }
  }

  /** A filter by "either of two exclusive conditions" counts the two filters together. */
  lemma {:induction false} FilterEither<T>(s: seq<T>, p: T -> bool, q: T -> bool, pq: T -> bool)
    requires forall i :: 0 <= i < |s| ==> !(p(s[i]) && q(s[i]))
    requires forall i :: 0 <= i < |s| ==> pq(s[i]) == (p(s[i]) || q(s[i]))
    ensures |Filter(s, pq)| == |Filter(s, p)| + |Filter(s, q)|
  {
    if s != [] {
      FilterEither(s[1..], p, q, pq);
    }
  }

  /** Filtering by two conditions at once that are the same on the list gives the same list. */
  lemma {:induction false} FilterSame<T>(s: seq<T>, p: T -> bool, q: T -> bool)
    requires forall i :: 0 <= i < |s| ==> p(s[i]) == q(s[i])
    ensures Filter(s, p) == Filter(s, q)
  {
    if s != [] {
      FilterSame(s[1..], p, q);
    }
  }
}
