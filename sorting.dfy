/**
 * `sorted(words, key=str.upper)`: a stable ascending sort of strings that
 * compares their upper-cased forms with Python's string `<`.
 *
 * The sort is written as an insertion sort. What makes it Python's `sorted`
 * is not the algorithm but the result: it is ascending by key, and among
 * words with the same key it keeps their original order. `SortIsUnique`
 * shows those two facts pin the result down, so any stable sort gives it.
 */
module Sorting {
  import opened Text

  /** The sort key: `str.upper`, on ASCII. */
  function Key(w: string): string {
    Upper(w)
  }

  /** Ascending by key: no later word has a key smaller than an earlier one. */
  predicate Sorted(s: seq<string>) {
    forall i, j :: 0 <= i < j < |s| ==> !Less(Key(s[j]), Key(s[i]))
  }

  /** The words of `s` whose key is `k`, in the order `s` has them. */
  function WithKey(s: seq<string>, k: string): (r: seq<string>)
    ensures |r| <= |s|
    ensures forall i :: 0 <= i < |r| ==> Key(r[i]) == k
    decreases |s|
  {
    if |s| == 0 then []
    else (if Key(s[0]) == k then [s[0]] else []) + WithKey(s[1..], k)
  }

  /** `r` keeps the relative order of every group of equal-key words of `s`. */
  ghost predicate Stable(r: seq<string>, s: seq<string>) {
    forall k :: WithKey(r, k) == WithKey(s, k)
  }

  /** Insert `w` in front of the first word whose key is not smaller than
      its own, which keeps `w` ahead of the equal-key words after it. */
  function Insert(w: string, s: seq<string>): (r: seq<string>)
    decreases |s|
  {
    if |s| == 0 then [w]
    else if Less(Key(s[0]), Key(w)) then
      [s[0]] + Insert(w, s[1..])
    else
      [w] + s
  }

  /** Inserting adds exactly `w`: the result is a rearrangement of `s` and `w`. */
  lemma {:induction false} InsertPermutes(w: string, s: seq<string>)
    ensures multiset(Insert(w, s)) == multiset(s) + multiset{w}
    decreases |s|
  {
    if |s| > 0 && Less(Key(s[0]), Key(w)) {
      InsertPermutes(w, s[1..]);
      HeadTail(s);
      assert multiset(s) == multiset{s[0]} + multiset(s[1..]);
    }
  }

  /** Inserting into an ascending sequence keeps it ascending. */
  lemma {:induction false} InsertSorted(w: string, s: seq<string>)
    requires Sorted(s)
    ensures Sorted(Insert(w, s))
    decreases |s|
  {
    if |s| > 0 && Less(Key(s[0]), Key(w)) {
      var tail := Insert(w, s[1..]);
      assert Insert(w, s) == [s[0]] + tail;
      assert Sorted(s[1..]);
      InsertSorted(w, s[1..]);
      InsertPermutes(w, s[1..]);
      forall j | 0 <= j < |tail|
        ensures !Less(Key(tail[j]), Key(s[0]))
      {
        assert tail[j] in multiset(s[1..]) + multiset{w};
        if tail[j] == w {
          LessAsymmetric(Key(s[0]), Key(w));
        } else {
          var i :| 0 <= i < |s[1..]| && s[1..][i] == tail[j];
          assert s[i + 1] == tail[j];
        }
      }
      SortedCons(s[0], tail);
    } else if |s| > 0 {
      assert Insert(w, s) == [w] + s;
      forall j | 0 <= j < |s| ensures !Less(Key(s[j]), Key(w)) {
        if j > 0 { NotLessTransitive(Key(w), Key(s[0]), Key(s[j])); }
      }
      SortedCons(w, s);
    }
  }

  /** A word no greater than anything in an ascending sequence can lead it. */
  lemma SortedCons(w: string, s: seq<string>)
    requires Sorted(s)
    requires forall j :: 0 <= j < |s| ==> !Less(Key(s[j]), Key(w))
    ensures Sorted([w] + s)
  {
    var r := [w] + s;
    forall i, j | 0 <= i < j < |r| ensures !Less(Key(r[j]), Key(r[i])) {
      assert r[j] == s[j - 1];
      if i > 0 { assert r[i] == s[i - 1]; }
    }
  }

  /** The stable ascending sort. */
  function Sort(s: seq<string>): (r: seq<string>)
    decreases |s|
  {
    if |s| == 0 then [] else Insert(s[0], Sort(s[1..]))
  }

  /** The sort's result is ascending by key. */
  lemma {:induction false} SortSorted(s: seq<string>)
    ensures Sorted(Sort(s))
    decreases |s|
  {
    if |s| > 0 {
      SortSorted(s[1..]);
      InsertSorted(s[0], Sort(s[1..]));
    }
  }

  /** The sort's result is a rearrangement of its input: every word is kept,
      as many times as it occurs, and nothing is added. */
  lemma {:induction false} SortPermutes(s: seq<string>)
    ensures multiset(Sort(s)) == multiset(s)
    ensures |Sort(s)| == |s|
    decreases |s|
  {
    if |s| > 0 {
      SortPermutes(s[1..]);
      InsertPermutes(s[0], Sort(s[1..]));
      HeadTail(s);
      assert multiset(s) == multiset{s[0]} + multiset(s[1..]);
      assert |Sort(s)| == |multiset(Sort(s))|;
    }
  }

  lemma {:induction false} WithKeyAppend(a: seq<string>, b: seq<string>, k: string)
    ensures WithKey(a + b, k) == WithKey(a, k) + WithKey(b, k)
    decreases |a|
  {
    if |a| > 0 {
      WithKeyAppend(a[1..], b, k);
      assert (a + b)[1..] == a[1..] + b;
    } else {
      assert a + b == b;
    }
  }

  /** Inserting `w` only passes words whose key differs from its own. */
  lemma {:induction false} InsertWithKey(w: string, s: seq<string>, k: string)
    ensures WithKey(Insert(w, s), k) == (if Key(w) == k then [w] else []) + WithKey(s, k)
    decreases |s|
  {
    var hw := if Key(w) == k then [w] else [];
    if |s| > 0 && Less(Key(s[0]), Key(w)) {
      var tail := Insert(w, s[1..]);
      var h0 := if Key(s[0]) == k then [s[0]] else [];
      assert Insert(w, s) == [s[0]] + tail;
      InsertWithKey(w, s[1..], k);
      assert WithKey(tail, k) == hw + WithKey(s[1..], k);
      WithKeyAppend([s[0]], tail, k);
      assert WithKey([s[0]], k) == h0;
      WithKeyAppend([s[0]], s[1..], k);
      HeadTail(s);
      LessIrreflexive(Key(w));
      SwapEmpty(h0, hw, WithKey(s[1..], k));
    } else {
      assert Insert(w, s) == [w] + s;
      WithKeyAppend([w], s, k);
    }
  }

  /** The sort is stable: equal-key words keep their original order. */
  lemma {:induction false} SortStable(s: seq<string>)
    ensures Stable(Sort(s), s)
  {
    forall k ensures WithKey(Sort(s), k) == WithKey(s, k) {
      SortWithKey(s, k);
    }
  }

  lemma {:induction false} SortWithKey(s: seq<string>, k: string)
    ensures WithKey(Sort(s), k) == WithKey(s, k)
    decreases |s|
  {
    if |s| > 0 {
      SortWithKey(s[1..], k);
      InsertWithKey(s[0], Sort(s[1..]), k);
    }
  }

  /** Two ascending sequences that agree on every equal-key group are equal.
      So ascending-and-stable describes exactly one result. */
  lemma {:induction false} SortedStableUnique(a: seq<string>, b: seq<string>)
    requires Sorted(a) && Sorted(b)
    requires forall k :: WithKey(a, k) == WithKey(b, k)
    ensures a == b
    decreases |a| + |b|
  {
    if |a| == 0 && |b| > 0 {
      WithKeyHead(b);
      assert false;
    } else if |a| > 0 && |b| == 0 {
      WithKeyHead(a);
      assert false;
    } else if |a| > 0 {
      var ka, kb := Key(a[0]), Key(b[0]);
      assert !Less(ka, kb) by { FirstIsLeast(b, a, ka); }
      assert !Less(kb, ka) by { FirstIsLeast(a, b, kb); }
      LessTotal(ka, kb);
      assert a[0] == b[0] by {
        assert WithKey(a, ka)[0] == a[0];
        assert WithKey(b, ka)[0] == b[0];
      }
      forall k ensures WithKey(a[1..], k) == WithKey(b[1..], k) {
        var h := if Key(a[0]) == k then [a[0]] else [];
        assert WithKey(a, k) == h + WithKey(a[1..], k);
        assert WithKey(b, k) == h + WithKey(b[1..], k);
        assert WithKey(a[1..], k) == WithKey(a, k)[|h|..];
      }
      SortedStableUnique(a[1..], b[1..]);
      assert a == [a[0]] + a[1..] && b == [b[0]] + b[1..];
    }
  }

  /** In an ascending `s`, the first key is at most any key another sequence
      with the same groups contains. */
  lemma FirstIsLeast(s: seq<string>, t: seq<string>, k: string)
    requires Sorted(s) && |s| > 0 && |t| > 0
    requires forall k' :: WithKey(t, k') == WithKey(s, k')
    requires k == Key(t[0])
    ensures !Less(k, Key(s[0]))
  {
    WithKeyHead(t);
    assert WithKey(s, k) != [];
    var j := IndexWithKey(s, k);
    if j > 0 {
      assert !Less(Key(s[j]), Key(s[0]));
    } else {
      LessIrreflexive(k);
    }
  }

  /** The first word of `s` is in its own group. */
  lemma WithKeyHead(s: seq<string>)
    requires |s| > 0
    ensures WithKey(s, Key(s[0])) != []
    ensures WithKey(s, Key(s[0]))[0] == s[0]
  {
  }

  /** A non-empty group has a member in `s`. */
  lemma {:induction false} IndexWithKey(s: seq<string>, k: string) returns (j: nat)
    requires WithKey(s, k) != []
    ensures j < |s| && Key(s[j]) == k
    decreases |s|
  {
    if Key(s[0]) == k {
      j := 0;
    } else {
      var i := IndexWithKey(s[1..], k);
      j := i + 1;
    }
  }

  /** Any ascending, stable rearrangement of `s` is `Sort(s)`: the model
      agrees with every stable sort, Python's timsort included. */
  lemma SortIsUnique(s: seq<string>, r: seq<string>)
    requires Sorted(r) && Stable(r, s)
    ensures r == Sort(s)
  {
    SortStable(s);
    SortSorted(s);
    SortedStableUnique(r, Sort(s));
  }
}
