/** The decoded repository list of `Pokemon::search` and its ordering by star count. */
module Repos {
  import opened Base

  /** One element of the GitHub repository listing, as decoded by serde. */
  datatype Repo = Repo(name: string, description: Option<string>, stars: u16)

  /** Non-increasing in star count: the order the comparator
      `b.stargazers_count.cmp(&a.stargazers_count)` asks for. */
  ghost predicate SortedByStars(s: seq<Repo>) {
    forall i, j :: 0 <= i < j < |s| ==> s[i].stars >= s[j].stars
  }

  /** The repositories of `s` that have exactly `k` stars, in the order `s` lists them. */
  function WithStars(s: seq<Repo>, k: int): seq<Repo> {
    if s == [] then []
    else (if s[0].stars == k then [s[0]] else []) + WithStars(s[1..], k)
  }

  /** `output` keeps the relative order `input` gives to every group of equal-star
      repositories (and, group by group, the same members). */
  ghost predicate Stable(input: seq<Repo>, output: seq<Repo>) {
    forall k :: WithStars(output, k) == WithStars(input, k)
  }

  /** `s[j]` is the first repository of `s` with the most stars. */
  ghost predicate FirstMostStarred(s: seq<Repo>, j: int) {
    && 0 <= j < |s|
    && (forall i :: 0 <= i < |s| ==> s[i].stars <= s[j].stars)
    && (forall i :: 0 <= i < j ==> s[i].stars < s[j].stars)
  }

  /** Places `x` in front of the first element with at most as many stars, so that it
      stays ahead of the equal-star elements that follow it in the input. */
  function Insert(x: Repo, s: seq<Repo>): (r: seq<Repo>)
    ensures |r| == |s| + 1
  {
    if s == [] || x.stars >= s[0].stars then [x] + s
    else [s[0]] + Insert(x, s[1..])
  }

  /** Stable insertion sort by descending star count: the effect of `slice::sort_by`
      with the comparator `b.stargazers_count.cmp(&a.stargazers_count)`. */
  function SortByStars(s: seq<Repo>): (r: seq<Repo>)
    ensures |r| == |s|
  {
    if s == [] then [] else Insert(s[0], SortByStars(s[1..]))
  }

  lemma {:induction false} InsertPermutes(x: Repo, s: seq<Repo>)
    ensures multiset(Insert(x, s)) == multiset{x} + multiset(s)
  {
    if s != [] && x.stars < s[0].stars {
      InsertPermutes(x, s[1..]);
      assert s == [s[0]] + s[1..];
    }
  }

  lemma {:induction false} InsertKeepsSorted(x: Repo, s: seq<Repo>)
    requires SortedByStars(s)
    ensures SortedByStars(Insert(x, s))
  {
    if s != [] && x.stars < s[0].stars {
      var t := s[1..];
      assert SortedByStars(t);
      InsertKeepsSorted(x, t);
      InsertPermutes(x, t);
      var r := Insert(x, t);
      forall j | 0 <= j < |r|
        ensures s[0].stars >= r[j].stars
      {
        assert r[j] in multiset(r);
        assert r[j] == x || r[j] in multiset(t);
        if r[j] != x {
          var m :| 0 <= m < |t| && t[m] == r[j];
          assert s[m + 1] == t[m];
        }
      }
    }
  }

  lemma {:induction false} InsertWithStars(x: Repo, s: seq<Repo>, k: int)
    ensures WithStars(Insert(x, s), k) == (if x.stars == k then [x] else []) + WithStars(s, k)
  {
    var own := if x.stars == k then [x] else [];
    if s == [] || x.stars >= s[0].stars {
      assert ([x] + s)[1..] == s;
      assert WithStars([x] + s, k) == own + WithStars(s, k);
    } else {
      var rest := Insert(x, s[1..]);
      var head := if s[0].stars == k then [s[0]] else [];
      InsertWithStars(x, s[1..], k);
      assert ([s[0]] + rest)[1..] == rest;
      assert WithStars([s[0]] + rest, k) == head + WithStars(rest, k);
      assert WithStars(s, k) == head + WithStars(s[1..], k);
      assert head == [] || own == [];
    }
  }

  /** The sorted list is non-increasing in star count. */
  lemma {:induction false} SortIsSorted(s: seq<Repo>)
    ensures SortedByStars(SortByStars(s))
  {
    if s != [] {
      SortIsSorted(s[1..]);
      InsertKeepsSorted(s[0], SortByStars(s[1..]));
    }
  }

  /** The sorted list is a permutation of the input. */
  lemma {:induction false} SortIsPermutation(s: seq<Repo>)
    ensures multiset(SortByStars(s)) == multiset(s)
  {
    if s != [] {
      SortIsPermutation(s[1..]);
      InsertPermutes(s[0], SortByStars(s[1..]));
      assert s == [s[0]] + s[1..];
    }
  }

  /** The sort is stable: repositories with equal star counts keep their input order. */
  lemma {:induction false} SortIsStable(s: seq<Repo>)
    ensures Stable(s, SortByStars(s))
  {
    if s != [] {
      SortIsStable(s[1..]);
      forall k ensures WithStars(SortByStars(s), k) == WithStars(s, k) {
        InsertWithStars(s[0], SortByStars(s[1..]), k);
      }
    }
  }

  lemma {:induction false} WithStarsMembers(s: seq<Repo>, k: int, x: Repo)
    ensures x in WithStars(s, k) <==> x in s && x.stars == k
  {
    if s != [] {
      WithStarsMembers(s[1..], k, x);
      assert s == [s[0]] + s[1..];
    }
  }

  /** A non-increasing arrangement that is stable with respect to the input is unique, so
      any stable descending sort (the library's `sort_by` included) yields `SortByStars`. */
  lemma {:induction false} StableSortIsUnique(a: seq<Repo>, b: seq<Repo>)
    requires SortedByStars(a) && SortedByStars(b)
    requires Stable(a, b)
    ensures a == b
  {
    if a != [] {
      assert WithStars(b, a[0].stars) == WithStars(a, a[0].stars) != [];
    }
    if b != [] {
      assert WithStars(a, b[0].stars) == WithStars(b, b[0].stars) != [];
    }
    if a == [] {
    } else {
      var ka, kb := a[0].stars, b[0].stars;
      assert b[0] in WithStars(b, kb);
      WithStarsMembers(a, kb, b[0]);
      assert ka >= kb;
      assert a[0] in WithStars(a, ka);
      WithStarsMembers(b, ka, a[0]);
      assert kb >= ka;
      assert WithStars(a, ka)[0] == a[0];
      assert WithStars(b, ka)[0] == b[0];
      assert WithStars(a, ka) == WithStars(b, ka);
      assert a[0] == b[0];
      forall k ensures WithStars(a[1..], k) == WithStars(b[1..], k) {
        var head := if a[0].stars == k then [a[0]] else [];
        assert WithStars(a, k) == head + WithStars(a[1..], k);
        assert WithStars(b, k) == head + WithStars(b[1..], k);
        assert WithStars(a, k) == WithStars(b, k);
        assert WithStars(a[1..], k) == (head + WithStars(a[1..], k))[|head|..];
        assert WithStars(b[1..], k) == (head + WithStars(b[1..], k))[|head|..];
      }
      StableSortIsUnique(a[1..], b[1..]);
      assert a == [a[0]] + a[1..];
      assert b == [b[0]] + b[1..];
    }
  }

  /** Every non-increasing, stable rearrangement of `s` is exactly `SortByStars(s)`. */
  lemma SortIsTheStableSort(s: seq<Repo>, t: seq<Repo>)
    requires SortedByStars(t) && Stable(s, t)
    ensures t == SortByStars(s)
  {
    SortIsSorted(s);
    SortIsStable(s);
    StableSortIsUnique(t, SortByStars(s));
  }

  lemma {:induction false} FirstWithStars(s: seq<Repo>, k: int)
    requires WithStars(s, k) != []
    ensures exists j ::
      && 0 <= j < |s| && s[j] == WithStars(s, k)[0] && s[j].stars == k
      && forall i :: 0 <= i < j ==> s[i].stars != k
  {
    if s[0].stars != k {
      FirstWithStars(s[1..], k);
      var j :| 0 <= j < |s[1..]| && s[1..][j] == WithStars(s[1..], k)[0] && s[1..][j].stars == k
        && forall i :: 0 <= i < j ==> s[1..][i].stars != k;
      assert s[j + 1] == WithStars(s, k)[0];
      forall i | 0 <= i < j + 1 ensures s[i].stars != k {
        if i > 0 { assert s[i] == s[1..][i - 1]; }
      }
    }
  }

  /** The head of the sorted list is the first repository of the input that has the most
      stars: its star count is the maximum, and it is the earliest such repository. */
  lemma SortHeadIsFirstMostStarred(s: seq<Repo>)
    requires |s| > 0
    ensures exists j :: FirstMostStarred(s, j) && SortByStars(s)[0] == s[j]
  {
    var t := SortByStars(s);
    var m := t[0].stars;
    SortIsSorted(s);
    SortIsPermutation(s);
    SortIsStable(s);
    assert WithStars(t, m)[0] == t[0];
    FirstWithStars(s, m);
    var j :| 0 <= j < |s| && s[j] == WithStars(s, m)[0] && s[j].stars == m
      && forall i :: 0 <= i < j ==> s[i].stars != m;
    forall i | 0 <= i < |s| ensures s[i].stars <= m {
      assert s[i] in multiset(t);
      var p :| 0 <= p < |t| && t[p] == s[i];
    }
    assert FirstMostStarred(s, j);
  }

  /** Equal-star repositories keep their input order: x(2), y(10), z(10) sorts to
      y(10), z(10), x(2). */
  lemma SortKeepsTiesInInputOrder()
    ensures var x, y, z := Repo("x", None, 2), Repo("y", None, 10), Repo("z", None, 10);
      SortByStars([x, y, z]) == [y, z, x]
  {
    var x, y, z := Repo("x", None, 2), Repo("y", None, 10), Repo("z", None, 10);
    assert [z][1..] == [];
    assert SortByStars([z]) == [z];
    assert [y, z][1..] == [z];
    assert SortByStars([y, z]) == [y, z];
    assert [x, y, z][1..] == [y, z];
    assert Insert(x, [z]) == [z, x] by { assert [z][1..] == []; }
    assert Insert(x, [y, z]) == [y, z, x] by { assert [y, z][1..] == [z]; }
  }
}
