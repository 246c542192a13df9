/** Facts about sequences, sorting and text order that several models share. */
module Lists {

  lemma Associate<T>(a: seq<T>, b: seq<T>, c: seq<T>)
    ensures a + (b + c) == a + b + c
  {
  }

  // ---------------------------------------------------------------- stable sorting

  /** What `sorted` needs of a comparison: keys are comparable and the comparison is transitive. */
  ghost predicate Comparison<T(!new)>(le: (T, T) -> bool) {
    && (forall a, b :: le(a, b) || le(b, a))
    && (forall a, b, c :: le(a, b) && le(b, c) ==> le(a, c))
  }

  ghost predicate SortedBy<T>(s: seq<T>, le: (T, T) -> bool) {
    forall i, j :: 0 <= i < j < |s| ==> le(s[i], s[j])
  }

  function Insert<T>(x: T, s: seq<T>, le: (T, T) -> bool): seq<T> {
    if s == [] || le(x, s[0]) then [x] + s else [s[0]] + Insert(x, s[1..], le)
  }

  /** Python's `sorted`, as insertion sort. */
  function Sort<T>(s: seq<T>, le: (T, T) -> bool): seq<T> {
    if s == [] then [] else Insert(s[0], Sort(s[1..], le), le)
  }

  lemma {:induction false} InsertPermutes<T>(x: T, s: seq<T>, le: (T, T) -> bool)
    ensures multiset(Insert(x, s, le)) == multiset(s) + multiset{x}
  {
    if s == [] || le(x, s[0]) {
      assert multiset([x] + s) == multiset([x]) + multiset(s);
    } else {
      InsertPermutes(x, s[1..], le);
      assert s == [s[0]] + s[1..];
    }
  }

  lemma {:induction false} InsertStaysAbove<T>(x: T, s: seq<T>, le: (T, T) -> bool, low: T)
    requires le(low, x) && forall j :: 0 <= j < |s| ==> le(low, s[j])
    ensures forall j :: 0 <= j < |Insert(x, s, le)| ==> le(low, Insert(x, s, le)[j])
  {
    if s != [] && !le(x, s[0]) {
      InsertStaysAbove(x, s[1..], le, low);
    }
  }

  lemma {:induction false} InsertSorts<T(!new)>(x: T, s: seq<T>, le: (T, T) -> bool)
    requires Comparison(le) && SortedBy(s, le)
    ensures SortedBy(Insert(x, s, le), le)
  {
    if s != [] {
      if le(x, s[0]) {
        forall j | 0 <= j < |s| ensures le(x, s[j]) {
          assert j == 0 || le(s[0], s[j]);
        }
      } else {
        InsertSorts(x, s[1..], le);
        InsertStaysAbove(x, s[1..], le, s[0]);
      }
    }
  }

  /** Sorting permutes, and the result is in order. */
  lemma {:induction false} SortSorts<T(!new)>(s: seq<T>, le: (T, T) -> bool)
    requires Comparison(le)
    ensures SortedBy(Sort(s, le), le)
    ensures multiset(Sort(s, le)) == multiset(s)
    ensures |Sort(s, le)| == |s|
  {
    if s != [] {
      SortSorts(s[1..], le);
      InsertSorts(s[0], Sort(s[1..], le), le);
      InsertPermutes(s[0], Sort(s[1..], le), le);
      assert s == [s[0]] + s[1..];
    }
    SameSize(Sort(s, le), s);
  }

  lemma SameSize<T>(s: seq<T>, t: seq<T>)
    requires multiset(s) == multiset(t)
    ensures |s| == |t|
  {
    assert |multiset(s)| == |s| && |multiset(t)| == |t|;
  }

  function Map<A, B>(s: seq<A>, f: A -> B): seq<B> {
    if s == [] then [] else Map(s[..|s| - 1], f) + [f(s[|s| - 1])]
  }

  lemma {:induction false} MapAt<A, B>(s: seq<A>, f: A -> B)
    ensures |Map(s, f)| == |s| && forall i :: 0 <= i < |s| ==> Map(s, f)[i] == f(s[i])
  {
    if s != [] {
      MapAt(s[..|s| - 1], f);
    }
  }

  lemma {:induction false} MapPrefix<A, B>(s: seq<A>, i: nat, f: A -> B)
    requires i <= |s|
    ensures |Map(s, f)| == |s| && Map(s[..i], f) == Map(s, f)[..i]
    decreases |s|
  {
    MapAt(s, f);
    if i < |s| {
      MapPrefix(s[..|s| - 1], i, f);
      assert s[..|s| - 1][..i] == s[..i];
    } else {
      assert s[..i] == s;
    }
  }

  lemma MapSnoc<A, B>(s: seq<A>, x: A, f: A -> B)
    ensures Map(s + [x], f) == Map(s, f) + [f(x)]
  {
    assert (s + [x])[..|s|] == s;
  }

  lemma {:induction false} MapAppend<A, B>(s: seq<A>, t: seq<A>, f: A -> B)
    ensures Map(s + t, f) == Map(s, f) + Map(t, f)
  {
    MapAt(s, f);
    MapAt(t, f);
    MapAt(s + t, f);
  }

  /** The parts, one after the other. */
  function Flatten<T>(parts: seq<seq<T>>): seq<T> {
    if parts == [] then [] else Flatten(parts[..|parts| - 1]) + parts[|parts| - 1]
  }

  lemma MapCons<A, B>(x: A, s: seq<A>, f: A -> B)
    ensures Map([x] + s, f) == [f(x)] + Map(s, f)
  {
    MapAt([x] + s, f);
    MapAt(s, f);
  }

  lemma {:induction false} InsertMaps<A(!new), B>(x: A, s: seq<A>, f: A -> B, le: (A, A) -> bool, le': (B, B) -> bool)
    requires forall a, b :: le(a, b) == le'(f(a), f(b))
    ensures Insert(f(x), Map(s, f), le') == Map(Insert(x, s, le), f)
  {
    if s == [] || le(x, s[0]) {
      MapCons(x, s, f);
      MapAt(s, f);
    } else {
      InsertMaps(x, s[1..], f, le, le');
      assert s == [s[0]] + s[1..];
      MapCons(s[0], s[1..], f);
      MapCons(s[0], Insert(x, s[1..], le), f);
    }
  }

  /** Sorting by a key commutes with computing the key first. */
  lemma {:induction false} SortMaps<A(!new), B>(s: seq<A>, f: A -> B, le: (A, A) -> bool, le': (B, B) -> bool)
    requires forall a, b :: le(a, b) == le'(f(a), f(b))
    ensures Sort(Map(s, f), le') == Map(Sort(s, le), f)
  {
    if s != [] {
      SortMaps(s[1..], f, le, le');
      assert s == [s[0]] + s[1..];
      MapCons(s[0], s[1..], f);
      InsertMaps(s[0], Sort(s[1..], le), f, le, le');
    }
  }

  lemma TailPermutes<T>(s: seq<T>, t: seq<T>)
    requires s != [] && t != [] && s[0] == t[0] && multiset(s) == multiset(t)
    ensures multiset(s[1..]) == multiset(t[1..])
  {
    assert s == [s[0]] + s[1..] && t == [t[0]] + t[1..];
    assert multiset(s[1..]) == multiset(s) - multiset{s[0]};
    assert multiset(t[1..]) == multiset(t) - multiset{t[0]};
  }

  /** A relation that never ties two different elements of `s`. */
  ghost predicate NoTies<T>(s: seq<T>, le: (T, T) -> bool) {
    && (forall a :: a in s ==> le(a, a))
    && forall a, b :: a in s && b in s && le(a, b) && le(b, a) ==> a == b
  }

  /** Elements that never tie have one sorted arrangement. */
  lemma {:induction false} SortedIsUnique<T>(s: seq<T>, t: seq<T>, le: (T, T) -> bool)
    requires SortedBy(s, le) && SortedBy(t, le) && multiset(s) == multiset(t) && NoTies(s, le)
    ensures s == t
  {
    PermutedElements(s, t);
    assert |multiset(s)| == |s| && |multiset(t)| == |t|;
    if s != [] {
      FirstIsUnique(s, t, le);
      TailPermutes(s, t);
      SortedIsUnique(s[1..], t[1..], le);
      assert s == [s[0]] + s[1..] && t == [t[0]] + t[1..];
    }
  }

  lemma FirstIsUnique<T>(s: seq<T>, t: seq<T>, le: (T, T) -> bool)
    requires SortedBy(s, le) && SortedBy(t, le) && Elements(s) == Elements(t) && NoTies(s, le) && s != [] && t != []
    ensures s[0] == t[0]
  {
    assert s[0] in Elements(t) && t[0] in Elements(s);
  }

  function Elements<T(==)>(s: seq<T>): set<T> { set x | x in s }

  lemma ElementsAppend<T>(s: seq<T>, t: seq<T>)
    ensures Elements(s + t) == Elements(s) + Elements(t)
  {
  }

  predicate Distinct<T(==)>(s: seq<T>) {
    forall i, j :: 0 <= i < j < |s| ==> s[i] != s[j]
  }

  lemma {:induction false} DistinctCounts<T>(s: seq<T>)
    ensures Distinct(s) <==> forall x :: x in multiset(s) ==> multiset(s)[x] == 1
  {
    if s != [] {
      var rest := s[1..];
      DistinctCounts(rest);
      assert s == [s[0]] + rest;
      assert multiset(s) == multiset{s[0]} + multiset(rest);
      if Distinct(s) {
        assert s[0] !in rest && Distinct(rest);
      } else {
        if s[0] in rest {
          assert multiset(s)[s[0]] >= 2;
        } else {
          var i, j :| 0 <= i < j < |s| && s[i] == s[j];
          assert !Distinct(rest) by { assert rest[i - 1] == rest[j - 1]; }
          var x :| x in multiset(rest) && multiset(rest)[x] != 1;
          assert x in multiset(s) && multiset(s)[x] >= multiset(rest)[x];
        }
      }
    }
  }

  /** A permutation of distinct elements is distinct. */
  lemma DistinctPermutes<T>(s: seq<T>, t: seq<T>)
    requires multiset(s) == multiset(t) && Distinct(s)
    ensures Distinct(t)
  {
    DistinctCounts(s);
    DistinctCounts(t);
  }

  /** A permutation has the same elements. */
  lemma PermutedElements<T>(s: seq<T>, t: seq<T>)
    requires multiset(s) == multiset(t)
    ensures Elements(s) == Elements(t)
  {
    forall x ensures x in s <==> x in t {
      assert x in s <==> x in multiset(s);
      assert x in t <==> x in multiset(t);
    }
  }

  // ---------------------------------------------------------------- text order

  /** Python's `<=` on strings: by code point, a proper prefix first. */
  predicate TextLe(a: string, b: string) {
    a == "" || (b != "" && (a[0] < b[0] || (a[0] == b[0] && TextLe(a[1..], b[1..]))))
  }

  lemma {:induction false} TextTotal(a: string, b: string)
    ensures TextLe(a, b) || TextLe(b, a)
    ensures TextLe(a, b) && TextLe(b, a) ==> a == b
  {
    if a != "" && b != "" {
      TextTotal(a[1..], b[1..]);
      assert a == [a[0]] + a[1..] && b == [b[0]] + b[1..];
    }
  }

  lemma {:induction false} TextTransitive(a: string, b: string, c: string)
    requires TextLe(a, b) && TextLe(b, c)
    ensures TextLe(a, c)
  {
    if a != "" && a[0] == b[0] == c[0] {
      TextTransitive(a[1..], b[1..], c[1..]);
    }
  }

  ghost predicate DiffersUpward(a: string, b: string, k: nat) {
    k < |a| && k < |b| && a[..k] == b[..k] && a[k] < b[k]
  }

  lemma DifferenceInTail(a: string, b: string, k: nat)
    requires a != "" && b != "" && a[0] == b[0]
    ensures DiffersUpward(a, b, k + 1) <==> DiffersUpward(a[1..], b[1..], k)
  {
    if k < |a| - 1 && k < |b| - 1 {
      assert a[..k + 1] == [a[0]] + a[1..][..k] && b[..k + 1] == [b[0]] + b[1..][..k];
      assert a[..k + 1][1..] == a[1..][..k] && b[..k + 1][1..] == b[1..][..k];
    }
  }

  lemma SameBefore(a: string, b: string, k: nat)
    requires DiffersUpward(a, b, k)
    ensures k > 0 ==> a[0] == b[0]
  {
    if k > 0 {
      assert a[0] == a[..k][0] && b[0] == b[..k][0];
    }
  }

  /** The order is decided at the first difference, or by length where there is none. */
  lemma {:induction false} FirstDifferenceDecides(a: string, b: string)
    ensures TextLe(a, b) <==> a <= b || exists k :: DiffersUpward(a, b, k)
  {
    if a != "" && b != "" {
      FirstDifferenceDecides(a[1..], b[1..]);
      assert a == [a[0]] + a[1..] && b == [b[0]] + b[1..];
      if k: nat :| DiffersUpward(a, b, k) {
        SameBefore(a, b, k);
        if k > 0 {
          DifferenceInTail(a, b, k - 1);
        }
      }
      if a[0] < b[0] {
        assert DiffersUpward(a, b, 0);
      } else if a[0] == b[0] {
        if k :| DiffersUpward(a[1..], b[1..], k) {
          DifferenceInTail(a, b, k);
        }
      }
    }
  }

  predicate TextLt(a: string, b: string) { TextLe(a, b) && a != b }
}
