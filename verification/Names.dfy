/** Names compared without regard to case, and address lists kept sorted and free of duplicates. */
module Names {

  function LowerChar(c: char): char {
    if 'A' <= c <= 'Z' then c - 'A' + 'a' else c
  }

  function Lower(name: string): (lower: string)
    ensures |lower| == |name|
  {
    seq(|name|, i requires 0 <= i < |name| => LowerChar(name[i]))
  }

  /** The same letter, small or capital, or the same character. */
  predicate SameLetter(a: char, b: char) {
    || a == b
    || ('A' <= a <= 'Z' && b as int == a as int + 32)
    || ('A' <= b <= 'Z' && a as int == b as int + 32)
  }

  /** Lowering leaves no capitals, and makes two names equal exactly if they differ in case only. */
  lemma LowerIgnoresCase(a: string, b: string)
    ensures forall i :: 0 <= i < |a| ==> !('A' <= Lower(a)[i] <= 'Z') && SameLetter(a[i], Lower(a)[i])
    ensures Lower(a) == Lower(b) <==> |a| == |b| && forall i :: 0 <= i < |a| ==> SameLetter(a[i], b[i])
  {
    if Lower(a) == Lower(b) {
      forall i | 0 <= i < |a|
        ensures SameLetter(a[i], b[i])
      {
        assert LowerChar(a[i]) == Lower(a)[i] == Lower(b)[i] == LowerChar(b[i]);
      }
    }
  }

  // The order of strings

  predicate AtMost(a: string, b: string) {
    if a == "" then true
    else if b == "" then false
    else if a[0] != b[0] then a[0] < b[0]
    else AtMost(a[1..], b[1..])
  }

  lemma {:induction false} AtMostIsTotal(a: string, b: string)
    ensures AtMost(a, b) || AtMost(b, a)
    ensures AtMost(a, b) && AtMost(b, a) ==> a == b
    decreases |a|
  {
    if a != "" && b != "" {
      AtMostIsTotal(a[1..], b[1..]);
      if a[0] == b[0] {
        assert a == [a[0]] + a[1..] && b == [b[0]] + b[1..];
      }
    }
  }

  lemma {:induction false} AtMostIsTransitive(a: string, b: string, c: string)
    requires AtMost(a, b) && AtMost(b, c)
    ensures AtMost(a, c)
    decreases |a|
  {
    if a != "" && a[0] == b[0] == c[0] {
      AtMostIsTransitive(a[1..], b[1..], c[1..]);
    }
  }

  // Sorted lists

  ghost predicate Sorted(list: seq<string>) {
    forall i, j :: 0 <= i < j < |list| ==> AtMost(list[i], list[j])
  }

  ghost predicate Distinct(list: seq<string>) {
    forall i, j :: 0 <= i < j < |list| ==> list[i] != list[j]
  }

  /** The lists of addresses the program keeps. */
  ghost predicate Ascending(list: seq<string>) {
    Sorted(list) && Distinct(list)
  }

  function Insert(x: string, list: seq<string>): (longer: seq<string>)
    ensures multiset(longer) == multiset(list) + multiset{x}
  {
    if list == [] || AtMost(x, list[0]) then [x] + list
    else
      assert list == [list[0]] + list[1..];
      [list[0]] + Insert(x, list[1..])
  }

  function Sort(list: seq<string>): (sorted: seq<string>)
    ensures multiset(sorted) == multiset(list)
  {
    if list == [] then []
    else
      assert list == list[..|list| - 1] + [list[|list| - 1]];
      Insert(list[|list| - 1], Sort(list[..|list| - 1]))
  }

  lemma {:induction false} InsertSorts(x: string, list: seq<string>)
    requires Sorted(list)
    ensures Sorted(Insert(x, list))
    decreases |list|
  {
    if list != [] {
      AtMostIsTotal(x, list[0]);
      if AtMost(x, list[0]) {
        forall i | 0 <= i < |list|
          ensures AtMost(x, list[i])
        {
          if i > 0 {
            AtMostIsTransitive(x, list[0], list[i]);
          }
        }
      } else {
        InsertSorts(x, list[1..]);
        var tail := Insert(x, list[1..]);
        forall i | 0 <= i < |tail|
          ensures AtMost(list[0], tail[i])
        {
          assert tail[i] in multiset(tail);
          assert tail[i] == x || tail[i] in list[1..];
        }
      }
    }
  }

  lemma {:induction false} SortSorts(list: seq<string>)
    ensures Sorted(Sort(list))
    decreases |list|
  {
    if list != [] {
      SortSorts(list[..|list| - 1]);
      InsertSorts(list[|list| - 1], Sort(list[..|list| - 1]));
    }
  }

  lemma DistinctByCount(list: seq<string>)
    ensures Distinct(list) <==> forall x :: multiset(list)[x] <= 1
  {
    if Distinct(list) {
      forall x ensures multiset(list)[x] <= 1 {
        CountInDistinct(list, x);
      }
    } else {
      var i, j :| 0 <= i < j < |list| && list[i] == list[j];
      var front, back := list[..j], list[j..];
      assert list == front + back;
      assert front[i] in front && back[0] in back;
      assert multiset(list) == multiset(front) + multiset(back);
      assert multiset(front)[list[i]] >= 1 && multiset(back)[list[i]] >= 1;
      assert multiset(list)[list[i]] >= 2;
    }
  }

  lemma {:induction false} CountInDistinct(list: seq<string>, x: string)
    requires Distinct(list)
    ensures multiset(list)[x] <= 1
    decreases |list|
  {
    if list != [] {
      assert list == [list[0]] + list[1..];
      CountInDistinct(list[1..], x);
      if list[0] == x {
        assert x !in list[1..];
        assert multiset(list[1..])[x] == 0;
      }
    }
  }

  lemma SortKeeps(list: seq<string>)
    ensures forall x :: x in Sort(list) <==> x in list
    ensures Distinct(list) ==> Ascending(Sort(list))
  {
    forall x
      ensures x in Sort(list) <==> x in list
    {
      assert x in list <==> x in multiset(list);
      assert x in Sort(list) <==> x in multiset(Sort(list));
    }
    SortSorts(list);
    DistinctByCount(list);
    DistinctByCount(Sort(list));
  }

  lemma NonemptyHolds(list: seq<string>)
    ensures list != [] ==> exists x :: x in list
  {
    if list != [] {
      assert list[0] in list;
    }
  }

  /** An ascending list is determined by what it contains. */
  lemma {:induction false} AscendingIsDetermined(a: seq<string>, b: seq<string>)
    requires Ascending(a) && Ascending(b) && forall x :: x in a <==> x in b
    ensures a == b
    decreases |a|
  {
    if a == [] {
      NonemptyHolds(b);
    } else {
      assert a[0] in b && b[0] in a;
      AtMostIsTotal(a[0], b[0]);
      assert a[0] == b[0];
      forall x
        ensures x in a[1..] <==> x in b[1..]
      {
        assert x in a[1..] <==> x in a && x != a[0] by { assert a == [a[0]] + a[1..]; }
        assert x in b[1..] <==> x in b && x != b[0] by { assert b == [b[0]] + b[1..]; }
      }
      AscendingIsDetermined(a[1..], b[1..]);
      assert a == [a[0]] + a[1..] && b == [b[0]] + b[1..];
    }
  }

  // Merging address lists

  /** The addresses not there yet are appended. */
  function AppendNew(target: seq<string>, source: seq<string>): seq<string> {
    if source == [] then target
    else
      var front, last := AppendNew(target, source[..|source| - 1]), source[|source| - 1];
      if last in front then front else front + [last]
  }

  function MergedAddresses(target: seq<string>, source: seq<string>): seq<string> {
    Sort(AppendNew(target, source))
  }

  lemma {:induction false} AppendNewKeeps(target: seq<string>, source: seq<string>)
    ensures forall x :: x in AppendNew(target, source) <==> x in target || x in source
    ensures Distinct(target) ==> Distinct(AppendNew(target, source))
    decreases |source|
  {
    if source != [] {
      AppendNewKeeps(target, source[..|source| - 1]);
      assert source == source[..|source| - 1] + [source[|source| - 1]];
    }
  }

  /** Merging gives the ascending list of the union. */
  lemma MergedIsUnion(target: seq<string>, source: seq<string>)
    ensures forall x :: x in MergedAddresses(target, source) <==> x in target || x in source
    ensures Distinct(target) ==> Ascending(MergedAddresses(target, source))
  {
    AppendNewKeeps(target, source);
    SortKeeps(AppendNew(target, source));
  }

  method MergeAddresses(target: seq<string>, source: seq<string>) returns (merged: seq<string>)
    ensures merged == MergedAddresses(target, source)
  {
    merged := target;
    for i := 0 to |source|
      invariant merged == AppendNew(target, source[..i])
    {
      assert source[..i + 1][..i] == source[..i];
      if source[i] !in merged {
        merged := merged + [source[i]];
      }
    }
    assert source[..|source|] == source;
    merged := Sort(merged);
  }
}
