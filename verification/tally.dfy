/**
 * The "top violation types" chart of `pages/admin/AdminDashboard.tsx`: every
 * label of every report is counted in a `typeCount` record, whose keys are
 * then listed, sorted by descending count and cut to the first five.
 */
module TypeTally {
  import opened Seqs
  import opened Types

  /** One bar of the chart: a violation label and how often it was reported. */
  datatype TypeCount = TypeCount(name: string, count: nat)

  function Name(e: TypeCount): string { e.name }

  function NameIs(x: string): TypeCount -> bool {
    (e: TypeCount) => e.name == x
  }

  function Names(t: seq<TypeCount>): (ns: seq<string>)
    ensures |ns| == |t|
    ensures forall i :: 0 <= i < |t| ==> ns[i] == t[i].name
  {
    seq(|t|, i requires 0 <= i < |t| => t[i].name)
  }

  /** Every label of every report, in the order the nested `forEach` visits them. */
  function Labels(reports: seq<Report>): seq<string> {
    if |reports| == 0 then [] else reports[0].violationTypes + Labels(reports[1..])
  }

  /** A label occurs among the labels exactly when some report carries it. */
  lemma {:induction false} LabelsMembers(reports: seq<Report>, x: string)
    ensures x in Labels(reports) <==> exists i :: 0 <= i < |reports| && x in reports[i].violationTypes
    decreases |reports|
  {
    if |reports| > 0 {
      LabelsMembers(reports[1..], x);
      if exists i :: 0 <= i < |reports| && x in reports[i].violationTypes {
        var i :| 0 <= i < |reports| && x in reports[i].violationTypes;
        if i > 0 {
          assert reports[1..][i - 1] == reports[i];
        }
      }
      if exists i :: 0 <= i < |reports[1..]| && x in reports[1..][i].violationTypes {
        var i :| 0 <= i < |reports[1..]| && x in reports[1..][i].violationTypes;
        assert reports[i + 1] == reports[1..][i];
      }
    }
  }

  // ----- typeCount -----

  /**
   * What the `typeCount` record holds, listed in key order: one entry per
   * distinct label, its count being the label's number of occurrences, with
   * the keys in order of first occurrence (the order `Object.keys` gives for
   * keys that are not array indices).
   */
  ghost predicate IsTallyOf(t: seq<TypeCount>, labels: seq<string>) {
    && UniqueKeys(t, Name)
    && (forall i :: 0 <= i < |t| ==> t[i].count == Count(labels, Is(t[i].name)))
    && (forall x :: x in labels <==> x in Names(t))
    && (forall i, j :: 0 <= i < j < |t| ==> FindIndex(labels, Is(t[i].name)) < FindIndex(labels, Is(t[j].name)))
  }

  /** `typeCount[type] = (typeCount[type] || 0) + 1`. */
  function Bump(t: seq<TypeCount>, x: string): seq<TypeCount> {
    var k := FindIndex(t, NameIs(x));
    if k < 0 then t + [TypeCount(x, 1)] else t[k := TypeCount(x, t[k].count + 1)]
  }

  /** The `typeCount` record after counting `labels`, listed in key order. */
  function Tally(labels: seq<string>): (t: seq<TypeCount>)
    ensures IsTallyOf(t, labels)
    decreases |labels|
  {
    if |labels| == 0 then []
    else
      var init := labels[..|labels| - 1];
      var x := labels[|labels| - 1];
      assert labels == init + [x];
      BumpTally(Tally(init), init, x);
      Bump(Tally(init), x)
  }

  /** `FindIndex` is determined by its specification. */
  lemma {:induction false} FindIndexIs<T>(s: seq<T>, p: T -> bool, k: int)
    requires -1 <= k < |s|
    requires k >= 0 ==> p(s[k])
    requires forall j :: 0 <= j < |s| && (k < 0 || j < k) ==> !p(s[j])
    ensures FindIndex(s, p) == k
  {
  }

  /** Appending an element does not move the first occurrence of an element already present. */
  lemma {:induction false} FindIndexAppend<T>(s: seq<T>, x: T, p: T -> bool)
    requires FindIndex(s, p) >= 0
    ensures FindIndex(s + [x], p) == FindIndex(s, p)
  {
    var k := FindIndex(s, p);
    assert (s + [x])[k] == s[k];
    assert forall j :: 0 <= j < k ==> (s + [x])[j] == s[j];
    FindIndexIs(s + [x], p, k);
  }

  lemma {:induction false} CountAppend<T>(s: seq<T>, x: T, p: T -> bool)
    ensures Count(s + [x], p) == Count(s, p) + (if p(x) then 1 else 0)
  {
    CountConcat(s, [x], p);
    assert [x][1..] == [];
  }

  /** A label occurs in `s` exactly when it has a first occurrence. */
  lemma {:induction false} FindIndexMember(s: seq<string>, x: string)
    ensures FindIndex(s, Is(x)) >= 0 <==> x in s
  {
    if x in s {
      var i :| 0 <= i < |s| && s[i] == x;
      assert Is(x)(s[i]);
    }
  }

  /** Counting one more label keeps the record a tally. */
  lemma {:induction false} BumpTally(t: seq<TypeCount>, init: seq<string>, x: string)
    requires IsTallyOf(t, init)
    ensures IsTallyOf(Bump(t, x), init + [x])
  {
    var k := FindIndex(t, NameIs(x));
    if k >= 0 {
      assert Bump(t, x) == t[k := TypeCount(x, t[k].count + 1)];
      BumpFound(t, init, x, k);
    } else {
      assert Bump(t, x) == t + [TypeCount(x, 1)];
      NameAbsent(t, x);
      BumpNew(t, init, x);
    }
  }

  /** A name `find` misses is not among the names. */
  lemma {:induction false} NameAbsent(t: seq<TypeCount>, x: string)
    requires FindIndex(t, NameIs(x)) < 0
    ensures x !in Names(t)
  {
    forall i | 0 <= i < |t|
      ensures Names(t)[i] != x
    {
      assert !NameIs(x)(t[i]);
    }
  }

  lemma {:induction false} BumpFound(t: seq<TypeCount>, init: seq<string>, x: string, k: nat)
    requires IsTallyOf(t, init)
    requires k < |t| && t[k].name == x
    ensures IsTallyOf(t[k := TypeCount(x, t[k].count + 1)], init + [x])
  {
    var t' := t[k := TypeCount(x, t[k].count + 1)];
    var labels := init + [x];
    assert Names(t') == Names(t);
    assert x in init by {
      assert Names(t)[k] == x;
    }
    forall i | 0 <= i < |t'|
      ensures t'[i].count == Count(labels, Is(t'[i].name))
    {
      CountAppend(init, x, Is(t[i].name));
      if i != k {
        assert t[i].name != x;
      }
    }
    forall y | y in labels
      ensures y in init
    {
      var m :| 0 <= m < |labels| && labels[m] == y;
      if m < |init| {
        assert labels[m] == init[m];
      }
    }
    forall i | 0 <= i < |t|
      ensures FindIndex(labels, Is(t[i].name)) == FindIndex(init, Is(t[i].name))
    {
      assert Names(t)[i] in init;
      FindIndexMember(init, t[i].name);
      FindIndexAppend(init, x, Is(t[i].name));
    }
  }

  lemma {:induction false} BumpNew(t: seq<TypeCount>, init: seq<string>, x: string)
    requires IsTallyOf(t, init)
    requires x !in Names(t)
    ensures IsTallyOf(t + [TypeCount(x, 1)], init + [x])
  {
    var t' := t + [TypeCount(x, 1)];
    var labels := init + [x];
    assert Names(t') == Names(t) + [x];
    assert x !in init;
    forall i | 0 <= i < |t|
      ensures t[i].name != x
    {
      assert Names(t)[i] == t[i].name;
    }
    forall i | 0 <= i < |t'|
      ensures t'[i].count == Count(labels, Is(t'[i].name))
    {
      CountAppend(init, x, Is(t'[i].name));
      if i == |t| {
        CountNone(init, Is(x));
      }
    }
    forall y | y in labels
      ensures y in init || y == x
    {
      var m :| 0 <= m < |labels| && labels[m] == y;
      if m < |init| {
        assert labels[m] == init[m];
      }
    }
    forall i | 0 <= i < |t|
      ensures FindIndex(labels, Is(t[i].name)) == FindIndex(init, Is(t[i].name)) < |init|
    {
      assert Names(t)[i] in init;
      FindIndexMember(init, t[i].name);
      FindIndexAppend(init, x, Is(t[i].name));
    }
    assert FindIndex(labels, Is(x)) == |init| by {
      assert forall j :: 0 <= j < |init| ==> labels[j] == init[j] && !Is(x)(labels[j]);
      FindIndexIs(labels, Is(x), |init|);
    }
  }

  /** Sum of the counts of a tally. */
  function Total(t: seq<TypeCount>): nat {
    if |t| == 0 then 0 else t[0].count + Total(t[1..])
  }

  lemma {:induction false} TotalAppend(t: seq<TypeCount>, e: TypeCount)
    ensures Total(t + [e]) == Total(t) + e.count
    decreases |t|
  {
    if |t| > 0 {
      assert (t + [e])[1..] == t[1..] + [e];
      TotalAppend(t[1..], e);
    }
  }

  lemma {:induction false} TotalUpdate(t: seq<TypeCount>, k: nat, e: TypeCount)
    requires k < |t|
    ensures Total(t[k := e]) == Total(t) - t[k].count + e.count
    decreases |t|
  {
    if k > 0 {
      assert t[k := e][1..] == t[1..][k - 1 := e];
      TotalUpdate(t[1..], k - 1, e);
    }
  }

  /** The counts of the record add up to the number of labels counted. */
  lemma {:induction false} TallyTotal(labels: seq<string>)
    ensures Total(Tally(labels)) == |labels|
    decreases |labels|
  {
    if |labels| > 0 {
      var init := labels[..|labels| - 1];
      var x := labels[|labels| - 1];
      assert Tally(labels) == Bump(Tally(init), x);
      TallyTotal(init);
      TotalBump(Tally(init), x);
    }
  }

  lemma {:induction false} TotalBump(t: seq<TypeCount>, x: string)
    ensures Total(Bump(t, x)) == Total(t) + 1
  {
    var k := FindIndex(t, NameIs(x));
    if k < 0 {
      TotalAppend(t, TypeCount(x, 1));
    } else {
      TotalUpdate(t, k, TypeCount(x, t[k].count + 1));
    }
  }

  /** Every entry of a tally counts at least one occurrence. */
  lemma {:induction false} TallyPositive(t: seq<TypeCount>, labels: seq<string>, i: nat)
    requires IsTallyOf(t, labels) && i < |t|
    ensures t[i].count >= 1
  {
    assert Names(t)[i] in labels;
    var m :| 0 <= m < |labels| && labels[m] == t[i].name;
    CountInfix(labels, m, m + 1, Is(t[i].name));
    assert labels[m..m + 1] == [labels[m]];
  }

  // ----- sort((a, b) => b.count - a.count).slice(0, 5) -----

  predicate Descending(s: seq<TypeCount>) {
    forall i, j :: 0 <= i < j < |s| ==> s[i].count >= s[j].count
  }

  function HasCount(c: nat): TypeCount -> bool {
    (e: TypeCount) => e.count == c
  }

  /** Puts `e` into a descending sequence after every entry with at least its count. */
  function Insert(s: seq<TypeCount>, e: TypeCount): (r: seq<TypeCount>)
    ensures |r| == |s| + 1
    ensures forall x :: x in r <==> x in s || x == e
  {
    if |s| == 0 then [e]
    else if s[0].count >= e.count then [s[0]] + Insert(s[1..], e)
    else [e] + s
  }

  /**
   * `Array.prototype.sort` with the comparator `b.count - a.count`: counts
   * descending, and, the sort being stable, entries with equal counts in
   * their original order (`SortDescending`, `SortPermutation`, `SortStable`).
   */
  function SortByCount(t: seq<TypeCount>): (r: seq<TypeCount>)
    ensures |r| == |t|
    ensures forall x :: x in r <==> x in t
    decreases |t|
  {
    if |t| == 0 then [] else Insert(SortByCount(t[..|t| - 1]), t[|t| - 1])
  }

  /** Inserting into a descending sequence keeps it descending; the head is the old head or the new entry. */
  lemma {:induction false} InsertDescending(s: seq<TypeCount>, e: TypeCount)
    requires Descending(s)
    ensures Descending(Insert(s, e))
    ensures Insert(s, e)[0] == e || (|s| > 0 && Insert(s, e)[0] == s[0])
    decreases |s|
  {
    if |s| > 0 && s[0].count >= e.count {
      var rest := Insert(s[1..], e);
      DescendingTailOf(s);
      InsertDescending(s[1..], e);
      assert |s[1..]| > 0 ==> s[1..][0] == s[1];
      DescendingConsOf(s[0], rest);
    } else if |s| > 0 {
      DescendingConsOf(e, s);
    }
  }

  lemma {:induction false} DescendingTailOf(s: seq<TypeCount>)
    requires Descending(s) && |s| > 0
    ensures Descending(s[1..])
  {
    forall i, j | 0 <= i < j < |s[1..]|
      ensures s[1..][i].count >= s[1..][j].count
    {
      assert s[1..][i] == s[i + 1] && s[1..][j] == s[j + 1];
    }
  }

  lemma {:induction false} DescendingConsOf(x: TypeCount, r: seq<TypeCount>)
    requires Descending(r)
    requires |r| > 0 ==> x.count >= r[0].count
    ensures Descending([x] + r)
  {
    var xr := [x] + r;
    forall i, j | 0 <= i < j < |xr|
      ensures xr[i].count >= xr[j].count
    {
      assert xr[j] == r[j - 1];
      if i > 0 {
        assert xr[i] == r[i - 1];
      }
    }
  }

  /** Inserting adds exactly the new entry. */
  lemma {:induction false} InsertPermutation(s: seq<TypeCount>, e: TypeCount)
    ensures multiset(Insert(s, e)) == multiset(s) + multiset{e}
    decreases |s|
  {
    if |s| > 0 && s[0].count >= e.count {
      InsertPermutation(s[1..], e);
      assert s == [s[0]] + s[1..];
    }
  }

  /** The sorted sequence is in descending count order. */
  lemma {:induction false} SortDescending(t: seq<TypeCount>)
    ensures Descending(SortByCount(t))
    decreases |t|
  {
    if |t| > 0 {
      SortDescending(t[..|t| - 1]);
      InsertDescending(SortByCount(t[..|t| - 1]), t[|t| - 1]);
    }
  }

  /** The sorted sequence is a permutation of its input. */
  lemma {:induction false} SortPermutation(t: seq<TypeCount>)
    ensures multiset(SortByCount(t)) == multiset(t)
    decreases |t|
  {
    if |t| > 0 {
      var init := t[..|t| - 1];
      var e := t[|t| - 1];
      var si := SortByCount(init);
      assert SortByCount(t) == Insert(si, e);
      SortPermutation(init);
      InsertPermutation(si, e);
      MultisetSnoc(t);
    }
  }

  lemma {:induction false} MultisetSnoc<T>(t: seq<T>)
    requires |t| > 0
    ensures multiset(t) == multiset(t[..|t| - 1]) + multiset{t[|t| - 1]}
  {
    assert t == t[..|t| - 1] + [t[|t| - 1]];
  }

  /** Inserting keeps the entries of each count in order, with the new one last. */
  lemma {:induction false} InsertStable(s: seq<TypeCount>, e: TypeCount, c: nat)
    requires Descending(s)
    ensures Filter(Insert(s, e), HasCount(c)) == Filter(s, HasCount(c)) + Filter([e], HasCount(c))
    decreases |s|
  {
    if |s| == 0 {
      assert Insert(s, e) == [e] && s + [e] == [e];
    } else if s[0].count >= e.count {
      DescendingTailOf(s);
      InsertStable(s[1..], e, c);
      InsertBehind(s, e, c);
    } else {
      assert Insert(s, e) == [e] + s;
      InsertFront(s, e, c);
    }
  }

  /** The step of `InsertStable` when `e` goes behind the head of `s`. */
  lemma {:induction false} InsertBehind(s: seq<TypeCount>, e: TypeCount, c: nat)
    requires |s| > 0 && s[0].count >= e.count
    requires Filter(Insert(s[1..], e), HasCount(c)) == Filter(s[1..], HasCount(c)) + Filter([e], HasCount(c))
    ensures Filter(Insert(s, e), HasCount(c)) == Filter(s, HasCount(c)) + Filter([e], HasCount(c))
  {
    var rest := Insert(s[1..], e);
    assert Insert(s, e) == [s[0]] + rest;
    FilterConsBoth(s[0], rest, s[1..], Filter([e], HasCount(c)), HasCount(c));
    assert [s[0]] + s[1..] == s;
  }

  /** An entry with a larger count than every entry of `s` commutes with `s` under a count filter. */
  lemma {:induction false} InsertFront(s: seq<TypeCount>, e: TypeCount, c: nat)
    requires Descending(s) && |s| > 0 && s[0].count < e.count
    ensures Filter([e] + s, HasCount(c)) == Filter(s, HasCount(c)) + Filter([e], HasCount(c))
  {
    var p := HasCount(c);
    FilterConcat([e], s, p);
    FilterOne(e, p);
    if c == e.count {
      assert forall i :: 0 <= i < |s| ==> s[i].count <= s[0].count;
      FilterNone(s, p);
    }
  }

  /** Stability: for every count, the entries with that count keep their relative order. */
  lemma {:induction false} SortStable(t: seq<TypeCount>, c: nat)
    ensures Filter(SortByCount(t), HasCount(c)) == Filter(t, HasCount(c))
    decreases |t|
  {
    if |t| > 0 {
      var init := t[..|t| - 1];
      var e := t[|t| - 1];
      var si := SortByCount(init);
      assert SortByCount(t) == Insert(si, e);
      SortStable(init, c);
      SortDescending(init);
      InsertStable(si, e, c);
      assert t == init + [e];
      FilterConcat(init, [e], HasCount(c));
    }
  }

  /** `Object.keys(typeCount).map(…).sort(…).slice(0, 5)`: the chart's bars. */
  function TopTypes(t: seq<TypeCount>): (r: seq<TypeCount>)
    ensures |r| == if |t| < 5 then |t| else 5
    ensures forall i :: 0 <= i < |r| ==> r[i] == SortByCount(t)[i]
  {
    Take(SortByCount(t), 5)
  }

  /**
   * The bars are at most five entries of the tally in descending count order,
   * as many as there are entries up to five, and an entry left off the chart
   * has a count no greater than any bar's.
   */
  lemma {:induction false} TopTypesFacts(t: seq<TypeCount>)
    ensures var r := TopTypes(t);
      && |r| == (if |t| < 5 then |t| else 5)
      && Descending(r)
      && (forall i :: 0 <= i < |r| ==> r[i] in t)
      && (forall e :: e in t && e !in r ==> forall i :: 0 <= i < |r| ==> r[i].count >= e.count)
  {
    var s := SortByCount(t);
    SortDescending(t);
    SortPermutation(t);
    PermutationMembers(s, t);
    TakeDescending(s, 5);
    TopBound(s, t, 5);
  }

  lemma {:induction false} TakeDescending(s: seq<TypeCount>, n: nat)
    requires Descending(s)
    ensures Descending(Take(s, n))
  {
  }

  /** Entries of `t` missing from the first `n` of its sorted permutation count no more than those. */
  lemma {:induction false} TopBound(s: seq<TypeCount>, t: seq<TypeCount>, n: nat)
    requires Descending(s)
    requires forall e :: e in t ==> e in s
    ensures var r := Take(s, n);
      forall e :: e in t && e !in r ==> forall i :: 0 <= i < |r| ==> r[i].count >= e.count
  {
    var r := Take(s, n);
    forall e, i | e in t && e !in r && 0 <= i < |r|
      ensures r[i].count >= e.count
    {
      var j :| 0 <= j < |s| && s[j] == e;
      PrefixOfDescending(s, r, i, j);
    }
  }

  /** A permutation has the same length and the same elements. */
  lemma {:induction false} PermutationMembers(s: seq<TypeCount>, t: seq<TypeCount>)
    requires multiset(s) == multiset(t)
    ensures |s| == |t|
    ensures forall i :: 0 <= i < |s| ==> s[i] in t
    ensures forall e :: e in t ==> e in s
  {
    assert |multiset(s)| == |multiset(t)|;
    forall i | 0 <= i < |s|
      ensures s[i] in t
    {
      assert s[i] in multiset(s);
    }
    forall e | e in t
      ensures e in s
    {
      assert e in multiset(t);
    }
  }

  /** In a descending sequence, an element outside a prefix counts no more than the prefix's elements. */
  lemma {:induction false} PrefixOfDescending(s: seq<TypeCount>, r: seq<TypeCount>, i: nat, j: nat)
    requires Descending(s) && |r| <= |s| && r == s[..|r|]
    requires i < |r| && j < |s| && s[j] !in r
    ensures r[i].count >= s[j].count
  {
    assert |r| <= j;
  }

  /** The chart for a report list: the tally of all labels, sorted, cut to five bars. */
  function TypeData(reports: seq<Report>): seq<TypeCount> {
    TopTypes(Tally(Labels(reports)))
  }

  /**
   * Each bar is a distinct label some report carries, with its number of
   * occurrences (at least one); and a label that some report carries but
   * that has no bar occurs no more often than any bar's label.
   */
  lemma {:induction false} TypeDataFacts(reports: seq<Report>)
    ensures var labels := Labels(reports); var r := TypeData(reports);
      && |r| <= 5
      && UniqueKeys(r, Name)
      && (forall i :: 0 <= i < |r| ==> r[i].name in labels && r[i].count == Count(labels, Is(r[i].name)) >= 1)
      && (forall x :: x in labels && x !in Names(r) ==>
            forall i :: 0 <= i < |r| ==> r[i].count >= Count(labels, Is(x)))
  {
    var labels := Labels(reports);
    var t := Tally(labels);
    TopTypesFacts(t);
    TopCounts(t, labels);
    TopUnique(t, labels);
    TopOmitted(t, labels);
  }

  /** Each bar's count is its label's number of occurrences, at least one. */
  lemma {:induction false} TopCounts(t: seq<TypeCount>, labels: seq<string>)
    requires IsTallyOf(t, labels)
    ensures var r := TopTypes(t);
      forall i :: 0 <= i < |r| ==> r[i].name in labels && r[i].count == Count(labels, Is(r[i].name)) >= 1
  {
    var r := TopTypes(t);
    TopTypesFacts(t);
    forall i | 0 <= i < |r|
      ensures r[i].name in labels && r[i].count == Count(labels, Is(r[i].name)) >= 1
    {
      var k :| 0 <= k < |t| && t[k] == r[i];
      assert Names(t)[k] == r[i].name;
      TallyPositive(t, labels, k);
    }
  }

  lemma {:induction false} TopUnique(t: seq<TypeCount>, labels: seq<string>)
    requires IsTallyOf(t, labels)
    ensures UniqueKeys(TopTypes(t), Name)
  {
    var r := TopTypes(t);
    forall i, j | 0 <= i < j < |r|
      ensures Name(r[i]) != Name(r[j])
    {
      TopDistinct(t, labels, r, i, j);
    }
  }

  /** A label without a bar occurs no more often than any bar's label. */
  lemma {:induction false} TopOmitted(t: seq<TypeCount>, labels: seq<string>)
    requires IsTallyOf(t, labels)
    ensures var r := TopTypes(t);
      forall x :: x in labels && x !in Names(r) ==> forall i :: 0 <= i < |r| ==> r[i].count >= Count(labels, Is(x))
  {
    var r := TopTypes(t);
    TopTypesFacts(t);
    forall x, i | x in labels && x !in Names(r) && 0 <= i < |r|
      ensures r[i].count >= Count(labels, Is(x))
    {
      assert x in Names(t);
      var k :| 0 <= k < |t| && Names(t)[k] == x;
      assert t[k] !in r by {
        forall m | 0 <= m < |r|
          ensures r[m] != t[k]
        {
          assert Names(r)[m] != x;
        }
      }
    }
  }

  /** Two bars are different entries of the tally, so they carry different labels. */
  lemma {:induction false} TopDistinct(t: seq<TypeCount>, labels: seq<string>, r: seq<TypeCount>, i: nat, j: nat)
    requires IsTallyOf(t, labels) && r == TopTypes(t)
    requires i < j < |r|
    ensures r[i].name != r[j].name
  {
    var s := SortByCount(t);
    SortPermutation(t);
    assert r[i] == s[i] && r[j] == s[j];
    assert s[i] in multiset(t) && s[j] in multiset(t);
    var a :| 0 <= a < |t| && t[a] == s[i];
    var b :| 0 <= b < |t| && t[b] == s[j];
    if a == b {
      SameEntrySamePlace(t, s, a, i, j);
    }
  }

  /** An entry that occurs once in a sequence occurs at one position of any permutation of it. */
  lemma {:induction false} SameEntrySamePlace(t: seq<TypeCount>, s: seq<TypeCount>, a: nat, i: nat, j: nat)
    requires UniqueKeys(t, Name) && multiset(s) == multiset(t)
    requires a < |t| && i <= j < |s| && s[i] == t[a] && s[j] == t[a]
    ensures i == j
  {
    if i < j {
      MultiplicityOfUnique(t, a);
      TwoCopies(s, i, j);
      assert false;
    }
  }

  lemma {:induction false} TwoCopies(s: seq<TypeCount>, i: nat, j: nat)
    requires i < j < |s| && s[i] == s[j]
    ensures multiset(s)[s[i]] >= 2
  {
    assert s == s[..i] + [s[i]] + s[i + 1..j] + [s[j]] + s[j + 1..];
  }

  lemma {:induction false} MultiplicityOfUnique(t: seq<TypeCount>, a: nat)
    requires UniqueKeys(t, Name) && a < |t|
    ensures multiset(t)[t[a]] <= 1
  {
    var x := t[a];
    assert x !in t[..a] by {
      forall k | 0 <= k < a
        ensures t[..a][k] != x
      {
        assert t[..a][k] == t[k] && Name(t[k]) != Name(t[a]);
      }
    }
    var u := t[a + 1..];
    assert x !in u by {
      forall k | 0 <= k < |u|
        ensures u[k] != x
      {
        assert u[k] == t[a + 1 + k] && Name(t[a]) != Name(t[a + 1 + k]);
      }
    }
    assert t == t[..a] + [x] + u;
  }
}
