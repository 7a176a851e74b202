/** The arithmetic of a schedule: shortest-first choices and slots per engine. */
module Packing {
  import opened SystemView

  // ---- Shortest first -----------------------------------------------------------

  predicate Ascending(tasks: seq<string>, size: string -> int) {
    forall i, j :: 0 <= i < j < |tasks| ==> size(tasks[i]) <= size(tasks[j])
  }

  function Total(tasks: seq<string>, size: string -> int): int {
    if tasks == [] then 0 else Total(tasks[..|tasks| - 1], size) + size(tasks[|tasks| - 1])
  }

  lemma {:induction false} TotalOfAppend(a: seq<string>, b: seq<string>, size: string -> int)
    ensures Total(a + b, size) == Total(a, size) + Total(b, size)
  {
    if b == [] {
      assert a + b == a;
    } else {
      TotalOfAppend(a, b[..|b| - 1], size);
      assert (a + b)[..|a + b| - 1] == a + b[..|b| - 1];
    }
  }

  lemma {:induction false} TotalWithout(s: seq<string>, i: nat, size: string -> int)
    requires i < |s|
    ensures Total(s, size) == size(s[i]) + Total(s[..i] + s[i + 1..], size)
    ensures multiset(s) == multiset(s[..i] + s[i + 1..]) + multiset{s[i]}
  {
    assert s == s[..i] + ([s[i]] + s[i + 1..]);
    assert [s[i]][..0] == [];
    TotalOfAppend(s[..i], [s[i]] + s[i + 1..], size);
    TotalOfAppend([s[i]], s[i + 1..], size);
    TotalOfAppend(s[..i], s[i + 1..], size);
    assert Total([s[i]], size) == size(s[i]);
  }

  lemma {:induction false} SubMultisetIsSmaller<T>(a: multiset<T>, b: multiset<T>)
    requires a <= b
    ensures |a| <= |b|
  {
    assert b == a + (b - a);
  }

  lemma {:induction false} SubMultisetWithout<T>(a: multiset<T>, b: multiset<T>, x: T)
    requires a <= b + multiset{x}
    ensures a - multiset{x} <= b
    ensures x !in a ==> a <= b
  {
    forall y ensures (a - multiset{x})[y] <= b[y] && (x !in a ==> a[y] <= b[y]) {
      assert a[y] <= (b + multiset{x})[y];
    }
  }

  lemma {:induction false} CheapestWithLast(sorted: seq<string>, choice: seq<string>, i: nat, size: string -> int)
    requires Ascending(sorted, size) && i < |choice| <= |sorted| && choice[i] == sorted[|sorted| - 1]
    requires Total(sorted[..|choice| - 1], size) <= Total(choice[..i] + choice[i + 1..], size)
    ensures Total(sorted[..|choice|], size) <= Total(choice, size)
  {
    TotalWithout(choice, i, size);
    assert sorted[..|choice|][..|choice| - 1] == sorted[..|choice| - 1];
  }

  lemma {:induction false} ChoiceIsShorter(sorted: seq<string>, choice: seq<string>)
    requires multiset(choice) <= multiset(sorted)
    ensures |choice| <= |sorted|
  {
    SubMultisetIsSmaller(multiset(choice), multiset(sorted));
  }

  /** The choice without one occurrence of the last task, if it has one. */
  lemma {:induction false} WithoutLast(sorted: seq<string>, choice: seq<string>)
    returns (i: nat, others: seq<string>)
    requires sorted != [] && multiset(choice) <= multiset(sorted)
    ensures i <= |choice|
    ensures i < |choice| ==> choice[i] == sorted[|sorted| - 1] && others == choice[..i] + choice[i + 1..]
    ensures i == |choice| ==> others == choice
    ensures multiset(others) <= multiset(sorted[..|sorted| - 1])
  {
    var rest, last := sorted[..|sorted| - 1], sorted[|sorted| - 1];
    assert sorted == rest + [last];
    SubMultisetWithout(multiset(choice), multiset(rest), last);
    if j :| 0 <= j < |choice| && choice[j] == last {
      i, others := j, choice[..j] + choice[j + 1..];
      TotalWithout(choice, j, t => 0);
      assert multiset(others) == multiset(choice) - multiset{last};
    } else {
      i, others := |choice|, choice;
    }
  }

  /** Any choice of as many of the tasks has at least the total size of the first ones in
      ascending order. */
  lemma {:induction false} PrefixIsCheapest(sorted: seq<string>, choice: seq<string>, size: string -> int)
    requires Ascending(sorted, size) && multiset(choice) <= multiset(sorted)
    ensures |choice| <= |sorted| && Total(sorted[..|choice|], size) <= Total(choice, size)
    decreases |sorted|
  {
    ChoiceIsShorter(sorted, choice);
    if choice != [] {
      var i, others := WithoutLast(sorted, choice);
      var rest := sorted[..|sorted| - 1];
      PrefixIsCheapest(rest, others, size);
      assert rest[..|others|] == sorted[..|others|];
      if i < |choice| { CheapestWithLast(sorted, choice, i, size); }
    }
  }

  // ---- Sums over finite maps ------------------------------------------------------

  ghost function SumOf(m: map<string, int>): int
    decreases |m|
  {
    if m == map[] then 0
    else
      var k :| k in m;
      m[k] + SumOf(m - {k})
  }

  lemma {:induction false} SumPicks(m: map<string, int>, k: string)
    requires k in m
    ensures SumOf(m) == m[k] + SumOf(m - {k})
    decreases |m|
  {
    var l :| l in m && SumOf(m) == m[l] + SumOf(m - {l});
    if l != k {
      SumPicks(m - {l}, k);
      SumPicks(m - {k}, l);
      assert m - {l} - {k} == m - {k} - {l};
    }
  }

  lemma {:induction false} SumUpdates(m: map<string, int>, k: string, v: int)
    requires k in m
    ensures SumOf(m[k := v]) == SumOf(m) - m[k] + v
  {
    SumPicks(m, k);
    SumPicks(m[k := v], k);
    assert m[k := v] - {k} == m - {k};
  }

  lemma {:induction false} SumGrows(m: map<string, int>, n: map<string, int>)
    requires m.Keys == n.Keys && forall k <- m.Keys :: m[k] <= n[k]
    ensures SumOf(m) <= SumOf(n)
    ensures m != n ==> SumOf(m) < SumOf(n)
    decreases |m|
  {
    if m == map[] {
      assert n == map[];
    } else {
      var k :| k in m;
      SumPicks(m, k);
      SumPicks(n, k);
      SumGrows(m - {k}, n - {k});
      if m - {k} == n - {k} && m[k] == n[k] {
        assert forall j <- m.Keys :: j != k ==> m[j] == (m - {k})[j] && n[j] == (n - {k})[j];
        assert m == n;
      }
    }
  }

  lemma {:induction false} SumOfZeros(m: map<string, int>)
    requires forall k <- m.Keys :: m[k] == 0
    ensures SumOf(m) == 0
    decreases |m|
  {
    if m != map[] {
      var k :| k in m;
      SumPicks(m, k);
      SumOfZeros(m - {k});
    }
  }

  // ---- Slots ----------------------------------------------------------------------

  function Count(ds: seq<Decision>, engine: string): (n: nat)
    ensures n <= |ds|
  {
    if ds == [] then 0
    else Count(ds[..|ds| - 1], engine) + if ds[|ds| - 1].engine == engine then 1 else 0
  }

  function Free(m: Maps, engine: string): int {
    StateOf(m.engineToState, engine).maximumTasks - StateOf(m.engineToState, engine).runningTasks
  }

  function FreeSlots(m: Maps): map<string, int> {
    map e | e in Schedulable(m) :: Free(m, e)
  }

  function Counts(ds: seq<Decision>, engines: set<string>): map<string, int> {
    map e | e in engines :: Count(ds, e)
  }

  /** The decisions fit: each goes to a schedulable engine with a slot for it. */
  ghost predicate Fits(m: Maps, ds: seq<Decision>) {
    && (forall i :: 0 <= i < |ds| ==> ds[i].engine in Schedulable(m))
    && (forall e <- Schedulable(m) :: Count(ds, e) <= Free(m, e))
  }

  lemma {:induction false} CountsSumUp(ds: seq<Decision>, engines: set<string>)
    requires forall i :: 0 <= i < |ds| ==> ds[i].engine in engines
    ensures SumOf(Counts(ds, engines)) == |ds|
  {
    if ds == [] {
      SumOfZeros(Counts(ds, engines));
    } else {
      var before, e := ds[..|ds| - 1], ds[|ds| - 1].engine;
      CountsSumUp(before, engines);
      SumUpdates(Counts(before, engines), e, Count(before, e) + 1);
      assert Counts(ds, engines) == Counts(before, engines)[e := Count(before, e) + 1];
    }
  }

  /** Fitting decisions are at most the free slots, and exactly as many only when every
      engine is full. */
  lemma {:induction false} FittingIsBounded(m: Maps, ds: seq<Decision>)
    requires Fits(m, ds)
    ensures |ds| <= SumOf(FreeSlots(m))
    ensures |ds| == SumOf(FreeSlots(m)) <==> forall e <- Schedulable(m) :: Count(ds, e) == Free(m, e)
  {
    var engines := Schedulable(m);
    CountsSumUp(ds, engines);
    SumGrows(Counts(ds, engines), FreeSlots(m));
    if Counts(ds, engines) == FreeSlots(m) {
      forall e <- engines ensures Count(ds, e) == Free(m, e) {
        assert Counts(ds, engines)[e] == FreeSlots(m)[e];
      }
    }
  }
}
