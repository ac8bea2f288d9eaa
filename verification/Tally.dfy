/** Counting how often each label occurs, as the status summaries of the log and the registry do. */
module Tally {
  import opened Prelude

  type Counts = map<string, nat>

  function Count(c: Counts, k: string): nat {
    if k in c then c[k] else 0
  }

  function Occurrences(xs: seq<string>, k: string): (n: nat)
    ensures n > 0 <==> k in xs
  {
    if xs == [] then 0
    else Occurrences(xs[..|xs| - 1], k) + if xs[|xs| - 1] == k then 1 else 0
  }

  lemma {:induction false} OccurrencesExact(xs: seq<string>, k: string)
    ensures Occurrences(xs, k) == multiset(xs)[k]
  {
    if xs != [] {
      OccurrencesExact(xs[..|xs| - 1], k);
      assert xs == xs[..|xs| - 1] + [xs[|xs| - 1]];
    }
  }

  /** The counts are exactly the numbers of occurrences, with no empty rows. */
  ghost predicate Tallies(c: Counts, xs: seq<string>) {
    && (forall k :: k in c <==> k in xs)
    && (forall k :: Count(c, k) == Occurrences(xs, k))
  }

  function Sum(c: Counts, ks: seq<string>): nat {
    if ks == [] then 0 else Count(c, ks[0]) + Sum(c, ks[1..])
  }

  lemma {:induction false} SumBump(c: Counts, c': Counts, ks: seq<string>, x: string)
    requires Distinct(ks) && forall k :: Count(c', k) == Count(c, k) + if k == x then 1 else 0
    ensures Sum(c', ks) == Sum(c, ks) + if x in ks then 1 else 0
  {
    if ks != [] {
      SumBump(c, c', ks[1..], x);
      if ks[0] == x {
        assert x !in ks[1..];
      }
    }
  }

  lemma {:induction false} SumZero(c: Counts, ks: seq<string>)
    requires forall k :: Count(c, k) == 0
    ensures Sum(c, ks) == 0
  {
    if ks != [] {
      SumZero(c, ks[1..]);
    }
  }

  lemma {:induction false} SameSum(c: Counts, c': Counts, ks: seq<string>)
    requires forall k :: k in ks ==> Count(c, k) == Count(c', k)
    ensures Sum(c, ks) == Sum(c', ks)
  {
    if ks != [] {
      SameSum(c, c', ks[1..]);
    }
  }

  function CountsOf(xs: seq<string>): Counts {
    if xs == [] then map[]
    else
      var c := CountsOf(xs[..|xs| - 1]);
      c[xs[|xs| - 1] := Count(c, xs[|xs| - 1]) + 1]
  }

  lemma {:induction false} CountsTally(xs: seq<string>)
    ensures Tallies(CountsOf(xs), xs)
  {
    if xs != [] {
      CountsTally(xs[..|xs| - 1]);
      assert xs == xs[..|xs| - 1] + [xs[|xs| - 1]];
    }
  }

  /** Summing the counts over distinct labels counts the elements that bear one of them. */
  lemma {:induction false} SumOverLabels(xs: seq<string>, ks: seq<string>)
    requires Distinct(ks)
    ensures Sum(CountsOf(xs), ks) == |Bearing(xs, ks)|
  {
    if xs == [] {
      SumZero(CountsOf(xs), ks);
    } else {
      var k := |xs| - 1;
      SumOverLabels(xs[..k], ks);
      SumBump(CountsOf(xs[..k]), CountsOf(xs), ks, xs[k]);
    }
  }

  function Bearing(xs: seq<string>, ks: seq<string>): seq<string> {
    if xs == [] then []
    else Bearing(xs[..|xs| - 1], ks) + if xs[|xs| - 1] in ks then [xs[|xs| - 1]] else []
  }

  lemma {:induction false} BearingMost(xs: seq<string>, ks: seq<string>, except: string)
    requires except !in ks && forall x :: x in xs && x != except ==> x in ks
    ensures |Bearing(xs, ks)| == |xs| - Occurrences(xs, except)
  {
    if xs != [] {
      BearingMost(xs[..|xs| - 1], ks, except);
    }
  }

  /** Over a list of all labels but one, the counts sum to everything not bearing that one. */
  lemma SumAllBut(xs: seq<string>, c: Counts, ks: seq<string>, except: string)
    requires Distinct(ks) && except !in ks && forall x :: x in xs && x != except ==> x in ks
    requires forall k :: k in ks ==> Count(c, k) == Occurrences(xs, k)
    ensures Sum(c, ks) == |xs| - Occurrences(xs, except)
  {
    CountsTally(xs);
    SameSum(c, CountsOf(xs), ks);
    SumOverLabels(xs, ks);
    BearingMost(xs, ks, except);
  }

  lemma {:induction false} BearingAll(xs: seq<string>, ks: seq<string>)
    requires forall x :: x in xs ==> x in ks
    ensures |Bearing(xs, ks)| == |xs|
  {
    if xs != [] {
      BearingAll(xs[..|xs| - 1], ks);
      assert xs[|xs| - 1] in xs;
    }
  }

  /** Over a list of all labels, the counts sum to the number of elements. */
  lemma SumAll(xs: seq<string>, c: Counts, ks: seq<string>)
    requires Distinct(ks) && (forall k :: k in xs ==> k in ks) && Tallies(c, xs)
    ensures Sum(c, ks) == |xs|
  {
    CountsTally(xs);
    SameSum(c, CountsOf(xs), ks);
    SumOverLabels(xs, ks);
    BearingAll(xs, ks);
  }
}
