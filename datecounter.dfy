/**
 * datecounter/datecounter.py: counts the directory entries per modification
 * date, then emits the (date, count) pairs in ascending date order. A date is
 * modelled as a day number; the directory listing, the file times, the local
 * time zone and the date formatting are left to the caller, who passes the
 * list of entry dates in listing order.
 */
module DateCounter {

  /** A calendar day, as a totally ordered day number. */
  type Date = int

  /** How many entries carry date d. */
  function Occurrences(dates: seq<Date>, d: Date): nat
  {
    if dates == [] then 0
    else Occurrences(dates[..|dates| - 1], d) + (if dates[|dates| - 1] == d then 1 else 0)
  }

  /** The reference histogram: each date that occurs, mapped to how often it occurs. */
  function Histogram(dates: seq<Date>): map<Date, nat>
  {
    map d | d in dates :: Occurrences(dates, d)
  }

  /** A date that occurs is counted at least once; one that does not, never. */
  lemma {:induction false} OccursIffCounted(dates: seq<Date>, d: Date)
    ensures Occurrences(dates, d) >= 1 <==> d in dates
  {
    if dates != [] {
      var init := dates[..|dates| - 1];
      OccursIffCounted(init, d);
      assert dates == init + [dates[|dates| - 1]];
    }
  }

  /** Only dates that occur are keys, each with its exact count, which is at least 1. */
  lemma HistogramKeys(dates: seq<Date>, d: Date)
    ensures d in Histogram(dates) <==> d in dates
    ensures d in Histogram(dates) ==> Histogram(dates)[d] == Occurrences(dates, d) >= 1
  {
    OccursIffCounted(dates, d);
  }

  /** One more entry with date d adds one to d's count, creating the key with 1 when it is new. */
  lemma HistogramStep(dates: seq<Date>, d: Date)
    ensures Histogram(dates + [d])
         == Histogram(dates)[d := if d in Histogram(dates) then Histogram(dates)[d] + 1 else 1]
  {
    var next := dates + [d];
    assert next[..|next| - 1] == dates;
    OccursIffCounted(dates, d);
    forall x | x in next ensures x in dates || x == d {
      var i :| 0 <= i < |next| && next[i] == x;
      if i < |dates| { assert dates[i] == x; }
    }
  }

  /** The counting loop: `results` is filled in place, one directory entry at a time. */
  method CountDates(dates: seq<Date>) returns (results: map<Date, nat>)
    ensures results == Histogram(dates)
    ensures forall d :: d in results <==> d in dates
  {
    results := map[];
    var k := 0;
    while k < |dates|
      invariant 0 <= k <= |dates|
      invariant results == Histogram(dates[..k])
    {
      var dt := dates[k];
      HistogramStep(dates[..k], dt);
      assert dates[..k + 1] == dates[..k] + [dt];
      if dt in results {
        results := results[dt := results[dt] + 1];
      } else {
        results := results[dt := 1];
      }
      k := k + 1;
    }
    assert dates[..k] == dates;
    forall d ensures d in results <==> d in dates {
      HistogramKeys(dates, d);
    }
  }

  lemma MinimumExists(s: set<Date>)
    requires s != {}
    ensures exists m :: m in s && forall x :: x in s ==> m <= x
    decreases |s|
  {
    if forall x :: x !in s {
      assert false;
    }
    var y :| y in s;
    if s != {y} {
      var rest := s - {y};
      MinimumExists(rest);
      var m :| m in rest && forall x :: x in rest ==> m <= x;
      var least := if y < m then y else m;
      forall x | x in s ensures least <= x {
        if x != y { assert x in rest; }
      }
      assert least in s;
    } else {
      assert forall x :: x in s ==> y <= x;
    }
  }

  /** The earliest date in a non-empty set. */
  function Earliest(s: set<Date>): (m: Date)
    requires s != {}
    ensures m in s && forall x :: x in s ==> m <= x
  {
    MinimumExists(s);
    var m :| m in s && forall x :: x in s ==> m <= x;
    m
  }

  /** `sorted(results.iteritems())`: the (date, count) pairs of the map, earliest date first. */
  function SortedItems(results: map<Date, nat>): (items: seq<(Date, nat)>)
    ensures |items| == |results.Keys|
    ensures forall i :: 0 <= i < |items| ==> items[i].0 in results && items[i].1 == results[items[i].0]
    decreases |results.Keys|
  {
    if results.Keys == {} then []
    else
      var d := Earliest(results.Keys);
      var rest := results - {d};
      assert rest.Keys == results.Keys - {d};
      [(d, results[d])] + SortedItems(rest)
  }

  /** The output is in strictly ascending date order, so no date is emitted twice. */
  lemma {:induction false} SortedItemsAscending(results: map<Date, nat>)
    ensures forall i, j :: 0 <= i < j < |SortedItems(results)| ==> SortedItems(results)[i].0 < SortedItems(results)[j].0
    decreases |results.Keys|
  {
    if results.Keys != {} {
      var d := Earliest(results.Keys);
      var rest := results - {d};
      assert rest.Keys == results.Keys - {d};
      SortedItemsAscending(rest);
      var items := SortedItems(results);
      assert items[1..] == SortedItems(rest);
      forall j | 1 <= j < |items| ensures d < items[j].0 {
        assert items[j] == SortedItems(rest)[j - 1];
      }
    }
  }

  /** Every date of the map is emitted. */
  lemma {:induction false} SortedItemsCover(results: map<Date, nat>, d: Date)
    requires d in results
    ensures exists i :: 0 <= i < |SortedItems(results)| && SortedItems(results)[i].0 == d
    decreases |results.Keys|
  {
    var e := Earliest(results.Keys);
    var items := SortedItems(results);
    if d == e {
      assert items[0].0 == d;
    } else {
      var rest := results - {e};
      assert rest.Keys == results.Keys - {e};
      SortedItemsCover(rest, d);
      var i :| 0 <= i < |SortedItems(rest)| && SortedItems(rest)[i].0 == d;
      assert items[i + 1] == SortedItems(rest)[i];
    }
  }

  /** Each emitted pair is a date that occurs with its exact number of entries. */
  lemma EmittedCounts(dates: seq<Date>, i: nat)
    requires i < |SortedItems(Histogram(dates))|
    ensures var (d, n) := SortedItems(Histogram(dates))[i]; d in dates && n == Occurrences(dates, d) >= 1
  {
    HistogramKeys(dates, SortedItems(Histogram(dates))[i].0);
  }

  /** The sum of the counts of emitted pairs. */
  function TotalCount(items: seq<(Date, nat)>): nat
  {
    if items == [] then 0 else items[0].1 + TotalCount(items[1..])
  }

  /** The entries left once every entry with date d is removed. */
  function Without(dates: seq<Date>, d: Date): (rest: seq<Date>)
    ensures forall x :: x in rest <==> x in dates && x != d
  {
    if dates == [] then []
    else Without(dates[..|dates| - 1], d) + (if dates[|dates| - 1] == d then [] else [dates[|dates| - 1]])
  }

  lemma {:induction false} WithoutCounts(dates: seq<Date>, d: Date, x: Date)
    ensures |dates| == Occurrences(dates, d) + |Without(dates, d)|
    ensures Occurrences(Without(dates, d), x) == if x == d then 0 else Occurrences(dates, x)
  {
    if dates != [] {
      var init := dates[..|dates| - 1];
      WithoutCounts(init, d, x);
      var rest := Without(dates, d);
      var last := dates[|dates| - 1];
      if last != d {
        assert rest == Without(init, d) + [last];
        assert rest[..|rest| - 1] == Without(init, d);
        assert Occurrences(rest, x) == Occurrences(Without(init, d), x) + (if last == x then 1 else 0);
      } else {
        assert rest == Without(init, d);
      }
    }
  }

  /** Dropping a date from the histogram is the histogram of the entries without that date. */
  lemma HistogramWithout(dates: seq<Date>, d: Date)
    ensures Histogram(dates) - {d} == Histogram(Without(dates, d))
  {
    var rest := Without(dates, d);
    forall x | x in rest ensures Occurrences(rest, x) == Occurrences(dates, x) {
      WithoutCounts(dates, d, x);
    }
  }

  /** The emitted counts add up to the number of directory entries processed. */
  lemma {:induction false} EmittedTotal(dates: seq<Date>)
    ensures TotalCount(SortedItems(Histogram(dates))) == |dates|
    decreases |dates|
  {
    var h := Histogram(dates);
    if h.Keys != {} {
      var d := Earliest(h.Keys);
      var rest := Without(dates, d);
      WithoutCounts(dates, d, d);
      OccursIffCounted(dates, d);
      HistogramWithout(dates, d);
      var items := SortedItems(h);
      assert items[1..] == SortedItems(Histogram(rest));
      EmittedTotal(rest);
    } else if dates != [] {
      HistogramKeys(dates, dates[0]);
    }
  }
}
