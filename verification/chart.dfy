/** The bar chart's data: one bar per recorded entry, in submission order. */
module Chart {
  import opened Participants
  import opened Ranking

  /** Bar labels (participant names) and bar heights (strengths). */
  datatype Bars = Bars(names: seq<string>, strengths: seq<real>)

  function ChartOf(data: seq<Entry>): Bars
  {
    Bars(Names(data), Strengths(data))
  }

  /** The chart has one bar per entry, labelled and sized by that entry, in
      submission order; recording one more entry adds one bar at the right
      and leaves the others as they were. */
  lemma ChartFollowsSubmissions(prior: seq<Entry>, e: Entry)
    ensures |ChartOf(prior).names| == |ChartOf(prior).strengths| == |prior|
    ensures forall i :: 0 <= i < |prior| ==>
      ChartOf(prior).names[i] == prior[i].name && ChartOf(prior).strengths[i] == prior[i].strength
    ensures ChartOf(prior + [e]) ==
      Bars(ChartOf(prior).names + [e.name], ChartOf(prior).strengths + [e.strength])
  {
  }

  lemma {:induction false} InsertStrengths(x: Entry, t: seq<Entry>)
    ensures multiset(Strengths(Insert(x, t))) == multiset(Strengths(t)) + multiset{x.strength}
  {
    if t == [] || t[0].strength <= x.strength {
      assert Strengths([x] + t) == [x.strength] + Strengths(t);
    } else {
      InsertStrengths(x, t[1..]);
      assert Strengths([t[0]] + Insert(x, t[1..])) == [t[0].strength] + Strengths(Insert(x, t[1..]));
      assert Strengths(t) == [t[0].strength] + Strengths(t[1..]);
    }
  }

  /** The chart and the ranking are two orders of the same strengths. */
  lemma {:induction false} ChartAndRankingAgree(data: seq<Entry>)
    ensures multiset(ChartOf(data).strengths) == multiset(Strengths(SortDesc(data)))
  {
    if data != [] {
      ChartAndRankingAgree(data[1..]);
      InsertStrengths(data[0], SortDesc(data[1..]));
      assert Strengths(data) == [data[0].strength] + Strengths(data[1..]);
    }
  }

  /** The chart keeps submission order where the ranking does not: after Ann
      (30) and then Bo (50), the bars read Ann, Bo and the ranking Bo, Ann. */
  lemma ChartIsNotRanked()
    ensures var data := [Entry("Ann", 10, 30.0), Entry("Bo", 8, 50.0)];
      && ChartOf(data).names == ["Ann", "Bo"]
      && SortDesc(data) == [Entry("Bo", 8, 50.0), Entry("Ann", 10, 30.0)]
  {
    var data := [Entry("Ann", 10, 30.0), Entry("Bo", 8, 50.0)];
    assert data[1..] == [Entry("Bo", 8, 50.0)];
    assert SortDesc(data[1..]) == [Entry("Bo", 8, 50.0)];
  }
}
