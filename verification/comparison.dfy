/** How a new strength compares with the mean of the strengths recorded
    before it. */
module Comparison {
  import opened Participants

  /** Left-to-right total of the strengths, as Python's `sum` adds them. */
  function Sum(s: seq<Entry>): real
  {
    if s == [] then 0.0 else Sum(s[..|s| - 1]) + s[|s| - 1].strength
  }

  /** Arithmetic mean; the divisor `|s|` is at least one. */
  function Mean(s: seq<Entry>): real
    requires s != []
  {
    Sum(s) / |s| as real
  }

  /** The four messages the kiosk can show for an accepted submission, without
      their wording: first participant, or above, below or level with the
      average `avg` of the earlier strengths. */
  datatype Verdict = First | Above(avg: real) | Below(avg: real) | Level(avg: real)

  /** Classify the last entry of the just-extended list `data` against the
      entries before it. */
  function Compare(data: seq<Entry>): Verdict
    requires data != []
  {
    if |data| == 1 then First
    else
      var avg := Mean(data[..|data| - 1]);
      var x := data[|data| - 1].strength;
      if x > avg then Above(avg)
      else if x < avg then Below(avg)
      else Level(avg)
  }

  /** Comparing a new entry `e` after the earlier entries `prior`: the message
      is "first" exactly when nothing came before, and otherwise the average
      is that of `prior` alone and the verdict is decided without dividing, by
      comparing `e`'s strength times the number of earlier entries with
      their total. */
  lemma {:induction false} CompareAppended(prior: seq<Entry>, e: Entry)
    ensures Compare(prior + [e]).First? <==> prior == []
    ensures prior != [] ==> Compare(prior + [e]).avg == Mean(prior)
    ensures Compare(prior + [e]).Above? <==> prior != [] && e.strength * |prior| as real > Sum(prior)
    ensures Compare(prior + [e]).Below? <==> prior != [] && e.strength * |prior| as real < Sum(prior)
    ensures Compare(prior + [e]).Level? <==> prior != [] && e.strength * |prior| as real == Sum(prior)
  {
    var data := prior + [e];
    assert data[..|data| - 1] == prior;
    assert data[|data| - 1] == e;
    if prior != [] {
      var n := |prior| as real;
      var x := e.strength;
      var avg := Mean(prior);
      assert avg * n == Sum(prior);
      ScaleByCount(x, avg, n);
    }
  }

  /** Multiplying both sides by a positive count keeps the order. */
  lemma ScaleByCount(x: real, avg: real, n: real)
    requires n > 0.0
    ensures x > avg <==> x * n > avg * n
    ensures x < avg <==> x * n < avg * n
  {
    if x > avg { assert (x - avg) * n > 0.0; }
    if x < avg { assert (avg - x) * n > 0.0; }
    if x * n > avg * n { assert (x - avg) * n > 0.0; }
    if x * n < avg * n { assert (avg - x) * n > 0.0; }
  }

  /** The total lies between count times the smallest and count times the
      largest strength. */
  lemma {:induction false} SumWithin(s: seq<Entry>, lo: real, hi: real)
    requires forall i :: 0 <= i < |s| ==> lo <= s[i].strength <= hi
    ensures |s| as real * lo <= Sum(s) <= |s| as real * hi
  {
    if s != [] {
      SumWithin(s[..|s| - 1], lo, hi);
    }
  }

  /** The mean lies between the smallest and the largest earlier strength. */
  lemma MeanWithin(s: seq<Entry>, lo: real, hi: real)
    requires s != []
    requires forall i :: 0 <= i < |s| ==> lo <= s[i].strength <= hi
    ensures lo <= Mean(s) <= hi
  {
    SumWithin(s, lo, hi);
    QuotientWithin(Sum(s), |s| as real, lo, hi);
  }

  /** The average of the earlier strengths lies between the weakest and the
      strongest of them. */
  lemma MeanBetweenExtremes(s: seq<Entry>)
    requires s != []
    ensures Least(s) <= Mean(s) <= Greatest(s)
  {
    MeanWithin(s, Least(s), Greatest(s));
  }

  lemma QuotientWithin(total: real, n: real, lo: real, hi: real)
    requires n > 0.0 && n * lo <= total <= n * hi
    ensures lo <= total / n <= hi
  {
    assert total / n - lo == (total - n * lo) / n;
    assert hi - total / n == (n * hi - total) / n;
  }

  /** A new strength above every earlier one is above average, one below
      every earlier one is below average, and one equal to all of them
      matches the average. */
  lemma CompareAgainstAll(prior: seq<Entry>, e: Entry)
    requires prior != []
    ensures (forall i :: 0 <= i < |prior| ==> prior[i].strength < e.strength) ==> Compare(prior + [e]).Above?
    ensures (forall i :: 0 <= i < |prior| ==> prior[i].strength > e.strength) ==> Compare(prior + [e]).Below?
    ensures (forall i :: 0 <= i < |prior| ==> prior[i].strength == e.strength) ==> Compare(prior + [e]) == Level(e.strength)
  {
    CompareAppended(prior, e);
    var lo, hi := Least(prior), Greatest(prior);
    MeanWithin(prior, lo, hi);
    if forall i :: 0 <= i < |prior| ==> prior[i].strength < e.strength {
      assert hi < e.strength by { GreatestIsAttained(prior); }
    }
    if forall i :: 0 <= i < |prior| ==> prior[i].strength > e.strength {
      assert lo > e.strength by { LeastIsAttained(prior); }
    }
    if forall i :: 0 <= i < |prior| ==> prior[i].strength == e.strength {
      MeanWithin(prior, e.strength, e.strength);
    }
  }

  function Least(s: seq<Entry>): (m: real)
    requires s != []
    ensures forall i :: 0 <= i < |s| ==> m <= s[i].strength
  {
    if |s| == 1 then s[0].strength
    else var rest := Least(s[1..]); if s[0].strength < rest then s[0].strength else rest
  }

  function Greatest(s: seq<Entry>): (m: real)
    requires s != []
    ensures forall i :: 0 <= i < |s| ==> s[i].strength <= m
  {
    if |s| == 1 then s[0].strength
    else var rest := Greatest(s[1..]); if s[0].strength > rest then s[0].strength else rest
  }

  lemma {:induction false} LeastIsAttained(s: seq<Entry>)
    requires s != []
    ensures exists i :: 0 <= i < |s| && s[i].strength == Least(s)
  {
    if |s| > 1 && !(s[0].strength < Least(s[1..])) {
      LeastIsAttained(s[1..]);
      var i :| 0 <= i < |s| - 1 && s[1..][i].strength == Least(s[1..]);
      assert s[i + 1].strength == Least(s);
    } else {
      assert s[0].strength == Least(s);
    }
  }

  lemma {:induction false} GreatestIsAttained(s: seq<Entry>)
    requires s != []
    ensures exists i :: 0 <= i < |s| && s[i].strength == Greatest(s)
  {
    if |s| > 1 && !(s[0].strength > Greatest(s[1..])) {
      GreatestIsAttained(s[1..]);
      var i :| 0 <= i < |s| - 1 && s[1..][i].strength == Greatest(s[1..]);
      assert s[i + 1].strength == Greatest(s);
    } else {
      assert s[0].strength == Greatest(s);
    }
  }
}
