/** The leaderboard order: the participant list sorted by strength, strongest
    first, with equal strengths left in submission order, and cut to three. */
module Ranking {
  import opened Participants

  /** How many entries the leaderboard shows. */
  const Shown: nat := 3

  /** Non-increasing strength. */
  predicate Descending(s: seq<Entry>)
  {
    forall i, j :: 0 <= i < j < |s| ==> s[i].strength >= s[j].strength
  }

  /** The entries of `s` whose strength is exactly `v`, in their order in `s`. */
  function WithStrength(s: seq<Entry>, v: real): seq<Entry>
  {
    if s == [] then []
    else if s[0].strength == v then [s[0]] + WithStrength(s[1..], v)
    else WithStrength(s[1..], v)
  }

  /** `t` lists every group of equal strengths in the order `s` lists it:
      the sort is stable. */
  ghost predicate Stable(s: seq<Entry>, t: seq<Entry>)
  {
    forall v :: WithStrength(t, v) == WithStrength(s, v)
  }

  /** Insert `x` into a descending list in front of the first entry that is
      not stronger than it. */
  function Insert(x: Entry, t: seq<Entry>): (r: seq<Entry>)
    ensures |r| == |t| + 1
  {
    if t == [] || t[0].strength <= x.strength then [x] + t
    else [t[0]] + Insert(x, t[1..])
  }

  /** `sorted(data, key=strength, reverse=True)`, as an insertion sort that
      inserts earlier entries in front of later ones of equal strength. */
  function SortDesc(s: seq<Entry>): (r: seq<Entry>)
    ensures |r| == |s|
  {
    if s == [] then [] else Insert(s[0], SortDesc(s[1..]))
  }

  /** `sorted(...)[:3]`: the first three ranked entries, or all of them when
      there are fewer. */
  function TopThree(data: seq<Entry>): (top: seq<Entry>)
    ensures |top| == if |data| < Shown then |data| else Shown
    ensures top == SortDesc(data)[..|top|]
  {
    var ranked := SortDesc(data);
    if |ranked| <= Shown then ranked else ranked[..Shown]
  }

  /** Inserting adds exactly `x` to the multiset of entries. */
  lemma {:induction false} InsertPermutes(x: Entry, t: seq<Entry>)
    ensures multiset(Insert(x, t)) == multiset(t) + multiset{x}
  {
    if t != [] && t[0].strength > x.strength {
      InsertPermutes(x, t[1..]);
      assert t == [t[0]] + t[1..];
    }
  }

  lemma {:induction false} InsertDescending(x: Entry, t: seq<Entry>)
    requires Descending(t)
    ensures Descending(Insert(x, t))
  {
    if t != [] && t[0].strength > x.strength {
      var rest := Insert(x, t[1..]);
      InsertDescending(x, t[1..]);
      InsertPermutes(x, t[1..]);
      forall j | 0 <= j < |rest|
        ensures rest[j].strength <= t[0].strength
      {
        assert rest[j] in multiset(rest);
        if rest[j] != x {
          assert rest[j] in multiset(t[1..]);
          assert rest[j] in t[1..];
        }
      }
    }
  }

  lemma {:induction false} WithStrengthConcat(a: seq<Entry>, b: seq<Entry>, v: real)
    ensures WithStrength(a + b, v) == WithStrength(a, v) + WithStrength(b, v)
  {
    if a == [] {
      assert a + b == b;
    } else {
      assert (a + b)[0] == a[0] && (a + b)[1..] == a[1..] + b;
      WithStrengthConcat(a[1..], b, v);
    }
  }

  /** Inserting `x` puts it in front of every entry of its own strength. */
  lemma {:induction false} InsertKeepsRuns(x: Entry, t: seq<Entry>, v: real)
    ensures WithStrength(Insert(x, t), v) == WithStrength([x] + t, v)
  {
    if t != [] && t[0].strength > x.strength {
      var rest := Insert(x, t[1..]);
      InsertKeepsRuns(x, t[1..], v);
      assert ([t[0]] + rest)[0] == t[0] && ([t[0]] + rest)[1..] == rest;
      assert ([x] + t)[0] == x && ([x] + t)[1..] == t;
      assert ([x] + t[1..])[0] == x && ([x] + t[1..])[1..] == t[1..];
    }
  }

  /** The ranking is non-increasing in strength, a permutation of the list,
      and stable. */
  lemma {:induction false} SortDescIsRanking(s: seq<Entry>)
    ensures Descending(SortDesc(s))
    ensures multiset(SortDesc(s)) == multiset(s)
    ensures Stable(s, SortDesc(s))
  {
    if s != [] {
      SortDescIsRanking(s[1..]);
      InsertDescending(s[0], SortDesc(s[1..]));
      InsertPermutes(s[0], SortDesc(s[1..]));
      assert s == [s[0]] + s[1..];
      forall v
        ensures WithStrength(SortDesc(s), v) == WithStrength(s, v)
      {
        InsertKeepsRuns(s[0], SortDesc(s[1..]), v);
        WithStrengthConcat([s[0]], SortDesc(s[1..]), v);
        WithStrengthConcat([s[0]], s[1..], v);
        assert s == [s[0]] + s[1..];
      }
    }
  }

  /** A descending list that holds an entry of strength `v` starts with an
      entry at least that strong. */
  lemma {:induction false} HeadDominatesRuns(u: seq<Entry>, v: real)
    requires Descending(u) && WithStrength(u, v) != []
    ensures u != [] && u[0].strength >= v
  {
    if u[0].strength != v {
      HeadDominatesRuns(u[1..], v);
    }
  }

  lemma HeadHasRun(u: seq<Entry>)
    ensures u != [] ==> WithStrength(u, u[0].strength) != []
  {
  }

  /** Two descending lists with the same group for every strength are equal. */
  lemma {:induction false} SameRunsSameList(t: seq<Entry>, u: seq<Entry>)
    requires Descending(t) && Descending(u)
    requires forall v :: WithStrength(t, v) == WithStrength(u, v)
    ensures t == u
    decreases |t|
  {
    if t == [] || u == [] {
      HeadHasRun(t);
      HeadHasRun(u);
    } else {
      var a := t[0].strength;
      assert WithStrength(t, a) == [t[0]] + WithStrength(t[1..], a);
      HeadDominatesRuns(u, a);
      assert WithStrength(u, u[0].strength) == [u[0]] + WithStrength(u[1..], u[0].strength);
      HeadDominatesRuns(t, u[0].strength);
      assert u[0].strength == a;
      var tr, ur := WithStrength(t, a), WithStrength(u, a);
      assert tr == ur && tr[0] == t[0] && ur[0] == u[0];
      assert tr[1..] == WithStrength(t[1..], a) && ur[1..] == WithStrength(u[1..], a);
      forall v
        ensures WithStrength(t[1..], v) == WithStrength(u[1..], v)
      {
        assert WithStrength(t, v) == WithStrength(u, v);
      }
      SameRunsSameList(t[1..], u[1..]);
      assert t == [t[0]] + t[1..] && u == [u[0]] + u[1..];
    }
  }

  /** Any stable, descending rearrangement of the list is exactly the ranking:
      the insertion sort computes the one order a stable sort by strength,
      strongest first, can produce. */
  lemma RankingIsUnique(s: seq<Entry>, t: seq<Entry>)
    requires Descending(t) && Stable(s, t)
    ensures t == SortDesc(s)
  {
    SortDescIsRanking(s);
    SameRunsSameList(t, SortDesc(s));
  }

  /** A list already in ranking order is its own ranking. */
  lemma SortedStaysPut(s: seq<Entry>)
    requires Descending(s)
    ensures SortDesc(s) == s
  {
    RankingIsUnique(s, s);
  }

  /** The leaderboard shows entries of the list, strongest first, each at
      least as strong as every entry it leaves out. */
  lemma TopThreeIsBest(data: seq<Entry>)
    ensures multiset(TopThree(data)) <= multiset(data)
    ensures Descending(TopThree(data))
    ensures forall e, k :: e in multiset(data) - multiset(TopThree(data)) && 0 <= k < |TopThree(data)| ==>
      e.strength <= TopThree(data)[k].strength
  {
    var ranked := SortDesc(data);
    var top := TopThree(data);
    TopThreeSplits(data);
    TopThreeDescending(data);
    SortDescIsRanking(data);
    PrefixDominates(ranked, |top|);
  }

  lemma TopThreeDescending(data: seq<Entry>)
    ensures Descending(TopThree(data))
  {
    SortDescIsRanking(data);
  }

  /** The ranking is the leaderboard followed by the entries it leaves out. */
  lemma TopThreeSplits(data: seq<Entry>)
    ensures SortDesc(data) == TopThree(data) + SortDesc(data)[|TopThree(data)|..]
    ensures multiset(data) == multiset(TopThree(data)) + multiset(SortDesc(data)[|TopThree(data)|..])
  {
    var ranked := SortDesc(data);
    var top := TopThree(data);
    SortDescIsRanking(data);
    assert ranked == top + ranked[|top|..];
  }

  lemma PrefixDominates(ranked: seq<Entry>, n: nat)
    requires Descending(ranked) && n <= |ranked|
    ensures forall e, k :: e in multiset(ranked[n..]) && 0 <= k < n ==> e.strength <= ranked[k].strength
  {
    forall e, k | e in multiset(ranked[n..]) && 0 <= k < n
      ensures e.strength <= ranked[k].strength
    {
      var j :| 0 <= j < |ranked| - n && ranked[n..][j] == e;
      assert ranked[n + j] == e;
    }
  }

  /** The first place goes to an entry at least as strong as every entry. */
  lemma TopThreeLeads(data: seq<Entry>)
    requires data != []
    ensures forall j :: 0 <= j < |data| ==> data[j].strength <= TopThree(data)[0].strength
  {
    var ranked := SortDesc(data);
    SortDescIsRanking(data);
    forall j | 0 <= j < |data|
      ensures data[j].strength <= ranked[0].strength
    {
      assert data[j] in multiset(ranked);
      var i :| 0 <= i < |ranked| && ranked[i] == data[j];
    }
  }

  /** Among entries of equal strength, the leaderboard shows the
      earliest-submitted ones, in submission order. */
  lemma TopThreePrefersEarlier(data: seq<Entry>, v: real)
    ensures WithStrength(TopThree(data), v) <= WithStrength(data, v)
  {
    var ranked := SortDesc(data);
    var top := TopThree(data);
    SortDescIsRanking(data);
    assert ranked == top + ranked[|top|..];
    WithStrengthConcat(top, ranked[|top|..], v);
  }
}
