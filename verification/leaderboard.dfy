/** The top-three display: one row per leaderboard entry, each with the trophy
    of its position. */
module Leaderboard {
  import opened Participants
  import opened Ranking

  datatype Trophy = Gold | Silver | Bronze

  /** The trophies in position order: first, second, third place. */
  const Trophies: seq<Trophy> := [Gold, Silver, Bronze]

  /** One leaderboard row: trophy, name and strength. */
  datatype Place = Place(trophy: Trophy, name: string, strength: real)

  /** The rows for `top`, position `i` getting `Trophies[i]`. */
  function Medalled(top: seq<Entry>): seq<Place>
    requires |top| <= |Trophies|
  {
    seq(|top|, i requires 0 <= i < |top| => Place(Trophies[i], top[i].name, top[i].strength))
  }

  /** The display loop over `enumerate(top_three)`, appending one row per entry. */
  method BuildPodium(top: seq<Entry>) returns (rows: seq<Place>)
    requires |top| <= |Trophies|
    ensures rows == Medalled(top)
  {
    rows := [];
    var idx := 0;
    while idx < |top|
      invariant 0 <= idx <= |top|
      invariant rows == Medalled(top[..idx])
    {
      rows := rows + [Place(Trophies[idx], top[idx].name, top[idx].strength)];
      idx := idx + 1;
    }
    assert top[..idx] == top;
  }

  /** Rows of a descending list: trophies by position, each at most once,
      strengths not increasing down the board. */
  lemma MedalledRows(top: seq<Entry>)
    requires |top| <= |Trophies| && Descending(top)
    ensures |Medalled(top)| == |top|
    ensures forall i :: 0 <= i < |top| ==> Medalled(top)[i].trophy == Trophies[i]
    ensures forall i, j :: 0 <= i < j < |top| ==> Medalled(top)[i].trophy != Medalled(top)[j].trophy
    ensures forall i, j :: 0 <= i < j < |top| ==> Medalled(top)[i].strength >= Medalled(top)[j].strength
  {
  }

  /** The board built from a participant list has min(3, n) rows, the trophy
      index never leaves 0..2, each trophy is given at most once and in order,
      strengths do not increase down the board, and gold goes to an entry at
      least as strong as every recorded one. */
  lemma PodiumOfList(data: seq<Entry>)
    ensures |TopThree(data)| <= |Trophies|
    ensures var rows := Medalled(TopThree(data));
      && |rows| == (if |data| < 3 then |data| else 3)
      && (forall i :: 0 <= i < |rows| ==> rows[i].trophy == Trophies[i])
      && (forall i, j :: 0 <= i < j < |rows| ==> rows[i].trophy != rows[j].trophy)
      && (forall i, j :: 0 <= i < j < |rows| ==> rows[i].strength >= rows[j].strength)
      && (data != [] ==> rows[0].trophy == Gold)
      && (data != [] ==> forall k :: 0 <= k < |data| ==> data[k].strength <= rows[0].strength)
  {
    var top := TopThree(data);
    TopThreeDescending(data);
    MedalledRows(top);
    if data != [] {
      TopThreeLeads(data);
    }
  }
}
