/** One run of the kiosk's submission callback over the session's participant
    list: guard, validate, append, then recompute the message, the chart and
    the leaderboard from the whole list. */
module Kiosk {
  import opened Participants
  import opened Validation
  import opened Comparison
  import opened Ranking
  import opened Chart
  import opened Leaderboard

  /** The message line, without its wording or number formatting. */
  datatype Message =
    | Blank                                             // not clicked yet
    | FillAllFields                                     // a field is missing
    | NeedNumbers                                       // age or strength unreadable
    | Welcome(name: string)                             // first participant
    | Higher(name: string, strength: real, avg: real)   // above the earlier average
    | Lower(name: string, strength: real, avg: real)    // below the earlier average
    | Matched(name: string, avg: real)                  // exactly the earlier average

  /** The chart output: empty (`{}`) or bars. */
  datatype Figure = NoFigure | Figure(bars: Bars)

  /** The leaderboard output: empty (`""`) or the heading and its rows. */
  datatype Board = NoBoard | Board(places: seq<Place>)

  /** The message for an accepted entry `e` given its comparison verdict. */
  function Announce(e: Entry, v: Verdict): Message
  {
    match v
    case First => Welcome(e.name)
    case Above(avg) => Higher(e.name, e.strength, avg)
    case Below(avg) => Lower(e.name, e.strength, avg)
    case Level(avg) => Matched(e.name, avg)
  }

  /** The session's list of recorded entries, in submission order. It only
      ever grows at the end. */
  class ParticipantStore {
    var entries: seq<Entry>

    constructor ()
      ensures entries == []
    {
      entries := [];
    }

    /** `data.append(new_entry)`. */
    method Append(e: Entry)
      modifies this
      ensures entries == old(entries) + [e]
      ensures |entries| == |old(entries)| + 1
      ensures entries[..|old(entries)|] == old(entries)
    {
      entries := entries + [e];
    }
  }

  /** `update_participants`: the store changes only on an accepted submission,
      and then by exactly the new entry at the end; the three views are
      derived from the extended list. */
  method UpdateParticipants(store: ParticipantStore, nClicks: Option<int>, name: Option<string>,
                            age: Field, strength: Field)
    returns (message: Message, figure: Figure, board: Board)
    modifies store
    ensures var a := Admit(nClicks, name, age, strength);
      && (a.Idle? ==> message == Blank)
      && (a == Rejected(MissingField) ==> message == FillAllFields)
      && (a == Rejected(InvalidNumber) ==> message == NeedNumbers)
      && (!a.Accepted? ==> store.entries == old(store.entries) && figure == NoFigure && board == NoBoard)
      && (a.Accepted? ==> store.entries == old(store.entries) + [a.entry])
      && (a.Accepted? ==> message == Announce(a.entry, Compare(store.entries)))
      && (a.Accepted? ==> figure == Figure(ChartOf(store.entries)))
      && (a.Accepted? ==> board == Board(Medalled(TopThree(store.entries))))
    ensures Admit(nClicks, name, age, strength).Accepted? ==>
      (message.Welcome? <==> old(store.entries) == [])
  {
    var admission := Admit(nClicks, name, age, strength);
    match admission {
      case Idle =>
        message, figure, board := Blank, NoFigure, NoBoard;
      case Rejected(reason) =>
        message := if reason == MissingField then FillAllFields else NeedNumbers;
        figure, board := NoFigure, NoBoard;
      case Accepted(e) =>
        ghost var prior := store.entries;
        store.Append(e);
        var data := store.entries;
        CompareAppended(prior, e);
        message := Announce(e, Compare(data));
        figure := Figure(ChartOf(data));
        PodiumOfList(data);
        var rows := BuildPodium(TopThree(data));
        board := Board(rows);
    }
  }
}
