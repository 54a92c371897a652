/** The worked session used to illustrate the pipeline: Ann (30), Bo (50),
    Cy (10) and Dee (5), submitted in that order. */
module Sessions {
  import opened Participants
  import opened Validation
  import opened Comparison
  import opened Ranking
  import opened Leaderboard
  import opened Kiosk

  /** The averages of the worked session: 30 after Ann, 40 after Ann and Bo. */
  lemma SessionAverages(ann: Entry, bo: Entry)
    requires ann.strength == 30.0 && bo.strength == 50.0
    ensures Mean([ann]) == 30.0 && Mean([ann, bo]) == 40.0
  {
    assert [ann][..0] == [] && [ann, bo][..1] == [ann];
    assert Sum([ann]) == 30.0;
    assert Sum([ann, bo]) == 80.0;
  }

  lemma InsertSecondOfThree(w: Entry, x: Entry, y: Entry)
    requires x.strength > w.strength >= y.strength
    ensures Insert(w, [x, y]) == [x, w, y]
  {
    var t := [x, y];
    assert t[0] == x && t[1..] == [y];
    assert Insert(w, t) == [x] + Insert(w, [y]);
    assert Insert(w, [y]) == [w] + [y] == [w, y];
    assert [x] + [w, y] == [x, w, y];
  }

  lemma InsertSecondOfFour(w: Entry, x: Entry, y: Entry, z: Entry)
    requires x.strength > w.strength >= y.strength
    ensures Insert(w, [x, y, z]) == [x, w, y, z]
  {
    assert [x, y, z][1..] == [y, z];
  }

  /** A submission that is second-strongest of three is ranked second. */
  lemma RankThree(w: Entry, x: Entry, y: Entry)
    requires x.strength > w.strength >= y.strength
    ensures SortDesc([w, x, y]) == [x, w, y]
  {
    SortedStaysPut([x, y]);
    assert [w, x, y][1..] == [x, y];
    InsertSecondOfThree(w, x, y);
  }

  /** A submission that is second-strongest of four is ranked second. */
  lemma RankFour(w: Entry, x: Entry, y: Entry, z: Entry)
    requires x.strength > w.strength >= y.strength >= z.strength
    ensures SortDesc([w, x, y, z]) == [x, w, y, z]
  {
    SortedStaysPut([x, y, z]);
    assert [w, x, y, z][1..] == [x, y, z];
    InsertSecondOfFour(w, x, y, z);
  }

  /** The rankings of the worked session: Bo, Ann, Cy, with Dee (5) cut. */
  lemma SessionRanking(ann: Entry, bo: Entry, cy: Entry, dee: Entry)
    requires ann.strength == 30.0 && bo.strength == 50.0 && cy.strength == 10.0 && dee.strength == 5.0
    ensures TopThree([ann, bo, cy]) == [bo, ann, cy]
    ensures TopThree([ann, bo, cy, dee]) == [bo, ann, cy]
  {
    RankThree(ann, bo, cy);
    RankFour(ann, bo, cy, dee);
    assert [bo, ann, cy, dee][..3] == [bo, ann, cy];
  }

  /** A worked session: Ann (30) is first; Bo (50) is above the average 30;
      Cy (10) is below the average 40 and the board reads Bo, Ann, Cy; a
      submission with age 0 is turned away; Dee (5) is recorded but does not
      reach the board. */
  method Session()
  {
    var store := new ParticipantStore();
    SessionAdmissions();
    var m, f, b := UpdateParticipants(store, Some(1), Some("Ann"), Num(10.0), Num(30.0));
    assert m == Welcome("Ann");
    SessionSecond(store);
  }

  /** The session after Ann: Bo is above the average 30. */
  method SessionSecond(store: ParticipantStore)
    requires store.entries == [Entry("Ann", 10, 30.0)]
    modifies store
  {
    SessionAdmissions();
    var m, f, b := UpdateParticipants(store, Some(2), Some("Bo"), Num(8.0), Num(50.0));
    SecondSubmission(store, Entry("Ann", 10, 30.0), Entry("Bo", 8, 50.0), m);
    SessionThird(store);
  }

  /** The session after Ann and Bo: Cy is below the average 40, and the board
      reads Bo, Ann, Cy. */
  method SessionThird(store: ParticipantStore)
    requires store.entries == [Entry("Ann", 10, 30.0), Entry("Bo", 8, 50.0)]
    modifies store
  {
    SessionAdmissions();
    var m, f, b := UpdateParticipants(store, Some(3), Some("Cy"), Num(9.0), Num(10.0));
    ThirdSubmission(store, Entry("Ann", 10, 30.0), Entry("Bo", 8, 50.0), Entry("Cy", 9, 10.0), m, b);
    SessionContinued(store);
  }

  /** The session after Ann, Bo and Cy: a submission with age 0 is turned
      away, and Dee is recorded below the leaderboard's cut. */
  method SessionContinued(store: ParticipantStore)
    requires store.entries == [Entry("Ann", 10, 30.0), Entry("Bo", 8, 50.0), Entry("Cy", 9, 10.0)]
    modifies store
  {
    SessionAdmissions();
    var m, f, b := UpdateParticipants(store, Some(4), Some("Dee"), Num(0.0), Num(5.0));
    assert m == FillAllFields;
    m, f, b := UpdateParticipants(store, Some(5), Some("Dee"), Num(7.0), Num(5.0));
    FifthSubmission(store, Entry("Ann", 10, 30.0), Entry("Bo", 8, 50.0), Entry("Cy", 9, 10.0), Entry("Dee", 7, 5.0), b);
  }

  /** The five submissions of the worked session, as the validator sees them. */
  lemma SessionAdmissions()
    ensures Admit(Some(1), Some("Ann"), Num(10.0), Num(30.0)) == Accepted(Entry("Ann", 10, 30.0))
    ensures Admit(Some(2), Some("Bo"), Num(8.0), Num(50.0)) == Accepted(Entry("Bo", 8, 50.0))
    ensures Admit(Some(3), Some("Cy"), Num(9.0), Num(10.0)) == Accepted(Entry("Cy", 9, 10.0))
    ensures Admit(Some(4), Some("Dee"), Num(0.0), Num(5.0)) == Rejected(MissingField)
    ensures Admit(Some(5), Some("Dee"), Num(7.0), Num(5.0)) == Accepted(Entry("Dee", 7, 5.0))
  {
  }

  lemma SecondSubmission(store: ParticipantStore, ann: Entry, bo: Entry, m: Message)
    requires ann == Entry("Ann", 10, 30.0) && bo == Entry("Bo", 8, 50.0)
    requires store.entries == [ann, bo] && m == Announce(bo, Compare(store.entries))
    ensures m == Higher("Bo", 50.0, 30.0)
  {
    SessionAverages(ann, bo);
    assert store.entries[..1] == [ann];
  }

  lemma ThirdSubmission(store: ParticipantStore, ann: Entry, bo: Entry, cy: Entry, m: Message, b: Board)
    requires ann == Entry("Ann", 10, 30.0) && bo == Entry("Bo", 8, 50.0) && cy == Entry("Cy", 9, 10.0)
    requires store.entries == [ann, bo, cy] && m == Announce(cy, Compare(store.entries))
    requires b == Board(Medalled(TopThree(store.entries)))
    ensures m == Lower("Cy", 10.0, 40.0)
    ensures b == Board([Place(Gold, "Bo", 50.0), Place(Silver, "Ann", 30.0), Place(Bronze, "Cy", 10.0)])
  {
    SessionAverages(ann, bo);
    SessionRanking(ann, bo, cy, Entry("Dee", 7, 5.0));
    assert store.entries[..2] == [ann, bo];
  }

  lemma FifthSubmission(store: ParticipantStore, ann: Entry, bo: Entry, cy: Entry, dee: Entry, b: Board)
    requires ann == Entry("Ann", 10, 30.0) && bo == Entry("Bo", 8, 50.0) && cy == Entry("Cy", 9, 10.0)
    requires dee == Entry("Dee", 7, 5.0)
    requires store.entries == [ann, bo, cy, dee]
    requires b == Board(Medalled(TopThree(store.entries)))
    ensures b == Board([Place(Gold, "Bo", 50.0), Place(Silver, "Ann", 30.0), Place(Bronze, "Cy", 10.0)])
  {
    SessionRanking(ann, bo, cy, dee);
  }
}
