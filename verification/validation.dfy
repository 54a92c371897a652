/** The click guard and the input checks at the head of `update_participants`:
    a raw submission is either ignored, rejected with one of two reasons, or
    turned into a new entry. */
module Validation {
  import opened Participants
  import opened Coerce

  /** A numeric form field as it reaches the callback: missing (None), a
      number, or text. */
  datatype Field = Absent | Num(x: real) | Text(s: string)

  /** Why a submission was turned away. */
  datatype Rejection =
    | MissingField    // "Please fill in all the fields ..."
    | InvalidNumber   // "Age must be an integer, and Strength must be numeric."

  datatype Admission = Idle | Rejected(reason: Rejection) | Accepted(entry: Entry)

  /** Python truthiness of `n_clicks`: None and 0 are false. */
  predicate Clicked(nClicks: Option<int>)
  {
    nClicks.Some? && nClicks.value != 0
  }

  /** Python truthiness of the name: None and "" are false. */
  predicate Named(name: Option<string>)
  {
    name.Some? && name.value != []
  }

  /** Python truthiness of a numeric field: None, 0 and "" are false. */
  predicate Truthy(f: Field)
  {
    match f
    case Absent => false
    case Num(x) => x != 0.0
    case Text(s) => s != []
  }

  /** `int(f)`. `int(None)` raises TypeError in Python; the truthiness check
      runs first, so that case never reaches here and is given `None`. */
  function AsInt(f: Field): Option<int>
  {
    match f
    case Absent => None
    case Num(x) => Some(Trunc(x))
    case Text(s) => ParseInt(s)
  }

  /** `float(f)`; as with `AsInt`, the absent case never reaches here. */
  function AsReal(f: Field): Option<real>
  {
    match f
    case Absent => None
    case Num(x) => Some(x)
    case Text(s) => ParseReal(s)
  }

  /** The decision taken on one callback invocation before anything is stored. */
  function Admit(nClicks: Option<int>, name: Option<string>, age: Field, strength: Field): (a: Admission)
    ensures a.Idle? <==> !Clicked(nClicks)
    ensures a == Rejected(MissingField) <==>
      Clicked(nClicks) && (!Named(name) || !Truthy(age) || strength.Absent?)
    ensures a.Accepted? ==> Named(name) && a.entry.name == name.value
  {
    if !Clicked(nClicks) then Idle
    else if !Named(name) || !Truthy(age) || strength.Absent? then Rejected(MissingField)
    else
      match (AsInt(age), AsReal(strength))
      case (Some(years), Some(lbs)) => Accepted(Entry(name.value, years, lbs))
      case _ => Rejected(InvalidNumber)
  }

  /** Exactly when a submission is recorded, and with which values. */
  lemma AcceptedExactly(nClicks: Option<int>, name: Option<string>, age: Field, strength: Field, e: Entry)
    ensures Admit(nClicks, name, age, strength) == Accepted(e) <==>
      && Clicked(nClicks) && Named(name) && Truthy(age) && !strength.Absent?
      && e.name == name.value
      && AsInt(age) == Some(e.age)
      && AsReal(strength) == Some(e.strength)
  {
  }

  /** The type-error rejection: every field present, but age is not an
      integer or strength is not a number. */
  lemma InvalidNumberExactly(nClicks: Option<int>, name: Option<string>, age: Field, strength: Field)
    ensures Admit(nClicks, name, age, strength) == Rejected(InvalidNumber) <==>
      && Clicked(nClicks) && Named(name) && Truthy(age) && !strength.Absent?
      && (AsInt(age).None? || AsReal(strength).None?)
  {
  }

  /** A strength of exactly zero passes the presence check: only None is missing. */
  lemma ZeroStrengthAccepted(nClicks: Option<int>, name: string, age: Field)
    requires Clicked(nClicks) && name != [] && Truthy(age) && AsInt(age).Some?
    ensures Admit(nClicks, Some(name), age, Num(0.0)) == Accepted(Entry(name, AsInt(age).value, 0.0))
  {
  }

  /** An age of zero is falsy and is reported as a missing field. */
  lemma ZeroAgeRejected(nClicks: Option<int>, name: Option<string>, strength: Field)
    requires Clicked(nClicks)
    ensures Admit(nClicks, name, Num(0.0), strength) == Rejected(MissingField)
  {
  }

  /** The presence check runs before `int`: a fractional age below one is
      truthy, and truncation then records it as age 0. */
  lemma FractionalAgeBecomesZero()
    ensures Admit(Some(1), Some("Ann"), Num(0.5), Num(30.0)) == Accepted(Entry("Ann", 0, 30.0))
  {
  }

  /** Empty text for strength is present (not None) but not numeric. */
  lemma EmptyStrengthTextIsInvalid()
    ensures Admit(Some(1), Some("Bo"), Text("8"), Text("")) == Rejected(InvalidNumber)
  {
  }

  /** Decimal text `w.f` is a valid strength but never a valid age. */
  lemma DecimalTextIsStrengthNotAge(nClicks: Option<int>, name: string, w: string, f: string, age: Field)
    requires Clicked(nClicks) && name != [] && AllDigits(w) && AllDigits(f) && |w| + |f| > 0
    requires Truthy(age) && AsInt(age).Some?
    ensures Admit(nClicks, Some(name), Text(w + "." + f), Num(1.0)) == Rejected(InvalidNumber)
    ensures Admit(nClicks, Some(name), age, Text(w + "." + f)) ==
      Accepted(Entry(name, AsInt(age).value, DecimalParts(w, f).value))
  {
    DecimalText(w, f);
  }
}
