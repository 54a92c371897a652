/** Values shared by every stage of the kiosk's submission pipeline. */
module Participants {

  /** Present-or-absent, for form values that may be None. */
  datatype Option<+T> = None | Some(value: T)

  /** One recorded submission: the `{name, age, strength}` row the kiosk appends
      to its participant list. Strength is an exact real, not an IEEE double. */
  datatype Entry = Entry(name: string, age: int, strength: real)

  /** The strengths of `s`, in the order of `s`. */
  function Strengths(s: seq<Entry>): seq<real>
  {
    seq(|s|, i requires 0 <= i < |s| => s[i].strength)
  }

  /** The names of `s`, in the order of `s`. */
  function Names(s: seq<Entry>): seq<string>
  {
    seq(|s|, i requires 0 <= i < |s| => s[i].name)
  }
}
