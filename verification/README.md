# Grip-strength kiosk: the submission callback

This project models the core of the grip-strength kiosk: `update_participants`, the callback that runs each time the Submit button is pressed. The callback:

- ignores the event until the button has been clicked;
- rejects a submission with a missing field;
- rejects a submission whose age `int()` cannot read or whose strength `float()` cannot read (a fractional number given as age is truncated, not rejected);
- otherwise appends the new participant to the session's list.

After a successful submission it recomputes three views from the whole list:

- a message comparing the new strength with the average of the earlier ones;
- a bar chart of every participant, in submission order;
- a top-three leaderboard. It is sorted strongest first, equal strengths stay in submission order, and the rows get gold, silver and bronze by position.

Modules:

- `Participants` holds the entry record `Entry(name, age, strength)` and its projections.
- `Coerce` models Python's `int(...)` and `float(...)` on a form value:
  - a number is truncated toward zero, or taken as it is;
  - text is parsed as a decimal literal after stripping white space.
- `Validation` models the click guard, the truthiness checks and the two conversions. Together they decide whether a submission is `Idle`, `Rejected` (with one of two reasons) or `Accepted`.
- `Comparison` models the sum and mean of the earlier strengths and the first/above/below/level verdict.
- `Ranking` models the stable descending sort, as an insertion sort, and the cut to three entries.
- `Chart` models the bar chart data.
- `Leaderboard` models the trophies and the display loop.
- `Sessions` works through a concrete session against `Kiosk`: Ann (30), Bo (50), Cy (10), a rejected submission with age 0, then Dee (5).
- `Kiosk` holds:
  - the session store, a class whose entry list only grows at the end;
  - `UpdateParticipants`, the whole callback.

The model follows the callback's code wherever a looser reading of the kiosk's rules would differ:

- An age of `0` is falsy in Python, so `not age` rejects it as a missing field (app.py:142), although zero might be expected to count as a given value. `Validation.ZeroAgeRejected` states this.
- A strength of `0` is checked with `is None` and is accepted (`Validation.ZeroStrengthAccepted`).
- Ages are not required to be positive. A negative age such as `-3` passes both checks, and a fractional age is truncated by `int` (`Validation.FractionalAgeBecomesZero`).

## Model

| member | source | states |
|---|---|---|
| Validation.Admit | app.py:136-149 | The submission is idle exactly when `n_clicks` is falsy. It is rejected as a missing field exactly when the button was clicked and the name is empty or None, the age is falsy, or the strength is None. An accepted entry carries the submitted name. |
| Validation.AcceptedExactly | app.py:138-153 | A submission is recorded as entry `e` if and only if all of these hold: it was clicked; all fields are present; `e.name` is the name; `int(age)` succeeds with `e.age`; `float(strength)` succeeds with `e.strength`. |
| Validation.InvalidNumberExactly | app.py:145-149 | The "must be an integer / numeric" rejection happens if and only if every field passed the presence check and `int(age)` or `float(strength)` fails. |
| Validation.ZeroStrengthAccepted | app.py:142-149 | A strength of exactly 0 passes the presence check (only None is missing) and is recorded as 0. |
| Validation.ZeroAgeRejected | app.py:142-143 | An age of 0 is reported as a missing field, whatever the strength. |
| Validation.FractionalAgeBecomesZero | app.py:142-146 | Age 0.5 is truthy and passes the presence check; `int` then truncates it, so the entry is recorded with age 0. |
| Validation.EmptyStrengthTextIsInvalid | app.py:142-149 | An empty strength text is not None, so it passes the presence check, but `float` rejects it. |
| Validation.DecimalTextIsStrengthNotAge | app.py:145-149 | Decimal text `w.f` is rejected as an age but accepted as a strength, with the value of its whole part plus its fraction. |
| Coerce.Trunc | app.py:146 | `int` of a number truncates toward zero. A non-negative x gives the largest integer not above x. A negative x gives the smallest integer not below x. |
| Coerce.TrimStartDropsSpace | app.py:146-147 | Stripping the front removes only leading white space: the result is a suffix of the text, and every character removed is white space. |
| Coerce.TrimEndDropsSpace | app.py:146-147 | Stripping the back removes only trailing white space: every character removed is white space. |
| Coerce.TrimPadded | app.py:146-147 | A literal with white space on either side strips back to exactly that literal, and white space alone strips to nothing. |
| Coerce.ParsePaddedInt | app.py:146-147 | `int` and `float` ignore white space around an integer's decimal text, so `int(" 12 ")` is 12 and `float(" 12 ")` is 12.0. |
| Coerce.ParseShowInt | app.py:146 | `int` reads back the decimal text of every integer within its digit limit, negative ones included. The model's `int` has no digit limit (see Left out). |
| Coerce.IntTextIsRealText | app.py:146-147 | Every text that `int` accepts, `float` accepts too, with the same value. |
| Coerce.DecimalText | app.py:146-147 | `int` refuses a literal with a decimal point. `float` accepts it, with the value of its whole part plus its fraction. |
| Kiosk.ParticipantStore.constructor | app.py:116 | The session store starts empty. |
| Kiosk.ParticipantStore.Append | app.py:152-153 | Appending adds exactly the new entry at the end and leaves the earlier entries unchanged. |
| Kiosk.UpdateParticipants | app.py:136-223 | Unless the submission is accepted, the callback leaves the store unchanged and clears the chart (`{}`) and the board (`""`). An accepted submission appends exactly the new entry. The message is blank, missing-field or needs-numbers according to the admission. Otherwise it is the comparison of the new entry with the extended list. The figure shows the extended list and the board its medalled top three. The welcome message appears exactly when the store was empty. |
| Comparison.CompareAppended | app.py:156-176 | The verdict is "first" exactly when no entry came before. Otherwise the average is the mean of the earlier entries only, and the verdict is above, below or level exactly when the new strength times the earlier count is greater than, less than or equal to the earlier total. |
| Comparison.SumWithin | app.py:160-161 | The total of the strengths lies between the count times a lower bound and the count times an upper bound of every strength. |
| Comparison.MeanWithin | app.py:160-161 | Any lower and upper bound that hold for every earlier strength also bound their average. |
| Comparison.CompareAgainstAll | app.py:163-176 | A strength above every earlier one gets the "higher" message. One below every earlier one gets "below". One equal to all of them gets "matched", at its own value. |
| Comparison.MeanBetweenExtremes | app.py:160-161 | The average of the earlier strengths lies between the weakest and the strongest of them. |
| Chart.ChartFollowsSubmissions | app.py:179-180 | The chart has one bar per entry, labelled with its name and sized by its strength, in submission order. A new entry adds one bar at the right and leaves the other bars unchanged. |
| Chart.ChartAndRankingAgree | app.py:179-196 | The chart's strengths and the sorted list's strengths are the same multiset. |
| Chart.ChartIsNotRanked | app.py:179-196 | After Ann (30) then Bo (50), the bars read Ann, Bo while the ranking reads Bo, Ann. |
| Ranking.InsertPermutes | app.py:195 | Inserting into the ranking adds exactly one copy of the new entry to the multiset of entries. |
| Ranking.InsertDescending | app.py:195 | Inserting into a list sorted by strength (strongest first) keeps it sorted. |
| Ranking.InsertKeepsRuns | app.py:195 | Inserting an entry places it ahead of every entry of its own strength and leaves the order among them unchanged. |
| Ranking.SortDescIsRanking | app.py:195 | `sorted(data, key=strength, reverse=True)` is non-increasing in strength, is a permutation of the list, and is stable: for every strength, the entries with that strength keep their submission order. |
| Ranking.RankingIsUnique | app.py:195 | Every stable, non-increasing rearrangement of the list equals the model's ranking, so the insertion sort computes the one order a stable descending sort produces. |
| Ranking.SameRunsSameList | app.py:195 | Two non-increasing lists with the same subsequence for every strength are equal. |
| Ranking.SortedStaysPut | app.py:195 | A list already in ranking order is its own ranking. |
| Ranking.TopThree | app.py:195-196 | The leaderboard holds min(3, n) entries and is the beginning of the ranking. |
| Ranking.TopThreeIsBest | app.py:195-196 | The leaderboard holds entries of the list, strongest first. Each is at least as strong as every entry it leaves out. |
| Ranking.TopThreeSplits | app.py:195-196 | The ranking is the leaderboard followed by the entries it leaves out. Together they hold every recorded entry. |
| Ranking.TopThreeLeads | app.py:195-196 | First place goes to an entry at least as strong as every recorded one. |
| Ranking.TopThreePrefersEarlier | app.py:195-196 | Among entries of equal strength, the leaderboard shows a prefix of them in submission order: the earliest submitted come first. |
| Leaderboard.BuildPodium | app.py:199-221 | The display loop over `enumerate(top_three)` produces row i with trophy i, plus the name and strength of the i-th leaderboard entry. |
| Leaderboard.PodiumOfList | app.py:195-221 | The board has min(3, n) rows. The trophy index stays inside the three trophies, each trophy is given at most once and in order, and strengths do not increase down the board. Gold goes to an entry at least as strong as every recorded one. |
| Sessions.SessionAverages | app.py:160-161 | In the worked session the average is 30 after Ann and 40 after Ann and Bo. |
| Sessions.RankThree | app.py:195 | A submission that is second-strongest of three is ranked second, between the strongest and the third. |
| Sessions.RankFour | app.py:195 | A submission that is second-strongest of four is ranked second. |
| Sessions.SessionRanking | app.py:195-196 | The leaderboard reads Bo, Ann, Cy after three entries. With Dee (5) added it still reads Bo, Ann, Cy. |
| Sessions.SessionAdmissions | app.py:138-149 | In the worked session, Ann, Bo, Cy and Dee with age 7 are accepted with their truncated ages. Dee with age 0 is rejected as a missing field. |
| Sessions.SecondSubmission | app.py:156-168 | Bo (50) after Ann (30) gets the "higher than the average of 30" message. |
| Sessions.ThirdSubmission | app.py:156-221 | Cy (10) after Ann and Bo gets the "below the average of 40" message. The board then reads gold Bo 50, silver Ann 30, bronze Cy 10. |
| Sessions.FifthSubmission | app.py:195-221 | Once Dee (5) is recorded as the fourth entry, the board still reads gold Bo, silver Ann, bronze Cy. |

## Left out

- The Dash layout, the `dcc.Store` serialisation round trip between browser and server, and `run_server` are outside the model. The store is modelled as a single in-memory list owned by the session.
- Message wording, emoji and `:.1f` number formatting are left out. Messages are modelled as constructors carrying the name, strength and average. The "Top 3" heading and the CSS styles of the rows are presentation and are not modelled either.
- The Plotly figure's title, axis titles, colour and template are not modelled. Only the bar labels and heights are.
- Strengths are exact reals, not IEEE doubles. The model has no rounding in `sum` or in the division for the mean, and no NaN, infinity or `OverflowError`.
- Comparison.CompareAgainstAll: this holds over exact reals, and the "equal to all of them" case is where doubles differ most. With doubles, three earlier entries of 0.1 average to `0.10000000000000002`, so a new 0.1 takes the "below" branch (app.py:168). The model gives it the "matched" verdict.
- `int(...)` or `float(...)` raising `TypeError` for a value that is neither a number nor text cannot arise here. Form values are modelled as `Field = Absent | Num | Text`.
- Coerce.ParseInt does not accept underscores between digits (`1_000`), non-ASCII digits or non-ASCII white space, all of which Python's `int` reads. On exponents (`1e3`), `inf` and `nan` it agrees with `int`, which rejects them too. It reads integer texts of any length. CPython 3.11+ raises ValueError past 4300 digits by default, which app.py:148 turns into the needs-numbers rejection; the model accepts such an age instead.
- Coerce.ParseReal does not accept exponents (`1e3`), `inf`/`infinity`/`nan`, underscores between digits, non-ASCII digits or non-ASCII white space, all of which Python's `float` reads. The model therefore rejects a few strength texts that Python accepts.
- The feet-and-inches converter of the jump-challenge variant has no code in the grip-strength callback. It is not part of this model.
