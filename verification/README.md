# Trading sessions

A Dafny model of the `trading_sessions` crate. The crate takes a Unix timestamp in
seconds and reduces it to its UTC hour of day: `(t % 86400) / 3600`. It then maps
that hour through a fixed table to one of six trading-session labels: `Tokyo`,
`Tokyo_London`, `London`, `London_NewYork`, `NewYork` and `Undefined`. The rule is
used in three places:

- `IdentifyTradingSession::identify_trading_session` classifies one `u32` timestamp
  with an inclusive-range `match`.
- `SessionVerification::verify` compares a caller's session name with that result.
- `SessionColumn::apply_session_column` restates the table as a polars
  `when(..).then(..)` chain and derives a `Session` column from a `time` column.

Modules:

- `Time` (`time.dfy`): the day and hour constants, the `u32` range, `HourOf`, and
  day periodicity.
- `Session` (`session.dfy`): the `Label` datatype, its strings and their parser,
  the half-open hour windows the doc comments give each session, `Classify`, and
  `IdentifyTradingSession`.
- `Verification` (`verification.dfy`): `Verify`.
- `SessionColumn` (`session_column.dfy`): the `when/then/otherwise` chain as data
  with first-match evaluation, the chain the source builds, the per-row `Annotate`,
  the agreement and divergence of the two paths, and the chain with the documented
  fallback.

The bulk path keeps the code's behaviour. From 22:00 to 23:59 UTC the column holds
`"hello"`, while the scalar classifier returns `"Undefined"`. The column's doc
comment promises `"Undefined"` for those hours. `BulkDivergence` states the gap;
see "## Findings".

The classifier's doc examples use 1708574400, 1708596000 and 1708696800. By the
code's arithmetic their hours are 4, 10 and 14.

## Model

| member | source | states |
|---|---|---|
| Time.HourOf | trading_sessions/src/trading_sessions.rs:42 | The hour lies in [0, 23], and the timestamp's second of the day falls inside that hour: `h*3600 <= t % 86400 < (h+1)*3600`. |
| Time.HourOfNextDay | trading_sessions/src/trading_sessions.rs:42 | Adding one day (86400 s) does not change the hour. |
| Time.HourOfPeriodic | trading_sessions/src/trading_sessions.rs:42 | Adding any whole number of days does not change the hour. |
| Session.ToString | trading_sessions/src/trading_sessions.rs:45-50 | Every label's string (the six literals of the `match`) reads back as that label, so no two labels share a string. |
| Session.ToStringInjective | trading_sessions/src/trading_sessions.rs:45-50 | The six label strings are pairwise distinct. |
| Session.ParseLabelInverse | trading_sessions/src/trading_sessions.rs:45-50 | A parsed string is the string of the label returned. A string that is not parsed, such as `"hello"`, is not the string of any label. |
| Session.Classify | trading_sessions/src/trading_sessions.rs:44-51 | A named session returned for an hour has that hour in its documented window (Tokyo [0,7), Tokyo_London [7,9), London [9,13), London_NewYork [13,16), NewYork [16,22)). `Undefined` is returned only when no window holds the hour. |
| Session.ClassifyUnique | trading_sessions/src/trading_sessions.rs:10-16 | An hour is in a label's documented window if and only if the classifier returns that named label. So the windows are disjoint and agree with the `match`. |
| Session.IdentifyTradingSession | trading_sessions/src/trading_sessions.rs:41-52 | The returned string always parses to the label for the timestamp's hour, so it is one of the six labels. It is `"Undefined"` exactly when the hour is 22 or later. |
| Session.IdentifyNextDay | trading_sessions/src/trading_sessions.rs:42 | One day later, when the result still fits in `u32`, gives the same session. |
| Session.IdentifyPeriodic | trading_sessions/src/trading_sessions.rs:42 | Any whole number of days later, within `u32`, gives the same session. |
| Session.IdentifyExamples | trading_sessions/src/trading_sessions.rs:23-30 | 1708574400 (hour 4) is Tokyo, 1708596000 (hour 10) is London, and 1708696800 (hour 14) is London_NewYork. |
| Verification.Verify | trading_sessions/src/trading_sessions.rs:88-92 | True if and only if the name parses to the timestamp's classified label. A string that is not a label never verifies. |
| Verification.VerifyLabel | trading_sessions/src/trading_sessions.rs:88-92 | A label's string verifies if and only if the classifier returns that label. |
| Verification.VerifyExactlyOne | trading_sessions/src/trading_sessions.rs:88-92 | The classifier's own string verifies, and no two different strings verify for the same timestamp. |
| Verification.VerifyPeriodic | trading_sessions/src/trading_sessions.rs:88-92 | Verification gives the same answer whole days later, within `u32`. |
| Verification.VerifyExamples | trading_sessions/src/trading_sessions.rs:67-76 | (1708574400, "Tokyo") verifies, (1708596000, "Tokyo") does not, and (1708696800, "London_NewYork") verifies. |
| SessionColumn.EvalFrom | trading_sessions/src/trading_sessions.rs:146-156 | First-match semantics of a `when/then/otherwise` chain: the value comes from the first arm whose bound the hour does not exceed, or is the fallback when every arm rejects the hour. |
| SessionColumn.Eval | trading_sessions/src/trading_sessions.rs:146-156 | The same first-match characterisation for a whole chain. |
| SessionColumn.SessionChain | trading_sessions/src/trading_sessions.rs:146-156 | The source's five arms (bounds 6, 8, 12, 15, 21) are exactly the arms built from the documented windows. The fallback `"hello"` is not the string of any label. |
| SessionColumn.BulkLabel | trading_sessions/src/trading_sessions.rs:146-156 | A row's `Session` value is the scalar classifier's string for hours 0–21, and `"hello"` for hours 22–23. |
| SessionColumn.BulkAgreement | trading_sessions/src/trading_sessions.rs:146-155 | For hours 0–21 the chain's value is the scalar classifier's string. |
| SessionColumn.BulkDivergence | trading_sessions/src/trading_sessions.rs:156 | For hours 22–23 the chain gives `"hello"` and the classifier gives `"Undefined"`. They differ, and `"hello"` is not any label. |
| SessionColumn.BulkAgreesIff | trading_sessions/src/trading_sessions.rs:146-156 | The chain and the classifier agree on an hour if and only if the hour is before 22. |
| SessionColumn.Annotate | trading_sessions/src/trading_sessions.rs:144-158 | The column has one value per row. A row before 22:00 holds the scalar classifier's string for its hour, and any later row holds `"hello"`. |
| SessionColumn.AnnotateConcat | trading_sessions/src/trading_sessions.rs:145-157 | Annotating a concatenation gives the concatenation of the annotations, so each row depends only on its own timestamp. |
| SessionColumn.AnnotateVerifies | trading_sessions/src/trading_sessions.rs:88-92 | For a `u32` timestamp, a row's value verifies against that timestamp if and only if its hour is before 22. |
| SessionColumn.AnnotateExample | trading_sessions/src/trading_sessions.rs:114-131 | The column [1708574400, 1708596000, 1708696800] annotates to ["Tokyo", "London", "London_NewYork"]. |
| SessionColumn.HelloCounterexample | trading_sessions/src/trading_sessions.rs:156 | 1708639200 (hour 22) annotates to `"hello"`, while the classifier says `"Undefined"`. |
| SessionColumn.IntendedAgreement | trading_sessions/src/trading_sessions.rs:99-105 | With the documented fallback, the chain agrees with the scalar classifier on every hour 0–23. |
| SessionColumn.AnnotateIntended | trading_sessions/src/trading_sessions.rs:95-105 | With the documented fallback, every row holds the scalar classifier's string for its hour. |
| SessionColumn.AnnotateIntendedVerifies | trading_sessions/src/trading_sessions.rs:88-92 | With the documented fallback, every `u32` row verifies against its own timestamp. |

## Findings

| source | as written | input that shows it | evidently intended | confidence | as-written member | corrected member |
|---|---|---|---|---|---|---|
| trading_sessions/src/trading_sessions.rs:156 | `.otherwise(lit("hello"))` labels hours 22–23 `"hello"` | time 1708639200 (22:00 UTC) gives Session `"hello"`, but `identify_trading_session` gives `"Undefined"` | `"Undefined"`, as the doc comment at line 105 and the scalar path at line 50 say | high; not executed | SessionColumn.BulkDivergence | SessionColumn.IntendedAgreement |

`Annotate` models the code as written. `AnnotateIntended` is the corrected column. It is built from `IntendedChain`, whose arms come from the documented windows and whose fallback is `ToString(Undefined)`.

## Left out

- The polars `LazyFrame` machinery is not modelled: `with_column`, `col`/`lit` expression building, deferred evaluation and `collect()`. The model keeps only the value the expression computes for each row.
- Errors from a missing or non-integer `time` column are left out. They come from polars, not from this crate.
- Frame-level idempotence is left out. Re-applying the transformation overwrites `Session` with `Annotate` of the same `time` column, and `Annotate` is a pure function of that column.
- Annotate: assumes three things about polars that the model does not check. First, `Expr / Expr` on integer columns is integer division, so each row's hour is `HourOf`. Second, the `time` column holds integers: a float column would be accepted, and a fractional hour such as 6.5 would take a later arm ("Tokyo_London" at 06:30, where the scalar path says "Tokyo"). Third, no `time` value is null: a null row fails every `lt_eq`, and `seq<nat>` cannot represent it.
- Negative values in the bulk `time` column are left out. `Annotate` takes natural numbers, and polars' remainder on negative integers is not modelled. The column's integer width is not modelled either.
- `trading_sessions/src/lib.rs` is not part of this model. It holds only struct declarations and crate documentation that repeat `trading_sessions.rs`.
- The `new` constructors are left out. They only wrap their arguments.
- Rust `String` allocation is left out. Strings are `seq<char>`.
- Daylight saving, time zones and calendars are left out. The crate itself does none of this.
