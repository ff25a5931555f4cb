/** The scalar classifier: an hour of the UTC day mapped to one of six session labels. */
module Session {
  import opened Time

  datatype Option<T> = None | Some(value: T)

  /** The closed set of labels the scalar classifier can return. */
  datatype Label = Tokyo | TokyoLondon | London | LondonNewYork | NewYork | Undefined

  /** The string the classifier hands back for each label. Every label is read
      back from its string, so no two labels share one. */
  function ToString(l: Label): (r: string)
    ensures ParseLabel(r) == Some(l)
  {
    match l
    case Tokyo => "Tokyo"
    case TokyoLondon => "Tokyo_London"
    case London => "London"
    case LondonNewYork => "London_NewYork"
    case NewYork => "NewYork"
    case Undefined => "Undefined"
  }

  /** Reads a label back from its string; any other string (such as "hello") has none. */
  function ParseLabel(s: string): Option<Label>
  {
    if s == "Tokyo" then Some(Tokyo)
    else if s == "Tokyo_London" then Some(TokyoLondon)
    else if s == "London" then Some(London)
    else if s == "London_NewYork" then Some(LondonNewYork)
    else if s == "NewYork" then Some(NewYork)
    else if s == "Undefined" then Some(Undefined)
    else None
  }

  /** `ParseLabel` inverts `ToString`: a parsed string is its label's string, and a
      string that does not parse is no label's string. */
  lemma ParseLabelInverse(s: string)
    ensures ParseLabel(s).Some? ==> ToString(ParseLabel(s).value) == s
    ensures ParseLabel(s).None? ==> forall l: Label :: ToString(l) != s
  {
  }

  /** Distinct labels render as distinct strings. */
  lemma ToStringInjective(a: Label, b: Label)
    ensures ToString(a) == ToString(b) ==> a == b
  {
  }

  /** The half-open window [start, end) of UTC hours the documentation gives each
      named session ("Tokyo: 12:00 AM - 7:00 AM", ...). Undefined has no window. */
  function WindowStart(l: Label): nat
  {
    match l
    case Tokyo => 0
    case TokyoLondon => 7
    case London => 9
    case LondonNewYork => 13
    case NewYork => 16
    case Undefined => 24
  }

  function WindowEnd(l: Label): nat
  {
    match l
    case Tokyo => 7
    case TokyoLondon => 9
    case London => 13
    case LondonNewYork => 16
    case NewYork => 22
    case Undefined => 24
  }

  predicate InWindow(h: Hour, l: Label)
  {
    WindowStart(l) <= h < WindowEnd(l)
  }

  /** The inclusive-range `match` of `identify_trading_session`. The result is the
      session whose documented window holds the hour, and Undefined only when no
      window does. */
  function Classify(h: Hour): (r: Label)
    ensures r != Undefined ==> InWindow(h, r)
    ensures r == Undefined ==> forall l: Label :: !InWindow(h, l)
  {
    match h
    case 0 | 1 | 2 | 3 | 4 | 5 | 6 => Tokyo
    case 7 | 8 => TokyoLondon
    case 9 | 10 | 11 | 12 => London
    case 13 | 14 | 15 => LondonNewYork
    case 16 | 17 | 18 | 19 | 20 | 21 => NewYork
    case _ => Undefined
  }

  /** The documented windows do not overlap, so a window that holds the hour names
      the one label the classifier returns. */
  lemma ClassifyUnique(h: Hour, l: Label)
    ensures InWindow(h, l) <==> (l != Undefined && Classify(h) == l)
  {
  }

  /** `IdentifyTradingSession::identify_trading_session` on a `u32` timestamp. */
  function IdentifyTradingSession(t: U32): (r: string)
    ensures ParseLabel(r) == Some(Classify(HourOf(t)))
    ensures r == "Undefined" <==> HourOf(t) >= 22
  {
    ToString(Classify(HourOf(t)))
  }

  /** The label depends only on the time of day: one more day, when it still fits
      in a `u32`, gives the same session. */
  lemma IdentifyNextDay(t: U32)
    requires t + SecondsPerDay < U32Limit
    ensures IdentifyTradingSession(t + SecondsPerDay) == IdentifyTradingSession(t)
  {
    HourOfNextDay(t);
  }

  /** The same for any whole number of days that stays within `u32`. */
  lemma IdentifyPeriodic(t: U32, k: nat)
    requires t + k * SecondsPerDay < U32Limit
    ensures IdentifyTradingSession(t + k * SecondsPerDay) == IdentifyTradingSession(t)
  {
    HourOfPeriodic(t, k);
  }

  /** The three timestamps of the classifier's documentation. */
  lemma IdentifyExamples()
    ensures HourOf(1708574400) == 4 && IdentifyTradingSession(1708574400) == "Tokyo"
    ensures HourOf(1708596000) == 10 && IdentifyTradingSession(1708596000) == "London"
    ensures HourOf(1708696800) == 14 && IdentifyTradingSession(1708696800) == "London_NewYork"
  {
  }
}
