/** `SessionVerification::verify`: does a caller's session name match the classifier? */
module Verification {
  import opened Time
  import opened Session

  /** Exact, case-sensitive string comparison against the classifier's answer. The
      result holds exactly when the name reads back as the label of the timestamp's
      hour; a string that names no label never verifies. */
  function Verify(t: U32, session: string): (r: bool)
    ensures r <==> ParseLabel(session) == Some(Classify(HourOf(t)))
  {
    ParseLabelInverse(session);
    session == IdentifyTradingSession(t)
  }

  /** Verifying a label's string is the same as asking whether the classifier
      returns that label. */
  lemma VerifyLabel(t: U32, l: Label)
    ensures Verify(t, ToString(l)) <==> Classify(HourOf(t)) == l
  {
  }

  /** Exactly one string verifies for each timestamp: the classifier's own. */
  lemma VerifyExactlyOne(t: U32, s1: string, s2: string)
    ensures Verify(t, IdentifyTradingSession(t))
    ensures Verify(t, s1) && Verify(t, s2) ==> s1 == s2
  {
  }

  /** Verification agrees across whole days that stay within `u32`. */
  lemma VerifyPeriodic(t: U32, k: nat, session: string)
    requires t + k * SecondsPerDay < U32Limit
    ensures Verify(t + k * SecondsPerDay, session) == Verify(t, session)
  {
    IdentifyPeriodic(t, k);
  }

  /** The three cases of the verifier's documentation. */
  lemma VerifyExamples()
    ensures Verify(1708574400, "Tokyo")
    ensures !Verify(1708596000, "Tokyo")
    ensures Verify(1708696800, "London_NewYork")
  {
    IdentifyExamples();
  }
}
