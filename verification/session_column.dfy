/** `SessionColumn::apply_session_column`: the session table restated as a
    `when(..).then(..)` chain and evaluated once per row of the `time` column. */
module SessionColumn {
  import opened Time
  import opened Session
  import Verification

  /** One `.when(hour <= bound).then(label)` arm. */
  datatype Arm = Arm(bound: int, value: string)

  /** A chain of arms tried in order, with the `.otherwise(..)` value last. */
  datatype Chain = Chain(arms: seq<Arm>, otherwise: string)

  /** True when no arm before index `i` accepts the hour. */
  ghost predicate NoEarlierMatch(arms: seq<Arm>, i: int, h: int)
    requires 0 <= i <= |arms|
  {
    forall j :: 0 <= j < i ==> h > arms[j].bound
  }

  /** First-match evaluation of the arms from index `i` on. The value is that of
      the first arm whose bound the hour does not exceed, or the fallback when
      every arm rejects it. */
  function EvalFrom(arms: seq<Arm>, otherwise: string, h: int, i: nat): (r: string)
    requires i <= |arms|
    requires NoEarlierMatch(arms, i, h)
    ensures NoEarlierMatch(arms, |arms|, h) ==> r == otherwise
    ensures !NoEarlierMatch(arms, |arms|, h) ==>
      exists k :: i <= k < |arms| && h <= arms[k].bound && NoEarlierMatch(arms, k, h) && r == arms[k].value
    decreases |arms| - i
  {
    if i == |arms| then otherwise
    else if h <= arms[i].bound then
      assert !NoEarlierMatch(arms, |arms|, h);
      arms[i].value
    else EvalFrom(arms, otherwise, h, i + 1)
  }

  /** Evaluates a whole chain on one hour. */
  function Eval(c: Chain, h: int): (r: string)
    ensures NoEarlierMatch(c.arms, |c.arms|, h) ==> r == c.otherwise
    ensures !NoEarlierMatch(c.arms, |c.arms|, h) ==>
      exists k :: 0 <= k < |c.arms| && h <= c.arms[k].bound && NoEarlierMatch(c.arms, k, h) && r == c.arms[k].value
  {
    EvalFrom(c.arms, c.otherwise, h, 0)
  }

  /** The chain exactly as the source builds it. Its arms are those of the
      documented windows; its fallback "hello" is no label's string. */
  function SessionChain(): (c: Chain)
    ensures c.arms == IntendedChain.arms
    ensures ParseLabel(c.otherwise) == None
  {
    Chain(
      [ Arm(6, "Tokyo"),
        Arm(8, "Tokyo_London"),
        Arm(12, "London"),
        Arm(15, "London_NewYork"),
        Arm(21, "NewYork") ],
      "hello")
  }

  /** The value the `Session` expression computes for a row whose hour is `h`:
      the scalar classifier's string until 22:00, "hello" from then on. */
  function BulkLabel(h: Hour): (r: string)
    ensures h < 22 ==> r == ToString(Classify(h))
    ensures h >= 22 ==> r == "hello"
  {
    var arms := SessionChain().arms;
    assert h < 22 ==> !NoEarlierMatch(arms, |arms|, h) by {
      if h < 22 {
        assert h <= arms[4].bound;
      }
    }
    Eval(SessionChain(), h)
  }

  /** Until 22:00 the chain and the scalar classifier name the same session. */
  lemma BulkAgreement(h: Hour)
    requires h < 22
    ensures BulkLabel(h) == ToString(Classify(h))
  {
  }

  /** From 22:00 on the chain falls through to "hello", which is not the scalar
      "Undefined" the documentation promises, and names no label at all. */
  lemma BulkDivergence(h: Hour)
    requires h >= 22
    ensures BulkLabel(h) == "hello"
    ensures ToString(Classify(h)) == "Undefined"
    ensures BulkLabel(h) != ToString(Classify(h))
    ensures ParseLabel(BulkLabel(h)) == None
  {
  }

  /** The two paths agree on an hour exactly when it is before 22:00. */
  lemma BulkAgreesIff(h: Hour)
    ensures BulkLabel(h) == ToString(Classify(h)) <==> h < 22
  {
    if h >= 22 { BulkDivergence(h); }
  }

  /** The `Session` column for a `time` column, one value per row. Each row is the
      scalar classifier's string before 22:00 and "hello" after. */
  function Annotate(times: seq<nat>): (r: seq<string>)
    ensures |r| == |times|
    ensures forall i :: 0 <= i < |times| && HourOf(times[i]) < 22 ==>
      r[i] == ToString(Classify(HourOf(times[i])))
    ensures forall i :: 0 <= i < |times| && HourOf(times[i]) >= 22 ==> r[i] == "hello"
  {
    if |times| == 0 then []
    else
      [BulkLabel(HourOf(times[0]))] + Annotate(times[1..])
  }

  /** Row `i` of the column depends on `time[i]` alone: annotating two columns
      side by side is annotating their concatenation. */
  lemma {:induction false} AnnotateConcat(a: seq<nat>, b: seq<nat>)
    ensures Annotate(a + b) == Annotate(a) + Annotate(b)
  {
    if |a| == 0 {
      assert a + b == b;
    } else {
      assert (a + b)[1..] == a[1..] + b;
      AnnotateConcat(a[1..], b);
    }
  }

  /** On a `u32` timestamp a row's value verifies against the timestamp exactly
      when the row is before 22:00. */
  lemma AnnotateVerifies(times: seq<nat>, i: nat)
    requires i < |times| && times[i] < U32Limit
    ensures Verification.Verify(times[i], Annotate(times)[i]) <==> HourOf(times[i]) < 22
  {
    var h := HourOf(times[i]);
    if h >= 22 {
      BulkDivergence(h);
    }
  }

  /** The column of the annotator's documentation. */
  lemma AnnotateExample()
    ensures Annotate([1708574400, 1708596000, 1708696800]) == ["Tokyo", "London", "London_NewYork"]
  {
    var times: seq<nat> := [1708574400, 1708596000, 1708696800];
    assert HourOf(times[0]) == 4 && HourOf(times[1]) == 10 && HourOf(times[2]) == 14;
  }

  /** A concrete row at 22:00 UTC: the column says "hello" where the classifier
      says "Undefined". */
  lemma HelloCounterexample()
    ensures HourOf(1708639200) == 22
    ensures Annotate([1708639200]) == ["hello"]
    ensures IdentifyTradingSession(1708639200) == "Undefined"
  {
    BulkDivergence(22);
  }

  /** The chain the documentation describes: one arm per named session, bounded by
      the last hour of its documented window, and "Undefined" as the fallback. */
  function WindowArm(l: Label): Arm
  {
    Arm(WindowEnd(l) - 1, ToString(l))
  }

  const IntendedChain: Chain := Chain(
    [WindowArm(Tokyo), WindowArm(TokyoLondon), WindowArm(London),
     WindowArm(LondonNewYork), WindowArm(NewYork)],
    ToString(Undefined))

  function IntendedBulkLabel(h: Hour): string
  {
    Eval(IntendedChain, h)
  }

  /** With the documented fallback the two evaluation paths agree on every hour. */
  lemma IntendedAgreement(h: Hour)
    ensures IntendedBulkLabel(h) == ToString(Classify(h))
  {
    if h < 22 {
      BulkAgreement(h);
      assert SessionChain().arms == IntendedChain.arms;
      assert !NoEarlierMatch(IntendedChain.arms, 5, h) by {
        assert h <= IntendedChain.arms[4].bound;
      }
    }
  }

  /** The `Session` column with the documented fallback: every row is the scalar
      classifier's string for that row's hour. */
  function AnnotateIntended(times: seq<nat>): (r: seq<string>)
    ensures |r| == |times|
    ensures forall i :: 0 <= i < |times| ==> r[i] == ToString(Classify(HourOf(times[i])))
  {
    if |times| == 0 then []
    else
      IntendedAgreement(HourOf(times[0]));
      [IntendedBulkLabel(HourOf(times[0]))] + AnnotateIntended(times[1..])
  }

  /** With the documented fallback every row of a `u32` column verifies. */
  lemma AnnotateIntendedVerifies(times: seq<nat>, i: nat)
    requires i < |times| && times[i] < U32Limit
    ensures Verification.Verify(times[i], AnnotateIntended(times)[i])
  {
  }
}
