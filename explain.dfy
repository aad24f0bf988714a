/**
 * explain_anomaly: a rule-based 0..100 confidence for one result row, with
 * one reason for every award. The message-length test compares against a
 * float mean and sample standard deviation of the batch; its outcome is an
 * input here.
 */
module Explain {
  import opened Wrappers
  import opened Text
  import opened LogParser
  import opened Features

  /** The keyword table, in the dictionary's insertion order. */
  const Keywords: seq<string> := [
    "fail", "exception", "unauthorized", "timeout", "connection",
    "denied", "attack", "locked", "breach", "malicious"
  ]

  /** The generic error indicators of the last test. */
  const ErrorIndicators: seq<string> := [
    "error", "fail", "exception", "denied", "invalid", "unable", "cannot"
  ]

  const MaxConfidence: nat := 100

  /** Outcome of the 2-sigma message-length test. */
  datatype LengthCheck = TypicalLength | UnusuallyLong | UnusuallyShort

  /** The reasons explain_anomaly can append, with the integers they print;
      the printed rarity percentage and average length are floats and are
      not carried. */
  datatype Reason =
    | HighSeverity(level: Level)
    | KeywordFound(keyword: string)
    | ExtremelyRare(frequency: nat)
    | Uncommon(frequency: nat)
    | LongMessage(length: nat)
    | ShortMessage(length: nat)
    | ManySpecialChars(count: nat)
    | ManyNumbers(count: nat)
    | ManyErrorIndicators(count: nat)

  datatype Explanation = Explanation(reasons: seq<Reason>, confidence: int)

  /** `frequency / total_logs` with no comparison rows raises. */
  datatype ExplainError = NoComparisonRows

  /** The points each reason is appended with. */
  function PointsOf(r: Reason): (p: nat)
    ensures p > 0
  {
    match r
    case HighSeverity(_) => 25
    case KeywordFound(_) => 15
    case ExtremelyRare(_) => 30
    case Uncommon(_) => 15
    case LongMessage(_) => 10
    case ShortMessage(_) => 10
    case ManySpecialChars(_) => 5
    case ManyNumbers(_) => 5
    case ManyErrorIndicators(_) => 10
  }

  function TotalPoints(rs: seq<Reason>): nat {
    if rs == [] then 0 else TotalPoints(rs[..|rs| - 1]) + PointsOf(rs[|rs| - 1])
  }

  lemma {:induction false} TotalPointsConcat(a: seq<Reason>, b: seq<Reason>)
    ensures TotalPoints(a + b) == TotalPoints(a) + TotalPoints(b)
    decreases |b|
  {
    if b == [] {
      assert a + b == a;
    } else {
      var n := |b| - 1;
      assert (a + b)[..|a + b| - 1] == a + b[..n];
      assert (a + b)[|a + b| - 1] == b[n];
      TotalPointsConcat(a, b[..n]);
    }
  }

  /** Every reason is worth points, so a reason list is empty iff it is worth nothing. */
  lemma {:induction false} TotalPointsZeroIff(rs: seq<Reason>)
    ensures TotalPoints(rs) == 0 <==> rs == []
  {
    if rs != [] {
      assert PointsOf(rs[|rs| - 1]) > 0;
    }
  }

  // ---------------------------------------------------------------------------
  // The tests, one function each
  // ---------------------------------------------------------------------------

  /** `not c.isalnum() and not c.isspace()`. */
  function CountSpecial(m: string): (n: nat)
    ensures n <= |m|
    ensures n == 0 <==> forall i :: 0 <= i < |m| ==> IsAlnum(m[i]) || IsSpace(m[i])
  {
    if m == [] then 0
    else (if IsSpecial(m[0]) then 1 else 0) + CountSpecial(m[1..])
  }

  /** A character the explanation counts as special. */
  predicate IsSpecial(c: char) {
    !IsAlnum(c) && !IsSpace(c)
  }

  /** The count over the suffix from i is the number of special indices from i on. */
  lemma {:induction false} SpecialFrom(m: string, i: nat)
    requires i <= |m|
    ensures CountSpecial(m[i..]) == |set j: nat | i <= j < |m| && IsSpecial(m[j])|
    decreases |m| - i
  {
    var here := set j: nat | i <= j < |m| && IsSpecial(m[j]);
    if i == |m| {
      assert here == {};
    } else {
      var rest := set j: nat | i + 1 <= j < |m| && IsSpecial(m[j]);
      assert m[i..][1..] == m[i + 1..];
      SpecialFrom(m, i + 1);
      if IsSpecial(m[i]) {
        assert here == {i} + rest;
      } else {
        assert here == rest;
      }
    }
  }

  /** `special_chars` is the number of positions holding a character that is
      neither alphanumeric nor whitespace. */
  lemma CountSpecialAsSet(m: string)
    ensures CountSpecial(m) == |set i: nat | i < |m| && IsSpecial(m[i])|
  {
    SpecialFrom(m, 0);
    assert m[0..] == m;
    assert (set j: nat | 0 <= j < |m| && IsSpecial(m[j])) == set i: nat | i < |m| && IsSpecial(m[i]);
  }

  /** Unlike the analyzer's `[^\w\s]` count, this one also counts underscores. */
  lemma {:induction false} SpecialCountsUnderscore(m: string)
    ensures CountSpecial(m) == CountNonWordNonSpace(m) + Occurrences(m, '_')
  {
    if m != [] {
      SpecialCountsUnderscore(m[1..]);
    }
  }

  /** The entries of `keys` that occur in `lower`, in table order. */
  function PresentIn(keys: seq<string>, lower: string): seq<string> {
    if keys == [] then []
    else
      var last := keys[|keys| - 1];
      PresentIn(keys[..|keys| - 1], lower) + (if Contains(lower, last) then [last] else [])
  }

  lemma {:induction false} PresentInSpec(keys: seq<string>, lower: string)
    ensures |PresentIn(keys, lower)| <= |keys|
    ensures forall k :: k in PresentIn(keys, lower) <==> k in keys && Contains(lower, k)
  {
    if keys != [] {
      var init := keys[..|keys| - 1];
      PresentInSpec(init, lower);
      assert keys == init + [keys[|keys| - 1]];
    }
  }

  /** A reason list of at most one entry is worth that entry's points. */
  lemma AtMostOneReason(rs: seq<Reason>)
    requires |rs| <= 1
    ensures TotalPoints(rs) == if rs == [] then 0 else PointsOf(rs[0])
  {
    if rs != [] {
      assert rs[..0] == [];
    }
  }

  // ---------------------------------------------------------------------------
  // The awards: the reasons each test appends and the points it scores
  // ---------------------------------------------------------------------------

  function SeverityPoints(level: Level): nat {
    if level == ERROR || level == CRITICAL then 25 else 0
  }

  function Severity(level: Level): (rs: seq<Reason>)
    ensures |rs| == Flag(SeverityPoints(level) > 0)
  {
    if level == ERROR || level == CRITICAL then [HighSeverity(level)] else []
  }

  function KeywordReasons(present: seq<string>): (rs: seq<Reason>)
    ensures |rs| == |present|
  {
    if present == [] then []
    else KeywordReasons(present[..|present| - 1]) + [KeywordFound(present[|present| - 1])]
  }

  /** Each keyword reason is worth 15. */
  lemma {:induction false} KeywordReasonsPoints(present: seq<string>)
    ensures TotalPoints(KeywordReasons(present)) == 15 * |present|
  {
    if present != [] {
      var rs := KeywordReasons(present);
      KeywordReasonsPoints(present[..|present| - 1]);
      assert rs[..|rs| - 1] == KeywordReasons(present[..|present| - 1]);
    }
  }

  /** `rarity_pct < 1` and `rarity_pct < 5` for `rarity_pct = frequency / total * 100`. */
  function RarityPoints(frequency: nat, total: nat): nat {
    if frequency * 100 < total then 30
    else if frequency * 100 < 5 * total then 15
    else 0
  }

  function Rarity(frequency: nat, total: nat): (rs: seq<Reason>)
    ensures |rs| == Flag(RarityPoints(frequency, total) > 0)
  {
    if frequency * 100 < total then [ExtremelyRare(frequency)]
    else if frequency * 100 < 5 * total then [Uncommon(frequency)]
    else []
  }

  function LengthPoints(check: LengthCheck): nat {
    if check == TypicalLength then 0 else 10
  }

  function LengthReasons(check: LengthCheck, msgLen: nat): (rs: seq<Reason>)
    ensures |rs| == Flag(LengthPoints(check) > 0)
  {
    match check
    case TypicalLength => []
    case UnusuallyLong => [LongMessage(msgLen)]
    case UnusuallyShort => [ShortMessage(msgLen)]
  }

  function SpecialPoints(special: nat): nat {
    if special > 10 then 5 else 0
  }

  function SpecialReasons(special: nat): (rs: seq<Reason>)
    ensures |rs| == Flag(SpecialPoints(special) > 0)
  {
    if special > 10 then [ManySpecialChars(special)] else []
  }

  function NumberPoints(numbers: nat): nat {
    if numbers > 5 then 5 else 0
  }

  function NumberReasons(numbers: nat): (rs: seq<Reason>)
    ensures |rs| == Flag(NumberPoints(numbers) > 0)
  {
    if numbers > 5 then [ManyNumbers(numbers)] else []
  }

  function IndicatorPoints(errorCount: nat): nat {
    if errorCount >= 2 then 10 else 0
  }

  function IndicatorReasons(errorCount: nat): (rs: seq<Reason>)
    ensures |rs| == Flag(IndicatorPoints(errorCount) > 0)
  {
    if errorCount >= 2 then [ManyErrorIndicators(errorCount)] else []
  }

  /** Each single-reason test appends a reason worth exactly the points it scores. */
  lemma AwardsArePoints(level: Level, frequency: nat, total: nat, check: LengthCheck, msgLen: nat,
                        special: nat, numbers: nat, errorCount: nat)
    ensures TotalPoints(Severity(level)) == SeverityPoints(level)
    ensures TotalPoints(Rarity(frequency, total)) == RarityPoints(frequency, total)
    ensures TotalPoints(LengthReasons(check, msgLen)) == LengthPoints(check)
    ensures TotalPoints(SpecialReasons(special)) == SpecialPoints(special)
    ensures TotalPoints(NumberReasons(numbers)) == NumberPoints(numbers)
    ensures TotalPoints(IndicatorReasons(errorCount)) == IndicatorPoints(errorCount)
  {
    AtMostOneReason(Severity(level));
    AtMostOneReason(Rarity(frequency, total));
    AtMostOneReason(LengthReasons(check, msgLen));
    AtMostOneReason(SpecialReasons(special));
    AtMostOneReason(NumberReasons(numbers));
    AtMostOneReason(IndicatorReasons(errorCount));
  }

  // ---------------------------------------------------------------------------
  // The whole explanation
  // ---------------------------------------------------------------------------

  /** The numbers the tests look at. */
  datatype Observations = Observations(
    level: Level, keywordsFound: seq<string>, frequency: nat, total: nat, check: LengthCheck,
    msgLen: nat, special: nat, numbers: nat, errorCount: nat)

  function Observe(message: string, level: Level, allMessages: seq<string>, check: LengthCheck): Observations {
    var lower := Lower(message);
    Observations(level, PresentIn(Keywords, lower), Occurrences(allMessages, message), |allMessages|, check,
      |message|, CountSpecial(message), |FindDigitRuns(message)|, |PresentIn(ErrorIndicators, lower)|)
  }

  /** The reasons, in the order the tests append them. */
  function ReasonsFor(o: Observations): seq<Reason> {
    Severity(o.level)
      + KeywordReasons(o.keywordsFound)
      + Rarity(o.frequency, o.total)
      + LengthReasons(o.check, o.msgLen)
      + SpecialReasons(o.special)
      + NumberReasons(o.numbers)
      + IndicatorReasons(o.errorCount)
  }

  /** The point schedule read as a sum of independent awards. */
  function ScoreFor(o: Observations): nat {
    SeverityPoints(o.level)
      + 15 * |o.keywordsFound|
      + RarityPoints(o.frequency, o.total)
      + LengthPoints(o.check)
      + SpecialPoints(o.special)
      + NumberPoints(o.numbers)
      + IndicatorPoints(o.errorCount)
  }

  /** The number of awards the schedule makes. */
  function AwardCount(o: Observations): nat {
    Flag(SeverityPoints(o.level) > 0)
      + |o.keywordsFound|
      + Flag(RarityPoints(o.frequency, o.total) > 0)
      + Flag(LengthPoints(o.check) > 0)
      + Flag(SpecialPoints(o.special) > 0)
      + Flag(NumberPoints(o.numbers) > 0)
      + Flag(IndicatorPoints(o.errorCount) > 0)
  }

  /** Every reason explain_anomaly appends for a message. */
  function ExpectedReasons(message: string, level: Level, allMessages: seq<string>, check: LengthCheck): seq<Reason> {
    ReasonsFor(Observe(message, level, allMessages, check))
  }

  /** The uncapped score of a message. */
  function SchedulePoints(message: string, level: Level, allMessages: seq<string>, check: LengthCheck): nat {
    ScoreFor(Observe(message, level, allMessages, check))
  }

  /** The reasons and score accumulated test by test are the expected ones. */
  lemma ExplanationOfPieces(message: string, level: Level, allMessages: seq<string>, check: LengthCheck,
                            lower: string, frequency: nat, reasons: seq<Reason>, score: int)
    requires lower == Lower(message) && frequency == Occurrences(allMessages, message)
    requires reasons ==
      Severity(level)
        + KeywordReasons(PresentIn(Keywords, lower))
        + Rarity(frequency, |allMessages|)
        + LengthReasons(check, |message|)
        + SpecialReasons(CountSpecial(message))
        + NumberReasons(|FindDigitRuns(message)|)
        + IndicatorReasons(|PresentIn(ErrorIndicators, lower)|)
    requires score ==
      SeverityPoints(level)
        + 15 * |PresentIn(Keywords, lower)|
        + RarityPoints(frequency, |allMessages|)
        + LengthPoints(check)
        + SpecialPoints(CountSpecial(message))
        + NumberPoints(|FindDigitRuns(message)|)
        + IndicatorPoints(|PresentIn(ErrorIndicators, lower)|)
    ensures reasons == ExpectedReasons(message, level, allMessages, check)
    ensures score == SchedulePoints(message, level, allMessages, check)
  {
  }

  /** One reason per award, and the reasons are worth exactly the schedule. */
  lemma ReasonsMatchSchedule(o: Observations)
    ensures |ReasonsFor(o)| == AwardCount(o)
    ensures TotalPoints(ReasonsFor(o)) == ScoreFor(o)
  {
    ReasonsPoints(o);
  }

  lemma ReasonsPoints(o: Observations)
    ensures TotalPoints(ReasonsFor(o)) == ScoreFor(o)
  {
    var s := Severity(o.level);
    var k := KeywordReasons(o.keywordsFound);
    var r := Rarity(o.frequency, o.total);
    var l := LengthReasons(o.check, o.msgLen);
    var sp := SpecialReasons(o.special);
    var n := NumberReasons(o.numbers);
    var e := IndicatorReasons(o.errorCount);
    AwardsArePoints(o.level, o.frequency, o.total, o.check, o.msgLen, o.special, o.numbers, o.errorCount);
    KeywordReasonsPoints(o.keywordsFound);
    var t := TotalPoints(s) + TotalPoints(k);
    TotalPointsConcat(s, k);
    assert TotalPoints(s + k) == t;
    TotalPointsConcat(s + k, r);
    t := t + TotalPoints(r);
    assert TotalPoints(s + k + r) == t;
    TotalPointsConcat(s + k + r, l);
    t := t + TotalPoints(l);
    assert TotalPoints(s + k + r + l) == t;
    TotalPointsConcat(s + k + r + l, sp);
    t := t + TotalPoints(sp);
    assert TotalPoints(s + k + r + l + sp) == t;
    TotalPointsConcat(s + k + r + l + sp, n);
    t := t + TotalPoints(n);
    assert TotalPoints(s + k + r + l + sp + n) == t;
    TotalPointsConcat(s + k + r + l + sp + n, e);
    t := t + TotalPoints(e);
    assert TotalPoints(ReasonsFor(o)) == t;
  }

  /** The keyword reasons name exactly the keywords found. */
  lemma {:induction false} KeywordReasonsName(present: seq<string>)
    ensures forall x :: x in KeywordReasons(present) ==> x.KeywordFound? && x.keyword in present
    ensures forall k :: k in present ==> KeywordFound(k) in KeywordReasons(present)
  {
    if present != [] {
      var init := present[..|present| - 1];
      KeywordReasonsName(init);
      assert present == init + [present[|present| - 1]];
    }
  }

  /** Membership in the reason list, piece by piece. */
  lemma ReasonsForMember(o: Observations, x: Reason)
    ensures x in ReasonsFor(o) <==>
      || x in Severity(o.level) || x in KeywordReasons(o.keywordsFound)
      || x in Rarity(o.frequency, o.total) || x in LengthReasons(o.check, o.msgLen)
      || x in SpecialReasons(o.special) || x in NumberReasons(o.numbers)
      || x in IndicatorReasons(o.errorCount)
  {
  }

  /** A reason that is not a keyword reason appears iff its own test appended it. */
  lemma OtherReasonMember(o: Observations, x: Reason)
    requires !x.KeywordFound?
    ensures x in ReasonsFor(o) <==>
      || x in Severity(o.level)
      || x in Rarity(o.frequency, o.total) || x in LengthReasons(o.check, o.msgLen)
      || x in SpecialReasons(o.special) || x in NumberReasons(o.numbers)
      || x in IndicatorReasons(o.errorCount)
  {
    ReasonsForMember(o, x);
    KeywordReasonsName(o.keywordsFound);
  }

  lemma SeverityReasonKind(o: Observations)
    ensures HighSeverity(o.level) in ReasonsFor(o) <==> o.level == ERROR || o.level == CRITICAL
  {
    OtherReasonMember(o, HighSeverity(o.level));
  }

  lemma KeywordReasonKind(o: Observations, k: string)
    ensures KeywordFound(k) in ReasonsFor(o) <==> k in o.keywordsFound
  {
    ReasonsForMember(o, KeywordFound(k));
    KeywordReasonsName(o.keywordsFound);
  }

  lemma RarityReasonKinds(o: Observations)
    ensures ExtremelyRare(o.frequency) in ReasonsFor(o) <==> o.frequency * 100 < o.total
    ensures Uncommon(o.frequency) in ReasonsFor(o) <==> o.total <= o.frequency * 100 < 5 * o.total
  {
    OtherReasonMember(o, ExtremelyRare(o.frequency));
    OtherReasonMember(o, Uncommon(o.frequency));
  }

  lemma LengthReasonKinds(o: Observations)
    ensures LongMessage(o.msgLen) in ReasonsFor(o) <==> o.check == UnusuallyLong
    ensures ShortMessage(o.msgLen) in ReasonsFor(o) <==> o.check == UnusuallyShort
  {
    OtherReasonMember(o, LongMessage(o.msgLen));
    OtherReasonMember(o, ShortMessage(o.msgLen));
  }

  lemma SpecialReasonKind(o: Observations)
    ensures ManySpecialChars(o.special) in ReasonsFor(o) <==> o.special > 10
  {
    OtherReasonMember(o, ManySpecialChars(o.special));
  }

  lemma NumberReasonKind(o: Observations)
    ensures ManyNumbers(o.numbers) in ReasonsFor(o) <==> o.numbers > 5
  {
    OtherReasonMember(o, ManyNumbers(o.numbers));
  }

  lemma IndicatorReasonKind(o: Observations)
    ensures ManyErrorIndicators(o.errorCount) in ReasonsFor(o) <==> o.errorCount >= 2
  {
    OtherReasonMember(o, ManyErrorIndicators(o.errorCount));
  }

  /** A reason of each kind appears exactly when its test awards points. */
  lemma ReasonForEachAward(o: Observations)
    ensures HighSeverity(o.level) in ReasonsFor(o) <==> o.level == ERROR || o.level == CRITICAL
    ensures forall k :: KeywordFound(k) in ReasonsFor(o) <==> k in o.keywordsFound
    ensures ExtremelyRare(o.frequency) in ReasonsFor(o) <==> o.frequency * 100 < o.total
    ensures Uncommon(o.frequency) in ReasonsFor(o) <==> o.total <= o.frequency * 100 < 5 * o.total
    ensures LongMessage(o.msgLen) in ReasonsFor(o) <==> o.check == UnusuallyLong
    ensures ShortMessage(o.msgLen) in ReasonsFor(o) <==> o.check == UnusuallyShort
    ensures ManySpecialChars(o.special) in ReasonsFor(o) <==> o.special > 10
    ensures ManyNumbers(o.numbers) in ReasonsFor(o) <==> o.numbers > 5
    ensures ManyErrorIndicators(o.errorCount) in ReasonsFor(o) <==> o.errorCount >= 2
  {
    SeverityReasonKind(o);
    forall k ensures KeywordFound(k) in ReasonsFor(o) <==> k in o.keywordsFound {
      KeywordReasonKind(o, k);
    }
    RarityReasonKinds(o);
    LengthReasonKinds(o);
    SpecialReasonKind(o);
    NumberReasonKind(o);
    IndicatorReasonKind(o);
  }

  /** No table entry is listed twice. */
  ghost predicate Distinct(keys: seq<string>) {
    forall i, j :: 0 <= i < j < |keys| ==> keys[i] != keys[j]
  }

  /** The distinct entries of `keys` that occur in `lower`. */
  ghost function PresentSet(keys: seq<string>, lower: string): set<string> {
    set k | k in keys && Contains(lower, k)
  }

  lemma {:induction false} PresentInCounts(keys: seq<string>, lower: string)
    requires Distinct(keys)
    ensures |PresentIn(keys, lower)| == |PresentSet(keys, lower)|
  {
    if keys != [] {
      var init := keys[..|keys| - 1];
      var last := keys[|keys| - 1];
      assert keys == init + [last];
      PresentInCounts(init, lower);
      assert last !in PresentSet(init, lower);
      if Contains(lower, last) {
        assert PresentIn(keys, lower) == PresentIn(init, lower) + [last];
        assert PresentSet(keys, lower) == PresentSet(init, lower) + {last};
        assert |PresentSet(init, lower) + {last}| == |PresentSet(init, lower)| + 1;
      } else {
        assert PresentIn(keys, lower) == PresentIn(init, lower);
        assert PresentSet(keys, lower) == PresentSet(init, lower);
      }
    }
  }

  /** The keyword block scores 15 for every distinct table keyword in the
      lowered message, and the indicator count is the number of distinct
      indicators present. */
  lemma KeywordAndIndicatorCounts(message: string)
    ensures |PresentIn(Keywords, Lower(message))| == |PresentSet(Keywords, Lower(message))|
    ensures |PresentIn(ErrorIndicators, Lower(message))| == |PresentSet(ErrorIndicators, Lower(message))|
  {
    assert Distinct(Keywords);
    assert Distinct(ErrorIndicators);
    PresentInCounts(Keywords, Lower(message));
    PresentInCounts(ErrorIndicators, Lower(message));
  }

  /** The reason list is empty exactly when the uncapped score is 0. */
  lemma NoReasonsIffZero(o: Observations)
    ensures ReasonsFor(o) == [] <==> ScoreFor(o) == 0
  {
    ReasonsMatchSchedule(o);
    TotalPointsZeroIff(ReasonsFor(o));
  }

  /** The keyword test awards 15 for each table keyword found in the lowered message. */
  lemma KeywordAwards(message: string)
    ensures forall k :: k in PresentIn(Keywords, Lower(message)) <==> k in Keywords && Contains(Lower(message), k)
    ensures |PresentIn(Keywords, Lower(message))| <= |Keywords|
  {
    PresentInSpec(Keywords, Lower(message));
  }

  function Min(a: int, b: int): int {
    if a < b then a else b
  }

  // ---------------------------------------------------------------------------
  // explain_anomaly
  // ---------------------------------------------------------------------------

  /** The keyword loop over a keyword table: 15 points and one reason for
      every table keyword found, in table order. */
  method KeywordTests(keywords: seq<string>, messageLower: string, reasons0: seq<Reason>, score0: int)
    returns (reasons: seq<Reason>, score: int)
    ensures reasons == reasons0 + KeywordReasons(PresentIn(keywords, messageLower))
    ensures score == score0 + 15 * |PresentIn(keywords, messageLower)|
  {
    reasons, score := reasons0, score0;
    ghost var found: seq<string> := [];
    assert reasons == reasons0 + KeywordReasons(found);
    for i := 0 to |keywords|
      invariant found == PresentIn(keywords[..i], messageLower)
      invariant reasons == reasons0 + KeywordReasons(found)
      invariant score == score0 + 15 * |found|
    {
      assert keywords[..i + 1][..i] == keywords[..i] && keywords[..i + 1][i] == keywords[i];
      assert PresentIn(keywords[..i + 1], messageLower) ==
        found + (if Contains(messageLower, keywords[i]) then [keywords[i]] else []);
      if Contains(messageLower, keywords[i]) {
        ghost var before := found;
        found := found + [keywords[i]];
        assert found[..|found| - 1] == before && found[|found| - 1] == keywords[i];
        assert KeywordReasons(found) == KeywordReasons(before) + [KeywordFound(keywords[i])];
        reasons := reasons + [KeywordFound(keywords[i])];
        assert reasons == reasons0 + (KeywordReasons(before) + [KeywordFound(keywords[i])]);
        score := score + 15;
      }
    }
    assert keywords[..|keywords|] == keywords;
  }

  /** The length, special-character, number and error-indicator tests, which
      look only at the message and the length test's outcome. */
  method ShapeTests(message: string, messageLower: string, check: LengthCheck, reasons0: seq<Reason>, score0: int)
    returns (reasons: seq<Reason>, score: int)
    ensures reasons == reasons0 + LengthReasons(check, |message|) + SpecialReasons(CountSpecial(message))
      + NumberReasons(|FindDigitRuns(message)|) + IndicatorReasons(|PresentIn(ErrorIndicators, messageLower)|)
    ensures score == score0 + LengthPoints(check) + SpecialPoints(CountSpecial(message))
      + NumberPoints(|FindDigitRuns(message)|) + IndicatorPoints(|PresentIn(ErrorIndicators, messageLower)|)
  {
    reasons, score := reasons0, score0;
    var msgLen := |message|;
    ghost var rarity := reasons;
    ghost var rarityScore := score;

    if check == UnusuallyLong {
      reasons := reasons + [LongMessage(msgLen)];
      score := score + 10;
    } else if check == UnusuallyShort {
      reasons := reasons + [ShortMessage(msgLen)];
      score := score + 10;
    }
    assert reasons == rarity + LengthReasons(check, msgLen);
    assert score == rarityScore + LengthPoints(check);
    ghost var length := reasons;
    ghost var lengthScore := score;

    var specialChars := CountSpecial(message);
    if specialChars > 10 {
      reasons := reasons + [ManySpecialChars(specialChars)];
      score := score + 5;
    }
    assert reasons == length + SpecialReasons(specialChars);
    assert score == lengthScore + SpecialPoints(specialChars);
    ghost var special := reasons;
    ghost var specialScore := score;

    var numbers := FindDigitRuns(message);
    if |numbers| > 5 {
      reasons := reasons + [ManyNumbers(|numbers|)];
      score := score + 5;
    }
    assert reasons == special + NumberReasons(|numbers|);
    assert score == specialScore + NumberPoints(|numbers|);
    ghost var numeric := reasons;
    ghost var numericScore := score;

    var errorCount := |PresentIn(ErrorIndicators, messageLower)|;
    if errorCount >= 2 {
      reasons := reasons + [ManyErrorIndicators(errorCount)];
      score := score + 10;
    }

    assert reasons == numeric + IndicatorReasons(errorCount);
    assert score == numericScore + IndicatorPoints(errorCount);

  }

  /** `value_counts().get(message, 0)` over the comparison rows. */
  method Frequency(allMessages: seq<string>, message: string) returns (frequency: nat)
    ensures frequency == Occurrences(allMessages, message)
  {
    var counts := MessageCounts(allMessages);
    frequency := if message in counts then counts[message] else 0;
  }

  /** explain_anomaly for a row with `message` and `level`, compared against
      the messages of all result rows. */
  method ExplainAnomaly(message: string, level: Level, allMessages: seq<string>, check: LengthCheck)
    returns (r: Result<Explanation, ExplainError>)
    ensures allMessages == [] <==> r == Failure(NoComparisonRows)
    ensures r.Success? ==>
      && r.value.reasons == ExpectedReasons(message, level, allMessages, check)
      && r.value.confidence == Min(SchedulePoints(message, level, allMessages, check), MaxConfidence)
      && 0 <= r.value.confidence <= 100
  {
    var reasons: seq<Reason> := [];
    var score := 0;
    var msgLen := |message|;

    if level == ERROR || level == CRITICAL {
      reasons := reasons + [HighSeverity(level)];
      score := score + 25;
    }
    assert reasons == Severity(level) && score == SeverityPoints(level);

    var messageLower := Lower(message);
    reasons, score := KeywordTests(Keywords, messageLower, reasons, score);

    var frequency := Frequency(allMessages, message);
    var total := |allMessages|;
    if total == 0 {
      return Failure(NoComparisonRows);
    }
    ghost var early := reasons;
    ghost var earlyScore := score;

    if frequency * 100 < total {
      reasons := reasons + [ExtremelyRare(frequency)];
      score := score + 30;
    } else if frequency * 100 < 5 * total {
      reasons := reasons + [Uncommon(frequency)];
      score := score + 15;
    }
    assert reasons == early + Rarity(frequency, total);
    assert score == earlyScore + RarityPoints(frequency, total);
    reasons, score := ShapeTests(message, messageLower, check, reasons, score);

    ExplanationOfPieces(message, level, allMessages, check, messageLower, frequency, reasons, score);
    r := Success(Explanation(reasons, Min(score, MaxConfidence)));
  }
}
