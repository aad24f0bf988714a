/**
 * The structural block of SnowparkLogAnalyzer.extract_features_and_vectorize:
 * twelve integer columns per parsed row, two of which need a batch-wide count
 * of identical messages.
 */
module Features {
  import opened Text
  import opened LogParser

  /** Column names of the structural block, in matrix order. */
  const StructuralFeatures: seq<string> := [
    "msg_len", "has_error", "has_warning", "has_critical",
    "has_failure", "has_exception", "is_unauthorized",
    "is_connection_issue", "has_number", "has_special_chars",
    "message_frequency", "is_rare_message"
  ]

  /** One row of the structural block. */
  datatype FeatureRow = FeatureRow(
    msgLen: nat, hasError: nat, hasWarning: nat, hasCritical: nat,
    hasFailure: nat, hasException: nat, isUnauthorized: nat,
    isConnectionIssue: nat, hasNumber: nat, hasSpecialChars: nat,
    messageFrequency: nat, isRareMessage: nat)
  {
    /** The row's values in the order of StructuralFeatures. */
    function Columns(): (c: seq<int>)
      ensures |c| == |StructuralFeatures| == 12
      ensures c[0] == msgLen && c[1] == hasError && c[2] == hasWarning && c[3] == hasCritical
      ensures c[4] == hasFailure && c[5] == hasException && c[6] == isUnauthorized && c[7] == isConnectionIssue
      ensures c[8] == hasNumber && c[9] == hasSpecialChars && c[10] == messageFrequency && c[11] == isRareMessage
    {
      [msgLen, hasError, hasWarning, hasCritical, hasFailure, hasException, isUnauthorized,
       isConnectionIssue, hasNumber, hasSpecialChars, messageFrequency, isRareMessage]
    }
  }

  /** `.astype(int)` of a boolean column. */
  function Flag(b: bool): nat {
    if b then 1 else 0
  }

  predicate IsFlag(x: int) {
    x == 0 || x == 1
  }

  // ---------------------------------------------------------------------------
  // Per-message pattern tests (case=False is a test on the lowered message)
  // ---------------------------------------------------------------------------

  /** `contains(r'fail(ed|ure)?', case=False)`, one test per alternative. */
  predicate MatchesFailure(m: string) {
    var l := Lower(m);
    Contains(l, "failed") || Contains(l, "failure") || Contains(l, "fail")
  }

  /** The optional suffix adds nothing: the pattern matches iff "fail" occurs. */
  lemma MatchesFailureIff(m: string)
    ensures MatchesFailure(m) <==> Contains(Lower(m), "fail")
  {
    assert "fail" + "ed" == "failed";
    assert "fail" + "ure" == "failure";
    ContainsPrefixOf(Lower(m), "fail", "ed");
    ContainsPrefixOf(Lower(m), "fail", "ure");
  }

  /** `contains('connection|network|latency|timeout', case=False)`. */
  predicate MatchesConnectionIssue(m: string) {
    var l := Lower(m);
    Contains(l, "connection") || Contains(l, "network") || Contains(l, "latency") || Contains(l, "timeout")
  }

  /** The alternatives of the connection-issue pattern. */
  const ConnectionTerms: seq<string> := ["connection", "network", "latency", "timeout"]

  /** The alternation matches iff one of its terms occurs in the lowered message. */
  lemma ConnectionIssueIff(m: string)
    ensures MatchesConnectionIssue(m) <==> exists w :: w in ConnectionTerms && Contains(Lower(m), w)
  {
    var l := Lower(m);
    if Contains(l, "connection") {
      assert "connection" in ConnectionTerms;
    } else if Contains(l, "network") {
      assert "network" in ConnectionTerms;
    } else if Contains(l, "latency") {
      assert "latency" in ConnectionTerms;
    } else if Contains(l, "timeout") {
      assert "timeout" in ConnectionTerms;
    }
  }

  /** Lowering twice is lowering once. */
  lemma LowerIdempotent(m: string)
    ensures Lower(Lower(m)) == Lower(m)
  {
    assert forall i :: 0 <= i < |m| ==> Lower(Lower(m))[i] == Lower(m)[i];
  }

  /** The `case=False` tests ignore case: they give the same answer on the
      message and on its lower-cased form. */
  lemma CaseInsensitiveMatches(m: string)
    ensures MatchesFailure(Lower(m)) == MatchesFailure(m)
    ensures MatchesConnectionIssue(Lower(m)) == MatchesConnectionIssue(m)
    ensures Contains(Lower(Lower(m)), "exception") == Contains(Lower(m), "exception")
    ensures Contains(Lower(Lower(m)), "unauthorized") == Contains(Lower(m), "unauthorized")
  {
    LowerIdempotent(m);
  }

  /** `contains(r'\d+')`: the message has at least one run of digits. */
  predicate HasDigitRun(m: string) {
    |FindDigitRuns(m)| > 0
  }

  lemma HasDigitRunIff(m: string)
    ensures HasDigitRun(m) <==> exists i :: 0 <= i < |m| && IsDigit(m[i])
  {
  }

  /** `count(r'[^\w\s]')`: characters that are neither word characters nor whitespace. */
  function CountNonWordNonSpace(m: string): (n: nat)
    ensures n <= |m|
    ensures n == 0 <==> forall i :: 0 <= i < |m| ==> IsWordChar(m[i]) || IsSpace(m[i])
  {
    if m == [] then 0
    else Flag(IsNonWordNonSpace(m[0])) + CountNonWordNonSpace(m[1..])
  }

  /** A character `[^\w\s]` matches. */
  predicate IsNonWordNonSpace(c: char) {
    !IsWordChar(c) && !IsSpace(c)
  }

  /** The count over the suffix from i is the number of matching indices from i on. */
  lemma {:induction false} NonWordNonSpaceFrom(m: string, i: nat)
    requires i <= |m|
    ensures CountNonWordNonSpace(m[i..]) == |set j: nat | i <= j < |m| && IsNonWordNonSpace(m[j])|
    decreases |m| - i
  {
    var here := set j: nat | i <= j < |m| && IsNonWordNonSpace(m[j]);
    if i == |m| {
      assert here == {};
    } else {
      var rest := set j: nat | i + 1 <= j < |m| && IsNonWordNonSpace(m[j]);
      assert m[i..][1..] == m[i + 1..];
      NonWordNonSpaceFrom(m, i + 1);
      if IsNonWordNonSpace(m[i]) {
        assert here == {i} + rest;
      } else {
        assert here == rest;
      }
    }
  }

  /** `str.count(r'[^\w\s]')` is the number of positions holding a character
      that is neither a word character nor whitespace. */
  lemma CountNonWordNonSpaceAsSet(m: string)
    ensures CountNonWordNonSpace(m) == |set i: nat | i < |m| && IsNonWordNonSpace(m[i])|
  {
    NonWordNonSpaceFrom(m, 0);
    assert m[0..] == m;
    assert (set j: nat | 0 <= j < |m| && IsNonWordNonSpace(m[j])) == set i: nat | i < |m| && IsNonWordNonSpace(m[i]);
  }

  // ---------------------------------------------------------------------------
  // Rows
  // ---------------------------------------------------------------------------

  /** `df['MESSAGE']`. */
  function Messages(batch: seq<ParsedLog>): (ms: seq<string>)
    ensures |ms| == |batch|
    ensures forall i :: 0 <= i < |batch| ==> ms[i] == batch[i].message
  {
    seq(|batch|, i requires 0 <= i < |batch| => batch[i].message)
  }

  /** The twelve columns of one row, given the batch-wide count of its message. */
  function RowFeatures(r: ParsedLog, frequency: nat): (f: FeatureRow)
    ensures f.msgLen == |r.message| && f.messageFrequency == frequency
    ensures IsFlag(f.hasError) && IsFlag(f.hasWarning) && IsFlag(f.hasCritical)
    ensures IsFlag(f.hasFailure) && IsFlag(f.hasException) && IsFlag(f.isUnauthorized)
    ensures IsFlag(f.isConnectionIssue) && IsFlag(f.hasNumber) && IsFlag(f.isRareMessage)
    ensures f.hasError + f.hasWarning + f.hasCritical <= 1
    ensures f.hasSpecialChars <= f.msgLen
    ensures f.isRareMessage == 1 <==> frequency <= 2
  {
    FeatureRow(
      |r.message|,
      Flag(r.level == ERROR), Flag(r.level == WARNING), Flag(r.level == CRITICAL),
      Flag(MatchesFailure(r.message)),
      Flag(Contains(Lower(r.message), "exception")),
      Flag(Contains(Lower(r.message), "unauthorized")),
      Flag(MatchesConnectionIssue(r.message)),
      Flag(HasDigitRun(r.message)),
      CountNonWordNonSpace(r.message),
      frequency,
      Flag(frequency <= 2))
  }

  /** What each column of a row means for its record. */
  lemma RowFeaturesSpec(r: ParsedLog, frequency: nat)
    ensures var f := RowFeatures(r, frequency);
      && (f.hasError == 1 <==> r.level == ERROR)
      && (f.hasWarning == 1 <==> r.level == WARNING)
      && (f.hasCritical == 1 <==> r.level == CRITICAL)
      && (f.hasFailure == 1 <==> Contains(Lower(r.message), "fail"))
      && (f.hasException == 1 <==> Contains(Lower(r.message), "exception"))
      && (f.isUnauthorized == 1 <==> Contains(Lower(r.message), "unauthorized"))
      && (f.isConnectionIssue == 1 <==> exists w :: w in ConnectionTerms && Contains(Lower(r.message), w))
      && (f.hasNumber == 1 <==> exists k :: 0 <= k < |r.message| && IsDigit(r.message[k]))
      && f.hasSpecialChars == |set k: nat | k < |r.message| && IsNonWordNonSpace(r.message[k])|
  {
    MatchesFailureIff(r.message);
    ConnectionIssueIff(r.message);
    HasDigitRunIff(r.message);
    CountNonWordNonSpaceAsSet(r.message);
  }

  /** Row i of the structural block: its message frequency is the number of
      rows of the batch with the identical message. */
  function StructuralRow(batch: seq<ParsedLog>, i: nat): (f: FeatureRow)
    requires i < |batch|
    ensures f.msgLen == |batch[i].message|
    ensures 1 <= f.messageFrequency <= |batch|
  {
    assert Messages(batch)[i] == batch[i].message;
    RowFeatures(batch[i], Occurrences(Messages(batch), batch[i].message))
  }

  /** What the source promises of every row, in terms of its record and the batch. */
  lemma StructuralRowSpec(batch: seq<ParsedLog>, i: nat)
    requires i < |batch|
    ensures var f := StructuralRow(batch, i);
      var m := batch[i].message;
      && f.msgLen == |m|
      && (f.hasError == 1 <==> batch[i].level == ERROR)
      && (f.hasWarning == 1 <==> batch[i].level == WARNING)
      && (f.hasCritical == 1 <==> batch[i].level == CRITICAL)
      && (f.hasFailure == 1 <==> Contains(Lower(m), "fail"))
      && (f.hasException == 1 <==> Contains(Lower(m), "exception"))
      && (f.isUnauthorized == 1 <==> Contains(Lower(m), "unauthorized"))
      && (f.isConnectionIssue == 1 <==> exists w :: w in ConnectionTerms && Contains(Lower(m), w))
      && (f.hasNumber == 1 <==> exists k :: 0 <= k < |m| && IsDigit(m[k]))
      && f.hasSpecialChars == |set k: nat | k < |m| && IsNonWordNonSpace(m[k])|
      && IsFlag(f.hasError) && IsFlag(f.hasWarning) && IsFlag(f.hasCritical)
      && IsFlag(f.hasFailure) && IsFlag(f.hasException) && IsFlag(f.isUnauthorized)
      && IsFlag(f.isConnectionIssue) && IsFlag(f.hasNumber) && IsFlag(f.isRareMessage)
      && f.hasError + f.hasWarning + f.hasCritical <= 1
      && f.hasSpecialChars <= f.msgLen
      && f.messageFrequency == |set j: nat | j < |batch| && batch[j].message == m|
      && 1 <= f.messageFrequency <= |batch|
      && (f.isRareMessage == 1 <==> f.messageFrequency <= 2)
  {
    assert Messages(batch)[i] == batch[i].message;
    RowFeaturesSpec(batch[i], Occurrences(Messages(batch), batch[i].message));
    FrequencyCountsRows(batch, i);
  }

  /** message_frequency is the number of rows of the batch, this one included,
      whose message is identical to this row's. */
  lemma FrequencyCountsRows(batch: seq<ParsedLog>, i: nat)
    requires i < |batch|
    ensures StructuralRow(batch, i).messageFrequency == |set j: nat | j < |batch| && batch[j].message == batch[i].message|
  {
    var ms := Messages(batch);
    var x := batch[i].message;
    OccurrencesAsIndexSet(ms, x);
    assert IndicesOf(ms, x) == set j: nat | j < |batch| && batch[j].message == x;
  }

  /** Rows with identical messages get identical frequency columns. */
  lemma SameMessageSameFrequency(batch: seq<ParsedLog>, i: nat, j: nat)
    requires i < |batch| && j < |batch| && batch[i].message == batch[j].message
    ensures StructuralRow(batch, i).messageFrequency == StructuralRow(batch, j).messageFrequency
    ensures StructuralRow(batch, i).isRareMessage == StructuralRow(batch, j).isRareMessage
  {
  }

  // ---------------------------------------------------------------------------
  // The batch pass
  // ---------------------------------------------------------------------------

  /** `df['MESSAGE'].value_counts()`: one entry per distinct message. */
  method MessageCounts(msgs: seq<string>) returns (counts: map<string, nat>)
    ensures forall m :: m in counts <==> m in msgs
    ensures forall m :: m in counts ==> counts[m] == Occurrences(msgs, m)
  {
    counts := map[];
    var i := 0;
    while i < |msgs|
      invariant 0 <= i <= |msgs|
      invariant forall m :: m in counts <==> m in msgs[..i]
      invariant forall m :: m in counts ==> counts[m] == Occurrences(msgs[..i], m)
    {
      var m := msgs[i];
      assert msgs[..i + 1] == msgs[..i] + [m];
      forall x {
        OccurrencesAppend(msgs[..i], m, x);
      }
      if m in counts {
        counts := counts[m := counts[m] + 1];
      } else {
        counts := counts[m := 1];
      }
      i := i + 1;
    }
    assert msgs[..i] == msgs;
  }

  /** The structural block: the counts are built once, then mapped over the rows. */
  method ExtractStructuralFeatures(batch: seq<ParsedLog>) returns (rows: array<FeatureRow>)
    ensures fresh(rows) && rows.Length == |batch|
    ensures forall i :: 0 <= i < |batch| ==> rows[i] == StructuralRow(batch, i)
  {
    var msgs := Messages(batch);
    var counts := MessageCounts(msgs);
    rows := new FeatureRow[|batch|];
    for i := 0 to |batch|
      invariant forall j :: 0 <= j < i ==> rows[j] == StructuralRow(batch, j)
    {
      assert msgs[i] in msgs;
      rows[i] := RowFeatures(batch[i], counts[msgs[i]]);
    }
  }
}
