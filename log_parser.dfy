/**
 * The log-line parser of SnowparkLogAnalyzer.parse_log_structure: one raw line
 * becomes a level, a message and an optional timestamp.
 */
module LogParser {
  import opened Wrappers
  import opened Text

  /** The six level strings the parser can produce. */
  datatype Level = INFO | WARNING | ERROR | CRITICAL | DEBUG | SUMMARY

  /** The record parse_log_line returns. */
  datatype ParsedLine = ParsedLine(level: Level, message: string, timestamp: Option<string>)

  /** One row of the raw_logs table, and the row parse_log_structure selects from it. */
  datatype RawLog = RawLog(logId: int, fileName: string, rawLine: string)
  datatype ParsedLog = ParsedLog(logId: int, fileName: string, level: Level, message: string, timestamp: Option<string>)

  predicate IsSuffix(m: string, s: string) {
    |m| <= |s| && s[|s| - |m|..] == m
  }

  // ---------------------------------------------------------------------------
  // Timestamp: r'^(\d{4}-\d{2}-\d{2}\s+\d{2}:\d{2}:\d{2})\s*'
  // ---------------------------------------------------------------------------

  /** n digits (`\d{n}`) at index i. */
  predicate DigitsAt(s: string, i: nat, n: nat)
    decreases n
  {
    n == 0 || (i < |s| && IsDigit(s[i]) && DigitsAt(s, i + 1, n - 1))
  }

  predicate AllSpace(s: string, i: nat, j: nat)
    requires i <= j <= |s|
  {
    forall k :: i <= k < j ==> IsSpace(s[k])
  }

  /** `\d{4}-\d{2}-\d{2}` at index 0. */
  predicate DateAtStart(s: string) {
    |s| >= 10 && DigitsAt(s, 0, 4) && s[4] == '-' && DigitsAt(s, 5, 2) && s[7] == '-' && DigitsAt(s, 8, 2)
  }

  /** `\d{2}:\d{2}:\d{2}` at index j. */
  predicate ClockAt(s: string, j: nat) {
    j + 8 <= |s| && DigitsAt(s, j, 2) && s[j + 2] == ':' && DigitsAt(s, j + 3, 2) && s[j + 5] == ':' && DigitsAt(s, j + 6, 2)
  }

  /** The end of the whitespace run starting at i (a greedy `\s*`). */
  function SkipSpace(s: string, i: nat): (r: nat)
    requires i <= |s|
    ensures i <= r <= |s| && AllSpace(s, i, r)
    ensures r == |s| || !IsSpace(s[r])
    decreases |s| - i
  {
    if i < |s| && IsSpace(s[i]) then SkipSpace(s, i + 1) else i
  }

  /** A whitespace run ends at exactly one place. */
  lemma {:induction false} SkipSpaceUnique(s: string, i: nat, j: nat)
    requires i <= j <= |s| && AllSpace(s, i, j)
    requires j == |s| || !IsSpace(s[j])
    ensures SkipSpace(s, i) == j
    decreases j - i
  {
    if i < j {
      SkipSpaceUnique(s, i + 1, j);
    }
  }

  /** Where group 1 of the timestamp pattern ends and where the whole match ends. */
  datatype TimestampSpan = TimestampSpan(groupEnd: nat, matchEnd: nat)

  /** `re.match` of the timestamp pattern at column 0. Whitespace and digits are
      disjoint, so `\s+` and `\s*` can only take whole whitespace runs. */
  function TimestampMatch(line: string): (m: Option<TimestampSpan>)
    ensures m.Some? ==> 19 <= m.value.groupEnd <= m.value.matchEnd <= |line|
  {
    if !DateAtStart(line) then None
    else
      var j := SkipSpace(line, 10);
      if j > 10 && ClockAt(line, j) then Some(TimestampSpan(j + 8, SkipSpace(line, j + 8))) else None
  }

  /** The pattern read literally: the date, k >= 1 whitespace characters, the
      clock, then whitespace up to e, where e is the end of the line or a
      non-whitespace character. */
  ghost predicate TimestampPrefix(line: string, k: nat, e: nat) {
    && k >= 1 && DateAtStart(line) && 10 + k <= |line| && AllSpace(line, 10, 10 + k)
    && ClockAt(line, 10 + k)
    && 18 + k <= e <= |line| && AllSpace(line, 18 + k, e) && (e == |line| || !IsSpace(line[e]))
  }

  lemma TimestampMatchSound(line: string)
    requires TimestampMatch(line).Some?
    ensures TimestampPrefix(line, TimestampMatch(line).value.groupEnd - 18, TimestampMatch(line).value.matchEnd)
  {
  }

  lemma TimestampMatchComplete(line: string, k: nat, e: nat)
    requires TimestampPrefix(line, k, e)
    ensures TimestampMatch(line) == Some(TimestampSpan(18 + k, e))
  {
    SkipSpaceUnique(line, 10, 10 + k);
    SkipSpaceUnique(line, 18 + k, e);
  }

  /** A timestamp is captured exactly when the line starts with the pattern. */
  lemma TimestampCapturedIff(line: string)
    ensures TimestampMatch(line).Some? <==> exists k, e :: TimestampPrefix(line, k, e)
  {
    if TimestampMatch(line).Some? {
      TimestampMatchSound(line);
    } else if k, e :| TimestampPrefix(line, k, e) {
      TimestampMatchComplete(line, k, e);
    }
  }

  /** The line after `re.sub` of the timestamp pattern by ''. */
  function CleanedLine(line: string): (c: string)
    ensures IsSuffix(c, line)
    ensures c == line <==> TimestampMatch(line).None?
  {
    match TimestampMatch(line)
    case None => line
    case Some(sp) => line[sp.matchEnd..]
  }

  // ---------------------------------------------------------------------------
  // Level: case-sensitive substring tests in a fixed priority order
  // ---------------------------------------------------------------------------

  function DetectLevel(cleaned: string): (l: Level)
    ensures l == ERROR <==> Contains(cleaned, "ERROR")
    ensures l == SUMMARY ==> Contains(cleaned, "SUMMARY")
  {
    if Contains(cleaned, "ERROR") then ERROR
    else if Contains(cleaned, "WARNING") || Contains(cleaned, "WARN") then WARNING
    else if Contains(cleaned, "CRITICAL") || Contains(cleaned, "FATAL") then CRITICAL
    else if Contains(cleaned, "DEBUG") then DEBUG
    else if Contains(cleaned, "SUMMARY") then SUMMARY
    else INFO
  }

  /** The same priority order as a table of (substring, level) rules. */
  const LevelRules: seq<(string, Level)> := [
    ("ERROR", ERROR), ("WARNING", WARNING), ("WARN", WARNING),
    ("CRITICAL", CRITICAL), ("FATAL", CRITICAL), ("DEBUG", DEBUG), ("SUMMARY", SUMMARY)
  ]

  /** The level of the first rule whose substring occurs in s, INFO if none does. */
  function FirstMatchingRule(rules: seq<(string, Level)>, s: string): Level {
    if rules == [] then INFO
    else if Contains(s, rules[0].0) then rules[0].1
    else FirstMatchingRule(rules[1..], s)
  }

  lemma {:induction false} FirstMatchingRuleSpec(rules: seq<(string, Level)>, s: string)
    requires forall i :: 0 <= i < |rules| ==> rules[i].1 != INFO
    ensures FirstMatchingRule(rules, s) == INFO <==> forall i :: 0 <= i < |rules| ==> !Contains(s, rules[i].0)
    ensures FirstMatchingRule(rules, s) != INFO ==>
      exists i :: 0 <= i < |rules| && rules[i].1 == FirstMatchingRule(rules, s) && Contains(s, rules[i].0)
        && forall j :: 0 <= j < i ==> !Contains(s, rules[j].0)
  {
    if rules != [] && !Contains(s, rules[0].0) {
      FirstMatchingRuleSpec(rules[1..], s);
      var r := FirstMatchingRule(rules, s);
      if r != INFO {
        var i :| 0 <= i < |rules[1..]| && rules[1..][i].1 == r && Contains(s, rules[1..][i].0)
          && forall j :: 0 <= j < i ==> !Contains(s, rules[1..][j].0);
        assert rules[i + 1] == rules[1..][i];
        assert forall j :: 1 <= j < i + 1 ==> rules[j] == rules[1..][j - 1];
      } else {
        assert forall i :: 1 <= i < |rules| ==> rules[i] == rules[1..][i - 1];
      }
    }
  }

  /** The if/elif chain is the rule table read first to last. */
  lemma DetectLevelFollowsRules(s: string)
    ensures DetectLevel(s) == FirstMatchingRule(LevelRules, s)
  {
    var r := LevelRules;
    assert FirstMatchingRule(r, s) == if Contains(s, "ERROR") then ERROR else FirstMatchingRule(r[1..], s);
    assert FirstMatchingRule(r[1..], s) == if Contains(s, "WARNING") then WARNING else FirstMatchingRule(r[2..], s);
    assert FirstMatchingRule(r[2..], s) == if Contains(s, "WARN") then WARNING else FirstMatchingRule(r[3..], s);
    assert FirstMatchingRule(r[3..], s) == if Contains(s, "CRITICAL") then CRITICAL else FirstMatchingRule(r[4..], s);
    assert FirstMatchingRule(r[4..], s) == if Contains(s, "FATAL") then CRITICAL else FirstMatchingRule(r[5..], s);
    assert FirstMatchingRule(r[5..], s) == if Contains(s, "DEBUG") then DEBUG else FirstMatchingRule(r[6..], s);
    assert FirstMatchingRule(r[6..], s) == if Contains(s, "SUMMARY") then SUMMARY else FirstMatchingRule(r[7..], s);
    assert r[7..] == [];
  }

  /** "WARNING" contains "WARN", so that alternative never changes the outcome. */
  lemma WarningImpliesWarn(s: string)
    ensures Contains(s, "WARNING") ==> Contains(s, "WARN")
  {
    assert "WARN" + "ING" == "WARNING";
    ContainsPrefixOf(s, "WARN", "ING");
  }

  /** The level is the first rule that fires: INFO exactly when no level
      substring occurs, and otherwise the level of a rule that fires with no
      earlier rule firing. */
  lemma DetectLevelSpec(s: string)
    ensures DetectLevel(s) == INFO <==> forall i :: 0 <= i < |LevelRules| ==> !Contains(s, LevelRules[i].0)
    ensures DetectLevel(s) != INFO ==>
      exists i :: 0 <= i < |LevelRules| && LevelRules[i].1 == DetectLevel(s) && Contains(s, LevelRules[i].0)
        && forall j :: 0 <= j < i ==> !Contains(s, LevelRules[j].0)
  {
    DetectLevelFollowsRules(s);
    FirstMatchingRuleSpec(LevelRules, s);
  }

  // ---------------------------------------------------------------------------
  // Message: cleaned_line.split(None, 2)
  // ---------------------------------------------------------------------------

  /** The end of the non-whitespace run starting at i. */
  function SkipToken(s: string, i: nat): (r: nat)
    requires i <= |s|
    ensures i <= r <= |s|
    ensures forall k :: i <= k < r ==> !IsSpace(s[k])
    ensures r == |s| || IsSpace(s[r])
    decreases |s| - i
  {
    if i < |s| && !IsSpace(s[i]) then SkipToken(s, i + 1) else i
  }

  /** `s[i:].split()`: the whitespace-separated fields from index i on. */
  function TokensFrom(s: string, i: nat): seq<string>
    requires i <= |s|
    decreases |s| - i
  {
    var a := SkipSpace(s, i);
    if a == |s| then [] else [s[a..SkipToken(s, a)]] + TokensFrom(s, SkipToken(s, a))
  }

  function Tokens(s: string): seq<string> {
    TokensFrom(s, 0)
  }

  /** Where `split(None, 2)` starts its third part, if it has one: after two
      fields and the whitespace following them. */
  function ThirdFieldStart(s: string): Option<nat> {
    var a := SkipSpace(s, 0);
    if a == |s| then None
    else
      var b := SkipSpace(s, SkipToken(s, a));
      if b == |s| then None
      else
        var c := SkipSpace(s, SkipToken(s, b));
        if c == |s| then None else Some(c)
  }

  /** `parts[2] if len(parts) > 2 else cleaned_line`. */
  function ExtractMessage(cleaned: string): (m: string)
    ensures IsSuffix(m, cleaned)
  {
    match ThirdFieldStart(cleaned)
    case None => cleaned
    case Some(c) => cleaned[c..]
  }

  /** Skipping leading whitespace does not change the fields. */
  lemma TokensFromSkip(s: string, i: nat)
    requires i <= |s|
    ensures TokensFrom(s, SkipSpace(s, i)) == TokensFrom(s, i)
  {
    var a := SkipSpace(s, i);
    SkipSpaceUnique(s, a, a);
  }

  /** The fields from a non-whitespace index i start with the token at i. */
  lemma TokensFromToken(s: string, i: nat)
    requires i < |s| && !IsSpace(s[i])
    ensures TokensFrom(s, i) == [s[i..SkipToken(s, i)]] + TokensFrom(s, SkipToken(s, i))
  {
    SkipSpaceUnique(s, i, i);
  }

  /** The fields from a whitespace-only tail are none. */
  lemma TokensFromEnd(s: string, i: nat)
    requires i <= |s| && SkipSpace(s, i) == |s|
    ensures TokensFrom(s, i) == []
  {
  }

  /** Fewer than three fields exactly when split(None, 2) has no third part;
      otherwise the third part starts at a field boundary c and the fields
      from c on are all but the first two. */
  lemma ThirdFieldStartSpec(s: string)
    ensures ThirdFieldStart(s).None? <==> |Tokens(s)| < 3
    ensures ThirdFieldStart(s).Some? ==>
      var c := ThirdFieldStart(s).value;
      0 < c < |s| && !IsSpace(s[c]) && IsSpace(s[c - 1]) && Tokens(s) == Tokens(s)[..2] + TokensFrom(s, c)
  {
    var a := SkipSpace(s, 0);
    TokensFromSkip(s, 0);
    if a == |s| {
      TokensFromEnd(s, 0);
      return;
    }
    var ta := SkipToken(s, a);
    TokensFromToken(s, a);
    TokensFromSkip(s, ta);
    var b := SkipSpace(s, ta);
    if b == |s| {
      TokensFromEnd(s, ta);
      return;
    }
    var tb := SkipToken(s, b);
    TokensFromToken(s, b);
    TokensFromSkip(s, tb);
    var c := SkipSpace(s, tb);
    assert Tokens(s) == [s[a..ta], s[b..tb]] + TokensFrom(s, c);
    if c == |s| {
      TokensFromEnd(s, tb);
      return;
    }
    TokensFromToken(s, c);
    assert Tokens(s)[..2] == [s[a..ta], s[b..tb]];
  }

  /** The message is the whole cleaned line when it has fewer than three
      fields; otherwise it is the suffix that starts at the third field, so
      its fields are all the line's fields but the first two. */
  lemma ExtractMessageSpec(s: string)
    ensures |Tokens(s)| < 3 ==> ExtractMessage(s) == s
    ensures |Tokens(s)| >= 3 ==>
      var c := |s| - |ExtractMessage(s)|;
      0 < c < |s| && !IsSpace(s[c]) && IsSpace(s[c - 1]) && Tokens(s) == Tokens(s)[..2] + TokensFrom(s, c)
  {
    ThirdFieldStartSpec(s);
  }

  // ---------------------------------------------------------------------------
  // parse_log_line and parse_log_structure
  // ---------------------------------------------------------------------------

  /** Group 1 of the timestamp match, when there is one: a prefix of the line
      that the literal pattern reads as date, whitespace and clock, with the
      cleaned line starting after the trailing whitespace. */
  function CapturedTimestamp(line: string): (t: Option<string>)
    ensures t.Some? <==> exists k, e :: TimestampPrefix(line, k, e)
    ensures t.Some? ==>
      19 <= |t.value| <= |line| && t.value == line[..|t.value|]
      && TimestampPrefix(line, |t.value| - 18, |line| - |CleanedLine(line)|)
  {
    TimestampCapturedIff(line);
    match TimestampMatch(line)
    case None => None
    case Some(sp) =>
      TimestampMatchSound(line);
      Some(line[..sp.groupEnd])
  }

  /** parse_log_line: total on every string. */
  function ParseLogLine(line: string): (p: ParsedLine)
    ensures line == "" ==> p == ParsedLine(INFO, "", None)
    ensures p.timestamp == CapturedTimestamp(line)
    ensures p.timestamp.Some? <==> exists k, e :: TimestampPrefix(line, k, e)
    ensures p.level == FirstMatchingRule(LevelRules, CleanedLine(line))
    ensures IsSuffix(p.message, CleanedLine(line))
    ensures p.message == ExtractMessage(CleanedLine(line))
  {
    TimestampCapturedIff(line);
    DetectLevelFollowsRules(CleanedLine(line));
    var cleaned := CleanedLine(line);
    if line == "" then
      assert SkipSpace(line, 0) == 0;
      ParsedLine(INFO, "", None)
    else ParsedLine(DetectLevel(cleaned), ExtractMessage(cleaned), CapturedTimestamp(line))
  }

  /** For any literal reading of the pattern, the captured timestamp is the
      date, the whitespace run and the clock, and the cleaned line is what
      follows the trailing whitespace. */
  lemma TimestampValue(line: string, k: nat, e: nat)
    requires TimestampPrefix(line, k, e)
    ensures ParseLogLine(line).timestamp == Some(line[..18 + k])
    ensures CleanedLine(line) == line[e..]
  {
    TimestampMatchComplete(line, k, e);
    assert CapturedTimestamp(line) == Some(line[..18 + k]);
  }

  /** Without a timestamp the cleaned line is the input; with one, the input is
      the captured timestamp, a whitespace run, and the cleaned line, which
      does not start with whitespace. */
  lemma CleanedLineSpec(line: string)
    ensures ParseLogLine(line).timestamp.None? ==> CleanedLine(line) == line
    ensures ParseLogLine(line).timestamp.Some? ==>
      var t := ParseLogLine(line).timestamp.value;
      var c := CleanedLine(line);
      && |t| + |c| <= |line|
      && line == t + line[|t|..|line| - |c|] + c
      && AllSpace(line, |t|, |line| - |c|)
      && (c == [] || !IsSpace(c[0]))
  {
    if line != "" && TimestampMatch(line).Some? {
      var sp := TimestampMatch(line).value;
      assert line == line[..sp.groupEnd] + line[sp.groupEnd..sp.matchEnd] + line[sp.matchEnd..];
    }
  }

  /** A non-empty line made only of whitespace takes the ordinary path and
      keeps the whole line as its message. */
  lemma BlankLine(line: string)
    requires line != "" && forall i :: 0 <= i < |line| ==> IsSpace(line[i])
    ensures ParseLogLine(line) == ParsedLine(INFO, line, None)
  {
    assert !IsDigit(line[0]);
    forall i | 0 <= i < |LevelRules| ensures !Contains(line, LevelRules[i].0) {
      BlankHasNoWord(line, LevelRules[i].0);
    }
    DetectLevelSpec(line);
    assert SkipSpace(line, 0) == |line|;
  }

  lemma BlankHasNoWord(s: string, p: string)
    requires forall i :: 0 <= i < |s| ==> IsSpace(s[i])
    requires |p| > 0 && !IsSpace(p[0])
    ensures !Contains(s, p)
  {
    ContainsIff(s, p);
    forall i | OccursAt(s, p, i) ensures s[i] == p[0] {
      assert s[i..i + |p|][0] == p[0];
    }
  }

  /** parse_log_structure: every raw row is parsed, its id and file name kept. */
  function ParseLogStructure(raw: seq<RawLog>): (parsed: seq<ParsedLog>)
    ensures |parsed| == |raw|
    ensures forall i :: 0 <= i < |raw| ==>
      && parsed[i].logId == raw[i].logId && parsed[i].fileName == raw[i].fileName
      && ParsedLine(parsed[i].level, parsed[i].message, parsed[i].timestamp) == ParseLogLine(raw[i].rawLine)
  {
    seq(|raw|, i requires 0 <= i < |raw| =>
      var p := ParseLogLine(raw[i].rawLine);
      ParsedLog(raw[i].logId, raw[i].fileName, p.level, p.message, p.timestamp))
  }

  /** The fixture line of the quick-start sample log, written in three pieces. */
  lemma SampleLine()
    ensures ParseLogLine("2025-10-30 10:00:15 " + "ERROR Database " + "connection failed: timeout after 30s")
      == ParsedLine(ERROR, "connection failed: timeout after 30s", Some("2025-10-30 10:00:15"))
  {
    var line := "2025-10-30 10:00:15 " + "ERROR Database " + "connection failed: timeout after 30s";
    var cleaned := "ERROR Database " + "connection failed: timeout after 30s";
    SampleTimestamp(line);
    assert line[20..] == cleaned;
    assert line[..19] == "2025-10-30 10:00:15";
    assert cleaned[..5] == "ERROR";
    SampleMessage(cleaned);
  }

  lemma SampleTimestamp(line: string)
    requires line == "2025-10-30 10:00:15 " + "ERROR Database " + "connection failed: timeout after 30s"
    ensures TimestampMatch(line) == Some(TimestampSpan(19, 20))
  {
    assert TimestampPrefix(line, 1, 20);
    TimestampMatchComplete(line, 1, 20);
  }

  lemma SampleMessage(cleaned: string)
    requires cleaned == "ERROR Database " + "connection failed: timeout after 30s"
    ensures ExtractMessage(cleaned) == "connection failed: timeout after 30s"
  {
    assert SkipToken(cleaned, 5) == 5;
    assert SkipToken(cleaned, 3) == 5;
    assert SkipToken(cleaned, 1) == 5;
    assert SkipToken(cleaned, 0) == 5;
    assert SkipSpace(cleaned, 5) == 6;
    assert SkipToken(cleaned, 14) == 14;
    assert SkipToken(cleaned, 12) == 14;
    assert SkipToken(cleaned, 10) == 14;
    assert SkipToken(cleaned, 8) == 14;
    assert SkipToken(cleaned, 6) == 14;
    assert SkipSpace(cleaned, 14) == 15;
    assert SkipSpace(cleaned, 15) == 15;
    assert ThirdFieldStart(cleaned) == Some(15);
  }
}
