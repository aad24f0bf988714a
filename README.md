# Log anomaly detector: parser, structural features and explanation scoring

This project is a Dafny model of the deterministic core of a Snowflake log
anomaly detector. The model has three parts.

**The log-line parser.** It strips a leading `YYYY-MM-DD HH:MM:SS` timestamp.
It picks a level from case-sensitive substring tests taken in a fixed
priority order. The message is everything from the third
whitespace-separated field on.

**The analyzer, `SnowparkLogAnalyzer`.** It computes twelve integer features
for every parsed row. Two of them come from a batch-wide count of identical
messages. It joins those columns with the TF-IDF columns and turns the
isolation forest's labels into anomaly flags and run counts.

**The explanation scorer, `explain_anomaly`.** It adds points test by test,
appends one reason per award, and caps the confidence at 100.

The modules:

- `Wrappers`: `Option` and `Result`.
- `Text`: the ASCII parts of Python's `str.isspace`, `\s`, `\d`, `\w`,
  `isalnum` and `str.lower`. Also the substring test `in`, occurrence
  counts, and `re.findall(r'\d+')`.
- `LogParser`: `parse_log_line` as a pure function, and `parse_log_structure`
  as a map over the raw rows.
- `Features`: the twelve structural columns. `value_counts` is a method that
  fills a map in a loop. It is proved equal to the functional count
  `Occurrences`. A second method fills the feature array from that map.
- `Analyzer`: the `SnowparkLogAnalyzer` class. Its `vectorizer`, `scaler` and
  `model` fields are set by `ExtractFeaturesAndVectorize`. The class also
  assembles the feature matrix, derives the labels and counts, and holds the
  non-SQL part of `run_full_pipeline`.
- `Explain`: `explain_anomaly` as an imperative method. It accumulates
  `reasons` and `score` the way the source does. It is proved equal to a
  functional reason list (`ExpectedReasons`) and point schedule
  (`SchedulePoints`). Lemmas relate the two: one reason per award, each
  award's condition, and an empty list exactly when the score is 0.

TF-IDF, the standard scaler and the isolation forest are numeric library
code. They enter the model as inputs:

- a k-column matrix, or the failure of `fit_transform`;
- labels in {-1, 1};
- scores.

The object records only their configuration and the width they were fitted
on. The message-length test of `explain_anomaly` compares a length with a
float mean and sample standard deviation. It also enters as an input: the
outcome `TypicalLength`, `UnusuallyLong` or `UnusuallyShort`.

Two consequences of the parsing code are worth stating:

- The timestamp is recognised only at column 0 (`re.match` with `^`). A
  line with leading whitespace keeps its timestamp in the cleaned line.
- The early return covers only the empty line. A whitespace-only line goes
  through the normal path, and its message is the line itself
  (`LogParser.BlankLine`).

## Model

| member | source | states |
|---|---|---|
| LogParser.ParseLogLine | snowflake/snowpark_analyzer.py:75-107 | total on every string; the empty line gives (INFO, "", no timestamp); a timestamp is present exactly when the line starts with the timestamp pattern, and then it is a prefix of the line that the pattern reads as date, whitespace run and clock, with the cleaned line starting after the trailing whitespace; the level is the first matching rule of the priority table on the cleaned line; the message is a suffix of the cleaned line, namely the one `ExtractMessage` picks by `split(None, 2)` |
| LogParser.CapturedTimestamp | snowflake/snowpark_analyzer.py:80-81 | group 1 is present exactly when the line starts with the pattern, and then it is a prefix of the line of at least 19 characters that the pattern reads as date, whitespace run and clock |
| LogParser.TimestampValue | snowflake/snowpark_analyzer.py:80-84 | for a line read literally as the date, k whitespace characters, the clock and whitespace up to e, the captured timestamp is exactly the first 18 + k characters and the cleaned line is exactly the rest from e |
| LogParser.TimestampMatch | snowflake/snowpark_analyzer.py:80 | a match lies inside the line, with group 1 at least 19 characters long and ending no later than the whole match |
| LogParser.CleanedLine | snowflake/snowpark_analyzer.py:84 | the cleaned line is a suffix of the line, and equals it exactly when the pattern does not match |
| LogParser.DetectLevel | snowflake/snowpark_analyzer.py:87-97 | the level is ERROR exactly when "ERROR" occurs, whatever else occurs, and SUMMARY only when "SUMMARY" occurs |
| LogParser.ExtractMessage | snowflake/snowpark_analyzer.py:100-101 | the message is a suffix of the cleaned line (its exact position is given by `ExtractMessageSpec`) |
| LogParser.TimestampCapturedIff | snowflake/snowpark_analyzer.py:80-81 | the timestamp matcher succeeds iff the line begins with 4 digits, `-`, 2 digits, `-`, 2 digits, one or more whitespace, 2 digits, `:`, 2 digits, `:`, 2 digits, read literally as a predicate over positions |
| LogParser.TimestampMatchComplete | snowflake/snowpark_analyzer.py:80-84 | for any literal reading of the pattern (whitespace run length k, match end e), the matcher returns group end 18+k and match end e, so re.match and re.sub remove the same prefix |
| LogParser.CleanedLineSpec | snowflake/snowpark_analyzer.py:84 | without a timestamp the cleaned line is the input; with one, the input is the captured timestamp, then a whitespace run, then the cleaned line, and the cleaned line does not start with whitespace (the exact values are given by `TimestampValue`) |
| LogParser.DetectLevelFollowsRules | snowflake/snowpark_analyzer.py:87-97 | the if/elif chain equals the rule table ERROR, WARNING, WARN, CRITICAL, FATAL, DEBUG, SUMMARY read first to last |
| LogParser.DetectLevelSpec | snowflake/snowpark_analyzer.py:87-97 | the level is INFO iff none of the seven substrings occurs in the cleaned line; otherwise it is the level of a rule that fires with no earlier rule firing (so any line containing "ERROR" is ERROR) |
| LogParser.FirstMatchingRuleSpec | snowflake/snowpark_analyzer.py:87-97 | for any rule table without INFO entries: INFO iff no rule fires, otherwise the level of the first firing rule |
| LogParser.WarningImpliesWarn | snowflake/snowpark_analyzer.py:90 | a line containing "WARNING" contains "WARN", so the second alternative decides alone |
| LogParser.ExtractMessageSpec | snowflake/snowpark_analyzer.py:100-101 | with fewer than three whitespace-separated fields the message is the whole cleaned line; otherwise it starts at a non-whitespace character preceded by whitespace, and the line's fields are its first two fields followed by the message's fields |
| LogParser.BlankLine | snowflake/snowpark_analyzer.py:100-101 | a non-empty whitespace-only line parses to (INFO, the line itself, no timestamp) |
| LogParser.SampleLine | snowflake/quick_start.py:104 | the sample fixture line parses to level ERROR, message "connection failed: timeout after 30s" and timestamp "2025-10-30 10:00:15" |
| LogParser.ParseLogStructure | snowflake/snowpark_analyzer.py:110-120 | one parsed row per raw row, in order, keeping LOG_ID and FILE_NAME and carrying parse_log_line of RAW_LINE |
| Features.FeatureRow.Columns | snowflake/snowpark_analyzer.py:197-202 | a row's values are its twelve fields, at positions 0 to 11 in the order msg_len, has_error, has_warning, has_critical, has_failure, has_exception, is_unauthorized, is_connection_issue, has_number, has_special_chars, message_frequency, is_rare_message |
| Features.StructuralRowSpec | snowflake/snowpark_analyzer.py:147-165 | for row i of a batch: msg_len is the message length; has_error, has_warning, has_critical are 1 iff the record's level is ERROR, WARNING, CRITICAL; has_failure, has_exception, is_unauthorized are 1 iff the lowered message contains "fail", "exception", "unauthorized"; is_connection_issue is 1 iff it contains one of connection, network, latency, timeout; has_number is 1 iff a digit occurs; has_special_chars is the number of positions neither word character nor whitespace; every flag is 0 or 1 and at most one level flag is set; message_frequency is the number of batch rows with the identical message, between 1 and the batch size; is_rare_message is 1 iff it is at most 2 |
| Features.RowFeatures | snowflake/snowpark_analyzer.py:147-165 | for one message and its batch count: msg_len is the message length, every flag column is 0 or 1, at most one level flag is set, the special count is at most the length, the frequency is the given count, and the row is rare iff that count is at most 2 |
| Features.RowFeaturesSpec | snowflake/snowpark_analyzer.py:148-160 | what each column means for its record: the three level flags are 1 iff the level is ERROR, WARNING, CRITICAL respectively; has_failure, has_exception, is_unauthorized are 1 iff the lowered message contains "fail", "exception", "unauthorized"; is_connection_issue is 1 iff one of the four connection terms occurs; has_number is 1 iff a digit occurs; has_special_chars is the number of positions neither word character nor whitespace |
| Features.ConnectionIssueIff | snowflake/snowpark_analyzer.py:156-158 | the alternation `connection\|network\|latency\|timeout` matches iff one of the four terms occurs in the lowered message |
| Features.StructuralRow | snowflake/snowpark_analyzer.py:147-165 | row i of the batch has msg_len of record i and a message frequency between 1 and the batch size |
| Features.CaseInsensitiveMatches | snowflake/snowpark_analyzer.py:153-158 | the `case=False` failure, exception, unauthorized and connection-issue (`MatchesConnectionIssue`) tests give the same answer on a message and on its lower-cased form |
| Features.CountNonWordNonSpace | snowflake/snowpark_analyzer.py:160 | the `[^\w\s]` count is at most the length, and 0 exactly when every character is a word character or whitespace |
| Features.CountNonWordNonSpaceAsSet | snowflake/snowpark_analyzer.py:160 | the `[^\w\s]` count equals the number of positions holding a character that is neither a word character nor whitespace |
| Features.MatchesFailureIff | snowflake/snowpark_analyzer.py:153 | `fail(ed\|ure)?` matches iff "fail" occurs, because the suffix is optional |
| Features.HasDigitRunIff | snowflake/snowpark_analyzer.py:159 | `\d+` is found iff some character is a digit |
| Features.FrequencyCountsRows | snowflake/snowpark_analyzer.py:163-164 | message_frequency is the number of row indices of the batch whose message is identical to this row's |
| Features.SameMessageSameFrequency | snowflake/snowpark_analyzer.py:163-165 | rows with identical messages get identical message_frequency and is_rare_message |
| Features.MessageCounts | snowflake/snowpark_analyzer.py:163 | the loop-built value_counts map has exactly the batch's messages as keys, each mapped to its number of occurrences |
| Features.ExtractStructuralFeatures | snowflake/snowpark_analyzer.py:147-165 | a fresh array with one row per parsed log, row i being the twelve columns of row i with its batch-wide frequency |
| Text.OccurrencesAsIndexSet | snowflake/snowpark_analyzer.py:163 | the occurrence count equals the size of the set of indices holding the value |
| Text.ContainsIff | snowflake/snowpark_analyzer.py:88 | the substring test `p in s` holds iff p occurs at some index of s |
| Text.FindDigitRuns | snowflake/explain_anomalies.py:86 | the runs of `re.findall(r'\d+')` are non-empty, all digits, at most as many as characters, and there are none iff the text has no digit |
| Text.DigitRunsCount | snowflake/explain_anomalies.py:86-87 | the runs are maximal: their number is the number of indices holding a digit that is first in the text or follows a non-digit |
| Text.Lower | snowflake/explain_anomalies.py:48 | lowering keeps the length, lowers each character, and leaves no upper-case ASCII letter |
| Text.LowerChar | snowflake/explain_anomalies.py:48 | an upper-case ASCII letter becomes the lower-case letter at the same alphabet position; lower-case letters and non-letters are unchanged |
| Analyzer.FeatureMatrix | snowflake/snowpark_analyzer.py:196-211 | one matrix row per parsed row; each row is 12 + k wide, its first twelve entries are the structural columns in order, and entry 12 + j is TF-IDF column j |
| Analyzer.StructuralOnlyWidth | snowflake/snowpark_analyzer.py:192-208 | when vectorisation raises, every matrix row is exactly twelve wide |
| Analyzer.AnalysisRows | snowflake/snowpark_analyzer.py:234-236 | each returned row keeps its record and structural features, carries the forest's label and score, and is_anomaly holds iff anomaly_score == -1 |
| Analyzer.CountFlagged | snowflake/snowpark_analyzer.py:335 | the flag sum is at most the number of rows, and 0 exactly when no row is flagged |
| Analyzer.Fitted | snowflake/snowpark_analyzer.py:172-181 | the vectorizer records max_features, min_df 2, max_df 0.8, n-grams (1, 2) and the token pattern, and has a vocabulary size exactly when fitting succeeded, equal to the TF-IDF width |
| Analyzer.CountFlaggedIsMinusOnes | snowflake/snowpark_analyzer.py:335 | the sum of is_anomaly over rows whose flag agrees with their label equals the number of -1 labels |
| Analyzer.AnomalyCountsAgree | snowflake/snowpark_analyzer.py:239 | the flag sum of the returned rows equals the number of -1 labels and is at most the row count |
| Analyzer.RunSummary | snowflake/snowpark_analyzer.py:335-342 | the run-history row records "ALL" for no file name, total_logs as the row count, anomalies_detected as the flag sum of the rows (at most total_logs), and the contamination |
| Analyzer.SelectRaw | snowflake/snowpark_analyzer.py:308-312 | no file name selects every raw row; a file name selects exactly the rows of that file |
| Analyzer.SelectRawCounts | snowflake/snowpark_analyzer.py:308-312 | with a file name, each row of that file occurs in the selection as often as in the table, and every other row not at all |
| Analyzer.SnowparkLogAnalyzer.constructor | snowflake/snowpark_analyzer.py:28-32 | a new analyzer has no vectorizer, an unfitted scaler and no model |
| Analyzer.SnowparkLogAnalyzer.ExtractFeaturesAndVectorize | snowflake/snowpark_analyzer.py:124-243 | an empty batch returns nothing and leaves the object unchanged; otherwise the vectorizer records max_features and the vocabulary size, the scaler and the forest are fitted on 12 + k columns with 100 trees and random state 42, the matrix is the structural block followed by the TF-IDF block, the rows are the labelled results, and the anomaly count is the number of -1 labels |
| Analyzer.SnowparkLogAnalyzer.RunFullPipeline | snowflake/snowpark_analyzer.py:290-352 | the rows returned are the analysed rows of the parsed selection; an empty selection records no run and leaves the object unchanged; otherwise the run row is the summary of the results, its anomaly count equals the number of -1 labels, and the vectorizer, scaler and forest fields hold the fitted state for 12 + k columns |
| Explain.ExplainAnomaly | snowflake/explain_anomalies.py:13-98 | with no comparison rows the division fails; otherwise the reasons are exactly the expected reason list and the confidence is min(uncapped schedule score, 100), which lies in [0, 100] |
| Explain.KeywordTests | snowflake/explain_anomalies.py:48-52 | the keyword loop appends one reason per table keyword found in the lowered message, in table order, and adds 15 per keyword found |
| Explain.ShapeTests | snowflake/explain_anomalies.py:67-96 | the length, special-character, digit-run and error-indicator tests append their reasons in order and add 10, 5, 5 and 10 points when they fire |
| Explain.Frequency | snowflake/explain_anomalies.py:55-56 | `value_counts().get(message, 0)` is the number of comparison rows with an identical message |
| Explain.ReasonsMatchSchedule | snowflake/explain_anomalies.py:21-96 | the reason list has one entry per award, and its points sum is the schedule's score: 25 for ERROR/CRITICAL, 15 per keyword, 30 or 15 for rarity, 10 for length, 5 for special characters, 5 for digit runs, 10 for indicators |
| Explain.NoReasonsIffZero | snowflake/explain_anomalies.py:21-96 | the reason list is empty iff the uncapped score is 0 |
| Explain.ReasonForEachAward | snowflake/explain_anomalies.py:29-96 | each kind of reason appears iff its test fires: severity iff ERROR or CRITICAL; a keyword reason iff that keyword was found; extremely rare iff freq*100 < total; uncommon iff total <= freq*100 < 5*total; long or short by the length outcome; special iff more than 10; numbers iff more than 5 runs; indicators iff at least 2 |
| Explain.SeverityReasonKind | snowflake/explain_anomalies.py:30-32 | the severity reason appears iff the level is ERROR or CRITICAL |
| Explain.KeywordReasonKind | snowflake/explain_anomalies.py:49-52 | a keyword's reason appears iff that keyword is among those found |
| Explain.RarityReasonKinds | snowflake/explain_anomalies.py:58-65 | the extremely-rare reason appears iff freq*100 < total, and the uncommon reason iff total <= freq*100 < 5*total |
| Explain.LengthReasonKinds | snowflake/explain_anomalies.py:71-76 | the long and short reasons appear iff the length test said long, respectively short |
| Explain.SpecialReasonKind | snowflake/explain_anomalies.py:79-82 | the special-character reason appears iff more than 10 characters are neither alphanumeric nor whitespace |
| Explain.NumberReasonKind | snowflake/explain_anomalies.py:86-89 | the numeric reason appears iff there are more than 5 digit runs |
| Explain.IndicatorReasonKind | snowflake/explain_anomalies.py:92-96 | the indicator reason appears iff at least 2 error indicators occur |
| Explain.KeywordAwards | snowflake/explain_anomalies.py:48-52 | a keyword is counted iff it is in the table and occurs in the lowered message, and at most ten are counted |
| Explain.KeywordAndIndicatorCounts | snowflake/explain_anomalies.py:49-93 | the keyword count and error_count are the numbers of distinct table entries present in the lowered message |
| Explain.CountSpecial | snowflake/explain_anomalies.py:79 | the special count is at most the length, and 0 exactly when every character is alphanumeric or whitespace |
| Explain.CountSpecialAsSet | snowflake/explain_anomalies.py:79 | the special count equals the number of positions holding a character that is neither alphanumeric nor whitespace |
| Explain.SpecialCountsUnderscore | snowflake/explain_anomalies.py:79 | the explanation's special count is the analyzer's `[^\w\s]` count plus the number of underscores |
| Explain.TotalPointsZeroIff | snowflake/explain_anomalies.py:21-96 | since every reason is worth points, a reason list is worth 0 iff it is empty |

## Left out

- TF-IDF fitting and transform, StandardScaler and IsolationForest are foreign numeric library code. Their outputs are inputs here: the TF-IDF matrix or its failure, the {-1, 1} labels, and the scores.
- The standardised matrix is not modelled; the scaler records only the width it was fitted on.
- Analyzer.SnowparkLogAnalyzer.ExtractFeaturesAndVectorize: requires labels in {-1, 1}, a TF-IDF matrix of the batch's height and at most `maxFeatures` columns, because those are the only shapes the library returns. The model does not validate `contamination`; the library does that.
- Analyzer.SnowparkLogAnalyzer.ExtractFeaturesAndVectorize: `maxFeatures` is a natural number, following the `int` annotation of `max_features`; the library's `max_features=None` (no limit) is not modelled.
- Analyzer.Fitted: `strip_accents`, `lowercase` and `stop_words` of the vectorizer configuration are not recorded, since they only change what the TF-IDF oracle computes.
- All SQL and persistence: `parse_logs_from_stage`, the Snowpark UDF wrapping, `save_results_to_snowflake`, the `parsed_logs` table write, the history INSERT, `save_model` and `load_model`. `SELECT ... WHERE file_name = ...` is modelled as the filter `SelectRaw`. The unescaped interpolation of the file name is not modelled.
- Console output and report printing. This includes `analyze_top_anomalies`, `compare_normal_vs_anomaly` (float percentages) and `interactive_search` (stdin and SQL).
- Explain.ExplainAnomaly: the message-length 2-sigma test uses a float mean and sample standard deviation, so its outcome is a parameter. Reasons are constructors, not the formatted emoji strings. They carry the integers the strings print (frequency, length, counts) but not the two floats: the rarity percentage `rarity_pct` and the average length `avg_length` are dropped.
- Explain.RarityReasonKinds: `frequency / total_logs * 100 < 1` is modelled as the exact integer test `frequency * 100 < total`. The float computation agrees for realistic row counts; floating-point rounding is not modelled.
- Explain.ExplainAnomaly: the level is one of the six parser levels. A LOG_LEVEL string outside them is not modelled; the source treats it like INFO.
- `None` values: a `None` raw line is modelled as the empty line, and `fillna('')` on messages is not modelled, because parsed messages are never missing.
- Non-ASCII text. Unicode `\s`, `\d`, `\w`, `isalnum`, `isspace` and case folding are restricted to their ASCII parts. `strip_accents` belongs to TF-IDF, which is also not modelled.
- Credentials and setup: the configuration loading, `setup_keypair_auth.py` and `test_connection.py`. These are wrappers over the file system and a cryptography library.
- `streamlit_app.py`, which is UI code with its own diverging feature copy. `quick_start.py` and `upload_logs.py` are orchestration scripts; only the sample line at `quick_start.py:104` is used.
- In-place DataFrame column additions are modelled as fresh values: the structural array and the returned rows. Pandas index alignment is not modelled.
