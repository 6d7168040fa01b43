# Email-Auditor rules engine, modelled in Dafny

This project models the rule-evaluation pipeline of Email-Auditor. That pipeline lives in
`src/rules_engine.py`. Three rule variants each turn one email into a verdict: a status,
a score and a justification.

- The **professional-greeting** rule looks for a configured keyword in the first 100
  characters of the lower-cased body.
- The **response-time** rule compares the time elapsed since the email was sent with
  `max_hours`.
- The **grammar-clarity** rule counts words and sentence fragments against `min_words`
  and `max_sentences`.

A registry maps the configured rule names to the variants. The loader keeps the entries
whose names the registry knows, in configuration order. The engine applies every loaded
rule to an email and tags each verdict with the rule's name.

Files and modules:

- `wrappers.dfy` (`Wrappers`): `Option`. An absent configuration key is `None`, and
  `GetOr` stands for `dict.get(key, default)`.
- `text.dfy` (`Text`): ASCII lower-casing, Python's whitespace set, the `[.!?]` class,
  substring search and decimal rendering.
- `tokenize.dfy` (`Tokenize`): `Words` stands for `str.split()` and `Fragments` for
  `re.split(r"[.!?]+", …)`. `RunCount` is an independent reference count of maximal
  runs, and lemmas tie the tokenisers to it.
- `rules.dfy` (`Rules`): the email record, the configuration record, the `Rule` tagged
  datatype and the three verdict functions.
- `engine.dfy` (`Engine`): the registry, the loader specification `KnownRules` and the
  class `RulesEngine`. The class has a `rules` field set by its constructor, a loader
  method with a loop and `EvaluateEmail` with a loop.

Design points:

- Scores are `real`, so `weight * 100` and `weight * 50` are exact.
- "Now" is a parameter. The email's date is a number of whole seconds, already parsed.
- The justification is a `Reason` value. `Reason.Text` renders it as the message strings of
  `src/rules_engine.py`.

What `src/rules_engine.py` does, and the model with it:

- The greeting window is 100 characters.
- A late response scores 0.
- `max_sentences` defaults to 5.
- The clarity rule gives "partial" with half the score when there are at least `min_words`
  words and too many sentence fragments.
- Sentence fragments keep the empty pieces at the edges. "Hi." counts as two fragments
  and the empty body as one.
- The engine does not catch exceptions raised by a rule.

## Model

| member | source | states |
|---|---|---|
| `Text.ContainsIff` | src/rules_engine.py:25 | The recursive `needle in haystack` search holds exactly when the needle occurs at some offset of the haystack. |
| `Tokenize.Words` | src/rules_engine.py:67 | `str.split()`: every word is non-empty and holds no whitespace character. |
| `Tokenize.WordsCount` | src/rules_engine.py:67 | The word count equals the number of maximal runs of non-whitespace characters. |
| `Tokenize.WordsKeepText` | src/rules_engine.py:67 | Concatenating the words gives exactly the body's non-whitespace characters, in order. |
| `Tokenize.Fragments` | src/rules_engine.py:68 | `re.split(r"[.!?]+", s)`: there is always at least one fragment, and no fragment holds `.`, `!` or `?`. |
| `Tokenize.FragmentsCount` | src/rules_engine.py:68 | The sentence count is 1 plus the number of maximal runs of `.`, `!` and `?`. |
| `Rules.FragmentExamples` | src/rules_engine.py:68 | The edge fragments are kept: "Hi." splits into "Hi" and "", "" into one empty fragment, and ".." into two empty fragments. |
| `Rules.Rule.Apply` | src/rules_engine.py:15-92 | The shape of every variant's verdict. A score is 0, weight×50 or weight×100. A fail scores 0 and a pass scores weight×100. Only the clarity rule gives "partial". For weight ≥ 0 the score lies in [0, weight×100]. |
| `Rules.Window` | src/rules_engine.py:22-25 | The greeting window is the first min(100, length) characters of the body, each lower-cased. |
| `Rules.FirstMatch` | src/rules_engine.py:24-30 | Returns the index of the first keyword, in list order, that occurs lower-cased in the window, with no earlier keyword occurring. `None` exactly when no keyword occurs. |
| `Rules.GreetingVerdict` | src/rules_engine.py:20-36 | Pass holds iff some keyword, lower-cased, occurs in the window. A pass scores weight×100 and names the first matching keyword as configured. Otherwise the verdict is fail, score 0, "No professional greeting found". |
| `Rules.GreetingWithoutKeywordsFails` | src/rules_engine.py:21-36 | With the keyword list absent or empty, the greeting rule always fails with score 0. |
| `Rules.EmptyKeywordAlwaysPasses` | src/rules_engine.py:24-30 | A configured empty keyword occurs in every body, so such a rule always passes. |
| `Rules.GreetingIgnoresKeywordCase` | src/rules_engine.py:22-25 | Lower-casing the configured keywords in advance does not change the greeting status. |
| `Rules.GreetingRuleVerdict` | src/rules_engine.py:20-36 | The greeting rule searches for the configured keywords, or none when the key is absent. Pass holds iff one occurs lower-cased in the window; the first such keyword is named and the score is weight×100; otherwise fail, 0, "No professional greeting found". |
| `Rules.ResponseTimeRuleVerdict` | src/rules_engine.py:41-61 | The response-time rule uses the configured `max_hours`, or 48 when absent. Pass holds iff (now − date) / 3600 ≤ that limit, with weight×100; otherwise fail with score 0. |
| `Rules.ClarityRuleVerdict` | src/rules_engine.py:66-92 | The clarity rule uses the configured `min_words` and `max_sentences`, or 10 and 5 when absent, against the run counts of words and terminators: too few words fails with 0, else too many fragments is partial with weight×50, else pass with weight×100. |
| `Rules.ResponseVerdict` | src/rules_engine.py:41-61 | Pass holds iff elapsed seconds / 3600 ≤ `max_hours`, so the boundary passes. A pass scores weight×100. Otherwise the verdict is fail with score 0, with no partial credit. |
| `Rules.ResponseTimeBoundary` | src/rules_engine.py:41-61 | With `max_hours` absent, the limit is 48 hours. A reply exactly 48 hours later passes, and one second later fails with score 0. |
| `Rules.ClarityVerdict` | src/rules_engine.py:66-92 | Too few words gives fail with score 0, whatever the sentence count (a terminal check). Otherwise too many fragments gives partial with weight×50. Otherwise pass with weight×100. All counts are stated on the reference run counts. |
| `Text.NatString` | src/rules_engine.py:54 | The decimal rendering of a number in a justification has only digits, no leading zero, and denotes that number. |
| `Text.IntString` | src/rules_engine.py:54 | A number in a justification is rendered as Python prints an int: a minus sign exactly for negatives, followed by digits that denote its magnitude. |
| `Engine.Registry` | src/rules_engine.py:106-110 | Exactly "professional_greeting", "response_time" and "grammar_clarity" select the greeting, response-time and clarity variants. |
| `Engine.Instantiate` | src/rules_engine.py:114-116 | The rule built is of the variant `kind` selects, and it holds the configuration entry as its configuration. |
| `Engine.KnownRules` | src/rules_engine.py:112-118 | Loading yields at most one rule per entry. Every rule's configuration comes from the list, and its variant is the one its name selects. |
| `Engine.KnownRulesAppend` | src/rules_engine.py:112-118 | Loading a concatenation of configuration lists loads each part, in order. |
| `Engine.UnknownSkipped` | src/rules_engine.py:113-116 | An entry with an unknown name is skipped. Later entries still load. |
| `Engine.AllKnownLoadInOrder` | src/rules_engine.py:112-118 | When every name is known, there is one rule per entry, and the i-th rule is built from the i-th entry. |
| `Engine.Evaluate` | src/rules_engine.py:120-126 | One result per rule. |
| `Engine.EvaluateAppend` | src/rules_engine.py:121-126 | Evaluating a concatenated rule list gives the concatenation of the results. |
| `Engine.UnknownContributesNoResult` | src/rules_engine.py:106-126 | A configuration entry with an unknown name contributes no result, and the other entries' results keep their order. |
| `Engine.RulesEngine.constructor` | src/rules_engine.py:96-97 | The engine's rule list is the loaded rule list. |
| `Engine.RulesEngine.LoadRules` | src/rules_engine.py:106-118 | The loop that appends a rule for each known name returns exactly `KnownRules` of the configuration list. |
| `Engine.RulesEngine.EvaluateEmail` | src/rules_engine.py:120-126 | Returns exactly one result per rule. The i-th result carries the i-th rule's name and its verdict. The rule list is unchanged. |

## Left out

- Reading the configuration file (`os.path`, `open`, `json.load`) is file I/O. The model takes the decoded list of configuration entries.
- The clock is left out: `datetime.now()` is a parameter. Date parsing (`datetime.fromisoformat`) is left out too: the email's date is already whole seconds.
- Rules.ResponseVerdict: the model's date is a whole-second count with no time zone, and the subtraction never fails. In the Python code, `datetime.now() - email_date` raises `TypeError` for every date that has a time zone (every "…Z" date, since "Z" is rewritten to "+00:00"), and `fromisoformat` raises `ValueError` on a string that is not ISO 8601, such as an RFC 2822 `Date` header. Either error stops the whole evaluation, because `evaluate_email` calls `apply` without a try. Neither error is modelled.
- Rules.ResponseVerdict: does not model the floating-point `total_seconds() / 3600` or sub-second precision. Elapsed time is exact whole seconds, and `max_hours` is an integer.
- Text.Lower: lower-cases ASCII letters only. Python's `str.lower` also maps other Unicode letters, some to more than one character.
- Missing mandatory keys raise `KeyError` in the Python code: `name`, `description`, `weight`, `body`, `date`. The typed records here rule them out.
- Values of another JSON type are ruled out by the typed records. In Python some raise (`TypeError`, `AttributeError` for a non-string body) and some do not (a string weight is repeated by `* 100`, a string keyword list is searched character by character).
- The `Rule` base class's `apply` raises `NotImplementedError`. It is never registered, so the closed set of three variants stands in for it.
- Rules.Rule.Apply: scores are exact `real` products. The Python code multiplies the weight in binary floating point, so `0.07 * 100` gives `7.000000000000001` there.
- Rules.ClarityVerdict: `min_words` and `max_sentences` are integers only. The Python code compares the counts with any JSON number.
- Engine.RulesEngine.EvaluateEmail: one `now` is shared by every rule of a call. The Python code calls `datetime.now()` afresh in each `ResponseTimeRule.apply`.
- The email's `attachments` field is not read by any rule and is not modelled.
- `src/email_parser.py` is MIME parsing over Python's `email` package and is not part of this model.
- `src/routes.py` and `app.py` are HTTP plumbing and are not part of this model.
- `src/report_generator.py` is serialisation and template rendering and is not part of this model.
- `src/routes.py:4` imports `generate_report` from `src/report_generator.py`, which does not define it, so no score aggregation is modelled.
- `src/rules_engine.py` has no per-rule exception isolation and no "error" status, so none is modelled.
