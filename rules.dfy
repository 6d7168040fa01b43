/**
 * The three rule variants of the rules engine. A rule is a tagged value that
 * holds its own configuration record (name, description, weight and optional
 * parameters); applying it to an email gives a verdict: a status, a score and
 * a justification. Missing parameters fall back to the same defaults as the
 * Python code's `config.get(key, default)` calls in `src/rules_engine.py`.
 */
module Rules {
  import opened Wrappers
  import opened Text
  import opened Tokenize

  /** The greeting is looked for in this many leading characters of the body. */
  const GreetingWindow: nat := 100
  const DefaultMaxHours: int := 48
  const DefaultMinWords: int := 10
  const DefaultMaxSentences: int := 5
  const SecondsPerHour: int := 3600

  datatype Status = Pass | Partial | Fail {
    /** The status string of a result. */
    function Label(): string
    {
      match this
      case Pass => "pass"
      case Partial => "partial"
      case Fail => "fail"
    }
  }

  /** Why a rule decided as it did; `Text()` gives the justification string. */
  datatype Reason =
    | FoundGreeting(keyword: string)
    | NoGreeting
    | WithinHours(maxHours: int)
    | ExceededHours(maxHours: int)
    | TooShort(minWords: int)
    | TooManySentences(maxSentences: int)
    | ClarityGood
  {
    function Text(): string
    {
      match this
      case FoundGreeting(k) => "Found professional greeting: " + k
      case NoGreeting => "No professional greeting found"
      case WithinHours(h) => "Response time within " + IntString(h) + " hours"
      case ExceededHours(h) => "Response time exceeded " + IntString(h) + " hours"
      case TooShort(n) => "Email too short (minimum " + IntString(n) + " words required)"
      case TooManySentences(n) => "Email has too many sentences (maximum " + IntString(n) + " recommended)"
      case ClarityGood => "Email length and clarity are good"
    }
  }

  /** What `apply` returns: status, score and justification. */
  datatype Verdict = Verdict(status: Status, score: real, reason: Reason)

  /** The email record the rules read; `date` is the send time in whole seconds. */
  datatype Email = Email(subject: string, sender: string, recipient: string, date: int, body: string)

  /** The rule-specific keys of a configuration entry; `None` is an absent key. */
  datatype Params = Params(
    keywords: Option<seq<string>>,
    maxHours: Option<int>,
    minWords: Option<int>,
    maxSentences: Option<int>)

  /** One entry of the rule configuration list. */
  datatype RuleConfig = RuleConfig(name: string, description: string, weight: real, params: Params)

  /** A rule: one of the three variants, bound to its configuration. */
  datatype Rule =
    | ProfessionalGreetingRule(config: RuleConfig)
    | ResponseTimeRule(config: RuleConfig)
    | GrammarClarityRule(config: RuleConfig)
  {
    function Name(): string { config.name }
    function Description(): string { config.description }
    function Weight(): real { config.weight }

    /**
     * `rule.apply(email)`, with the current time `now` (in the same seconds as
     * `email.date`) passed in. Every score is 0, half the weight's hundred or
     * the weight's full hundred; only the clarity rule gives partial credit.
     */
    function Apply(email: Email, now: int): (v: Verdict)
      ensures v.score == 0.0 || v.score == Weight() * 50.0 || v.score == Weight() * 100.0
      ensures v.score == 0.0 <== v.status == Fail
      ensures v.status == Pass ==> v.score == Weight() * 100.0
      ensures v.status == Partial ==> GrammarClarityRule? && v.score == Weight() * 50.0
      ensures Weight() >= 0.0 ==> 0.0 <= v.score <= Weight() * 100.0
    {
      match this
      case ProfessionalGreetingRule(c) =>
        GreetingVerdict(c.weight, c.params.keywords.GetOr([]), email.body)
      case ResponseTimeRule(c) =>
        ResponseVerdict(c.weight, c.params.maxHours.GetOr(DefaultMaxHours), now - email.date)
      case GrammarClarityRule(c) =>
        ClarityVerdict(c.weight, c.params.minWords.GetOr(DefaultMinWords),
                       c.params.maxSentences.GetOr(DefaultMaxSentences), email.body)
    }
  }

  // ---------------------------------------------------------------- greeting

  /** `body.lower()[:100]`: the lower-cased body, cut to its first 100 characters. */
  function Window(body: string): (w: string)
    ensures |w| == if |body| < GreetingWindow then |body| else GreetingWindow
    ensures forall i :: 0 <= i < |w| ==> w[i] == Lower(body[i])
  {
    var lowered := LowerStr(body);
    if |lowered| <= GreetingWindow then lowered else lowered[..GreetingWindow]
  }

  /** `keyword.lower() in window`. */
  predicate Matches(window: string, keyword: string)
  {
    Contains(window, LowerStr(keyword))
  }

  /** The index of the first keyword, in list order, that occurs in the window. */
  function FirstMatch(keywords: seq<string>, window: string): (r: Option<nat>)
    ensures r.Some? ==> r.value < |keywords| && Matches(window, keywords[r.value])
    ensures r.Some? ==> forall j :: 0 <= j < r.value ==> !Matches(window, keywords[j])
    ensures r.None? <==> forall j :: 0 <= j < |keywords| ==> !Matches(window, keywords[j])
    decreases |keywords|
  {
    if keywords == [] then None
    else if Matches(window, keywords[0]) then Some(0)
    else
      match FirstMatch(keywords[1..], window)
      case None => None
      case Some(i) => Some(i + 1)
  }

  /**
   * The professional-greeting rule: pass with the full score when some
   * keyword, lower-cased, occurs in the window, naming the first such keyword
   * as configured; otherwise fail with score 0.
   */
  function GreetingVerdict(weight: real, keywords: seq<string>, body: string): (v: Verdict)
    ensures v.status == Pass <==> exists i :: 0 <= i < |keywords| && Matches(Window(body), keywords[i])
    ensures v.status == Pass ==>
              v.score == weight * 100.0 &&
              exists i :: 0 <= i < |keywords| && v.reason == FoundGreeting(keywords[i]) &&
                          Matches(Window(body), keywords[i]) &&
                          forall j :: 0 <= j < i ==> !Matches(Window(body), keywords[j])
    ensures v.status != Pass ==> v == Verdict(Fail, 0.0, NoGreeting)
  {
    match FirstMatch(keywords, Window(body))
    case Some(i) => Verdict(Pass, weight * 100.0, FoundGreeting(keywords[i]))
    case None => Verdict(Fail, 0.0, NoGreeting)
  }

  // ----------------------------------------------------------- response time

  /**
   * The response-time rule on the time elapsed since the email was sent:
   * the Python code compares elapsed hours, a fraction, with `max_hours`; here the
   * same test is made on whole seconds. Within the limit (the limit itself
   * included) passes with the full score; beyond it fails with score 0.
   */
  function ResponseVerdict(weight: real, maxHours: int, elapsedSeconds: int): (v: Verdict)
    ensures v.status == Pass <==> elapsedSeconds as real / 3600.0 <= maxHours as real
    ensures v.status == Pass ==> v == Verdict(Pass, weight * 100.0, WithinHours(maxHours))
    ensures v.status != Pass ==> v == Verdict(Fail, 0.0, ExceededHours(maxHours))
  {
    if elapsedSeconds <= maxHours * SecondsPerHour then
      Verdict(Pass, weight * 100.0, WithinHours(maxHours))
    else
      Verdict(Fail, 0.0, ExceededHours(maxHours))
  }

  // ---------------------------------------------------------------- clarity

  /**
   * The grammar-and-clarity rule. Fewer words than `minWords` fails with score
   * 0 whatever the sentences (the check is terminal); otherwise more sentence
   * fragments than `maxSentences` is partial with half the score; otherwise
   * pass with the full score. Words are the maximal runs of non-whitespace;
   * sentence fragments are one more than the maximal runs of terminators.
   */
  function ClarityVerdict(weight: real, minWords: int, maxSentences: int, body: string): (v: Verdict)
    ensures RunCount(body, NonWhitespace) < minWords ==> v == Verdict(Fail, 0.0, TooShort(minWords))
    ensures RunCount(body, NonWhitespace) >= minWords && 1 + RunCount(body, Terminator) > maxSentences ==>
              v == Verdict(Partial, weight * 50.0, TooManySentences(maxSentences))
    ensures RunCount(body, NonWhitespace) >= minWords && 1 + RunCount(body, Terminator) <= maxSentences ==>
              v == Verdict(Pass, weight * 100.0, ClarityGood)
  {
    WordsCount(body);
    FragmentsCount(body);
    var words := |Words(body)|;
    var sentences := |Fragments(body)|;
    if words < minWords then
      Verdict(Fail, 0.0, TooShort(minWords))
    else if sentences > maxSentences then
      Verdict(Partial, weight * 50.0, TooManySentences(maxSentences))
    else
      Verdict(Pass, weight * 100.0, ClarityGood)
  }

  // ------------------------------------------------------------- properties

  /**
   * The greeting rule as configured: it searches for the configured keywords,
   * or for none when the key is absent, and names the first one found.
   */
  lemma GreetingRuleVerdict(c: RuleConfig, email: Email, now: int)
    ensures var keywords := c.params.keywords.GetOr([]);
            var v := ProfessionalGreetingRule(c).Apply(email, now);
            (v.status == Pass <==> exists i :: 0 <= i < |keywords| && Matches(Window(email.body), keywords[i])) &&
            (v.status == Pass ==>
               v.score == c.weight * 100.0 &&
               exists i :: 0 <= i < |keywords| && v.reason == FoundGreeting(keywords[i]) &&
                           Matches(Window(email.body), keywords[i]) &&
                           forall j :: 0 <= j < i ==> !Matches(Window(email.body), keywords[j])) &&
            (v.status != Pass ==> v == Verdict(Fail, 0.0, NoGreeting))
  {
  }

  /** The response-time rule as configured: the limit is the configured `max_hours`, or 48 when absent. */
  lemma ResponseTimeRuleVerdict(c: RuleConfig, email: Email, now: int)
    ensures var maxHours := c.params.maxHours.GetOr(48);
            var v := ResponseTimeRule(c).Apply(email, now);
            (v.status == Pass <==> (now - email.date) as real / 3600.0 <= maxHours as real) &&
            (v.status == Pass ==> v == Verdict(Pass, c.weight * 100.0, WithinHours(maxHours))) &&
            (v.status != Pass ==> v == Verdict(Fail, 0.0, ExceededHours(maxHours)))
  {
  }

  /**
   * The clarity rule as configured: the thresholds are the configured
   * `min_words` and `max_sentences`, or 10 and 5 when absent, compared with
   * the number of runs of non-whitespace and one more than the number of runs
   * of terminators.
   */
  lemma ClarityRuleVerdict(c: RuleConfig, email: Email, now: int)
    ensures var minWords := c.params.minWords.GetOr(10);
            var maxSentences := c.params.maxSentences.GetOr(5);
            var words := RunCount(email.body, NonWhitespace);
            var sentences := 1 + RunCount(email.body, Terminator);
            var v := GrammarClarityRule(c).Apply(email, now);
            (words < minWords ==> v == Verdict(Fail, 0.0, TooShort(minWords))) &&
            (words >= minWords && sentences > maxSentences ==>
               v == Verdict(Partial, c.weight * 50.0, TooManySentences(maxSentences))) &&
            (words >= minWords && sentences <= maxSentences ==> v == Verdict(Pass, c.weight * 100.0, ClarityGood))
  {
  }

  /** A greeting rule without keywords, or with an empty list, always fails. */
  lemma GreetingWithoutKeywordsFails(c: RuleConfig, email: Email, now: int)
    requires c.params.keywords == None || c.params.keywords == Some([])
    ensures ProfessionalGreetingRule(c).Apply(email, now) == Verdict(Fail, 0.0, NoGreeting)
  {
  }

  /** An empty keyword is found in every body, so a list holding one always passes. */
  lemma EmptyKeywordAlwaysPasses(c: RuleConfig, email: Email, now: int)
    requires c.params.keywords.Some? && "" in c.params.keywords.value
    ensures ProfessionalGreetingRule(c).Apply(email, now).status == Pass
  {
    ContainsEmpty(Window(email.body));
  }

  /** Matching ignores letter case on both sides: a keyword matches as its lower-cased self. */
  lemma {:induction false} GreetingIgnoresKeywordCase(weight: real, keywords: seq<string>, body: string)
    ensures GreetingVerdict(weight, keywords, body).status ==
            GreetingVerdict(weight, seq(|keywords|, i requires 0 <= i < |keywords| => LowerStr(keywords[i])), body).status
  {
    var lowered := seq(|keywords|, i requires 0 <= i < |keywords| => LowerStr(keywords[i]));
    forall i | 0 <= i < |keywords|
      ensures Matches(Window(body), keywords[i]) == Matches(Window(body), lowered[i])
    {
      LowerStrIdempotent(keywords[i]);
    }
  }

  /** A response exactly `max_hours` after sending still passes; the default limit is 48 hours. */
  lemma ResponseTimeBoundary(c: RuleConfig, email: Email)
    requires c.params.maxHours == None
    ensures ResponseTimeRule(c).Apply(email, email.date + 48 * 3600).status == Pass
    ensures ResponseTimeRule(c).Apply(email, email.date + 48 * 3600 + 1) == Verdict(Fail, 0.0, ExceededHours(48))
  {
  }

  /** Sentence fragments keep empty edge pieces: "Hi." has two and the empty body one. */
  lemma FragmentExamples()
    ensures Fragments("Hi.") == ["Hi", ""]
    ensures Fragments("") == [""]
    ensures Fragments("..") == ["", ""]
  {
    var s := "Hi.";
    assert Span(s[2..], NonTerminator) == 0;
    assert Span(s, NonTerminator) == 2;
    assert Span(s[2..], Terminator) == 1;
    assert s[3..] == "";
    assert s[..2] == "Hi";
    assert Fragments(s[3..]) == [""];
    var t := "..";
    assert Span(t, NonTerminator) == 0;
    assert Span(t[1..], Terminator) == 1;
    assert Span(t, Terminator) == 2;
    assert t[2..] == "";
  }
}
