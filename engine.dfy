/**
 * The rules engine: the registry that turns configuration entries into rules,
 * the loader that keeps the entries the registry knows, in order, and the
 * engine object whose `rules` field is set once at construction and which
 * evaluates every rule against an email, tagging each verdict with the rule's
 * name.
 */
module Engine {
  import opened Wrappers
  import opened Rules

  /** The variants the registry knows. */
  datatype Kind = Greeting | ResponseTime | Clarity

  /** The registry: a rule name to the variant it selects, if any. */
  function Registry(name: string): (r: Option<Kind>)
    ensures r == Some(Greeting) <==> name == "professional_greeting"
    ensures r == Some(ResponseTime) <==> name == "response_time"
    ensures r == Some(Clarity) <==> name == "grammar_clarity"
  {
    if name == "professional_greeting" then Some(Greeting)
    else if name == "response_time" then Some(ResponseTime)
    else if name == "grammar_clarity" then Some(Clarity)
    else None
  }

  /** `rule_class(rule_config)`: bind a configuration entry to the variant its name selects. */
  function Instantiate(kind: Kind, config: RuleConfig): (rule: Rule)
    ensures KindOf(rule) == kind
    ensures rule.config == config
  {
    match kind
    case Greeting => ProfessionalGreetingRule(config)
    case ResponseTime => ResponseTimeRule(config)
    case Clarity => GrammarClarityRule(config)
  }

  /** The variant a rule belongs to. */
  function KindOf(rule: Rule): Kind
  {
    match rule
    case ProfessionalGreetingRule(_) => Greeting
    case ResponseTimeRule(_) => ResponseTime
    case GrammarClarityRule(_) => Clarity
  }

  predicate Known(config: RuleConfig)
  {
    Registry(config.name).Some?
  }

  /**
   * The rules built from a configuration list: one per entry whose name the
   * registry knows, in list order, each of the variant its name selects.
   */
  function KnownRules(configs: seq<RuleConfig>): (rules: seq<Rule>)
    ensures |rules| <= |configs|
    ensures forall r <- rules :: r.config in configs && Registry(r.Name()) == Some(KindOf(r))
    decreases |configs|
  {
    if configs == [] then []
    else
      var last := configs[|configs| - 1];
      var kind := Registry(last.name);
      KnownRules(configs[..|configs| - 1]) + (if kind.Some? then [Instantiate(kind.value, last)] else [])
  }

  /** Loading a concatenation loads each part, in order. */
  lemma {:induction false} KnownRulesAppend(a: seq<RuleConfig>, b: seq<RuleConfig>)
    ensures KnownRules(a + b) == KnownRules(a) + KnownRules(b)
    decreases |b|
  {
    if b == [] {
      assert a + b == a;
    } else {
      var front := b[..|b| - 1];
      assert (a + b)[..|a + b| - 1] == a + front;
      KnownRulesAppend(a, front);
    }
  }

  /** An entry whose name is unknown is skipped and does not stop later entries from loading. */
  lemma UnknownSkipped(before: seq<RuleConfig>, unknown: RuleConfig, after: seq<RuleConfig>)
    requires !Known(unknown)
    ensures KnownRules(before + [unknown] + after) == KnownRules(before) + KnownRules(after)
  {
    assert [unknown][..0] == [];
    assert KnownRules([unknown]) == [];
    KnownRulesAppend(before, [unknown]);
    assert KnownRules(before + [unknown]) == KnownRules(before);
    KnownRulesAppend(before + [unknown], after);
  }

  /** When every name is known, the i-th rule is built from the i-th entry. */
  lemma {:induction false} AllKnownLoadInOrder(configs: seq<RuleConfig>)
    requires forall i :: 0 <= i < |configs| ==> Registry(configs[i].name).Some?
    ensures |KnownRules(configs)| == |configs|
    ensures forall i :: 0 <= i < |configs| ==>
              KnownRules(configs)[i] == Instantiate(Registry(configs[i].name).value, configs[i])
    decreases |configs|
  {
    if configs != [] {
      var n := |configs| - 1;
      var front := configs[..n];
      assert forall i :: 0 <= i < |front| ==> front[i] == configs[i];
      AllKnownLoadInOrder(front);
      var last := Instantiate(Registry(configs[n].name).value, configs[n]);
      var loaded := KnownRules(configs);
      assert loaded == KnownRules(front) + [last];
      forall i | 0 <= i < |configs|
        ensures loaded[i] == Instantiate(Registry(configs[i].name).value, configs[i])
      {
        if i < n {
          assert loaded[i] == KnownRules(front)[i];
        }
      }
    }
  }

  /** A result of `evaluate_email`: the rule's verdict tagged with the rule's name. */
  datatype RuleResult = RuleResult(rule: string, verdict: Verdict)

  /** The result list for a rule list: one tagged verdict per rule, in order. */
  function Evaluate(rules: seq<Rule>, email: Email, now: int): (results: seq<RuleResult>)
    ensures |results| == |rules|
  {
    seq(|rules|, i requires 0 <= i < |rules| => RuleResult(rules[i].Name(), rules[i].Apply(email, now)))
  }

  /** Evaluation of a concatenated rule list is the concatenation of the evaluations. */
  lemma EvaluateAppend(a: seq<Rule>, b: seq<Rule>, email: Email, now: int)
    ensures Evaluate(a + b, email, now) == Evaluate(a, email, now) + Evaluate(b, email, now)
  {
  }

  /** A configuration entry with an unknown name contributes no result. */
  lemma UnknownContributesNoResult(before: seq<RuleConfig>, unknown: RuleConfig, after: seq<RuleConfig>,
                                   email: Email, now: int)
    requires !Known(unknown)
    ensures Evaluate(KnownRules(before + [unknown] + after), email, now) ==
            Evaluate(KnownRules(before), email, now) + Evaluate(KnownRules(after), email, now)
  {
    UnknownSkipped(before, unknown, after);
    EvaluateAppend(KnownRules(before), KnownRules(after), email, now);
  }

  class RulesEngine {
    var rules: seq<Rule>

    /** `RulesEngine()`, given the decoded configuration list instead of reading it from disk. */
    constructor (configs: seq<RuleConfig>)
      ensures rules == KnownRules(configs)
    {
      var loaded := LoadRules(configs);
      rules := loaded;
    }

    /** `_load_rules`: walk the configuration list, appending a rule for each known name. */
    static method LoadRules(configs: seq<RuleConfig>) returns (rules: seq<Rule>)
      ensures rules == KnownRules(configs)
    {
      rules := [];
      var i := 0;
      while i < |configs|
        invariant 0 <= i <= |configs|
        invariant rules == KnownRules(configs[..i])
      {
        var config := configs[i];
        var kind := Registry(config.name);
        if kind.Some? {
          rules := rules + [Instantiate(kind.value, config)];
        }
        assert configs[..i + 1][..i] == configs[..i];
        i := i + 1;
      }
      assert configs[..i] == configs;
    }

    /**
     * `evaluate_email`: apply every rule in order and tag its verdict with the
     * rule's name. Exactly one result per rule; the rule list is left as it was.
     */
    method EvaluateEmail(email: Email, now: int) returns (results: seq<RuleResult>)
      ensures |results| == |rules|
      ensures forall i :: 0 <= i < |rules| ==>
                results[i].rule == rules[i].Name() && results[i].verdict == rules[i].Apply(email, now)
      ensures results == Evaluate(rules, email, now)
    {
      results := [];
      for i := 0 to |rules|
        invariant |results| == i
        invariant forall j :: 0 <= j < i ==>
                    results[j] == RuleResult(rules[j].Name(), rules[j].Apply(email, now))
      {
        var rule := rules[i];
        var verdict := rule.Apply(email, now);
        results := results + [RuleResult(rule.Name(), verdict)];
      }
    }
  }
}
