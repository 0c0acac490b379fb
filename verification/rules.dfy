/** Rules: one stream regex (`class Regex` in index.js), its stored form, and
    the errors the rule commands raise. */
module Rules {
  import opened Wrappers
  import opened Patterns

  /** Why a rule command or the settings load throws. */
  datatype CommandError =
    | DuplicateId(id: string)
      // add: a rule with the chosen id already exists
    | InvalidRegExp(source: string, flags: string)
      // `new RegExp(source, flags)` threw
    | MissingRule
      // update or delete of an unknown id: the message template reads `re.id`
      // of the missing rule, so what is thrown is the host's TypeError

  /** JavaScript truthiness of an optional string: defined and not empty. */
  predicate Truthy(v: Option<string>) {
    v.Some? && v.value != ""
  }

  /** The serialised form `{source, flags}` of a compiled pattern. */
  datatype PatternJson = PatternJson(source: string, flags: string)

  /** The serialised form `{id, regex, automationId}` of a rule; an
      `undefined` automation id is `None`. */
  datatype RuleJson = RuleJson(id: string, regex: PatternJson, automationId: Option<string>)

  /** The value of a rule at one moment. */
  datatype Rule = Rule(id: string, regex: Pattern, automationId: Option<string>) {

    /** `Regex.toJSON`: the compiled pattern is stored by its source and flags,
        and the record holds everything the rule does. */
    function ToJson(): (j: RuleJson)
      ensures Rule(j.id, Pattern(j.regex.source, j.regex.flags), j.automationId) == this
    {
      RuleJson(id, PatternJson(regex.source, regex.flags), automationId)
    }
  }

  /** `Regex.from`: the RegExp is rebuilt from the stored source and flags,
      which throws when the host rejects them. */
  function FromJson(j: RuleJson, engine: RegExpEngine): (r: Result<Rule, CommandError>)
    ensures r.Success? <==> engine.accepts(j.regex.source, j.regex.flags)
    ensures r.Success? ==> r.value.ToJson() == j
    ensures r.Failure? ==> r.error == InvalidRegExp(j.regex.source, j.regex.flags)
  {
    if engine.accepts(j.regex.source, j.regex.flags) then
      Success(Rule(j.id, Pattern(j.regex.source, j.regex.flags), j.automationId))
    else
      Failure(InvalidRegExp(j.regex.source, j.regex.flags))
  }

  /** Every rule's pattern is one the host's RegExp accepts. */
  predicate AllAccepted(rules: seq<Rule>, engine: RegExpEngine) {
    forall i :: 0 <= i < |rules| ==> engine.accepts(rules[i].regex.source, rules[i].regex.flags)
  }

  /** `regexList.map(it => Regex.from(it))`: the first stored rule the host
      rejects aborts the whole load with that rule's error. */
  function FromJsonList(js: seq<RuleJson>, engine: RegExpEngine): (r: Result<seq<Rule>, CommandError>)
    ensures r.Success? <==>
              forall i :: 0 <= i < |js| ==> engine.accepts(js[i].regex.source, js[i].regex.flags)
    ensures r.Success? ==>
              |r.value| == |js| && forall i :: 0 <= i < |js| ==> r.value[i].ToJson() == js[i]
    ensures r.Failure? ==>
              exists i :: 0 <= i < |js| && !engine.accepts(js[i].regex.source, js[i].regex.flags)
                          && r.error == InvalidRegExp(js[i].regex.source, js[i].regex.flags)
                          && forall k :: 0 <= k < i ==> engine.accepts(js[k].regex.source, js[k].regex.flags)
  {
    if js == [] then Success([])
    else
      match FromJson(js[0], engine)
      case Failure(e) => Failure(e)
      case Success(rule) =>
        match FromJsonList(js[1..], engine)
        case Failure(e) =>
          assert forall k :: 1 <= k < |js| ==> js[k] == js[1..][k - 1];
          Failure(e)
        case Success(rest) => Success([rule] + rest)
  }

  /** The serialised form of a whole rule list, as `JSON.stringify` sees it. */
  function ToJsonList(rules: seq<Rule>): (js: seq<RuleJson>)
    ensures |js| == |rules|
  {
    seq(|rules|, i requires 0 <= i < |rules| => rules[i].ToJson())
  }

  /** Storing and reloading a rule gives back the same id, source, flags and
      automation id. */
  lemma RuleRoundTrip(rule: Rule, engine: RegExpEngine)
    requires engine.accepts(rule.regex.source, rule.regex.flags)
    ensures FromJson(rule.ToJson(), engine) == Success(rule)
  {
  }

  /** Storing and reloading a rule list whose patterns the host accepts gives
      back the same list, in the same order. */
  lemma ListRoundTrip(rules: seq<Rule>, engine: RegExpEngine)
    requires AllAccepted(rules, engine)
    ensures FromJsonList(ToJsonList(rules), engine) == Success(rules)
  {
    var js := ToJsonList(rules);
    assert forall i :: 0 <= i < |js| ==> js[i] == rules[i].ToJson();
    var r := FromJsonList(js, engine);
    assert r.Success?;
    assert forall i :: 0 <= i < |rules| ==> r.value[i] == rules[i];
    assert r.value == rules;
  }

  /** `regexList.find(it => it.id == id)`, by position: the first rule with
      that id, if any. */
  function FindIndex(rules: seq<Rule>, id: string): (r: Option<nat>)
    ensures r.Some? ==> r.value < |rules| && rules[r.value].id == id
    ensures r.Some? ==> forall j :: 0 <= j < r.value ==> rules[j].id != id
    ensures r.None? <==> forall j :: 0 <= j < |rules| ==> rules[j].id != id
  {
    if rules == [] then None
    else if rules[0].id == id then Some(0)
    else
      match FindIndex(rules[1..], id)
      case Some(i) => Some(i + 1)
      case None => None
  }

  /** A list whose ids agree with another's up to the first position holding
      `id`, and which holds `id` there too, finds `id` at that position. */
  lemma FindIndexSameIds(before: seq<Rule>, after: seq<Rule>, id: string, i: nat)
    requires FindIndex(before, id) == Some(i) && i < |after| && after[i].id == id
    requires forall j :: 0 <= j < i ==> after[j].id == before[j].id
    ensures FindIndex(after, id) == Some(i)
  {
  }

  /** The field changes of the update command (index.js:179-187) on the rule
      found. The lemmas below say what they mean for a caller. */
  function ApplyUpdate(rule: Rule, regexArg: Option<string>, automation: Option<string>): Rule {
    var regex := if Truthy(regexArg) then ArgPattern(regexArg.value) else rule.regex;
    var automationId := if Truthy(rule.automationId) then automation else rule.automationId;
    Rule(rule.id, regex, automationId)
  }

  /** An update given `/body/flags` compiles exactly that body and those
      flags, whatever slashes the body holds; the id never changes. */
  lemma UpdateSetsPattern(rule: Rule, body: string, flags: string, automation: Option<string>)
    requires WellFormed(body, flags)
    ensures var u := ApplyUpdate(rule, Some("/" + body + "/" + flags), automation);
            u.regex == Pattern(body, flags) && u.id == rule.id
  {
    SplitComposed(body, flags);
  }

  /** An update without a (truthy) pattern argument keeps the pattern. */
  lemma UpdateWithoutPatternKeepsIt(rule: Rule, regexArg: Option<string>, automation: Option<string>)
    requires !Truthy(regexArg)
    ensures ApplyUpdate(rule, regexArg, automation).regex == rule.regex
  {
  }

  /** The test is on the rule's own automation id, not on the argument: when
      that id is set, an update without an automation argument erases it. */
  lemma UpdateErasesAutomation(rule: Rule, regexArg: Option<string>)
    requires Truthy(rule.automationId)
    ensures ApplyUpdate(rule, regexArg, None).automationId == None
  {
  }

  /** When the rule's own automation id is unset or empty, the automation
      argument is ignored, so an erased automation id is never set again. */
  lemma UpdateIgnoresAutomation(rule: Rule, regexArg: Option<string>, automation: Option<string>)
    requires !Truthy(rule.automationId)
    ensures ApplyUpdate(rule, regexArg, automation).automationId == rule.automationId
  {
  }

  /** What the update command leaves behind: each position either is as
      before or held a copy of the found rule and now holds its updated
      value (the positions sharing the found object are such copies).
      Looking the id up again then finds the same position, since the
      update keeps the id. */
  lemma {:induction false} UpdateKeepsLookup(before: seq<Rule>, after: seq<Rule>, id: string,
                                              regexArg: Option<string>, automation: Option<string>)
    requires FindIndex(before, id).Some? && |before| <= |after|
    requires var i := FindIndex(before, id).value;
             forall j :: 0 <= j < |before| ==>
               after[j] == before[j]
               || (before[j] == before[i] && after[j] == ApplyUpdate(before[i], regexArg, automation))
    ensures FindIndex(after, id) == FindIndex(before, id)
  {
    var i := FindIndex(before, id).value;
    FindIndexSameIds(before, after, id, i);
  }

  /** Repeating an update with the same arguments changes nothing more. */
  lemma UpdateIdempotent(rule: Rule, regexArg: Option<string>, automation: Option<string>)
    ensures var u := ApplyUpdate(rule, regexArg, automation);
            ApplyUpdate(u, regexArg, automation) == u
  {
  }

  /** One rule object (`class Regex`): its fields are changed in place by the
      update command, and the same object may sit in the list more than once. */
  class Regex {
    var id: string
    var regex: Pattern
    var automationId: Option<string>

    /** `Object.assign(new Regex(), props)`. */
    constructor (rule: Rule)
      ensures Value() == rule
    {
      id := rule.id;
      regex := rule.regex;
      automationId := rule.automationId;
    }

    function Value(): Rule
      reads this
    {
      Rule(id, regex, automationId)
    }
  }

  /** The values the rule objects of a list hold now, position by position. */
  function Snapshot(list: seq<Regex>): (rules: seq<Rule>)
    reads list
    ensures |rules| == |list|
    ensures forall i :: 0 <= i < |list| ==> rules[i] == list[i].Value()
  {
    seq(|list|, i reads list requires 0 <= i < |list| => list[i].Value())
  }
}
