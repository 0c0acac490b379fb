/** Evaluator: `runRegexList` (index.js:51-61), which tests every rule against
    one text and publishes the automation ids of those that match. */
module Evaluator {
  import opened Wrappers
  import opened Patterns
  import opened Rules
  import opened Store

  /** One entry `{automationId}` of a notification. */
  datatype Activation = Activation(automationId: Option<string>)

  /** An event on the host's bus; the extension only ever emits this one. */
  datatype Event = WorldInfoActivated(matches: seq<Activation>)

  /** The host's event bus, as the log of what was emitted on it. */
  class EventSource {
    var emitted: seq<Event>

    constructor ()
      ensures emitted == []
    {
      emitted := [];
    }

    /** `eventSource.emit(...)`: delivery to subscribers is not modelled. */
    method Emit(e: Event)
      modifies this
      ensures emitted == old(emitted) + [e]
    {
      emitted := emitted + [e];
    }
  }

  /** The activations for `text`: one per rule whose pattern matches, in
      rule-list order, duplicates kept. */
  function MatchesOf(rules: seq<Rule>, text: string, engine: RegExpEngine): (matches: seq<Activation>)
    ensures |matches| <= |rules|
    ensures forall a :: a in matches ==>
              exists i :: 0 <= i < |rules| && engine.test(rules[i].regex, text)
                          && a == Activation(rules[i].automationId)
  {
    if rules == [] then []
    else
      (if engine.test(rules[0].regex, text) then [Activation(rules[0].automationId)] else [])
      + MatchesOf(rules[1..], text, engine)
  }

  /** What one evaluation publishes: a single event when something matched,
      nothing otherwise. */
  function Publish(matches: seq<Activation>): (events: seq<Event>)
    ensures |events| <= 1
    ensures events == [] <==> matches == []
    ensures forall e :: e in events ==> e == WorldInfoActivated(matches)
  {
    if |matches| > 0 then [WorldInfoActivated(matches)] else []
  }

  /** Evaluating a list is evaluating its parts, one after the other. */
  lemma {:induction false} MatchesOfAppend(a: seq<Rule>, b: seq<Rule>, text: string, engine: RegExpEngine)
    ensures MatchesOf(a + b, text, engine) == MatchesOf(a, text, engine) + MatchesOf(b, text, engine)
  {
    if a == [] {
      assert a + b == b;
    } else {
      assert (a + b)[1..] == a[1..] + b;
      MatchesOfAppend(a[1..], b, text, engine);
    }
  }

  /** The positions below `n` whose rule matches `text`, in increasing order. */
  ghost function Hits(rules: seq<Rule>, text: string, engine: RegExpEngine, n: nat): (hits: seq<nat>)
    requires n <= |rules|
    ensures forall k :: 0 <= k < |hits| ==> hits[k] < n && engine.test(rules[hits[k]].regex, text)
    ensures forall k1, k2 :: 0 <= k1 < k2 < |hits| ==> hits[k1] < hits[k2]
    ensures forall i :: 0 <= i < n && engine.test(rules[i].regex, text) ==> i in hits
  {
    if n == 0 then []
    else
      Hits(rules, text, engine, n - 1)
      + (if engine.test(rules[n - 1].regex, text) then [n - 1] else [])
  }

  /** The evaluator's result is exactly the automation ids of the matching
      rules, taken in rule-list order: one per matching rule, and no other. */
  lemma {:induction false} MatchesOfAreHits(rules: seq<Rule>, text: string, engine: RegExpEngine, n: nat)
    requires n <= |rules|
    ensures var hits := Hits(rules, text, engine, n);
            var matches := MatchesOf(rules[..n], text, engine);
            && |matches| == |hits|
            && forall k :: 0 <= k < |hits| ==> matches[k] == Activation(rules[hits[k]].automationId)
  {
    if n > 0 {
      MatchesOfAreHits(rules, text, engine, n - 1);
      assert rules[..n] == rules[..n - 1] + [rules[n - 1]];
      MatchesOfAppend(rules[..n - 1], [rules[n - 1]], text, engine);
      assert MatchesOf([rules[n - 1]], text, engine)
          == (if engine.test(rules[n - 1].regex, text) then [Activation(rules[n - 1].automationId)] else []);
    }
  }

  /** Nothing is published exactly when no rule matches. */
  lemma {:induction false} MatchesOfEmptyIff(rules: seq<Rule>, text: string, engine: RegExpEngine)
    ensures MatchesOf(rules, text, engine) == [] <==>
              forall i :: 0 <= i < |rules| ==> !engine.test(rules[i].regex, text)
  {
    if rules != [] {
      MatchesOfEmptyIff(rules[1..], text, engine);
      assert forall i :: 1 <= i < |rules| ==> rules[i] == rules[1..][i - 1];
    }
  }

  /** The `for ... of` loop of `runRegexList` over the current rule objects:
      it collects exactly `MatchesOf` of their values. */
  method CollectMatches(list: seq<Regex>, text: string, engine: RegExpEngine)
    returns (matches: seq<Activation>)
    ensures matches == MatchesOf(Snapshot(list), text, engine)
  {
    ghost var rules := Snapshot(list);
    matches := [];
    for i := 0 to |list|
      invariant matches == MatchesOf(rules[..i], text, engine)
    {
      var re := list[i];
      assert rules[..i + 1] == rules[..i] + [rules[i]];
      MatchesOfAppend(rules[..i], [rules[i]], text, engine);
      if engine.test(re.regex, text) {
        matches := matches + [Activation(re.automationId)];
      }
    }
    assert rules[..|list|] == rules;
  }

  /** `runRegexList(text)`: evaluates the settings' rules on `text` and emits
      one event carrying all matches when there is at least one. Its body has
      no `await`, so all of it runs at the call site. */
  method RunRegexList(settings: Settings, source: EventSource, text: string)
    modifies source
    ensures source.emitted
            == old(source.emitted) + Publish(MatchesOf(settings.Rules(), text, settings.engine))
  {
    var matches := CollectMatches(settings.regexList, text, settings.engine);
    if |matches| > 0 {
      source.Emit(WorldInfoActivated(matches));
    }
  }
}
