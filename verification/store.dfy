/** Store: the extension's settings object (`class Settings` in index.js),
    which owns the rule list, and the add, update, delete and list commands
    that edit and read it. */
module Store {
  import opened Wrappers
  import opened Patterns
  import opened JsArray
  import opened Rules

  /** The stored settings record; `regexList` is `None` when the key is missing. */
  datatype StoredSettings = StoredSettings(regexList: Option<seq<RuleJson>>)

  class Settings {
    /** The host's RegExp, which every pattern in the list was built by. */
    const engine: RegExpEngine
    /** The rule objects in evaluation order; one object may appear twice. */
    var regexList: seq<Regex>

    /** Every rule in the list was built by `new RegExp` without throwing. */
    ghost predicate Valid()
      reads this, regexList
    {
      AllAccepted(Rules(), engine)
    }

    /** The values the listed rule objects hold now. */
    function Rules(): seq<Rule>
      reads this, regexList
    {
      Snapshot(regexList)
    }

    /** A settings object over fresh, distinct rule objects holding `rules`. */
    constructor (engine: RegExpEngine, rules: seq<Rule>)
      requires AllAccepted(rules, engine)
      ensures Valid() && this.engine == engine && Rules() == rules
      ensures forall o :: o in regexList ==> fresh(o)
      ensures forall i, j :: 0 <= i < j < |regexList| ==> regexList[i] != regexList[j]
    {
      var list: seq<Regex> := [];
      for n := 0 to |rules|
        invariant |list| == n
        invariant forall i :: 0 <= i < n ==> list[i].Value() == rules[i]
        invariant forall o :: o in list ==> fresh(o)
        invariant forall i, j :: 0 <= i < j < n ==> list[i] != list[j]
      {
        var re := new Regex(rules[n]);
        list := list + [re];
      }
      this.engine := engine;
      regexList := list;
    }

    /** `Settings.from`: a missing list loads as the empty list; a stored list
        loads rule by rule, and the first pattern the host rejects aborts the
        load. */
    static method From(stored: StoredSettings, engine: RegExpEngine) returns (r: Result<Settings, CommandError>)
      ensures stored.regexList.None? ==>
                && r.Success? && fresh(r.value) && r.value.Valid() && r.value.engine == engine
                && r.value.Rules() == []
      ensures stored.regexList.Some? ==>
                match FromJsonList(stored.regexList.value, engine)
                case Failure(e) => r == Failure(e)
                case Success(rules) =>
                  r.Success? && fresh(r.value) && r.value.Valid() && r.value.engine == engine
                  && r.value.Rules() == rules
    {
      if stored.regexList.None? {
        var s := new Settings(engine, []);
        return Success(s);
      }
      match FromJsonList(stored.regexList.value, engine)
      case Failure(e) =>
        return Failure(e);
      case Success(rules) =>
        assert forall i :: 0 <= i < |rules| ==>
          rules[i].ToJson() == stored.regexList.value[i];
        var s := new Settings(engine, rules);
        return Success(s);
    }

    /** The add command (index.js:119-132). The id is the one given or, when
        none is, `freshId` (the host's `uuidv4()`). A duplicate id throws; a
        pattern the host rejects throws; either way the list is unchanged.
        Otherwise one fresh rule is appended and its id returned. */
    method Add(id: Option<string>, freshId: string, regexArg: string, automation: string)
      returns (r: Result<string, CommandError>)
      requires Valid()
      modifies this
      ensures Valid()
      ensures var newId := if id.Some? then id.value else freshId;
              var pattern := ArgPattern(regexArg);
              if FindIndex(old(Rules()), newId).Some? then
                r == Failure(DuplicateId(newId)) && regexList == old(regexList) && Rules() == old(Rules())
              else if !engine.accepts(pattern.source, pattern.flags) then
                r == Failure(InvalidRegExp(pattern.source, pattern.flags))
                && regexList == old(regexList) && Rules() == old(Rules())
              else
                && r == Success(newId)
                && |regexList| == |old(regexList)| + 1
                && regexList[..|old(regexList)|] == old(regexList)
                && fresh(regexList[|old(regexList)|])
                && Rules() == old(Rules()) + [Rule(newId, pattern, Some(automation))]
    {
      var newId := if id.Some? then id.value else freshId;
      if FindIndex(Rules(), newId).Some? {
        return Failure(DuplicateId(newId));
      }
      var pattern := ArgPattern(regexArg);
      if !engine.accepts(pattern.source, pattern.flags) {
        return Failure(InvalidRegExp(pattern.source, pattern.flags));
      }
      var re := new Regex(Rule(newId, pattern, Some(automation)));
      regexList := regexList + [re];
      r := Success(newId);
    }

    /** The update command (index.js:176-191), as written. An unknown id
        throws, and so does a truthy pattern argument the host rejects; either
        way nothing changes. Otherwise the first rule object with that id is
        changed in place as `ApplyUpdate` says and then appended to the list
        once more, so every position holding that object shows the new value
        and the list grows by one (`UpdateKeepsLookup` says the id is then
        still found where it was). */
    method Update(id: string, regexArg: Option<string>, automation: Option<string>)
      returns (r: Result<string, CommandError>)
      requires Valid()
      modifies this, regexList
      ensures Valid()
      ensures FindIndex(old(Rules()), id).None? ==>
                r == Failure(MissingRule) && regexList == old(regexList) && Rules() == old(Rules())
      ensures FindIndex(old(Rules()), id).Some? && Truthy(regexArg)
              && !engine.accepts(ArgPattern(regexArg.value).source, ArgPattern(regexArg.value).flags) ==>
                && r == Failure(InvalidRegExp(ArgPattern(regexArg.value).source, ArgPattern(regexArg.value).flags))
                && regexList == old(regexList) && Rules() == old(Rules())
      ensures FindIndex(old(Rules()), id).Some?
              && (Truthy(regexArg) ==>
                    engine.accepts(ArgPattern(regexArg.value).source, ArgPattern(regexArg.value).flags)) ==>
                var i := FindIndex(old(Rules()), id).value;
                var target := old(regexList)[i];
                var updated := ApplyUpdate(old(Rules())[i], regexArg, automation);
                && r == Success(id)
                && regexList == old(regexList) + [target]
                && Rules()[|old(regexList)|] == updated
                && forall j :: 0 <= j < |old(regexList)| ==>
                     Rules()[j] == if old(regexList)[j] == target then updated else old(Rules())[j]
    {
      var found := FindIndex(Rules(), id);
      if found.None? {
        return Failure(MissingRule);
      }
      var re := regexList[found.value];
      if Truthy(regexArg) {
        var pattern := ArgPattern(regexArg.value);
        if !engine.accepts(pattern.source, pattern.flags) {
          return Failure(InvalidRegExp(pattern.source, pattern.flags));
        }
        re.regex := pattern;
      }
      if Truthy(re.automationId) {
        re.automationId := automation;
      }
      regexList := regexList + [re];
      r := Success(re.id);
    }

    /** The delete command (index.js:231-237). An unknown id throws and
        nothing changes. Otherwise exactly the first rule with that id is
        removed, the others keep their order, and the id is returned. */
    method Delete(id: string) returns (r: Result<string, CommandError>)
      requires Valid()
      modifies this
      ensures Valid()
      ensures FindIndex(old(Rules()), id).None? ==>
                r == Failure(MissingRule) && regexList == old(regexList) && Rules() == old(Rules())
      ensures FindIndex(old(Rules()), id).Some? ==>
                var i := FindIndex(old(Rules()), id).value;
                && r == Success(id)
                && regexList == old(regexList)[..i] + old(regexList)[i + 1..]
                && Rules() == old(Rules())[..i] + old(Rules())[i + 1..]
    {
      var found := FindIndex(Rules(), id);
      if found.None? {
        return Failure(MissingRule);
      }
      var re := regexList[found.value];
      var idx := IndexOf(regexList, re);
      assert idx == found.value;
      regexList := regexList[..idx] + regexList[idx + 1..];
      r := Success(re.id);
    }

    /** The list command (index.js:268-270): the serialised rule list, which
        loads back as exactly the current rules. */
    function List(): (js: seq<RuleJson>)
      reads this, regexList
      requires Valid()
      ensures |js| == |regexList|
      ensures FromJsonList(js, engine) == Success(Rules())
    {
      ListRoundTrip(Rules(), engine);
      ToJsonList(Rules())
    }
  }
}
