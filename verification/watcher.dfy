/** Watcher: the poll step of `init` (index.js:63-105), which wraps the chat
    entry being streamed into so that every write to it is seen, and the
    wrapper's `set` trap itself. */
module Watcher {
  import opened Wrappers
  import opened JsArray
  import opened Patterns
  import opened Rules
  import opened Store
  import opened Evaluator

  /** A chat message object of the host; `props` holds its properties, of
      which `mes` is the text being streamed. */
  class Message {
    var props: map<string, string>

    constructor (props: map<string, string>)
      ensures this.props == props
    {
      this.props := props;
    }
  }

  /** What a slot of the host's `chat` array holds: a message object, or a
      Proxy whose target is another entry. */
  datatype Entry = Plain(msg: Message) | Wrapped(target: Entry)

  /** The message object a write through `e` finally lands on. */
  function Target(e: Entry): Message {
    match e
    case Plain(m) => m
    case Wrapped(t) => Target(t)
  }

  /** The events a write of `value` to property `field` through `e`
      publishes: each Proxy layer runs the evaluator on `mes` writes before
      passing the write on to its target. */
  function WriteEvents(e: Entry, field: string, value: string, rules: seq<Rule>, engine: RegExpEngine): (events: seq<Event>)
    ensures forall ev :: ev in events ==> ev == WorldInfoActivated(MatchesOf(rules, value, engine))
    ensures events == [] <==> field != "mes" || e.Plain? || MatchesOf(rules, value, engine) == []
  {
    match e
    case Plain(_) => []
    case Wrapped(t) =>
      (if field == "mes" then Publish(MatchesOf(rules, value, engine)) else [])
      + WriteEvents(t, field, value, rules, engine)
  }

  /** Writes to any property other than `mes` never publish, however many
      wrappers they pass through. */
  lemma OtherFieldsAreSilent(e: Entry, field: string, value: string, rules: seq<Rule>, engine: RegExpEngine)
    requires field != "mes"
    ensures WriteEvents(e, field, value, rules, engine) == []
  {
  }

  /** `entry[field] = value` as host code writes it: on a Proxy, the `set`
      trap (index.js:76-81) runs the evaluator when the property is `mes` and
      then stores the write on its target with `Reflect.set`; on a message
      object the write is simply stored. Every write ends up on the
      underlying message, `mes` or not. */
  method Write(e: Entry, field: string, value: string, settings: Settings, source: EventSource)
    modifies Target(e), source
    ensures Target(e).props == old(Target(e).props)[field := value]
    ensures source.emitted
            == old(source.emitted) + WriteEvents(e, field, value, settings.Rules(), settings.engine)
    decreases e
  {
    match e
    case Plain(m) =>
      m.props := m.props[field := value];
    case Wrapped(t) =>
      ghost var rules := settings.Rules();
      ghost var target := Target(t);
      assert allocated(target);
      ghost var before := target.props;
      if field == "mes" {
        RunRegexList(settings, source, value);
      }
      assert settings.Rules() == rules && target.props == before;
      Write(t, field, value, settings, source);
      assert settings.Rules() == rules && Target(e) == target;
  }

  /** The host's `chat` array, which host code appends to and writes
      through, and which the watcher assigns single slots of. */
  class Chat {
    var entries: seq<Entry>

    constructor (entries: seq<Entry>)
      ensures this.entries == entries
    {
      this.entries := entries;
    }
  }

  /** The watcher's local variables `gen`, `len`, `original` and `proxy`. */
  datatype WatchState = WatchState(gen: bool, len: nat, original: Option<Entry>, proxy: Option<Entry>)

  /** While generating, the watcher holds an original entry and the wrapper
      made around it. */
  predicate Armed(s: WatchState) {
    s.gen ==> s.original.Some? && s.proxy == Some(Wrapped(s.original.value))
  }

  /** `chat[chat.indexOf(proxy)] = original`: the first slot holding the
      wrapper gets the original back; when no slot holds it, the assignment
      goes to the non-index property `-1` and no slot changes. */
  function Restore(chat: seq<Entry>, proxy: Entry, original: Entry): (r: seq<Entry>)
    ensures |r| == |chat|
    ensures proxy !in chat ==> r == chat
    ensures proxy in chat ==>
              var i := IndexOf(chat, proxy);
              r[i] == original && forall j :: 0 <= j < |chat| && j != i ==> r[j] == chat[j]
  {
    var idx := IndexOf(chat, proxy);
    if idx < 0 then chat else chat[idx := original]
  }

  /** One pass of the `while (true)` body of `init`, without the delay:
      `isSendPress` is the host's flag read at that moment. The chat keeps
      its length; only the slots named below change. */
  function Step(s: WatchState, chat: seq<Entry>, isSendPress: bool): (r: (WatchState, seq<Entry>))
    requires Armed(s)
    requires isSendPress && !s.gen ==> |chat| > 0
    ensures Armed(r.0)
    ensures |r.1| == |chat|
    ensures r.0.gen == isSendPress
    // generation starts: the last entry is wrapped in place
    ensures !s.gen && isSendPress ==>
              && r.0.len == |chat|
              && r.0.original == Some(chat[|chat| - 1])
              && r.1[|chat| - 1] == Wrapped(chat[|chat| - 1])
              && forall i :: 0 <= i < |chat| - 1 ==> r.1[i] == chat[i]
    // generation stops: the wrapper's slot gets the original back, if found
    ensures s.gen && !isSendPress ==>
              && r.0 == s.(gen := false)
              && r.1 == Restore(chat, s.proxy.value, s.original.value)
    // the chat grew while generating: unwrap the old slot, wrap the new last one
    ensures s.gen && isSendPress && s.len < |chat| ==>
              var restored := Restore(chat, s.proxy.value, s.original.value);
              && r.0.len == |chat|
              && r.0.original == Some(restored[|chat| - 1])
              && r.1 == restored[|chat| - 1 := Wrapped(restored[|chat| - 1])]
    // otherwise: nothing changes
    ensures s.gen == isSendPress && !(s.gen && s.len < |chat|) ==> r == (s, chat)
  {
    if s.gen != isSendPress then
      if isSendPress then
        var len := |chat|;
        var original := chat[len - 1];
        var proxy := Wrapped(original);
        (WatchState(true, len, Some(original), Some(proxy)), chat[len - 1 := proxy])
      else if s.original.Some? && s.proxy.Some? then
        (s.(gen := false), Restore(chat, s.proxy.value, s.original.value))
      else
        (s.(gen := false), chat)
    else if s.gen && isSendPress && s.len < |chat| then
      var restored := Restore(chat, s.proxy.value, s.original.value);
      var len := |restored|;
      var original := restored[len - 1];
      var proxy := Wrapped(original);
      (WatchState(true, len, Some(original), Some(proxy)), restored[len - 1 := proxy])
    else
      (s, chat)
  }

  /** The watcher's state and the chat between polls, while host code only
      appends message objects: no slot holds a wrapper when idle, and while
      generating exactly slot `len - 1` holds the current wrapper, around an
      unwrapped original. */
  ghost predicate SessionInv(s: WatchState, chat: seq<Entry>) {
    && Armed(s)
    && (s.gen ==> 1 <= s.len <= |chat| && s.original.value.Plain? && chat[s.len - 1] == s.proxy.value)
    && (forall i :: 0 <= i < |chat| && chat[i].Wrapped? ==> s.gen && i == s.len - 1)
  }

  /** A chat of message objects and a fresh watcher satisfy the invariant. */
  lemma InitialSessionInv(chat: seq<Entry>)
    requires forall i :: 0 <= i < |chat| ==> chat[i].Plain?
    ensures SessionInv(WatchState(false, 0, None, None), chat)
  {
  }

  /** A poll keeps the invariant: the watcher never leaves a stale wrapper in
      the chat and never wraps a wrapper. */
  lemma StepKeepsSessionInv(s: WatchState, chat: seq<Entry>, isSendPress: bool)
    requires SessionInv(s, chat)
    requires isSendPress && !s.gen ==> |chat| > 0
    ensures SessionInv(Step(s, chat, isSendPress).0, Step(s, chat, isSendPress).1)
  {
  }

  /** Host code appending a message object keeps the invariant. */
  lemma AppendKeepsSessionInv(s: WatchState, chat: seq<Entry>, m: Message)
    requires SessionInv(s, chat)
    ensures SessionInv(s, chat + [Plain(m)])
  {
  }

  /** While idle, a write through any slot publishes nothing. */
  lemma IdleWritesAreSilent(s: WatchState, chat: seq<Entry>, i: nat, field: string, value: string,
                            rules: seq<Rule>, engine: RegExpEngine)
    requires SessionInv(s, chat) && !s.gen && i < |chat|
    ensures WriteEvents(chat[i], field, value, rules, engine) == []
  {
  }

  /** While generating, a write of `mes` publishes the matches of the new
      text exactly when it goes through the watched slot; writes through
      every other slot, including the one watched before a retarget, publish
      nothing. */
  lemma WatchedSlotPublishes(s: WatchState, chat: seq<Entry>, i: nat, value: string,
                             rules: seq<Rule>, engine: RegExpEngine)
    requires SessionInv(s, chat) && s.gen && i < |chat|
    ensures WriteEvents(chat[i], "mes", value, rules, engine)
            == if i == s.len - 1 then Publish(MatchesOf(rules, value, engine)) else []
  {
  }

  /** The watcher of `init`: its four local variables, over the host's chat. */
  class Watcher {
    const chat: Chat
    var gen: bool
    var len: nat
    var original: Option<Entry>
    var proxy: Option<Entry>

    function State(): WatchState
      reads this
    {
      WatchState(gen, len, original, proxy)
    }

    /** `let len; let original; let proxy; let gen = false;` (`len` starts
        at 0 instead of `undefined`: it is only read while `gen` is true). */
    constructor (chat: Chat)
      ensures this.chat == chat
      ensures State() == WatchState(false, 0, None, None)
    {
      this.chat := chat;
      gen := false;
      len := 0;
      original := None;
      proxy := None;
    }

    /** One iteration of the loop in `init` (index.js:69-102): the flag
        flipping on wraps the last entry, flipping off unwraps it, and the
        chat growing while generating moves the wrapper to the new last
        entry. */
    method Poll(isSendPress: bool)
      requires Armed(State())
      requires isSendPress && !gen ==> |chat.entries| > 0
      modifies this, chat
      ensures Armed(State())
      ensures (State(), chat.entries) == Step(old(State()), old(chat.entries), isSendPress)
    {
      if gen != isSendPress {
        gen := isSendPress;
        if gen {
          len := |chat.entries|;
          original := Some(chat.entries[len - 1]);
          proxy := Some(Wrapped(original.value));
          chat.entries := chat.entries[len - 1 := proxy.value];
        } else if original.Some? && proxy.Some? {
          var idx := IndexOf(chat.entries, proxy.value);
          if idx >= 0 {
            chat.entries := chat.entries[idx := original.value];
          }
        }
      } else if gen && isSendPress && len < |chat.entries| {
        var idx := IndexOf(chat.entries, proxy.value);
        if idx >= 0 {
          chat.entries := chat.entries[idx := original.value];
        }
        len := |chat.entries|;
        original := Some(chat.entries[len - 1]);
        proxy := Some(Wrapped(original.value));
        chat.entries := chat.entries[len - 1 := proxy.value];
      }
    }
  }
}
