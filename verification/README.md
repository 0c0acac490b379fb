# StreamRegex, modelled in Dafny

A model of the SillyTavern extension StreamRegex. While a reply is being
streamed into the chat, the extension watches the message being written. On
every write of its text (`mes`) it tests a user-managed list of regular
expressions against the new text. When any match, it emits one
`WORLD_INFO_ACTIVATED` event on the host's bus carrying the automation id of
every matching rule. Slash commands add, update, delete and list the rules,
and the list is kept in the extension settings.

The model has one module per piece of `index.js`:

- `Patterns` (patterns.dfy): the host's RegExp as a parameter (`RegExpEngine`:
  whether `new RegExp(source, flags)` succeeds, and what `test` answers), and
  the `/body/flags` split the add and update commands perform with
  `^\/(.+)\/([a-z]*)$`, including the greedy backtracking of `.+`.
- `Rules` (rules.dfy): `class Regex` as a Dafny class whose fields the update
  command changes in place. `Rule` is the value such an object holds, and
  `RuleJson` is its serialised form. Also here: `toJSON`, `Regex.from`, the
  `find` by id, and the field changes of update.
- `Store` (store.dfy): `class Settings` with its rule list
  (`regexList: seq<Regex>`), `Settings.from`, and the add, update, delete
  and list commands, each with its error paths.
- `Evaluator` (evaluator.dfy): `runRegexList`. Its loop is proved against
  `MatchesOf`, a filter over the rule values. The event bus is an append-only
  log.
- `Watcher` (watcher.dfy): the poll step of `init` as a method over the
  watcher's `gen`, `len`, `original` and `proxy` and the host's `chat` array,
  proved against the function `Step`. A chat slot is
  `Plain(message) | Wrapped(entry)`. The Proxy `set` trap is the method
  `Write`. A session invariant shows that, while host code only appends
  messages, the watcher never leaves a stale wrapper behind.
- `JsArray` (js_array.dfy): `Array.prototype.indexOf`, which returns -1 when
  the element is absent.

Quirks of the code are modelled as written:

- The update command tests the rule's *own* automation id (index.js:185). If
  that id is truthy, it is replaced by the argument, even when no argument was
  given. If it is falsy, an argument given is ignored.
- Update pushes the same rule object onto the list again (index.js:188). A
  successful update therefore grows the list by one. Because rules are
  objects, a later update of that id changes every position that holds the
  object.
- For an unknown id, update and delete build their error message from `re.id`
  of the missing rule (index.js:178, 233). What is thrown is therefore the
  host's TypeError (`MissingRule`). Nothing has been changed at that point.
- An argument that does not have the shape `/body/flags` is not rejected. It is
  passed whole as both the source and the flags. Whether that throws is up to
  the RegExp.
- Delete removes only the first rule with the id. Rules that have the same id
  (for example, copies reloaded from storage after an update) stay.

Several of these are at odds with what the code itself announces, and the
model follows what the code does:

- The intended error for an unknown id is the message "A regex with this ID
  does not exist" (index.js:178, 233). Building that message is what throws.
- The update command declares `regex` and `automation` as optional arguments
  (index.js:197-204), which suggests an omitted one leaves its field alone.
  For the automation id that holds only when the rule's own id is falsy.
- The help text asks for a "regex in the form of /matcher/flags"
  (index.js:139, 198). Other forms are still accepted, as described above.

## Model

| member | source | states |
|---|---|---|
| Patterns.Backtrack | index.js:125 | the greedy `.+` tries the closing slash from the right; the result is a match position, and no position to its right (within the range tried) matches; no result means no position matches |
| Patterns.SplitRegexArg | index.js:124-127 | when the pattern matches, the argument is `"/" + body + "/" + flags` with a non-empty body free of line terminators and flags in `[a-z]*`; when it does not match, both halves are the argument unchanged |
| Patterns.ArgPattern | index.js:124-127 | the pattern built from a `/body/flags` argument has that body as its source and those flags; any other argument is used whole as both source and flags |
| Patterns.MatchIsUnique | index.js:125 | at most one closing slash can complete a match, since flags contain no slash |
| Patterns.SplitComposed | index.js:124-127 | splitting `"/" + body + "/" + flags` gives back exactly `(body, flags)` for every well-formed body (slashes included) and flags |
| Patterns.SplitChangesIffShaped | index.js:180-183 | the split changes the argument if and only if it has the `/body/flags` shape |
| JsArray.IndexOf | index.js:85 | -1 exactly when the element is absent; otherwise the first position holding it |
| Rules.FromJson | index.js:12-15 | loading a stored rule succeeds exactly when the host accepts its source and flags, and then gives a rule that serialises back to the same record; otherwise it fails with that pattern's error |
| Rules.FromJsonList | index.js:38 | a stored list loads exactly when every pattern is accepted, giving one rule per record in order, each serialising back to its record; otherwise the error is that of the first rejected record |
| Rules.ToJsonList | index.js:269 | the serialised list has one record per rule |
| Rules.RuleRoundTrip | index.js:21-30 | storing and reloading a rule gives back its id, source, flags and automation id |
| Rules.ListRoundTrip | index.js:37-40 | storing and reloading a list of accepted rules gives back the same list in the same order |
| Rules.FindIndex | index.js:122 | the position found holds the id and no earlier position does; nothing is found exactly when no rule has the id |
| Rules.Rule.ToJson | index.js:21-30 | the stored record holds everything the rule does: id, pattern source and flags, and automation id can be read back from it |
| Rules.UpdateSetsPattern | index.js:179-184 | an update given `"/" + body + "/" + flags` compiles exactly that body and those flags, slashes in the body included, and keeps the id |
| Rules.UpdateWithoutPatternKeepsIt | index.js:179 | an update without a truthy pattern argument keeps the rule's pattern |
| Rules.UpdateErasesAutomation | index.js:185-187 | when the rule's own automation id is set, an update without an automation argument erases it |
| Rules.UpdateIgnoresAutomation | index.js:185-187 | when the rule's own automation id is unset or empty, the automation argument is ignored, so an erased automation id is never set again |
| Rules.UpdateIdempotent | index.js:179-187 | repeating an update with the same arguments changes the rule no further |
| Rules.UpdateKeepsLookup | index.js:177-188 | when every position is unchanged or held a copy of the found rule and now holds its updated value, as after a successful update, a lookup of the id finds the same position again |
| Rules.Regex.constructor | index.js:14 | a new rule object holds the given id, pattern and automation id |
| Store.Settings.constructor | index.js:37-42 | a settings object holds the given rules, each in a fresh object of its own |
| Store.Settings.From | index.js:37-40 | a missing list loads as empty; a stored list loads as `FromJsonList` says, or the load fails with its error |
| Store.Settings.Add | index.js:119-132 | duplicate id (given or generated): error and no change; pattern rejected: error and no change; otherwise the list is the old list plus one fresh rule with the id, split pattern and automation, and the id is returned |
| Store.Settings.Update | index.js:176-191 | unknown id or rejected truthy pattern: error and no change; otherwise the found object takes the `ApplyUpdate` value at every position holding it, the same object is appended once more, and the id is returned |
| Store.Settings.Delete | index.js:231-237 | unknown id: error and no change; otherwise exactly the first rule with the id is removed, the others keep their order, and the id is returned |
| Store.Settings.List | index.js:268-270 | the listed records reload as exactly the current rules |
| Evaluator.EventSource.Emit | index.js:59 | emitting appends exactly that event to the bus log |
| Evaluator.Publish | index.js:58-60 | at most one event, carrying all matches, and none exactly when nothing matched |
| Evaluator.MatchesOf | index.js:52-57 | at most one activation per rule, and each activation is the automation id of a rule whose pattern matches the text |
| Evaluator.MatchesOfAppend | index.js:53-57 | evaluating a concatenated rule list is evaluating each part, in order |
| Evaluator.Hits | index.js:53-54 | the positions of the matching rules, strictly increasing, every matching position included |
| Evaluator.MatchesOfAreHits | index.js:51-57 | the evaluator yields exactly one `{automationId}` per matching rule, in rule-list order, duplicates kept |
| Evaluator.MatchesOfEmptyIff | index.js:58 | the collected matches are empty if and only if no rule's pattern matches the text |
| Evaluator.CollectMatches | index.js:52-57 | the loop over the current rule objects collects exactly `MatchesOf` of their values |
| Evaluator.RunRegexList | index.js:51-61 | the bus gains one event with the matches when some rule matches, and nothing otherwise |
| Watcher.WriteEvents | index.js:77-79 | every event a write publishes carries the matches of the written value; nothing is published exactly when the property is not `mes`, the slot holds no wrapper, or nothing matches |
| Watcher.OtherFieldsAreSilent | index.js:77-79 | a write to any property other than `mes` publishes nothing, however many wrappers it passes |
| Watcher.Write | index.js:76-81 | every write is stored on the underlying message; each wrapper runs the evaluator on the new value first, only for `mes` |
| Watcher.Restore | index.js:85-86 | the first slot holding the wrapper gets the original back; if no slot holds it, no slot changes |
| Watcher.Step | index.js:69-102 | flag on: `len` is the chat length, the last slot holds a wrapper of its previous entry, which becomes `original`, and other slots are unchanged; flag off: the wrapper's slot is restored; chat grew while on: restore, then wrap the new last slot; otherwise nothing changes; the chat length never changes |
| Watcher.InitialSessionInv | index.js:64-67 | a fresh watcher over a chat of plain messages satisfies the session invariant |
| Watcher.StepKeepsSessionInv | index.js:69-102 | a poll keeps the session invariant: no wrapper when idle, exactly one (around a plain message, at `len - 1`) while generating |
| Watcher.AppendKeepsSessionInv | index.js:88 | host code appending a message keeps the session invariant |
| Watcher.IdleWritesAreSilent | index.js:84-87 | after generation stops, writes through any slot publish nothing |
| Watcher.WatchedSlotPublishes | index.js:88-101 | while generating, a `mes` write publishes the matches of the new text exactly when it goes through the watched slot; the slot watched before a retarget is silent |
| Watcher.Watcher.constructor | index.js:64-67 | the watcher starts idle, with no original and no wrapper |
| Watcher.Watcher.Poll | index.js:69-102 | one loop iteration changes the watcher and the chat exactly as `Step` says |

## Left out

- The endless `while (true)` loop and its `await delay(100)` are left out: the model is one poll step, and polling and timing are scheduling.
- Proxy and Reflect mechanics (reads through the proxy, the `receiver` argument) are abstracted as a `Wrapped` slot plus the `Write` method. Proxy identity is by value, so two wrappers around the same entry compare equal in `indexOf`.
- Regular expressions are not modelled: compiling and `test` are the `RegExpEngine` parameter. This also leaves out the `lastIndex` state that the `g` and `y` flags give `test`. It also leaves out how `source` and `flags` are normalised by the RegExp (for example, flags come back in canonical order). The model stores them as given.
- The generated id `uuidv4()` is taken as the parameter `freshId`. Add still checks it for duplicates, as the code does.
- Persistence (`Settings.save`, `extension_settings`, `saveSettingsDebounced`) is left out.
- Event delivery to subscribers is left out, because the bus is host code. Emitting appends to a log.
- `console.warn` is left out.
- Slash-command registration, help text and argument parsing are left out. `regex` and `automation` are taken as present strings for add, as their `isRequired` flags ask.
- The list command returns the sequence of serialised records, not the `JSON.stringify` text.
- Generation starting on an empty chat is left out. There `new Proxy(undefined)` throws and ends the loop for good, so the model requires a non-empty chat when the flag turns on.
- When `indexOf` returns -1, `chat[-1] = original` only creates a non-index property. It is modelled as "no slot changes".
- Properties of a message other than strings are left out: message properties are a map from names to strings.
- `Object.assign` copies extra stored properties onto a rule, and the model does not keep them.
- `runRegexList` is `async`, so an exception inside it would only reject its promise and would not reach the writer. `test` is total in the model, so this is left out.
- Host code that removes or replaces chat slots is outside the session invariant. `Step` handles any chat, but the invariant lemmas assume host code only appends messages between polls.
- Strings are sequences of Unicode characters, not UTF-16 code units.
