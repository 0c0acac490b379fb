/** Patterns: the host's RegExp, as far as the extension uses it, and the
    `/body/flags` argument that the add and update commands turn into one. */
module Patterns {
  import opened Wrappers

  /** A compiled RegExp, known by the `source` and `flags` it was built from. */
  datatype Pattern = Pattern(source: string, flags: string)

  /** What the model needs of the host's RegExp: whether
      `new RegExp(source, flags)` succeeds rather than throwing, and what
      `test(text)` answers for a compiled pattern. */
  datatype RegExpEngine = RegExpEngine(
    accepts: (string, string) -> bool,
    test: (Pattern, string) -> bool)

  /** The characters `.` does not match in a RegExp without the `s` flag. */
  predicate IsLineTerminator(c: char) {
    c == '\n' || c == '\r' || c == '\U{2028}' || c == '\U{2029}'
  }

  predicate IsFlagChar(c: char) {
    'a' <= c <= 'z'
  }

  /** `^\/(.+)\/([a-z]*)$` matches the whole of `s` with the slash that
      closes group 1 at index `k`. */
  predicate MatchesAt(s: string, k: nat) {
    && 2 <= k < |s|
    && s[0] == '/'
    && s[k] == '/'
    && (forall i :: 1 <= i < k ==> !IsLineTerminator(s[i]))
    && (forall i :: k < i < |s| ==> IsFlagChar(s[i]))
  }

  /** A body and flags that the match can produce as groups 1 and 2. */
  predicate WellFormed(body: string, flags: string) {
    && |body| > 0
    && (forall i :: 0 <= i < |body| ==> !IsLineTerminator(body[i]))
    && (forall i :: 0 <= i < |flags| ==> IsFlagChar(flags[i]))
  }

  /** The greedy `.+` backtracking: try the closing slash at `k`, then at
      `k - 1`, and so on down to index 2 (group 1 must be non-empty). */
  function Backtrack(s: string, k: nat): (r: Option<nat>)
    ensures r.Some? ==> r.value <= k && MatchesAt(s, r.value)
    ensures r.Some? ==> forall j :: r.value < j <= k ==> !MatchesAt(s, j)
    ensures r.None? ==> forall j: nat :: j <= k ==> !MatchesAt(s, j)
  {
    if k < 2 then None
    else if MatchesAt(s, k) then Some(k)
    else Backtrack(s, k - 1)
  }

  /** `arg.replace(/^\/(.+)\/([a-z]*)$/, '$1')` and the same with `'$2'`:
      the body and the flags when the whole argument matches, and the
      argument itself, twice, when it does not. */
  function SplitRegexArg(arg: string): (r: (string, string))
    ensures (exists k: nat :: MatchesAt(arg, k)) ==>
              WellFormed(r.0, r.1) && arg == "/" + r.0 + "/" + r.1
    ensures (forall k: nat :: !MatchesAt(arg, k)) ==> r == (arg, arg)
  {
    if |arg| == 0 then (arg, arg)
    else
      match Backtrack(arg, |arg| - 1)
      case Some(k) =>
        assert arg == [arg[0]] + arg[1..k] + [arg[k]] + arg[k + 1..];
        (arg[1..k], arg[k + 1..])
      case None => (arg, arg)
  }

  /** The pattern `new RegExp(...)` is asked to build from an argument. */
  function ArgPattern(arg: string): (p: Pattern)
    ensures (exists k: nat :: MatchesAt(arg, k)) ==>
              WellFormed(p.source, p.flags) && arg == "/" + p.source + "/" + p.flags
    ensures (forall k: nat :: !MatchesAt(arg, k)) ==> p == Pattern(arg, arg)
  {
    var (body, flags) := SplitRegexArg(arg);
    Pattern(body, flags)
  }

  /** Flags never contain a slash, so the closing slash is the last one and
      at most one split exists. */
  lemma MatchIsUnique(s: string, k1: nat, k2: nat)
    requires MatchesAt(s, k1) && MatchesAt(s, k2)
    ensures k1 == k2
  {
  }

  /** Splitting `/body/flags` gives back `body` and `flags`, even when the
      body itself contains slashes. */
  lemma {:induction false} SplitComposed(body: string, flags: string)
    requires WellFormed(body, flags)
    ensures SplitRegexArg("/" + body + "/" + flags) == (body, flags)
  {
    var s := "/" + body + "/" + flags;
    var k := |body| + 1;
    assert s[k] == '/';
    forall i | 1 <= i < k ensures !IsLineTerminator(s[i]) {
      assert s[i] == body[i - 1];
    }
    forall i | k < i < |s| ensures IsFlagChar(s[i]) {
      assert s[i] == flags[i - k - 1];
    }
    assert MatchesAt(s, k);
    var r := SplitRegexArg(s);
    var k' := |r.0| + 1;
    assert s[k'] == '/';
    forall i | 1 <= i < k' ensures !IsLineTerminator(s[i]) {
      assert s[i] == r.0[i - 1];
    }
    forall i | k' < i < |s| ensures IsFlagChar(s[i]) {
      assert s[i] == r.1[i - k' - 1];
    }
    assert MatchesAt(s, k');
    MatchIsUnique(s, k, k');
    assert r.0 == s[1..k];
    assert body == s[1..k];
    assert r.1 == s[k + 1..];
    assert flags == s[k + 1..];
  }

  /** An argument is split exactly when it has the shape `/body/flags`;
      otherwise both halves are the argument unchanged. */
  lemma SplitChangesIffShaped(arg: string)
    ensures SplitRegexArg(arg) != (arg, arg) <==> exists k: nat :: MatchesAt(arg, k)
  {
  }
}
