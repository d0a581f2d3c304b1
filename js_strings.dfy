/**
  The three JavaScript string operations the router relies on: `indexOf`,
  `includes` and `replace` with a string pattern (including the `$`
  substitution patterns of the ECMAScript GetSubstitution operation).
  Strings are sequences of characters; the model does not distinguish
  UTF-16 code units from Unicode scalar values.
*/
module JsStrings {
  import opened Wrappers

  /** `pat` occurs in `s` starting at index `i`. */
  predicate OccursAt(s: string, pat: string, i: nat) {
    i + |pat| <= |s| && s[i..i + |pat|] == pat
  }

  /** `s.indexOf(pat, from)`: the first index at or after `from` where `pat` occurs; None stands for -1. */
  function IndexFrom(s: string, pat: string, from: nat): (r: Option<nat>)
    requires from <= |s|
    ensures r.Some? ==> from <= r.value && OccursAt(s, pat, r.value)
    ensures r.Some? ==> forall j :: from <= j < r.value ==> !OccursAt(s, pat, j)
    ensures r.None? ==> forall j :: from <= j <= |s| ==> !OccursAt(s, pat, j)
    decreases |s| - from
  {
    if OccursAt(s, pat, from) then Some(from)
    else if from == |s| then None
    else IndexFrom(s, pat, from + 1)
  }

  /** `s.indexOf(pat)`: the first occurrence of `pat` in `s`, if any. */
  function IndexOf(s: string, pat: string): (r: Option<nat>)
    ensures r.Some? ==> OccursAt(s, pat, r.value) && forall j :: 0 <= j < r.value ==> !OccursAt(s, pat, j)
    ensures r.None? ==> forall j :: 0 <= j <= |s| ==> !OccursAt(s, pat, j)
  {
    IndexFrom(s, pat, 0)
  }

  /** `s.includes(pat)`. */
  function Includes(s: string, pat: string): (b: bool)
    ensures b <==> exists j :: 0 <= j <= |s| && OccursAt(s, pat, j)
  {
    IndexOf(s, pat).Some?
  }

  /**
    The text that `replace` inserts for the replacement string `repl` when the
    pattern is a string (so there are no capture groups): `$$` stands for `$`,
    `$&` for the matched text, `` $` `` for the text before the match, `$'` for
    the text after it; every other character, including any other `$`, stands
    for itself.
  */
  function Substitute(repl: string, matched: string, before: string, after: string): string
    decreases |repl|
  {
    if repl == [] then []
    else if |repl| >= 2 && repl[0] == '$' && repl[1] == '$' then "$" + Substitute(repl[2..], matched, before, after)
    else if |repl| >= 2 && repl[0] == '$' && repl[1] == '&' then matched + Substitute(repl[2..], matched, before, after)
    else if |repl| >= 2 && repl[0] == '$' && repl[1] == '`' then before + Substitute(repl[2..], matched, before, after)
    else if |repl| >= 2 && repl[0] == '$' && repl[1] == '\'' then after + Substitute(repl[2..], matched, before, after)
    else [repl[0]] + Substitute(repl[1..], matched, before, after)
  }

  /** `s.replace(pat, repl)` with a string pattern: only the first occurrence is replaced. */
  function ReplaceFirst(s: string, pat: string, repl: string): string {
    match IndexOf(s, pat)
    case None => s
    case Some(i) => s[..i] + Substitute(repl, pat, s[..i], s[i + |pat|..]) + s[i + |pat|..]
  }

  /** A replacement string without `$` is inserted literally. */
  lemma {:induction false} SubstituteLiteral(repl: string, matched: string, before: string, after: string)
    requires '$' !in repl
    ensures Substitute(repl, matched, before, after) == repl
    decreases |repl|
  {
    if repl != [] {
      assert repl[0] != '$';
      assert '$' !in repl[1..] by {
        forall c | c in repl[1..] ensures c != '$' { assert c in repl; }
      }
      SubstituteLiteral(repl[1..], matched, before, after);
      assert repl == [repl[0]] + repl[1..];
    }
  }

  /** Without `$` in the replacement, `replace` swaps the first occurrence of `pat` for `repl` and keeps the rest. */
  lemma ReplaceFirstLiteral(s: string, pat: string, repl: string)
    requires '$' !in repl
    ensures IndexOf(s, pat).None? ==> ReplaceFirst(s, pat, repl) == s
    ensures IndexOf(s, pat).Some? ==>
      var i := IndexOf(s, pat).value;
      ReplaceFirst(s, pat, repl) == s[..i] + repl + s[i + |pat|..]
  {
    match IndexOf(s, pat)
    case None =>
    case Some(i) => SubstituteLiteral(repl, pat, s[..i], s[i + |pat|..]);
  }
}
