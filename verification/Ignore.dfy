/**
 Ignore rules and the `**` matcher (internal/snapshot/ignore.go). `glob` stands for
 `matchSegment`, which wraps Go's `path.Match`.
 */
module Ignore {
  import opened Text

  type Glob = (string, string) -> bool

  /** A pattern segment takes any run of path segments when it is `**`, and otherwise one that it matches. */
  predicate Takes(glob: Glob, pattern: string, span: seq<string>) {
    pattern == "**" || (|span| == 1 && glob(pattern, span[0]))
  }

  /** `cuts` divides the path into consecutive runs, one taken by each pattern segment. */
  predicate Aligned(glob: Glob, patterns: seq<string>, values: seq<string>, cuts: seq<nat>) {
    |cuts| == |patterns| + 1 && cuts[0] == 0 && cuts[|patterns|] == |values| &&
    (forall i :: 0 <= i < |patterns| ==> Division(cuts[i], cuts[i + 1], |values|)) &&
    (forall i :: 0 <= i < |patterns| ==>
       Division(cuts[i], cuts[i + 1], |values|) && Takes(glob, patterns[i], values[cuts[i]..cuts[i + 1]]))
  }

  predicate Division(from: nat, to: nat, length: nat) { from <= to <= length }

  ghost predicate Alignable(glob: Glob, patterns: seq<string>, values: seq<string>) {
    exists cuts: seq<nat> :: Aligned(glob, patterns, values, cuts)
  }

  function Shifted(cuts: seq<nat>, n: nat): (r: seq<nat>)
    ensures |r| == |cuts| && forall i :: 0 <= i < |cuts| ==> r[i] == cuts[i] + n
  {
    seq(|cuts|, i requires 0 <= i < |cuts| => cuts[i] + n)
  }

  /** The first pattern segment takes the first `n` path segments, and the others the rest. */
  lemma AlignFirst(glob: Glob, patterns: seq<string>, values: seq<string>, n: nat)
    requires patterns != [] && n <= |values|
    requires Takes(glob, patterns[0], values[..n])
    requires Alignable(glob, patterns[1..], values[n..])
    ensures Alignable(glob, patterns, values)
  {
    var tail: seq<nat> :| Aligned(glob, patterns[1..], values[n..], tail);
    var cuts := [0] + Shifted(tail, n);
    forall i | 0 <= i < |patterns|
      ensures Division(cuts[i], cuts[i + 1], |values|) && Takes(glob, patterns[i], values[cuts[i]..cuts[i + 1]])
    {
      if i == 0 {
        assert values[0..n] == values[..n];
      } else {
        assert Division(tail[i - 1], tail[i], |values[n..]|);
        assert values[cuts[i]..cuts[i + 1]] == values[n..][tail[i - 1]..tail[i]];
        assert patterns[i] == patterns[1..][i - 1];
      }
    }
    assert Aligned(glob, patterns, values, cuts);
  }

  lemma CutsStart(cuts: seq<nat>, length: nat, i: nat)
    requires 1 <= i < |cuts|
    requires forall k :: 0 <= k < |cuts| - 1 ==> Division(cuts[k], cuts[k + 1], length)
    ensures cuts[1] <= cuts[i] <= length
  {
    assert Division(cuts[0], cuts[1], length);
    if i == 1 {
    } else {
      CutsStart(cuts, length, i - 1);
      assert Division(cuts[i - 1], cuts[i], length);
    }
  }

  /** Conversely, every alignment starts like that. */
  lemma AlignedFirst(glob: Glob, patterns: seq<string>, values: seq<string>) returns (n: nat)
    requires patterns != [] && Alignable(glob, patterns, values)
    ensures n <= |values| && Takes(glob, patterns[0], values[..n]) && Alignable(glob, patterns[1..], values[n..])
  {
    var cuts: seq<nat> :| Aligned(glob, patterns, values, cuts);
    n := cuts[1];
    assert Division(cuts[0], cuts[1], |values|);
    assert values[0..n] == values[..n];
    forall i | 1 <= i < |cuts| ensures n <= cuts[i] <= |values| {
      CutsStart(cuts, |values|, i);
    }
    var tail := seq(|cuts| - 1,
                    (i: nat) requires 0 <= i < |cuts| - 1 => if cuts[i + 1] >= n then cuts[i + 1] - n else 0);
    forall i | 0 <= i < |patterns[1..]|
      ensures Division(tail[i], tail[i + 1], |values[n..]|)
      ensures Takes(glob, patterns[1..][i], values[n..][tail[i]..tail[i + 1]])
    {
      assert Division(cuts[i + 1], cuts[i + 2], |values|);
      assert values[cuts[i + 1]..cuts[i + 2]] == values[n..][tail[i]..tail[i + 1]];
    }
    assert Aligned(glob, patterns[1..], values[n..], tail);
  }

  /** The recursive `match` of `matchGlob`, loop and all. */
  method Match(
    glob: Glob, patterns: seq<string>, values: seq<string>, patternIndex: nat, valueIndex: nat)
    returns (ok: bool)
    requires patternIndex <= |patterns| && valueIndex <= |values|
    ensures ok <==> Alignable(glob, patterns[patternIndex..], values[valueIndex..])
    decreases |patterns| - patternIndex
  {
    ghost var ps, vs := patterns[patternIndex..], values[valueIndex..];
    if patternIndex == |patterns| {
      assert vs == [] ==> Aligned(glob, ps, vs, [0]);
      return valueIndex == |values|;
    }
    assert ps[1..] == patterns[patternIndex + 1..];
    if patterns[patternIndex] == "**" {
      var next := valueIndex;
      while next <= |values|
        invariant valueIndex <= next <= |values| + 1
        invariant forall n {:trigger vs[n..]} :: 0 <= n < next - valueIndex ==> !Alignable(glob, ps[1..], vs[n..])
      {
        assert vs[next - valueIndex..] == values[next..];
        var found := Match(glob, patterns, values, patternIndex + 1, next);
        if found {
          AlignFirst(glob, ps, vs, next - valueIndex);
          return true;
        }
        next := next + 1;
      }
      if Alignable(glob, ps, vs) {
        var n := AlignedFirst(glob, ps, vs);
        assert false;
      }
      return false;
    }
    ok := valueIndex < |values| && glob(patterns[patternIndex], values[valueIndex]);
    if ok {
      assert vs[1..] == values[valueIndex + 1..] && vs[..1] == [values[valueIndex]];
      ok := Match(glob, patterns, values, patternIndex + 1, valueIndex + 1);
      if ok { AlignFirst(glob, ps, vs, 1); }
    }
    if Alignable(glob, ps, vs) {
      var n := AlignedFirst(glob, ps, vs);
      assert n == 1 && vs[..1] == [values[valueIndex]];
    }
  }

  /** A path matches when its segments align with those of the pattern. */
  method MatchGlob(glob: Glob, pattern: string, value: string) returns (ok: bool)
    ensures ok <==> Alignable(glob, Split(pattern, '/'), Split(value, '/'))
  {
    var patterns, values := Split(pattern, '/'), Split(value, '/');
    assert patterns[0..] == patterns && values[0..] == values;
    ok := Match(glob, patterns, values, 0, 0);
  }

  // ---- bases ----

  /** `relativeToBase`. */
  function RelativeToBase(value: string, base: string): Option<string> {
    if base == "" then Some(value)
    else if value == base then Some("")
    else if base + "/" <= value then Some(value[|base| + 1..])
    else None
  }

  lemma {:induction false} SplitAppend(left: string, right: string)
    ensures Split(left + "/" + right, '/') == Split(left, '/') + Split(right, '/')
  {
    JoinSplit(left, '/');
    JoinSplit(right, '/');
    var parts := Split(left, '/') + Split(right, '/');
    JoinAppend(Split(left, '/'), Split(right, '/'));
    assert left + "/" + right == Join(parts, '/');
    SplitJoin(parts, '/');
  }

  lemma {:induction false} JoinAppend(left: seq<string>, right: seq<string>)
    requires left != [] && right != []
    ensures Join(left + right, '/') == Join(left, '/') + "/" + Join(right, '/')
    decreases |left|
  {
    var all := left + right;
    if |left| == 1 {
      assert all[1..] == right;
    } else {
      JoinAppend(left[1..], right);
      assert all[1..] == left[1..] + right;
    }
  }

  /** The directories of a base; the root has none. */
  function Segments(base: string): seq<string> { if base == "" then [] else Split(base, '/') }

  lemma BelowBase(value: string, base: string)
    requires base != "" && value != base
    ensures RelativeToBase(value, base).Some? <==> Split(base, '/') <= Split(value, '/')
    ensures RelativeToBase(value, base).Some? ==>
              Split(value, '/') == Split(base, '/') + Split(RelativeToBase(value, base).value, '/')
  {
    var v, b := Split(value, '/'), Split(base, '/');
    if base + "/" <= value {
      var rest := value[|base| + 1..];
      assert value == base + "/" + rest;
      SplitAppend(base, rest);
    }
    if b <= v {
      JoinSplit(value, '/');
      JoinSplit(base, '/');
      var rest := v[|b|..];
      assert v == b + rest;
      assert rest == [] ==> v == b;
      if rest != [] {
        JoinAppend(b, rest);
        assert value == base + "/" + Join(rest, '/');
      }
    }
  }

  /**
   A rule applies to its base and below it, from the root to everything: the base's segments begin the path's, and
   what is left is the candidate; for the base itself nothing is left.
   */
  lemma BaseIsAncestor(value: string, base: string)
    ensures RelativeToBase(value, base).Some? <==> Segments(base) <= Split(value, '/')
    ensures value == base ==> RelativeToBase(value, base) == Some("")
    ensures value != base && RelativeToBase(value, base).Some? ==>
              Split(value, '/') == Segments(base) + Split(RelativeToBase(value, base).value, '/')
  {
    if base == "" {
      assert [] + Split(value, '/') == Split(value, '/');
    } else if value != base {
      BelowBase(value, base);
    }
  }

  // ---- rules ----

  datatype Rule = Rule(base: string, pattern: string, negative: bool, directory: bool, hasSlash: bool)

  const RESERVED: set<string> := {".git", ".computehop-results", ".computehop-conflicts"}

  predicate HasReserved(path: string) {
    exists s :: s in Split(path, '/') && s in RESERVED
  }

  /** The segments of a path below a base that begins it; the base itself counts as one empty segment. */
  function Below(path: string, base: string): seq<string>
    requires Segments(base) <= Split(path, '/')
  {
    if path == base then [""] else Split(path, '/')[|Segments(base)|..]
  }

  /** The rule applies, and its pattern fits what is below its base: all of it with a slash, any one segment without. */
  ghost predicate Matches(glob: Glob, rule: Rule, path: string, directory: bool) {
    Segments(rule.base) <= Split(path, '/') && (rule.directory ==> directory) &&
    if rule.hasSlash then Alignable(glob, Split(rule.pattern, '/'), Below(path, rule.base))
    else exists s :: s in Below(path, rule.base) && glob(rule.pattern, s)
  }

  lemma CandidateBelow(path: string, base: string)
    requires RelativeToBase(path, base).Some?
    ensures Segments(base) <= Split(path, '/') && Split(RelativeToBase(path, base).value, '/') == Below(path, base)
  {
    BaseIsAncestor(path, base);
    if path == base { SplitWhole("", '/'); }
  }

  /** The last rule that matches decides, and it ignores the path unless it is a negation. */
  predicate Decides(matches: Rule -> bool, rules: seq<Rule>) {
    exists i :: 0 <= i < |rules| && matches(rules[i]) && !rules[i].negative &&
      forall j :: i < j < |rules| ==> !matches(rules[j])
  }

  lemma DecidesLast(matches: Rule -> bool, rules: seq<Rule>, rule: Rule)
    ensures Decides(matches, rules + [rule]) == if matches(rule) then !rule.negative else Decides(matches, rules)
  {
    var all := rules + [rule];
    if matches(rule) {
      assert all[|rules|] == rule;
    } else {
      if Decides(matches, rules) {
        var i :| 0 <= i < |rules| && matches(rules[i]) && !rules[i].negative &&
          forall j :: i < j < |rules| ==> !matches(rules[j]);
        assert all[i] == rules[i];
        assert forall j :: i < j < |all| ==> all[j] == if j < |rules| then rules[j] else rule;
      }
      if Decides(matches, all) {
        var i :| 0 <= i < |all| && matches(all[i]) && !all[i].negative &&
          forall j :: i < j < |all| ==> !matches(all[j]);
        assert i < |rules| && rules[i] == all[i];
        assert forall j :: i < j < |rules| ==> all[j] == rules[j];
      }
    }
  }

  ghost predicate LastWord(glob: Glob, rules: seq<Rule>, path: string, directory: bool) {
    Decides(r => Matches(glob, r, path, directory), rules)
  }

  lemma LastWordLast(glob: Glob, rules: seq<Rule>, rule: Rule, path: string, directory: bool)
    ensures LastWord(glob, rules + [rule], path, directory) ==
            if Matches(glob, rule, path, directory) then !rule.negative else LastWord(glob, rules, path, directory)
  {
    DecidesLast(r => Matches(glob, r, path, directory), rules, rule);
  }

  method MatchRule(glob: Glob, rule: Rule, path: string, directory: bool) returns (matched: bool)
    ensures matched <==> Matches(glob, rule, path, directory)
  {
    var candidate := RelativeToBase(path, rule.base);
    BaseIsAncestor(path, rule.base);
    if candidate.None? || (rule.directory && !directory) { return false; }
    CandidateBelow(path, rule.base);
    matched := false;
    if rule.hasSlash {
      matched := MatchGlob(glob, rule.pattern, candidate.value);
    } else {
      var segments := Split(candidate.value, '/');
      for i := 0 to |segments|
        invariant forall k :: 0 <= k < i ==> !glob(rule.pattern, segments[k])
      {
        if glob(rule.pattern, segments[i]) {
          return true;
        }
      }
    }
  }

  /** `ignored`: reserved segments always win; otherwise the last matching rule decides. */
  method Ignored(glob: Glob, rules: seq<Rule>, path: string, directory: bool) returns (ignored: bool)
    ensures ignored <==> HasReserved(path) || LastWord(glob, rules, path, directory)
  {
    var segments := Split(path, '/');
    for i := 0 to |segments|
      invariant forall k :: 0 <= k < i ==> segments[k] !in RESERVED
    {
      if segments[i] == ".git" || segments[i] == ".computehop-results" || segments[i] == ".computehop-conflicts" {
        return true;
      }
    }
    assert !HasReserved(path);
    ignored := false;
    for i := 0 to |rules|
      invariant ignored <==> LastWord(glob, rules[..i], path, directory)
    {
      LastWordLast(glob, rules[..i], rules[i], path, directory);
      assert rules[..i + 1] == rules[..i] + [rules[i]];
      var matched := MatchRule(glob, rules[i], path, directory);
      if matched { ignored := !rules[i].negative; }
    }
    assert rules[..|rules|] == rules;
  }

  /** The rules left when those not marked in `keep` are deleted. */
  function Thinned(rules: seq<Rule>, keep: seq<bool>): seq<Rule>
    requires |keep| == |rules|
  {
    if rules == [] then []
    else
      var n := |rules| - 1;
      Thinned(rules[..n], keep[..n]) + if keep[n] then [rules[n]] else []
  }

  /** Deleting any rules whose base is neither the path nor an ancestor of it changes no verdict. */
  lemma {:induction false} ForeignRulesAreIdle(
    glob: Glob, rules: seq<Rule>, keep: seq<bool>, path: string, directory: bool)
    requires |keep| == |rules|
    requires forall i :: 0 <= i < |rules| && !keep[i] ==> !(Segments(rules[i].base) <= Split(path, '/'))
    ensures LastWord(glob, Thinned(rules, keep), path, directory) == LastWord(glob, rules, path, directory)
  {
    if rules == [] {
    } else {
      var n := |rules| - 1;
      var rule, kept := rules[n], Thinned(rules[..n], keep[..n]);
      ForeignRulesAreIdle(glob, rules[..n], keep[..n], path, directory);
      assert rules == rules[..n] + [rule];
      LastWordLast(glob, rules[..n], rule, path, directory);
      if keep[n] {
        LastWordLast(glob, kept, rule, path, directory);
      } else {
        assert kept + [] == kept;
      }
    }
  }

  /** A pattern without a slash means the same as the pattern between two `**`. */
  lemma SlashlessMeans(glob: Glob, pattern: string, values: seq<string>)
    requires pattern != "**"
    ensures Alignable(glob, ["**", pattern, "**"], values) <==> exists s :: s in values && glob(pattern, s)
  {
    var patterns := ["**", pattern, "**"];
    if exists s :: s in values && glob(pattern, s) {
      var k :| 0 <= k < |values| && glob(pattern, values[k]);
      var cuts: seq<nat> := [0, k, k + 1, |values|];
      assert values[k..k + 1] == [values[k]];
      assert Aligned(glob, patterns, values, cuts);
    }
    if Alignable(glob, patterns, values) {
      var cuts: seq<nat> :| Aligned(glob, patterns, values, cuts);
      assert Division(cuts[1], cuts[2], |values|) && Takes(glob, patterns[1], values[cuts[1]..cuts[2]]);
      assert values[cuts[1]..cuts[2]][0] == values[cuts[1]];
    }
  }
}
