/**
 The tools a make target needs (apps/control-center/src/planner.ts and
 capability-catalog.ts). A tool name is its list of UTF-16 code units, which is what
 JavaScript sorts by. `lineTools` stands for the recipe-line classifier, `project` for the
 project's own tools and `clean` for trimming and lower-casing.
 */
module MakeTools {
  import Text
  import Lex

  type Tool = seq<int>

  const MAKE: Tool := ['m' as int, 'a' as int, 'k' as int, 'e' as int]
  const DEEPEST := 32

  /** A key present in either map is a known target, whatever list it holds. */
  datatype Profile = Profile(recipes: map<string, seq<string>>, prerequisites: map<string, seq<string>>)

  predicate Known(p: Profile, name: string) { name in p.recipes || name in p.prerequisites }

  function Recipe(p: Profile, name: string): seq<string> { if name in p.recipes then p.recipes[name] else [] }

  function Dependencies(p: Profile, name: string): seq<string> {
    if name in p.prerequisites then p.prerequisites[name] else []
  }

  // ---- the walk on values ----

  function Visited(p: Profile, seen: set<string>, name: string, depth: nat): set<string>
    decreases DEEPEST + 1 - depth, 0
  {
    if name == "" || name in seen || depth > DEEPEST then seen
    else VisitedAll(p, seen + {name}, Dependencies(p, name), depth + 1)
  }

  function VisitedAll(p: Profile, seen: set<string>, names: seq<string>, depth: nat): set<string>
    decreases DEEPEST + 1 - depth, 1 + |names|
  {
    if names == [] then seen
    else VisitedAll(p, if Known(p, names[0]) then Visited(p, seen, names[0], depth) else seen, names[1..], depth)
  }

  // ---- reachability ----

  predicate Needs(p: Profile, name: string, dependency: string) {
    dependency in Dependencies(p, name) && Known(p, dependency) && dependency != ""
  }

  /** A chain of known prerequisites that starts at the target. */
  predicate Chain(p: Profile, target: string, path: seq<string>) {
    target != "" && path != [] && path[0] == target &&
    forall i :: 0 < i < |path| ==> Needs(p, path[i - 1], path[i])
  }

  ghost predicate Reachable(p: Profile, target: string, name: string) {
    exists path :: Chain(p, target, path) && path[|path| - 1] == name
  }

  predicate Distinct(path: seq<string>) { forall i, j :: 0 <= i < j < |path| ==> path[i] != path[j] }

  /** No chain without repetition is longer than the walk is deep. */
  ghost predicate Shallow(p: Profile, target: string) {
    forall path :: Chain(p, target, path) && Distinct(path) ==> |path| <= DEEPEST + 1
  }

  lemma ReachNext(p: Profile, target: string, name: string, next: string)
    requires Reachable(p, target, name) && Needs(p, name, next)
    ensures Reachable(p, target, next)
  {
    var path :| Chain(p, target, path) && path[|path| - 1] == name;
    var longer := path + [next];
    assert Chain(p, target, longer) && longer[|longer| - 1] == next;
  }

  /** In every graph, cyclic or deep, the walk only adds targets that are reachable. */
  lemma {:induction false} VisitsOnlyReachable(p: Profile, target: string, seen: set<string>, name: string, depth: nat)
    requires forall n :: n in seen ==> Reachable(p, target, n)
    requires name != "" ==> Reachable(p, target, name)
    ensures forall n :: n in Visited(p, seen, name, depth) ==> Reachable(p, target, n)
    decreases DEEPEST + 1 - depth, 0
  {
    if !(name == "" || name in seen || depth > DEEPEST) {
      AllOnlyReachable(p, target, seen + {name}, name, Dependencies(p, name), depth + 1);
    }
  }

  lemma {:induction false} AllOnlyReachable(
    p: Profile, target: string, seen: set<string>, name: string, names: seq<string>, depth: nat)
    requires forall n :: n in seen ==> Reachable(p, target, n)
    requires Reachable(p, target, name) && forall n :: n in names ==> n in Dependencies(p, name)
    ensures forall n :: n in VisitedAll(p, seen, names, depth) ==> Reachable(p, target, n)
    decreases DEEPEST + 1 - depth, 1 + |names|
  {
    if names == [] {
    } else {
      var next := names[0];
      if Known(p, next) {
        if next != "" { ReachNext(p, target, name, next); }
        VisitsOnlyReachable(p, target, seen, next, depth);
        AllOnlyReachable(p, target, Visited(p, seen, next, depth), name, names[1..], depth);
      } else {
        AllOnlyReachable(p, target, seen, name, names[1..], depth);
      }
    }
  }

  // ---- what the depth limit turns away ----

  /** The names that this visit turns away for their depth alone. */
  function Refused(p: Profile, seen: set<string>, name: string, depth: nat): set<string>
    decreases DEEPEST + 1 - depth, 0
  {
    if name == "" || name in seen then {}
    else if depth > DEEPEST then {name}
    else RefusedAll(p, seen + {name}, Dependencies(p, name), depth + 1)
  }

  function RefusedAll(p: Profile, seen: set<string>, names: seq<string>, depth: nat): set<string>
    decreases DEEPEST + 1 - depth, 1 + |names|
  {
    if names == [] then {}
    else if Known(p, names[0]) then
      Refused(p, seen, names[0], depth) + RefusedAll(p, Visited(p, seen, names[0], depth), names[1..], depth)
    else RefusedAll(p, seen, names[1..], depth)
  }

  lemma {:induction false} RefusedReachable(p: Profile, target: string, seen: set<string>, name: string, depth: nat)
    requires name != "" ==> Reachable(p, target, name)
    ensures forall n :: n in Refused(p, seen, name, depth) ==> Reachable(p, target, n)
    decreases DEEPEST + 1 - depth, 0
  {
    if name == "" || name in seen || depth > DEEPEST {
    } else {
      AllRefusedReachable(p, target, seen + {name}, name, Dependencies(p, name), depth + 1);
    }
  }

  lemma {:induction false} AllRefusedReachable(
    p: Profile, target: string, seen: set<string>, name: string, names: seq<string>, depth: nat)
    requires Reachable(p, target, name) && forall n :: n in names ==> n in Dependencies(p, name)
    ensures forall n :: n in RefusedAll(p, seen, names, depth) ==> Reachable(p, target, n)
    decreases DEEPEST + 1 - depth, 1 + |names|
  {
    if names == [] {
    } else {
      var next := names[0];
      if Known(p, next) {
        if next != "" { ReachNext(p, target, name, next); }
        RefusedReachable(p, target, seen, next, depth);
        AllRefusedReachable(p, target, Visited(p, seen, next, depth), name, names[1..], depth);
      } else {
        AllRefusedReachable(p, target, seen, name, names[1..], depth);
      }
    }
  }

  /** Whatever a target needs was seen or turned away, apart from the targets whose visit is still under way. */
  ghost predicate Closed(p: Profile, seen: set<string>, stack: set<string>, away: set<string>) {
    forall n, d :: n in seen && n !in stack && Needs(p, n, d) ==> d in seen || d in away
  }

  lemma Popped(p: Profile, seen: set<string>, stack: set<string>, away: set<string>, name: string)
    requires Closed(p, seen, stack + {name}, away)
    requires forall d :: Needs(p, name, d) ==> d in seen || d in away
    ensures Closed(p, seen, stack, away)
  {}

  lemma {:induction false} VisitCloses(
    p: Profile, seen: set<string>, stack: set<string>, away: set<string>, name: string, depth: nat)
    requires Closed(p, seen, stack, away)
    ensures var after, away' := Visited(p, seen, name, depth), away + Refused(p, seen, name, depth);
            seen <= after && (name == "" || name in after || name in away') && Closed(p, after, stack, away')
    decreases DEEPEST + 1 - depth, 0
  {
    if name == "" || name in seen || depth > DEEPEST {
    } else {
      var names := Dependencies(p, name);
      assert Closed(p, seen + {name}, stack + {name}, away);
      AllClose(p, seen + {name}, stack + {name}, away, names, depth + 1);
      var all := away + RefusedAll(p, seen + {name}, names, depth + 1);
      Popped(p, VisitedAll(p, seen + {name}, names, depth + 1), stack, all, name);
    }
  }

  lemma {:induction false} AllClose(
    p: Profile, seen: set<string>, stack: set<string>, away: set<string>, names: seq<string>, depth: nat)
    requires Closed(p, seen, stack, away)
    ensures var after, away' := VisitedAll(p, seen, names, depth), away + RefusedAll(p, seen, names, depth);
            seen <= after && Closed(p, after, stack, away') &&
            forall n :: n in names && Known(p, n) && n != "" ==> n in after || n in away'
    decreases DEEPEST + 1 - depth, 1 + |names|
  {
    if names == [] {
    } else {
      var next, rest := names[0], names[1..];
      if Known(p, next) {
        var now, more := Visited(p, seen, next, depth), away + Refused(p, seen, next, depth);
        VisitCloses(p, seen, stack, away, next, depth);
        AllClose(p, now, stack, more, rest, depth);
        assert more + RefusedAll(p, now, rest, depth) == away + RefusedAll(p, seen, names, depth);
      } else {
        AllClose(p, seen, stack, away, rest, depth);
      }
      assert names == [next] + rest;
    }
  }

  lemma {:induction false} ChainSeen(p: Profile, target: string, seen: set<string>, path: seq<string>)
    requires target in seen && Closed(p, seen, {}, {}) && Chain(p, target, path)
    ensures path[|path| - 1] in seen
    decreases |path|
  {
    if |path| == 1 {
    } else {
      var n := |path| - 1;
      ChainSeen(p, target, seen, path[..n]);
      assert Needs(p, path[n - 1], path[n]);
    }
  }

  /** The walk visits exactly the reachable targets. */
  ghost predicate VisitsAll(p: Profile, target: string) {
    forall n :: n in Visited(p, {}, target, 0) <==> Reachable(p, target, n)
  }

  /**
   In every graph, cyclic or deep: the walk is complete if and only if each name that the depth limit
   turns away somewhere is visited elsewhere.
   */
  lemma VisitsAllExactly(p: Profile, target: string)
    ensures VisitsAll(p, target) <==> Refused(p, {}, target, 0) <= Visited(p, {}, target, 0)
  {
    var seen, away := Visited(p, {}, target, 0), Refused(p, {}, target, 0);
    if target == "" {
    } else {
      assert Chain(p, target, [target]) && [target][0] == target;
      VisitsOnlyReachable(p, target, {}, target, 0);
      RefusedReachable(p, target, {}, target, 0);
      if away <= seen { NothingLost(p, target); }
    }
  }

  lemma NothingLost(p: Profile, target: string)
    requires target != "" && Refused(p, {}, target, 0) <= Visited(p, {}, target, 0)
    ensures forall n :: Reachable(p, target, n) ==> n in Visited(p, {}, target, 0)
  {
    var seen := Visited(p, {}, target, 0);
    VisitCloses(p, {}, {}, {}, target, 0);
    assert Closed(p, seen, {}, {});
    forall n | Reachable(p, target, n)
      ensures n in seen
    {
      var path :| Chain(p, target, path) && path[|path| - 1] == n;
      ChainSeen(p, target, seen, path);
    }
  }

  // ---- shallow graphs ----

  /** The visits under way form a chain without repetition, and are as many as the depth. */
  ghost predicate UnderWay(p: Profile, target: string, seen: set<string>, stack: seq<string>) {
    Chain(p, target, stack) && Distinct(stack) && forall n :: n in stack ==> n in seen
  }

  lemma {:induction false} NoneRefused(
    p: Profile, target: string, seen: set<string>, stack: seq<string>, name: string)
    requires Shallow(p, target) && UnderWay(p, target, seen, stack) && Needs(p, stack[|stack| - 1], name)
    ensures Refused(p, seen, name, |stack|) == {} && seen <= Visited(p, seen, name, |stack|)
    decreases DEEPEST + 1 - |stack|, 0
  {
    if name in seen {
    } else {
      var path := stack + [name];
      assert Chain(p, target, path) && Distinct(path);
      NoneRefusedAll(p, target, seen + {name}, path, Dependencies(p, name));
    }
  }

  lemma {:induction false} NoneRefusedAll(
    p: Profile, target: string, seen: set<string>, stack: seq<string>, names: seq<string>)
    requires Shallow(p, target) && UnderWay(p, target, seen, stack)
    requires forall n :: n in names ==> n in Dependencies(p, stack[|stack| - 1])
    ensures RefusedAll(p, seen, names, |stack|) == {} && seen <= VisitedAll(p, seen, names, |stack|)
    decreases DEEPEST + 1 - |stack|, 1 + |names|
  {
    if names == [] {
    } else {
      var next := names[0];
      assert next in names;
      if Known(p, next) && next != "" { NoneRefused(p, target, seen, stack, next); }
      var now := if Known(p, next) then Visited(p, seen, next, |stack|) else seen;
      forall n | n in names[1..] ensures n in Dependencies(p, stack[|stack| - 1]) {
        assert n in names;
      }
      NoneRefusedAll(p, target, now, stack, names[1..]);
    }
  }

  /** In a shallow graph nothing is turned away, so the walk visits exactly what is reachable. */
  lemma VisitsReachable(p: Profile, target: string)
    requires Shallow(p, target)
    ensures Refused(p, {}, target, 0) == {} && VisitsAll(p, target)
  {
    if target == "" {
    } else {
      assert Chain(p, target, [target]) && [target][0] == target;
      NoneRefusedAll(p, target, {target}, [target], Dependencies(p, target));
      assert {} + {target} == {target};
    }
    VisitsAllExactly(p, target);
  }

  lemma {:induction false} DistinctFits(path: seq<string>, names: set<string>)
    requires Distinct(path) && forall n :: n in path ==> n in names
    ensures |path| <= |names|
    decreases |path|
  {
    if path == [] {
    } else {
      var n := |path| - 1;
      forall m | m in path[..n] ensures m in names - {path[n]} {
        assert m in path;
      }
      DistinctFits(path[..n], names - {path[n]});
    }
  }

  lemma ChainReachable(p: Profile, target: string, path: seq<string>, i: nat)
    requires Chain(p, target, path) && i < |path|
    ensures Reachable(p, target, path[i])
  {
    var part := path[..i + 1];
    assert Chain(p, target, part) && part[|part| - 1] == path[i];
  }

  /** When at most 33 targets are reachable the walk visits exactly those. */
  lemma FewTargets(p: Profile, target: string, reachable: set<string>)
    requires forall n :: n in reachable <==> Reachable(p, target, n)
    requires |reachable| <= 33
    ensures Shallow(p, target)
    ensures Visited(p, {}, target, 0) == reachable
  {
    forall path | Chain(p, target, path) && Distinct(path)
      ensures |path| <= DEEPEST + 1
    {
      forall n | n in path ensures n in reachable {
        var i :| 0 <= i < |path| && path[i] == n;
        ChainReachable(p, target, path, i);
      }
      DistinctFits(path, reachable);
    }
    VisitsReachable(p, target);
  }

  // ---- 34 targets in a row ----

  function Row(k: nat): (s: string)
    ensures |s| == k
  {
    if k == 0 then "" else Row(k - 1) + "a"
  }

  function RowNames(): set<string> { set k | 1 <= k <= 34 :: Row(k) }

  function LongRow(): Profile {
    Profile(map s | s in RowNames() :: [], map s | s in RowNames() :: [s + "a"])
  }

  lemma {:induction false} RowStops(k: nat, seen: set<string>)
    requires 1 <= k <= 34 && Row(34) !in seen
    ensures Row(34) !in Visited(LongRow(), seen, Row(k), k - 1)
    decreases 34 - k
  {
    var p, name := LongRow(), Row(k);
    if k == 34 || name in seen {
    } else {
      assert Row(k) in RowNames() && Row(k + 1) in RowNames();
      assert Dependencies(p, name) == [Row(k + 1)];
      RowStops(k + 1, seen + {name});
      assert [Row(k + 1)][1..] == [];
      assert VisitedAll(p, seen + {name}, [Row(k + 1)], k) == Visited(p, seen + {name}, Row(k + 1), k);
    }
  }

  lemma {:induction false} RowReachable(k: nat)
    requires 1 <= k <= 34
    ensures Reachable(LongRow(), Row(1), Row(k))
  {
    if k == 1 {
      assert Chain(LongRow(), Row(1), [Row(1)]) && [Row(1)][0] == Row(1);
    } else {
      RowReachable(k - 1);
      assert Row(k - 1) in RowNames() && Row(k) in RowNames();
      ReachNext(LongRow(), Row(1), Row(k - 1), Row(k));
    }
  }

  /** The bound is tight: of 34 targets in a row the walk misses the last. */
  lemma ThirtyFourMissesOne()
    ensures Reachable(LongRow(), Row(1), Row(34))
    ensures Row(34) !in Visited(LongRow(), {}, Row(1), 0) && !VisitsAll(LongRow(), Row(1))
  {
    RowReachable(34);
    RowStops(1, {});
  }

  // ---- normalizing tool names ----

  /** Not empty, and without white space or an equals sign. */
  predicate Wanted(t: Tool) { t != [] && forall i :: 0 <= i < |t| ==> !Text.ScriptSpace(t[i]) && t[i] != 61 }

  predicate Sorted(s: seq<Tool>) { forall i, j :: 0 <= i < j < |s| ==> !Lex.Less(s[j], s[i]) }

  function Placed(s: seq<Tool>, x: Tool): seq<Tool> { s[..Lex.Place(s, x)] + [x] + s[Lex.Place(s, x)..] }

  lemma NotAbove(a: Tool, b: Tool, c: Tool)
    requires !Lex.Less(b, a) && !Lex.Less(c, b)
    ensures !Lex.Less(c, a)
  {
    if Lex.Less(c, a) {
      Lex.Total(a, b);
      if a != b { Lex.Transitive(c, a, b); }
    }
  }

  lemma PlaceDivides(s: seq<Tool>, x: Tool, i: nat)
    requires Sorted(s) && i < |s|
    ensures i < Lex.Place(s, x) ==> !Lex.Less(x, s[i])
    ensures i >= Lex.Place(s, x) ==> !Lex.Less(s[i], x)
  {
    var k := Lex.Place(s, x);
    if i < k {
      if Lex.Less(x, s[i]) {
        Lex.Transitive(x, s[i], x);
        Lex.Irreflexive(x);
      }
    } else if k < i {
      NotAbove(x, s[k], s[i]);
    }
  }

  lemma SpliceSorted(s: seq<Tool>, x: Tool, k: nat)
    requires Sorted(s) && k <= |s|
    requires forall i :: 0 <= i < k ==> !Lex.Less(x, s[i])
    requires forall i :: k <= i < |s| ==> !Lex.Less(s[i], x)
    ensures Sorted(s[..k] + [x] + s[k..])
  {
    var r := s[..k] + [x] + s[k..];
    assert forall i :: 0 <= i < k ==> r[i] == s[i];
    assert r[k] == x;
    assert forall i :: k < i < |r| ==> r[i] == s[i - 1];
  }

  lemma PlacedSorted(s: seq<Tool>, x: Tool)
    requires Sorted(s)
    ensures Sorted(Placed(s, x))
    ensures multiset(Placed(s, x)) == multiset(s) + multiset{x}
  {
    var k := Lex.Place(s, x);
    assert s == s[..k] + s[k..];
    forall i | 0 <= i < |s|
      ensures i < k ==> !Lex.Less(x, s[i])
      ensures i >= k ==> !Lex.Less(s[i], x)
    {
      PlaceDivides(s, x, i);
    }
    SpliceSorted(s, x, k);
  }

  /** What `sort` does: equal names are the same name, so there is one sorted arrangement. */
  method Sort(values: seq<Tool>) returns (sorted: seq<Tool>)
    ensures Sorted(sorted) && multiset(sorted) == multiset(values)
  {
    sorted := [];
    for i := 0 to |values|
      invariant Sorted(sorted) && multiset(sorted) == multiset(values[..i])
    {
      PlacedSorted(sorted, values[i]);
      assert values[..i + 1] == values[..i] + [values[i]];
      sorted := Placed(sorted, values[i]);
    }
    assert values[..|values|] == values;
  }

  method Deduplicate(sorted: seq<Tool>) returns (ids: seq<Tool>)
    requires Sorted(sorted)
    ensures Lex.Increasing(ids) && forall t :: t in ids <==> t in sorted
  {
    ids := [];
    var seen: set<Tool> := {};
    for i := 0 to |sorted|
      invariant Lex.Increasing(ids)
      invariant forall t :: t in ids <==> t in seen
      invariant forall t :: t in ids <==> t in sorted[..i]
    {
      var value := sorted[i];
      assert sorted[..i + 1] == sorted[..i] + [value];
      if value !in seen {
        forall k | 0 <= k < |ids| ensures Lex.Less(ids[k], value) {
          assert ids[k] in ids;
          var j :| 0 <= j < i && sorted[j] == ids[k];
          Lex.Total(ids[k], value);
        }
        ids := ids + [value];
        seen := seen + {value};
      }
    }
    assert sorted[..|sorted|] == sorted;
  }

  /** `normalizeToolIDs`: strictly increasing, and holding exactly the cleaned names that are wanted. */
  method NormalizeToolIDs(clean: Tool -> Tool, values: seq<Tool>) returns (ids: seq<Tool>)
    ensures Lex.Increasing(ids)
    ensures forall t :: t in ids <==> Wanted(t) && exists v :: v in values && clean(v) == t
  {
    var cleaned: seq<Tool> := [];
    for i := 0 to |values|
      invariant forall t :: t in cleaned <==> Wanted(t) && exists v :: v in values[..i] && clean(v) == t
    {
      assert values[..i + 1] == values[..i] + [values[i]];
      var value := clean(values[i]);
      if Wanted(value) { cleaned := cleaned + [value]; }
    }
    assert values[..|values|] == values;
    var sorted := Sort(cleaned);
    forall t ensures t in sorted <==> t in cleaned {
      assert t in multiset(sorted) <==> t in multiset(cleaned);
    }
    ids := Deduplicate(sorted);
  }

  // ---- the walk as it runs ----

  predicate LineNeeds(lineTools: string -> seq<Tool>, lines: seq<string>, t: Tool) {
    exists line :: line in lines && t in lineTools(line)
  }

  /** The tool is `make` or is used by a recipe line of one of the targets. */
  predicate Collected(p: Profile, lineTools: string -> seq<Tool>, names: set<string>, t: Tool) {
    t == MAKE || exists n :: n in names && LineNeeds(lineTools, Recipe(p, n), t)
  }

  class Walk {
    const profile: Profile
    const lineTools: string -> seq<Tool>
    var seen: set<string>
    var required: seq<Tool>

    ghost predicate Valid()
      reads this
    {
      forall t :: t in required <==> Collected(profile, lineTools, seen, t)
    }

    constructor (profile: Profile, lineTools: string -> seq<Tool>)
      ensures Valid() && seen == {} && this.profile == profile && this.lineTools == lineTools
    {
      this.profile := profile;
      this.lineTools := lineTools;
      seen := {};
      required := [MAKE];
    }

    method Add(tools: seq<Tool>)
      modifies this`required
      ensures forall t :: t in required <==> t in old(required) || t in tools
    {
      for i := 0 to |tools|
        invariant forall t :: t in required <==> t in old(required) || t in tools[..i]
      {
        assert tools[..i + 1] == tools[..i] + [tools[i]];
        if tools[i] !in required { required := required + [tools[i]]; }
      }
      assert tools[..|tools|] == tools;
    }

    method AddRecipe(lines: seq<string>)
      modifies this`required
      ensures forall t :: t in required <==> t in old(required) || LineNeeds(lineTools, lines, t)
    {
      for i := 0 to |lines|
        invariant forall t :: t in required <==> t in old(required) || LineNeeds(lineTools, lines[..i], t)
      {
        ghost var before := required;
        Add(lineTools(lines[i]));
        assert lines[..i + 1] == lines[..i] + [lines[i]];
        forall t ensures t in required <==> t in old(required) || LineNeeds(lineTools, lines[..i + 1], t) {
          assert t in before <==> t in old(required) || LineNeeds(lineTools, lines[..i], t);
          assert LineNeeds(lineTools, lines[..i + 1], t) <==>
                 LineNeeds(lineTools, lines[..i], t) || t in lineTools(lines[i]);
        }
      }
      assert lines[..|lines|] == lines;
    }

    /** `visit`, which collects exactly the recipe tools of the targets it marks. */
    method Visit(name: string, depth: nat)
      requires Valid()
      modifies this`seen, this`required
      ensures Valid() && seen == Visited(profile, old(seen), name, depth)
      decreases DEEPEST + 1 - depth
    {
      if name == "" || name in seen || depth > DEEPEST { return; }
      seen := seen + {name};
      AddRecipe(Recipe(profile, name));
      var names := Dependencies(profile, name);
      for i := 0 to |names|
        invariant Valid()
        invariant VisitedAll(profile, seen, names[i..], depth + 1) == Visited(profile, old(seen), name, depth)
      {
        assert names[i..][0] == names[i] && names[i..][1..] == names[i + 1..];
        if Known(profile, names[i]) {
          Visit(names[i], depth + 1);
        }
      }
    }
  }

  /** What the list is made from, given the targets that were visited. */
  predicate Source(p: Profile, lineTools: string -> seq<Tool>, project: seq<Tool>, names: set<string>, t: Tool) {
    Collected(p, lineTools, names, t) || t in project
  }

  method RequiredToolIDs(
    p: Profile, lineTools: string -> seq<Tool>, project: seq<Tool>, clean: Tool -> Tool, target: string)
    returns (ids: seq<Tool>)
    ensures Lex.Increasing(ids)
    ensures forall t :: t in ids <==>
              Wanted(t) && exists x :: Source(p, lineTools, project, Visited(p, {}, target, 0), x) && clean(x) == t
  {
    var walk := new Walk(p, lineTools);
    walk.Visit(target, 0);
    walk.Add(project);
    ids := NormalizeToolIDs(clean, walk.required);
    assert forall x :: x in walk.required <==> Source(p, lineTools, project, Visited(p, {}, target, 0), x);
  }

  /**
   Whenever the walk is complete the list is the union of `make`, the project's tools and the recipe tools
   of every reachable target, all of these being names that cleaning leaves alone.
   */
  lemma UnionOfTools(
    p: Profile, lineTools: string -> seq<Tool>, project: seq<Tool>, clean: Tool -> Tool, target: string, t: Tool)
    requires Refused(p, {}, target, 0) <= Visited(p, {}, target, 0)
    requires forall x :: Source(p, lineTools, project, Visited(p, {}, target, 0), x) ==> Wanted(x) && clean(x) == x
    ensures (Wanted(t) && exists x :: Source(p, lineTools, project, Visited(p, {}, target, 0), x) && clean(x) == t) <==>
            (t == MAKE || t in project || exists n :: Reachable(p, target, n) && LineNeeds(lineTools, Recipe(p, n), t))
  {
    VisitsAllExactly(p, target);
    assert Source(p, lineTools, project, Visited(p, {}, target, 0), t) <==>
           (t == MAKE || t in project || exists n :: Reachable(p, target, n) && LineNeeds(lineTools, Recipe(p, n), t));
  }
}
