/** The worklist that finds the calls reachable from the production entry points. */
module Reachability {
  import opened Prelude
  import opened DottedNames
  import opened Strings

  /** Function name to the names it calls, as `_called_names` resolves them. */
  type Definitions = map<string, set<string>>

  /** `definitions.get(name, set())`. */
  function CallsOf(definitions: Definitions, name: string): set<string> {
    if name in definitions then definitions[name] else {}
  }

  /** The index just after the last dot. */
  function BareStart(s: string): (k: nat)
    ensures k <= |s| && (k == 0 || s[k - 1] == '.') && DotFree(s[k..])
  {
    if s == [] then 0 else if s[|s| - 1] == '.' then |s|
    else
      var k := BareStart(s[..|s| - 1]);
      assert forall i :: k <= i < |s| - 1 ==> s[i] == s[..|s| - 1][k..][i - k];
      k
  }

  /** `name.rsplit(".", 1)[1]` for a qualified name. */
  function BareName(s: string): string {
    s[BareStart(s)..]
  }

  /** The functions that share a bare name. */
  function Candidates(definitions: Definitions, bare: string): set<string> {
    set f | f in definitions && BareName(f) == bare
  }

  /** Where a call leads: to itself when defined, or to the only function of its bare name. */
  ghost predicate IsTarget(definitions: Definitions, called: string, target: string) {
    if called in definitions then target == called
    else StartsWith(called, "*.") && Candidates(definitions, called[2..]) == {target}
  }

  ghost predicate LeadsTo(definitions: Definitions, f: string, target: string) {
    exists called :: called in CallsOf(definitions, f) && IsTarget(definitions, called, target)
  }

  ghost predicate Closed(definitions: Definitions, s: set<string>) {
    forall f, t :: f in s && LeadsTo(definitions, f, t) ==> t in s
  }

  /** `r` is the least set that holds the entries and everything they lead to. */
  ghost predicate IsLeast(definitions: Definitions, entries: set<string>, r: set<string>) {
    && entries <= r && Closed(definitions, r)
    && forall s :: entries <= s && Closed(definitions, s) ==> r <= s
  }

  ghost function CallsOver(definitions: Definitions, r: set<string>): set<string> {
    set f, c | f in r && c in CallsOf(definitions, f) :: c
  }

  /** There is one such set, so nothing about the result depends on the order of the work. */
  lemma LeastUnique(definitions: Definitions, entries: set<string>, r: set<string>, s: set<string>)
    requires IsLeast(definitions, entries, r) && IsLeast(definitions, entries, s)
    ensures r == s && CallsOver(definitions, r) == CallsOver(definitions, s)
  {
  }

  function Elements(s: seq<string>): set<string> {
    set x | x in s
  }

  // ----- the index by bare name -----

  /** What `definitions_by_bare_name` holds: under each bare name its functions, each once. */
  ghost predicate IsIndex(index: map<string, seq<string>>, names: set<string>) {
    && (forall b, f :: b in index && f in index[b] ==> f in names && BareName(f) == b)
    && (forall f :: f in names ==> BareName(f) in index && f in index[BareName(f)])
    && (forall b :: b in index ==> NoRepeats(index[b]))
  }

  lemma IndexGrows(index: map<string, seq<string>>, names: set<string>, name: string)
    requires IsIndex(index, names) && name !in names
    ensures var bare := BareName(name);
            IsIndex(index[bare := (if bare in index then index[bare] else []) + [name]], names + {name})
  {
  }

  method BuildIndex(order: seq<string>) returns (index: map<string, seq<string>>)
    requires NoRepeats(order)
    ensures IsIndex(index, Elements(order))
  {
    index := map[];
    for i := 0 to |order|
      invariant IsIndex(index, Elements(order[..i]))
    {
      var name := order[i];
      var bare := BareName(name);
      IndexGrows(index, Elements(order[..i]), name);
      assert Elements(order[..i]) + {name} == Elements(order[..i + 1]);
      index := index[bare := (if bare in index then index[bare] else []) + [name]];
    }
    assert order[..|order|] == order;
  }

  /** `_definition_targets`: at most one target, the one `IsTarget` describes. */
  method DefinitionTargets(called: string, definitions: Definitions, index: map<string, seq<string>>)
    returns (targets: seq<string>)
    requires IsIndex(index, definitions.Keys)
    ensures forall t :: t in targets <==> IsTarget(definitions, called, t)
    ensures forall t :: t in targets ==> t in definitions
  {
    if called in definitions {
      return [called];
    }
    if !StartsWith(called, "*.") {
      return [];
    }
    var bare := called[2..];
    var candidates := if bare in index then index[bare] else [];
    assert forall f :: f in Candidates(definitions, bare) <==> f in candidates;
    if |candidates| == 1 {
      assert Candidates(definitions, bare) == {candidates[0]};
      return candidates;
    }
    NotSingle(Candidates(definitions, bare), candidates);
    return [];
  }

  lemma NotSingle(s: set<string>, listed: seq<string>)
    requires (forall f :: f in s <==> f in listed) && NoRepeats(listed) && |listed| != 1
    ensures forall t :: s != {t}
  {
    if |listed| > 1 {
      assert listed[0] in s && listed[1] in s;
    } else {
      assert s == {};
    }
  }

  // ----- the worklist -----

  /** What the loops keep: expanded and waiting functions make up the reached ones, each once. */
  ghost predicate Progress(reached: set<string>, pending: seq<string>, expanded: seq<string>) {
    && NoRepeats(pending) && NoRepeats(expanded)
    && (forall f :: f in reached <==> f in pending || f in expanded)
    && (forall f :: f in pending ==> f !in expanded)
  }

  /** Everything reached must be in every closed set that holds the entries. */
  ghost predicate Needed(definitions: Definitions, entries: set<string>, reached: set<string>) {
    forall s :: entries <= s && Closed(definitions, s) ==> reached <= s
  }

  /** The loop over the targets of one call: those not yet reached are added to both collections. */
  method AddTargets(targets: seq<string>, reached0: set<string>, pending0: seq<string>, ghost expanded: seq<string>)
    returns (reached: set<string>, pending: seq<string>)
    requires Progress(reached0, pending0, expanded)
    ensures Progress(reached, pending, expanded)
    ensures reached == reached0 + Elements(targets)
    ensures reached == reached0 ==> pending == pending0
  {
    reached, pending := reached0, pending0;
    for i := 0 to |targets|
      invariant Progress(reached, pending, expanded)
      invariant reached == reached0 + Elements(targets[..i])
      invariant reached == reached0 ==> pending == pending0
    {
      var target := targets[i];
      assert Elements(targets[..i + 1]) == Elements(targets[..i]) + {target};
      if target !in reached {
        reached := reached + {target};
        pending := pending + [target];
      }
    }
    assert targets[..|targets|] == targets;
  }

  lemma TargetsAreNeeded(definitions: Definitions, entries: set<string>, reached: set<string>, name: string,
                         targets: set<string>)
    requires Needed(definitions, entries, reached) && name in reached
    requires forall t :: t in targets ==> LeadsTo(definitions, name, t)
    ensures Needed(definitions, entries, reached + targets)
  {
  }

  /** The loop over one function's calls. */
  method Expand(calls: set<string>, name: string, definitions: Definitions, index: map<string, seq<string>>,
                ghost entries: set<string>, reached0: set<string>, pending0: seq<string>, ghost expanded: seq<string>)
    returns (reached: set<string>, pending: seq<string>)
    requires IsIndex(index, definitions.Keys)
    requires calls == CallsOf(definitions, name) && name in reached0
    requires Progress(reached0, pending0, expanded) && Needed(definitions, entries, reached0)
    ensures Progress(reached, pending, expanded) && Needed(definitions, entries, reached)
    ensures reached0 <= reached <= reached0 + definitions.Keys
    ensures reached == reached0 ==> pending == pending0
    ensures forall t :: LeadsTo(definitions, name, t) ==> t in reached
  {
    reached, pending := reached0, pending0;
    var todo := calls;
    while todo != {}
      invariant todo <= calls
      invariant Progress(reached, pending, expanded) && Needed(definitions, entries, reached)
      invariant reached0 <= reached <= reached0 + definitions.Keys
      invariant reached == reached0 ==> pending == pending0
      invariant forall c, t :: c in calls && c !in todo && IsTarget(definitions, c, t) ==> t in reached
      decreases todo
    {
      var called :| called in todo;
      todo := todo - {called};
      var targets := DefinitionTargets(called, definitions, index);
      assert forall t :: t in Elements(targets) ==> LeadsTo(definitions, name, t);
      TargetsAreNeeded(definitions, entries, reached, name, Elements(targets));
      reached, pending := AddTargets(targets, reached, pending, expanded);
    }
  }

  /**
   `_reachable_production_call_names` after parsing: the worklist over the call graph. The result is
   the union of the calls of the least closed set of functions; each of them is expanded exactly once.
   `order` and `entryOrder` are the arbitrary orders in which the dictionary and the set are walked.
   */
  method ReachableCalls(definitions: Definitions, order: seq<string>, entryOrder: seq<string>)
    returns (calls: set<string>, ghost expanded: seq<string>)
    requires NoRepeats(order) && Elements(order) == definitions.Keys
    requires NoRepeats(entryOrder)
    ensures NoRepeats(expanded)
    ensures IsLeast(definitions, Elements(entryOrder), Elements(expanded))
    ensures calls == CallsOver(definitions, Elements(expanded))
    ensures exists r :: IsLeast(definitions, Elements(entryOrder), r) && calls == CallsOver(definitions, r)
  {
    ghost var entries := Elements(entryOrder);
    var reached, pending := Elements(entryOrder), entryOrder;
    var index := BuildIndex(order);
    calls, expanded := {}, [];
    while pending != []
      invariant Progress(reached, pending, expanded) && Needed(definitions, entries, reached)
      invariant entries <= reached <= entries + definitions.Keys
      invariant forall f, t :: f in expanded && LeadsTo(definitions, f, t) ==> t in reached
      invariant calls == CallsOver(definitions, Elements(expanded))
      decreases entries + definitions.Keys - reached, |pending|
    {
      var name := pending[|pending| - 1];
      ghost var before := Elements(expanded);
      PopKeepsProgress(reached, pending, expanded);
      pending := pending[..|pending| - 1];
      expanded := expanded + [name];
      var called := CallsOf(definitions, name);
      CallsOverGrows(definitions, before, name);
      assert Elements(expanded) == before + {name};
      calls := calls + called;
      reached, pending := Expand(called, name, definitions, index, entries, reached, pending, expanded);
    }
    assert Elements(expanded) == reached;
  }

  lemma PopKeepsProgress(reached: set<string>, pending: seq<string>, expanded: seq<string>)
    requires Progress(reached, pending, expanded) && pending != []
    ensures Progress(reached, pending[..|pending| - 1], expanded + [pending[|pending| - 1]])
    ensures pending[|pending| - 1] in reached
  {
    var name, rest := pending[|pending| - 1], pending[..|pending| - 1];
    assert pending == rest + [name];
    assert forall f :: f in pending <==> f in rest || f == name;
    assert name !in rest;
  }

  lemma CallsOverGrows(definitions: Definitions, r: set<string>, name: string)
    ensures CallsOver(definitions, r + {name}) == CallsOver(definitions, r) + CallsOf(definitions, name)
  {
  }

  // ----- what the least set is -----

  /** A chain of calls from an entry point. */
  ghost predicate IsPath(definitions: Definitions, entries: set<string>, path: seq<string>) {
    && path != [] && path[0] in entries
    && forall i :: 0 <= i < |path| - 1 ==> LeadsTo(definitions, path[i], path[i + 1])
  }

  lemma {:induction false} PathStaysInside(definitions: Definitions, entries: set<string>, r: set<string>,
                                           path: seq<string>, i: nat)
    requires entries <= r && Closed(definitions, r) && IsPath(definitions, entries, path) && i < |path|
    ensures path[i] in r
  {
    if i > 0 {
      PathStaysInside(definitions, entries, r, path, i - 1);
      assert LeadsTo(definitions, path[i - 1], path[i - 1 + 1]);
    }
  }

  /** The functions of the least set that lie on some path from an entry. */
  ghost predicate Connected(definitions: Definitions, entries: set<string>, f: string) {
    exists path :: IsPath(definitions, entries, path) && path[|path| - 1] == f
  }

  /** The least set is what the call graph reaches: the ends of the paths from the entries. */
  lemma LeastIsConnected(definitions: Definitions, entries: set<string>, r: set<string>, f: string)
    requires IsLeast(definitions, entries, r)
    ensures f in r <==> Connected(definitions, entries, f)
  {
    var s := set g | g in r && Connected(definitions, entries, g);
    forall e | e in entries ensures e in s {
      assert IsPath(definitions, entries, [e]) && [e][|[e]| - 1] == e;
    }
    forall g, t | g in s && LeadsTo(definitions, g, t) ensures t in s {
      var path :| IsPath(definitions, entries, path) && path[|path| - 1] == g;
      PathExtends(definitions, entries, path, t);
    }
    assert Closed(definitions, s);
    if path :| IsPath(definitions, entries, path) && path[|path| - 1] == f {
      PathStaysInside(definitions, entries, r, path, |path| - 1);
    }
  }

  lemma PathExtends(definitions: Definitions, entries: set<string>, path: seq<string>, t: string)
    requires IsPath(definitions, entries, path) && LeadsTo(definitions, path[|path| - 1], t)
    ensures Connected(definitions, entries, t)
  {
    var longer := path + [t];
    assert IsPath(definitions, entries, longer) && longer[|longer| - 1] == t;
  }
}
