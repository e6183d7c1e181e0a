/** The verdict of the release check: which store writers no production code calls. */
module ReleaseCheck {
  import opened Prelude
  import opened DottedNames
  import opened Reachability

  /** A store writer: its qualified name, the key of the source's dictionary, and its bare name. */
  datatype Writer = Writer(qualname: string, name: string)

  /** The tables the check makes exceptions from: callables that a registry dispatches, writers by file. */
  datatype Exceptions = Exceptions(registry: seq<string>, exempt: map<string, set<string>>)

  datatype Failure = NoCaller(path: string, qualname: string) | NotAFunction(qualname: string)

  ghost predicate DistinctWriters(writers: seq<Writer>) {
    forall i, j :: 0 <= i < j < |writers| ==> writers[i].qualname != writers[j].qualname
  }

  // ----- how many writers share a name -----

  function Sharing(writers: seq<Writer>, name: string): nat {
    if writers == [] then 0
    else Sharing(writers[..|writers| - 1], name) + (if writers[|writers| - 1].name == name then 1 else 0)
  }

  /** No other writer has the bare name. */
  ghost predicate Unshared(writers: seq<Writer>, w: Writer) {
    forall v :: v in writers && v.name == w.name ==> v == w
  }

  lemma {:induction false} NoneShares(writers: seq<Writer>, name: string)
    ensures Sharing(writers, name) == 0 <==> forall v :: v in writers ==> v.name != name
  {
    if writers != [] {
      var before, last := writers[..|writers| - 1], writers[|writers| - 1];
      NoneShares(before, name);
      assert writers == before + [last];
    }
  }

  /** A count of one is a name of one's own. */
  lemma {:induction false} SharingIsOne(writers: seq<Writer>, w: Writer)
    requires w in writers && DistinctWriters(writers)
    ensures Sharing(writers, w.name) == 1 <==> Unshared(writers, w)
  {
    var before, last := writers[..|writers| - 1], writers[|writers| - 1];
    assert writers == before + [last];
    if w == last {
      NoneShares(before, w.name);
    } else {
      assert w in before;
      SharingIsOne(before, w);
      NoneShares(before, w.name);
    }
  }

  /** The loop that fills `writer_name_counts`. */
  method CountNames(writers: seq<Writer>) returns (counts: map<string, nat>)
    ensures forall w :: w in writers ==> w.name in counts
    ensures forall name :: name in counts ==> counts[name] == Sharing(writers, name)
  {
    counts := map[];
    for i := 0 to |writers|
      invariant forall w :: w in writers[..i] ==> w.name in counts
      invariant forall name :: Sharing(writers[..i], name) == if name in counts then counts[name] else 0
    {
      var name := writers[i].name;
      assert writers[..i + 1] == writers[..i] + [writers[i]] && writers[..i + 1][..i] == writers[..i];
      counts := counts[name := (if name in counts then counts[name] else 0) + 1];
    }
    assert writers[..|writers|] == writers;
  }

  // ----- the two loops -----

  function Slashed(s: string): string {
    seq(|s|, i requires 0 <= i < |s| => if s[i] == '.' then '/' else s[i])
  }

  /** The file of a qualified name's module, relative to the repository. */
  function ModulePath(qualname: string): string {
    var k := BareStart(qualname);
    "src/" + Slashed(if k == 0 then qualname else qualname[..k - 1]) + ".py"
  }

  predicate IsExempt(w: Writer, x: Exceptions) {
    || w.qualname in x.registry
    || (ModulePath(w.qualname) in x.exempt && w.name in x.exempt[ModulePath(w.qualname)])
  }

  /** The calls name the writer: by its full name, or by a bare name that is its own. */
  ghost predicate Names(calls: set<string>, writers: seq<Writer>, w: Writer) {
    w.qualname in calls || ("*." + w.name in calls && Unshared(writers, w))
  }

  ghost predicate FailsFor(f: Failure, writers: seq<Writer>, calls: set<string>, x: Exceptions) {
    exists w :: w in writers && !Names(calls, writers, w) && !IsExempt(w, x)
                && f == NoCaller(ModulePath(w.qualname), w.qualname)
  }

  /** The loop over the writers in `_extension_writer_call_failures`. */
  method WriterFailures(writers: seq<Writer>, calls: set<string>, x: Exceptions) returns (failures: seq<Failure>)
    requires DistinctWriters(writers)
    ensures forall f :: f in failures <==> FailsFor(f, writers, calls, x)
    ensures NoRepeats(failures)
  {
    var counts := CountNames(writers);
    failures := [];
    ghost var done: set<Writer> := {};
    for i := 0 to |writers|
      invariant forall w :: w in done <==> w in writers[..i]
      invariant forall f :: f in failures <==>
                  exists w :: w in done && !Names(calls, writers, w) && !IsExempt(w, x)
                              && f == NoCaller(ModulePath(w.qualname), w.qualname)
      invariant NoRepeats(failures)
    {
      var w := writers[i];
      assert forall v :: v in done ==> v.qualname != w.qualname;
      assert writers[..i + 1] == writers[..i] + [w];
      done := done + {w};
      SharingIsOne(writers, w);
      var path := ModulePath(w.qualname);
      if w.qualname in x.registry { continue; }
      if w.qualname in calls { continue; }
      if counts[w.name] == 1 && "*." + w.name in calls { continue; }
      if path in x.exempt && w.name in x.exempt[path] { continue; }
      NoRepeatsGrows(failures, NoCaller(path, w.qualname));
      failures := failures + [NoCaller(path, w.qualname)];
    }
    assert writers[..|writers|] == writers;
  }

  /** `_registry_dispatched_callable_failures`. */
  method RegistryFailures(registry: seq<string>, functions: set<string>) returns (failures: seq<Failure>)
    ensures forall f :: f in failures <==> f.NotAFunction? && f.qualname in registry && f.qualname !in functions
    ensures NoRepeats(registry) ==> NoRepeats(failures)
  {
    failures := [];
    for i := 0 to |registry|
      invariant forall f :: f in failures <==>
                  f.NotAFunction? && f.qualname in registry[..i] && f.qualname !in functions
      invariant NoRepeats(registry) ==> NoRepeats(failures)
    {
      assert registry[..i + 1] == registry[..i] + [registry[i]];
      if registry[i] !in functions {
        if NoRepeats(registry) { NoRepeatsGrows(failures, NotAFunction(registry[i])); }
        failures := failures + [NotAFunction(registry[i])];
      }
    }
    assert registry[..|registry|] == registry;
  }

  // ----- the verdict -----

  /** A chain of calls leads from an entry point to a function that calls the writer. */
  ghost predicate HasCaller(definitions: Definitions, entries: set<string>, writers: seq<Writer>, w: Writer) {
    exists f :: Connected(definitions, entries, f) && Names(CallsOf(definitions, f), writers, w)
  }

  lemma CalledFromSomewhere(definitions: Definitions, entries: set<string>, r: set<string>,
                            writers: seq<Writer>, w: Writer)
    requires IsLeast(definitions, entries, r)
    ensures Names(CallsOver(definitions, r), writers, w) <==> HasCaller(definitions, entries, writers, w)
  {
    forall f ensures f in r <==> Connected(definitions, entries, f) {
      LeastIsConnected(definitions, entries, r, f);
    }
    if Names(CallsOver(definitions, r), writers, w) {
      var called := if w.qualname in CallsOver(definitions, r) then w.qualname else "*." + w.name;
      var f :| f in r && called in CallsOf(definitions, f);
      assert Names(CallsOf(definitions, f), writers, w);
    }
  }

  /** What is reported: writers without a caller and an exemption, and registry entries that name no function. */
  ghost predicate Reported(f: Failure, definitions: Definitions, entries: set<string>, writers: seq<Writer>,
                           functions: set<string>, x: Exceptions) {
    match f
    case NotAFunction(q) => q in x.registry && q !in functions
    case NoCaller(path, q) =>
      path == ModulePath(q)
      && exists w :: w in writers && w.qualname == q && !HasCaller(definitions, entries, writers, w) && !IsExempt(w, x)
  }

  /**
   `_extension_writer_call_failures` after parsing, end to end: a writer is reported if and only if no
   chain of calls from an entry point ends at a function that calls it, and it is not exempt.
   */
  method ReleaseFailures(definitions: Definitions, order: seq<string>, entryOrder: seq<string>,
                         writers: seq<Writer>, functions: set<string>, x: Exceptions) returns (failures: seq<Failure>)
    requires NoRepeats(order) && Elements(order) == definitions.Keys
    requires NoRepeats(entryOrder) && DistinctWriters(writers)
    ensures forall f :: f in failures <==> Reported(f, definitions, Elements(entryOrder), writers, functions, x)
    ensures NoRepeats(x.registry) ==> NoRepeats(failures)
  {
    var calls, expanded := ReachableCalls(definitions, order, entryOrder);
    failures := WriterFailures(writers, calls, x);
    var others := RegistryFailures(x.registry, functions);
    forall w ensures Names(calls, writers, w) <==> HasCaller(definitions, Elements(entryOrder), writers, w) {
      CalledFromSomewhere(definitions, Elements(entryOrder), Elements(expanded), writers, w);
    }
    if NoRepeats(x.registry) { NoRepeatsJoined(failures, others); }
    failures := failures + others;
  }

  lemma NoRepeatsJoined(a: seq<Failure>, b: seq<Failure>)
    requires NoRepeats(a) && NoRepeats(b) && forall f :: f in a ==> f !in b
    ensures NoRepeats(a + b)
  {
    forall i, j | 0 <= i < j < |a + b| ensures (a + b)[i] != (a + b)[j] {
      if i < |a| <= j { assert a[i] in a && b[j - |a|] in b; }
    }
  }

  /** More entry points never make the check fail on another writer. */
  lemma MoreEntriesFewerFailures(definitions: Definitions, e1: set<string>, e2: set<string>, writers: seq<Writer>,
                                 functions: set<string>, x: Exceptions, f: Failure)
    requires e1 <= e2 && Reported(f, definitions, e2, writers, functions, x)
    ensures Reported(f, definitions, e1, writers, functions, x)
  {
    forall g | Connected(definitions, e1, g) ensures Connected(definitions, e2, g) {
      var path :| IsPath(definitions, e1, path) && path[|path| - 1] == g;
      assert IsPath(definitions, e2, path);
    }
  }

  // ----- the writers' files -----

  /** The parts of a path. */
  function Steps(parts: seq<string>): string {
    if parts == [] then "" else if |parts| == 1 then parts[0] else parts[0] + "/" + Steps(parts[1..])
  }

  lemma SlashedConcat(a: string, b: string)
    ensures Slashed(a + b) == Slashed(a) + Slashed(b)
  {
  }

  lemma SlashedDotFree(s: string)
    requires DotFree(s)
    ensures Slashed(s) == s
  {
  }

  lemma {:induction false} SlashedJoin(parts: seq<string>)
    requires AllDotFree(parts)
    ensures Slashed(Join(parts)) == Steps(parts)
  {
    if parts != [] { SlashedDotFree(parts[0]); }
    if |parts| > 1 {
      SlashedJoin(parts[1..]);
      SlashedConcat(parts[0] + ".", Join(parts[1..]));
      SlashedConcat(parts[0], ".");
      assert Slashed(".") == "/";
    }
  }

  lemma {:induction false} LastDot(s: string, name: string)
    requires DotFree(name)
    ensures BareStart(s + "." + name) == |s| + 1
    decreases |name|
  {
    var all := s + "." + name;
    if name != "" {
      LastDot(s, name[..|name| - 1]);
      assert all[..|all| - 1] == s + "." + name[..|name| - 1];
    }
  }

  /**
   The name of a function in a module without further dots: its bare name is the function's, and its file is
   the one of the module, which the exemptions are listed by.
   */
  lemma FileOfModule(parts: seq<string>, name: string)
    requires parts != [] && AllDotFree(parts) && DotFree(name)
    ensures BareName(Join(parts + [name])) == name
    ensures ModulePath(Join(parts + [name])) == "src/" + Steps(parts) + ".py"
  {
    var home, all := Join(parts), Join(parts + [name]);
    JoinSnoc(parts, name);
    LastDot(home, name);
    SlashedJoin(parts);
    assert all[|home| + 1..] == name && all[..|home|] == home;
  }
}
