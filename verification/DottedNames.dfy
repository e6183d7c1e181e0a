/** How the release check resolves the name of a called function (scripts/check_release_readiness.py). */
module DottedNames {
  import opened Prelude
  import opened Strings

  predicate DotFree(s: string) {
    forall i :: 0 <= i < |s| ==> s[i] != '.'
  }

  predicate AllDotFree(parts: seq<string>) {
    forall i :: 0 <= i < |parts| ==> DotFree(parts[i])
  }

  /** `".".join(parts)`. */
  function Join(parts: seq<string>): string {
    if parts == [] then "" else if |parts| == 1 then parts[0] else parts[0] + "." + Join(parts[1..])
  }

  /** The index of the first dot. */
  function FirstDot(s: string): (k: nat)
    ensures k <= |s| && (k == |s| || s[k] == '.')
    ensures forall i :: 0 <= i < k ==> s[i] != '.'
  {
    if s == [] || s[0] == '.' then 0 else 1 + FirstDot(s[1..])
  }

  /** `s.split(".")`. */
  function Split(s: string): (parts: seq<string>)
    ensures parts != []
    decreases |s|
  {
    var k := FirstDot(s);
    if k == |s| then [s] else [s[..k]] + Split(s[k + 1..])
  }

  lemma {:induction false} SplitJoin(parts: seq<string>)
    requires parts != [] && AllDotFree(parts)
    ensures Split(Join(parts)) == parts
  {
    var s := Join(parts);
    if |parts| > 1 {
      var head := parts[0];
      assert s == head + "." + Join(parts[1..]);
      assert s[|head|] == '.' && forall i :: 0 <= i < |head| ==> s[i] == head[i] && head[i] != '.';
      assert FirstDot(s) == |head|;
      assert s[|head| + 1..] == Join(parts[1..]) && s[..|head|] == head;
      SplitJoin(parts[1..]);
      assert parts == [head] + parts[1..];
    } else {
      assert DotFree(parts[0]) && s == parts[0];
      assert FirstDot(s) == |s|;
      assert parts == [s];
    }
  }

  /** A name of two or more parts contains a dot. */
  lemma JoinHasDot(parts: seq<string>)
    requires |parts| > 1
    ensures !DotFree(Join(parts))
  {
    assert Join(parts)[|parts[0]|] == '.';
  }

  // ----- call targets in the syntax tree -----

  /** The callee expressions `_dotted_name` tells apart; identifiers hold no dot. */
  datatype Expr = Name(id: string) | Attribute(value: Expr, attr: string) | OtherExpr

  predicate IsPython(e: Expr) {
    match e
    case Name(id) => DotFree(id)
    case Attribute(v, attr) => DotFree(attr) && IsPython(v)
    case OtherExpr => true
  }

  function DottedName(e: Expr): Option<string> {
    match e
    case Name(id) => Some(id)
    case Attribute(v, attr) =>
      var parent := DottedName(v);
      if parent.None? then None else Some(parent.value + "." + attr)
    case OtherExpr => None
  }

  /** The identifiers of a dotted name. */
  function Parts(e: Expr): Option<seq<string>> {
    match e
    case Name(id) => Some([id])
    case Attribute(v, attr) =>
      var parent := Parts(v);
      if parent.None? then None else Some(parent.value + [attr])
    case OtherExpr => None
  }

  lemma {:induction false} JoinSnoc(parts: seq<string>, last: string)
    requires parts != []
    ensures Join(parts + [last]) == Join(parts) + "." + last
  {
    assert (parts + [last])[1..] == parts[1..] + [last];
    if |parts| > 1 { JoinSnoc(parts[1..], last); }
  }

  /** The dotted name of an expression splits back into the identifiers it was written with. */
  lemma {:induction false} DottedNameParts(e: Expr)
    requires IsPython(e)
    ensures DottedName(e).Some? <==> Parts(e).Some?
    ensures Parts(e).Some? ==>
              && var p := Parts(e).value;
                 p != [] && AllDotFree(p) && (e.Attribute? ==> |p| > 1)
                 && DottedName(e) == Some(Join(p)) && Split(Join(p)) == p
  {
    if e.Attribute? {
      DottedNameParts(e.value);
      if Parts(e.value).Some? {
        JoinSnoc(Parts(e.value).value, e.attr);
        SplitJoin(Parts(e).value);
      }
    } else if e.Name? {
      SplitJoin([e.id]);
    }
  }

  /** What an attribute call means when import aliases hold no dot: only the first identifier can be one. */
  function Resolved(parts: Option<seq<string>>, attr: string, imports: map<string, string>): string
    requires parts.Some? ==> parts.value != []
  {
    if parts.None? then "*." + attr
    else if parts.value[0] in imports then imports[parts.value[0]] + "." + Join(parts.value[1..])
    else if StartsWith(Join(parts.value), "craik.") then Join(parts.value)
    else "*." + attr
  }

  /**
   `_resolve_attribute_call`. The loop tries every prefix, longest first; with aliases that hold no
   dot it comes down to the first identifier, and the lookup after the loop never succeeds.
   */
  method ResolveAttributeCall(callee: Expr, imports: map<string, string>) returns (r: string)
    requires callee.Attribute? && IsPython(callee)
    requires forall k :: k in imports ==> DotFree(k)
    ensures Parts(callee).Some? ==> Parts(callee).value != []
    ensures r == Resolved(Parts(callee), callee.attr, imports)
  {
    DottedNameParts(callee);
    var dotted := DottedName(callee);
    if dotted.None? {
      return "*." + callee.attr;
    }
    var parts := Split(dotted.value);
    var index := |parts| - 1;
    while index > 0
      invariant 0 <= index < |parts|
      invariant index == 0 ==> parts[0] !in imports
      decreases index
    {
      var prefix, suffix := Join(parts[..index]), Join(parts[index..]);
      if index > 1 { JoinHasDot(parts[..index]); }
      if prefix in imports {
        assert index == 1 && prefix == parts[0];
        return imports[prefix] + "." + suffix;
      }
      index := index - 1;
    }
    if parts[0] in imports {
      assert false;
    }
    if StartsWith(dotted.value, "craik.") {
      return dotted.value;
    }
    return "*." + callee.attr;
  }

  // ----- import aliases -----

  datatype Alias = Alias(name: string, asname: Option<string>)
  datatype ImportNode = Import(aliases: seq<Alias>) | ImportFrom(from: Option<string>, level: nat, names: seq<Alias>)

  /** `asname` and the names of a from-import are identifiers; an imported module may be dotted. */
  predicate IsPythonImport(n: ImportNode) {
    match n
    case Import(aliases) => forall a :: a in aliases ==> a.asname.Some? ==> DotFree(a.asname.value)
    case ImportFrom(_, _, names) =>
      forall a :: a in names ==> DotFree(a.name) && (a.asname.Some? ==> DotFree(a.asname.value))
  }

  function Bound(n: ImportNode, a: Alias): Option<(string, string)> {
    match n
    case Import(_) =>
      var first := a.name[..FirstDot(a.name)];
      Some(if a.asname.Some? && a.asname.value != "" then (a.asname.value, a.name) else (first, first))
    case ImportFrom(from, level, _) =>
      if from.None? || from.value == "" || level != 0 || a.name == "*" then None
      else Some((if a.asname.Some? && a.asname.value != "" then a.asname.value else a.name, from.value + "." + a.name))
  }

  function AliasesOf(n: ImportNode): seq<Alias> {
    if n.Import? then n.aliases else n.names
  }

  /** The bindings an import node makes, in order. */
  function BindingsOf(n: ImportNode, count: nat): seq<(string, string)>
    requires count <= |AliasesOf(n)|
  {
    if count == 0 then []
    else
      var b := Bound(n, AliasesOf(n)[count - 1]);
      BindingsOf(n, count - 1) + (if b.Some? then [b.value] else [])
  }

  function Bindings(nodes: seq<ImportNode>): seq<(string, string)> {
    if nodes == [] then []
    else var last := nodes[|nodes| - 1]; Bindings(nodes[..|nodes| - 1]) + BindingsOf(last, |AliasesOf(last)|)
  }

  ghost predicate IsLast(bindings: seq<(string, string)>, i: nat, k: string, v: string) {
    && i < |bindings| && bindings[i] == (k, v)
    && forall j :: i < j < |bindings| ==> bindings[j].0 != k
  }

  /** Every bound name has the value of its last binding, and no other name is bound. */
  ghost predicate LastWins(aliases: map<string, string>, bindings: seq<(string, string)>) {
    && (forall i :: 0 <= i < |bindings| ==> bindings[i].0 in aliases)
    && (forall k :: k in aliases ==> exists i :: IsLast(bindings, i, k, aliases[k]))
  }

  lemma BindingAppended(aliases: map<string, string>, bindings: seq<(string, string)>, b: (string, string))
    requires LastWins(aliases, bindings)
    ensures LastWins(aliases[b.0 := b.1], bindings + [b])
  {
    var updated := aliases[b.0 := b.1];
    forall k | k in updated ensures exists i :: IsLast(bindings + [b], i, k, updated[k]) {
      if k == b.0 {
        assert IsLast(bindings + [b], |bindings|, k, updated[k]);
      } else {
        var i :| IsLast(bindings, i, k, aliases[k]);
        assert IsLast(bindings + [b], i, k, updated[k]);
      }
    }
  }

  /** The aliases of one import node. */
  method BindNode(aliases0: map<string, string>, node: ImportNode, ghost before: seq<(string, string)>)
    returns (aliases: map<string, string>)
    requires IsPythonImport(node) && LastWins(aliases0, before)
    requires forall k :: k in aliases0 ==> DotFree(k)
    ensures LastWins(aliases, before + BindingsOf(node, |AliasesOf(node)|))
    ensures forall k :: k in aliases ==> DotFree(k)
  {
    aliases := aliases0;
    assert before + BindingsOf(node, 0) == before;
    for j := 0 to |AliasesOf(node)|
      invariant LastWins(aliases, before + BindingsOf(node, j))
      invariant forall k :: k in aliases ==> DotFree(k)
    {
      var alias := AliasesOf(node)[j];
      var bound := Bound(node, alias);
      ghost var sofar := before + BindingsOf(node, j);
      if bound.Some? {
        assert alias in AliasesOf(node);
        BindingAppended(aliases, sofar, bound.value);
        aliases := aliases[bound.value.0 := bound.value.1];
        assert before + BindingsOf(node, j + 1) == sofar + [bound.value];
      } else {
        assert before + BindingsOf(node, j + 1) == sofar;
      }
    }
  }

  /** `_import_aliases` over the import nodes in walking order. */
  method ImportAliases(nodes: seq<ImportNode>) returns (aliases: map<string, string>)
    requires forall n :: n in nodes ==> IsPythonImport(n)
    ensures LastWins(aliases, Bindings(nodes))
    ensures forall k :: k in aliases ==> DotFree(k)
  {
    aliases := map[];
    for i := 0 to |nodes|
      invariant LastWins(aliases, Bindings(nodes[..i]))
      invariant forall k :: k in aliases ==> DotFree(k)
    {
      aliases := BindNode(aliases, nodes[i], Bindings(nodes[..i]));
      assert nodes[..i + 1][..i] == nodes[..i];
    }
    assert nodes[..|nodes|] == nodes;
  }

  // ----- what an import makes of a call -----

  lemma FirstPart(parts: seq<string>)
    requires parts != [] && AllDotFree(parts)
    ensures FirstDot(Join(parts)) == |parts[0]| && Join(parts)[..|parts[0]|] == parts[0]
  {
    SplitJoin(parts);
    assert Split(Join(parts))[0] == parts[0];
  }

  /** The import has bound this name, and no later one has bound it again. */
  predicate Binds(imports: map<string, string>, name: string, target: string) {
    name in imports && imports[name] == target
  }

  /** `import a.b` binds `a`, so that a call of `a.b.f` is the one it reads as. */
  lemma PlainImport(n: ImportNode, parts: seq<string>, attr: string, imports: map<string, string>)
    requires n.Import? && parts != [] && AllDotFree(parts)
    ensures Bound(n, Alias(Join(parts), None)) == Some((parts[0], parts[0]))
    ensures Binds(imports, parts[0], parts[0]) ==>
              Resolved(Some(parts + [attr]), attr, imports) == Join(parts + [attr])
  {
    FirstPart(parts);
  }

  /** `import a.b as c` binds `c`: a call of `c.f` is one of `a.b.f`. */
  lemma RenamedImport(n: ImportNode, m: string, asname: string, rest: seq<string>, attr: string,
                      imports: map<string, string>)
    requires n.Import? && asname != ""
    ensures Bound(n, Alias(m, Some(asname))) == Some((asname, m))
    ensures Binds(imports, asname, m) ==> Resolved(Some([asname] + rest), attr, imports) == m + "." + Join(rest)
  {
  }

  /** `from m import x` and `from m import x as y`: a call of `x.f`, or of `y.f`, is one of `m.x.f`. */
  lemma FromImport(m: string, x: string, asname: Option<string>, rest: seq<string>, attr: string,
                   names: seq<Alias>, imports: map<string, string>)
    requires m != "" && x != "*" && asname != Some("")
    ensures Bound(ImportFrom(Some(m), 0, names), Alias(x, asname)) == Some((asname.GetOr(x), m + "." + x))
    ensures Binds(imports, asname.GetOr(x), m + "." + x) ==>
              Resolved(Some([asname.GetOr(x)] + rest), attr, imports) == m + "." + x + "." + Join(rest)
  {
  }

  /** Relative imports, and those of everything, bind no name. */
  lemma NothingBound(from: Option<string>, level: nat, names: seq<Alias>, a: Alias)
    requires level > 0 || a.name == "*" || from == None || from == Some("")
    ensures Bound(ImportFrom(from, level, names), a) == None
  {
  }

  /** A call through a name that no import bound: any function of that name, unless it is written out. */
  lemma NotImported(parts: seq<string>, attr: string, imports: map<string, string>)
    requires parts != [] && parts[0] !in imports
    ensures AllDotFree(parts) && parts[0] != "craik" ==> Resolved(Some(parts + [attr]), attr, imports) == "*." + attr
    ensures parts[0] == "craik" ==> Resolved(Some(parts + [attr]), attr, imports) == Join(parts + [attr])
    ensures Resolved(None, attr, imports) == "*." + attr
  {
    assert (parts + [attr])[0] == parts[0];
    if DotFree(parts[0]) { CraikBegins(parts[0], Join((parts + [attr])[1..])); }
  }

  lemma CraikBegins(first: string, rest: string)
    requires DotFree(first)
    ensures StartsWith(first + "." + rest, "craik.") <==> first == "craik"
  {
    var all := first + "." + rest;
    assert all[|first|] == '.' && forall i :: 0 <= i < |first| ==> all[i] == first[i];
    if StartsWith(all, "craik.") {
      assert all[5] == '.' && forall i :: 0 <= i < 5 ==> all[i] == "craik"[i] != '.';
      assert |first| == 5;
    }
  }
}
