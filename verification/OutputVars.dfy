// collectOutputVars and argDerivesFromOutput of the locale-match linter: which names hold captured command output,
// as the least set closed under the file's assignments, and which matcher arguments derive from it.
module OutputVars {
  import opened Wrappers

  datatype Expr = Ident(name: string) | Call(fun: Expr, args: seq<Expr>) | Selector(x: Expr, sel: string)
                | Paren(inner: Expr) | Other

  datatype Assign = Assign(lhs: seq<Expr>, rhs: seq<Expr>)

  // Methods that capture output, and names taken for output without a trace.
  datatype Vocabulary = Vocabulary(captures: string -> bool, outputish: string -> bool)

  predicate CaptureMethod(name: string) {
    name in {"Output", "CombinedOutput"}
  }

  predicate OutputishName(name: string) {
    name in {"out", "output", "stdout", "stderr", "combined", "outBytes", "stdoutBytes"}
  }

  function Program(): Vocabulary {
    Vocabulary(name => CaptureMethod(name), name => OutputishName(name))
  }

  predicate IsCapture(voc: Vocabulary, e: Expr) {
    e.Call? && e.fun.Selector? && voc.captures(e.fun.sel)
  }

  predicate PassesKnown(e: Expr, known: set<string>) {
    e.Call? && exists k :: 0 <= k < |e.args| && e.args[k].Ident? && e.args[k].name in known
  }

  // A call to a capture method, or any call with a known name as direct argument.
  predicate IsOutput(voc: Vocabulary, e: Expr, known: set<string>) {
    IsCapture(voc, e) || PassesKnown(e, known)
  }

  // The name the i-th right-hand side is assigned to, if it is one: with a single left-hand side always that one.
  function Target(a: Assign, i: nat): Option<string> {
    var j := if |a.lhs| == 1 then 0 else i;
    if j < |a.lhs| && a.lhs[j].Ident? && a.lhs[j].name != "_" then Some(a.lhs[j].name) else None
  }

  predicate ClosedAt(voc: Vocabulary, a: Assign, i: nat, vars: set<string>)
    requires i < |a.rhs|
  {
    IsOutput(voc, a.rhs[i], vars) && Target(a, i).Some? ==> Target(a, i).value in vars
  }

  ghost predicate ClosedUnder(voc: Vocabulary, a: Assign, vars: set<string>) {
    forall i: nat :: i < |a.rhs| ==> ClosedAt(voc, a, i, vars)
  }

  ghost predicate Closed(voc: Vocabulary, file: seq<Assign>, vars: set<string>) {
    forall a :: a in file ==> ClosedUnder(voc, a, vars)
  }

  // ---------------------------------------------------------------------------------------------
  // Chains of assignments.

  // x is assigned a capture call somewhere in the file.
  ghost predicate Seed(voc: Vocabulary, file: seq<Assign>, x: string) {
    exists a, i: nat :: a in file && i < |a.rhs| && IsCapture(voc, a.rhs[i]) && Target(a, i) == Some(x)
  }

  // x is assigned a call that y is passed to.
  ghost predicate Flows(file: seq<Assign>, y: string, x: string) {
    exists a, i: nat :: a in file && i < |a.rhs| && PassesKnown(a.rhs[i], {y}) && Target(a, i) == Some(x)
  }

  ghost predicate Chain(voc: Vocabulary, file: seq<Assign>, c: seq<string>) {
    && c != [] && Seed(voc, file, c[0])
    && forall k :: 0 < k < |c| ==> Flows(file, c[k - 1], c[k])
  }

  ghost predicate Derives(voc: Vocabulary, file: seq<Assign>, x: string) {
    exists c :: Chain(voc, file, c) && c[|c| - 1] == x
  }

  // Whatever is closed under the assignments holds every name a chain leads to.
  lemma {:induction false} ChainStaysInside(voc: Vocabulary, file: seq<Assign>, c: seq<string>, vars: set<string>)
    requires Chain(voc, file, c) && Closed(voc, file, vars)
    ensures c[|c| - 1] in vars
  {
    var n := |c| - 1;
    if n == 0 {
      var a, i: nat :| a in file && i < |a.rhs| && IsCapture(voc, a.rhs[i]) && Target(a, i) == Some(c[0]);
      assert ClosedUnder(voc, a, vars) && ClosedAt(voc, a, i, vars);
    } else {
      ChainStaysInside(voc, file, c[..n], vars);
      var a, i: nat :| a in file && i < |a.rhs| && PassesKnown(a.rhs[i], {c[n - 1]}) && Target(a, i) == Some(c[n]);
      assert ClosedUnder(voc, a, vars) && ClosedAt(voc, a, i, vars);
    }
  }

  // One more assignment from names that chains lead to.
  lemma ChainGrows(voc: Vocabulary, file: seq<Assign>, vars: set<string>, a: Assign, i: nat)
    requires (forall x :: x in vars ==> Derives(voc, file, x)) && a in file && i < |a.rhs|
    requires IsOutput(voc, a.rhs[i], vars) && Target(a, i).Some?
    ensures Derives(voc, file, Target(a, i).value)
  {
    var x := Target(a, i).value;
    if IsCapture(voc, a.rhs[i]) {
      assert Seed(voc, file, x);
      assert Chain(voc, file, [x]) && [x][0] == x;
    } else {
      PassedOn(voc, file, vars, a, i, x);
    }
  }

  lemma PassedOn(voc: Vocabulary, file: seq<Assign>, vars: set<string>, a: Assign, i: nat, x: string)
    requires (forall y :: y in vars ==> Derives(voc, file, y)) && a in file && i < |a.rhs|
    requires PassesKnown(a.rhs[i], vars) && Target(a, i) == Some(x)
    ensures Derives(voc, file, x)
  {
    var k :| 0 <= k < |a.rhs[i].args| && a.rhs[i].args[k].Ident? && a.rhs[i].args[k].name in vars;
    var y := a.rhs[i].args[k].name;
    assert PassesKnown(a.rhs[i], {y}) && Flows(file, y, x);
    var c :| Chain(voc, file, c) && c[|c| - 1] == y;
    ChainSnoc(voc, file, c, x);
  }

  lemma ChainSnoc(voc: Vocabulary, file: seq<Assign>, c: seq<string>, x: string)
    requires Chain(voc, file, c) && Flows(file, c[|c| - 1], x)
    ensures Derives(voc, file, x)
  {
    var c' := c + [x];
    forall k | 0 < k < |c'| ensures Flows(file, c'[k - 1], c'[k]) {
      if k < |c| {
        assert c'[k - 1] == c[k - 1] && c'[k] == c[k];
      }
    }
    assert Chain(voc, file, c') && c'[|c'| - 1] == x;
  }

  // ---------------------------------------------------------------------------------------------
  // The fixed point.

  method RhsIsOutput(voc: Vocabulary, rhs: Expr, known: set<string>) returns (output: bool)
    ensures output == IsOutput(voc, rhs, known)
  {
    if !rhs.Call? {
      return false;
    }
    if rhs.fun.Selector? && voc.captures(rhs.fun.sel) {
      return true;
    }
    for k := 0 to |rhs.args|
      invariant forall j :: 0 <= j < k ==> !(rhs.args[j].Ident? && rhs.args[j].name in known)
    {
      if rhs.args[k].Ident? && rhs.args[k].name in known {
        return true;
      }
    }
    return false;
  }

  // The names the file assigns to.
  function Assigned(file: seq<Assign>): set<string> {
    set a, i: nat | a in file && i < |a.rhs| && Target(a, i).Some? :: Target(a, i).value
  }

  // A pass part-way: nothing was added that no chain leads to, and if nothing was added at all then what was
  // visited is closed.
  ghost predicate Visited(voc: Vocabulary, file: seq<Assign>, vars0: set<string>, vars: set<string>, changed: bool) {
    vars0 <= vars <= vars0 + Assigned(file) && changed == (vars != vars0) && AllDerive(voc, file, vars)
  }

  ghost predicate AllDerive(voc: Vocabulary, file: seq<Assign>, vars: set<string>) {
    forall x :: x in vars ==> Derives(voc, file, x)
  }

  method VisitAssign(voc: Vocabulary, a: Assign, vars1: set<string>, changed1: bool, ghost file: seq<Assign>,
                     ghost vars0: set<string>)
    returns (vars: set<string>, changed: bool)
    requires a in file && Visited(voc, file, vars0, vars1, changed1)
    ensures Visited(voc, file, vars0, vars, changed) && vars1 <= vars
    ensures !changed ==> ClosedUnder(voc, a, vars)
  {
    vars, changed := vars1, changed1;
    for i := 0 to |a.rhs|
      invariant Visited(voc, file, vars0, vars, changed) && vars1 <= vars
      invariant !changed ==> forall j: nat :: j < i ==> ClosedAt(voc, a, j, vars)
    {
      var output := RhsIsOutput(voc, a.rhs[i], vars);
      if !output {
        continue;
      }
      var lhsIdx := i;
      if |a.lhs| == 1 {
        lhsIdx := 0;
      }
      if lhsIdx < |a.lhs| && a.lhs[lhsIdx].Ident? && a.lhs[lhsIdx].name != "_" {
        if a.lhs[lhsIdx].name !in vars {
          ChainGrows(voc, file, vars, a, i);
          assert Target(a, i).value in Assigned(file);
          vars := vars + {a.lhs[lhsIdx].name};
          changed := true;
        }
      }
    }
  }

  method VisitAll(voc: Vocabulary, file: seq<Assign>, vars0: set<string>) returns (vars: set<string>, changed: bool)
    requires AllDerive(voc, file, vars0)
    ensures Visited(voc, file, vars0, vars, changed)
    ensures !changed ==> Closed(voc, file, vars)
  {
    vars, changed := vars0, false;
    for n := 0 to |file|
      invariant Visited(voc, file, vars0, vars, changed)
      invariant !changed ==> Closed(voc, file[..n], vars)
    {
      assert file[..n + 1] == file[..n] + [file[n]];
      vars, changed := VisitAssign(voc, file[n], vars, changed, file, vars0);
    }
    assert file[..|file|] == file;
  }

  method CollectOutputVars(voc: Vocabulary, file: seq<Assign>) returns (vars: set<string>)
    ensures Closed(voc, file, vars) && forall other :: Closed(voc, file, other) ==> vars <= other
    ensures forall x :: x in vars <==> Derives(voc, file, x)
  {
    vars := UntilClosed(voc, file);
    LeastIsDerived(voc, file, vars);
  }

  // Ends, because every pass that changes something adds a name the file assigns to.
  method UntilClosed(voc: Vocabulary, file: seq<Assign>) returns (vars: set<string>)
    ensures Closed(voc, file, vars) && AllDerive(voc, file, vars)
  {
    vars := {};
    var changed := true;
    ghost var all := Assigned(file);
    while changed
      invariant vars <= all && AllDerive(voc, file, vars)
      invariant !changed ==> Closed(voc, file, vars)
      decreases |all - vars|, changed
    {
      ghost var before := vars;
      vars, changed := VisitAll(voc, file, vars);
      if changed {
        Shrinks(all, before, vars);
      }
    }
  }

  lemma Shrinks(all: set<string>, before: set<string>, now: set<string>)
    requires before < now <= all
    ensures |all - now| < |all - before|
  {
    assert all - before == (all - now) + (now - before);
    var x :| x in now - before;
    assert |now - before| > 0;
  }

  lemma LeastIsDerived(voc: Vocabulary, file: seq<Assign>, vars: set<string>)
    requires Closed(voc, file, vars) && AllDerive(voc, file, vars)
    ensures forall x :: x in vars <==> Derives(voc, file, x)
    ensures forall other :: Closed(voc, file, other) ==> vars <= other
  {
    forall x | Derives(voc, file, x) ensures x in vars {
      var c :| Chain(voc, file, c) && c[|c| - 1] == x;
      ChainStaysInside(voc, file, c, vars);
    }
    forall other, x | Closed(voc, file, other) && x in vars ensures x in other {
      var c :| Chain(voc, file, c) && c[|c| - 1] == x;
      ChainStaysInside(voc, file, c, other);
    }
  }

  // The order of the statements does not matter, nor does repeating them.
  lemma OrderDoesNotMatter(voc: Vocabulary, file: seq<Assign>, file': seq<Assign>, x: string)
    requires forall a :: a in file <==> a in file'
    ensures Derives(voc, file, x) <==> Derives(voc, file', x)
  {
    if Derives(voc, file, x) {
      Reordered(voc, file, file', x);
    }
    if Derives(voc, file', x) {
      Reordered(voc, file', file, x);
    }
  }

  lemma Reordered(voc: Vocabulary, file: seq<Assign>, file': seq<Assign>, x: string)
    requires (forall a :: a in file ==> a in file') && Derives(voc, file, x)
    ensures Derives(voc, file', x)
  {
    var c :| Chain(voc, file, c) && c[|c| - 1] == x;
    var a, i: nat :| a in file && i < |a.rhs| && IsCapture(voc, a.rhs[i]) && Target(a, i) == Some(c[0]);
    assert Seed(voc, file', c[0]);
    forall k | 0 < k < |c| ensures Flows(file', c[k - 1], c[k]) {
      assert Flows(file, c[k - 1], c[k]);
      var b, j: nat :| b in file && j < |b.rhs| && PassesKnown(b.rhs[j], {c[k - 1]}) && Target(b, j) == Some(c[k]);
    }
    assert Chain(voc, file', c);
  }

  // ---------------------------------------------------------------------------------------------
  // The two kinds of step, said of the expressions themselves.

  // The i-th right-hand side of a is assigned to the name x: the one name on the left if there is only one
  // expression there, else the i-th. The blank identifier takes nothing.
  predicate AssignsTo(a: Assign, i: nat, x: string) {
    x != "_" && if |a.lhs| == 1 then a.lhs[0] == Ident(x) else i < |a.lhs| && a.lhs[i] == Ident(x)
  }

  // A chain starts at a name that a capture call is assigned to.
  lemma SeedIff(voc: Vocabulary, file: seq<Assign>, x: string)
    ensures Seed(voc, file, x) <==>
      exists a, i: nat :: a in file && i < |a.rhs| && AssignsTo(a, i, x)
                          && a.rhs[i].Call? && a.rhs[i].fun.Selector? && voc.captures(a.rhs[i].fun.sel)
  {
    forall a: Assign, i: nat ensures AssignsTo(a, i, x) <==> Target(a, i) == Some(x) {
    }
  }

  // And goes from any direct argument of a call, whichever it is, to the name the call is assigned to.
  lemma FlowsIff(file: seq<Assign>, y: string, x: string)
    ensures Flows(file, y, x) <==>
      exists a, i: nat, k: nat :: a in file && i < |a.rhs| && AssignsTo(a, i, x)
                                  && a.rhs[i].Call? && k < |a.rhs[i].args| && a.rhs[i].args[k] == Ident(y)
  {
    forall a: Assign, i: nat ensures AssignsTo(a, i, x) <==> Target(a, i) == Some(x) {
    }
    if Flows(file, y, x) {
      var a, i: nat :| a in file && i < |a.rhs| && PassesKnown(a.rhs[i], {y}) && Target(a, i) == Some(x);
      var k: nat :| k < |a.rhs[i].args| && a.rhs[i].args[k].Ident? && a.rhs[i].args[k].name in {y};
      assert a.rhs[i].args[k] == Ident(y) && AssignsTo(a, i, x);
    }
    if a, i: nat, k: nat :| a in file && i < |a.rhs| && AssignsTo(a, i, x)
                            && a.rhs[i].Call? && k < |a.rhs[i].args| && a.rhs[i].args[k] == Ident(y) {
      assert PassesKnown(a.rhs[i], {y}) && Target(a, i) == Some(x);
    }
  }

  // ---------------------------------------------------------------------------------------------
  // Arguments of matchers.

  method ArgDerivesFromOutput(voc: Vocabulary, arg: Expr, vars: set<string>) returns (derives: bool)
    ensures derives == Reaches(voc, arg, vars)
    decreases arg
  {
    match arg
    case Ident(name) =>
      derives := name in vars || voc.outputish(name);
      ReachesItself(voc, arg, vars);
    case Call(fun, args) =>
      if fun.Selector? && fun.sel == "Error" {
        ErrorReaches(voc, arg, vars);
        return true;
      }
      for k := 0 to |args|
        invariant forall j :: 0 <= j < k ==> !Reaches(voc, args[j], vars)
      {
        var inner := ArgDerivesFromOutput(voc, args[k], vars);
        if inner {
          StepInto(voc, arg, vars, k);
          return true;
        }
      }
      NoArgument(voc, arg, vars);
      derives := false;
    case Paren(inner) =>
      derives := ArgDerivesFromOutput(voc, inner, vars);
      if derives {
        StepInto(voc, arg, vars, 0);
      } else {
        NoInner(voc, arg, vars);
      }
    case _ =>
      derives := false;
  }

  // Following arguments and parentheses down the path ends at an output name or at an error message.
  predicate ReachesSource(voc: Vocabulary, e: Expr, vars: set<string>, path: seq<nat>)
    decreases path
  {
    if path == [] then
      (e.Ident? && (e.name in vars || voc.outputish(e.name))) || (e.Call? && e.fun.Selector? && e.fun.sel == "Error")
    else
      (e.Call? && path[0] < |e.args| && ReachesSource(voc, e.args[path[0]], vars, path[1..])) ||
      (e.Paren? && path[0] == 0 && ReachesSource(voc, e.inner, vars, path[1..]))
  }

  ghost predicate Reaches(voc: Vocabulary, e: Expr, vars: set<string>) {
    exists path :: ReachesSource(voc, e, vars, path)
  }

  lemma ReachesItself(voc: Vocabulary, e: Expr, vars: set<string>)
    requires e.Ident?
    ensures Reaches(voc, e, vars) == (e.name in vars || voc.outputish(e.name))
  {
    assert ReachesSource(voc, e, vars, []) == (e.name in vars || voc.outputish(e.name));
  }

  lemma ErrorReaches(voc: Vocabulary, e: Expr, vars: set<string>)
    requires e.Call? && e.fun.Selector? && e.fun.sel == "Error"
    ensures Reaches(voc, e, vars)
  {
    assert ReachesSource(voc, e, vars, []);
  }

  lemma StepInto(voc: Vocabulary, e: Expr, vars: set<string>, k: nat)
    requires if e.Call? then k < |e.args| && Reaches(voc, e.args[k], vars)
             else e.Paren? && k == 0 && Reaches(voc, e.inner, vars)
    ensures Reaches(voc, e, vars)
  {
    var inner := if e.Call? then e.args[k] else e.inner;
    var rest :| ReachesSource(voc, inner, vars, rest);
    assert ([k] + rest)[1..] == rest;
    assert ReachesSource(voc, e, vars, [k] + rest);
  }

  lemma NoArgument(voc: Vocabulary, e: Expr, vars: set<string>)
    requires e.Call? && !(e.fun.Selector? && e.fun.sel == "Error")
    requires forall j :: 0 <= j < |e.args| ==> !Reaches(voc, e.args[j], vars)
    ensures !Reaches(voc, e, vars)
  {
    forall path ensures !ReachesSource(voc, e, vars, path) {
      if path != [] && path[0] < |e.args| {
        assert !Reaches(voc, e.args[path[0]], vars);
      }
    }
  }

  lemma NoInner(voc: Vocabulary, e: Expr, vars: set<string>)
    requires e.Paren? && !Reaches(voc, e.inner, vars)
    ensures !Reaches(voc, e, vars)
  {
    forall path ensures !ReachesSource(voc, e, vars, path) {
      if path != [] {
        assert !ReachesSource(voc, e.inner, vars, path[1..]);
      }
    }
  }
}
