// The vocabulary of the class folds: which kinds are framework-typed, which subtypes are class-like.
module ClassKinds {
  import opened Records

  const COMPONENT: string := "SCOPE.Component"

  function Priority(kind: string): nat {
    if kind in {"Model", "View", "Controller", "Service", "Middleware", "Repository", "Worker", "Job", "Topic",
                "SCOPE.Service", "SCOPE.View", "SCOPE.Model", "SCOPE.UIComponent"} then 100
    else if kind in {"TestClass", "SCOPE.GrpcService"} then 90
    else if kind in {"Schema", "Plugin", "Implementation", "Interface", "SCOPE.Schema"} then 80
    else if kind == "Task" then 70
    else 0
  }

  // Breaks ties between kinds of equal priority.
  function CanonRank(kind: string): nat {
    if kind in {"Model", "SCOPE.Model", "View", "SCOPE.View"} then 5
    else if kind in {"Repository", "Service", "SCOPE.Service"} then 4
    else if kind in {"Schema", "SCOPE.Schema"} then 3
    else if kind in {"Worker", "Job", "Topic"} then 2
    else if kind == "Middleware" then 1
    else 0
  }

  predicate ClassLikeSubtype(subtype: string) {
    subtype in {"class", "struct", "interface", "protocol", "trait", "behaviour", "service", "controller",
                "repository", "guard", "interceptor", "pipe", "middleware", "resolver", "gateway", "worker",
                "job", "task", "view"}
  }

  // The tables a fold consults. The folds rely on one fact about them only: see Generic.
  datatype Kinds = Kinds(priority: string -> nat, rank: string -> nat, classLike: string -> bool) {
    predicate IsFramework(kind: string) {
      priority(kind) > 0
    }

    // The generic component kind is not framework-typed.
    predicate Generic() {
      !IsFramework(COMPONENT)
    }

    predicate IsClassLike(r: Record) {
      classLike(r.subtype) || Prop(r, "role") == "class"
    }

    predicate IsFoldSource(r: Record) {
      r.name != "" && (IsShadow(r) || (r.kind == COMPONENT && IsClassLike(r)))
    }
  }

  function Vocabulary(): (kinds: Kinds)
    ensures kinds.Generic()
  {
    assert |COMPONENT| == 15;
    Kinds(kind => Priority(kind), kind => CanonRank(kind), subtype => ClassLikeSubtype(subtype))
  }

  // A facet of another record: its twin_of names somebody else.
  predicate IsTwin(r: Record) {
    Prop(r, TWIN_OF) != "" && Prop(r, TWIN_OF) != r.id
  }

  // The line-less duplicate the class-hierarchy pass infers.
  predicate IsShadow(r: Record) {
    Prop(r, "provenance") == "INFERRED_FROM_CLASS_HIERARCHY"
  }

  // Lexicographic order on strings, as Go compares them.
  predicate Before(a: string, b: string) {
    b != [] && (a == [] || a[0] < b[0] || (a[0] == b[0] && Before(a[1..], b[1..])))
  }

  lemma {:induction false} BeforeTotal(a: string, b: string)
    ensures Before(a, b) || Before(b, a) || a == b
    ensures !(Before(a, b) && Before(b, a)) && !Before(a, a)
  {
    if a != [] && b != [] {
      assert a == [a[0]] + a[1..] && b == [b[0]] + b[1..];
      BeforeTotal(a[1..], b[1..]);
    }
    if a != [] {
      BeforeTotal(a[1..], a[1..]);
    }
  }

  // a comes first where the two first differ: there it has the smaller character, or ends.
  lemma {:induction false} BeforeIff(a: string, b: string)
    ensures Before(a, b) <==>
      exists k :: 0 <= k <= |a| && k < |b| && a[..k] == b[..k] && (k == |a| || a[k] < b[k])
  {
    if Before(a, b) {
      var k := DiffersAt(a, b);
    }
    if k :| 0 <= k <= |a| && k < |b| && a[..k] == b[..k] && (k == |a| || a[k] < b[k]) {
      BeforeAt(a, b, k);
    }
  }

  lemma {:induction false} DiffersAt(a: string, b: string) returns (k: nat)
    requires Before(a, b)
    ensures k <= |a| && k < |b| && a[..k] == b[..k] && (k == |a| || a[k] < b[k])
  {
    if a == [] || a[0] < b[0] {
      k := 0;
    } else {
      var j := DiffersAt(a[1..], b[1..]);
      k := j + 1;
      assert a[..k] == [a[0]] + a[1..][..j] && b[..k] == [b[0]] + b[1..][..j];
    }
  }

  lemma {:induction false} BeforeAt(a: string, b: string, k: nat)
    requires k <= |a| && k < |b| && a[..k] == b[..k] && (k == |a| || a[k] < b[k])
    ensures Before(a, b)
  {
    if k > 0 {
      assert a[0] == a[..k][0] == b[..k][0] == b[0];
      assert a[1..][..k - 1] == a[..k][1..] && b[1..][..k - 1] == b[..k][1..];
      BeforeAt(a[1..], b[1..], k - 1);
    }
  }

  lemma {:induction false} BeforeTransitive(a: string, b: string, c: string)
    requires Before(a, b) && Before(b, c)
    ensures Before(a, c)
  {
    if a != [] && a[0] == b[0] && b[0] == c[0] {
      BeforeTransitive(a[1..], b[1..], c[1..]);
    }
  }
}
