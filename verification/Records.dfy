// The extraction records that the document builder stamps, folds and assembles.
module Records {
  import opened Wrappers
  import opened Graph

  datatype Edge = Edge(from: Id, to: Id, kind: string, props: Props, confidence: real)

  datatype Record = Record(id: Id, kind: string, name: string, file: string, subtype: string,
                           qualifiedName: string, signature: string, language: string,
                           startLine: nat, endLine: nat, owner: string, props: Props, tags: seq<string>,
                           rels: seq<Edge>)

  // Names the record this one is a facet of: same construct, different kind.
  const TWIN_OF: string := "grafel.twin_of"

  function Prop(r: Record, key: string): string {
    if key in r.props then r.props[key] else ""
  }

  // The fields, for statements about which record a value comes from.
  ghost function TheProp(key: string): Record -> Option<string> {
    (r: Record) => if key in r.props then Some(r.props[key]) else None
  }

  ghost function TheStart(): Record -> nat { (r: Record) => r.startLine }
  ghost function TheEnd(): Record -> nat { (r: Record) => r.endLine }
  ghost function TheSubtype(): Record -> string { (r: Record) => r.subtype }
  ghost function TheQualifiedName(): Record -> string { (r: Record) => r.qualifiedName }
  ghost function TheSignature(): Record -> string { (r: Record) => r.signature }
  ghost function TheLanguage(): Record -> string { (r: Record) => r.language }

  function FinalID(repo: string, r: Record): Id {
    EntityID(repo, r.kind, r.name, r.file)
  }

  // The pre-stamp identity concatenates its fields with no separator. `owner` is the organisation and
  // project prefix.
  function ComputeID(r: Record): Id {
    r.owner + r.file + r.kind + r.name
  }

  // What stamping leaves: named records have an ID, and the ID determines kind, name and file.
  predicate Identified(rs: seq<Record>) {
    && (forall r :: r in rs && r.name != "" ==> r.id != "")
    && (forall r, q {:trigger Agree(r, q)} :: r in rs && q in rs ==> Agree(r, q))
  }

  predicate Agree(r: Record, q: Record) {
    r.name != "" && q.name != "" && r.id == q.id ==> r.kind == q.kind && r.name == q.name && r.file == q.file
  }

  predicate NulFree(s: string) {
    '\0' !in s
  }

  lemma SplitAtNul(a: string, b: string, c: string, d: string)
    requires NulFree(a) && NulFree(c) && a + NUL + b == c + NUL + d
    ensures a == c && b == d
  {
    var s, t := a + NUL + b, c + NUL + d;
    assert s[|a|] == '\0' && t[|c|] == '\0';
    assert forall i :: 0 <= i < |a| ==> s[i] == a[i] && a[i] in a;
    assert forall i :: 0 <= i < |c| ==> t[i] == c[i] && c[i] in c;
    assert |a| == |c|;
    assert a == s[..|a|] && c == t[..|a|];
    assert b == s[|a| + 1..] && d == t[|a| + 1..];
  }

  // NUL separators make the final identity recoverable: equal IDs mean equal kind, name and file.
  lemma EntityIDInjective(repo: string, k: string, n: string, f: string, k': string, n': string, f': string)
    requires NulFree(repo) && NulFree(k) && NulFree(n) && NulFree(k') && NulFree(n')
    requires EntityID(repo, k, n, f) == EntityID(repo, k', n', f')
    ensures k == k' && n == n' && f == f'
  {
    var rest, rest' := k + NUL + n + NUL + f, k' + NUL + n' + NUL + f';
    assert EntityID(repo, k, n, f) == repo + NUL + rest;
    assert EntityID(repo, k', n', f') == repo + NUL + rest';
    SplitAtNul(repo, rest, repo, rest');
    assert rest == k + NUL + (n + NUL + f) && rest' == k' + NUL + (n' + NUL + f');
    SplitAtNul(k, n + NUL + f, k', n' + NUL + f');
    SplitAtNul(n, f, n', f');
  }

  lemma OtherName(repo: string, kind: string, name: string, name': string, file: string)
    requires NulFree(repo) && NulFree(kind) && NulFree(name) && NulFree(name') && name != name'
    ensures EntityID(repo, kind, name, file) != EntityID(repo, kind, name', file)
  {
    if EntityID(repo, kind, name, file) == EntityID(repo, kind, name', file) {
      EntityIDInjective(repo, kind, name, file, kind, name', file);
    }
  }

  lemma FinalIsNotPreStamp(repo: string, r: Record, q: Record)
    requires NulFree(q.owner) && NulFree(q.file) && NulFree(q.kind) && NulFree(q.name)
    ensures FinalID(repo, r) != ComputeID(q)
  {
    assert FinalID(repo, r) == repo + NUL + (r.kind + NUL + r.name + NUL + r.file);
    assert FinalID(repo, r)[|repo|] == '\0';
  }
}
