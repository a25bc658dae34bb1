/** The report data structures shared by doop-analyzer and doop-api, with the
    comparison and compression functions on single violations. */
module Doop {
  import opened Text

  type Identity = map<string, string>

  /** A Go map lookup: a missing key reads as the empty string. */
  function At(m: Identity, key: string): string {
    if key in m then m[key] else ""
  }

  datatype Violation = Violation(
    kind: string, name: string, namespace: string, message: string,
    objectIdentity: Identity, clusterName: string)
  {
    predicate IsEqualTo(other: Violation) {
      && kind == other.kind
      && name == other.name
      && namespace == other.namespace
      && message == other.message
      && objectIdentity == other.objectIdentity
      && clusterName == other.clusterName
    }

    /** Blanks every field that the pattern has too. */
    function DifferenceTo(pattern: Violation): Violation {
      Violation(
        if kind == pattern.kind then "" else kind,
        if name == pattern.name then "" else name,
        if namespace == pattern.namespace then "" else namespace,
        if message == pattern.message then "" else message,
        if objectIdentity == pattern.objectIdentity then map[] else objectIdentity,
        if clusterName == pattern.clusterName then "" else clusterName)
    }

    function CompareTo(other: Violation): int {
      var byNamespace := Compare(namespace, other.namespace);
      if byNamespace != 0 then byNamespace else
      var byName := Compare(name, other.name);
      if byName != 0 then byName else
      var byKind := Compare(kind, other.kind);
      if byKind != 0 then byKind else
      var byMessage := Compare(message, other.message);
      if byMessage != 0 then byMessage else
      Compare(clusterName, other.clusterName)
    }

    /** How a reader restores an instance: an omitted field is the pattern's field. */
    function ExpandAgainst(pattern: Violation): Violation {
      Violation(
        if kind == "" then pattern.kind else kind,
        if name == "" then pattern.name else name,
        if namespace == "" then pattern.namespace else namespace,
        if message == "" then pattern.message else message,
        if objectIdentity == map[] then pattern.objectIdentity else objectIdentity,
        if clusterName == "" then pattern.clusterName else clusterName)
    }

    /** No field is empty here and filled in the pattern. */
    predicate NotFilledBy(pattern: Violation) {
      && (kind == "" ==> pattern.kind == "")
      && (name == "" ==> pattern.name == "")
      && (namespace == "" ==> pattern.namespace == "")
      && (message == "" ==> pattern.message == "")
      && (objectIdentity == map[] ==> pattern.objectIdentity == map[])
      && (clusterName == "" ==> pattern.clusterName == "")
    }

    /** The number of fields that are present. */
    function Weight(): nat {
      Filled(kind) + Filled(name) + Filled(namespace) + Filled(message)
      + (if objectIdentity == map[] then 0 else 1) + Filled(clusterName)
    }
  }

  function Filled(s: string): nat {
    if s == "" then 0 else 1
  }

  datatype Metadata = Metadata(
    severity: string, templateSource: string, constraintSource: string,
    docstring: string, auditTimestamp: string)
  {
    /** The part of the metadata that is aggregated. */
    function Cleared(): Metadata {
      this.(auditTimestamp := "")
    }
  }

  // The container I of a group's instances is a sequence in specifications and
  // a slice of a mutable array in the code.
  datatype ViolationGroup<+I> = ViolationGroup(pattern: Violation, instances: I)
  datatype ReportForConstraint<+I> = ReportForConstraint(
    name: string, metadata: Metadata, violations: seq<Violation>, groups: seq<ViolationGroup<I>>)
  datatype ReportForTemplate<+I> = ReportForTemplate(kind: string, constraints: seq<ReportForConstraint<I>>)
  datatype Report<+I> = Report(clusterIdentity: Identity, templates: seq<ReportForTemplate<I>>)

  type Group = ViolationGroup<seq<Violation>>
  type Constraint = ReportForConstraint<seq<Violation>>
  type Template = ReportForTemplate<seq<Violation>>
  type ClusterReport = Report<seq<Violation>>

  /** Compression is invertible exactly when the pattern fills no empty field. */
  lemma DifferenceIsLossless(v: Violation, p: Violation)
    ensures v.DifferenceTo(p).ExpandAgainst(p) == v <==> v.NotFilledBy(p)
  {
    assert v.DifferenceTo(p).ExpandAgainst(p).IsEqualTo(v) <==> v.DifferenceTo(p).ExpandAgainst(p) == v;
  }

  /** A lossy expansion always has more fields than the original. */
  lemma ExpansionGrows(v: Violation, p: Violation)
    ensures v.DifferenceTo(p).ExpandAgainst(p).Weight() >= v.Weight()
    ensures v.DifferenceTo(p).ExpandAgainst(p).Weight() == v.Weight() <==> v.NotFilledBy(p)
  {
  }

  /** The order sees five of the six fields, so equality needs the identities as well. */
  lemma CompareToIsEquality(v: Violation, w: Violation)
    ensures v.IsEqualTo(w) <==> v == w
    ensures v.IsEqualTo(w) <==> v.CompareTo(w) == 0 && v.objectIdentity == w.objectIdentity
  {
    CompareIsEquality(v.namespace, w.namespace);
    CompareIsEquality(v.name, w.name);
    CompareIsEquality(v.kind, w.kind);
    CompareIsEquality(v.message, w.message);
    CompareIsEquality(v.clusterName, w.clusterName);
  }

  lemma CompareToFlips(v: Violation, w: Violation)
    ensures v.CompareTo(w) == -w.CompareTo(v)
  {
    CompareFlips(v.namespace, w.namespace);
    CompareFlips(v.name, w.name);
    CompareFlips(v.kind, w.kind);
    CompareFlips(v.message, w.message);
    CompareFlips(v.clusterName, w.clusterName);
  }

  lemma CompareToIsTransitive(u: Violation, v: Violation, w: Violation)
    requires u.CompareTo(v) <= 0 && v.CompareTo(w) <= 0
    ensures u.CompareTo(w) <= 0
  {
    CompareToStep(u.namespace, v.namespace, w.namespace);
    CompareToStep(u.name, v.name, w.name);
    CompareToStep(u.kind, v.kind, w.kind);
    CompareToStep(u.message, v.message, w.message);
    CompareToStep(u.clusterName, v.clusterName, w.clusterName);
  }

  lemma CompareToStep(a: string, b: string, c: string)
    ensures Compare(a, b) <= 0 && Compare(b, c) <= 0 ==> Compare(a, c) <= 0
    ensures Compare(a, b) <= 0 && Compare(b, c) <= 0 && Compare(a, c) == 0 ==> Compare(a, b) == 0 && Compare(b, c) == 0
  {
    if Compare(a, b) <= 0 && Compare(b, c) <= 0 {
      CompareIsTransitive(a, b, c);
    }
  }

  /** Compression field by field: what the pattern says already is blank, the rest is kept. */
  lemma DifferenceFieldByField(v: Violation, p: Violation)
    ensures var d := v.DifferenceTo(p);
      && BlankIfRepeated(v.kind, p.kind, d.kind)
      && BlankIfRepeated(v.name, p.name, d.name)
      && BlankIfRepeated(v.namespace, p.namespace, d.namespace)
      && BlankIfRepeated(v.message, p.message, d.message)
      && BlankIfRepeated(v.clusterName, p.clusterName, d.clusterName)
      && (d.objectIdentity == map[] <==> v.objectIdentity == p.objectIdentity || v.objectIdentity == map[])
      && (d.objectIdentity != map[] ==> d.objectIdentity == v.objectIdentity)
  {
  }

  predicate BlankIfRepeated(own: string, pattern: string, compressed: string) {
    && (compressed == "" <==> own == pattern || own == "")
    && (compressed != "" ==> compressed == own)
  }

  /** No other representation of the violation against the pattern has fewer fields. */
  lemma DifferenceIsMinimal(v: Violation, p: Violation, w: Violation)
    requires w.ExpandAgainst(p) == v
    ensures v.DifferenceTo(p).Weight() <= w.Weight()
    ensures v.DifferenceTo(p).ExpandAgainst(p) == v
  {
  }

  /** If compression loses something, nothing else could represent the violation either. */
  lemma RepresentableExactly(v: Violation, p: Violation)
    ensures (exists w: Violation :: w.ExpandAgainst(p) == v) <==> v.NotFilledBy(p)
  {
    if v.NotFilledBy(p) {
      assert v.DifferenceTo(p).ExpandAgainst(p) == v;
    }
  }

  /** Fewest fields among everything that expands to the same. */
  ghost predicate Minimal(d: Violation, p: Violation) {
    forall w: Violation :: w.ExpandAgainst(p) == d.ExpandAgainst(p) ==> d.Weight() <= w.Weight()
  }

  /** Compressed violations are minimal, also where compression loses something. */
  lemma CompressedIsMinimal(v: Violation, p: Violation)
    ensures Minimal(v.DifferenceTo(p), p)
  {
    forall w: Violation | w.ExpandAgainst(p) == v.DifferenceTo(p).ExpandAgainst(p)
      ensures v.DifferenceTo(p).Weight() <= w.Weight()
    {
    }
  }

  /** The first difference decides, in the order namespace, name, kind, message, cluster name. */
  ghost predicate ViolationPrecedes(v: Violation, w: Violation) {
    if v.namespace != w.namespace then Precedes(v.namespace, w.namespace)
    else if v.name != w.name then Precedes(v.name, w.name)
    else if v.kind != w.kind then Precedes(v.kind, w.kind)
    else if v.message != w.message then Precedes(v.message, w.message)
    else Precedes(v.clusterName, w.clusterName)
  }

  lemma CompareToDecides(v: Violation, w: Violation)
    ensures v.CompareTo(w) < 0 <==> ViolationPrecedes(v, w)
    ensures v.CompareTo(w) > 0 <==> ViolationPrecedes(w, v)
    ensures v.CompareTo(w) == 0 <==> v.(objectIdentity := map[]) == w.(objectIdentity := map[])
  {
    hide Compare, Precedes;
    CompareIsDictionaryOrder(v.namespace, w.namespace);
    CompareIsDictionaryOrder(v.name, w.name);
    CompareIsDictionaryOrder(v.kind, w.kind);
    CompareIsDictionaryOrder(v.message, w.message);
    CompareIsDictionaryOrder(v.clusterName, w.clusterName);
  }

  /** Only the timestamp is cleared. */
  lemma ClearedFieldByField(m: Metadata)
    ensures m.Cleared().auditTimestamp == ""
    ensures m.Cleared().severity == m.severity && m.Cleared().templateSource == m.templateSource
    ensures m.Cleared().constraintSource == m.constraintSource && m.Cleared().docstring == m.docstring
  {
  }
}
