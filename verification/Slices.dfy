/** Go slices of violations in memory, and reports whose instance lists are such slices. */
module Slices {
  import opened Doop

  /** A Go slice that starts at its backing array. Elements past len are spare capacity,
      which append may overwrite. */
  datatype Slice = Slice(arr: array<Violation>, len: nat) {
    ghost predicate Valid() { len <= arr.Length }

    function Elems(): seq<Violation>
      requires Valid()
      reads arr
    {
      arr[..len]
    }
  }

  type StoredGroup = ViolationGroup<Slice>
  type StoredConstraint = ReportForConstraint<Slice>
  type StoredTemplate = ReportForTemplate<Slice>
  type StoredReport = Report<Slice>

  // ----- the arrays of a report -----

  ghost function GroupArrays(gs: seq<StoredGroup>): set<array<Violation>> {
    set i | 0 <= i < |gs| :: gs[i].instances.arr
  }

  ghost function ConstraintArrays(cs: seq<StoredConstraint>): set<array<Violation>> {
    set i, a | 0 <= i < |cs| && a in GroupArrays(cs[i].groups) :: a
  }

  ghost function TemplateArrays(ts: seq<StoredTemplate>): set<array<Violation>> {
    set i, a | 0 <= i < |ts| && a in ConstraintArrays(ts[i].constraints) :: a
  }

  ghost predicate ValidGroups(gs: seq<StoredGroup>) {
    forall i :: 0 <= i < |gs| ==> gs[i].instances.Valid()
  }

  ghost predicate ValidConstraints(cs: seq<StoredConstraint>) {
    forall i :: 0 <= i < |cs| ==> ValidGroups(cs[i].groups)
  }

  ghost predicate ValidTemplates(ts: seq<StoredTemplate>) {
    forall i :: 0 <= i < |ts| ==> ValidConstraints(ts[i].constraints)
  }

  /** No two groups share a backing array. */
  ghost predicate SeparateGroups(gs: seq<StoredGroup>) {
    forall i, j :: 0 <= i < j < |gs| ==> gs[i].instances.arr != gs[j].instances.arr
  }

  ghost predicate SeparateConstraints(cs: seq<StoredConstraint>) {
    && (forall i :: 0 <= i < |cs| ==> SeparateGroups(cs[i].groups))
    && (forall i, j :: 0 <= i < j < |cs| ==> GroupArrays(cs[i].groups) !! GroupArrays(cs[j].groups))
  }

  ghost predicate SeparateTemplates(ts: seq<StoredTemplate>) {
    && (forall i :: 0 <= i < |ts| ==> SeparateConstraints(ts[i].constraints))
    && (forall i, j :: 0 <= i < j < |ts| ==> ConstraintArrays(ts[i].constraints) !! ConstraintArrays(ts[j].constraints))
  }

  // ----- the value of a report -----

  function ViewGroup(g: StoredGroup): Group
    requires g.instances.Valid()
    reads g.instances.arr
  {
    ViolationGroup(g.pattern, g.instances.Elems())
  }

  function ViewGroups(gs: seq<StoredGroup>): (r: seq<Group>)
    requires ValidGroups(gs)
    reads GroupArrays(gs)
    ensures |r| == |gs|
    ensures forall i :: 0 <= i < |gs| ==> r[i] == ViewGroup(gs[i])
  {
    seq(|gs|, i requires 0 <= i < |gs| reads GroupArrays(gs) => ViewGroup(gs[i]))
  }

  function ViewConstraint(c: StoredConstraint): Constraint
    requires ValidGroups(c.groups)
    reads GroupArrays(c.groups)
  {
    ReportForConstraint(c.name, c.metadata, c.violations, ViewGroups(c.groups))
  }

  function ViewConstraints(cs: seq<StoredConstraint>): (r: seq<Constraint>)
    requires ValidConstraints(cs)
    reads ConstraintArrays(cs)
    ensures |r| == |cs|
    ensures forall i :: 0 <= i < |cs| ==> r[i] == ViewConstraint(cs[i])
  {
    seq(|cs|, i requires 0 <= i < |cs| reads ConstraintArrays(cs) => ViewConstraint(cs[i]))
  }

  function ViewTemplate(t: StoredTemplate): Template
    requires ValidConstraints(t.constraints)
    reads ConstraintArrays(t.constraints)
  {
    ReportForTemplate(t.kind, ViewConstraints(t.constraints))
  }

  function ViewTemplates(ts: seq<StoredTemplate>): (r: seq<Template>)
    requires ValidTemplates(ts)
    reads TemplateArrays(ts)
    ensures |r| == |ts|
    ensures forall i :: 0 <= i < |ts| ==> r[i] == ViewTemplate(ts[i])
  {
    seq(|ts|, i requires 0 <= i < |ts| reads TemplateArrays(ts) => ViewTemplate(ts[i]))
  }

  function ViewReport(r: StoredReport): ClusterReport
    requires ValidTemplates(r.templates)
    reads TemplateArrays(r.templates)
  {
    Report(r.clusterIdentity, ViewTemplates(r.templates))
  }

  lemma ConstraintArraysAllocated(cs: seq<StoredConstraint>)
    ensures forall a :: a in ConstraintArrays(cs) ==> allocated(a)
  {
  }

  lemma TemplateArraysAllocated(ts: seq<StoredTemplate>)
    ensures forall a :: a in TemplateArrays(ts) ==> allocated(a)
  {
  }

  // ----- the reports of several clusters -----

  type StoredReports = map<string, StoredReport>

  ghost predicate ValidReports(reports: StoredReports) {
    forall x :: x in reports ==> ValidTemplates(reports[x].templates)
  }

  ghost function ReportArrays(reports: StoredReports): set<array<Violation>> {
    set x, a | x in reports && a in TemplateArrays(reports[x].templates) :: a
  }

  function ViewReports(reports: StoredReports): map<string, ClusterReport>
    requires ValidReports(reports)
    reads ReportArrays(reports)
    ensures ViewReports(reports).Keys == reports.Keys
  {
    map x | x in reports :: ViewReport(reports[x])
  }

  // ----- slices.Clone and append -----

  /** The clone's spare capacity is up to the allocator. */
  method Clone(s: Slice) returns (r: Slice)
    requires s.Valid()
    ensures r.Valid() && fresh(r.arr) && r.Elems() == s.Elems()
  {
    var spare: nat :| true;
    var arr := new Violation[s.len + spare];
    forall i | 0 <= i < s.len {
      arr[i] := s.arr[i];
    }
    r := Slice(arr, s.len);
  }

  /** Writes into the spare capacity of dst when it suffices, else reallocates. */
  method Append(dst: Slice, src: Slice) returns (r: Slice)
    requires dst.Valid() && src.Valid() && dst.arr != src.arr
    modifies dst.arr
    ensures r.Valid() && (if dst.len + src.len <= dst.arr.Length then r.arr == dst.arr else fresh(r.arr))
    ensures r.Elems() == old(dst.Elems()) + old(src.Elems())
  {
    var n := dst.len + src.len;
    if n <= dst.arr.Length {
      forall i | 0 <= i < src.len {
        dst.arr[dst.len + i] := src.arr[i];
      }
      r := Slice(dst.arr, n);
    } else {
      var spare: nat :| true;
      var arr := new Violation[n + spare];
      forall i | 0 <= i < dst.len {
        arr[i] := dst.arr[i];
      }
      forall i | 0 <= i < src.len {
        arr[dst.len + i] := src.arr[i];
      }
      r := Slice(arr, n);
    }
  }
}
