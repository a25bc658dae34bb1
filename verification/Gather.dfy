/** Gathering violations: splitting the object identity off a message (objectIdentityRx) and
    leaving out constraints and templates without violations. */
module Gather {
  import opened Doop
  import opened Process
  import opened Pipeline

  // ----- the expression ^(\{.*?\})\s*>>\s*(.*)$ -----

  predicate IsSpace(c: char) {
    c == ' ' || c == '\t' || c == '\n' || c == '\r' || c == '\U{000C}'
  }

  predicate AllSpace(s: string) {
    forall i :: 0 <= i < |s| ==> IsSpace(s[i])
  }

  /** The length of the longest prefix of white space. */
  function Spaces(s: string): (n: nat)
    ensures n <= |s| && AllSpace(s[..n])
    ensures n < |s| ==> !IsSpace(s[n])
  {
    if s == "" || !IsSpace(s[0]) then 0 else 1 + Spaces(s[1..])
  }

  /** One way of reading a message as braces, a separator and a rest. */
  datatype Reading = Reading(body: string, gap1: string, gap2: string, rest: string) {
    function Prefix(): string { "{" + body + "}" }

    ghost predicate Of(s: string) {
      && s == Prefix() + gap1 + ">>" + gap2 + rest
      && '\n' !in body && '\n' !in rest
      && AllSpace(gap1) && AllSpace(gap2)
    }

    /** What a backtracking engine tries first: the shortest body, then the longest gaps. */
    predicate Before(other: Reading) {
      || |body| < |other.body|
      || (|body| == |other.body| && |gap1| > |other.gap1|)
      || (|body| == |other.body| && |gap1| == |other.gap1| && |gap2| > |other.gap2|)
    }
  }

  datatype Option<T> = None | Some(value: T)

  function After(s: string): Option<(string, string, string)> {
    var n := Spaces(s);
    if |s| >= n + 2 && s[n..n + 2] == ">>" then
      var t := s[n + 2..];
      var m := Spaces(t);
      if '\n' in t[m..] then None else Some((s[..n], t[..m], t[m..]))
    else None
  }

  /** The body ends at a closing brace at k or later. */
  function Scan(s: string, k: nat): Option<Reading>
    requires 1 <= k <= |s|
    decreases |s| - k
  {
    if k == |s| || s[k] == '\n' then None
    else if s[k] == '}' && After(s[k + 1..]).Some? then
      var (gap1, gap2, rest) := After(s[k + 1..]).value;
      Some(Reading(s[1..k], gap1, gap2, rest))
    else Scan(s, k + 1)
  }

  function Find(s: string): Option<Reading> {
    if s != "" && s[0] == '{' then Scan(s, 1) else None
  }

  ghost predicate TailOf(s: string, gap1: string, gap2: string, rest: string) {
    s == gap1 + ">>" + gap2 + rest && AllSpace(gap1) && AllSpace(gap2) && '\n' !in rest
  }

  lemma SpacesOf(gap: string, rest: string)
    requires AllSpace(gap)
    ensures Spaces(gap + rest) >= |gap|
    ensures rest != "" && !IsSpace(rest[0]) ==> Spaces(gap + rest) == |gap|
  {
    var n, s := Spaces(gap + rest), gap + rest;
    assert forall i :: 0 <= i < |gap| ==> s[i] == gap[i];
    assert n > |gap| ==> s[..n][|gap|] == rest[0];
  }

  lemma AfterReads(s: string)
    requires After(s).Some?
    ensures TailOf(s, After(s).value.0, After(s).value.1, After(s).value.2)
  {
    hide Spaces;
    var n := Spaces(s);
    var t := s[n + 2..];
    assert s == s[..n] + s[n..n + 2] + t;
    assert t == t[..Spaces(t)] + t[Spaces(t)..];
  }

  /** After the body only the second gap is open: it is taken as long as possible. */
  lemma AfterIsFirst(s: string, gap1: string, gap2: string, rest: string)
    requires TailOf(s, gap1, gap2, rest)
    ensures After(s).Some? && gap1 == After(s).value.0 && |gap2| <= |After(s).value.1|
  {
    hide Spaces;
    var t := gap2 + rest;
    assert s == gap1 + (">>" + t);
    SpacesOf(gap1, ">>" + t);
    assert s[..|gap1|] == gap1 && s[|gap1|..|gap1| + 2] == ">>" && s[|gap1| + 2..] == t;
    SpacesOf(gap2, rest);
    assert t[Spaces(t)..] == rest[Spaces(t) - |gap2|..];
  }

  lemma {:induction false} ScanIsFirst(s: string, k: nat)
    requires 1 <= k <= |s| && s[0] == '{' && '\n' !in s[1..k]
    ensures Scan(s, k).Some? ==> Scan(s, k).value.Of(s) && |Scan(s, k).value.body| >= k - 1
    ensures forall r: Reading :: r.Of(s) && |r.body| >= k - 1 ==> Scan(s, k).Some? && (r == Scan(s, k).value || Scan(s, k).value.Before(r))
    decreases |s| - k
  {
    hide After;
    forall r: Reading | r.Of(s) && |r.body| >= k - 1
      ensures k < |s| && s[k] != '\n'
      ensures |r.body| == k - 1 ==> s[k] == '}' && TailOf(s[k + 1..], r.gap1, r.gap2, r.rest)
      ensures |r.body| == k - 1 ==> r.body == s[1..k]
    {
      Positions(s, r, k);
    }
    if k < |s| && s[k] != '\n' {
      if s[k] == '}' && After(s[k + 1..]).Some? {
        var r := Scan(s, k).value;
        AfterReads(s[k + 1..]);
        assert s == "{" + s[1..k] + "}" + s[k + 1..];
        assert r.Prefix() + (r.gap1 + ">>" + r.gap2 + r.rest) == r.Prefix() + r.gap1 + ">>" + r.gap2 + r.rest;
        forall q: Reading | q.Of(s) && |q.body| == k - 1
          ensures q == r || r.Before(q)
        {
          AfterIsFirst(s[k + 1..], q.gap1, q.gap2, q.rest);
          if |q.gap2| == |r.gap2| {
            SameTail(s[k + 1..], r, q);
          }
        }
      } else {
        assert s[1..k + 1] == s[1..k] + [s[k]];
        ScanIsFirst(s, k + 1);
        forall q: Reading | q.Of(s) && |q.body| == k - 1
          ensures false
        {
          AfterIsFirst(s[k + 1..], q.gap1, q.gap2, q.rest);
        }
      }
    }
  }

  lemma SameTail(s: string, r: Reading, q: Reading)
    requires TailOf(s, r.gap1, r.gap2, r.rest) && TailOf(s, q.gap1, q.gap2, q.rest)
    requires r.gap1 == q.gap1 && |r.gap2| == |q.gap2|
    ensures r.gap2 == q.gap2 && r.rest == q.rest
  {
    var n := |r.gap1| + 2;
    assert s[n..] == r.gap2 + r.rest == q.gap2 + q.rest;
    assert (r.gap2 + r.rest)[..|r.gap2|] == r.gap2 && (q.gap2 + q.rest)[..|q.gap2|] == q.gap2;
    assert (r.gap2 + r.rest)[|r.gap2|..] == r.rest && (q.gap2 + q.rest)[|q.gap2|..] == q.rest;
  }

  lemma Positions(s: string, r: Reading, k: nat)
    requires r.Of(s) && 1 <= k && |r.body| >= k - 1
    ensures k < |s| && s[k] != '\n'
    ensures |r.body| == k - 1 ==> s[k] == '}' && TailOf(s[k + 1..], r.gap1, r.gap2, r.rest)
    ensures |r.body| == k - 1 ==> r.body == s[1..k]
  {
    var n := |r.body|;
    assert s == "{" + r.body + ("}" + r.gap1 + ">>" + r.gap2 + r.rest);
    assert s[1..n + 1] == r.body && s[n + 1] == '}';
    assert s[n + 2..] == r.gap1 + ">>" + r.gap2 + r.rest;
    if k < n + 1 {
      assert s[k] == r.body[k - 1];
    }
  }

  /** The scanner finds a reading whenever there is one, and it is the one a backtracking
      engine finds first. */
  lemma FindIsFirst(s: string)
    ensures Find(s).Some? ==> Find(s).value.Of(s)
    ensures forall r: Reading :: r.Of(s) ==> Find(s).Some? && (r == Find(s).value || Find(s).value.Before(r))
  {
    forall r: Reading | r.Of(s)
      ensures s != "" && s[0] == '{'
    {
    }
    if s != "" && s[0] == '{' {
      ScanIsFirst(s, 1);
    }
  }

  // ----- one violation -----

  datatype FoundViolation = FoundViolation(kind: string, name: string, namespace: string, message: string)
  datatype FoundConstraint = FoundConstraint(
    name: string, labels: map<string, string>, annotations: map<string, string>,
    auditTimestamp: string, violations: seq<FoundViolation>)
  datatype Listing<T> = Failed | Listed(items: seq<T>)
  datatype FoundTemplate = FoundTemplate(kind: string, constraints: Listing<FoundConstraint>)

  /** JSON decoding may leave a partial map behind when it fails. */
  datatype Decoded = Decoded(identity: Identity, ok: bool)
  type Decoder = string -> Decoded

  function Gathered(v: FoundViolation, decode: Decoder): Violation {
    var found := Find(v.message);
    if found.Some? && decode(found.value.Prefix()).ok then
      Violation(v.kind, v.name, v.namespace, found.value.rest, decode(found.value.Prefix()).identity, "")
    else Violation(v.kind, v.name, v.namespace, v.message, map[], "")
  }

  /** The reading that a backtracking engine finds first. */
  ghost predicate IsFirst(r: Reading, s: string) {
    r.Of(s) && forall q: Reading :: q.Of(s) ==> q == r || r.Before(q)
  }

  /** A message is changed exactly when it has a first reading whose prefix decodes: then the
      identity is the decoded prefix and the message the rest of that reading. Otherwise the
      message is left alone and no identity is taken from it. */
  lemma MessageIsAccountedFor(v: FoundViolation, decode: Decoder)
    ensures Gathered(v, decode).(message := "", objectIdentity := map[]) == Violation(v.kind, v.name, v.namespace, "", map[], "")
    ensures forall r: Reading :: IsFirst(r, v.message) ==>
      var g := Gathered(v, decode);
      if decode(r.Prefix()).ok then g.objectIdentity == decode(r.Prefix()).identity && g.message == r.rest && g.message != v.message
      else g.objectIdentity == map[] && g.message == v.message
    ensures (forall r: Reading :: !r.Of(v.message)) ==> Gathered(v, decode).objectIdentity == map[] && Gathered(v, decode).message == v.message
    ensures (exists r: Reading :: r.Of(v.message)) ==> exists r :: IsFirst(r, v.message)
  {
    hide Find;
    FindIsFirst(v.message);
    if Find(v.message).Some? {
      var first := Find(v.message).value;
      assert IsFirst(first, v.message);
      assert |first.rest| < |v.message|;
      forall r: Reading | IsFirst(r, v.message)
        ensures r == first
      {
      }
    }
  }

  function GatheredAll(vs: seq<FoundViolation>, decode: Decoder): (r: seq<Violation>)
    ensures |r| == |vs|
  {
    seq(|vs|, i requires 0 <= i < |vs| => Gathered(vs[i], decode))
  }

  function GatheredConstraint(c: FoundConstraint, decode: Decoder): Constraint {
    ReportForConstraint(
      c.name,
      Metadata(At(c.labels, "severity"), At(c.annotations, "template-source"),
        At(c.annotations, "constraint-source"), At(c.annotations, "docstring"), c.auditTimestamp),
      GatheredAll(c.violations, decode), [])
  }

  method GatherReportForConstraint(c: FoundConstraint, decode: Decoder) returns (rc: Constraint)
    ensures rc == GatheredConstraint(c, decode)
  {
    var metadata := Metadata(At(c.labels, "severity"), At(c.annotations, "template-source"),
      At(c.annotations, "constraint-source"), At(c.annotations, "docstring"), c.auditTimestamp);
    rc := ReportForConstraint(c.name, metadata, [], []);
    for i := 0 to |c.violations|
      invariant rc == ReportForConstraint(c.name, metadata, GatheredAll(c.violations, decode)[..i], [])
    {
      var v := c.violations[i];
      var processedMessage := v.message;
      var objectIdentity: Identity := map[];
      var found := Find(processedMessage);
      if found.Some? {
        var decoded := decode(found.value.Prefix());
        objectIdentity := decoded.identity;
        if decoded.ok {
          processedMessage := found.value.rest;
        } else {
          objectIdentity := map[];
        }
      }
      rc := rc.(violations := rc.violations +
        [Violation(v.kind, v.name, v.namespace, processedMessage, objectIdentity, "")]);
    }
  }

  // ----- leaving out what has no violations -----

  function GatheredConstraints(cs: seq<FoundConstraint>, decode: Decoder): seq<Constraint> {
    if cs == [] then [] else [GatheredConstraint(cs[0], decode)] + GatheredConstraints(cs[1..], decode)
  }

  function GatheredTemplates(ts: seq<FoundTemplate>, decode: Decoder): seq<Template> {
    if ts == [] then []
    else
      var constraints := if ts[0].constraints.Listed? then GatheredConstraints(ts[0].constraints.items, decode) else [];
      [ReportForTemplate(ts[0].kind, constraints)] + GatheredTemplates(ts[1..], decode)
  }

  function WithViolations(cs: seq<Constraint>): seq<Constraint> {
    if cs == [] then [] else (if cs[0].violations != [] then [cs[0]] else []) + WithViolations(cs[1..])
  }

  function WithConstraints(ts: seq<Template>): seq<Template> {
    if ts == [] then []
    else
      var t := ReportForTemplate(ts[0].kind, WithViolations(ts[0].constraints));
      (if t.constraints != [] then [t] else []) + WithConstraints(ts[1..])
  }

  function GatheredTemplate(t: FoundTemplate, decode: Decoder): Template
    requires t.constraints.Listed?
  {
    ReportForTemplate(t.kind, WithViolations(GatheredConstraints(t.constraints.items, decode)))
  }

  function Kept(ts: seq<FoundTemplate>, decode: Decoder): seq<Template> {
    WithConstraints(GatheredTemplates(ts, decode))
  }

  lemma {:induction false} NextFoundConstraint(cs: seq<FoundConstraint>, c: FoundConstraint, decode: Decoder)
    ensures WithViolations(GatheredConstraints(cs + [c], decode))
      == WithViolations(GatheredConstraints(cs, decode)) + if c.violations != [] then [GatheredConstraint(c, decode)] else []
  {
    hide GatheredConstraint;
    if cs == [] {
      assert [c][1..] == [] && GatheredConstraints([c], decode) == [GatheredConstraint(c, decode)];
      GatheredKeeps(c, decode);
    } else {
      assert (cs + [c])[0] == cs[0] && (cs + [c])[1..] == cs[1..] + [c];
      NextFoundConstraint(cs[1..], c, decode);
      var a, b := GatheredConstraints(cs[1..] + [c], decode), GatheredConstraints(cs[1..], decode);
      var first := GatheredConstraint(cs[0], decode);
      assert ([first] + a)[1..] == a && ([first] + b)[1..] == b;
    }
  }

  lemma GatheredKeeps(c: FoundConstraint, decode: Decoder)
    ensures |GatheredConstraint(c, decode).violations| == |c.violations|
  {
  }

  lemma {:induction false} GatherOneMore(ts: seq<FoundTemplate>, t: FoundTemplate, decode: Decoder)
    requires t.constraints.Listed?
    ensures GatheredTemplates(ts + [t], decode)
      == GatheredTemplates(ts, decode) + [ReportForTemplate(t.kind, GatheredConstraints(t.constraints.items, decode))]
  {
    hide GatheredConstraints;
    if ts == [] {
      assert [t][1..] == [];
    } else {
      assert (ts + [t])[0] == ts[0] && (ts + [t])[1..] == ts[1..] + [t];
      GatherOneMore(ts[1..], t, decode);
    }
  }

  lemma {:induction false} KeepOneMore(ts: seq<Template>, t: Template)
    ensures
      var kept := ReportForTemplate(t.kind, WithViolations(t.constraints));
      WithConstraints(ts + [t]) == WithConstraints(ts) + if kept.constraints != [] then [kept] else []
  {
    hide WithViolations;
    if ts == [] {
      assert [t][1..] == [] && ts + [t] == [t];
    } else {
      assert (ts + [t])[0] == ts[0] && (ts + [t])[1..] == ts[1..] + [t];
      KeepOneMore(ts[1..], t);
    }
  }

  lemma NextFoundTemplate(ts: seq<FoundTemplate>, t: FoundTemplate, decode: Decoder)
    requires t.constraints.Listed?
    ensures
      var rt := GatheredTemplate(t, decode);
      Kept(ts + [t], decode) == Kept(ts, decode) + if rt.constraints != [] then [rt] else []
  {
    hide GatheredConstraints, GatheredTemplates, WithConstraints, WithViolations;
    GatherOneMore(ts, t, decode);
    KeepOneMore(GatheredTemplates(ts, decode), ReportForTemplate(t.kind, GatheredConstraints(t.constraints.items, decode)));
  }

  method GatherReportForTemplate(t: FoundTemplate, decode: Decoder) returns (rt: Template, failed: bool)
    ensures failed <==> t.constraints.Failed?
    ensures !failed ==> rt == GatheredTemplate(t, decode)
  {
    rt := ReportForTemplate(t.kind, []);
    if t.constraints.Failed? {
      return rt, true;
    }
    failed := false;
    var cs := t.constraints.items;
    for i := 0 to |cs|
      invariant rt == ReportForTemplate(t.kind, WithViolations(GatheredConstraints(cs[..i], decode)))
    {
      var rc := GatherReportForConstraint(cs[i], decode);
      NextFoundConstraint(cs[..i], cs[i], decode);
      assert cs[..i + 1] == cs[..i] + [cs[i]];
      if |rc.violations| > 0 {
        rt := rt.(constraints := rt.constraints + [rc]);
      }
    }
    assert cs[..|cs|] == cs;
  }

  lemma NothingKept(ts: seq<FoundTemplate>, decode: Decoder)
    requires ts == []
    ensures Kept(ts, decode) == []
  {
  }

  /** The loop over the templates. */
  method GatherTemplates(ts: seq<FoundTemplate>, decode: Decoder) returns (kept: seq<Template>, failed: bool)
    ensures failed <==> exists i :: 0 <= i < |ts| && ts[i].constraints.Failed?
    ensures !failed ==> kept == Kept(ts, decode)
  {
    hide Kept, GatheredTemplate;
    kept := [];
    NothingKept(ts[..0], decode);
    for i := 0 to |ts|
      invariant forall j :: 0 <= j < i ==> ts[j].constraints.Listed?
      invariant kept == Kept(ts[..i], decode)
    {
      var rt;
      rt, failed := GatherReportForTemplate(ts[i], decode);
      if failed {
        return;
      }
      NextFoundTemplate(ts[..i], ts[i], decode);
      assert ts[..i + 1] == ts[..i] + [ts[i]];
      if |rt.constraints| > 0 {
        kept := kept + [rt];
      }
    }
    assert ts[..|ts|] == ts;
    failed := false;
  }

  // ----- what the report says about what was found -----

  datatype FoundAt = FoundAt(kind: string, constraint: FoundConstraint)
  datatype ReportedAt = ReportedAt(kind: string, constraint: Constraint)

  /** The constraints with violations, under the kinds of their templates. */
  function FoundIn(kind: string, cs: seq<FoundConstraint>): seq<FoundAt> {
    if cs == [] then [] else (if cs[0].violations != [] then [FoundAt(kind, cs[0])] else []) + FoundIn(kind, cs[1..])
  }

  function FoundInAll(ts: seq<FoundTemplate>): seq<FoundAt> {
    if ts == [] then []
    else (if ts[0].constraints.Listed? then FoundIn(ts[0].kind, ts[0].constraints.items) else []) + FoundInAll(ts[1..])
  }

  function ReportedIn(kind: string, cs: seq<Constraint>): seq<ReportedAt> {
    if cs == [] then [] else [ReportedAt(kind, cs[0])] + ReportedIn(kind, cs[1..])
  }

  function ReportedInAll(ts: seq<Template>): seq<ReportedAt> {
    if ts == [] then [] else ReportedIn(ts[0].kind, ts[0].constraints) + ReportedInAll(ts[1..])
  }

  /** A field that is read from a label or an annotation. */
  ghost predicate ReadFrom(value: string, m: map<string, string>, key: string) {
    value == if key in m then m[key] else ""
  }

  ghost predicate Tells(rc: Constraint, c: FoundConstraint, decode: Decoder) {
    && rc.name == c.name && rc.groups == []
    && ReadFrom(rc.metadata.severity, c.labels, "severity")
    && ReadFrom(rc.metadata.templateSource, c.annotations, "template-source")
    && ReadFrom(rc.metadata.constraintSource, c.annotations, "constraint-source")
    && ReadFrom(rc.metadata.docstring, c.annotations, "docstring")
    && rc.metadata.auditTimestamp == c.auditTimestamp
    && |rc.violations| == |c.violations|
    && forall k :: 0 <= k < |c.violations| ==> TellsViolation(rc.violations[k], c.violations[k], decode)
  }

  ghost predicate TellsViolation(r: Violation, v: FoundViolation, decode: Decoder) {
    && r.kind == v.kind && r.name == v.name && r.namespace == v.namespace && r.clusterName == ""
    && (forall first: Reading :: IsFirst(first, v.message) && decode(first.Prefix()).ok ==>
      r.objectIdentity == decode(first.Prefix()).identity && r.message == first.rest)
    && ((forall first: Reading :: IsFirst(first, v.message) ==> !decode(first.Prefix()).ok) ==>
      r.objectIdentity == map[] && r.message == v.message)
  }

  ghost predicate TellsAll(reported: seq<ReportedAt>, found: seq<FoundAt>, decode: Decoder) {
    && |reported| == |found|
    && forall i :: 0 <= i < |found| ==>
      reported[i].kind == found[i].kind && Tells(reported[i].constraint, found[i].constraint, decode)
  }

  lemma ViolationIsTold(v: FoundViolation, decode: Decoder)
    ensures TellsViolation(Gathered(v, decode), v, decode)
  {
    hide Gathered, IsFirst;
    MessageIsAccountedFor(v, decode);
    var g := Gathered(v, decode);
    assert g.(message := "", objectIdentity := map[]) == Violation(v.kind, v.name, v.namespace, "", map[], "");
    if forall first: Reading :: IsFirst(first, v.message) ==> !decode(first.Prefix()).ok {
      if first: Reading :| IsFirst(first, v.message) {
        assert g.objectIdentity == map[];
      }
    }
  }

  lemma ConstraintIsTold(c: FoundConstraint, decode: Decoder)
    ensures Tells(GatheredConstraint(c, decode), c, decode)
  {
    hide Gathered, TellsViolation;
    forall k | 0 <= k < |c.violations|
      ensures TellsViolation(GatheredConstraint(c, decode).violations[k], c.violations[k], decode)
    {
      ViolationIsTold(c.violations[k], decode);
    }
  }

  lemma {:induction false} ConstraintsAreTold(kind: string, cs: seq<FoundConstraint>, decode: Decoder)
    ensures TellsAll(ReportedIn(kind, WithViolations(GatheredConstraints(cs, decode))), FoundIn(kind, cs), decode)
  {
    hide Tells, GatheredConstraint;
    if cs != [] {
      ConstraintsAreTold(kind, cs[1..], decode);
      ConstraintIsTold(cs[0], decode);
      GatheredKeeps(cs[0], decode);
      var c, rest := GatheredConstraint(cs[0], decode), WithViolations(GatheredConstraints(cs[1..], decode));
      assert ([c] + GatheredConstraints(cs[1..], decode))[1..] == GatheredConstraints(cs[1..], decode);
      assert ([c] + rest)[1..] == rest && [] + rest == rest;
    }
  }

  /** Nothing is left out but constraints without violations, and nothing changes place. */
  lemma {:induction false} TemplatesAreTold(ts: seq<FoundTemplate>, decode: Decoder)
    ensures TellsAll(ReportedInAll(Kept(ts, decode)), FoundInAll(ts), decode)
  {
    hide TellsAll, WithViolations, GatheredConstraints, FoundIn, ReportedIn;
    if ts == [] {
      NothingTold(decode);
    } else {
      var found := if ts[0].constraints.Listed? then ts[0].constraints.items else [];
      var cs := WithViolations(GatheredConstraints(found, decode));
      NothingTold(decode);
      TemplatesAreTold(ts[1..], decode);
      ConstraintsAreTold(ts[0].kind, found, decode);
      FirstKept(ts, decode);
      TogetherTold(ReportedIn(ts[0].kind, cs), FoundIn(ts[0].kind, found), ReportedInAll(Kept(ts[1..], decode)), FoundInAll(ts[1..]), decode);
    }
  }

  lemma FirstKept(ts: seq<FoundTemplate>, decode: Decoder)
    requires ts != []
    ensures
      var found := if ts[0].constraints.Listed? then ts[0].constraints.items else [];
      var cs := WithViolations(GatheredConstraints(found, decode));
      ReportedInAll(Kept(ts, decode)) == ReportedIn(ts[0].kind, cs) + ReportedInAll(Kept(ts[1..], decode))
  {
    NothingTold(decode);
    hide WithViolations, GatheredConstraints, ReportedIn;
    var found := if ts[0].constraints.Listed? then ts[0].constraints.items else [];
    var all := if ts[0].constraints.Listed? then GatheredConstraints(found, decode) else [];
    var t, rest := ReportForTemplate(ts[0].kind, WithViolations(all)), Kept(ts[1..], decode);
    var gathered := [ReportForTemplate(ts[0].kind, all)] + GatheredTemplates(ts[1..], decode);
    assert gathered[1..] == GatheredTemplates(ts[1..], decode);
    assert ([t] + rest)[1..] == rest && [] + rest == rest;
    assert Kept(ts, decode) == (if t.constraints != [] then [t] else []) + rest;
    assert [] + ReportedInAll(rest) == ReportedInAll(rest);
  }

  lemma NothingTold(decode: Decoder)
    ensures TellsAll([], [], decode)
    ensures forall kind :: ReportedIn(kind, []) == [] && FoundIn(kind, []) == []
    ensures GatheredConstraints([], decode) == [] && WithViolations([]) == []
  {
  }

  lemma TogetherTold(r1: seq<ReportedAt>, f1: seq<FoundAt>, r2: seq<ReportedAt>, f2: seq<FoundAt>, decode: Decoder)
    requires TellsAll(r1, f1, decode) && TellsAll(r2, f2, decode)
    ensures TellsAll(r1 + r2, f1 + f2, decode)
  {
    hide Tells;
  }

  method GatherReport(clusterIdentity: Identity, templates: Listing<FoundTemplate>, decode: Decoder)
    returns (r: ClusterReport, failed: bool)
    ensures failed <==> templates.Failed? || exists i :: 0 <= i < |templates.items| && templates.items[i].constraints.Failed?
    ensures !failed ==> r == Report(clusterIdentity, Kept(templates.items, decode))
    ensures !failed ==> TellsAll(ReportedInAll(r.templates), FoundInAll(templates.items), decode)
  {
    hide Kept, TellsAll, ReportedInAll, FoundInAll;
    r := Report(clusterIdentity, []);
    if templates.Failed? {
      return r, true;
    }
    var kept;
    kept, failed := GatherTemplates(templates.items, decode);
    TemplatesAreTold(templates.items, decode);
    r := r.(templates := kept);
  }

  lemma {:induction false} NoConstraintFindingsLost(cfg: Configuration, cluster: string, kind: string, cs: seq<Constraint>)
    ensures ConstraintsFindings(cfg, cluster, kind, WithViolations(cs)) == ConstraintsFindings(cfg, cluster, kind, cs)
    ensures forall c :: c in WithViolations(cs) ==> c.violations != []
  {
    if cs != [] {
      NoConstraintFindingsLost(cfg, cluster, kind, cs[1..]);
      var rest := WithViolations(cs[1..]);
      assert ([cs[0]] + rest)[1..] == rest && [] + rest == rest;
    }
  }

  /** What is left out has no findings, so the whole pipeline sees the same findings with
      and without it; what is left in has some. */
  lemma {:induction false} NoFindingsLost(cfg: Configuration, cluster: string, ts: seq<Template>)
    ensures TemplatesFindings(cfg, cluster, WithConstraints(ts)) == TemplatesFindings(cfg, cluster, ts)
    ensures forall t :: t in WithConstraints(ts) ==> t.constraints != [] && forall c :: c in t.constraints ==> c.violations != []
  {
    hide ConstraintsFindings, WithViolations;
    if ts != [] {
      NoFindingsLost(cfg, cluster, ts[1..]);
      NoConstraintFindingsLost(cfg, cluster, ts[0].kind, ts[0].constraints);
      var t, rest := ReportForTemplate(ts[0].kind, WithViolations(ts[0].constraints)), WithConstraints(ts[1..]);
      assert ([t] + rest)[1..] == rest && [] + rest == rest;
      NothingFound(cfg, cluster, ts[0].kind);
    }
  }

  lemma NothingFound(cfg: Configuration, cluster: string, kind: string)
    ensures ConstraintsFindings(cfg, cluster, kind, []) == []
  {
  }

  lemma {:induction false} GatheredHaveNoGroups(cs: seq<FoundConstraint>, decode: Decoder)
    ensures forall c :: c in GatheredConstraints(cs, decode) ==> c.groups == []
  {
    if cs != [] {
      GatheredHaveNoGroups(cs[1..], decode);
    }
  }

  lemma {:induction false} KeptAreGathered(cs: seq<Constraint>)
    ensures forall c :: c in WithViolations(cs) ==> c in cs
  {
    if cs != [] {
      KeptAreGathered(cs[1..]);
    }
  }

  /** Gathered reports are as ProcessReport expects them. */
  lemma {:induction false} GatheredIsUnprocessed(clusterIdentity: Identity, ts: seq<FoundTemplate>, decode: Decoder)
    ensures Unprocessed(Report(clusterIdentity, Kept(ts, decode)))
  {
    hide WithViolations, GatheredConstraints;
    if ts != [] {
      GatheredIsUnprocessed(clusterIdentity, ts[1..], decode);
      var found := if ts[0].constraints.Listed? then ts[0].constraints.items else [];
      var cs := if ts[0].constraints.Listed? then GatheredConstraints(found, decode) else [];
      GatheredHaveNoGroups(found, decode);
      KeptAreGathered(cs);
      var gathered := [ReportForTemplate(ts[0].kind, cs)] + GatheredTemplates(ts[1..], decode);
      assert gathered[0].constraints == cs && gathered[1..] == GatheredTemplates(ts[1..], decode);
    }
  }
}
