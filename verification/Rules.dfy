/** The rule engine: Rule.execute and ExecuteRulesOnViolation on a scratch map of attributes. */
module Rules {
  import opened Doop
  import opened Placeholders

  /** A Go map of strings, shared by reference. */
  class StringMap {
    var m: map<string, string>

    constructor (m: map<string, string>)
      ensures this.m == m
    {
      this.m := m;
    }
  }

  datatype Submatch = NoMatch | Match(captures: seq<string>)

  /** Regexes are arbitrary functions: matching decides, submatching captures. */
  datatype Rule = Rule(
    conditions: map<string, string -> bool>, source: string, pattern: string -> Submatch, target: map<string, string>)

  type Attributes = map<string, string>

  // ----- one rule -----

  predicate Holds(r: Rule, data: Attributes, fieldName: string)
    requires fieldName in r.conditions
  {
    fieldName in data && r.conditions[fieldName](data[fieldName])
  }

  predicate Applies(r: Rule, data: Attributes) {
    && (forall fieldName :: fieldName in r.conditions ==> Holds(r, data, fieldName))
    && r.source in data
    && r.pattern(data[r.source]).Match?
  }

  /** One simultaneous assignment, from captures taken before anything is written. */
  function Apply(r: Rule, data: Attributes): Attributes {
    if Applies(r, data) then
      data + Replacements(r.target, r.pattern(data[r.source]).captures)
    else data
  }

  /** The conditions are a Go map, so they are checked in any order, up to the first that fails. */
  method CheckConditions(r: Rule, data: StringMap) returns (ok: bool)
    ensures ok <==> forall fieldName :: fieldName in r.conditions ==> Holds(r, data.m, fieldName)
  {
    var todo := r.conditions.Keys;
    while todo != {}
      invariant todo <= r.conditions.Keys
      invariant forall fieldName :: fieldName in r.conditions.Keys - todo ==> Holds(r, data.m, fieldName)
      decreases |todo|
    {
      var fieldName :| fieldName in todo;
      if fieldName !in data.m || !r.conditions[fieldName](data.m[fieldName]) {
        assert !Holds(r, data.m, fieldName);
        return false;
      }
      todo := todo - {fieldName};
    }
    return true;
  }

  function Replacements(target: map<string, string>, captures: seq<string>): Attributes {
    map fieldName | fieldName in target :: Expand(target[fieldName], captures)
  }

  ghost function WrittenSoFar(start: Attributes, all: Attributes, todo: set<string>): Attributes {
    start + (all - todo)
  }

  lemma WriteOne(start: Attributes, all: Attributes, todo: set<string>, x: string)
    requires x in all && x in todo
    ensures WrittenSoFar(start, all, todo - {x}) == WrittenSoFar(start, all, todo)[x := all[x]]
  {
  }

  lemma WriteNoneOrAll(start: Attributes, all: Attributes)
    ensures WrittenSoFar(start, all, all.Keys) == start
    ensures WrittenSoFar(start, all, {}) == start + all
  {
    assert all - all.Keys == map[];
    assert all - {} == all;
  }

  /** The targets are a Go map, so they are written in any order. */
  method ReplaceTargets(target: map<string, string>, captures: seq<string>, data: StringMap)
    modifies data
    ensures data.m == old(data.m) + Replacements(target, captures)
  {
    hide Expand, WrittenSoFar;
    ghost var start, all := data.m, Replacements(target, captures);
    var todo := target.Keys;
    WriteNoneOrAll(start, all);
    assert all.Keys == todo;
    while todo != {}
      invariant todo <= target.Keys
      invariant data.m == WrittenSoFar(start, all, todo)
      decreases |todo|
    {
      var fieldName :| fieldName in todo;
      WriteOne(start, all, todo, fieldName);
      todo := todo - {fieldName};
      data.m := data.m[fieldName := Expand(target[fieldName], captures)];
    }
  }

  /** A rule changes nothing if a field of its match section is missing or does not match, if
      its source is missing, or if its pattern does not match. Otherwise exactly the targets
      are written, each from its own template with the captures of the source as it was. */
  ghost predicate IsStep(r: Rule, before: Attributes, after: Attributes) {
    if (exists field :: field in r.conditions && (field !in before || !r.conditions[field](before[field])))
      || r.source !in before || r.pattern(before[r.source]).NoMatch? then after == before
    else
      && after.Keys == before.Keys + r.target.Keys
      && (forall field :: field in r.target ==> after[field] == Expand(r.target[field], r.pattern(before[r.source]).captures))
      && (forall field :: field in before && field !in r.target ==> after[field] == before[field])
  }

  lemma ApplyIsStep(r: Rule, data: Attributes)
    ensures IsStep(r, data, Apply(r, data))
  {
    hide Expand;
    if field :| field in r.conditions && (field !in data || !r.conditions[field](data[field])) {
      assert !Holds(r, data, field);
    }
  }

  method Execute(r: Rule, data: StringMap)
    modifies data
    ensures data.m == Apply(r, old(data.m))
    ensures IsStep(r, old(data.m), data.m)
  {
    hide Expand, IsStep;
    ApplyIsStep(r, data.m);
    var ok := CheckConditions(r, data);
    if !ok {
      return;
    }
    if r.source !in data.m {
      return;
    }
    var submatch := r.pattern(data.m[r.source]);
    if submatch.NoMatch? {
      return;
    }
    ReplaceTargets(r.target, submatch.captures, data);
  }

  // ----- a list of rules -----

  function ApplyAll(rules: seq<Rule>, data: Attributes): Attributes
    decreases |rules|
  {
    if rules == [] then data else ApplyAll(rules[1..], Apply(rules[0], data))
  }

  lemma {:induction false} ApplyAllAppend(a: seq<Rule>, b: seq<Rule>, data: Attributes)
    ensures ApplyAll(a + b, data) == ApplyAll(b, ApplyAll(a, data))
    decreases |a|
  {
    if a == [] {
      assert a + b == b;
    } else {
      assert (a + b)[0] == a[0] && (a + b)[1..] == a[1..] + b;
      ApplyAllAppend(a[1..], b, Apply(a[0], data));
    }
  }

  /** Attributes are never removed, and one that no rule targets keeps its value. */
  lemma {:induction false} ApplyAllTouchesTargets(rules: seq<Rule>, data: Attributes, name: string)
    ensures data.Keys <= ApplyAll(rules, data).Keys
    ensures (forall i :: 0 <= i < |rules| ==> name !in rules[i].target) ==>
      (name in ApplyAll(rules, data) <==> name in data) && At(ApplyAll(rules, data), name) == At(data, name)
    decreases |rules|
  {
    if rules != [] {
      ApplyAllTouchesTargets(rules[1..], Apply(rules[0], data), name);
    }
  }

  // ----- violations as attributes -----

  function Fields(v: Violation): Attributes {
    map["kind" := v.kind, "name" := v.name, "namespace" := v.namespace, "message" := v.message]
  }

  /** The attribute that stands for a key of the object identity. */
  function IdentityAttribute(key: string): string {
    "object_identity." + key
  }

  lemma AttributesAreDistinct()
    ensures forall a, b :: IdentityAttribute(a) == IdentityAttribute(b) ==> a == b
    ensures forall a :: IdentityAttribute(a) !in {"kind", "name", "namespace", "message"}
  {
    forall a, b | IdentityAttribute(a) == IdentityAttribute(b)
      ensures a == b
    {
      assert IdentityAttribute(a)[16..] == a && IdentityAttribute(b)[16..] == b;
    }
    forall a
      ensures IdentityAttribute(a) !in {"kind", "name", "namespace", "message"}
    {
      assert IdentityAttribute(a)[0] == 'o';
      assert "kind"[0] == 'k' && "name"[0] == 'n' && "namespace"[0] == 'n' && "message"[0] == 'm';
    }
  }

  function IdentityAttributes(identity: Identity): Attributes {
    AttributesAreDistinct();
    map key | key in identity :: IdentityAttribute(key) := identity[key]
  }

  function Encode(v: Violation): Attributes {
    Fields(v) + IdentityAttributes(v.objectIdentity)
  }

  function Decode(data: Attributes, v: Violation): Violation {
    Violation(At(data, "kind"), At(data, "name"), At(data, "namespace"), At(data, "message"),
      map key | key in v.objectIdentity :: At(data, IdentityAttribute(key)), v.clusterName)
  }

  function ExecuteRules(rules: seq<Rule>, v: Violation): Violation {
    Decode(ApplyAll(rules, Encode(v)), v)
  }

  lemma EncodeAt(v: Violation, key: string)
    requires key in v.objectIdentity
    ensures IdentityAttribute(key) in Encode(v) && Encode(v)[IdentityAttribute(key)] == v.objectIdentity[key]
  {
    hide IdentityAttribute;
    AttributesAreDistinct();
    assert IdentityAttribute(key) in IdentityAttributes(v.objectIdentity);
  }

  lemma EncodeFields(v: Violation)
    ensures var data := Encode(v);
      && "kind" in data && data["kind"] == v.kind
      && "name" in data && data["name"] == v.name
      && "namespace" in data && data["namespace"] == v.namespace
      && "message" in data && data["message"] == v.message
  {
    hide IdentityAttribute;
    AttributesAreDistinct();
    FieldNamesDiffer();
    var ids := IdentityAttributes(v.objectIdentity);
    assert "kind" !in ids && "name" !in ids && "namespace" !in ids && "message" !in ids;
  }

  lemma FieldNamesDiffer()
    ensures "kind" != "name" && "kind" != "namespace" && "kind" != "message"
    ensures "name" != "namespace" && "name" != "message" && "namespace" != "message"
  {
    assert "kind"[0] != "name"[0] && "kind"[0] != "message"[0] && "kind"[0] != "namespace"[0];
    assert |"name"| != |"namespace"| && "name"[0] != "message"[0] && "namespace"[0] != "message"[0];
  }

  /** The encoding into attributes can be read back, also after rules that change nothing. */
  lemma DecodeEncode(v: Violation)
    ensures Decode(Encode(v), v) == v
  {
    hide Encode, IdentityAttribute;
    EncodeFields(v);
    forall key | key in v.objectIdentity
      ensures At(Encode(v), IdentityAttribute(key)) == v.objectIdentity[key]
    {
      EncodeAt(v, key);
    }
    assert Decode(Encode(v), v).objectIdentity == v.objectIdentity;
  }

  /** Rules rewrite values only: the identity has the same keys afterwards, whatever
      attributes the rules create, and the cluster name is out of their reach. */
  lemma RulesKeepShape(rules: seq<Rule>, v: Violation)
    ensures ExecuteRules(rules, v).objectIdentity.Keys == v.objectIdentity.Keys
    ensures ExecuteRules(rules, v).clusterName == v.clusterName
  {
  }

  /** A field or identity value that no rule targets is kept. */
  lemma UntargetedFieldsAreKept(rules: seq<Rule>, v: Violation)
    ensures var w := ExecuteRules(rules, v);
      && (Untargeted(rules, "kind") ==> w.kind == v.kind)
      && (Untargeted(rules, "name") ==> w.name == v.name)
      && (Untargeted(rules, "namespace") ==> w.namespace == v.namespace)
      && (Untargeted(rules, "message") ==> w.message == v.message)
      && (forall key :: key in v.objectIdentity && Untargeted(rules, IdentityAttribute(key)) ==>
        w.objectIdentity[key] == v.objectIdentity[key])
  {
    hide Encode, IdentityAttribute, ApplyAll;
    var data := Encode(v);
    EncodeFields(v);
    ApplyAllTouchesTargets(rules, data, "kind");
    ApplyAllTouchesTargets(rules, data, "name");
    ApplyAllTouchesTargets(rules, data, "namespace");
    ApplyAllTouchesTargets(rules, data, "message");
    forall key | key in v.objectIdentity && Untargeted(rules, IdentityAttribute(key))
      ensures ExecuteRules(rules, v).objectIdentity[key] == v.objectIdentity[key]
    {
      EncodeAt(v, key);
      ApplyAllTouchesTargets(rules, data, IdentityAttribute(key));
    }
  }

  predicate Untargeted(rules: seq<Rule>, name: string) {
    forall i :: 0 <= i < |rules| ==> name !in rules[i].target
  }

  // ----- violations in memory -----

  /** A violation whose identity is a map in memory; a nil map reads as the empty map. */
  datatype StoredViolation = StoredViolation(
    kind: string, name: string, namespace: string, message: string,
    objectIdentity: StringMap?, clusterName: string)

  function IdentityOf(o: StringMap?): Identity
    reads o
  {
    if o == null then map[] else o.m
  }

  function Loaded(v: StoredViolation): Violation
    reads v.objectIdentity
  {
    Violation(v.kind, v.name, v.namespace, v.message, IdentityOf(v.objectIdentity), v.clusterName)
  }

  ghost function EncodedSoFar(fields: Attributes, identity: Identity, todo: set<string>): Attributes {
    fields + IdentityAttributes(identity - todo)
  }

  lemma AttributesWithOne(identity: Identity, todo: set<string>, x: string)
    requires x in identity && x in todo
    ensures IdentityAttributes(identity - (todo - {x})) == IdentityAttributes(identity - todo)[IdentityAttribute(x) := identity[x]]
  {
    hide IdentityAttribute;
    AttributesAreDistinct();
  }

  lemma EncodeOne(fields: Attributes, identity: Identity, todo: set<string>, x: string)
    requires x in identity && x in todo
    ensures EncodedSoFar(fields, identity, todo - {x})
      == EncodedSoFar(fields, identity, todo)[IdentityAttribute(x) := identity[x]]
  {
    hide IdentityAttribute, IdentityAttributes;
    AttributesWithOne(identity, todo, x);
  }

  lemma EncodeNoneOrAll(v: Violation)
    ensures EncodedSoFar(Fields(v), v.objectIdentity, v.objectIdentity.Keys) == Fields(v)
    ensures EncodedSoFar(Fields(v), v.objectIdentity, {}) == Encode(v)
  {
    hide Fields, IdentityAttribute;
    assert v.objectIdentity - v.objectIdentity.Keys == map[];
    assert v.objectIdentity - {} == v.objectIdentity;
  }

  method EncodeViolation(v: StoredViolation) returns (data: StringMap)
    ensures fresh(data) && data.m == Encode(Loaded(v))
  {
    hide Encode, EncodedSoFar, IdentityAttribute, Fields;
    ghost var w := Loaded(v);
    data := new StringMap(Fields(Loaded(v)));
    var identity := IdentityOf(v.objectIdentity);
    var todo := identity.Keys;
    EncodeNoneOrAll(w);
    while todo != {}
      invariant todo <= identity.Keys
      invariant data.m == EncodedSoFar(Fields(w), identity, todo)
      decreases |todo|
    {
      var key :| key in todo;
      EncodeOne(Fields(w), identity, todo, key);
      todo := todo - {key};
      data.m := data.m[IdentityAttribute(key) := identity[key]];
    }
  }

  method ExecuteAll(rules: seq<Rule>, data: StringMap)
    modifies data
    ensures data.m == ApplyAll(rules, old(data.m))
  {
    hide Apply;
    ghost var start := data.m;
    for i := 0 to |rules|
      invariant data.m == ApplyAll(rules[..i], start)
    {
      assert rules[..i + 1] == rules[..i] + [rules[i]];
      ApplyAllAppend(rules[..i], [rules[i]], start);
      assert [rules[i]][1..] == [];
      Execute(rules[i], data);
    }
    assert rules[..|rules|] == rules;
  }

  /** Works on a violation through a pointer: the fields are returned, the identity map is
      rewritten where it is. */
  method ExecuteRulesOnViolation(rules: seq<Rule>, v: StoredViolation) returns (r: StoredViolation)
    modifies v.objectIdentity
    ensures r.objectIdentity == v.objectIdentity
    ensures Loaded(r) == ExecuteRules(rules, old(Loaded(v)))
    ensures |rules| == 1 ==> IsOneRule(rules[0], old(Loaded(v)), Loaded(r))
    ensures exists states :: IsRun(rules, old(Loaded(v)), Loaded(r), states)
  {
    ghost var states := RulesRun(rules, Loaded(v));
    if |rules| == 1 {
      assert rules == [rules[0]];
      OneRule(rules[0], Loaded(v));
    }
    hide Encode, ApplyAll, IsOneRule, IsRun;
    ghost var w := Loaded(v);
    var data := EncodeViolation(v);
    EncodeFields(w);
    ApplyAllTouchesTargets(rules, Encode(w), "");
    ExecuteAll(rules, data);
    r := v.(kind := data.m["kind"], name := data.m["name"], namespace := data.m["namespace"], message := data.m["message"]);
    WriteBackIdentity(v.objectIdentity, data, w);
  }

  ghost function WrittenBack(identity: Identity, data: Attributes, todo: set<string>): Identity {
    map key | key in identity :: if key in todo then identity[key] else At(data, IdentityAttribute(key))
  }

  lemma WriteBackOne(identity: Identity, data: Attributes, todo: set<string>, x: string)
    requires x in identity && x in todo
    ensures WrittenBack(identity, data, todo - {x})
      == WrittenBack(identity, data, todo)[x := At(data, IdentityAttribute(x))]
  {
    hide IdentityAttribute;
  }

  method WriteBackIdentity(identity: StringMap?, data: StringMap, ghost w: Violation)
    requires identity != data && IdentityOf(identity) == w.objectIdentity && Encode(w).Keys <= data.m.Keys
    modifies identity
    ensures IdentityOf(identity) == Decode(data.m, w).objectIdentity
  {
    hide Encode, IdentityAttribute;
    if identity == null {
      return;
    }
    var todo := identity.m.Keys;
    while todo != {}
      invariant todo <= w.objectIdentity.Keys
      invariant identity.m == WrittenBack(w.objectIdentity, data.m, todo)
      decreases |todo|
    {
      var key :| key in todo;
      WriteBackOne(w.objectIdentity, data.m, todo, key);
      EncodeAt(w, key);
      todo := todo - {key};
      identity.m := identity.m[key := data.m[IdentityAttribute(key)]];
    }
  }

  /** Cloned: a copy whose identity map is its own. */
  method Cloned(v: StoredViolation) returns (r: StoredViolation)
    ensures Loaded(r) == Loaded(v)
    ensures r.objectIdentity == null <==> v.objectIdentity == null
    ensures r.objectIdentity != null ==> fresh(r.objectIdentity)
  {
    r := v;
    if v.objectIdentity != null {
      var copy := new StringMap(v.objectIdentity.m);
      r := v.(objectIdentity := copy);
    }
  }

  // ----- a single rule, in terms of the violation -----

  /** The attributes of a violation, as rules name them. */
  ghost predicate HasAttribute(v: Violation, name: string, value: string) {
    || (name == "kind" && value == v.kind)
    || (name == "name" && value == v.name)
    || (name == "namespace" && value == v.namespace)
    || (name == "message" && value == v.message)
    || (exists key :: key in v.objectIdentity && name == "object_identity." + key && value == v.objectIdentity[key])
  }

  lemma {:induction false} EncodedAttributes(v: Violation, name: string, value: string)
    ensures HasAttribute(v, name, value) <==> name in Encode(v) && Encode(v)[name] == value
  {
    hide Encode, IdentityAttribute;
    AttributesAreDistinct();
    FieldNamesDiffer();
    EncodeFields(v);
    forall key | key in v.objectIdentity
      ensures IdentityAttribute(key) == "object_identity." + key
      ensures IdentityAttribute(key) in Encode(v) && Encode(v)[IdentityAttribute(key)] == v.objectIdentity[key]
    {
      AttributeIs(key);
      EncodeAt(v, key);
    }
    if name in Encode(v) {
      EncodedNames(v, name);
    }
  }

  lemma AttributeIs(key: string)
    ensures IdentityAttribute(key) == "object_identity." + key
  {
  }

  lemma EncodedNames(v: Violation, name: string)
    requires name in Encode(v)
    ensures name in {"kind", "name", "namespace", "message"}
      || exists key :: key in v.objectIdentity && name == IdentityAttribute(key)
  {
    hide IdentityAttribute;
  }

  /** Some field of the match section is missing or does not match, or there is nothing to capture. */
  ghost predicate Blocked(r: Rule, v: Violation) {
    || (exists field :: field in r.conditions && forall value :: HasAttribute(v, field, value) ==> !r.conditions[field](value))
    || (forall value :: HasAttribute(v, r.source, value) ==> r.pattern(value).NoMatch?)
  }

  /** w is v after one rule: the same if the rule is blocked, and otherwise with every
      attribute that is a target replaced from its template and all others kept. */
  ghost predicate IsOneRule(r: Rule, v: Violation, w: Violation) {
    && (Blocked(r, v) ==> w == v)
    && (!Blocked(r, v) ==>
      && w.objectIdentity.Keys == v.objectIdentity.Keys && w.clusterName == v.clusterName
      && forall source :: HasAttribute(v, r.source, source) && r.pattern(source).Match? ==>
        forall name, value :: HasAttribute(v, name, value) ==>
          HasAttribute(w, name, if name in r.target then Expand(r.target[name], r.pattern(source).captures) else value))
  }

  lemma BlockedExactly(r: Rule, v: Violation)
    ensures Blocked(r, v) <==> !Applies(r, Encode(v))
  {
    hide Encode, HasAttribute;
    var data := Encode(v);
    forall name, value
      ensures HasAttribute(v, name, value) <==> name in data && data[name] == value
    {
      EncodedAttributes(v, name, value);
    }
    if Applies(r, data) {
      assert HasAttribute(v, r.source, data[r.source]);
      forall field | field in r.conditions
        ensures HasAttribute(v, field, data[field]) && r.conditions[field](data[field])
      {
        assert Holds(r, data, field);
      }
    } else if field :| field in r.conditions && !Holds(r, data, field) {
      assert forall value :: HasAttribute(v, field, value) ==> !r.conditions[field](value);
    }
  }

  /** An attribute of the violation is read back from the attributes after the rule. */
  lemma DecodedAttributes(data: Attributes, v: Violation, name: string, value: string)
    requires HasAttribute(v, name, value) && name in data
    ensures HasAttribute(Decode(data, v), name, data[name])
  {
    hide IdentityAttribute;
    FieldNamesDiffer();
    var w := Decode(data, v);
    if key :| key in v.objectIdentity && name == "object_identity." + key {
      AttributeIs(key);
      assert w.objectIdentity[key] == data[name];
    }
  }

  lemma ExecuteSingle(r: Rule, v: Violation)
    ensures ExecuteRules([r], v) == Decode(Apply(r, Encode(v)), v)
  {
    assert [r][1..] == [] && ApplyAll([], Apply(r, Encode(v))) == Apply(r, Encode(v));
  }

  lemma OneRuleOneAttribute(r: Rule, v: Violation, source: string, name: string, value: string)
    requires Applies(r, Encode(v)) && HasAttribute(v, r.source, source) && HasAttribute(v, name, value)
    ensures r.pattern(source).Match?
    ensures HasAttribute(ExecuteRules([r], v), name,
      if name in r.target then Expand(r.target[name], r.pattern(source).captures) else value)
  {
    hide Encode, HasAttribute, Decode, Expand, ApplyAll;
    EncodedAttributes(v, r.source, source);
    EncodedAttributes(v, name, value);
    ExecuteSingle(r, v);
    DecodedAttributes(Apply(r, Encode(v)), v, name, value);
  }

  lemma OneRule(r: Rule, v: Violation)
    ensures IsOneRule(r, v, ExecuteRules([r], v))
  {
    hide Encode, HasAttribute, Decode, Expand, Blocked, Applies, ApplyAll;
    BlockedExactly(r, v);
    if Blocked(r, v) {
      ExecuteSingle(r, v);
      DecodeEncode(v);
    } else {
      RulesKeepShape([r], v);
      hide ExecuteRules;
      forall source, name, value | HasAttribute(v, r.source, source) && HasAttribute(v, name, value)
        ensures r.pattern(source).Match? ==> HasAttribute(ExecuteRules([r], v), name,
          if name in r.target then Expand(r.target[name], r.pattern(source).captures) else value)
      {
        OneRuleOneAttribute(r, v, source, name, value);
      }
    }
  }

  // ----- a list of rules, step by step -----

  ghost predicate Encodes(v: Violation, data: Attributes) {
    forall name, value :: HasAttribute(v, name, value) <==> name in data && data[name] == value
  }

  ghost predicate DecodedFrom(v: Violation, data: Attributes, w: Violation) {
    && w.objectIdentity.Keys == v.objectIdentity.Keys && w.clusterName == v.clusterName
    && forall name, value :: HasAttribute(v, name, value) ==> name in data && HasAttribute(w, name, data[name])
  }

  /** w is what becomes of v when the rules work one after another on its attributes, each on
      all that the rules before it left. */
  ghost predicate IsRun(rules: seq<Rule>, v: Violation, w: Violation, states: seq<Attributes>) {
    && |states| == |rules| + 1
    && Encodes(v, states[0])
    && (forall i :: 0 <= i < |rules| ==> IsStep(rules[i], states[i], states[i + 1]))
    && DecodedFrom(v, states[|rules|], w)
  }

  lemma {:induction false} StatesOf(rules: seq<Rule>, data: Attributes) returns (states: seq<Attributes>)
    ensures |states| == |rules| + 1 && states[0] == data && states[|rules|] == ApplyAll(rules, data)
    ensures forall i :: 0 <= i < |rules| ==> IsStep(rules[i], states[i], states[i + 1])
    decreases |rules|
  {
    hide IsStep, Apply;
    if rules == [] {
      states := [data];
    } else {
      var rest := StatesOf(rules[1..], Apply(rules[0], data));
      ApplyIsStep(rules[0], data);
      states := [data] + rest;
      forall i | 0 < i < |rules|
        ensures IsStep(rules[i], states[i], states[i + 1])
      {
        assert rules[i] == rules[1..][i - 1] && states[i] == rest[i - 1] && states[i + 1] == rest[i];
      }
    }
  }

  lemma {:induction false} RulesRun(rules: seq<Rule>, v: Violation) returns (states: seq<Attributes>)
    ensures IsRun(rules, v, ExecuteRules(rules, v), states)
  {
    hide Encode, HasAttribute, Decode, IsStep, ApplyAll;
    states := StatesOf(rules, Encode(v));
    forall name, value
      ensures HasAttribute(v, name, value) <==> name in Encode(v) && Encode(v)[name] == value
    {
      EncodedAttributes(v, name, value);
    }
    RulesKeepShape(rules, v);
    ApplyAllTouchesTargets(rules, Encode(v), "");
    forall name, value | HasAttribute(v, name, value)
      ensures HasAttribute(ExecuteRules(rules, v), name, states[|rules|][name])
    {
      DecodedAttributes(states[|rules|], v, name, value);
    }
  }
}
