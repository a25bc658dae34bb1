/** Turning maps with keys of any type into string-keyed maps (internal/util/normalize.go). */
module Normalize {
  import opened Placeholders

  datatype Key = Text(s: string) | Number(n: int) | Other(repr: string)

  datatype Tree =
    | AnyMap(entries: map<Key, Tree>)
    | StringMap(fields: map<string, Tree>)
    | List(items: seq<Tree>)
    | Scalar(repr: string)

  datatype Result = Ok(tree: Tree) | NonStringKey(path: string, key: Key)

  // ----- strconv.Itoa -----

  function Decimal(n: nat): (s: string)
    ensures s != "" && Digits(s)
  {
    var last := [('0' as int + n % 10) as char];
    if n < 10 then last else Decimal(n / 10) + last
  }

  function Itoa(n: int): string {
    if n < 0 then "-" + Decimal(-n) else Decimal(n)
  }

  lemma {:induction false} DecimalValue(n: nat)
    ensures Placeholders.Value(Decimal(n)) == n
  {
    var d := Decimal(n);
    if n < 10 {
      assert d[..0] == "" && Placeholders.Value(d[..0]) == 0;
    } else {
      DecimalValue(n / 10);
      assert d[..|d| - 1] == Decimal(n / 10);
    }
  }

  /** Two integer keys never become the same text. */
  lemma ItoaIsInjective(a: int, b: int)
    requires Itoa(a) == Itoa(b)
    ensures a == b
  {
    var s, t := Decimal(if a < 0 then -a else a), Decimal(if b < 0 then -b else b);
    DecimalValue(if a < 0 then -a else a);
    DecimalValue(if b < 0 then -b else b);
    assert IsDigit(s[0]) && IsDigit(t[0]) && !IsDigit('-');
    if a < 0 && b < 0 {
      assert ("-" + s)[1..] == s && ("-" + t)[1..] == t;
    }
  }

  // ----- keys and outcomes -----

  /** normalizeKey: strings as they are, ints in decimal, other keys are refused. */
  function Spelled(k: Key): string
    requires !k.Other?
  {
    match k
    case Text(s) => s
    case Number(n) => Itoa(n)
  }

  predicate Normalizable(v: Tree) {
    match v
    case AnyMap(m) => forall k :: k in m ==> !k.Other? && Normalizable(m[k])
    case List(items) => forall i :: 0 <= i < |items| ==> Normalizable(items[i])
    case _ => true
  }

  /** What an input may become. When sibling keys have one spelling, any of them may be the
      one that is written last. A map with string keys is returned as it is. */
  ghost predicate Outcome(v: Tree, o: Tree) {
    match v
    case AnyMap(m) =>
      && o.StringMap?
      && (forall k :: k in m ==> !k.Other? && Spelled(k) in o.fields)
      && (forall t :: t in o.fields ==> exists k :: k in m && !k.Other? && Spelled(k) == t && Outcome(m[k], o.fields[t]))
    case List(items) =>
      && o.List?
      && |o.items| == |items|
      && (forall i :: 0 <= i < |items| ==> Outcome(items[i], o.items[i]))
    case _ => o == v
  }

  /** The reported path leads to a map with the reported key. */
  ghost predicate Offends(path: string, v: Tree, at: string, key: Key)
    decreases v
  {
    match v
    case AnyMap(m) =>
      || (at == path && key in m && key.Other?)
      || (exists k :: k in m && !k.Other? && Offends(path + "." + Spelled(k), m[k], at, key))
    case List(items) =>
      exists i :: 0 <= i < |items| && Offends(path + "[" + Itoa(i) + "]", items[i], at, key)
    case _ => false
  }

  method NormalizeRecursively(path: string, v: Tree) returns (r: Result)
    ensures r.Ok? <==> Normalizable(v)
    ensures r.Ok? ==> Outcome(v, r.tree)
    ensures r.NonStringKey? ==> Offends(path, v, r.path, r.key)
    decreases v
  {
    match v
    case AnyMap(m) =>
      var out: map<string, Tree> := map[];
      var todo := m.Keys;
      while todo != {}
        invariant todo <= m.Keys
        invariant forall k :: k in m && k !in todo ==> !k.Other? && Normalizable(m[k]) && Spelled(k) in out
        invariant forall t :: t in out ==> exists k :: k in m && k !in todo && Spelled(k) == t && Outcome(m[k], out[t])
        decreases |todo|
      {
        var k :| k in todo;
        if k.Other? {
          return NonStringKey(path, k);
        }
        var kn := Spelled(k);
        var vn := NormalizeRecursively(path + "." + kn, m[k]);
        if vn.NonStringKey? {
          return vn;
        }
        out, todo := out[kn := vn.tree], todo - {k};
      }
      r := Ok(StringMap(out));
    case List(items) =>
      var out: seq<Tree> := [];
      for i := 0 to |items|
        invariant |out| == i
        invariant forall j :: 0 <= j < i ==> Normalizable(items[j]) && Outcome(items[j], out[j])
      {
        var vn := NormalizeRecursively(path + "[" + Itoa(i) + "]", items[i]);
        if vn.NonStringKey? {
          return vn;
        }
        out := out + [vn.tree];
      }
      r := Ok(List(out));
    case StringMap(_) =>
      r := Ok(v);
    case Scalar(_) =>
      r := Ok(v);
  }

  /** It fails exactly when some key at some depth is neither a string nor an int. */
  lemma {:induction false} FailsExactly(path: string, v: Tree)
    ensures Normalizable(v) <==> !exists at, key :: Offends(path, v, at, key)
    ensures forall at, key :: Offends(path, v, at, key) ==> key.Other?
    decreases v
  {
    match v
    case AnyMap(m) =>
      forall k | k in m && !k.Other?
        ensures Normalizable(m[k]) <==> !exists at, key :: Offends(path + "." + Spelled(k), m[k], at, key)
        ensures forall at, key :: Offends(path + "." + Spelled(k), m[k], at, key) ==> key.Other?
      {
        FailsExactly(path + "." + Spelled(k), m[k]);
      }
      if k :| k in m && k.Other? {
        assert Offends(path, v, path, k);
      } else if k :| k in m && !Normalizable(m[k]) {
        var at, key :| Offends(path + "." + Spelled(k), m[k], at, key);
        assert Offends(path, v, at, key);
      }
    case List(items) =>
      forall i | 0 <= i < |items|
        ensures Normalizable(items[i]) <==> !exists at, key :: Offends(path + "[" + Itoa(i) + "]", items[i], at, key)
        ensures forall at, key :: Offends(path + "[" + Itoa(i) + "]", items[i], at, key) ==> key.Other?
      {
        FailsExactly(path + "[" + Itoa(i) + "]", items[i]);
      }
      if i :| 0 <= i < |items| && !Normalizable(items[i]) {
        var at, key :| Offends(path + "[" + Itoa(i) + "]", items[i], at, key);
        assert Offends(path, v, at, key);
      }
    case _ =>
  }

  /** A path names the keys after dots and the list positions, from 0, in brackets. */
  lemma PathToTheKey() returns (v: Tree)
    ensures forall at, key :: Offends("$", v, at, key) <==> at == "$.a[0].7" && key == Other("true")
  {
    var x := AnyMap(map[Other("true") := Scalar("1")]);
    var y := AnyMap(map[Number(7) := x]);
    var z := List([y]);
    v := AnyMap(map[Text("a") := z]);
    assert x.entries[Other("true")] == Scalar("1") && y.entries[Number(7)] == x && v.entries[Text("a")] == z;
    assert Itoa(7) == "7" && Itoa(0) == "0";
    forall at, key
      ensures Offends("$", v, at, key) <==> at == "$.a[0].7" && key == Other("true")
    {
      calc {
        Offends("$", v, at, key);
        { assert "$" + "." + Spelled(Text("a")) == "$.a"; }
        Offends("$.a", z, at, key);
        { assert "$.a" + "[" + Itoa(0) + "]" == "$.a[0]"; }
        Offends("$.a[0]", y, at, key);
        { assert "$.a[0]" + "." + Spelled(Number(7)) == "$.a[0].7"; }
        Offends("$.a[0].7", x, at, key);
        at == "$.a[0].7" && key == Other("true");
      }
    }
  }

  // ----- what a key becomes -----

  /** The decimal notation of a natural number, without leading zeros. */
  predicate IsNumeral(s: string, n: nat) {
    s != "" && Digits(s) && Placeholders.Value(s) == n && (|s| > 1 ==> s[0] != '0')
  }

  /** String keys stay as they are, int keys become their decimal notation. */
  predicate Becomes(k: Key, t: string) {
    match k
    case Text(s) => t == s
    case Number(n) => if n < 0 then t != "" && t[0] == '-' && IsNumeral(t[1..], -n) else IsNumeral(t, n)
    case Other(_) => false
  }

  lemma {:induction false} NumeralIsPositive(s: string)
    requires s != "" && Digits(s) && s[0] != '0'
    ensures Placeholders.Value(s) > 0
  {
    if |s| == 1 {
      assert Placeholders.Value(s[..0]) == 0;
    } else {
      NumeralIsPositive(s[..|s| - 1]);
    }
  }

  lemma {:induction false} NumeralIsDecimal(s: string, n: nat)
    requires IsNumeral(s, n)
    ensures s == Decimal(n)
    decreases |s|
  {
    var prefix, d := s[..|s| - 1], s[|s| - 1];
    assert s == prefix + [d];
    if |s| == 1 {
      assert Placeholders.Value(s[..0]) == 0 && n == DigitValue(d);
    } else {
      NumeralIsPositive(prefix);
      NumeralIsDecimal(prefix, Placeholders.Value(prefix));
      assert n / 10 == Placeholders.Value(prefix) && n % 10 == DigitValue(d);
    }
  }

  lemma {:induction false} DecimalIsNumeral(n: nat)
    ensures IsNumeral(Decimal(n), n) && (n > 0 ==> Decimal(n)[0] != '0')
  {
    DecimalValue(n);
    if n >= 10 {
      DecimalIsNumeral(n / 10);
    }
  }

  lemma SpelledExactly(k: Key, t: string)
    ensures Becomes(k, t) <==> !k.Other? && t == Spelled(k)
  {
    hide IsNumeral, Decimal;
    if k.Number? {
      var n := if k.n < 0 then -k.n else k.n;
      DecimalIsNumeral(n);
      assert ("-" + Decimal(n))[1..] == Decimal(n);
      if Becomes(k, t) {
        NumeralIsDecimal(if k.n < 0 then t[1..] else t, n);
      }
    }
  }

  ghost predicate HasFieldsOf(m: map<Key, Tree>, o: Tree) {
    && o.StringMap?
    && (forall k :: k in m ==> exists t :: t in o.fields && Becomes(k, t))
    && (forall t :: t in o.fields ==> exists k :: k in m && Becomes(k, t) && Outcome(m[k], o.fields[t]))
  }

  /** An outcome of a map has exactly the fields that its keys become, each with an outcome of
      the value under one such key; under the string key, if no int key becomes the same. */
  lemma FieldsOfOutcomes(m: map<Key, Tree>, o: Tree)
    ensures Outcome(AnyMap(m), o) <==> HasFieldsOf(m, o)
    ensures Outcome(AnyMap(m), o) ==> forall s :: Text(s) in m ==> s in o.fields
    ensures Outcome(AnyMap(m), o) ==> forall s :: Text(s) in m && (forall k :: k in m && k.Number? ==> !Becomes(k, s)) ==>
      Outcome(m[Text(s)], o.fields[s])
  {
    FieldsExactly(m, o);
    hide Becomes, Spelled, HasFieldsOf;
    if Outcome(AnyMap(m), o) {
      forall s | Text(s) in m
        ensures s in o.fields
        ensures (forall k :: k in m && k.Number? ==> !Becomes(k, s)) ==> Outcome(m[Text(s)], o.fields[s])
      {
        OnlyKey(m, o, s);
      }
    }
  }

  lemma FieldsExactly(m: map<Key, Tree>, o: Tree)
    ensures Outcome(AnyMap(m), o) <==> HasFieldsOf(m, o)
  {
    hide Becomes, Spelled;
    forall k, t
      ensures Becomes(k, t) <==> !k.Other? && t == Spelled(k)
    {
      SpelledExactly(k, t);
    }
    if HasFieldsOf(m, o) {
      forall k | k in m
        ensures !k.Other? && Spelled(k) in o.fields
      {
        var t :| t in o.fields && Becomes(k, t);
      }
    }
  }

  lemma OnlyKey(m: map<Key, Tree>, o: Tree, s: string)
    requires Outcome(AnyMap(m), o) && Text(s) in m
    ensures s in o.fields
    ensures (forall k :: k in m && k.Number? ==> !Becomes(k, s)) ==> Outcome(m[Text(s)], o.fields[s])
  {
    assert Spelled(Text(s)) == s;
    var k :| k in m && !k.Other? && Spelled(k) == s && Outcome(m[k], o.fields[s]);
    SpelledExactly(k, s);
  }

  /** No map with arbitrary keys is reached. */
  predicate NothingToDo(v: Tree) {
    match v
    case AnyMap(_) => false
    case List(items) => forall i :: 0 <= i < |items| ==> NothingToDo(items[i])
    case _ => true
  }

  lemma {:induction false} NothingToDoIsKept(v: Tree, o: Tree)
    requires NothingToDo(v)
    ensures Outcome(v, o) <==> o == v
    decreases v
  {
    match v
    case List(items) =>
      if o.List? && |o.items| == |items| {
        forall i | 0 <= i < |items|
          ensures Outcome(items[i], o.items[i]) <==> o.items[i] == items[i]
        {
          NothingToDoIsKept(items[i], o.items[i]);
        }
        assert o.items == items <==> forall i :: 0 <= i < |items| ==> o.items[i] == items[i];
      }
    case _ =>
  }

  // ----- normalizing again -----

  lemma {:induction false} NormalizingTwice(v: Tree, o: Tree)
    requires Outcome(v, o)
    ensures Normalizable(o)
    ensures forall o' :: Outcome(o, o') <==> o' == o
    decreases v
  {
    match v
    case List(items) =>
      forall i | 0 <= i < |items|
        ensures Normalizable(o.items[i]) && forall x :: Outcome(o.items[i], x) <==> x == o.items[i]
      {
        NormalizingTwice(items[i], o.items[i]);
      }
      forall o'
        ensures Outcome(o, o') <==> o' == o
      {
        if Outcome(o, o') {
          forall i | 0 <= i < |items|
            ensures o'.items[i] == o.items[i]
          {
            assert Outcome(o.items[i], o'.items[i]);
          }
          assert o'.items == o.items;
        }
      }
    case _ =>
  }

  // ----- one outcome or several -----

  ghost function Spellings(m: map<Key, Tree>): set<string>
    requires forall k :: k in m ==> !k.Other?
  {
    set k | k in m :: Spelled(k)
  }

  ghost function AnOutcome(v: Tree): (o: Tree)
    requires Normalizable(v)
    ensures Outcome(v, o)
  {
    match v
    case AnyMap(m) =>
      StringMap(map t | t in Spellings(m) :: var k :| k in m && Spelled(k) == t; AnOutcome(m[k]))
    case List(items) =>
      List(seq(|items|, i requires 0 <= i < |items| => AnOutcome(items[i])))
    case _ => v
  }

  /** Any sibling may be written last, with any of its outcomes. */
  lemma WrittenLast(m: map<Key, Tree>, k: Key, x: Tree)
    requires Normalizable(AnyMap(m)) && k in m && Outcome(m[k], x)
    ensures Outcome(AnyMap(m), StringMap(AnOutcome(AnyMap(m)).fields[Spelled(k) := x]))
  {
    var o := AnOutcome(AnyMap(m)).fields;
    var after := o[Spelled(k) := x];
    forall t | t in after
      ensures exists j :: j in m && Spelled(j) == t && Outcome(m[j], after[t])
    {
      if t == Spelled(k) {
        assert k in m && Spelled(k) == t;
      } else {
        var j :| j in m && Spelled(j) == t && Outcome(m[j], o[t]);
      }
    }
  }

  /** Siblings with the same spelling normalize to the same thing, at every depth. */
  ghost predicate Unambiguous(v: Tree)
    requires Normalizable(v)
  {
    match v
    case AnyMap(m) =>
      && (forall k :: k in m ==> Unambiguous(m[k]))
      && (forall j, k :: j in m && k in m && Spelled(j) == Spelled(k) ==> AnOutcome(m[j]) == AnOutcome(m[k]))
    case List(items) => forall i :: 0 <= i < |items| ==> Unambiguous(items[i])
    case _ => true
  }

  lemma OutcomeKeys(m: map<Key, Tree>, o: Tree)
    requires Normalizable(AnyMap(m)) && Outcome(AnyMap(m), o)
    ensures o.StringMap? && o.fields.Keys == Spellings(m)
  {
  }

  lemma {:induction false} OneOutcome(v: Tree, o: Tree)
    requires Normalizable(v) && Unambiguous(v) && Outcome(v, o)
    ensures o == AnOutcome(v)
    decreases v
  {
    hide AnOutcome, Spelled, Spellings;
    var n := AnOutcome(v);
    match v
    case AnyMap(m) =>
      forall t | t in o.fields
        ensures t in n.fields ==> o.fields[t] == n.fields[t]
      {
        var j :| j in m && Spelled(j) == t && Outcome(m[j], o.fields[t]);
        OneOutcome(m[j], o.fields[t]);
        if t in n.fields {
          var k :| k in m && Spelled(k) == t && Outcome(m[k], n.fields[t]);
          OneOutcome(m[k], n.fields[t]);
        }
      }
      OutcomeKeys(m, o);
      OutcomeKeys(m, n);
      assert o.fields == n.fields;
    case List(items) =>
      forall i | 0 <= i < |items|
        ensures o.items[i] == n.items[i]
      {
        OneOutcome(items[i], o.items[i]);
        OneOutcome(items[i], n.items[i]);
      }
      assert o.items == n.items;
    case _ =>
  }

  lemma {:induction false} TwoOutcomes(v: Tree) returns (a: Tree, b: Tree)
    requires Normalizable(v) && !Unambiguous(v)
    ensures Outcome(v, a) && Outcome(v, b) && a != b
    decreases v
  {
    hide AnOutcome, Spelled;
    match v
    case AnyMap(m) =>
      var o := AnOutcome(v).fields;
      var k, x, l, y;
      if j :| j in m && !Unambiguous(m[j]) {
        k, l := j, j;
        x, y := TwoOutcomes(m[j]);
      } else {
        k, l :| k in m && l in m && Spelled(k) == Spelled(l) && AnOutcome(m[k]) != AnOutcome(m[l]);
        x, y := AnOutcome(m[k]), AnOutcome(m[l]);
      }
      WrittenLast(m, k, x);
      WrittenLast(m, l, y);
      a, b := StringMap(o[Spelled(k) := x]), StringMap(o[Spelled(l) := y]);
      assert a.fields[Spelled(k)] == x && b.fields[Spelled(k)] == y;
    case List(items) =>
      var i :| 0 <= i < |items| && !Unambiguous(items[i]);
      var x, y := TwoOutcomes(items[i]);
      var o := AnOutcome(v).items;
      a, b := List(o[i := x]), List(o[i := y]);
      assert a.items[i] == x && b.items[i] == y;
  }

  /** The order of map iteration is invisible exactly when colliding siblings normalize alike. */
  lemma {:induction false} OrderIsInvisibleExactly(v: Tree)
    requires Normalizable(v)
    ensures Unambiguous(v) <==> forall a, b :: Outcome(v, a) && Outcome(v, b) ==> a == b
  {
    hide Outcome, Unambiguous, Normalizable, AnOutcome;
    if Unambiguous(v) {
      forall a, b | Outcome(v, a) && Outcome(v, b)
        ensures a == b
      {
        OneOutcome(v, a);
        OneOutcome(v, b);
      }
    } else {
      var a, b := TwoOutcomes(v);
      assert Outcome(v, a) && Outcome(v, b);
    }
  }

  /** No int key is spelled like a string key beside it. */
  predicate CollisionFree(v: Tree) {
    match v
    case AnyMap(m) =>
      && (forall k :: k in m ==> CollisionFree(m[k]))
      && (forall k :: k in m && k.Number? ==> Text(Itoa(k.n)) !in m)
    case List(items) => forall i :: 0 <= i < |items| ==> CollisionFree(items[i])
    case _ => true
  }

  lemma {:induction false} CollisionFreeIsUnambiguous(v: Tree)
    requires Normalizable(v) && CollisionFree(v)
    ensures Unambiguous(v)
    decreases v
  {
    match v
    case AnyMap(m) =>
      forall k | k in m
        ensures Unambiguous(m[k])
      {
        CollisionFreeIsUnambiguous(m[k]);
      }
      forall j, k | j in m && k in m && Spelled(j) == Spelled(k)
        ensures j == k
      {
        if j.Number? && k.Number? {
          ItoaIsInjective(j.n, k.n);
        }
      }
    case List(items) =>
      forall i | 0 <= i < |items|
        ensures Unambiguous(items[i])
      {
        CollisionFreeIsUnambiguous(items[i]);
      }
    case _ =>
  }

  // ----- no map with arbitrary keys is left -----

  predicate Clean(v: Tree) {
    match v
    case AnyMap(_) => false
    case StringMap(m) => forall t :: t in m ==> Clean(m[t])
    case List(items) => forall i :: 0 <= i < |items| ==> Clean(items[i])
    case Scalar(_) => true
  }

  /** No map with arbitrary keys lies below one with string keys. */
  predicate NoneHidden(v: Tree) {
    match v
    case AnyMap(m) => forall k :: k in m ==> NoneHidden(m[k])
    case List(items) => forall i :: 0 <= i < |items| ==> NoneHidden(items[i])
    case _ => Clean(v)
  }

  lemma {:induction false} CleanAfterwards(v: Tree, o: Tree)
    requires NoneHidden(v) && Outcome(v, o)
    ensures Clean(o)
    decreases v
  {
    match v
    case AnyMap(m) =>
      forall t | t in o.fields
        ensures Clean(o.fields[t])
      {
        var k :| k in m && Spelled(k) == t && Outcome(m[k], o.fields[t]);
        CleanAfterwards(m[k], o.fields[t]);
      }
    case List(items) =>
      forall i | 0 <= i < |items|
        ensures Clean(o.items[i])
      {
        CleanAfterwards(items[i], o.items[i]);
      }
    case _ =>
  }

  lemma {:induction false} HiddenStays(v: Tree) returns (o: Tree)
    requires Normalizable(v) && !NoneHidden(v)
    ensures Outcome(v, o) && !Clean(o)
    decreases v
  {
    match v
    case AnyMap(m) =>
      var k :| k in m && !NoneHidden(m[k]);
      var x := HiddenStays(m[k]);
      WrittenLast(m, k, x);
      o := StringMap(AnOutcome(v).fields[Spelled(k) := x]);
      assert o.fields[Spelled(k)] == x;
    case List(items) =>
      var i :| 0 <= i < |items| && !NoneHidden(items[i]);
      var x := HiddenStays(items[i]);
      o := List(AnOutcome(v).items[i := x]);
      assert o.items[i] == x;
    case StringMap(_) =>
      o := v;
  }

  /** All maps are converted exactly when none is hidden below a map with string keys. */
  lemma CleanExactly(v: Tree)
    requires Normalizable(v)
    ensures NoneHidden(v) <==> forall o :: Outcome(v, o) ==> Clean(o)
  {
    hide Outcome, NoneHidden, Normalizable, Clean;
    if NoneHidden(v) {
      forall o | Outcome(v, o)
        ensures Clean(o)
      {
        CleanAfterwards(v, o);
      }
    } else {
      var o := HiddenStays(v);
    }
  }

  /** A map with an int key below one with string keys is still there in the only outcome. */
  lemma HiddenMapSurvives() returns (v: Tree)
    ensures Normalizable(v) && !Clean(v)
    ensures forall o :: Outcome(v, o) <==> o == v
  {
    var hidden := AnyMap(map[Number(1) := Scalar("x")]);
    v := StringMap(map["a" := hidden]);
    assert v.fields["a"] == hidden;
  }
}
