/** Go string operations used throughout: strings.Compare, strings.Join and strings.Split on one separator. */
module Text {

  /** strings.Compare: byte order on UTF-8 text, which is the order of the code points. */
  function Compare(a: string, b: string): int {
    if a == [] && b == [] then 0
    else if a == [] then -1
    else if b == [] then 1
    else if a[0] < b[0] then -1
    else if b[0] < a[0] then 1
    else Compare(a[1..], b[1..])
  }

  lemma {:induction false} CompareIsEquality(a: string, b: string)
    ensures Compare(a, b) == 0 <==> a == b
  {
    if a != [] && b != [] && a[0] == b[0] {
      CompareIsEquality(a[1..], b[1..]);
      assert a == [a[0]] + a[1..] && b == [b[0]] + b[1..];
    }
  }

  lemma {:induction false} CompareFlips(a: string, b: string)
    ensures Compare(a, b) == -Compare(b, a)
  {
    if a != [] && b != [] && a[0] == b[0] {
      CompareFlips(a[1..], b[1..]);
    }
  }

  lemma {:induction false} CompareIsTransitive(a: string, b: string, c: string)
    requires Compare(a, b) <= 0 && Compare(b, c) <= 0
    ensures Compare(a, c) <= 0
    ensures Compare(a, c) == 0 ==> Compare(a, b) == 0 && Compare(b, c) == 0
  {
    if a != [] && b != [] && c != [] && a[0] == b[0] == c[0] {
      CompareIsTransitive(a[1..], b[1..], c[1..]);
    }
  }

  /** The order of dictionaries: a beginning comes first, and otherwise the first difference decides. */
  ghost predicate Precedes(a: string, b: string) {
    || (a < b)
    || exists k :: 0 <= k < |a| && k < |b| && a[..k] == b[..k] && a[k] < b[k]
  }

  /** Comparison is that order: negative, zero and positive for before, equal and after. */
  lemma {:induction false} CompareIsDictionaryOrder(a: string, b: string)
    ensures Compare(a, b) < 0 <==> Precedes(a, b)
    ensures Compare(a, b) == 0 <==> a == b
    ensures Compare(a, b) > 0 <==> Precedes(b, a)
  {
    PrecedesExactly(a, b);
    PrecedesExactly(b, a);
    CompareFlips(a, b);
    CompareIsEquality(a, b);
  }

  lemma PrecedesTail(a: string, b: string)
    requires a != "" && b != "" && a[0] == b[0]
    ensures Precedes(a, b) <==> Precedes(a[1..], b[1..])
  {
    assert a == [a[0]] + a[1..] && b == [b[0]] + b[1..];
    assert a < b <==> a[1..] < b[1..];
    if k :| 0 <= k < |a[1..]| && k < |b[1..]| && a[1..][..k] == b[1..][..k] && a[1..][k] < b[1..][k] {
      assert a[..k + 1] == [a[0]] + a[1..][..k] && b[..k + 1] == [b[0]] + b[1..][..k];
      assert a[k + 1] < b[k + 1];
    }
    if k :| 0 <= k < |a| && k < |b| && a[..k] == b[..k] && a[k] < b[k] {
      assert k > 0;
      assert a[1..][..k - 1] == a[..k][1..] && b[1..][..k - 1] == b[..k][1..];
      assert a[1..][k - 1] < b[1..][k - 1];
    }
  }

  lemma {:induction false} PrecedesExactly(a: string, b: string)
    ensures Compare(a, b) < 0 <==> Precedes(a, b)
  {
    if a != "" && b != "" {
      if a[0] == b[0] {
        PrecedesTail(a, b);
        hide Precedes;
        PrecedesExactly(a[1..], b[1..]);
      } else {
        assert a[..0] == b[..0];
        if k :| 0 <= k < |a| && k < |b| && a[..k] == b[..k] && a[k] < b[k] {
          assert k > 0 ==> a[..k][0] == b[..k][0];
        }
      }
    }
  }

  /** strings.Join with a one-character separator. */
  function Join(parts: seq<string>, sep: char): string {
    if parts == [] then ""
    else if |parts| == 1 then parts[0]
    else parts[0] + [sep] + Join(parts[1..], sep)
  }

  /** strings.Split with a one-character separator; the empty string splits into one empty part. */
  function Split(s: string, sep: char): (parts: seq<string>)
    ensures |parts| >= 1
  {
    if s == "" then [""]
    else
      var rest := Split(s[1..], sep);
      if s[0] == sep then [""] + rest else [[s[0]] + rest[0]] + rest[1..]
  }

  /** How many separators a list of parts contains in all. */
  function Separators(parts: seq<string>, sep: char): nat {
    if parts == [] then 0 else multiset(parts[0])[sep] + Separators(parts[1..], sep)
  }

  predicate SeparatorFree(parts: seq<string>, sep: char) {
    forall i :: 0 <= i < |parts| ==> sep !in parts[i]
  }

  /** Splitting loses nothing, so distinct strings have distinct splits. */
  lemma {:induction false} JoinSplit(s: string, sep: char)
    ensures Join(Split(s, sep), sep) == s
  {
    if s != "" {
      JoinSplit(s[1..], sep);
      var rest := Split(s[1..], sep);
      if s[0] == sep {
        assert ([""] + rest)[1..] == rest;
      } else {
        var parts := [[s[0]] + rest[0]] + rest[1..];
        assert parts[1..] == rest[1..];
      }
    }
  }

  lemma SplitIsInjective(s: string, t: string, sep: char)
    requires Split(s, sep) == Split(t, sep)
    ensures s == t
  {
    JoinSplit(s, sep);
    JoinSplit(t, sep);
  }

  /** A split has one part more than the string has separators. */
  lemma {:induction false} SplitCounts(s: string, sep: char)
    ensures |Split(s, sep)| == 1 + multiset(s)[sep]
  {
    if s != "" {
      SplitCounts(s[1..], sep);
      assert s == [s[0]] + s[1..];
    }
  }

  lemma {:induction false} JoinCounts(parts: seq<string>, sep: char)
    requires parts != []
    ensures multiset(Join(parts, sep))[sep] == |parts| - 1 + Separators(parts, sep)
  {
    if |parts| > 1 {
      JoinCounts(parts[1..], sep);
    } else {
      assert Separators(parts[1..], sep) == 0;
    }
  }

  lemma {:induction false} SplitPrefix(p: string, rest: string, sep: char)
    requires sep !in p
    ensures Split(p + [sep] + rest, sep) == [p] + Split(rest, sep)
    ensures Split(p, sep) == [p]
  {
    var s := p + [sep] + rest;
    if p == "" {
      assert s[0] == sep && s[1..] == rest;
    } else {
      SplitPrefix(p[1..], rest, sep);
      assert s[1..] == p[1..] + [sep] + rest && p == [p[0]] + p[1..];
    }
  }

  lemma {:induction false} SplitJoin(parts: seq<string>, sep: char)
    requires parts != [] && SeparatorFree(parts, sep)
    ensures Split(Join(parts, sep), sep) == parts
  {
    if |parts| == 1 {
      SplitPrefix(parts[0], "", sep);
      assert [parts[0]] == parts;
    } else {
      SplitJoin(parts[1..], sep);
      var rest := Join(parts[1..], sep);
      SplitPrefix(parts[0], rest, sep);
      assert Join(parts, sep) == parts[0] + [sep] + rest;
      assert [parts[0]] + parts[1..] == parts;
    }
  }

  lemma {:induction false} NoSeparators(parts: seq<string>, sep: char)
    ensures Separators(parts, sep) == 0 <==> SeparatorFree(parts, sep)
  {
    if parts != [] {
      NoSeparators(parts[1..], sep);
      assert SeparatorFree(parts, sep) <==> sep !in parts[0] && SeparatorFree(parts[1..], sep);
      assert multiset(parts[0])[sep] == 0 <==> sep !in multiset(parts[0]);
    }
  }

  /** Join then Split restores the parts, or even only their number, exactly when
      there is at least one part and no part contains the separator. */
  lemma SplitJoinExactly(parts: seq<string>, sep: char)
    ensures Split(Join(parts, sep), sep) == parts <==> parts != [] && SeparatorFree(parts, sep)
    ensures |Split(Join(parts, sep), sep)| == |parts| <==> parts != [] && SeparatorFree(parts, sep)
  {
    NoSeparators(parts, sep);
    if parts != [] {
      JoinCounts(parts, sep);
      SplitCounts(Join(parts, sep), sep);
      if Separators(parts, sep) == 0 {
        SplitJoin(parts, sep);
      }
    }
  }
}
