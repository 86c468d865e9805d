/** The lexicographic order of object keys and ULIDs, and sorted key listings. */
module Lex {

  predicate Less(a: string, b: string)
  {
    if b == "" then false
    else if a == "" then true
    else if a[0] != b[0] then a[0] < b[0]
    else Less(a[1..], b[1..])
  }

  predicate AtMost(a: string, b: string)
  {
    a == b || Less(a, b)
  }

  /** The strings agree up to `i`, where the first has the smaller character. */
  predicate LowerAt(a: string, b: string, i: nat)
  {
    i < |a| && i < |b| && a[i] < b[i] && forall j :: 0 <= j < i ==> a[j] == b[j]
  }

  lemma LowerAtNext(a: string, b: string, i: nat)
    requires a != "" && b != ""
    ensures LowerAt(a, b, i + 1) <==> a[0] == b[0] && LowerAt(a[1..], b[1..], i)
  {
    if LowerAt(a, b, i + 1) { assert forall j :: 0 <= j < i ==> a[1..][j] == a[j + 1] && b[1..][j] == b[j + 1]; }
    if a[0] == b[0] && LowerAt(a[1..], b[1..], i) {
      assert forall j :: 0 < j <= i ==> a[j] == a[1..][j - 1] && b[j] == b[1..][j - 1];
    }
  }

  lemma PrefixNext(a: string, b: string)
    requires a != "" && b != ""
    ensures a < b <==> a[0] == b[0] && a[1..] < b[1..]
  {
    assert a == [a[0]] + a[1..] && b == [b[0]] + b[1..];
  }

  /** A proper prefix comes first; otherwise the first differing character decides. */
  lemma {:induction false} LessIff(a: string, b: string)
    ensures Less(a, b) <==> a < b || exists i: nat :: LowerAt(a, b, i)
  {
    if a != "" && b != "" {
      PrefixNext(a, b);
      LessIff(a[1..], b[1..]);
      assert LowerAt(a, b, 0) <==> a[0] < b[0];
      if i: nat :| LowerAt(a[1..], b[1..], i) { LowerAtNext(a, b, i); }
      if i: nat :| LowerAt(a, b, i) && i > 0 { LowerAtNext(a, b, i - 1); }
    }
  }

  lemma {:induction false} LessIrreflexive(a: string)
    ensures !Less(a, a)
  {
    if a != "" { LessIrreflexive(a[1..]); }
  }

  lemma {:induction false} LessTransitive(a: string, b: string, c: string)
    requires Less(a, b) && Less(b, c)
    ensures Less(a, c)
  {
    if a != "" && a[0] == b[0] == c[0] {
      LessTransitive(a[1..], b[1..], c[1..]);
    }
  }

  lemma {:induction false} LessTotal(a: string, b: string)
    ensures Less(a, b) || a == b || Less(b, a)
  {
    if a != "" && b != "" && a[0] == b[0] {
      LessTotal(a[1..], b[1..]);
      assert a == [a[0]] + a[1..] && b == [b[0]] + b[1..];
    }
  }

  lemma LessAsymmetric(a: string, b: string)
    requires Less(a, b)
    ensures !Less(b, a) && a != b
  {
    LessIrreflexive(a);
    if Less(b, a) { LessTransitive(a, b, a); }
  }

  /** Keys that share a prefix compare as what follows it. */
  lemma {:induction false} LessUnderPrefix(p: string, a: string, b: string)
    ensures Less(p + a, p + b) == Less(a, b)
  {
    if p == "" {
      assert p + a == a && p + b == b;
    } else {
      assert (p + a)[1..] == p[1..] + a && (p + b)[1..] == p[1..] + b;
      LessUnderPrefix(p[1..], a, b);
    }
  }

  ghost predicate Ascending(ks: seq<string>)
  {
    forall i, j :: 0 <= i < j < |ks| ==> Less(ks[i], ks[j])
  }

  ghost predicate IsLeast(m: string, s: set<string>)
  {
    m in s && forall k :: k in s ==> AtMost(m, k)
  }

  lemma {:induction false} LeastExists(s: set<string>) returns (m: string)
    requires s != {}
    ensures IsLeast(m, s)
  {
    var x :| x in s;
    if s == {x} {
      m := x;
    } else {
      var n := LeastExists(s - {x});
      LessTotal(x, n);
      m := if Less(x, n) then x else n;
      forall k | k in s ensures AtMost(m, k) {
        if k != x && m == x && n != k { assert k in s - {x}; LessTransitive(x, n, k); }
      }
    }
  }

  lemma LeastUnique(s: set<string>)
    ensures forall m, n :: IsLeast(m, s) && IsLeast(n, s) ==> m == n
  {
    forall m, n | IsLeast(m, s) && IsLeast(n, s) ensures m == n {
      if m != n { LessAsymmetric(m, n); }
    }
  }

  /** The keys of a set in ascending order: what iterating a sorted map yields. */
  ghost function Sorted(s: set<string>): (r: seq<string>)
  {
    if s == {} then []
    else
      assert exists m :: IsLeast(m, s) by { var m := LeastExists(s); }
      var m :| IsLeast(m, s);
      [m] + Sorted(s - {m})
  }

  lemma {:induction false} SortedFacts(s: set<string>)
    ensures Ascending(Sorted(s))
    ensures forall k :: k in Sorted(s) <==> k in s
  {
    if s != {} {
      var r := Sorted(s);
      var m := r[0];
      assert IsLeast(m, s) && r == [m] + Sorted(s - {m}) by {
        var l := LeastExists(s);
        LeastUnique(s);
      }
      var rest := Sorted(s - {m});
      SortedFacts(s - {m});
      assert forall k :: k in rest ==> AtMost(m, k) && k != m;
      assert forall j :: 0 < j < |r| ==> r[j] == rest[j - 1] && rest[j - 1] in rest;
    }
  }

  lemma NonemptyHasElement(b: seq<string>)
    ensures b == [] || exists k :: k in b
  {
    if b != [] { assert b[0] in b; }
  }

  /** Two ascending sequences with the same elements are the same sequence. */
  lemma {:induction false} AscendingUnique(a: seq<string>, b: seq<string>)
    requires Ascending(a) && Ascending(b)
    requires forall k :: k in a <==> k in b
    ensures a == b
  {
    if a == [] {
      NonemptyHasElement(b);
    } else {
      assert a[0] in b;
      assert b != [] && b[0] in a;
      var i :| 0 <= i < |b| && b[i] == a[0];
      var j :| 0 <= j < |a| && a[j] == b[0];
      if i != 0 && j != 0 { LessAsymmetric(b[0], b[i]); }
      assert a[0] == b[0];
      LessIrreflexive(a[0]);
      forall k ensures k in a[1..] <==> k in b[1..] {
        if k in a[1..] { assert k in a; assert k in b; }
        if k in b[1..] { assert k in b; assert k in a; }
      }
      AscendingUnique(a[1..], b[1..]);
    }
  }
}
