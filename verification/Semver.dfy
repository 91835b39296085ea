/**
  Version precedence as section 11 of Semantic Versioning 2.0.0 defines it, which is the order
  the operator compares Paper and plugin versions by.  Build metadata takes no part in it and is
  left out of the datatype.
 */
module Semver {

  /** One dot-separated field of a pre-release tag. */
  datatype Ident = Num(n: nat) | Alpha(s: string)

  datatype Version = Version(major: nat, minor: nat, patch: nat, pre: seq<Ident>)

  function CompareNat(a: nat, b: nat): int {
    if a < b then -1 else if a > b then 1 else 0
  }

  /** ASCII order of two alphanumeric fields. */
  function CompareText(a: string, b: string): int {
    if a == [] || b == [] then CompareNat(|a|, |b|)
    else if a[0] != b[0] then (if a[0] < b[0] then -1 else 1)
    else CompareText(a[1..], b[1..])
  }

  function CompareIdent(a: Ident, b: Ident): int {
    match (a, b)
    case (Num(m), Num(n)) => CompareNat(m, n)
    case (Num(_), Alpha(_)) => -1
    case (Alpha(_), Num(_)) => 1
    case (Alpha(s), Alpha(t)) => CompareText(s, t)
  }

  function CompareFields(a: seq<Ident>, b: seq<Ident>): int {
    if a == [] || b == [] then CompareNat(|a|, |b|)
    else if CompareIdent(a[0], b[0]) != 0 then CompareIdent(a[0], b[0])
    else CompareFields(a[1..], b[1..])
  }

  /** A release outranks every pre-release of the same three numbers. */
  function ComparePre(a: seq<Ident>, b: seq<Ident>): int {
    if a == [] && b == [] then 0
    else if a == [] then 1
    else if b == [] then -1
    else CompareFields(a, b)
  }

  function Precedence(a: Version, b: Version): int {
    if a.major != b.major then CompareNat(a.major, b.major)
    else if a.minor != b.minor then CompareNat(a.minor, b.minor)
    else if a.patch != b.patch then CompareNat(a.patch, b.patch)
    else ComparePre(a.pre, b.pre)
  }

  predicate AtMost(a: Version, b: Version) {
    Precedence(a, b) <= 0
  }

  lemma {:induction false} TextOrder(a: string, b: string, c: string)
    ensures CompareText(a, b) == -CompareText(b, a)
    ensures CompareText(a, b) == 0 <==> a == b
    ensures CompareText(a, b) <= 0 && CompareText(b, c) <= 0 ==> CompareText(a, c) <= 0
  {
    if a != [] && b != [] {
      assert a == [a[0]] + a[1..] && b == [b[0]] + b[1..];
      TextOrder(a[1..], b[1..], if c == [] then [] else c[1..]);
    }
  }

  lemma IdentOrder(a: Ident, b: Ident, c: Ident)
    ensures CompareIdent(a, b) == -CompareIdent(b, a)
    ensures CompareIdent(a, b) == 0 <==> a == b
    ensures CompareIdent(a, b) <= 0 && CompareIdent(b, c) <= 0 ==> CompareIdent(a, c) <= 0
  {
    if a.Alpha? && b.Alpha? {
      TextOrder(a.s, b.s, if c.Alpha? then c.s else "");
    }
  }

  lemma {:induction false} FieldsOrder(a: seq<Ident>, b: seq<Ident>, c: seq<Ident>)
    ensures CompareFields(a, b) == -CompareFields(b, a)
    ensures CompareFields(a, b) == 0 <==> a == b
    ensures CompareFields(a, b) <= 0 && CompareFields(b, c) <= 0 ==> CompareFields(a, c) <= 0
  {
    if a != [] && b != [] {
      assert a == [a[0]] + a[1..] && b == [b[0]] + b[1..];
      FieldsOrder(a[1..], b[1..], if c == [] then [] else c[1..]);
      var c0 := if c == [] then a[0] else c[0];
      IdentOrder(a[0], b[0], c0);
      IdentOrder(b[0], c0, a[0]);
      IdentOrder(a[0], c0, b[0]);
    }
  }

  /** Precedence is a total order on versions: antisymmetric, transitive and decided for every pair. */
  lemma PrecedenceIsTotalOrder(a: Version, b: Version, c: Version)
    ensures Precedence(a, b) == -Precedence(b, a)
    ensures Precedence(a, b) == 0 <==> a == b
    ensures AtMost(a, b) && AtMost(b, c) ==> AtMost(a, c)
  {
    FieldsOrder(a.pre, b.pre, c.pre);
  }
}
