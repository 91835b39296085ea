/** Version strings: comparison, the "latest" tag, glob patterns and the update delay (pkg/version). */
module Versions {
  import opened Wrappers
  import opened Semver

  const LATEST := "latest"

  /** Characters that the grammar of Semantic Versioning 2.0.0 allows in a version. */
  predicate SemverText(s: string) {
    forall c | c in s :: '0' <= c <= '9' || 'a' <= c <= 'z' || 'A' <= c <= 'Z' || c in ".-+"
  }

  ghost predicate IsParser(parse: string -> Option<Version>) {
    parse("").None? && parse(LATEST).None? && forall s :: parse(s).Some? ==> SemverText(s)
  }

  /** The version parser is a library: everything below holds for any parser of semantic versions. */
  type Parser = parse: string -> Option<Version> | IsParser(parse) witness (s: string) => None

  predicate Parses(parse: Parser, s: string) {
    parse(s).Some?
  }

  /** Both strings parse and the first has lower or equal precedence. */
  predicate NotAbove(parse: Parser, a: string, b: string) {
    Parses(parse, a) && Parses(parse, b) && AtMost(parse(a).value, parse(b).value)
  }

  /** Both strings parse and the first has strictly lower precedence. */
  predicate Below(parse: Parser, a: string, b: string) {
    Parses(parse, a) && Parses(parse, b) && Precedence(parse(a).value, parse(b).value) < 0
  }

  /** A comparison fails on the first of its arguments that does not parse. */
  function Compare(parse: Parser, v1: string, v2: string): Result<int, string> {
    if v1 == LATEST || v2 == LATEST then
      Ok(if v1 == v2 then 0 else if v1 == LATEST then 1 else -1)
    else if !Parses(parse, v1) then Err(v1)
    else if !Parses(parse, v2) then Err(v2)
    else Ok(Precedence(parse(v1).value, parse(v2).value))
  }

  function IsDowngrade(parse: Parser, current: string, candidate: string): Result<bool, string> {
    match Compare(parse, candidate, current)
    case Err(e) => Err(e)
    case Ok(c) => Ok(c < 0)
  }

  predicate Comparable(parse: Parser, a: string, b: string) {
    a == LATEST || b == LATEST || (Parses(parse, a) && Parses(parse, b))
  }

  /** Compare decides exactly the comparable pairs, is antisymmetric and transitive on them, and puts "latest" on top. */
  lemma CompareIsOrderWithTop(parse: Parser, a: string, b: string, c: string)
    ensures Compare(parse, a, b).Ok? <==> Comparable(parse, a, b)
    ensures Compare(parse, a, b).Ok? ==> Compare(parse, b, a) == Ok(-Compare(parse, a, b).value)
    ensures Compare(parse, LATEST, a).Ok? && Compare(parse, LATEST, a).value >= 0
    ensures (Compare(parse, a, b).Ok? && Compare(parse, a, b).value <= 0 &&
             Compare(parse, b, c).Ok? && Compare(parse, b, c).value <= 0) ==>
              Compare(parse, a, c).Ok? && Compare(parse, a, c).value <= 0
  {
    if Parses(parse, a) && Parses(parse, b) {
      PrecedenceIsTotalOrder(parse(a).value, parse(b).value, if Parses(parse, c) then parse(c).value else parse(a).value);
    }
  }

  lemma BelowOrNot(parse: Parser, a: string, b: string, c: string)
    ensures Parses(parse, a) && Parses(parse, b) ==> (NotAbove(parse, a, b) <==> !Below(parse, b, a))
    ensures NotAbove(parse, a, b) && NotAbove(parse, b, c) ==> NotAbove(parse, a, c)
    ensures Below(parse, a, b) ==> NotAbove(parse, a, b)
    ensures Parses(parse, a) ==> NotAbove(parse, a, a)
  {
    if Parses(parse, a) {
      PrecedenceIsTotalOrder(parse(a).value, parse(a).value, parse(a).value);
      if Parses(parse, b) {
        PrecedenceIsTotalOrder(parse(a).value, parse(b).value, if Parses(parse, c) then parse(c).value else parse(a).value);
      }
    }
  }

  /** The first of the greatest parseable versions; an error exactly when a non-empty list has none. */
  method FindMaxVersion(parse: Parser, versions: seq<string>) returns (r: Result<string, string>)
    ensures versions == [] ==> r == Ok("")
    ensures versions != [] ==> (r.Err? <==> forall i :: 0 <= i < |versions| ==> !Parses(parse, versions[i]))
    ensures versions != [] && r.Ok? ==> exists k :: 0 <= k < |versions| && IsFirstMax(parse, versions, k) && r.value == versions[k]
  {
    if versions == [] {
      return Ok("");
    }
    var best: Option<nat> := None;
    for i := 0 to |versions|
      invariant best.Some? ==> best.value < i && IsFirstMax(parse, versions[..i], best.value)
      invariant best.None? ==> forall j :: 0 <= j < i ==> !Parses(parse, versions[j])
    {
      if Parses(parse, versions[i]) && (best.None? || Below(parse, versions[best.value], versions[i])) {
        forall j | 0 <= j < i && Parses(parse, versions[j]) ensures Below(parse, versions[j], versions[i]) {
          assert versions[..i][j] == versions[j];
          BelowOrNot(parse, versions[i], versions[j], versions[best.value]);
          BelowOrNot(parse, versions[i], versions[best.value], versions[j]);
        }
        best := Some(i);
      } else if best.Some? && Parses(parse, versions[i]) {
        BelowOrNot(parse, versions[i], versions[best.value], versions[i]);
      }
      assert forall j :: 0 <= j < i ==> versions[..i][j] == versions[..i + 1][j];
    }
    assert versions[..|versions|] == versions;
    if best.None? {
      return Err("no valid versions found");
    }
    return Ok(versions[best.value]);
  }

  /** Entry k parses, everything before it is below it and nothing after it is above it. */
  predicate IsFirstMax(parse: Parser, versions: seq<string>, k: nat)
    requires k < |versions|
  {
    && Parses(parse, versions[k])
    && (forall j | 0 <= j < k && Parses(parse, versions[j]) :: Below(parse, versions[j], versions[k]))
    && (forall j | k < j < |versions| && Parses(parse, versions[j]) :: NotAbove(parse, versions[j], versions[k]))
  }

  /** "1.21.x" stands for every version that starts with "1.21.". */
  predicate MatchesVersionPattern(pattern: string, target: string) {
    && |pattern| > 2
    && pattern[|pattern| - 2..] == ".x"
    && var prefix := pattern[..|pattern| - 1];
    |target| >= |prefix| && target[..|prefix|] == prefix
  }

  predicate ContainsVersion(versions: seq<string>, target: string) {
    exists v | v in versions :: v == target || MatchesVersionPattern(v, target)
  }

  /** A list accepts a version exactly when it names it or names a pattern over a proper stem of it. */
  lemma ContainsVersionMeaning(versions: seq<string>, target: string)
    ensures ContainsVersion(versions, target) <==>
            target in versions || exists stem :: stem != "" && stem + ".x" in versions && stem + "." <= target
  {
    forall v | v in versions
      ensures MatchesVersionPattern(v, target) <==> exists stem :: stem != "" && v == stem + ".x" && stem + "." <= target
    {
      if MatchesVersionPattern(v, target) {
        var stem := v[..|v| - 2];
        assert v == stem + ".x" && stem + "." == v[..|v| - 1];
      }
      forall stem | stem != "" && v == stem + ".x" && stem + "." <= target ensures MatchesVersionPattern(v, target) {
        assert v[..|v| - 1] == stem + ".";
      }
    }
  }

  /** The entries released at least `delay` before `now`, in their order; a zero delay keeps everything. */
  ghost predicate IsDelayFilter<T(!new)>(items: seq<T>, date: T -> int, delay: int, now: int, kept: seq<T>) {
    if delay == 0 then kept == items else kept == Released(items, date, now - delay)
  }

  function Released<T>(items: seq<T>, date: T -> int, cutoff: int): seq<T> {
    if items == [] then []
    else
      var rest := Released(items[..|items| - 1], date, cutoff);
      if date(items[|items| - 1]) <= cutoff then rest + [items[|items| - 1]] else rest
  }

  lemma {:induction false} ReleasedMembers<T>(items: seq<T>, date: T -> int, cutoff: int, x: T)
    ensures x in Released(items, date, cutoff) <==> x in items && date(x) <= cutoff
  {
    if items != [] {
      ReleasedMembers(items[..|items| - 1], date, cutoff, x);
      assert items == items[..|items| - 1] + [items[|items| - 1]];
    }
  }

  method FilterByUpdateDelay<T(!new)>(items: seq<T>, date: T -> int, delay: int, now: int) returns (kept: seq<T>)
    ensures IsDelayFilter(items, date, delay, now, kept)
    ensures forall x :: x in kept <==> x in items && (delay == 0 || date(x) <= now - delay)
  {
    if delay == 0 {
      return items;
    }
    var cutoff := now - delay;
    kept := [];
    for i := 0 to |items|
      invariant kept == Released(items[..i], date, cutoff)
    {
      assert items[..i + 1][..i] == items[..i];
      if date(items[i]) <= cutoff {
        kept := kept + [items[i]];
      }
    }
    assert items[..|items|] == items;
    forall x ensures x in kept <==> x in items && date(x) <= cutoff {
      ReleasedMembers(items, date, cutoff, x);
    }
  }
}
