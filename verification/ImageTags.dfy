/**
  Paper image references: how the operator writes version and build into a tag, how it reads them
  back from a running StatefulSet, and how it picks the latest tag of the registry.
 */
module ImageTags {
  import opened Wrappers
  import opened Versions

  /** The largest value of the source's int type on a 64-bit platform. */
  const MAX_INT: nat := 0x7FFF_FFFF_FFFF_FFFF

  const REPOSITORY := "lexfrei/papermc:"
  const IMAGE_PREFIX := "docker.io/lexfrei/papermc:"

  /** Where the repository starts in the prefix. */
  const PLACE := 10

  // ---------------------------------------------------------------- decimal text

  predicate IsDigit(c: char) {
    '0' <= c <= '9'
  }

  predicate AllDigits(s: string) {
    forall c | c in s :: IsDigit(c)
  }

  function DigitOf(n: nat): char
    requires n < 10
  {
    '0' + n as char
  }

  function Decimal(n: nat): string {
    if n < 10 then [DigitOf(n)] else Decimal(n / 10) + [DigitOf(n % 10)]
  }

  function DecimalValue(s: string): nat
    requires AllDigits(s)
  {
    if s == [] then 0
    else
      assert s[|s| - 1] in s;
      10 * DecimalValue(s[..|s| - 1]) + (s[|s| - 1] as int - '0' as int)
  }

  lemma {:induction false} DecimalRoundTrip(n: nat)
    ensures Decimal(n) != [] && AllDigits(Decimal(n)) && DecimalValue(Decimal(n)) == n
  {
    if n >= 10 {
      DecimalRoundTrip(n / 10);
      var s := Decimal(n);
      assert s[..|s| - 1] == Decimal(n / 10);
    } else {
      assert Decimal(n)[..0] == [];
    }
  }

  function IntegerText(n: int): string {
    if n < 0 then "-" + Decimal(-n) else Decimal(n)
  }

  // ---------------------------------------------------------------- tags

  function IndexOf(s: string, c: char): (i: nat)
    ensures i <= |s| && (i < |s| ==> s[i] == c)
    ensures forall k | 0 <= k < i :: s[k] != c
  {
    if s == [] || s[0] == c then 0 else 1 + IndexOf(s[1..], c)
  }

  predicate DigitsAndDots(s: string) {
    s != "" && forall c | c in s :: IsDigit(c) || c == '.'
  }

  datatype Tag = Tag(version: string, build: string)

  /** The tag format: digits and dots, one dash, digits. */
  function SplitTag(tag: string): Option<Tag> {
    var i := IndexOf(tag, '-');
    if i < |tag| && DigitsAndDots(tag[..i]) && tag[i + 1..] != "" && AllDigits(tag[i + 1..])
    then Some(Tag(tag[..i], tag[i + 1..])) else None
  }

  function ParseBuild(s: string): Option<nat>
    requires AllDigits(s)
  {
    if DecimalValue(s) <= MAX_INT then Some(DecimalValue(s)) else None
  }

  function RenderTag(version: string, build: int): string {
    version + "-" + IntegerText(build)
  }

  lemma DashPosition(version: string, rest: string)
    requires '-' !in version
    ensures IndexOf(version + "-" + rest, '-') == |version|
  {
    var tag := version + "-" + rest;
    assert tag[|version|] == '-';
    assert forall k | 0 <= k < |version| :: tag[k] == version[k];
  }

  /** A rendered tag reads back when the version is over digits and dots and the build is not negative; otherwise not at all. */
  lemma SplitRenderedTag(version: string, build: int)
    ensures SplitTag(RenderTag(version, build)) ==
            if DigitsAndDots(version) && build >= 0 then Some(Tag(version, Decimal(build))) else None
  {
    var tag := RenderTag(version, build);
    var i := IndexOf(tag, '-');
    if '-' !in version {
      DashPosition(version, IntegerText(build));
      assert tag[..i] == version && tag[i + 1..] == IntegerText(build);
      if build >= 0 {
        DecimalRoundTrip(build);
      } else {
        assert IntegerText(build)[0] == '-';
        assert '-' in IntegerText(build);
      }
    } else {
      var j :| 0 <= j < |version| && version[j] == '-';
      assert tag[j] == '-';
      assert i < |version|;
      var k := |version| - i - 1;
      assert tag[i + 1..][k] == tag[|version|] == '-';
      assert '-' in tag[i + 1..];
    }
  }

  // ---------------------------------------------------------------- images

  datatype Detected = Detected(version: string, build: nat)

  const NOTHING := Detected("", 0)

  predicate RepositoryAt(image: string, i: nat) {
    i + |REPOSITORY| < |image| && image[i..i + |REPOSITORY|] == REPOSITORY
  }

  predicate HostedAt(image: string, i: nat) {
    i > 0 && RepositoryAt(image, i) && image[i - 1] == '/'
  }

  /** Last place below n where the repository follows a slash. */
  function LastHosted(image: string, n: nat): Option<nat>
    requires n <= |image|
  {
    if n == 0 then None
    else if HostedAt(image, n - 1) then Some(n - 1)
    else LastHosted(image, n - 1)
  }

  function FirstPlain(image: string, n: nat): Option<nat>
    requires n <= |image|
    decreases |image| - n
  {
    if n == |image| then None
    else if RepositoryAt(image, n) then Some(n)
    else FirstPlain(image, n + 1)
  }

  /** The tag that the greedy, unanchored pattern of the source finds in a one-line image reference. */
  function TagIn(image: string): Option<string> {
    var place := if LastHosted(image, |image|).Some? then LastHosted(image, |image|) else FirstPlain(image, 0);
    if place.Some? && place.value + |REPOSITORY| <= |image| then Some(image[place.value + |REPOSITORY|..]) else None
  }

  function ReadTag(text: string): Detected {
    if text == LATEST then Detected(LATEST, 0)
    else match SplitTag(text)
         case None => NOTHING
         case Some(tag) => Detected(tag.version, if ParseBuild(tag.build).Some? then ParseBuild(tag.build).value else 0)
  }

  function DetectPaperVersion(image: string): Detected {
    match TagIn(image)
    case None => NOTHING
    case Some(text) => ReadTag(text)
  }

  function RenderImage(version: string, build: int): string {
    IMAGE_PREFIX + RenderTag(version, build)
  }

  lemma RenderedPlace(version: string, build: int, i: nat)
    requires '/' !in version && RepositoryAt(RenderImage(version, build), i)
    ensures i == PLACE
  {
    var image, tag := RenderImage(version, build), RenderTag(version, build);
    NoSlashInInteger(build);
    forall k | |IMAGE_PREFIX| <= k < |image| ensures image[k] != '/' {
      assert image[k] == tag[k - |IMAGE_PREFIX|];
    }
    assert image[i] == image[i..i + |REPOSITORY|][0] == 'l';
    assert image[i + 7] == image[i..i + |REPOSITORY|][7] == '/';
    assert image[i] == IMAGE_PREFIX[i] && image[i + 7] == IMAGE_PREFIX[i + 7];
  }

  lemma NoSlashInInteger(n: int)
    ensures '/' !in IntegerText(n)
  {
    DecimalRoundTrip(if n < 0 then -n else n);
  }

  lemma {:induction false} OnlyHosted(image: string, place: nat, n: nat)
    requires place < n <= |image| && HostedAt(image, place)
    requires forall i: nat :: RepositoryAt(image, i) ==> i == place
    ensures LastHosted(image, n) == Some(place)
  {
    if n - 1 != place {
      OnlyHosted(image, place, n - 1);
    }
  }

  /**
    Round trip through an image reference.  Reading a rendered image gives back exactly the version
    and build when the version is over digits and dots and the build is not negative.  Of any other
    version without a slash it gives nothing, so a pre-release is invisible in a running StatefulSet;
    a version with a slash is never read back, although a part of it may be.
   */
  lemma ImageRoundTrip(version: string, build: int)
    requires build <= MAX_INT
    ensures '/' !in version ==>
              DetectPaperVersion(RenderImage(version, build)) ==
              if DigitsAndDots(version) && build >= 0 then Detected(version, build) else NOTHING
    ensures '/' in version ==> !DigitsAndDots(version) && DetectPaperVersion(RenderImage(version, build)).version != version
  {
    if '/' in version {
      NoSlashDetected(RenderImage(version, build));
    } else {
      TagOfRendered(version, build);
      ReadRenderedTag(version, build);
    }
  }

  lemma NoSlashDetected(image: string)
    ensures '/' !in DetectPaperVersion(image).version
  {
    hide TagIn;
    if TagIn(image).Some? {
      NoSlashRead(TagIn(image).value);
    }
  }

  lemma NoSlashRead(text: string)
    ensures '/' !in ReadTag(text).version
  {
    var tag := SplitTag(text);
    assert tag.Some? ==> DigitsAndDots(tag.value.version);
  }

  lemma ReadRenderedTag(version: string, build: int)
    requires build <= MAX_INT
    ensures ReadTag(RenderTag(version, build)) ==
            if DigitsAndDots(version) && build >= 0 then Detected(version, build) else NOTHING
  {
    var tag := RenderTag(version, build);
    SplitRenderedTag(version, build);
    if build >= 0 {
      DecimalRoundTrip(build);
    }
    assert tag[|version|] == '-';
    assert '-' in tag && '-' !in LATEST;
  }

  lemma TagOfRendered(version: string, build: int)
    requires '/' !in version
    ensures TagIn(RenderImage(version, build)) == Some(RenderTag(version, build))
  {
    var image, tag := RenderImage(version, build), RenderTag(version, build);
    assert IMAGE_PREFIX[PLACE..] == REPOSITORY;
    assert image[PLACE..PLACE + |REPOSITORY|] == REPOSITORY;
    assert HostedAt(image, PLACE);
    forall i: nat | RepositoryAt(image, i) ensures i == PLACE {
      RenderedPlace(version, build, i);
    }
    OnlyHosted(image, PLACE, |image|);
    assert image[PLACE + |REPOSITORY|..] == tag;
  }

  // ---------------------------------------------------------------- the latest tag of the registry

  /** Three dot-separated numbers. */
  predicate IsTriple(s: string) {
    var i := IndexOf(s, '.');
    i < |s| && i > 0 && AllDigits(s[..i]) &&
    var rest := s[i + 1..];
    var j := IndexOf(rest, '.');
    j < |rest| && j > 0 && AllDigits(rest[..j]) && rest[j + 1..] != "" && AllDigits(rest[j + 1..])
  }

  /** The version and build of a release tag; other tags are skipped. */
  function ReadReleaseTag(text: string): Option<Detected> {
    match SplitTag(text)
    case None => None
    case Some(tag) =>
      if IsTriple(tag.version) && ParseBuild(tag.build).Some? then Some(Detected(tag.version, ParseBuild(tag.build).value)) else None
  }

  /** The releases among the tags, in their order. */
  function Releases(tags: seq<string>): seq<Detected> {
    if tags == [] then []
    else
      var last := ReadReleaseTag(tags[|tags| - 1]);
      Releases(tags[..|tags| - 1]) + (if last.Some? then [last.value] else [])
  }

  lemma {:induction false} ReleasesMembers(tags: seq<string>, d: Detected)
    ensures d in Releases(tags) <==> exists t :: t in tags && ReadReleaseTag(t) == Some(d)
  {
    if tags != [] {
      ReleasesMembers(tags[..|tags| - 1], d);
      assert tags == tags[..|tags| - 1] + [tags[|tags| - 1]];
    }
  }

  predicate SamePrecedence(parse: Parser, a: string, b: string) {
    NotAbove(parse, a, b) && NotAbove(parse, b, a)
  }

  predicate Covers(parse: Parser, d: Detected, r: Detected) {
    NotAbove(parse, r.version, d.version) && (NotAbove(parse, d.version, r.version) ==> r.build <= d.build)
  }

  /** Version and build both come from releases of the same precedence, and no release is above them. */
  ghost predicate IsLatest(parse: Parser, rs: seq<Detected>, d: Detected) {
    && (exists r :: r in rs && r.version == d.version)
    && (exists r :: r in rs && r.build == d.build && SamePrecedence(parse, r.version, d.version))
    && forall r | r in rs :: Covers(parse, d, r)
  }

  ghost predicate AllParse(parse: Parser, rs: seq<Detected>) {
    forall r | r in rs :: Parses(parse, r.version)
  }

  /** Equal precedence means the same spelling. */
  ghost predicate SpelledAlike(parse: Parser, rs: seq<Detected>) {
    forall r, s | r in rs && s in rs && SamePrecedence(parse, r.version, s.version) :: r.version == s.version
  }

  /** The choice between the best release so far and the next one. */
  function Later(parse: Parser, best: Option<Detected>, c: Detected): Detected {
    if best.None? then c
    else
      var cmp := Compare(parse, c.version, best.value.version);
      if cmp.Ok? && cmp.value > 0 then c
      else if cmp.Ok? && cmp.value == 0 && c.build > best.value.build then Detected(best.value.version, c.build)
      else best.value
  }

  lemma LaterKeepsLatest(parse: Parser, rs: seq<Detected>, best: Option<Detected>, c: Detected)
    requires AllParse(parse, rs + [c])
    requires if best.None? then rs == [] else IsLatest(parse, rs, best.value)
    ensures IsLatest(parse, rs + [c], Later(parse, best, c))
  {
    var all, d := rs + [c], Later(parse, best, c);
    assert c in all;
    BelowOrNot(parse, c.version, c.version, c.version);
    if best.Some? {
      var b := best.value;
      var r0 :| r0 in rs && r0.version == b.version;
      var r1 :| r1 in rs && r1.build == b.build && SamePrecedence(parse, r1.version, b.version);
      assert r0 in all && r1 in all;
      BelowOrNot(parse, c.version, b.version, c.version);
      BelowOrNot(parse, b.version, c.version, b.version);
      forall r | r in rs ensures Covers(parse, d, r) {
        assert r in all;
        BelowOrNot(parse, r.version, b.version, c.version);
        BelowOrNot(parse, c.version, r.version, b.version);
        BelowOrNot(parse, b.version, c.version, r.version);
      }
    }
  }

  function ParseableOnly(parse: Parser, rs: seq<Detected>): seq<Detected> {
    if rs == [] then []
    else
      var last := rs[|rs| - 1];
      ParseableOnly(parse, rs[..|rs| - 1]) + (if Parses(parse, last.version) then [last] else [])
  }

  lemma {:induction false} ParseableMembers(parse: Parser, rs: seq<Detected>)
    ensures forall r :: r in ParseableOnly(parse, rs) <==> r in rs && Parses(parse, r.version)
    ensures AllParse(parse, rs) ==> ParseableOnly(parse, rs) == rs
  {
    if rs != [] {
      var rest, last := rs[..|rs| - 1], rs[|rs| - 1];
      ParseableMembers(parse, rest);
      assert rs == rest + [last];
      assert ParseableOnly(parse, rs) == ParseableOnly(parse, rest) + if Parses(parse, last.version) then [last] else [];
      hide ParseableOnly;
      assert AllParse(parse, rs) ==> AllParse(parse, rest);
    }
  }

  /** The choice over all releases so far: the first one sticks if it does not parse, else the latest of those that do. */
  ghost predicate IsChoice(parse: Parser, rs: seq<Detected>, latest: Option<Detected>) {
    if rs == [] then latest == None
    else latest.Some? && if Parses(parse, rs[0].version) then IsLatest(parse, ParseableOnly(parse, rs), latest.value) else latest.value == rs[0]
  }

  lemma LaterIsChoice(parse: Parser, rs: seq<Detected>, best: Option<Detected>, c: Detected)
    requires IsChoice(parse, rs, best) && Numbered(rs + [c])
    ensures IsChoice(parse, rs + [c], Some(Later(parse, best, c)))
  {
    hide IsLatest, ParseableOnly;
    var all := rs + [c];
    assert all[..|all| - 1] == rs && c in all && all[0] == if rs == [] then c else rs[0];
    assert all[0] in all;
    ParseableOneMore(parse, rs, c);
    ParseableMembers(parse, rs);
    if Parses(parse, all[0].version) && Parses(parse, c.version) {
      LaterKeepsLatest(parse, ParseableOnly(parse, rs), best, c);
    } else if rs != [] {
      BestIsNumbered(parse, rs, best.value);
      BestParses(parse, rs, best.value);
    }
  }

  lemma ParseableOneMore(parse: Parser, rs: seq<Detected>, c: Detected)
    ensures ParseableOnly(parse, rs + [c]) ==
              if Parses(parse, c.version) then ParseableOnly(parse, rs) + [c] else ParseableOnly(parse, rs)
    ensures rs == [] ==> ParseableOnly(parse, rs) == []
  {
    assert (rs + [c])[..|rs|] == rs;
  }

  /** Only a first release that does not parse is ever kept without parsing. */
  lemma BestParses(parse: Parser, rs: seq<Detected>, best: Detected)
    requires rs != [] && IsChoice(parse, rs, Some(best))
    ensures Parses(parse, best.version) <==> Parses(parse, rs[0].version)
  {
    ParseableMembers(parse, rs);
  }

  ghost predicate Numbered(rs: seq<Detected>) {
    forall r | r in rs :: r.version != LATEST
  }

  lemma BestIsNumbered(parse: Parser, rs: seq<Detected>, best: Detected)
    requires rs != [] && IsChoice(parse, rs, Some(best)) && Numbered(rs)
    ensures best.version != LATEST
  {
    ParseableMembers(parse, rs);
    assert rs[0] in rs;
  }

  lemma {:induction false} ReleasesAreNumbered(tags: seq<string>)
    ensures Numbered(Releases(tags))
  {
    if tags != [] {
      ReleasesAreNumbered(tags[..|tags| - 1]);
      var tag := SplitTag(tags[|tags| - 1]);
      if tag.Some? && IsTriple(tag.value.version) {
        assert '.' in tag.value.version && '.' !in LATEST;
      }
    }
  }

  /**
    The latest release among the tags.  If the first release does not parse, it is the answer;
    otherwise the answer is the latest of the releases that parse: none of them has a higher version,
    none of the same version a higher build.  It is itself a release when equal versions are spelled alike.
   */
  method FindLatestVersionFromTags(parse: Parser, tags: seq<string>) returns (latest: Option<Detected>)
    ensures IsChoice(parse, Releases(tags), latest)
    ensures latest.None? <==> Releases(tags) == []
    ensures latest.Some? && AllParse(parse, Releases(tags)) ==> IsLatest(parse, Releases(tags), latest.value)
    ensures latest.Some? && AllParse(parse, Releases(tags)) && SpelledAlike(parse, Releases(tags)) ==>
              latest.value in Releases(tags)
  {
    hide IsLatest, ParseableOnly, SpelledAlike;
    latest := None;
    for i := 0 to |tags|
      invariant IsChoice(parse, Releases(tags[..i]), latest)
    {
      assert tags[..i + 1][..i] == tags[..i];
      var candidate := ReadReleaseTag(tags[i]);
      assert Releases(tags[..i + 1]) == if candidate.Some? then Releases(tags[..i]) + [candidate.value] else Releases(tags[..i]);
      if candidate.None? {
        continue;
      }
      var c := candidate.value;
      ReleasesAreNumbered(tags[..i + 1]);
      LaterIsChoice(parse, Releases(tags[..i]), latest, c);
      if latest.None? {
        latest := Some(c);
        continue;
      }
      var cmp := Compare(parse, c.version, latest.value.version);
      if cmp.Err? {
        continue;
      }
      if cmp.value > 0 {
        latest := Some(c);
      } else if cmp.value == 0 && c.build > latest.value.build {
        latest := Some(Detected(latest.value.version, c.build));
      }
    }
    assert tags[..|tags|] == tags;
    ParseableMembers(parse, Releases(tags));
    if latest.Some? && AllParse(parse, Releases(tags)) && SpelledAlike(parse, Releases(tags)) {
      LatestIsRelease(parse, Releases(tags), latest.value);
    }
  }

  lemma LatestIsRelease(parse: Parser, rs: seq<Detected>, d: Detected)
    requires IsLatest(parse, rs, d) && SpelledAlike(parse, rs)
    ensures d in rs
  {
    var r0 :| r0 in rs && r0.version == d.version;
    var r1 :| r1 in rs && r1.build == d.build && SamePrecedence(parse, r1.version, d.version);
    assert r1.version == r0.version;
  }
}
