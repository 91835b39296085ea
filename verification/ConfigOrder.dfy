/**
  When the order of copy entries matters (internal/controller/config_injector.go): entries that are
  apart do not notice each other, and for targets the exact condition is that no two of them clash.
 */
module ConfigOrder {
  import opened Wrappers
  import opened ConfigPaths
  import opened ConfigScript

  // ---------------------------------------------------------------- equivalent lists

  /** Both succeed on the same disks, and then with the same result. */
  ghost predicate Equivalent(a: seq<Entry>, b: seq<Entry>) {
    forall sources, d :: SameOutcome(Run(a, sources, d), Run(b, sources, d))
  }

  predicate SameOutcome(x: Outcome, y: Outcome) {
    x.ok == y.ok && (x.ok ==> x == y)
  }

  lemma {:induction false} RunAppend(a: seq<Entry>, b: seq<Entry>, sources: map<string, string>, d: Disk)
    ensures var first := Run(a, sources, d);
            Run(a + b, sources, d) == if first.ok then Run(b, sources, first.disk) else first
    decreases |a|
  {
    if a == [] {
      assert a + b == b;
    } else {
      assert (a + b)[1..] == a[1..] + b;
      if CanRun(a[0], sources, d) {
        RunAppend(a[1..], b, sources, After(a[0], sources, d));
      }
    }
  }

  /** Equivalent parts make equivalent lists. */
  lemma AppendEquivalent(a: seq<Entry>, a': seq<Entry>, b: seq<Entry>, b': seq<Entry>)
    requires Equivalent(a, a') && Equivalent(b, b')
    ensures Equivalent(a + b, a' + b')
  {
    forall sources, d ensures SameOutcome(Run(a + b, sources, d), Run(a' + b', sources, d)) {
      RunAppend(a, b, sources, d);
      RunAppend(a', b', sources, d);
      assert SameOutcome(Run(a, sources, d), Run(a', sources, d));
      var mid := Run(a, sources, d).disk;
      assert SameOutcome(Run(b, sources, mid), Run(b', sources, mid));
    }
  }

  lemma EquivalentTransitive(a: seq<Entry>, b: seq<Entry>, c: seq<Entry>)
    requires Equivalent(a, b) && Equivalent(b, c)
    ensures Equivalent(a, c)
  {
    forall sources, d ensures SameOutcome(Run(a, sources, d), Run(c, sources, d)) {
      assert SameOutcome(Run(a, sources, d), Run(b, sources, d)) && SameOutcome(Run(b, sources, d), Run(c, sources, d));
    }
  }

  ghost predicate Swappable(e: Entry, f: Entry) {
    Equivalent([e, f], [f, e])
  }

  lemma {:induction false} MoveToFront(b: seq<Entry>, i: nat)
    requires i < |b| && forall j | 0 <= j < i :: Swappable(b[j], b[i])
    ensures Equivalent(b, [b[i]] + b[..i] + b[i + 1..])
    decreases i
  {
    hide Equivalent;
    EquivalentToItself(b);
    if i == 0 {
      assert b == [b[0]] + b[..0] + b[1..];
    } else {
      var front, y, x, tail := b[..i - 1], b[i - 1], b[i], b[i + 1..];
      var c := front + [x, y] + tail;
      assert b == front + [y, x] + tail;
      assert Swappable(y, x);
      EquivalentToItself(front);
      EquivalentToItself(tail);
      AppendEquivalent(front, front, [y, x], [x, y]);
      AppendEquivalent(front + [y, x], front + [x, y], tail, tail);
      assert c[i - 1] == x && c[..i - 1] == front && c[i..] == [y] + tail;
      assert forall j | 0 <= j < i - 1 :: c[j] == b[j];
      MoveToFront(c, i - 1);
      assert [x] + front + ([y] + tail) == [x] + b[..i] + tail;
      EquivalentTransitive(b, c, [x] + b[..i] + tail);
    }
  }

  lemma EquivalentToItself(a: seq<Entry>)
    ensures Equivalent(a, a)
  {
  }

  /** Any two orders of pairwise swappable entries are equivalent. */
  lemma {:induction false} PermutedEquivalent(a: seq<Entry>, b: seq<Entry>)
    requires multiset(a) == multiset(b)
    requires forall x, y | x in a && y in a && x != y :: Swappable(x, y)
    ensures Equivalent(a, b)
  {
    hide Swappable, Equivalent;
    if a == [] {
      assert |multiset(b)| == 0;
      assert b == [];
      EquivalentToItself(a);
    } else {
      var i := FirstPlaceOf(a, b);
      var others := b[..i] + b[i + 1..];
      forall j | 0 <= j < i ensures Swappable(b[j], b[i]) {
        assert b[j] in multiset(a);
      }
      MoveToFront(b, i);
      forall y | y in a[1..] ensures y in a {
      }
      PermutedEquivalent(a[1..], others);
      EquivalentToItself([a[0]]);
      AppendEquivalent([a[0]], [a[0]], a[1..], others);
      assert a == [a[0]] + a[1..] && [a[0]] + b[..i] + b[i + 1..] == [a[0]] + others;
      EquivalentSymmetric(b, [a[0]] + others);
      EquivalentTransitive(a, [a[0]] + others, b);
    }
  }

  /** The first place of a's head in b; without it b is an order of the rest. */
  lemma FirstPlaceOf(a: seq<Entry>, b: seq<Entry>) returns (i: nat)
    requires a != [] && multiset(a) == multiset(b)
    ensures i < |b| && b[i] == a[0] && forall j | 0 <= j < i :: b[j] != a[0]
    ensures multiset(a[1..]) == multiset(b[..i] + b[i + 1..])
  {
    i := FirstPlace(b, a[0]) by {
      assert a[0] in multiset(b);
    }
    calc {
      multiset(a[1..]);
      { WithoutHead(a); }
      multiset(a) - multiset{a[0]};
      { WithoutOne(b, i); }
      multiset(b[..i] + b[i + 1..]);
    }
  }

  lemma WithoutHead(s: seq<Entry>)
    requires s != []
    ensures multiset(s[1..]) == multiset(s) - multiset{s[0]}
  {
    assert s == [s[0]] + s[1..];
  }

  lemma WithoutOne(s: seq<Entry>, k: nat)
    requires k < |s|
    ensures multiset(s[..k] + s[k + 1..]) == multiset(s) - multiset{s[k]}
  {
    assert s == s[..k] + [s[k]] + s[k + 1..];
  }

  lemma EquivalentSymmetric(a: seq<Entry>, b: seq<Entry>)
    requires Equivalent(a, b)
    ensures Equivalent(b, a)
  {
    forall sources, d ensures SameOutcome(Run(b, sources, d), Run(a, sources, d)) {
      assert SameOutcome(Run(a, sources, d), Run(b, sources, d));
    }
  }

  lemma {:induction false} FirstPlace(b: seq<Entry>, x: Entry) returns (i: nat)
    requires x in b
    ensures i < |b| && b[i] == x && forall j | 0 <= j < i :: b[j] != x
  {
    if b[0] == x {
      i := 0;
    } else {
      assert b == [b[0]] + b[1..];
      var k := FirstPlace(b[1..], x);
      i := k + 1;
      assert forall j | 1 <= j <= i :: b[j] == b[1..][j - 1];
    }
  }

  // ---------------------------------------------------------------- entries that are apart

  /** The entries aim at different files, and neither file lies below the other. */
  predicate Apart(e: Entry, f: Entry) {
    Incomparable(Aim(e), Aim(f))
  }

  lemma PrefixOf(p: Path, q: Path, r: Path)
    requires p <= q && q <= r
    ensures p <= r
  {
    assert p == q[..|p|] && q == r[..|q|];
  }

  /** The file an entry goes to is the one it aims at, or lies in a directory of that name. */
  lemma DestBelowAim(e: Entry, d: Disk)
    ensures Aim(e) <= Dest(e, d) && DirOf(e.targetPath) <= Aim(e) && DirOf(e.targetPath) != Aim(e)
    ensures Dest(e, d) == Aim(e) || (Named(e.targetPath) && Dest(e, d) == Aim(e) + [Base(e)])
  {
    TargetIsNoAncestor(e);
  }

  /** An entry that is carried out leaves one that is apart from it as it was. */
  lemma Undisturbed(e: Entry, f: Entry, sources: map<string, string>, d: Disk)
    requires Apart(e, f) && CanRun(f, sources, d)
    ensures var d' := After(f, sources, d);
            && (CanRun(e, sources, d') <==> CanRun(e, sources, d))
            && Dest(e, d') == Dest(e, d) && (Skips(e, d') <==> Skips(e, d))
            && Dest(e, d) != Dest(f, d)
            && (Dest(e, d) in d'.files <==> Dest(e, d) in d.files)
            && (Dest(e, d) in d.files ==> d'.files[Dest(e, d)] == d.files[Dest(e, d)])
  {
    var d' := After(f, sources, d);
    var p, q := DirOf(e.targetPath), DirOf(f.targetPath);
    DestBelowAim(e, d);
    DestBelowAim(f, d);
    ApartPlaces(e, f, d);
    assert forall a | a in Ancestors(p) :: a in d'.files <==> a in d.files;
    assert Named(e.targetPath) ==> (IsDir(d', Target(e)) <==> IsDir(d, Target(e)));
  }

  /** Where entries that are apart meet nothing of each other. */
  lemma ApartPlaces(e: Entry, f: Entry, d: Disk)
    requires Apart(e, f)
    ensures Dest(f, d) !in Ancestors(DirOf(e.targetPath))
    ensures Named(e.targetPath) ==> Target(e) !in Ancestors(DirOf(f.targetPath)) && Target(e) != Dest(f, d)
    ensures Dest(e, d) !in Ancestors(DirOf(f.targetPath)) && Dest(e, d) != Dest(f, d)
  {
    var p, q := DirOf(e.targetPath), DirOf(f.targetPath);
    DestBelowAim(e, d);
    DestBelowAim(f, d);
    AncestorIff(Dest(f, d), p);
    AncestorIff(Target(e), q);
    AncestorIff(Dest(e, d), q);
    if Dest(f, d) <= p {
      PrefixOf(Aim(f), Dest(f, d), p);
      PrefixOf(Aim(f), p, Aim(e));
    }
    if Dest(e, d) <= q {
      PrefixOf(Aim(e), Dest(e, d), q);
      PrefixOf(Aim(e), q, Aim(f));
    }
    if Aim(e) <= q {
      PrefixOf(Aim(e), q, Aim(f));
    }
    if Aim(e) == Dest(f, d) || Dest(e, d) == Dest(f, d) {
      SamePlace(e, f, d);
    }
  }

  lemma SamePlace(e: Entry, f: Entry, d: Disk)
    requires Aim(e) == Dest(f, d) || Dest(e, d) == Dest(f, d)
    ensures !Apart(e, f)
  {
    DestBelowAim(e, d);
    DestBelowAim(f, d);
    if Dest(e, d) == Dest(f, d) {
      CommonPrefixes(Aim(e), Aim(f), Dest(e, d));
    }
  }

  lemma CommonPrefixes(p: Path, q: Path, r: Path)
    requires p <= r && q <= r
    ensures p <= q || q <= p
  {
    assert p == r[..|p|] && q == r[..|q|];
    if |p| <= |q| {
      assert p == q[..|p|];
    } else {
      assert q == p[..|q|];
    }
  }

  lemma RunOfTwo(e: Entry, f: Entry, sources: map<string, string>, d: Disk)
    ensures Run([e, f], sources, d).ok <==> CanRun(e, sources, d) && CanRun(f, sources, After(e, sources, d))
    ensures Run([e, f], sources, d).ok ==> Run([e, f], sources, d) == Outcome(After(f, sources, After(e, sources, d)), true)
  {
    assert [e, f][1..] == [f] && [f][1..] == [];
    if CanRun(e, sources, d) {
      var mid := After(e, sources, d);
      assert Run([e, f], sources, d) == Run([f], sources, mid);
      if CanRun(f, sources, mid) {
        assert Run([f], sources, mid) == Run([f][1..], sources, After(f, sources, mid));
      }
    }
  }

  lemma ApartSwappable(e: Entry, f: Entry)
    requires Apart(e, f)
    ensures Swappable(e, f)
  {
    forall sources, d ensures SameOutcome(Run([e, f], sources, d), Run([f, e], sources, d)) {
      RunOfTwo(e, f, sources, d);
      RunOfTwo(f, e, sources, d);
      if CanRun(e, sources, d) {
        Undisturbed(f, e, sources, d);
      }
      if CanRun(f, sources, d) {
        Undisturbed(e, f, sources, d);
      }
      if CanRun(e, sources, d) && CanRun(f, sources, d) {
        var x, y := After(f, sources, After(e, sources, d)), After(e, sources, After(f, sources, d));
        assert x.dirs == y.dirs && x.files == y.files;
      }
    }
  }

  // ---------------------------------------------------------------- targets that clash

  /** The target is a file in the way of the other one's directory. */
  predicate Swallows(s: string, t: string) {
    Named(s) && Clean(s) <= DirOf(t)
  }

  /** One file is in the way of the other's directory, or both targets can name the same file. */
  predicate Clash(s: string, t: string) {
    || Swallows(s, t) || Swallows(t, s)
    || (DirOf(s) == DirOf(t) && (!Named(s) || !Named(t) || LastPart(s) == LastPart(t)))
  }

  /** A copy into a directory whose file is in the way of the other entry: both orders fail on every disk. */
  lemma NestedSwappable(e: Entry, f: Entry)
    requires !Named(e.targetPath) && Aim(e) <= DirOf(f.targetPath)
    ensures Swappable(e, f)
  {
    forall sources, d ensures SameOutcome(Run([e, f], sources, d), Run([f, e], sources, d)) {
      RunOfTwo(e, f, sources, d);
      RunOfTwo(f, e, sources, d);
      DestBelowAim(e, d);
      AncestorIff(Aim(e), DirOf(f.targetPath));
    }
  }

  lemma SwappableSymmetric(e: Entry, f: Entry)
    requires Swappable(e, f)
    ensures Swappable(f, e)
  {
    EquivalentSymmetric([e, f], [f, e]);
  }

  lemma NoClashSwappable(e: Entry, f: Entry)
    requires !Clash(e.targetPath, f.targetPath)
    ensures Swappable(e, f)
  {
    var p, q := DirOf(e.targetPath), DirOf(f.targetPath);
    TargetIsNoAncestor(e);
    TargetIsNoAncestor(f);
    if Apart(e, f) {
      ApartSwappable(e, f);
    } else {
      NotApart(e, f);
      if Aim(e) <= q {
        NestedSwappable(e, f);
      } else {
        NestedSwappable(f, e);
        SwappableSymmetric(f, e);
      }
    }
  }

  /** Comparable aims are equal, or one lies in or is the directory of the other. */
  lemma NotApart(e: Entry, f: Entry)
    requires !Apart(e, f)
    ensures Aim(e) <= DirOf(f.targetPath) || Aim(f) <= DirOf(e.targetPath) || Aim(e) == Aim(f)
    ensures Aim(e) == Aim(f) ==> DirOf(e.targetPath) == DirOf(f.targetPath) &&
                                 (Named(e.targetPath) && Named(f.targetPath) ==> LastPart(e.targetPath) == LastPart(f.targetPath))
  {
    TargetIsNoAncestor(e);
    TargetIsNoAncestor(f);
    var p, q := DirOf(e.targetPath), DirOf(f.targetPath);
    assert p == Aim(e)[..|Aim(e)| - 1] && q == Aim(f)[..|Aim(f)| - 1];
    if Aim(e) <= Aim(f) && Aim(e) != Aim(f) {
      assert Aim(e) == Aim(f)[..|Aim(e)|] == q[..|Aim(e)|];
    }
    if Aim(f) <= Aim(e) && Aim(e) != Aim(f) {
      assert Aim(f) == Aim(e)[..|Aim(f)|] == p[..|Aim(f)|];
    }
  }

  // ---------------------------------------------------------------- where the order matters

  /** With these source names one order makes a file where the other makes a directory, or both write the same file. */
  predicate Conflict(e: Entry, f: Entry) {
    || (Swallows(e.targetPath, f.targetPath) && !(Target(e) + [Base(e)] <= DirOf(f.targetPath)))
    || (Swallows(f.targetPath, e.targetPath) && !(Target(f) + [Base(f)] <= DirOf(e.targetPath)))
    || (DirOf(e.targetPath) == DirOf(f.targetPath) && Aim(e) == Aim(f))
  }

  /** On an empty disk an entry whose source is there goes where it aims. */
  lemma FirstOnEmpty(e: Entry, sources: map<string, string>)
    requires e.sourcePath in sources
    ensures CanRun(e, sources, EMPTY) && Dest(e, EMPTY) == Aim(e) && !Skips(e, EMPTY)
    ensures After(e, sources, EMPTY) == Disk(map[Aim(e) := sources[e.sourcePath]], Ancestors(DirOf(e.targetPath)))
  {
    TargetIsNoAncestor(e);
  }

  /** One order succeeds on an empty disk, the other one fails. */
  lemma SwallowingDiffers(e: Entry, f: Entry, sources: map<string, string>)
    requires Swallows(e.targetPath, f.targetPath) && !(Target(e) + [Base(e)] <= DirOf(f.targetPath))
    requires e.sourcePath in sources && f.sourcePath in sources
    ensures !Run([e, f], sources, EMPTY).ok && Run([f, e], sources, EMPTY).ok
  {
    var p, q := DirOf(e.targetPath), DirOf(f.targetPath);
    TargetIsNoAncestor(e);
    TargetIsNoAncestor(f);
    FirstOnEmpty(e, sources);
    FirstOnEmpty(f, sources);
    RunOfTwo(e, f, sources, EMPTY);
    RunOfTwo(f, e, sources, EMPTY);
    AncestorIff(Target(e), q);
    AncestorIff(Target(e) + [Base(e)], q);
    AncestorIff(Aim(f), p);
    if Aim(f) <= p {
      PrefixOf(q, Aim(f), p);
      PrefixOf(Target(e), q, p);
    }
  }

  /** Both orders succeed on an empty disk, and leave the contents of the last entry. */
  lemma SameAimDiffers(e: Entry, f: Entry, sources: map<string, string>)
    requires DirOf(e.targetPath) == DirOf(f.targetPath) && Aim(e) == Aim(f) && e.overwrite == f.overwrite == Always
    requires e.sourcePath in sources && f.sourcePath in sources
    ensures var o := Run([e, f], sources, EMPTY); o.ok && Aim(e) in o.disk.files && o.disk.files[Aim(e)] == sources[f.sourcePath]
  {
    TargetIsNoAncestor(e);
    TargetIsNoAncestor(f);
    FirstOnEmpty(e, sources);
    RunOfTwo(e, f, sources, EMPTY);
    if Named(f.targetPath) {
      AncestorIff(Target(f), DirOf(e.targetPath));
    }
  }

  lemma ConflictNotSwappable(e: Entry, f: Entry)
    requires Conflict(e, f) && e.overwrite == f.overwrite == Always && e.sourcePath != f.sourcePath
    ensures !Swappable(e, f)
  {
    var sources := map[e.sourcePath := "1", f.sourcePath := "2"];
    if Swallows(e.targetPath, f.targetPath) && !(Target(e) + [Base(e)] <= DirOf(f.targetPath)) {
      SwallowingDiffers(e, f, sources);
    } else if Swallows(f.targetPath, e.targetPath) && !(Target(f) + [Base(f)] <= DirOf(e.targetPath)) {
      SwallowingDiffers(f, e, sources);
    } else {
      SameAimDiffers(e, f, sources);
      SameAimDiffers(f, e, sources);
    }
    assert !SameOutcome(Run([e, f], sources, EMPTY), Run([f, e], sources, EMPTY));
  }

  /** The names that two copied files can have for the clash of their targets to show. */
  lemma ClashingNames(s: string, t: string) returns (x: string, y: string)
    requires Clash(s, t)
    ensures '/' !in x && '/' !in y
    ensures forall e: Entry, f: Entry | e.targetPath == s && f.targetPath == t && Base(e) == x && Base(f) == y :: Conflict(e, f)
  {
    TargetSplits(s);
    TargetSplits(t);
    LastPartHasNoSlash(s);
    LastPartHasNoSlash(t);
    if Swallows(s, t) {
      y := "x";
      x := OtherSegment(Clean(s), DirOf(t));
    } else if Swallows(t, s) {
      x := "x";
      y := OtherSegment(Clean(t), DirOf(s));
    } else {
      x := if Named(t) then LastPart(t) else "x";
      y := if Named(s) then LastPart(s) else "x";
    }
  }

  /** A name that does not lead further along the path. */
  lemma OtherSegment(p: Path, q: Path) returns (x: string)
    ensures '/' !in x && !(p + [x] <= q)
  {
    x := if |p| < |q| && q[|p|] == "x" then "y" else "x";
    assert (p + [x])[|p|] == x;
  }

  /** Entries with different targets, all of them among the given ones. */
  ghost predicate Aiming(entries: seq<Entry>, targets: iset<string>) {
    DistinctTargets(entries) && forall e | e in entries :: e.targetPath in targets
  }

  ghost predicate DistinctTargets(entries: seq<Entry>) {
    forall i, j | 0 <= i < j < |entries| :: entries[i].targetPath != entries[j].targetPath
  }

  ghost predicate NoneClash(targets: iset<string>) {
    forall s, t | s in targets && t in targets && s != t :: !Clash(s, t)
  }

  /**
    For entries with these targets, whatever they copy and under which policy, every two orders have
    the same outcome on every disk exactly when no two of the targets clash.
   */
  lemma OrdersAgreeIff(targets: iset<string>)
    ensures (forall a, b | multiset(a) == multiset(b) && Aiming(a, targets) :: Equivalent(a, b)) <==> NoneClash(targets)
  {
    if NoneClash(targets) {
      forall a, b | multiset(a) == multiset(b) && Aiming(a, targets) ensures Equivalent(a, b) {
        UnclashingOrders(a, b, targets);
      }
    } else {
      var s, t :| s in targets && t in targets && s != t && Clash(s, t);
      var e, f := ClashingEntries(s, t);
      assert multiset([e, f]) == multiset([f, e]) && Aiming([e, f], targets);
    }
  }

  lemma ClashingEntries(s: string, t: string) returns (e: Entry, f: Entry)
    requires Clash(s, t)
    ensures e.targetPath == s && f.targetPath == t && !Swappable(e, f)
  {
    var x, y := ClashingNames(s, t);
    e, f := Entry("1/" + x, s, Always), Entry("2/" + y, t, Always);
    NamedSource("1", x);
    NamedSource("2", y);
    assert "1" + "/" + x == "1/" + x && "2" + "/" + y == "2/" + y;
    assert e.sourcePath[0] != f.sourcePath[0];
    ConflictNotSwappable(e, f);
  }

  lemma NamedSource(a: string, x: string)
    requires '/' !in x
    ensures LastPart(a + "/" + x) == x
  {
    GluedLast(a, x);
    PlainPart(x);
  }

  lemma UnclashingOrders(a: seq<Entry>, b: seq<Entry>, targets: iset<string>)
    requires NoneClash(targets) && multiset(a) == multiset(b) && Aiming(a, targets)
    ensures Equivalent(a, b)
  {
    forall x, y | x in a && y in a && x != y ensures Swappable(x, y) {
      var i :| 0 <= i < |a| && a[i] == x;
      var j :| 0 <= j < |a| && a[j] == y;
      assert x.targetPath != y.targetPath;
      NoClashSwappable(x, y);
    }
    PermutedEquivalent(a, b);
  }

  // ---------------------------------------------------------------- what each entry decides

  ghost predicate AllApart(entries: seq<Entry>) {
    forall i, j | 0 <= i < j < |entries| :: Apart(entries[i], entries[j])
  }

  /** Entries that are apart succeed exactly when each can be carried out on its own. */
  lemma {:induction false} RunSucceedsIff(entries: seq<Entry>, sources: map<string, string>, d: Disk)
    requires AllApart(entries)
    ensures Run(entries, sources, d).ok <==> forall e | e in entries :: CanRun(e, sources, d)
    decreases |entries|
  {
    if entries != [] {
      var e, rest := entries[0], entries[1..];
      assert entries == [e] + rest;
      assert AllApart(rest) by {
        assert forall i | 0 <= i < |rest| :: rest[i] == entries[i + 1];
      }
      if CanRun(e, sources, d) {
        RunSucceedsIff(rest, sources, After(e, sources, d));
        forall f | f in rest ensures CanRun(f, sources, After(e, sources, d)) <==> CanRun(f, sources, d) {
          var i :| 0 <= i < |rest| && rest[i] == f;
          assert Apart(entries[0], entries[i + 1]);
          Undisturbed(f, e, sources, d);
        }
      }
    }
  }

  /** A file that no entry aims at or can copy into a directory is as before, also when the script fails. */
  lemma {:induction false} OtherFilesUntouched(entries: seq<Entry>, sources: map<string, string>, d: Disk, f: Path)
    requires forall e | e in entries :: Aim(e) != f && Aim(e) + [Base(e)] != f
    ensures var after := Run(entries, sources, d).disk;
            (f in after.files <==> f in d.files) && (f in d.files ==> after.files[f] == d.files[f])
    decreases |entries|
  {
    if entries != [] {
      assert entries[0] in entries;
      assert forall r | r in entries[1..] :: r in entries;
      if CanRun(entries[0], sources, d) {
        DestBelowAim(entries[0], d);
        OtherFilesUntouched(entries[1..], sources, After(entries[0], sources, d), f);
      }
    }
  }

  /** What an entry alone makes of the file it goes to. */
  function Written(e: Entry, sources: map<string, string>, d: Disk): string
    requires CanRun(e, sources, d)
  {
    if Skips(e, d) then d.files[Target(e)] else sources[e.sourcePath]
  }

  /** Where the content that an entry decides ends up. */
  function Place(e: Entry, d: Disk): Path {
    if Skips(e, d) then Target(e) else Dest(e, d)
  }

  /** An entry that all others are apart from decides its file, also when it stands there more than once. */
  lemma {:induction false} SoleEntryDecides(entries: seq<Entry>, sources: map<string, string>, d: Disk, e: Entry)
    requires Sound(d) && e in entries && forall x | x in entries && x != e :: Apart(x, e)
    requires Run(entries, sources, d).ok
    ensures CanRun(e, sources, d)
    ensures var after := Run(entries, sources, d).disk;
            Place(e, d) in after.files && after.files[Place(e, d)] == Written(e, sources, d)
    decreases |entries|
  {
    var x, rest := entries[0], entries[1..];
    assert entries == [x] + rest;
    var next := After(x, sources, d);
    AfterIsSound(x, sources, d);
    assert x in entries;
    if x != e {
      Undisturbed(e, x, sources, d);
      SoleEntryDecides(rest, sources, next, e);
      if Skips(e, d) {
        SkippedPlace(e, x, sources, d);
      }
    } else if e in rest {
      CanRunAgain(e, sources, d, next);
      SoleEntryDecides(rest, sources, next, e);
    } else {
      forall y | y in rest ensures Apart(y, e) {
      }
      PlaceStays(rest, sources, next, e, Place(e, d));
    }
  }

  lemma SkippedPlace(e: Entry, x: Entry, sources: map<string, string>, d: Disk)
    requires Apart(x, e) && CanRun(x, sources, d) && Skips(e, d)
    ensures var d' := After(x, sources, d); Target(e) in d'.files && d'.files[Target(e)] == d.files[Target(e)]
  {
    ApartPlaces(e, x, d);
  }

  /** Entries that are apart from e leave alone what lies at its aim or in a directory of that name. */
  lemma {:induction false} PlaceStays(entries: seq<Entry>, sources: map<string, string>, d: Disk, e: Entry, p: Path)
    requires forall x | x in entries :: Apart(x, e)
    requires Aim(e) <= p && p in d.files && (p == Aim(e) || p == Aim(e) + [Base(e)])
    ensures var after := Run(entries, sources, d).disk; p in after.files && after.files[p] == d.files[p]
    decreases |entries|
  {
    if entries != [] && CanRun(entries[0], sources, d) {
      var x := entries[0];
      assert x in entries && Apart(x, e);
      DestBelowAim(x, d);
      if Aim(x) <= p {
        CommonPrefixes(Aim(x), Aim(e), p);
      }
      PlaceStays(entries[1..], sources, After(x, sources, d), e, p);
    }
  }
}
