/**
  Paths as the shell of the config script sees them: the segments between slashes, of which empty ones
  and "." stand for nothing.  Admission rejects ".." in every path.
 */
module ConfigPaths {

  type Path = seq<string>

  /** The text after the last slash. */
  function LastPart(text: string): string {
    if text == "" || text[|text| - 1] == '/' then "" else LastPart(text[..|text| - 1]) + [text[|text| - 1]]
  }

  /** The text before the last slash, or nothing if there is none. */
  function Rest(text: string): (r: string)
    ensures text != "" ==> |r| < |text|
  {
    if text == "" then ""
    else if text[|text| - 1] == '/' then text[..|text| - 1]
    else Rest(text[..|text| - 1])
  }

  predicate IsOpen(part: string) {
    part == "" || part == "."
  }

  function Segment(part: string): Path {
    if IsOpen(part) then [] else [part]
  }

  /** The cleaned path. */
  function Clean(text: string): Path
    decreases |text|
  {
    if text == "" then [] else Clean(Rest(text)) + Segment(LastPart(text))
  }

  /** The path names something itself; with a slash or a dot at its end it names a directory to copy into. */
  predicate Named(text: string) {
    !IsOpen(LastPart(text))
  }

  /** The directory that the script makes for a target. */
  function DirOf(text: string): Path {
    Clean(Rest(text))
  }

  lemma TargetSplits(text: string)
    ensures Clean(text) == if Named(text) then DirOf(text) + [LastPart(text)] else DirOf(text)
  {
  }

  lemma {:induction false} LastPartHasNoSlash(text: string)
    ensures '/' !in LastPart(text)
  {
    if text != "" && text[|text| - 1] != '/' {
      LastPartHasNoSlash(text[..|text| - 1]);
    }
  }

  lemma {:induction false} PlainPart(part: string)
    requires '/' !in part
    ensures LastPart(part) == part && Rest(part) == ""
  {
    if part != "" {
      PlainPart(part[..|part| - 1]);
    }
  }

  lemma GluedFront(a: string, b: string)
    requires b != ""
    ensures (a + "/" + b)[..|a + "/" + b| - 1] == a + "/" + b[..|b| - 1] && (a + "/" + b)[|a + "/" + b| - 1] == b[|b| - 1]
  {
  }

  lemma {:induction false} GluedLast(a: string, b: string)
    ensures LastPart(a + "/" + b) == LastPart(b)
  {
    if b != "" {
      GluedFront(a, b);
      if b[|b| - 1] != '/' {
        GluedLast(a, b[..|b| - 1]);
      }
    }
  }

  lemma {:induction false} GluedRest(a: string, b: string)
    ensures Rest(a + "/" + b) == if '/' in b then a + "/" + Rest(b) else a
  {
    if b == "" {
      assert (a + "/" + b)[..|a + "/" + b| - 1] == a;
    } else {
      GluedFront(a, b);
      if b[|b| - 1] != '/' {
        GluedRest(a, b[..|b| - 1]);
        assert b == b[..|b| - 1] + [b[|b| - 1]];
      }
    }
  }

  /** Cleaning works part by part. */
  lemma {:induction false} CleanGlued(a: string, b: string)
    ensures Clean(a + "/" + b) == Clean(a) + Clean(b)
    decreases |b|
  {
    GluedLast(a, b);
    GluedRest(a, b);
    if '/' in b {
      CleanGlued(a, Rest(b));
      assert Clean(a + "/" + b) == (Clean(a) + Clean(Rest(b))) + Segment(LastPart(b));
    } else {
      PlainPart(b);
      assert Clean(a + "/" + b) == Clean(a) + Segment(b);
      if b != "" {
        assert Clean(b) == Clean("") + Segment(b);
      }
    }
  }

  /** The directory and its ancestors. */
  function Ancestors(p: Path): set<Path> {
    set n | 0 < n <= |p| :: p[..n]
  }

  lemma AncestorIff(a: Path, p: Path)
    ensures a in Ancestors(p) <==> a != [] && a <= p
  {
    if a != [] && a <= p {
      assert a == p[..|a|];
    }
  }

  /** Neither path is the other or a directory above it. */
  predicate Incomparable(p: Path, q: Path) {
    !(p <= q) && !(q <= p)
  }
}
