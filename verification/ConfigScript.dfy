/**
  The config script (internal/controller/config_injector.go): what a list of copy entries does to the
  disk of a server, and the shell commands it is rendered to.  Files and directories are identified by
  their cleaned paths.
 */
module ConfigScript {
  import opened Wrappers
  import opened ConfigPaths

  datatype Overwrite = Always | IfNotExists

  datatype Entry = Entry(sourcePath: string, targetPath: string, overwrite: Overwrite)

  /** The data volume: the contents of its files, and its directories; the root always exists. */
  datatype Disk = Disk(files: map<Path, string>, dirs: set<Path>)

  const EMPTY := Disk(map[], {})

  predicate IsDir(d: Disk, p: Path) {
    p == [] || p in d.dirs
  }

  /** Nothing is both a file and a directory. */
  predicate Sound(d: Disk) {
    d.files.Keys !! d.dirs && [] !in d.files
  }

  // ---------------------------------------------------------------- one entry

  /** `mkdir -p` stops at a file. */
  predicate Blocked(d: Disk, dir: Path) {
    exists a | a in Ancestors(dir) :: a in d.files
  }

  /** The directories that `mkdir -p` makes, up to the first file in the way. */
  function MakeDirs(d: Disk, dir: Path): Disk {
    d.(dirs := d.dirs + set a | a in Ancestors(dir) && !Blocked(d, a) :: a)
  }

  function Target(e: Entry): Path {
    Clean(e.targetPath)
  }

  function Base(e: Entry): string {
    LastPart(e.sourcePath)
  }

  /** The file that an entry is about: its target, or the file of its source's name in the directory it names. */
  function Aim(e: Entry): Path {
    if Named(e.targetPath) then Target(e) else Target(e) + [Base(e)]
  }

  /** Where the copy goes: into the target, when that is a directory. */
  function Dest(e: Entry, d: Disk): Path {
    if !Named(e.targetPath) || IsDir(d, Target(e)) then Target(e) + [Base(e)] else Target(e)
  }

  /** The test `-f` of the target. */
  predicate Skips(e: Entry, d: Disk) {
    e.overwrite == IfNotExists && Named(e.targetPath) && Target(e) in d.files
  }

  predicate CanRun(e: Entry, sources: map<string, string>, d: Disk) {
    !Blocked(d, DirOf(e.targetPath)) && (Skips(e, d) || (e.sourcePath in sources && !IsDir(d, Dest(e, d))))
  }

  /** The disk after an entry that can be carried out. */
  function After(e: Entry, sources: map<string, string>, d: Disk): Disk
    requires CanRun(e, sources, d)
  {
    var made := d.(dirs := d.dirs + Ancestors(DirOf(e.targetPath)));
    if Skips(e, d) then made else made.(files := made.files[Dest(e, d) := sources[e.sourcePath]])
  }

  // ---------------------------------------------------------------- the script

  /** The disk after the entries, and whether every step succeeded. */
  datatype Outcome = Outcome(disk: Disk, ok: bool)

  /** The script stops at the first step that fails; directories made before that stay. */
  function Run(entries: seq<Entry>, sources: map<string, string>, d: Disk): Outcome
    decreases |entries|
  {
    if entries == [] then Outcome(d, true)
    else if CanRun(entries[0], sources, d) then Run(entries[1..], sources, After(entries[0], sources, d))
    else Outcome(MakeDirs(d, DirOf(entries[0].targetPath)), false)
  }

  lemma TargetIsNoAncestor(e: Entry)
    ensures Named(e.targetPath) ==> Target(e) == DirOf(e.targetPath) + [LastPart(e.targetPath)]
    ensures !Named(e.targetPath) ==> Target(e) == DirOf(e.targetPath)
    ensures Aim(e) !in Ancestors(DirOf(e.targetPath)) && DirOf(e.targetPath) <= Aim(e) && Aim(e) != []
  {
    TargetSplits(e.targetPath);
    AncestorIff(Aim(e), DirOf(e.targetPath));
  }

  lemma UnblockedMakesAll(d: Disk, dir: Path)
    requires !Blocked(d, dir)
    ensures MakeDirs(d, dir).dirs == d.dirs + Ancestors(dir)
  {
    forall a | a in Ancestors(dir) ensures !Blocked(d, a) {
      AncestorIff(a, dir);
      forall b | b in Ancestors(a) ensures b !in d.files {
        AncestorIff(b, a);
        AncestorIff(b, dir);
      }
    }
  }

  lemma MadeIsSound(d: Disk, dir: Path)
    requires Sound(d)
    ensures Sound(MakeDirs(d, dir))
  {
    forall a | a in Ancestors(dir) && !Blocked(d, a) ensures a !in d.files {
      AncestorIff(a, dir);
      AncestorIff(a, a);
    }
  }

  lemma AfterIsSound(e: Entry, sources: map<string, string>, d: Disk)
    requires Sound(d) && CanRun(e, sources, d)
    ensures Sound(After(e, sources, d))
  {
    TargetIsNoAncestor(e);
    AncestorIff(Dest(e, d), DirOf(e.targetPath));
  }

  lemma {:induction false} RunIsSound(entries: seq<Entry>, sources: map<string, string>, d: Disk)
    requires Sound(d)
    ensures Sound(Run(entries, sources, d).disk)
    decreases |entries|
  {
    if entries != [] {
      if CanRun(entries[0], sources, d) {
        AfterIsSound(entries[0], sources, d);
        RunIsSound(entries[1..], sources, After(entries[0], sources, d));
      } else {
        MadeIsSound(d, DirOf(entries[0].targetPath));
      }
    }
  }

  /** Nothing that exists disappears or changes its kind. */
  lemma {:induction false} RunOnlyAdds(entries: seq<Entry>, sources: map<string, string>, d: Disk)
    ensures var after := Run(entries, sources, d).disk; d.dirs <= after.dirs && d.files.Keys <= after.files.Keys
    decreases |entries|
  {
    if entries != [] && CanRun(entries[0], sources, d) {
      RunOnlyAdds(entries[1..], sources, After(entries[0], sources, d));
    }
  }

  // ---------------------------------------------------------------- existing files

  /** The files that the script writes even where they exist: by an `Always` entry, or by copying into a directory. */
  ghost function Forced(entries: seq<Entry>, sources: map<string, string>, d: Disk): set<Path>
    decreases |entries|
  {
    if entries == [] || !CanRun(entries[0], sources, d) then {}
    else
      var e := entries[0];
      var rest := Forced(entries[1..], sources, After(e, sources, d));
      if !Skips(e, d) && (e.overwrite == Always || Dest(e, d) != Target(e)) then rest + {Dest(e, d)} else rest
  }

  lemma {:induction false} UnforcedFilesKept(entries: seq<Entry>, sources: map<string, string>, d: Disk, f: Path)
    requires Sound(d) && f in d.files && f !in Forced(entries, sources, d)
    ensures var after := Run(entries, sources, d).disk; f in after.files && after.files[f] == d.files[f]
    decreases |entries|
  {
    if entries != [] && CanRun(entries[0], sources, d) {
      var e := entries[0];
      AfterIsSound(e, sources, d);
      UnforcedFilesKept(entries[1..], sources, After(e, sources, d), f);
    }
  }

  lemma {:induction false} ForcedBy(entries: seq<Entry>, sources: map<string, string>, d: Disk, f: Path)
    requires f in Forced(entries, sources, d)
    ensures exists e :: e in entries && ((e.overwrite == Always && Named(e.targetPath) && Target(e) == f) || Target(e) + [Base(e)] == f)
    decreases |entries|
  {
    var e := entries[0];
    assert e in entries;
    assert forall x | x in entries[1..] :: x in entries;
    if !(!Skips(e, d) && (e.overwrite == Always || Dest(e, d) != Target(e)) && Dest(e, d) == f) {
      ForcedBy(entries[1..], sources, After(e, sources, d), f);
    }
  }

  /** A file that only `IfNotExists` entries aim at by name, and that none can copy into a directory, never changes once it exists. */
  lemma {:induction false} IfNotExistsNeverOverwrites(entries: seq<Entry>, sources: map<string, string>, d: Disk, f: Path)
    requires Sound(d) && f in d.files
    requires forall e | e in entries && Named(e.targetPath) && Target(e) == f :: e.overwrite == IfNotExists
    requires forall e | e in entries :: Target(e) + [Base(e)] != f
    ensures var after := Run(entries, sources, d).disk; f in after.files && after.files[f] == d.files[f]
  {
    if f in Forced(entries, sources, d) {
      ForcedBy(entries, sources, d, f);
    }
    UnforcedFilesKept(entries, sources, d, f);
  }

  /** Where the target of an `IfNotExists` entry is a directory, the copy goes into it and overwrites the file there. */
  lemma IfNotExistsIntoDirectoryOverwrites(e: Entry, sources: map<string, string>, d: Disk)
    requires Sound(d) && e.overwrite == IfNotExists && IsDir(d, Target(e)) && e.sourcePath in sources
    requires !Blocked(d, DirOf(e.targetPath)) && Target(e) + [Base(e)] in d.files
    ensures var o := Run([e], sources, d); var f := Target(e) + [Base(e)];
            o.ok && f in o.disk.files && o.disk.files[f] == sources[e.sourcePath]
  {
    assert [e][1..] == [];
    assert CanRun(e, sources, d);
    assert Run([e], sources, d) == Run([e][1..], sources, After(e, sources, d));
  }

  // ---------------------------------------------------------------- running twice

  /** Another disk with the same files and directories, up to contents. */
  predicate SameShape(d: Disk, o: Disk) {
    d.dirs == o.dirs && d.files.Keys == o.files.Keys
  }

  lemma SameShapeSameChecks(d: Disk, o: Disk, e: Entry)
    requires d.files.Keys == o.files.Keys
    ensures forall dir :: Blocked(d, dir) <==> Blocked(o, dir)
    ensures Skips(e, d) <==> Skips(e, o)
  {
  }

  /** What exists at the end is at least what an entry that was carried out needs to be carried out again. */
  lemma CanRunAgain(e: Entry, sources: map<string, string>, d: Disk, end: Disk)
    requires Sound(d) && Sound(end) && CanRun(e, sources, d)
    requires After(e, sources, d).dirs <= end.dirs && After(e, sources, d).files.Keys <= end.files.Keys
    ensures CanRun(e, sources, end) && After(e, sources, end).dirs == end.dirs && After(e, sources, end).files.Keys == end.files.Keys
    ensures Skips(e, d) ==> Skips(e, end)
    ensures !Skips(e, d) ==> Dest(e, end) == Dest(e, d)
    ensures Skips(e, end) <==> e.overwrite == IfNotExists && (Skips(e, d) || Dest(e, d) == Target(e))
  {
    TargetIsNoAncestor(e);
    forall a | a in Ancestors(DirOf(e.targetPath)) ensures a !in end.files {
      assert a in end.dirs;
    }
    if !Named(e.targetPath) && Target(e) != [] {
      AncestorIff(Target(e), DirOf(e.targetPath));
    }
  }

  /** Started on a disk of the shape that a first run left behind, a second run does the same forced writes. */
  lemma {:induction false} Rerun(entries: seq<Entry>, sources: map<string, string>, d: Disk, others: Disk)
    requires Sound(d) && SameShape(Run(entries, sources, d).disk, others)
    ensures var first := Run(entries, sources, d);
            Run(entries, sources, others) == Outcome(Overlay(others, Forced(entries, sources, d), first.disk.files), first.ok)
    decreases |entries|
  {
    RunIsSound(entries, sources, d);
    assert Sound(others);
    if entries == [] {
      assert Overlay(others, {}, Run(entries, sources, d).disk.files) == others;
    } else if CanRun(entries[0], sources, d) {
      RunOnlyAdds(entries[1..], sources, After(entries[0], sources, d));
      AfterIsSound(entries[0], sources, d);
      CanRunAgain(entries[0], sources, d, others);
      Rerun(entries[1..], sources, After(entries[0], sources, d), After(entries[0], sources, others));
      RerunNext(entries, sources, d, others);
    } else {
      FailsAgain(entries[0], sources, d, others);
      assert Overlay(others, {}, Run(entries, sources, d).disk.files) == others;
    }
  }

  /** The disk with some files as they are in `files`. */
  ghost function Overlay(d: Disk, names: set<Path>, files: map<Path, string>): Disk
    requires d.files.Keys <= files.Keys
  {
    d.(files := map f | f in d.files :: if f in names then files[f] else d.files[f])
  }

  /** A step that failed fails again, on a disk of the shape that it left behind. */
  lemma FailsAgain(e: Entry, sources: map<string, string>, d: Disk, others: Disk)
    requires Sound(d) && !CanRun(e, sources, d) && SameShape(MakeDirs(d, DirOf(e.targetPath)), others)
    ensures !CanRun(e, sources, others) && MakeDirs(others, DirOf(e.targetPath)) == others
  {
    var dir := DirOf(e.targetPath);
    TargetIsNoAncestor(e);
    SameShapeSameChecks(d, others, e);
    assert MakeDirs(others, dir).dirs == others.dirs;
    if !Blocked(d, dir) && e.sourcePath in sources && !Skips(e, d) {
      UnblockedMakesAll(d, dir);
      if Named(e.targetPath) {
        AncestorIff(Target(e), dir);
      } else if Target(e) != [] {
        AncestorIff(Target(e), dir);
      }
      assert Dest(e, others) == Dest(e, d);
    }
  }

  /** The forced write of the first entry shows in the overlay, whether a later one overwrites it or not. */
  lemma RerunNext(entries: seq<Entry>, sources: map<string, string>, d: Disk, others: Disk)
    requires entries != [] && Sound(d) && CanRun(entries[0], sources, d) && CanRun(entries[0], sources, others)
    requires var e := entries[0];
             && (Skips(e, d) ==> Skips(e, others)) && (!Skips(e, d) ==> Dest(e, others) == Dest(e, d))
             && (Skips(e, others) <==> e.overwrite == IfNotExists && (Skips(e, d) || Dest(e, d) == Target(e)))
    requires var final := Run(entries, sources, d).disk;
             SameShape(final, others) && After(entries[0], sources, others).dirs == others.dirs && After(entries[0], sources, others).files.Keys == others.files.Keys
    ensures var next := After(entries[0], sources, d);
            var final := Run(entries, sources, d).disk;
            Overlay(After(entries[0], sources, others), Forced(entries[1..], sources, next), final.files) ==
            Overlay(others, Forced(entries, sources, d), final.files)
  {
    var e, rest := entries[0], entries[1..];
    var next, again := After(e, sources, d), After(e, sources, others);
    var final := Run(entries, sources, d).disk;
    assert final == Run(rest, sources, next).disk;
    AfterIsSound(e, sources, d);
    if !Skips(e, d) && Dest(e, d) !in Forced(rest, sources, next) {
      UnforcedFilesKept(rest, sources, next, Dest(e, d));
    }
    var forced := Forced(rest, sources, next);
    hide Blocked, IsDir, Sound;
    if !Skips(e, others) {
      assert Forced(entries, sources, d) == forced + {Dest(e, d)};
      assert again == others.(files := others.files[Dest(e, d) := sources[e.sourcePath]]);
      OverlayOneMore(others, forced, final.files, Dest(e, d), sources[e.sourcePath]);
    } else {
      assert Forced(entries, sources, d) == forced && again == others;
    }
  }

  lemma OverlayOneMore(d: Disk, names: set<Path>, files: map<Path, string>, p: Path, content: string)
    requires p in d.files && d.files.Keys <= files.Keys && (p in names || files[p] == content)
    ensures Overlay(d.(files := d.files[p := content]), names, files) == Overlay(d, names + {p}, files)
  {
  }

  /** Running the script twice is running it once, for every list of entries and even when it fails. */
  lemma RunIsIdempotent(entries: seq<Entry>, sources: map<string, string>, d: Disk)
    requires Sound(d)
    ensures var first := Run(entries, sources, d); Run(entries, sources, first.disk) == first
  {
    var first := Run(entries, sources, d);
    Rerun(entries, sources, d, first.disk);
    assert Overlay(first.disk, Forced(entries, sources, d), first.disk.files).files == first.disk.files;
  }

  // ---------------------------------------------------------------- the rendered script

  datatype Command = MakeDir(dir: Path) | Copy(source: string, target: string) | CopyIfMissing(source: string, target: string)

  /** `cp`: into a directory, or onto a file of an existing directory; a target that ends like a directory must be one. */
  function CopyStep(source: string, target: string, sources: map<string, string>, d: Disk): Outcome {
    var t := Clean(target);
    if !IsDir(d, t) && !Named(target) then Outcome(d, false)
    else
      var dest := if IsDir(d, t) then t + [LastPart(source)] else t;
      if source !in sources || IsDir(d, dest) || !IsDir(d, dest[..|dest| - 1]) then Outcome(d, false)
      else Outcome(d.(files := d.files[dest := sources[source]]), true)
  }

  function Step(c: Command, sources: map<string, string>, d: Disk): Outcome {
    match c
    case MakeDir(dir) => Outcome(MakeDirs(d, dir), !Blocked(d, dir))
    case Copy(source, target) => CopyStep(source, target, sources, d)
    case CopyIfMissing(source, target) =>
      if Named(target) && Clean(target) in d.files then Outcome(d, true) else CopyStep(source, target, sources, d)
  }

  /** The shell runs with `set -e`: the first failing command ends the script. */
  function Shell(commands: seq<Command>, sources: map<string, string>, d: Disk): Outcome
    decreases |commands|
  {
    if commands == [] then Outcome(d, true)
    else
      var o := Step(commands[0], sources, d);
      if o.ok then Shell(commands[1..], sources, o.disk) else o
  }

  function RenderEntry(e: Entry): seq<Command> {
    var dir := DirOf(e.targetPath);
    (if dir != [] then [MakeDir(dir)] else []) +
    [if e.overwrite == IfNotExists then CopyIfMissing(e.sourcePath, e.targetPath) else Copy(e.sourcePath, e.targetPath)]
  }

  function Render(entries: seq<Entry>): seq<Command> {
    if entries == [] then [] else RenderEntry(entries[0]) + Render(entries[1..])
  }

  lemma {:induction false} RenderOneMore(entries: seq<Entry>, e: Entry)
    ensures Render(entries + [e]) == Render(entries) + RenderEntry(e)
  {
    if entries == [] {
      assert entries + [e] == [e] && Render([]) == [] && Render([e]) == RenderEntry(e) + Render([]);
    } else {
      RenderOneMore(entries[1..], e);
      assert (entries + [e])[1..] == entries[1..] + [e];
    }
  }

  method RenderConfigScript(entries: seq<Entry>) returns (script: seq<Command>)
    ensures script == Render(entries)
  {
    script := [];
    assert Render(entries[..0]) == [];
    hide Render, DirOf;
    for i := 0 to |entries|
      invariant script == Render(entries[..i])
    {
      var e := entries[i];
      var dir := DirOf(e.targetPath);
      if dir != [] {
        script := script + [MakeDir(dir)];
      }
      if e.overwrite == IfNotExists {
        script := script + [CopyIfMissing(e.sourcePath, e.targetPath)];
      } else {
        script := script + [Copy(e.sourcePath, e.targetPath)];
      }
      RenderOneMore(entries[..i], e);
      assert entries[..i] + [e] == entries[..i + 1];
    }
    assert entries[..|entries|] == entries;
  }

  lemma {:induction false} ShellAppend(first: seq<Command>, second: seq<Command>, sources: map<string, string>, d: Disk)
    ensures var mid := Shell(first, sources, d);
            Shell(first + second, sources, d) == if mid.ok then Shell(second, sources, mid.disk) else mid
    decreases |first|
  {
    if first == [] {
      assert first + second == second;
    } else {
      assert (first + second)[1..] == first[1..] + second;
      var o := Step(first[0], sources, d);
      if o.ok {
        ShellAppend(first[1..], second, sources, o.disk);
      }
    }
  }

  function CopyCommand(e: Entry): Command {
    if e.overwrite == IfNotExists then CopyIfMissing(e.sourcePath, e.targetPath) else Copy(e.sourcePath, e.targetPath)
  }

  function Made(d: Disk, dir: Path): Disk {
    d.(dirs := d.dirs + Ancestors(dir))
  }

  /** Making the directory of an entry makes neither its target nor the file it goes to. */
  lemma MadeForEntry(e: Entry, d: Disk)
    ensures var dir, made := DirOf(e.targetPath), Made(d, DirOf(e.targetPath));
            && IsDir(made, dir)
            && (Named(e.targetPath) ==> Target(e) == dir + [LastPart(e.targetPath)] && (IsDir(made, Target(e)) <==> IsDir(d, Target(e))))
            && (!Named(e.targetPath) ==> Target(e) == dir)
            && (IsDir(made, Dest(e, d)) <==> IsDir(d, Dest(e, d)))
  {
    var dir := DirOf(e.targetPath);
    TargetIsNoAncestor(e);
    AncestorIff(Target(e), dir);
    AncestorIff(dir, dir);
    AncestorIff(Dest(e, d), dir);
  }

  /** The copy command after its directory has been made. */
  lemma CopyAfterMake(e: Entry, sources: map<string, string>, d: Disk)
    requires !Blocked(d, DirOf(e.targetPath))
    ensures var made := Made(d, DirOf(e.targetPath));
            Step(CopyCommand(e), sources, made) == if CanRun(e, sources, d) then Outcome(After(e, sources, d), true) else Outcome(made, false)
  {
    MadeForEntry(e, d);
    hide Clean, Blocked, IsDir, DirOf, LastPart;
    assert Made(d, DirOf(e.targetPath)).files == d.files;
    if Named(e.targetPath) {
      assert Target(e)[..|Target(e)| - 1] == DirOf(e.targetPath);
    }
    assert (Target(e) + [Base(e)])[..|Target(e)|] == Target(e);
  }

  lemma RenderedEntry(e: Entry, sources: map<string, string>, d: Disk)
    ensures Shell(RenderEntry(e), sources, d) ==
              if CanRun(e, sources, d) then Outcome(After(e, sources, d), true) else Outcome(MakeDirs(d, DirOf(e.targetPath)), false)
  {
    var dir := DirOf(e.targetPath);
    var commands := RenderEntry(e);
    var copy := commands[|commands| - 1];
    var made := MakeDirs(d, dir);
    if dir != [] {
      assert commands[1..] == [copy];
      assert Shell(commands, sources, d) == if Blocked(d, dir) then Outcome(made, false) else Shell([copy], sources, made);
    } else {
      assert commands == [copy] && Ancestors(dir) == {} && made == d;
    }
    assert [copy][1..] == [];
    if !Blocked(d, dir) {
      UnblockedMakesAll(d, dir);
      CopyAfterMake(e, sources, d);
      var o := Step(copy, sources, made);
      assert Shell([copy], sources, made) == if o.ok then Shell([copy][1..], sources, o.disk) else o;
    }
  }

  /** The rendered commands do to the disk exactly what the entries mean, directories and failures included. */
  lemma {:induction false} RenderKeepsMeaning(entries: seq<Entry>, sources: map<string, string>, d: Disk)
    ensures Shell(Render(entries), sources, d) == Run(entries, sources, d)
    decreases |entries|
  {
    if entries != [] {
      ShellAppend(RenderEntry(entries[0]), Render(entries[1..]), sources, d);
      RenderedEntry(entries[0], sources, d);
      if CanRun(entries[0], sources, d) {
        RenderKeepsMeaning(entries[1..], sources, After(entries[0], sources, d));
      }
    }
  }
}
