/**
  Resolution of the desired Paper version and the gate in front of it
  (internal/controller/papermcserver_controller.go), the server's status as it is fed back from
  pass to pass, and the interleaving of server and update passes under optimistic concurrency.
 */
module VersionGate {
  import opened Wrappers
  import opened Semver
  import opened Versions
  import opened ImageTags

  /** Build numbers have the source's 64-bit int type. */
  type Build = b: int | -0x8000_0000_0000_0000 <= b <= MAX_INT

  datatype Spec = Spec(strategy: string, version: string, build: Option<Build>)

  /** The version part of a server's status. */
  datatype Status = Status(current: string, currentBuild: int, desired: string, desiredBuild: Build, blocked: bool)

  datatype Candidate = Candidate(version: string, build: Build)

  /** What the services outside the operator answer during one pass; None stands for an error. */
  datatype Answers = Answers(
    plugins: bool,                               // the plugins could be listed
    latest: Option<Candidate>,                   // the latest registry tag
    update: Option<Option<Candidate>>,           // the solver's update, if there is one
    compatible: string -> bool,                  // every matched plugin accepts the version
    builds: string -> Option<seq<Build>>,        // the builds of a version, ascending
    published: (string, Build) -> Option<bool>)  // the image is in the registry

  datatype Gate = Pass | CompareFailed | Downgrade | Incompatible

  function CheckDowngrade(parse: Parser, current: string, candidate: string): Gate {
    if current == "" || current == LATEST then Pass
    else match IsDowngrade(parse, current, candidate)
         case Err(_) => CompareFailed
         case Ok(down) => if down then Downgrade else Pass
  }

  function CheckGate(parse: Parser, current: string, candidate: string, answers: Answers): Gate {
    var g := CheckDowngrade(parse, current, candidate);
    if g != Pass then g else if answers.compatible(candidate) then Pass else Incompatible
  }

  predicate BlocksUpdate(g: Gate) {
    g.Downgrade? || g.Incompatible?
  }

  /** Exactly the candidates the gate lets through. */
  lemma DowngradeCheckMeaning(parse: Parser, current: string, candidate: string)
    ensures CheckDowngrade(parse, current, candidate) == Pass <==>
            current in {"", LATEST} || candidate == LATEST || NotAbove(parse, current, candidate)
  {
    BelowOrNot(parse, current, candidate, candidate);
  }

  datatype Outcome = Chosen(candidate: Candidate) | Refused(blocks: bool)

  /** The newest build whose image is known to be published. */
  function NewestPublished(version: string, builds: seq<Build>, answers: Answers): Option<Build> {
    if builds == [] then None
    else
      var b := builds[|builds| - 1];
      if answers.published(version, b) == Some(true) then Some(b)
      else NewestPublished(version, builds[..|builds| - 1], answers)
  }

  function Resolve(parse: Parser, spec: Spec, st: Status, answers: Answers): Outcome {
    match spec.strategy
    case "latest" =>
      if answers.latest.None? then Refused(false) else Gated(parse, st, answers.latest.value, answers)
    case "auto" =>
      if answers.update.None? || answers.update.value.None? then Refused(false)
      else
        var c := answers.update.value.value;
        var gated := Gated(parse, st, c, answers);
        if gated.Chosen? && answers.published(c.version, c.build) != Some(true) then Refused(false) else gated
    case "pin" =>
      if spec.version == "" then Refused(false)
      else
        var g := CheckGate(parse, st.current, spec.version, answers);
        if g != Pass then Refused(BlocksUpdate(g))
        else if answers.builds(spec.version).None? then Refused(false)
        else
          var newest := NewestPublished(spec.version, answers.builds(spec.version).value, answers);
          if newest.None? then Refused(false) else Chosen(Candidate(spec.version, newest.value))
    case "build-pin" =>
      if spec.version == "" || spec.build.None? then Refused(false)
      else
        var c := Candidate(spec.version, spec.build.value);
        var gated := Gated(parse, st, c, answers);
        if gated.Chosen? && answers.published(c.version, c.build) != Some(true)
        then Refused(answers.published(c.version, c.build) == Some(false)) else gated
    case _ => Refused(false)
  }

  function Gated(parse: Parser, st: Status, c: Candidate, answers: Answers): Outcome {
    var g := CheckGate(parse, st.current, c.version, answers);
    if g == Pass then Chosen(c) else Refused(BlocksUpdate(g))
  }

  /** The status after resolution: a refusal keeps the desired version that is already there. */
  function Resolved(parse: Parser, spec: Spec, st: Status, answers: Answers): Status {
    match Resolve(parse, spec, st, answers)
    case Chosen(c) => st.(desired := c.version, desiredBuild := c.build, blocked := false)
    case Refused(blocks) => if blocks then st.(blocked := true) else st
  }

  /** The reconciler's resolution code, with the server object it updates in place. */
  class Resolution {
    var st: Status
    const parse: Parser

    constructor (parse: Parser, st: Status)
      ensures this.st == st && this.parse == parse
    {
      this.parse := parse;
      this.st := st;
    }

    /** Blocks the update on a downgrade and on an incompatible plugin, but not on a failed comparison. */
    method PassGate(candidate: string, answers: Answers) returns (passed: bool)
      modifies this
      ensures passed <==> CheckGate(parse, old(st).current, candidate, answers) == Pass
      ensures st == if BlocksUpdate(CheckGate(parse, old(st).current, candidate, answers))
                    then old(st).(blocked := true) else old(st)
    {
      var g := CheckDowngrade(parse, st.current, candidate);
      if g == Downgrade {
        st := st.(blocked := true);
      }
      if g != Pass {
        return false;
      }
      if !answers.compatible(candidate) {
        st := st.(blocked := true);
        return false;
      }
      return true;
    }

    method ResolveVersionOnlyMode(version: string, answers: Answers) returns (r: Option<Candidate>)
      requires version != ""
      modifies this
      ensures var o := Resolve(parse, Spec("pin", version, None), old(st), answers);
              && (r.Some? <==> o.Chosen?)
              && (r.Some? ==> o == Chosen(r.value) && st == old(st).(blocked := false))
              && (r.None? ==> st == if o.blocks then old(st).(blocked := true) else old(st))
    {
      var passed := PassGate(version, answers);
      if !passed {
        return None;
      }
      var builds := answers.builds(version);
      if builds.None? {
        return None;
      }
      var i := |builds.value|;
      assert builds.value[..i] == builds.value;
      while i > 0
        invariant 0 <= i <= |builds.value|
        invariant st == old(st)
        invariant NewestPublished(version, builds.value, answers) == NewestPublished(version, builds.value[..i], answers)
      {
        i := i - 1;
        assert builds.value[..i + 1][..i] == builds.value[..i];
        if answers.published(version, builds.value[i]) == Some(true) {
          st := st.(blocked := false);
          return Some(Candidate(version, builds.value[i]));
        }
      }
      return None;
    }

    method ResolvePinnedVersionBuild(c: Candidate, answers: Answers) returns (r: Option<Candidate>)
      requires c.version != ""
      modifies this
      ensures var o := Resolve(parse, Spec("build-pin", c.version, Some(c.build)), old(st), answers);
              && (r.Some? <==> o.Chosen?)
              && (r.Some? ==> o == Chosen(r.value) && st == old(st).(blocked := false))
              && (r.None? ==> st == if o.blocks then old(st).(blocked := true) else old(st))
    {
      var passed := PassGate(c.version, answers);
      if !passed {
        return None;
      }
      var exists_ := answers.published(c.version, c.build);
      if exists_ != Some(true) {
        if exists_ == Some(false) {
          st := st.(blocked := true);
        }
        return None;
      }
      st := st.(blocked := false);
      return Some(c);
    }

    /** One resolution; false when there is neither a new desired version nor an old one. */
    method UpdateDesiredVersion(spec: Spec, answers: Answers) returns (ok: bool)
      modifies this
      ensures st == Resolved(parse, spec, old(st), answers)
      ensures ok <==> Resolve(parse, spec, old(st), answers).Chosen? || old(st).desired != ""
    {
      var r: Option<Candidate> := None;
      match spec.strategy {
        case "latest" =>
          if answers.latest.Some? {
            var passed := PassGate(answers.latest.value.version, answers);
            if passed {
              st := st.(blocked := false);
              r := answers.latest;
            }
          }
        case "auto" =>
          if answers.update.Some? && answers.update.value.Some? {
            var c := answers.update.value.value;
            var passed := PassGate(c.version, answers);
            if passed && answers.published(c.version, c.build) == Some(true) {
              st := st.(blocked := false);
              r := Some(c);
            }
          }
        case "pin" =>
          if spec.version != "" {
            r := ResolveVersionOnlyMode(spec.version, answers);
          }
        case "build-pin" =>
          if spec.version != "" && spec.build.Some? {
            r := ResolvePinnedVersionBuild(Candidate(spec.version, spec.build.value), answers);
          }
        case _ =>
      }
      if r.None? {
        return st.desired != "";
      }
      st := st.(desired := r.value.version, desiredBuild := r.value.build);
      return true;
    }
  }

  // ---------------------------------------------------------------- interleaved passes

  /** A pass holds the copy of the object it read, with the resource version it read it at. */
  datatype ServerPass =
    | ServerIdle
    | ServerLoaded(rv: nat, spec: Spec, st: Status)
    | ServerResolved(rv: nat, st: Status)
    | ServerClosing(rv: nat, st: Status)

  datatype UpdatePass =
    | UpdateIdle
    | UpdateLoaded(rv: nat, st: Status, combined: bool)
    | UpdateImaged(rv: nat, st: Status)
    | UpdateClosing(rv: nat, st: Status)

  /** A version of the server object, as a read may return it. */
  datatype Seen = Seen(rv: nat, spec: Spec, st: Status)

  /**
    The stored server object, the image of its StatefulSet, and the passes under way.  Reads go through
    a cache: `versions` are all versions that the object has had, `images` all images of the StatefulSet.
   */
  datatype World = World(
    spec: Spec, rv: nat, st: Status, image: Option<string>, server: ServerPass, update: UpdatePass,
    versions: set<Seen>, images: set<string>)

  function Now(w: World): Seen {
    Seen(w.rv, w.spec, w.st)
  }

  /** The next version of the object. */
  function Changed(w: World, spec: Spec, st: Status): World {
    w.(spec := spec, st := st, rv := w.rv + 1, versions := w.versions + {Seen(w.rv + 1, spec, st)})
  }

  function WithImage(w: World, image: string): World {
    w.(image := Some(image), images := w.images + {image})
  }

  /** Where ensuring the infrastructure stopped. */
  datatype Infra = FailedBefore | FailedAfter | Complete

  datatype Action =
    | EditSpec(spec: Spec)
    | EditImage(image: Option<string>)
    | TouchStatus(blocked: bool)
    | ServerGet(v: Seen)
    | ServerResolve(answers: Answers)
    | ServerEnsure(infra: Infra, skip: bool)
    | ServerStore(ok: bool)
    | UpdateGet(v: Seen)
    | UpdateRefresh(v: Seen, ok: bool)
    | UpdateImage(ok: bool)
    | UpdateFinish(successful: bool)
    | UpdateStore(ok: bool)

  predicate PaperChanged(st: Status) {
    st.desired != st.current || st.desiredBuild != st.currentBuild
  }

  predicate Enabled(w: World, a: Action) {
    match a
    case EditSpec(_) => true
    case EditImage(_) => true
    case TouchStatus(_) => true
    case ServerGet(v) => w.server.ServerIdle? && v in w.versions
    case ServerResolve(_) => w.server.ServerLoaded?
    case ServerEnsure(infra, skip) =>
      // nothing is written when the StatefulSet that was read has the wanted image already
      w.server.ServerResolved? && (skip ==> !infra.FailedBefore? && WantedImage(w.server.st) in w.images)
    case ServerStore(_) => w.server.ServerClosing?
    case UpdateGet(v) => w.update.UpdateIdle? && v in w.versions
    case UpdateRefresh(v, _) => w.update.UpdateLoaded? && v in w.versions
    case UpdateImage(_) => w.update.UpdateLoaded? && w.update.combined && w.image.Some?
    case UpdateFinish(successful) =>
      // a combined update that did not write the image has failed
      (w.update.UpdateLoaded? && (successful ==> !w.update.combined)) || w.update.UpdateImaged?
    case UpdateStore(_) => w.update.UpdateClosing?
  }

  function WantedImage(st: Status): string {
    RenderImage(st.desired, st.desiredBuild)
  }

  function Detect(st: Status, image: string): Status {
    var d := DetectPaperVersion(image);
    st.(current := d.version, currentBuild := d.build)
  }

  function Apply(parse: Parser, w: World, a: Action): World
    requires Enabled(w, a)
  {
    match a
    case EditSpec(spec) => Changed(w, spec, w.st)
    case EditImage(image) => if image.None? then w.(image := None) else WithImage(w, image.value)
    case TouchStatus(blocked) => Changed(w, w.spec, w.st.(blocked := blocked))
    case ServerGet(v) => w.(server := ServerLoaded(v.rv, v.spec, v.st))
    case ServerResolve(answers) =>
      if !answers.plugins then w.(server := ServerClosing(w.server.rv, w.server.st))
      else
        var st := Resolved(parse, w.server.spec, w.server.st, answers);
        if st.desired == "" || st.desiredBuild == 0 then w.(server := ServerClosing(w.server.rv, st))
        else w.(server := ServerResolved(w.server.rv, st))
    case ServerEnsure(infra, skip) =>
      var rv, st := w.server.rv, w.server.st;
      if infra.FailedBefore? then w.(server := ServerClosing(rv, st))
      else
        var w' := if skip then w else WithImage(w, WantedImage(st));
        w'.(server := ServerClosing(rv, if infra.FailedAfter? then st else Detect(st, WantedImage(st))))
    case ServerStore(ok) =>
      var w' := w.(server := ServerIdle);
      if ok && w.server.rv == w.rv then Changed(w', w.spec, w.server.st) else w'
    case UpdateGet(v) => w.(update := UpdateLoaded(v.rv, v.st, PaperChanged(v.st)))
    case UpdateRefresh(v, ok) =>
      // the backup hands its own copy back, whether its record was stored or not
      if ok && v.rv == w.rv
      then Changed(w, w.spec, w.st).(update := UpdateLoaded(w.rv + 1, v.st, w.update.combined))
      else w.(update := UpdateLoaded(v.rv, v.st, w.update.combined))
    case UpdateImage(ok) =>
      if ok then WithImage(w, WantedImage(w.update.st)).(update := UpdateImaged(w.update.rv, w.update.st))
      else w.(update := UpdateClosing(w.update.rv, w.update.st))
    case UpdateFinish(successful) =>
      var st := w.update.st;
      w.(update := UpdateClosing(w.update.rv, if successful then st.(current := st.desired, currentBuild := st.desiredBuild) else st))
    case UpdateStore(ok) =>
      // after a conflict the version fields of the concurrent writer stay
      var w' := w.(update := UpdateIdle);
      if !ok then w'
      else if w.update.rv == w.rv then Changed(w', w.spec, w.update.st)
      else Changed(w', w.spec, w.st)
  }

  ghost predicate IsRun(parse: Parser, ws: seq<World>, acts: seq<Action>) {
    && |ws| == |acts| + 1
    && forall i | 0 <= i < |acts| :: Enabled(ws[i], acts[i]) && ws[i + 1] == Apply(parse, ws[i], acts[i])
  }

  // ---------------------------------------------------------------- the desired version is never below the current one

  /** A desired version that can be read back from the image it is deployed with. */
  predicate Readable(st: Status) {
    st.desired == "" || (DigitsAndDots(st.desired) && st.desiredBuild >= 0)
  }

  /** Where the current version parses, a desired version that parses or is readable is not below it. */
  ghost predicate NoDowngrade(parse: Parser, st: Status) {
    Parses(parse, st.current) && (Parses(parse, st.desired) || Readable(st)) ==> NotAbove(parse, st.current, st.desired)
  }

  ghost predicate NoDowngradeAnywhere(parse: Parser, w: World) {
    && NoDowngrade(parse, w.st)
    && (forall v | v in w.versions :: NoDowngrade(parse, v.st))
    && (!w.server.ServerIdle? ==> NoDowngrade(parse, w.server.st))
    && (!w.update.UpdateIdle? ==> NoDowngrade(parse, w.update.st))
  }

  lemma ResolvedKeepsNoDowngrade(parse: Parser, spec: Spec, st: Status, answers: Answers)
    requires NoDowngrade(parse, st)
    ensures NoDowngrade(parse, Resolved(parse, spec, st, answers))
  {
    var o := Resolve(parse, spec, st, answers);
    if o.Chosen? {
      DowngradeCheckMeaning(parse, st.current, o.candidate.version);
      assert LATEST[0] == 'l' && 'l' in LATEST;
    }
  }

  /** Reading a wanted image gives the desired version or nothing readable. */
  lemma DetectedIsDesired(parse: Parser, st: Status)
    requires st.desired != ""
    ensures Parses(parse, st.desired) ==>
              Detect(st, WantedImage(st)).current == if DigitsAndDots(st.desired) && st.desiredBuild >= 0 then st.desired else ""
  {
    if Parses(parse, st.desired) {
      assert SemverText(st.desired);
      ImageRoundTrip(st.desired, st.desiredBuild);
    }
  }

  lemma StepKeepsNoDowngrade(parse: Parser, w: World, a: Action)
    requires Enabled(w, a) && NoDowngradeAnywhere(parse, w)
    requires w.server.ServerResolved? ==> w.server.st.desired != ""
    ensures NoDowngradeAnywhere(parse, Apply(parse, w, a))
    ensures Apply(parse, w, a).server.ServerResolved? ==> Apply(parse, w, a).server.st.desired != ""
  {
    match a {
      case ServerResolve(answers) => ResolvedKeepsNoDowngrade(parse, w.server.spec, w.server.st, answers);
      case ServerEnsure(_, _) =>
        DetectedIsDesired(parse, w.server.st);
        if Readable(w.server.st) {
          ImageRoundTrip(w.server.st.desired, w.server.st.desiredBuild);
        }
        BelowOrNot(parse, w.server.st.desired, w.server.st.desired, "");
      case UpdateFinish(_) => BelowOrNot(parse, w.update.st.desired, w.update.st.desired, "");
      case _ =>
    }
  }

  ghost predicate Initial(w: World) {
    && w.st == Status("", 0, "", 0, false) && w.image.None? && w.server.ServerIdle? && w.update.UpdateIdle?
    && w.versions == {Now(w)} && w.images == {}
  }

  /**
    In every reachable state, whatever the strategies, edits, failures, conflicts and interleavings
    were: if both versions parse, the stored desired version is not below the stored current one.
   */
  lemma {:induction false} DesiredNeverBelowCurrent(parse: Parser, ws: seq<World>, acts: seq<Action>, n: nat)
    requires IsRun(parse, ws, acts) && Initial(ws[0]) && n < |ws|
    ensures NoDowngradeAnywhere(parse, ws[n])
    ensures ws[n].server.ServerResolved? ==> ws[n].server.st.desired != ""
  {
    if n > 0 {
      DesiredNeverBelowCurrent(parse, ws, acts, n - 1);
      assert ws[n - 1 + 1] == Apply(parse, ws[n - 1], acts[n - 1]);
      StepKeepsNoDowngrade(parse, ws[n - 1], acts[n - 1]);
    }
  }

  // ---------------------------------------------------------------- the deployed version

  function Deployed(w: World): string {
    if w.image.None? then "" else DetectPaperVersion(w.image.value).version
  }

  lemma WantedIsDeployed(st: Status)
    requires Readable(st)
    ensures DetectPaperVersion(WantedImage(st)).version == st.desired
  {
    ImageRoundTrip(st.desired, st.desiredBuild);
  }

  /** The copy of the status that the step writes the image from. */
  function WrittenFrom(w: World, a: Action): Option<Status>
    requires Enabled(w, a)
  {
    match a
    case ServerEnsure(infra, skip) => if infra.FailedBefore? || skip then None else Some(w.server.st)
    case UpdateImage(ok) => if ok then Some(w.update.st) else None
    case _ => None
  }

  /** The copy's current version is at least the one deployed now, in particular when it is that one. */
  ghost predicate UpToDate(parse: Parser, w: World, st: Status) {
    Parses(parse, Deployed(w)) ==> NotAbove(parse, Deployed(w), st.current)
  }

  /** Nobody else edits the image, and every image is written from a readable, up-to-date copy. */
  ghost predicate Grounded(parse: Parser, w: World, a: Action) {
    && Enabled(w, a) && !a.EditImage?
    && (WrittenFrom(w, a).Some? ==> Readable(WrittenFrom(w, a).value) && UpToDate(parse, w, WrittenFrom(w, a).value))
  }

  lemma GroundedStep(parse: Parser, w: World, a: Action)
    requires NoDowngradeAnywhere(parse, w) && Grounded(parse, w, a)
    ensures Parses(parse, Deployed(w)) ==> NotAbove(parse, Deployed(w), Deployed(Apply(parse, w, a)))
  {
    BelowOrNot(parse, Deployed(w), Deployed(w), "");
    if WrittenFrom(w, a).Some? {
      var st := WrittenFrom(w, a).value;
      WantedIsDeployed(st);
      BelowOrNot(parse, Deployed(w), st.current, st.desired);
    }
  }

  /**
    In every interleaving of the two controllers, with any failures and conflicts: while each image
    is written from a copy whose current version is not below the deployed one, the deployed Paper
    version never decreases.
   */
  lemma {:induction false} DeployedNeverDecreases(parse: Parser, ws: seq<World>, acts: seq<Action>, i: nat, j: nat)
    requires IsRun(parse, ws, acts) && Initial(ws[0]) && i <= j < |ws|
    requires forall k | i <= k < j :: Grounded(parse, ws[k], acts[k])
    ensures Parses(parse, Deployed(ws[i])) ==> NotAbove(parse, Deployed(ws[i]), Deployed(ws[j]))
    decreases j
  {
    hide Apply, Enabled, Deployed, NoDowngradeAnywhere, Grounded;
    if i == j {
      BelowOrNot(parse, Deployed(ws[i]), Deployed(ws[i]), "");
    } else {
      DeployedNeverDecreases(parse, ws, acts, i, j - 1);
      DesiredNeverBelowCurrent(parse, ws, acts, j - 1);
      assert ws[j - 1 + 1] == Apply(parse, ws[j - 1], acts[j - 1]);
      GroundedStep(parse, ws[j - 1], acts[j - 1]);
      BelowOrNot(parse, Deployed(ws[i]), Deployed(ws[j - 1]), Deployed(ws[j]));
    }
  }

  /**
    The guard is exact: over a deployed version, an image written from a copy with this current
    version is never lower, whatever the copy desires, exactly when the copy is up to date.
   */
  lemma WriteIsSafeIff(parse: Parser, deployed: string, current: string)
    requires Parses(parse, deployed) && (Parses(parse, current) ==> DigitsAndDots(current))
    ensures (forall st: Status | st.current == current && Readable(st) && NoDowngrade(parse, st) ::
               NotAbove(parse, deployed, DetectPaperVersion(WantedImage(st)).version)) <==>
            NotAbove(parse, deployed, current)
  {
    forall st: Status | st.current == current && Readable(st) && NoDowngrade(parse, st)
      ensures NotAbove(parse, deployed, current) ==> NotAbove(parse, deployed, DetectPaperVersion(WantedImage(st)).version)
    {
      WantedIsDeployed(st);
      BelowOrNot(parse, deployed, current, st.desired);
    }
    var st := Status(current, 0, if Parses(parse, current) then current else "", 1, false);
    WantedIsDeployed(st);
    BelowOrNot(parse, current, current, "");
    assert st.current == current && Readable(st) && NoDowngrade(parse, st);
  }

  // ---------------------------------------------------------------- a stale copy lowers the deployed version

  const AVAILABLE := Answers(true, None, None, (v: string) => true, (v: string) => None, (v: string, b: Build) => Some(true))

  /** A pinned version goes through a whole server pass; the infrastructure either works or fails before the image. */
  function Round(w: World, v: string, build: Build, infra: Infra): seq<Action> {
    var spec := Spec("build-pin", v, Some(build));
    [EditSpec(spec), ServerGet(Seen(w.rv + 1, spec, w.st)), ServerResolve(AVAILABLE), ServerEnsure(infra, false), ServerStore(true)]
  }

  lemma AvailableResolves(parse: Parser, st: Status, v: string, build: Build)
    requires v != "" && CheckDowngrade(parse, st.current, v) == Pass
    ensures Resolved(parse, Spec("build-pin", v, Some(build)), st, AVAILABLE) == st.(desired := v, desiredBuild := build, blocked := false)
  {
    assert AVAILABLE.compatible(v) && AVAILABLE.published(v, build) == Some(true);
    assert Resolve(parse, Spec("build-pin", v, Some(build)), st, AVAILABLE) == Chosen(Candidate(v, build));
  }

  ghost predicate AllGrounded(parse: Parser, ws: seq<World>, acts: seq<Action>)
    requires |ws| == |acts| + 1
  {
    forall k | 0 <= k < |acts| :: Grounded(parse, ws[k], acts[k])
  }

  /** The world after such a round, with the server's status as the round leaves it. */
  function AfterRound(w: World, v: string, build: Build, infra: Infra): World {
    var spec := Spec("build-pin", v, Some(build));
    var st := w.st.(desired := v, desiredBuild := build, blocked := false);
    var after := if infra.Complete? then st.(current := v, currentBuild := build) else st;
    var w' := Changed(Changed(w, spec, w.st), spec, after);
    if infra.Complete? then WithImage(w', RenderImage(v, build)) else w'
  }

  lemma RoundRuns(parse: Parser, w: World, v: string, build: Build, infra: Infra) returns (ws: seq<World>)
    requires w.server.ServerIdle? && v != "" && DigitsAndDots(v) && build > 0 && !infra.FailedAfter?
    requires CheckDowngrade(parse, w.st.current, v) == Pass && UpToDate(parse, w, w.st)
    ensures IsRun(parse, ws, Round(w, v, build, infra)) && ws[0] == w && ws[5] == AfterRound(w, v, build, infra)
    ensures AllGrounded(parse, ws, Round(w, v, build, infra))
    ensures forall a | a in Round(w, v, build, infra) :: Untroubled(a) && !a.UpdateImage?
  {
    hide Resolved, UpToDate, CheckDowngrade, RenderImage, DetectPaperVersion, Untroubled;
    RoundUntroubled(w, v, build, infra);
    var acts := Round(w, v, build, infra);
    var spec := Spec("build-pin", v, Some(build));
    var st := w.st.(desired := v, desiredBuild := build, blocked := false);
    AvailableResolves(parse, w.st, v, build);
    var w1 := Changed(w, spec, w.st);
    var w2 := w1.(server := ServerLoaded(w1.rv, spec, w.st));
    var w3 := w1.(server := ServerResolved(w1.rv, st));
    var after := if infra.Complete? then st.(current := v, currentBuild := build) else st;
    var imaged := if infra.Complete? then WithImage(w1, RenderImage(v, build)) else w1;
    var w4 := imaged.(server := ServerClosing(w1.rv, after));
    ImageRoundTrip(v, build);
    assert Apply(parse, w, acts[0]) == w1 && Apply(parse, w1, acts[1]) == w2 && Apply(parse, w2, acts[2]) == w3;
    assert Apply(parse, w3, acts[3]) == w4;
    assert Apply(parse, w4, acts[4]) == AfterRound(w, v, build, infra);
    ws := [w, w1, w2, w3, w4, AfterRound(w, v, build, infra)];
    SameCopyUpToDate(parse, w, w3, st);
  }

  lemma RoundUntroubled(w: World, v: string, build: Build, infra: Infra)
    requires !infra.FailedAfter?
    ensures forall a | a in Round(w, v, build, infra) :: Untroubled(a) && !a.UpdateImage?
  {
  }

  lemma SameCopyUpToDate(parse: Parser, w: World, w': World, st: Status)
    requires UpToDate(parse, w, w.st) && w'.image == w.image && st.current == w.st.current
    ensures UpToDate(parse, w', st)
  {
  }

  lemma Joined(parse: Parser, ws: seq<World>, acts: seq<Action>, vs: seq<World>, bs: seq<Action>)
    requires IsRun(parse, ws, acts) && IsRun(parse, vs, bs) && ws[|acts|] == vs[0]
    ensures var us := ws[..|acts|] + vs; IsRun(parse, us, acts + bs) && us[0] == ws[0] && us[|acts| + |bs|] == vs[|bs|]
    ensures forall k | 0 <= k < |acts| :: (ws[..|acts|] + vs)[k] == ws[k] && (acts + bs)[k] == acts[k]
    ensures forall k | |acts| <= k < |acts + bs| :: (ws[..|acts|] + vs)[k] == vs[k - |acts|] && (acts + bs)[k] == bs[k - |acts|]
    ensures AllGrounded(parse, ws, acts) && AllGrounded(parse, vs, bs) ==> AllGrounded(parse, ws[..|acts|] + vs, acts + bs)
  {
    var us := ws[..|acts|] + vs;
    assert forall k | 0 <= k <= |acts| :: us[k] == ws[k];
    hide Apply, Grounded, Enabled;
    forall i | 0 <= i < |acts + bs| ensures Enabled(us[i], (acts + bs)[i]) && us[i + 1] == Apply(parse, us[i], (acts + bs)[i]) {
      if i < |acts| {
        assert ws[i + 1] == Apply(parse, ws[i], acts[i]);
      } else {
        var k := i - |acts|;
        assert vs[k + 1] == Apply(parse, vs[k], bs[k]);
      }
    }
  }

  /** Nothing fails but infrastructure before it touches the image, nobody edits the image, and every pass stores its status. */
  predicate Untroubled(a: Action) {
    match a
    case EditImage(_) => false
    case ServerEnsure(infra, _) => !infra.FailedAfter?
    case ServerStore(ok) => ok
    case UpdateRefresh(_, ok) => ok
    case UpdateImage(ok) => ok
    case UpdateFinish(ok) => ok
    case UpdateStore(ok) => ok
    case _ => true
  }

  /**
    The guard cannot be dropped: for any two versions v below u there is a run in which every pass
    that writes the image also stores its status, every image but one is written from an up-to-date
    copy, and the stale copy of an update pass takes the deployed version from u down to v.
   */
  lemma StaleCopyLowersDeployed(parse: Parser, v: string, u: string) returns (ws: seq<World>, acts: seq<Action>, n: nat)
    requires Below(parse, v, u) && DigitsAndDots(v) && DigitsAndDots(u)
    ensures IsRun(parse, ws, acts) && Initial(ws[0]) && n < |acts|
    ensures forall a | a in acts :: Untroubled(a)
    ensures forall k | 0 <= k < |acts| && k != n :: Grounded(parse, ws[k], acts[k])
    ensures WrittenFrom(ws[n], acts[n]).Some? && Readable(WrittenFrom(ws[n], acts[n]).value)
    ensures Deployed(ws[n]) == u && Deployed(ws[n + 1]) == v
  {
    var w := EmptyWorld();
    var x;
    ws, acts, x := StaleCopyHeld(parse, w, v, u);
    n := |acts|;
    var vs := StaleCopyWritten(parse, x, v, u);
    hide Apply, Grounded, WrittenFrom, Deployed, Initial, Untroubled, Readable, RenderImage, DigitsAndDots, Below, Now;
    var bs := WRITE_STORE;
    Joined(parse, ws, acts, vs, bs);
    assert (ws[..n] + vs)[n + 1] == vs[1];
    ws, acts := ws[..n] + vs, acts + bs;
  }

  lemma EmptyWorld() returns (w: World)
    ensures Initial(w)
  {
    var st := Status("", 0, "", 0, false);
    w := World(Spec("", "", None), 0, st, None, ServerIdle, UpdateIdle, {Seen(0, Spec("", "", None), st)}, {});
  }

  const WRITE_STORE := [UpdateImage(true), UpdateFinish(true), UpdateStore(true)]

  /** The update pass writes the image of its stale copy; its status write runs into a conflict and keeps the newer version. */
  lemma StaleCopyWritten(parse: Parser, x: World, v: string, u: string) returns (vs: seq<World>)
    requires x.server.ServerIdle? && x.image == Some(RenderImage(u, 1)) && DigitsAndDots(v) && DigitsAndDots(u)
    requires x.update.UpdateLoaded? && x.update.combined && x.update.rv < x.rv
    requires x.update.st.current == v && x.update.st.desired == v && x.update.st.currentBuild == 1 && x.update.st.desiredBuild == 2
    ensures IsRun(parse, vs, WRITE_STORE) && vs[0] == x
    ensures Grounded(parse, vs[1], WRITE_STORE[1]) && Grounded(parse, vs[2], WRITE_STORE[2])
    ensures WrittenFrom(x, WRITE_STORE[0]) == Some(x.update.st) && Readable(x.update.st)
    ensures Deployed(x) == u && Deployed(vs[1]) == v && forall a | a in WRITE_STORE :: Untroubled(a)
  {
    hide RenderImage, DetectPaperVersion;
    ImageRoundTrip(v, 2);
    ImageRoundTrip(u, 1);
    var st := x.update.st;
    var x1 := WithImage(x, RenderImage(v, 2)).(update := UpdateImaged(x.update.rv, st));
    var x2 := x1.(update := UpdateClosing(x.update.rv, st.(current := v, currentBuild := 2)));
    vs := [x, x1, x2, Changed(x2.(update := UpdateIdle), x2.spec, x2.st)];
  }

  lemma CopyTaken(parse: Parser, w: World) returns (copied: World)
    requires w.update.UpdateIdle? && Now(w) in w.versions
    ensures copied == w.(update := UpdateLoaded(w.rv, w.st, PaperChanged(w.st)))
    ensures IsRun(parse, [w, copied], [UpdateGet(Now(w))]) && AllGrounded(parse, [w, copied], [UpdateGet(Now(w))])
  {
    copied := Apply(parse, w, UpdateGet(Now(w)));
  }

  /** Both versions are deployed in turn, while an update pass holds a copy from in between. */
  lemma StaleCopyHeld(parse: Parser, w: World, v: string, u: string) returns (ws: seq<World>, acts: seq<Action>, x: World)
    requires Below(parse, v, u) && DigitsAndDots(v) && DigitsAndDots(u) && Initial(w)
    ensures IsRun(parse, ws, acts) && ws[0] == w && ws[|acts|] == x
    ensures AllGrounded(parse, ws, acts) && forall a | a in acts :: Untroubled(a)
    ensures x.server.ServerIdle? && x.image == Some(RenderImage(u, 1))
    ensures x.update.UpdateLoaded? && x.update.combined && x.update.rv < x.rv
    ensures x.update.st.current == v && x.update.st.desired == v && x.update.st.currentBuild == 1 && x.update.st.desiredBuild == 2
  {
    hide Apply, CheckDowngrade, RenderImage, DetectPaperVersion;
    BelowOrNot(parse, v, v, u);
    BelowOrNot(parse, v, u, u);
    DowngradeCheckMeaning(parse, "", v);
    DowngradeCheckMeaning(parse, v, v);
    DowngradeCheckMeaning(parse, v, u);
    ImageRoundTrip(v, 1);
    var r1 := RoundRuns(parse, w, v, 1, Complete);
    var r2 := RoundRuns(parse, r1[5], v, 2, FailedBefore);
    var copied := CopyTaken(parse, r2[5]);
    var r3 := RoundRuns(parse, copied, u, 1, Complete);
    x := r3[5];
    var a1, a2, a3 := Round(w, v, 1, Complete), Round(r1[5], v, 2, FailedBefore), Round(copied, u, 1, Complete);
    var g := [UpdateGet(Now(r2[5]))];
    Joined(parse, r1, a1, r2, a2);
    ws, acts := r1[..5] + r2, a1 + a2;
    Joined(parse, ws, acts, [r2[5], copied], g);
    ws, acts := ws[..10] + [r2[5], copied], acts + g;
    Joined(parse, ws, acts, r3, a3);
    ws, acts := ws[..11] + r3, acts + a3;
  }

  // ---------------------------------------------------------------- a refreshed copy records a version that is not deployed

  /**
    An update that began as plugin-only records a version that was never rolled out: while its backup
    runs, the desired version becomes u; the backup hands back a copy that desires u, and on success
    the update stores u as the current version, although v is deployed and no pass of the run is
    troubled or writes from a copy that is not up to date.
   */
  lemma RefreshedCopyRecordsUndeployed(parse: Parser, v: string, u: string) returns (ws: seq<World>, acts: seq<Action>)
    requires Below(parse, v, u) && DigitsAndDots(v) && DigitsAndDots(u)
    ensures IsRun(parse, ws, acts) && Initial(ws[0]) && AllGrounded(parse, ws, acts)
    ensures forall a | a in acts :: Untroubled(a) && !a.UpdateImage?
    ensures var x := ws[|acts|];
            x.server.ServerIdle? && x.update.UpdateIdle? && x.st.current == u && Deployed(x) == v
  {
    var w := EmptyWorld();
    var x;
    ws, acts, x := PluginUpdateHeld(parse, w, v, u);
    var vs := RefreshedAndStored(parse, x, v, u);
    hide Apply, Grounded, Deployed;
    var bs := RefreshSteps(x);
    Joined(parse, ws, acts, vs, bs);
    ws, acts := ws[..|acts|] + vs, acts + bs;
  }

  lemma PluginUpdateHeld(parse: Parser, w: World, v: string, u: string) returns (ws: seq<World>, acts: seq<Action>, x: World)
    requires Below(parse, v, u) && DigitsAndDots(v) && DigitsAndDots(u) && Initial(w)
    ensures IsRun(parse, ws, acts) && ws[0] == w && ws[|acts|] == x && AllGrounded(parse, ws, acts)
    ensures forall a | a in acts :: Untroubled(a) && !a.UpdateImage?
    ensures x.server.ServerIdle? && x.image == Some(RenderImage(v, 1)) && Now(x) in x.versions
    ensures x.update.UpdateLoaded? && !x.update.combined
    ensures x.st.current == v && x.st.desired == u && x.st.desiredBuild == 1
  {
    hide Apply, CheckDowngrade, RenderImage, DetectPaperVersion;
    BelowOrNot(parse, v, v, u);
    BelowOrNot(parse, v, u, u);
    DowngradeCheckMeaning(parse, "", v);
    DowngradeCheckMeaning(parse, v, u);
    ImageRoundTrip(v, 1);
    var r1 := RoundRuns(parse, w, v, 1, Complete);
    var copied := CopyTaken(parse, r1[5]);
    var r2 := RoundRuns(parse, copied, u, 1, FailedBefore);
    x := r2[5];
    var a1, a2 := Round(w, v, 1, Complete), Round(copied, u, 1, FailedBefore);
    var g := [UpdateGet(Now(r1[5]))];
    Joined(parse, r1, a1, [r1[5], copied], g);
    ws, acts := r1[..5] + [r1[5], copied], a1 + g;
    Joined(parse, ws, acts, r2, a2);
    ws, acts := ws[..6] + r2, acts + a2;
  }

  function RefreshSteps(x: World): seq<Action> {
    [UpdateRefresh(Now(x), true), UpdateFinish(true), UpdateStore(true)]
  }

  lemma RefreshedAndStored(parse: Parser, x: World, v: string, u: string) returns (vs: seq<World>)
    requires x.server.ServerIdle? && x.image == Some(RenderImage(v, 1)) && Now(x) in x.versions
    requires x.update.UpdateLoaded? && !x.update.combined && DigitsAndDots(v) && x.st.desired == u
    ensures IsRun(parse, vs, RefreshSteps(x)) && vs[0] == x && AllGrounded(parse, vs, RefreshSteps(x))
    ensures vs[3].server.ServerIdle? && vs[3].update.UpdateIdle? && vs[3].st.current == u && Deployed(vs[3]) == v
  {
    hide RenderImage, DetectPaperVersion;
    ImageRoundTrip(v, 1);
    var acts := RefreshSteps(x);
    var x1 := Apply(parse, x, acts[0]);
    var x2 := Apply(parse, x1, acts[1]);
    vs := [x, x1, x2, Apply(parse, x2, acts[2])];
  }

  // ---------------------------------------------------------------- orderly runs are up to date

  /**
    Server and update passes do not overlap and read current objects, nobody else edits the
    StatefulSet, and a pass that changes the deployed version goes on to detect it and to store it.
   */
  predicate Orderly(w: World, a: Action) {
    match a
    case EditImage(_) => false
    case ServerGet(v) => w.update.UpdateIdle? && v == Now(w)
    case ServerEnsure(infra, skip) => !infra.FailedAfter? && (skip ==> w.server.ServerResolved? && w.image == Some(WantedImage(w.server.st)))
    case ServerStore(ok) => w.server.ServerClosing? && (w.server.st.current != w.st.current ==> ok && w.server.rv == w.rv)
    case UpdateGet(v) => w.server.ServerIdle? && v == Now(w)
    case UpdateRefresh(v, _) => v == Now(w)
    case UpdateFinish(successful) => w.update.UpdateImaged? ==> successful
    case UpdateStore(ok) => w.update.UpdateClosing? && (w.update.st.current != w.st.current ==> ok && w.update.rv == w.rv)
    case _ => true
  }

  predicate AllReadable(w: World) {
    && Readable(w.st)
    && (!w.server.ServerIdle? ==> Readable(w.server.st))
    && (!w.update.UpdateIdle? ==> Readable(w.update.st))
  }

  ghost predicate Leads(parse: Parser, v: string, st: Status) {
    Parses(parse, v) ==> NotAbove(parse, v, st.desired)
  }

  /** What holds between the steps of an orderly run. */
  ghost predicate Settled(parse: Parser, w: World) {
    var v := Deployed(w);
    && (w.st.current == v ==> Leads(parse, v, w.st))
    && (match w.server
        case ServerIdle => true
        case ServerLoaded(_, _, st) => w.update.UpdateIdle? && w.st.current == st.current == v && Leads(parse, v, st)
        case ServerResolved(_, st) => w.update.UpdateIdle? && w.st.current == st.current == v && Leads(parse, v, st)
        case ServerClosing(_, st) => w.update.UpdateIdle? && st.current == v && Leads(parse, v, st))
    && (match w.update
        case UpdateIdle => w.server.ServerIdle? ==> w.st.current == v
        case UpdateLoaded(_, st, combined) =>
          // nobody else changes the versions meanwhile, so that a refresh changes none either
          && w.server.ServerIdle? && w.st.current == st.current == v && Leads(parse, v, st)
          && combined == PaperChanged(st) == PaperChanged(w.st)
        case UpdateImaged(_, st) => st.desired == v
        case UpdateClosing(_, st) => st.current == v && Leads(parse, v, st))
  }

  lemma ResolvedLeads(parse: Parser, spec: Spec, st: Status, answers: Answers)
    requires Leads(parse, st.current, st) && Readable(Resolved(parse, spec, st, answers))
    ensures Leads(parse, st.current, Resolved(parse, spec, st, answers))
  {
    var o := Resolve(parse, spec, st, answers);
    if o.Chosen? && Parses(parse, st.current) {
      DowngradeCheckMeaning(parse, st.current, o.candidate.version);
      assert LATEST[0] == 'l' && 'l' in LATEST;
    }
  }

  lemma OrderlyStep(parse: Parser, w: World, a: Action)
    requires Enabled(w, a) && Orderly(w, a) && Settled(parse, w)
    requires AllReadable(w) && AllReadable(Apply(parse, w, a))
    ensures Settled(parse, Apply(parse, w, a))
    ensures Grounded(parse, w, a)
  {
    BelowOrNot(parse, Deployed(w), Deployed(w), "");
    match a {
      case ServerResolve(answers) =>
        if answers.plugins {
          ResolvedLeads(parse, w.server.spec, w.server.st, answers);
        }
      case ServerEnsure(_, _) =>
        WantedIsDeployed(w.server.st);
        BelowOrNot(parse, w.server.st.desired, w.server.st.desired, "");
      case UpdateImage(_) => WantedIsDeployed(w.update.st);
      case UpdateFinish(_) =>
        WantedIsDeployed(w.update.st);
        BelowOrNot(parse, w.update.st.desired, w.update.st.desired, "");
      case _ =>
    }
  }

  /** An orderly run whose desired versions are readable writes every image from an up-to-date copy. */
  lemma {:induction false} OrderlyRunsAreGrounded(parse: Parser, ws: seq<World>, acts: seq<Action>, n: nat)
    requires IsRun(parse, ws, acts) && Initial(ws[0]) && n < |ws|
    requires forall k | 0 <= k < |ws| :: AllReadable(ws[k])
    requires forall k | 0 <= k < |acts| :: Orderly(ws[k], acts[k])
    ensures Settled(parse, ws[n])
    ensures n < |acts| ==> Grounded(parse, ws[n], acts[n])
  {
    if n > 0 {
      OrderlyRunsAreGrounded(parse, ws, acts, n - 1);
      assert ws[n - 1 + 1] == Apply(parse, ws[n - 1], acts[n - 1]);
      OrderlyStep(parse, ws[n - 1], acts[n - 1]);
    }
    if n < |acts| {
      assert ws[n + 1] == Apply(parse, ws[n], acts[n]);
      OrderlyStep(parse, ws[n], acts[n]);
    }
  }

  /**
    Why readable versions are needed: once a parseable version is deployed and detected, the gate
    refuses a lower candidate exactly when the deployed version is over digits and dots.  A deployed
    pre-release leaves the current version empty, and then every candidate passes.
   */
  lemma LowerCandidateRefusedIff(parse: Parser, st: Status, lower: string)
    requires Parses(parse, st.desired) && st.desiredBuild >= 0 && Below(parse, lower, st.desired)
    ensures CheckDowngrade(parse, Detect(st, WantedImage(st)).current, lower) != Pass <==> DigitsAndDots(st.desired)
  {
    assert SemverText(st.desired);
    ImageRoundTrip(st.desired, st.desiredBuild);
    DowngradeCheckMeaning(parse, st.desired, lower);
    BelowOrNot(parse, st.desired, lower, "");
  }

  /** A concrete downgrade: after 1.21.9-pre3 is deployed and detected, 1.21.8 passes the gate. */
  lemma PreReleaseHidesDowngrade(parse: Parser)
    requires parse("1.21.9-pre3") == Some(Version(1, 21, 9, [Alpha("pre3")]))
    requires parse("1.21.8") == Some(Version(1, 21, 8, []))
    ensures var st := Status("1.21.9-pre3", 1, "1.21.9-pre3", 1, false);
            && Below(parse, "1.21.8", st.desired)
            && CheckDowngrade(parse, st.current, "1.21.8") == Downgrade
            && CheckDowngrade(parse, Detect(st, WantedImage(st)).current, "1.21.8") == Pass
  {
    var st := Status("1.21.9-pre3", 1, "1.21.9-pre3", 1, false);
    assert st.desired[6] == '-' && '-' in st.desired;
    LowerCandidateRefusedIff(parse, st, "1.21.8");
  }
}
