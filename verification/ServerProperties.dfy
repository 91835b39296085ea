/**
  The part of the config script that patches server.properties with the RCON settings
  (internal/controller/config_injector.go, buildRCONPropertiesScript).  A file is a list of lines;
  the keys are used as patterns, in which a dot stands for any character.
 */
module ServerProperties {
  import opened Wrappers
  import ImageTags

  const DEFAULT_RCON_PORT := 25575

  datatype Setting = Setting(key: string, value: string)

  /** The RCON spec; `secret` is the content of the mounted password file, if it is there. */
  datatype Rcon = Rcon(enabled: bool, port: nat, secretName: string, secret: Option<string>)

  function LineOf(s: Setting): string {
    s.key + "=" + s.value
  }

  /** The regular expression `^key=`. */
  predicate Matches(key: string, line: string) {
    |key| < |line| && line[|key|] == '=' && forall i | 0 <= i < |key| :: key[i] == '.' || key[i] == line[i]
  }

  predicate AnyMatches(key: string, lines: seq<string>) {
    exists line | line in lines :: Matches(key, line)
  }

  function Replaced(lines: seq<string>, s: Setting): (r: seq<string>)
    ensures |r| == |lines|
    ensures forall i | 0 <= i < |lines| :: r[i] == if Matches(s.key, lines[i]) then LineOf(s) else lines[i]
  {
    if lines == [] then [] else [if Matches(s.key, lines[0]) then LineOf(s) else lines[0]] + Replaced(lines[1..], s)
  }

  /** Replaces the lines that match the key, or appends one if none does. */
  function PatchOne(lines: seq<string>, s: Setting): seq<string> {
    if AnyMatches(s.key, lines) then Replaced(lines, s) else lines + [LineOf(s)]
  }

  function Patch(lines: seq<string>, settings: seq<Setting>): seq<string>
    decreases |settings|
  {
    if settings == [] then lines else Patch(PatchOne(lines, settings[0]), settings[1..])
  }

  function Settings(rcon: Rcon): seq<Setting> {
    if !rcon.enabled then []
    else
      [Setting("enable-rcon", "true"), Setting("rcon.port", ImageTags.Decimal(if rcon.port == 0 then DEFAULT_RCON_PORT else rcon.port))] +
      if rcon.secretName != "" && rcon.secret.Some? then [Setting("rcon.password", rcon.secret.value)] else []
  }

  /** The script leaves a missing file missing. */
  function InjectRcon(file: Option<seq<string>>, rcon: Rcon): Option<seq<string>> {
    if file.None? then None else Some(Patch(file.value, Settings(rcon)))
  }

  // ---------------------------------------------------------------- properties

  /** The value of a property: that of its last line. */
  function ValueOf(lines: seq<string>, key: string): Option<string> {
    if lines == [] then None
    else
      var last := lines[|lines| - 1];
      if key + "=" <= last then Some(last[|key| + 1..]) else ValueOf(lines[..|lines| - 1], key)
  }

  /** Every line that matches the key's pattern is the setting's own, and there is one. */
  ghost predicate InForce(lines: seq<string>, s: Setting) {
    AnyMatches(s.key, lines) && forall line | line in lines && Matches(s.key, line) :: line == LineOf(s)
  }

  lemma OwnLineMatches(s: Setting)
    ensures Matches(s.key, LineOf(s)) && s.key + "=" <= LineOf(s) && LineOf(s)[|s.key| + 1..] == s.value
  {
  }

  lemma PatchOneInForce(lines: seq<string>, s: Setting)
    ensures InForce(PatchOne(lines, s), s)
  {
    OwnLineMatches(s);
    var after := PatchOne(lines, s);
    if AnyMatches(s.key, lines) {
      var line :| line in lines && Matches(s.key, line);
      var i :| 0 <= i < |lines| && lines[i] == line;
      assert after[i] == LineOf(s);
    } else {
      assert after[|lines|] == LineOf(s);
    }
  }

  /** A setting in force is what a reader of the file finds. */
  lemma {:induction false} InForceIsValue(lines: seq<string>, s: Setting)
    requires InForce(lines, s)
    ensures ValueOf(lines, s.key) == Some(s.value)
  {
    var n := |lines| - 1;
    var last := lines[n];
    assert lines == lines[..n] + [last];
    OwnLineMatches(s);
    if s.key + "=" <= last {
      assert last[|s.key|] == '=' && last[..|s.key|] == s.key;
      assert Matches(s.key, last) by {
        assert forall i | 0 <= i < |s.key| :: last[i] == last[..|s.key|][i];
      }
    } else {
      assert !Matches(s.key, last);
      InForceIsValue(lines[..n], s);
    }
  }

  lemma {:induction false} PatchingInForceChangesNothing(lines: seq<string>, s: Setting)
    requires InForce(lines, s)
    ensures PatchOne(lines, s) == lines
  {
  }

  /** No line can match the patterns of both keys. */
  ghost predicate Apart(key: string, other: string) {
    forall line :: !(Matches(key, line) && Matches(other, line))
  }

  lemma PatchOneKeepsOthers(lines: seq<string>, s: Setting, t: Setting)
    requires Apart(s.key, t.key) && InForce(lines, t)
    ensures InForce(PatchOne(lines, s), t)
  {
    OwnLineMatches(s);
    var after := PatchOne(lines, s);
    var line :| line in lines && Matches(t.key, line);
    var i :| 0 <= i < |lines| && lines[i] == line;
    assert after[i] == line;
    assert Matches(s.key, LineOf(s)) && !Matches(t.key, LineOf(s));
  }

  ghost predicate AllApart(settings: seq<Setting>) {
    forall i, j | 0 <= i < j < |settings| :: Apart(settings[i].key, settings[j].key)
  }

  lemma {:induction false} PatchKeepsInForce(lines: seq<string>, settings: seq<Setting>, t: Setting)
    requires InForce(lines, t) && forall s | s in settings :: Apart(s.key, t.key)
    ensures InForce(Patch(lines, settings), t)
    decreases |settings|
  {
    if settings != [] {
      PatchOneKeepsOthers(lines, settings[0], t);
      PatchKeepsInForce(PatchOne(lines, settings[0]), settings[1..], t);
    }
  }

  lemma {:induction false} PatchPutsInForce(lines: seq<string>, settings: seq<Setting>, t: Setting)
    requires AllApart(settings) && t in settings
    ensures InForce(Patch(lines, settings), t)
    decreases |settings|
  {
    var rest := settings[1..];
    assert settings == [settings[0]] + rest;
    assert forall i | 0 <= i < |rest| :: rest[i] == settings[i + 1];
    PatchOneInForce(lines, settings[0]);
    if t in rest {
      PatchPutsInForce(PatchOne(lines, settings[0]), rest, t);
    } else {
      assert forall s | s in rest :: Apart(s.key, t.key) by {
        forall s | s in rest ensures Apart(s.key, t.key) {
          var i :| 0 <= i < |rest| && rest[i] == s;
          assert Apart(settings[0].key, settings[i + 1].key);
        }
      }
      PatchKeepsInForce(PatchOne(lines, settings[0]), rest, t);
    }
  }

  lemma {:induction false} PatchIsIdentity(lines: seq<string>, settings: seq<Setting>)
    requires forall s | s in settings :: InForce(lines, s)
    ensures Patch(lines, settings) == lines
    decreases |settings|
  {
    if settings != [] {
      PatchingInForceChangesNothing(lines, settings[0]);
      PatchIsIdentity(lines, settings[1..]);
    }
  }

  lemma RconKeysApart(rcon: Rcon)
    ensures AllApart(Settings(rcon))
  {
    assert "enable-rcon"[0] == 'e' && "rcon.port"[0] == 'r' && "rcon.password"[0] == 'r';
    assert "rcon.port"[6] == 'o' && "rcon.password"[6] == 'a';
  }

  /** The settings are what a reader of the file finds, and injecting them again changes nothing. */
  lemma InjectionHoldsAndIsIdempotent(lines: seq<string>, rcon: Rcon, s: Setting)
    requires s in Settings(rcon)
    ensures ValueOf(Patch(lines, Settings(rcon)), s.key) == Some(s.value)
    ensures InjectRcon(InjectRcon(Some(lines), rcon), rcon) == InjectRcon(Some(lines), rcon)
  {
    RconKeysApart(rcon);
    var after := Patch(lines, Settings(rcon));
    forall t | t in Settings(rcon) ensures InForce(after, t) {
      PatchPutsInForce(lines, Settings(rcon), t);
    }
    InForceIsValue(after, s);
    PatchIsIdentity(after, Settings(rcon));
  }

  // ---------------------------------------------------------------- other properties

  /** Some line of property `other` matches the pattern of `key`. */
  predicate Compatible(key: string, other: string) {
    var pattern, text := key + "=", other + "=";
    forall i | 0 <= i < |pattern| && i < |text| :: (i < |key| && pattern[i] == '.') || pattern[i] == text[i]
  }

  lemma {:induction false} UnmatchedValueKept(lines: seq<string>, s: Setting, key: string)
    requires !Compatible(s.key, key) && '=' !in key && '=' !in s.key
    ensures ValueOf(Replaced(lines, s), key) == ValueOf(lines, key)
    decreases |lines|
  {
    if lines != [] {
      var n := |lines| - 1;
      var after := Replaced(lines, s);
      assert after[..n] == Replaced(lines[..n], s);
      UnmatchedValueKept(lines[..n], s, key);
      OtherLineKept(lines[n], s, key);
    }
  }

  lemma OtherLineKept(line: string, s: Setting, key: string)
    requires !Compatible(s.key, key) && '=' !in key && '=' !in s.key
    ensures key + "=" <= line ==> !Matches(s.key, line)
    ensures !(key + "=" <= LineOf(s))
  {
    var pattern, text := s.key + "=", key + "=";
    var i :| 0 <= i < |pattern| && i < |text| && !((i < |s.key| && pattern[i] == '.') || pattern[i] == text[i]);
    if text <= line {
      assert line[i] == text[i];
    }
  }

  lemma IncompatibleKept(lines: seq<string>, s: Setting, key: string)
    requires !Compatible(s.key, key) && '=' !in key && '=' !in s.key
    ensures ValueOf(PatchOne(lines, s), key) == ValueOf(lines, key)
  {
    OtherLineKept("", s, key);
    UnmatchedValueKept(lines, s, key);
    assert (lines + [LineOf(s)])[..|lines|] == lines;
  }

  /** A file with a line of the other property that the pattern matches, so that the property is lost. */
  lemma CompatibleLost(s: Setting, key: string) returns (lines: seq<string>)
    requires Compatible(s.key, key) && '=' !in key && '=' !in s.key && key != s.key
    ensures ValueOf(lines, key).Some? && ValueOf(PatchOne(lines, s), key).None?
  {
    var pattern, text := s.key + "=", key + "=";
    var line := if |text| < |pattern| then text + pattern[|text|..] else text;
    CompatibleLineMatches(s.key, key, line);
    OwnLineOfAnother(s, key);
    lines := [line];
    assert lines[..0] == [];
    assert PatchOne(lines, s) == [LineOf(s)] && [LineOf(s)][..0] == [];
  }

  /** The patch of one key leaves another property alone in every file exactly when no line of it can match the pattern. */
  lemma OtherPropertyKeptIff(s: Setting, key: string)
    requires '=' !in key && '=' !in s.key && key != s.key
    ensures (forall lines :: ValueOf(PatchOne(lines, s), key) == ValueOf(lines, key)) <==> !Compatible(s.key, key)
  {
    if Compatible(s.key, key) {
      var lines := CompatibleLost(s, key);
    } else {
      forall lines ensures ValueOf(PatchOne(lines, s), key) == ValueOf(lines, key) {
        IncompatibleKept(lines, s, key);
      }
    }
  }

  lemma CompatibleLineMatches(key: string, other: string, line: string)
    requires Compatible(key, other) && '=' !in key && '=' !in other
    requires var pattern, text := key + "=", other + "="; line == if |text| < |pattern| then text + pattern[|text|..] else text
    ensures Matches(key, line) && other + "=" <= line
  {
    var pattern, text := key + "=", other + "=";
  }

  lemma OwnLineOfAnother(s: Setting, key: string)
    requires '=' !in key && '=' !in s.key && key != s.key
    ensures !(key + "=" <= LineOf(s))
  {
    if key + "=" <= LineOf(s) {
      var line := LineOf(s);
      assert line[|key|] == (key + "=")[|key|] == '=';
      assert line[|s.key|] == '=';
      assert forall i | 0 <= i < |key| :: line[i] == (key + "=")[i] == key[i];
    }
  }

  /** A property that no line of the three patterns can hold keeps its value. */
  lemma {:induction false} OtherPropertiesKept(lines: seq<string>, settings: seq<Setting>, key: string)
    requires '=' !in key && forall s | s in settings :: '=' !in s.key && key != s.key && !Compatible(s.key, key)
    ensures ValueOf(Patch(lines, settings), key) == ValueOf(lines, key)
    decreases |settings|
  {
    if settings != [] {
      IncompatibleKept(lines, settings[0], key);
      OtherPropertiesKept(PatchOne(lines, settings[0]), settings[1..], key);
    }
  }

  /** A property whose name differs from rcon.port only where that has a dot is lost. */
  lemma WildcardLosesProperty()
    ensures ValueOf(["rcon-port=1"], "rcon-port") == Some("1")
    ensures ValueOf(PatchOne(["rcon-port=1"], Setting("rcon.port", "25575")), "rcon-port") == None
  {
    var line := "rcon-port=1";
    assert Matches("rcon.port", line);
    var none: seq<string> := [];
    assert [line][..0] == none;
    var own := LineOf(Setting("rcon.port", "25575"));
    assert PatchOne([line], Setting("rcon.port", "25575")) == [own] && [own][..0] == none;
    assert "rcon-port="[4] == '-' && own[4] == '.';
    assert "rcon-port" + "=" <= line && line[10..] == "1";
  }
}
