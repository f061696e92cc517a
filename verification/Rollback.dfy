/**
 The runtime upgrade and its rollback: back up the runtime files, let the installer replace them one
 by one, and on a failure put back every file and the enablement of both units.
 */
module Rollback {
  import opened Wrappers

  /** Contents, owner and mode of a file. */
  type File = nat

  const BINARY: string := "/opt/iphoneloadly/bin/" + "iphoneloadly-api"
  const UPDATE_SCRIPT: string := "/usr/local/libexec/iphoneloadly/" + "update-iphoneloadly.sh"

  function Unit(name: string): string {
    "/etc/systemd/system/iphoneloadly-" + name
  }

  /** The files the updater backs up. */
  function RuntimeTargets(): seq<string> {
    [BINARY, Unit("api.service"), Unit("update.service"), Unit("update.path"), Unit("source-sync.service"), Unit("source-sync.timer"), UPDATE_SCRIPT]
  }

  /** The files the installer's upgrade replaces, in its order. */
  function ReplacedByInstaller(): seq<string> {
    [BINARY, Unit("api.service"), Unit("update.service"), Unit("update.path"), Unit("source-sync.service"), Unit("source-sync.timer"), UPDATE_SCRIPT]
  }

  const UPDATE_PATH: string := "iphoneloadly-update.path"
  const SOURCE_SYNC_TIMER: string := "iphoneloadly-source-sync.timer"

  // ----- backup keys

  function Flatten(path: string): string {
    if path == "" then "" else (if path[0] == '/' then "__" else [path[0]]) + Flatten(path[1..])
  }

  /** The name of a target in the backup directory: without its first slash, and each further one doubled underscore. */
  function Key(path: string): string {
    Flatten(if "/" <= path then path[1..] else path)
  }

  function Marker(path: string): string {
    Key(path) + ".missing"
  }

  predicate EndsWith(text: string, suffix: string) {
    |suffix| <= |text| && text[|text| - |suffix|..] == suffix
  }

  /** Absolute, free of underscores, and not itself named like a marker. */
  predicate PlainTarget(path: string) {
    "/" <= path && '_' !in path && !EndsWith(path, ".missing")
  }

  lemma {:induction false} FlattenInjective(s: string, t: string)
    requires '_' !in s && '_' !in t && Flatten(s) == Flatten(t)
    ensures s == t
  {
    if s != "" && t != "" {
      assert Flatten(s)[0] == Flatten(t)[0];
      assert s[0] == t[0];
      var head := if s[0] == '/' then "__" else [s[0]];
      assert Flatten(s) == head + Flatten(s[1..]) && Flatten(t) == head + Flatten(t[1..]);
      assert Flatten(s)[|head|..] == Flatten(s[1..]) && Flatten(t)[|head|..] == Flatten(t[1..]);
      FlattenInjective(s[1..], t[1..]);
      assert s == [s[0]] + s[1..] && t == [t[0]] + t[1..];
    }
  }

  lemma {:induction false} FlattenOfSuffix(s: string, suffix: string)
    requires '/' !in suffix
    ensures Flatten(s + suffix) == Flatten(s) + suffix
  {
    if s == "" {
      assert s + suffix == suffix;
      FlattenPlain(suffix);
    } else {
      assert (s + suffix)[1..] == s[1..] + suffix;
      FlattenOfSuffix(s[1..], suffix);
    }
  }

  lemma FlattenPlain(s: string)
    requires '/' !in s
    ensures Flatten(s) == s
  {
    if s != "" {
      FlattenPlain(s[1..]);
    }
  }

  lemma KeyInjective(one: string, two: string)
    requires PlainTarget(one) && PlainTarget(two)
    ensures Key(one) == Key(two) <==> one == two
  {
    hide Flatten, EndsWith;
    assert one == "/" + one[1..] && two == "/" + two[1..];
    if Key(one) == Key(two) {
      FlattenInjective(one[1..], two[1..]);
    }
  }

  lemma MarkerIsNoKey(one: string, two: string)
    requires PlainTarget(one) && PlainTarget(two)
    ensures Marker(one) != Key(two)
  {
    hide Flatten, EndsWith;
    assert two == "/" + two[1..];
    MissingSuffix(one[1..]);
    FlattenOfSuffix(one[1..], ".missing");
    if Marker(one) == Key(two) {
      FlattenInjective(one[1..] + ".missing", two[1..]);
    }
  }

  /** Different plain targets have different keys, and no marker is a key. */
  lemma KeysDoNotCollide(one: string, two: string)
    requires PlainTarget(one) && PlainTarget(two)
    ensures Key(one) == Key(two) <==> one == two
    ensures Marker(one) == Marker(two) <==> one == two
    ensures Marker(one) != Key(two)
  {
    KeyInjective(one, two);
    MarkerIsNoKey(one, two);
    hide Key, PlainTarget;
    if Marker(one) == Marker(two) {
      assert |Key(one)| == |Key(two)|;
      assert Marker(one)[..|Key(one)|] == Key(one) && Marker(two)[..|Key(two)|] == Key(two);
    }
  }

  lemma MissingSuffix(name: string)
    ensures EndsWith("/" + (name + ".missing"), ".missing")
  {
    var path := "/" + (name + ".missing");
    assert path[|path| - 8..] == ".missing";
  }

  /** Underscores are what the keys rely on: these two paths share one. */
  lemma UnderscoresCollide()
    ensures Key("/a__b") == Key("/a/b")
  {
    FlattenPlain("a__b");
    assert "a/b"[1..] == "/b" && "/b"[1..] == "b" && "b"[1..] == "";
    assert Flatten("b") == "b";
    assert Flatten("/b") == "__b";
  }

  /** What a path needs beside its leading slash. */
  predicate PlainPart(part: string) {
    '_' !in part && !EndsWith(part, ".missing") && |part| >= 8
  }

  lemma JoinsPlain(directory: string, name: string)
    requires "/" <= directory && '_' !in directory && PlainPart(name)
    ensures PlainTarget(directory + name)
  {
    var path := directory + name;
    assert path[|path| - 8..] == name[|name| - 8..];
  }

  lemma ServicesArePlain()
    ensures PlainPart("api.service") && PlainPart("update.service") && PlainPart("update.path")
  {
  }

  lemma SourceSyncIsPlain()
    ensures PlainPart("source-sync.service") && PlainPart("source-sync.timer")
  {
  }

  lemma UnitDirectoryIsPlain()
    ensures '_' !in "/etc/systemd/system/iphoneloadly-"
  {
  }

  lemma ProgramDirectoriesArePlain()
    ensures '_' !in "/opt/iphoneloadly/bin/" && '_' !in "/usr/local/libexec/iphoneloadly/"
  {
  }

  lemma ProgramsArePlain()
    ensures PlainTarget(BINARY) && PlainTarget(UPDATE_SCRIPT)
  {
    ProgramDirectoriesArePlain();
    assert PlainPart("iphoneloadly-api") && PlainPart("update-iphoneloadly.sh");
    JoinsPlain("/opt/iphoneloadly/bin/", "iphoneloadly-api");
    JoinsPlain("/usr/local/libexec/iphoneloadly/", "update-iphoneloadly.sh");
  }

  lemma UnitIsPlain(name: string)
    requires PlainPart(name)
    ensures PlainTarget(Unit(name))
  {
    UnitDirectoryIsPlain();
    JoinsPlain("/etc/systemd/system/iphoneloadly-", name);
  }

  lemma TargetsArePlain()
    ensures forall i :: 0 <= i < |RuntimeTargets()| ==> PlainTarget(RuntimeTargets()[i])
  {
    hide PlainTarget, PlainPart, Unit;
    ProgramsArePlain();
    ServicesArePlain();
    SourceSyncIsPlain();
    UnitIsPlain("api.service");
    UnitIsPlain("update.service");
    UnitIsPlain("update.path");
    UnitIsPlain("source-sync.service");
    UnitIsPlain("source-sync.timer");
  }

  lemma UnitsDiffer(one: string, two: string)
    ensures Unit(one) == Unit(two) ==> one == two
  {
    var directory := "/etc/systemd/system/iphoneloadly-";
    assert Unit(one)[|directory|..] == one && Unit(two)[|directory|..] == two;
  }

  lemma UnitIsNoProgram(name: string)
    ensures Unit(name) != BINARY && Unit(name) != UPDATE_SCRIPT && BINARY != UPDATE_SCRIPT
  {
    assert Unit(name)[1] == 'e' && BINARY[1] == 'o' && UPDATE_SCRIPT[1] == 'u';
  }

  lemma UnitNamesDiffer()
    ensures |"api.service"| == 11 && |"update.service"| == 14 && |"update.path"| == 11 && |"source-sync.service"| == 19 && |"source-sync.timer"| == 17
    ensures "api.service" != "update.path"
  {
    assert "api.service"[0] != "update.path"[0];
  }

  lemma TargetsAreDistinct()
    ensures |RuntimeTargets()| == 7
    ensures forall i, k :: 0 <= i < k < |RuntimeTargets()| ==> RuntimeTargets()[i] != RuntimeTargets()[k]
  {
    hide Unit;
    UnitNamesDiffer();
    var names := ["api.service", "update.service", "update.path", "source-sync.service", "source-sync.timer"];
    forall i | 0 <= i < 5 ensures Unit(names[i]) != BINARY && Unit(names[i]) != UPDATE_SCRIPT && BINARY != UPDATE_SCRIPT {
      UnitIsNoProgram(names[i]);
    }
    assert |names[0]| == 11 && |names[1]| == 14 && |names[2]| == 11 && |names[3]| == 19 && |names[4]| == 17 && names[0] != names[2];
    forall i, k | 0 <= i < k < 5 ensures Unit(names[i]) != Unit(names[k]) {
      UnitsDiffer(names[i], names[k]);
    }
    var all := RuntimeTargets();
    assert all[0] == BINARY && all[6] == UPDATE_SCRIPT && forall i :: 0 <= i < 5 ==> all[i + 1] == Unit(names[i]);
    forall i, k | 0 <= i < k < 7 ensures all[i] != all[k] {
      if 0 < i && k < 6 {
        assert all[i] == Unit(names[i - 1]) && all[k] == Unit(names[k - 1]);
      }
    }
  }

  /** Everything the installer replaces is backed up. */
  lemma FootprintIsBackedUp()
    ensures forall t :: t in ReplacedByInstaller() ==> t in RuntimeTargets()
    ensures |ReplacedByInstaller()| == 7
  {
    hide Unit;
    forall i | 0 <= i < |ReplacedByInstaller()| ensures ReplacedByInstaller()[i] == RuntimeTargets()[i] {
    }
  }

  // ----- the host

  function At(files: map<string, File>, path: string): Option<File> {
    if path in files then Some(files[path]) else None
  }

  /** The backup holds the state of a target: its file, or a marker that there was none. */
  predicate BackedUp(backup: map<string, File>, path: string, state: Option<File>) {
    && (state.Some? ==> Marker(path) !in backup && Key(path) in backup && backup[Key(path)] == state.value)
    && (state.None? ==> Marker(path) in backup)
  }

  predicate SameElsewhere(before: map<string, File>, after: map<string, File>, targets: seq<string>) {
    forall path :: path in before.Keys + after.Keys && path !in targets ==> At(after, path) == At(before, path)
  }

  /** Every name in the backup belongs to one of the first `i` targets. */
  ghost predicate NamesUpTo(backup: map<string, File>, i: nat)
    requires i <= |RuntimeTargets()|
  {
    forall name :: name in backup ==> exists k :: 0 <= k < i && (name == Key(RuntimeTargets()[k]) || name == Marker(RuntimeTargets()[k]))
  }

  ghost predicate BackedUpTo(backup: map<string, File>, files: map<string, File>, i: nat)
    requires i <= |RuntimeTargets()|
  {
    forall k :: 0 <= k < i ==> BackedUp(backup, RuntimeTargets()[k], At(files, RuntimeTargets()[k]))
  }

  function BackUpOne(backup: map<string, File>, files: map<string, File>, target: string): map<string, File> {
    if target in files then backup[Key(target) := files[target]] else backup[Marker(target) := 0]
  }

  /** The names of one target are no names of an earlier one. */
  lemma NamesApart(k: nat, i: nat)
    requires k < i < |RuntimeTargets()|
    ensures
      var one, two := RuntimeTargets()[k], RuntimeTargets()[i];
      Key(one) != Key(two) && Marker(one) != Marker(two) && Marker(one) != Key(two) && Key(one) != Marker(two)
  {
    hide RuntimeTargets, PlainTarget, Key, Marker;
    TargetsArePlain();
    TargetsAreDistinct();
    KeysDoNotCollide(RuntimeTargets()[k], RuntimeTargets()[i]);
    KeysDoNotCollide(RuntimeTargets()[i], RuntimeTargets()[k]);
  }

  lemma OneKeyNoMarker(i: nat)
    requires i < |RuntimeTargets()|
    ensures Key(RuntimeTargets()[i]) != Marker(RuntimeTargets()[i])
  {
    hide RuntimeTargets, PlainTarget, Key, Marker;
    TargetsArePlain();
    MarkerIsNoKey(RuntimeTargets()[i], RuntimeTargets()[i]);
  }

  /** Backing up one more target disturbs no earlier backup. */
  lemma BackupGrows(backup: map<string, File>, files: map<string, File>, i: nat)
    requires i < |RuntimeTargets()| && NamesUpTo(backup, i) && BackedUpTo(backup, files, i)
    ensures NamesUpTo(BackUpOne(backup, files, RuntimeTargets()[i]), i + 1)
    ensures BackedUpTo(BackUpOne(backup, files, RuntimeTargets()[i]), files, i + 1)
  {
    hide Key, Marker, RuntimeTargets;
    var target := RuntimeTargets()[i];
    var after := BackUpOne(backup, files, target);
    OneKeyNoMarker(i);
    forall k | 0 <= k < i
      ensures BackedUp(after, RuntimeTargets()[k], At(files, RuntimeTargets()[k]))
      ensures Marker(target) != Key(RuntimeTargets()[k]) && Marker(target) != Marker(RuntimeTargets()[k])
    {
      NamesApart(k, i);
      assert BackedUp(backup, RuntimeTargets()[k], At(files, RuntimeTargets()[k]));
    }
    assert target in files ==> Marker(target) !in after;
    assert BackedUp(after, target, At(files, target));
  }

  datatype Write = Done | Torn(left: Option<File>)

  // ----- which calls of a run succeed

  /** The installer's seven writes, the two units it enables, and the start of the new version. */
  datatype Installer = Installer(writes: seq<Write>, enablesPath: bool, enablesTimer: bool, starts: bool)

  /** The calls of a rollback in their order; `restores` has one entry for each target. */
  datatype Rollback = Rollback(stops: bool, restores: seq<bool>, reloads: bool, setsPath: bool, setsTimer: bool, starts: bool, healthy: bool)

  /** All calls of an upgrade: both questions, the copies, the two reports, the installer, and the rollback should it come to that. */
  datatype Calls = Calls(answersPath: bool, answersTimer: bool, copies: seq<bool>, announces: bool,
                         installer: Installer, reports: bool, rollback: Rollback)

  predicate AllWork(works: seq<bool>) {
    forall i :: 0 <= i < |works| ==> works[i]
  }

  predicate Installs(i: Installer) {
    (forall k :: 0 <= k < |i.writes| ==> i.writes[k].Done?) && i.enablesPath && i.enablesTimer && i.starts
  }

  /** The target has a place in the backup. */
  predicate Kept(backup: map<string, File>, target: string) {
    Marker(target) in backup || Key(target) in backup
  }

  /** Every target that has a place in the backup is put back. */
  predicate Restores(works: seq<bool>, backup: map<string, File>)
    requires |works| == |RuntimeTargets()|
  {
    forall i :: 0 <= i < |works| && Kept(backup, RuntimeTargets()[i]) ==> works[i]
  }

  predicate OneEach(c: Calls) {
    |c.copies| == |c.rollback.restores| == |RuntimeTargets()| && |c.installer.writes| == |ReplacedByInstaller()|
  }

  /** `InstalledButFailed`: the new files are in place, yet the script ends with an error and no rollback. */
  datatype UpdateResult = Succeeded | InstalledButFailed | NotStarted | RolledBack | RollbackFailed

  predicate OtherUnitsSame(before: set<string>, after: set<string>) {
    forall unit :: unit in before + after && unit != UPDATE_PATH && unit != SOURCE_SYNC_TIMER ==> (unit in before <==> unit in after)
  }

  lemma TwoUnits()
    ensures UPDATE_PATH != SOURCE_SYNC_TIMER
  {
    assert |UPDATE_PATH| != |SOURCE_SYNC_TIMER|;
  }

  lemma SameElsewhereTwice(a: map<string, File>, b: map<string, File>, c: map<string, File>, fewer: seq<string>, targets: seq<string>)
    requires SameElsewhere(a, b, fewer) && SameElsewhere(b, c, targets) && forall t :: t in fewer ==> t in targets
    ensures SameElsewhere(a, c, targets) && SameElsewhere(a, b, targets)
  {
    forall path | path in a.Keys + c.Keys && path !in targets ensures At(c, path) == At(a, path) {
      assert At(b, path) == At(a, path);
    }
  }

  /** Every target of the installer holds the package's file. */
  predicate InPlace(files: map<string, File>, package: seq<File>)
    requires |package| == |ReplacedByInstaller()|
  {
    forall i :: 0 <= i < |package| ==> At(files, ReplacedByInstaller()[i]) == Some(package[i])
  }

  class Host {
    var files: map<string, File>
    var enabled: set<string>
    var backup: map<string, File>
    var updatePathWasEnabled: bool
    var sourceSyncTimerWasEnabled: bool

    constructor (files: map<string, File>, enabled: set<string>)
      ensures this.files == files && this.enabled == enabled && backup == map[]
    {
      this.files, this.enabled, backup := files, enabled, map[];
      updatePathWasEnabled, sourceSyncTimerWasEnabled := false, false;
    }

    /** `systemctl is-enabled`: a call that fails reads as "disabled", so `true` is to be trusted and `false` is not. */
    method IsEnabled(unit: string, answers: bool) returns (enabled: bool)
      ensures enabled <==> answers && unit in this.enabled
    {
      enabled := answers && unit in this.enabled;
    }

    method CaptureEnablement(answersPath: bool, answersTimer: bool)
      modifies `updatePathWasEnabled, `sourceSyncTimerWasEnabled
      ensures updatePathWasEnabled <==> UPDATE_PATH in enabled && answersPath
      ensures sourceSyncTimerWasEnabled <==> SOURCE_SYNC_TIMER in enabled && answersTimer
      ensures CapturedAsIs(enabled) <==> (UPDATE_PATH in enabled ==> answersPath) && (SOURCE_SYNC_TIMER in enabled ==> answersTimer)
    {
      updatePathWasEnabled := IsEnabled(UPDATE_PATH, answersPath);
      sourceSyncTimerWasEnabled := IsEnabled(SOURCE_SYNC_TIMER, answersTimer);
    }

    /** The captured flags are what the units were. */
    predicate CapturedAsIs(units: set<string>)
      reads `updatePathWasEnabled, `sourceSyncTimerWasEnabled
    {
      (updatePathWasEnabled <==> UPDATE_PATH in units) && (sourceSyncTimerWasEnabled <==> SOURCE_SYNC_TIMER in units)
    }

    /** Any copy may fail, and then the backup is given up. */
    method BackupRuntime(copies: seq<bool>) returns (ok: bool)
      requires backup == map[] && |copies| == |RuntimeTargets()|
      modifies `backup
      ensures ok <==> AllWork(copies)
      ensures ok ==> BackedUpTo(backup, files, |RuntimeTargets()|)
    {
      hide RuntimeTargets;
      for i := 0 to |RuntimeTargets()|
        invariant NamesUpTo(backup, i) && BackedUpTo(backup, files, i)
        invariant forall k :: 0 <= k < i ==> copies[k]
      {
        var target := RuntimeTargets()[i];
        if !copies[i] {
          return false;
        }
        BackupGrows(backup, files, i);
        hide NamesUpTo, BackedUpTo, Key, Marker;
        if target in files {
          backup := backup[Key(target) := files[target]];
        } else {
          backup := backup[Marker(target) := 0];
        }
      }
      return true;
    }

    /**
     The installer's upgrade. It may stop at any write and leave that file torn or missing, except
     for the binary, which a rename replaces; it may stop at any later step too.
     */
    method RunInstaller(package: seq<File>, calls: Installer) returns (ok: bool)
      requires |package| == |calls.writes| == |ReplacedByInstaller()|
      modifies `files, `enabled
      ensures SameElsewhere(old(files), files, ReplacedByInstaller())
      ensures OtherUnitsSame(old(enabled), enabled) && old(enabled) <= enabled
      ensures ok <==> Installs(calls)
      ensures ok ==> UPDATE_PATH in enabled && SOURCE_SYNC_TIMER in enabled
      ensures ok ==> InPlace(files, package)
    {
      hide ReplacedByInstaller;
      InstallerTargetsAreDistinct();
      for i := 0 to |package|
        invariant SameElsewhere(old(files), files, ReplacedByInstaller())
        invariant forall k :: 0 <= k < i ==> At(files, ReplacedByInstaller()[k]) == Some(package[k])
        invariant forall k :: 0 <= k < i ==> calls.writes[k].Done?
        invariant enabled == old(enabled)
      {
        var target := ReplacedByInstaller()[i];
        assert target in ReplacedByInstaller();
        var write := calls.writes[i];
        if write.Torn? {
          if i > 0 {
            files := if write.left.Some? then files[target := write.left.value] else files - {target};
          }
          return false;
        }
        files := files[target := package[i]];
      }
      if calls.enablesPath {
        enabled := enabled + {UPDATE_PATH};
      }
      if calls.enablesTimer {
        enabled := enabled + {SOURCE_SYNC_TIMER};
      }
      return calls.enablesPath && calls.enablesTimer && calls.starts;
    }

    /** Each target is removed or replaced by one rename, so it always holds its present or its saved state. */
    method RestoreRuntime(works: seq<bool>) returns (ok: bool)
      requires |works| == |RuntimeTargets()|
      modifies `files
      ensures SameElsewhere(old(files), files, RuntimeTargets())
      ensures ok <==> Restores(works, backup)
      ensures forall k, state :: 0 <= k < |RuntimeTargets()| && BackedUp(backup, RuntimeTargets()[k], state) ==>
                At(files, RuntimeTargets()[k]) == state || (!ok && At(files, RuntimeTargets()[k]) == At(old(files), RuntimeTargets()[k]))
    {
      hide Key, Marker, RuntimeTargets;
      TargetsAreDistinct();
      for i := 0 to |RuntimeTargets()|
        invariant SameElsewhere(old(files), files, RuntimeTargets())
        invariant forall k, state :: 0 <= k < i && BackedUp(backup, RuntimeTargets()[k], state) ==> At(files, RuntimeTargets()[k]) == state
        invariant forall k :: i <= k < |RuntimeTargets()| ==> At(files, RuntimeTargets()[k]) == At(old(files), RuntimeTargets()[k])
        invariant forall k :: 0 <= k < i && Kept(backup, RuntimeTargets()[k]) ==> works[k]
      {
        var target := RuntimeTargets()[i];
        assert target in RuntimeTargets();
        if Marker(target) in backup {
          if !works[i] {
            return false;
          }
          files := files - {target};
        } else if Key(target) in backup {
          if !works[i] {
            return false;
          }
          files := files[target := backup[Key(target)]];
        }
      }
      return true;
    }

    /** `systemctl enable` or `disable` of one unit; a failing call may still have changed it. */
    method SetEnabled(unit: string, on: bool, works: bool)
      modifies `enabled
      ensures forall other :: other != unit ==> (other in enabled <==> other in old(enabled))
      ensures works ==> (unit in enabled <==> on)
    {
      var changed: bool := *;
      if works || changed {
        enabled := if on then enabled + {unit} else enabled - {unit};
      }
    }

    /** One unit's failure does not keep the other from being set. */
    method RestoreEnablement(setsPath: bool, setsTimer: bool) returns (ok: bool)
      modifies `enabled
      ensures OtherUnitsSame(old(enabled), enabled)
      ensures ok <==> setsPath && setsTimer
      ensures setsPath ==> (UPDATE_PATH in enabled <==> updatePathWasEnabled)
      ensures setsTimer ==> (SOURCE_SYNC_TIMER in enabled <==> sourceSyncTimerWasEnabled)
    {
      TwoUnits();
      SetEnabled(UPDATE_PATH, updatePathWasEnabled, setsPath);
      SetEnabled(SOURCE_SYNC_TIMER, sourceSyncTimerWasEnabled, setsTimer);
      return setsPath && setsTimer;
    }

    /**
     Only a failing stop or a failing restore keeps the files from being put back; whatever fails
     later makes the rollback fail, but the files are as saved by then.
     */
    method RollbackRuntime(calls: Rollback) returns (ok: bool)
      requires |calls.restores| == |RuntimeTargets()|
      modifies `files, `enabled
      ensures SameElsewhere(old(files), files, RuntimeTargets())
      ensures OtherUnitsSame(old(enabled), enabled)
      ensures ok <==>
                && calls.stops && Restores(calls.restores, backup) && calls.reloads
                && calls.setsPath && calls.setsTimer && calls.starts && calls.healthy
      ensures !calls.stops ==> files == old(files) && enabled == old(enabled)
      ensures calls.stops && Restores(calls.restores, backup) ==>
                && (forall k, state :: 0 <= k < |RuntimeTargets()| && BackedUp(backup, RuntimeTargets()[k], state) ==>
                      At(files, RuntimeTargets()[k]) == state)
                && (calls.setsPath ==> (UPDATE_PATH in enabled <==> updatePathWasEnabled))
                && (calls.setsTimer ==> (SOURCE_SYNC_TIMER in enabled <==> sourceSyncTimerWasEnabled))
    {
      hide RuntimeTargets;
      if !calls.stops {
        return false;
      }
      var restored := RestoreRuntime(calls.restores);
      if !restored {
        return false;
      }
      var failed := !calls.reloads;
      var enablement := RestoreEnablement(calls.setsPath, calls.setsTimer);
      failed := failed || !enablement;
      if !calls.starts {
        return false;
      }
      failed := failed || !calls.healthy;
      return !failed;
    }

    /** The rollback, said of the files and units from before the upgrade. */
    method RollBackTo(calls: Rollback, ghost files0: map<string, File>, ghost enabled0: set<string>) returns (ok: bool)
      requires |calls.restores| == |RuntimeTargets()| && BackedUpTo(backup, files0, |RuntimeTargets()|)
      requires SameElsewhere(files0, files, RuntimeTargets()) && OtherUnitsSame(enabled0, enabled)
      modifies `files, `enabled
      ensures ok <==>
                && calls.stops && AllWork(calls.restores) && calls.reloads
                && calls.setsPath && calls.setsTimer && calls.starts && calls.healthy
      ensures calls.stops && AllWork(calls.restores) ==> files == files0
      ensures ok ==> (enabled == enabled0 <==> CapturedAsIs(enabled0))
      ensures ok && (updatePathWasEnabled ==> UPDATE_PATH in enabled0) && (sourceSyncTimerWasEnabled ==> SOURCE_SYNC_TIMER in enabled0) ==>
                enabled <= enabled0
      ensures SameElsewhere(files0, files, RuntimeTargets()) && OtherUnitsSame(enabled0, enabled)
    {
      hide RuntimeTargets, Restores, AllWork, BackedUp, BackedUpTo, SameElsewhere, OtherUnitsSame;
      ghost var files1, enabled1 := files, enabled;
      RestoresAll(backup, files0, calls.restores);
      ok := RollbackRuntime(calls);
      SameElsewhereTwice(files0, files1, files, RuntimeTargets(), RuntimeTargets());
      OtherUnitsTwice(enabled0, enabled1, enabled);
      if calls.stops && AllWork(calls.restores) {
        AllRestored(backup, files0, files);
      }
      if ok {
        UnitsAfter(enabled0, enabled, updatePathWasEnabled, sourceSyncTimerWasEnabled);
      }
    }

    /** What comes before the installer: the two flags, the backup and the first report. */
    method Prepare(calls: Calls) returns (ready: bool)
      requires backup == map[] && OneEach(calls)
      modifies `updatePathWasEnabled, `sourceSyncTimerWasEnabled, `backup
      ensures ready <==> AllWork(calls.copies) && calls.announces
      ensures ready ==> BackedUpTo(backup, files, |RuntimeTargets()|)
      ensures updatePathWasEnabled ==> UPDATE_PATH in enabled
      ensures sourceSyncTimerWasEnabled ==> SOURCE_SYNC_TIMER in enabled
      ensures CapturedAsIs(enabled) <==>
                (UPDATE_PATH in enabled ==> calls.answersPath) && (SOURCE_SYNC_TIMER in enabled ==> calls.answersTimer)
    {
      hide RuntimeTargets, AllWork, BackedUpTo;
      CaptureEnablement(calls.answersPath, calls.answersTimer);
      var saved := BackupRuntime(calls.copies);
      return saved && calls.announces;
    }

    /**
     The updater, from a verified package on; `calls` says which of its calls succeed, and with them
     the result is fixed. A run that stops the API and restores every target leaves the files exactly
     as they were, whatever fails later, and one that rolls back leaves the enabled units so too if
     and only if the captured flags say what they were. Reporting may fail as well: before the
     installer this only ends the run, after it the run ends with an error while the new files stay.
     */
    method Update(package: seq<File>, calls: Calls) returns (r: UpdateResult)
      requires |package| == |ReplacedByInstaller()| && backup == map[] && OneEach(calls)
      modifies this
      ensures r == NotStarted <==> !AllWork(calls.copies) || !calls.announces
      ensures r == Succeeded || r == InstalledButFailed <==> AllWork(calls.copies) && calls.announces && Installs(calls.installer)
      ensures r == Succeeded ==> calls.reports
      ensures r == InstalledButFailed ==> !calls.reports
      ensures r == RolledBack || r == RollbackFailed ==>
                (r == RolledBack <==>
                   && calls.rollback.stops && AllWork(calls.rollback.restores) && calls.rollback.reloads
                   && calls.rollback.setsPath && calls.rollback.setsTimer && calls.rollback.starts && calls.rollback.healthy)
      ensures r == NotStarted ==> files == old(files) && enabled == old(enabled)
      ensures (r == RolledBack || r == RollbackFailed) && calls.rollback.stops && AllWork(calls.rollback.restores) ==> files == old(files)
      ensures r == RolledBack ==> files == old(files) && (enabled == old(enabled) <==> CapturedAsIs(old(enabled)))
      ensures CapturedAsIs(old(enabled)) <==>
                (UPDATE_PATH in old(enabled) ==> calls.answersPath) && (SOURCE_SYNC_TIMER in old(enabled) ==> calls.answersTimer)
      ensures r == RolledBack ==> enabled <= old(enabled)
      ensures r == Succeeded || r == InstalledButFailed ==>
                InPlace(files, package) && UPDATE_PATH in enabled && SOURCE_SYNC_TIMER in enabled
      ensures SameElsewhere(old(files), files, RuntimeTargets())
      ensures OtherUnitsSame(old(enabled), enabled)
    {
      hide At, CapturedAsIs, RuntimeTargets, ReplacedByInstaller, Installs, AllWork, BackedUpTo, SameElsewhere, OtherUnitsSame, InPlace;
      ghost var files0, enabled0 := files, enabled;
      SameElsewhereItself(files0, RuntimeTargets());
      OtherUnitsTwice(enabled0, enabled0, enabled0);
      var ready := Prepare(calls);
      if !ready {
        return NotStarted;
      }
      var installed := RunInstaller(package, calls.installer);
      InstallerStaysInside(files0, files);
      if installed {
        return if calls.reports then Succeeded else InstalledButFailed;
      }
      var rolledBack := RollBackTo(calls.rollback, files0, enabled0);
      return if rolledBack then RolledBack else RollbackFailed;
    }
  }

  lemma AllRestored(backup: map<string, File>, before: map<string, File>, after: map<string, File>)
    requires BackedUpTo(backup, before, |RuntimeTargets()|) && SameElsewhere(before, after, RuntimeTargets())
    requires forall k, state :: 0 <= k < |RuntimeTargets()| && BackedUp(backup, RuntimeTargets()[k], state) ==> At(after, RuntimeTargets()[k]) == state
    ensures after == before
  {
    hide RuntimeTargets, BackedUp, SameElsewhere;
    forall k | 0 <= k < |RuntimeTargets()| ensures At(after, RuntimeTargets()[k]) == At(before, RuntimeTargets()[k]) {
      assert BackedUp(backup, RuntimeTargets()[k], At(before, RuntimeTargets()[k]));
    }
    SameFiles(before, after);
  }

  lemma SameElsewhereItself(files: map<string, File>, targets: seq<string>)
    ensures SameElsewhere(files, files, targets)
  {
  }

  lemma OtherUnitsTwice(a: set<string>, b: set<string>, c: set<string>)
    ensures OtherUnitsSame(a, b) && OtherUnitsSame(b, c) ==> OtherUnitsSame(a, c)
    ensures OtherUnitsSame(a, a)
  {
  }

  lemma InstallerStaysInside(before: map<string, File>, after: map<string, File>)
    requires SameElsewhere(before, after, ReplacedByInstaller())
    ensures SameElsewhere(before, after, RuntimeTargets())
  {
    hide RuntimeTargets, ReplacedByInstaller;
    FootprintIsBackedUp();
    SameElsewhereItself(after, RuntimeTargets());
    SameElsewhereTwice(before, after, after, ReplacedByInstaller(), RuntimeTargets());
  }

  /** With both units as captured, a unit that was disabled stays so, and all are as before exactly if the flags were right. */
  lemma UnitsAfter(before: set<string>, after: set<string>, path: bool, timer: bool)
    requires OtherUnitsSame(before, after)
    requires UPDATE_PATH in after <==> path
    requires SOURCE_SYNC_TIMER in after <==> timer
    ensures (path ==> UPDATE_PATH in before) && (timer ==> SOURCE_SYNC_TIMER in before) ==> after <= before
    ensures after == before <==> (path <==> UPDATE_PATH in before) && (timer <==> SOURCE_SYNC_TIMER in before)
  {
    if (path <==> UPDATE_PATH in before) && (timer <==> SOURCE_SYNC_TIMER in before) {
      SameUnits(before, after);
    }
  }

  /** A complete backup has a place for every target. */
  lemma RestoresAll(backup: map<string, File>, files: map<string, File>, works: seq<bool>)
    requires |works| == |RuntimeTargets()| && BackedUpTo(backup, files, |RuntimeTargets()|)
    ensures Restores(works, backup) <==> AllWork(works)
  {
    hide Key, Marker, RuntimeTargets;
    forall i | 0 <= i < |works| ensures Kept(backup, RuntimeTargets()[i]) {
      assert BackedUp(backup, RuntimeTargets()[i], At(files, RuntimeTargets()[i]));
    }
  }

  lemma SameFiles(before: map<string, File>, after: map<string, File>)
    requires SameElsewhere(before, after, RuntimeTargets())
    requires forall k :: 0 <= k < |RuntimeTargets()| ==> At(after, RuntimeTargets()[k]) == At(before, RuntimeTargets()[k])
    ensures after == before
  {
    hide RuntimeTargets;
    forall path | path in before.Keys + after.Keys ensures path in before && path in after && before[path] == after[path] {
      assert At(after, path) == At(before, path) by {
        if path in RuntimeTargets() {
          var k: nat :| k < |RuntimeTargets()| && RuntimeTargets()[k] == path;
        }
      }
    }
  }

  lemma SameUnits(before: set<string>, after: set<string>)
    requires OtherUnitsSame(before, after)
    requires UPDATE_PATH in after <==> UPDATE_PATH in before
    requires SOURCE_SYNC_TIMER in after <==> SOURCE_SYNC_TIMER in before
    ensures after == before
  {
    forall unit: string ensures unit in after <==> unit in before {
    }
  }

  lemma InstallerTargetsAreDistinct()
    ensures forall i, k :: 0 <= i < k < |ReplacedByInstaller()| ==> ReplacedByInstaller()[i] != ReplacedByInstaller()[k]
  {
    hide Unit;
    TargetsAreDistinct();
    assert ReplacedByInstaller() == RuntimeTargets();
  }
}
