/**
 * `GCEToDriveBackup`: moves the objects of a Cloud Storage bucket into
 * Drive through the versioner, then deletes them from the bucket.
 *
 * The bucket, the downloads and the versioner are not run: each call the
 * migration makes on them is appended to a ghost event log, and what the
 * versioner answers for a given call is a function handed in at
 * construction.
 */
module GceToDriveBackup {
  import opened Php
  import DriveVersioner

  const MESSAGE_DISCRIMINATOR_REGEX_INCORRECT: string := "Cannot get discriminator from filename using supplied regex. "
  const MESSAGE_DEBUG_GCE_DELETING: string := "Deleting this many files on GCE. "
  const MESSAGE_DEBUG_DRIVE_BACKING_UP: string := "Backing up this many files on Drive. "
  const DEFAULT_DISCRIMINATOR_REGEX: string := "/^(?:[^_])*_([^.]+)\\..+$/"

  /** A bucket object: its identity and the `filename` entry of its info. */
  datatype StorageObject = StorageObject(id: nat, filename: string)

  /** The calls the migration makes on the bucket, its objects and the versioner. */
  datatype Event =
    | Listed                                                  // `$bucket->objects()`
    | Downloaded(file: StorageObject, path: string)           // `$file->downloadToFile($path)`
    | Versioned(path: string, ns: string, discriminator: string)  // `$driveVersioner->version(...)`
    | Deleted(file: StorageObject)                            // `$file->delete()`

  datatype Failure =
    | NsMissing                       // `\Exception("The NS must be specified")`
    | CallOnNull                      // a filter that was never set is invoked
    | ConversionError                 // an object option without `__toString` is used as a string
    | RegexIncorrect(message: string) // the `\RuntimeException` of the backuper
    | TypeError                       // `ns` is not accepted as a `String` argument
    | VersionFailed(failure: DriveVersioner.Failure)

  datatype Result<T> = Ok(value: T) | Err(error: Failure)

  /* -------------------------------------------------------------- options */

  function Defaults(): PArray {
    [ Entry(StrKey("dry-run"), Bool(false)),
      Entry(StrKey("tmp-dir"), Str("/tmp")),
      Entry(StrKey("discriminator-regex"), Str(DEFAULT_DISCRIMINATOR_REGEX)) ]
  }

  /**
   * `array_merge` of acc and more, where acc has only string keys and
   * next is the next integer key: a string key of more overwrites in
   * place, an integer key is renumbered and appended.
   */
  function MergeInto(acc: PArray, more: PArray, next: int): PArray
    decreases |more|
  {
    if more == [] then acc
    else match more[0].key
      case StrKey(_) => MergeInto(Assign(acc, more[0].key, more[0].value), more[1..], next)
      case IntKey(_) => MergeInto(Assign(acc, IntKey(next), more[0].value), more[1..], next + 1)
  }

  /** Merging never loses a string key, and the merged value is the last one written. */
  lemma {:induction false} MergeIntoGet(acc: PArray, more: PArray, next: int, s: string)
    requires UniqueKeys(more)
    ensures Get(MergeInto(acc, more, next), StrKey(s))
            == if HasKey(more, StrKey(s)) then Get(more, StrKey(s)) else Get(acc, StrKey(s))
    decreases |more|
  {
    if more != [] {
      var k := StrKey(s);
      var rest := more[1..];
      assert UniqueKeys(rest) by {
        forall i, j | 0 <= i < j < |rest| ensures rest[i].key != rest[j].key {
          assert rest[i] == more[i + 1] && rest[j] == more[j + 1];
        }
      }
      assert HasKey(more, k) <==> more[0].key == k || HasKey(rest, k) by {
        if HasKey(more, k) && more[0].key != k {
          var i :| 0 <= i < |more| && more[i].key == k;
          assert rest[i - 1].key == k;
        }
        if HasKey(rest, k) {
          var i :| 0 <= i < |rest| && rest[i].key == k;
          assert more[i + 1].key == k;
        }
      }
      assert !HasKey(rest, more[0].key) by {
        forall i | 0 <= i < |rest| ensures rest[i].key != more[0].key {
          assert rest[i] == more[i + 1];
        }
      }
      match more[0].key
      case StrKey(_) =>
        MergeIntoGet(Assign(acc, more[0].key, more[0].value), rest, next, s);
      case IntKey(_) =>
        MergeIntoGet(Assign(acc, IntKey(next), more[0].value), rest, next + 1, s);
    }
  }

  /** The options the constructor stores: the defaults, overridden by the caller's. */
  function MergedOptions(caller: PArray): (options: PArray)
    ensures UniqueKeys(caller) ==>
              forall s :: (Get(options, StrKey(s))
                           == if HasKey(caller, StrKey(s)) then Get(caller, StrKey(s)) else Get(Defaults(), StrKey(s)))
  {
    MergeIntoGetAll(caller);
    MergeInto(Defaults(), caller, 0)
  }

  lemma MergeIntoGetAll(caller: PArray)
    ensures UniqueKeys(caller) ==>
              forall s :: (Get(MergeInto(Defaults(), caller, 0), StrKey(s))
                           == if HasKey(caller, StrKey(s)) then Get(caller, StrKey(s)) else Get(Defaults(), StrKey(s)))
  {
    if UniqueKeys(caller) {
      forall s ensures Get(MergeInto(Defaults(), caller, 0), StrKey(s))
                       == if HasKey(caller, StrKey(s)) then Get(caller, StrKey(s)) else Get(Defaults(), StrKey(s)) {
        MergeIntoGet(Defaults(), caller, 0, s);
      }
    }
  }

  /** A caller that leaves out an option gets its default. */
  lemma DefaultsApply(caller: PArray)
    requires UniqueKeys(caller)
    ensures !HasKey(caller, StrKey("dry-run")) ==> Get(MergedOptions(caller), StrKey("dry-run")) == Some(Bool(false))
    ensures !HasKey(caller, StrKey("tmp-dir")) ==> Get(MergedOptions(caller), StrKey("tmp-dir")) == Some(Str("/tmp"))
    ensures !HasKey(caller, StrKey("discriminator-regex"))
            ==> Get(MergedOptions(caller), StrKey("discriminator-regex")) == Some(Str(DEFAULT_DISCRIMINATOR_REGEX))
  {
    assert Get(Defaults(), StrKey("tmp-dir")) == Some(Str("/tmp")) by {
      assert Defaults()[0].key != StrKey("tmp-dir");
    }
    assert Get(Defaults(), StrKey("discriminator-regex")) == Some(Str(DEFAULT_DISCRIMINATOR_REGEX)) by {
      assert Defaults()[0].key != StrKey("discriminator-regex");
      assert Defaults()[1].key != StrKey("discriminator-regex");
      assert Defaults()[1..][1..] == [Defaults()[2]];
    }
  }

  /** `$options[$name]`, with a missing entry read as null. */
  function OptionValue(options: PArray, name: string): Value {
    match Get(options, StrKey(name))
    case Some(v) => v
    case None => Null
  }

  /* -------------------------------------------------- discriminator regex */

  /** The first position at or after from that holds c. */
  function FirstIndex(s: string, c: char, from: nat): (r: Option<nat>)
    requires from <= |s|
    ensures r.Some? ==> from <= r.value < |s| && s[r.value] == c && c !in s[from..r.value]
    ensures r.None? ==> c !in s[from..]
    decreases |s| - from
  {
    if from == |s| then None
    else if s[from] == c then Some(from)
    else
      var r := FirstIndex(s, c, from + 1);
      assert r.Some? ==> s[from..r.value] == [s[from]] + s[from + 1..r.value];
      assert s[from..] == [s[from]] + s[from + 1..];
      r
  }

  lemma {:induction false} FirstIndexAt(s: string, c: char, from: nat, i: nat)
    requires from <= i < |s| && s[i] == c && c !in s[from..i]
    ensures FirstIndex(s, c, from) == Some(i)
    decreases i - from
  {
    if from < i {
      assert s[from] in s[from..i];
      assert s[from + 1..i] == s[from..i][1..];
      FirstIndexAt(s, c, from + 1, i);
    }
  }

  /** `.+$`: one or more characters other than a newline, up to the end or a final newline. */
  predicate TailMatches(t: string) {
    (|t| >= 1 && '\n' !in t) || (|t| >= 2 && t[|t| - 1] == '\n' && '\n' !in t[..|t| - 1])
  }

  /**
   * Capture group 1 of the default discriminator regex
   * `/^(?:[^_])*_([^.]+)\..+$/`: the text after the first '_' up to the
   * next '.', which must be non-empty and followed by a tail.
   */
  function DefaultCapture(name: string): (r: Option<string>)
    ensures r.Some? ==> r.value != [] && '.' !in r.value
  {
    match FirstIndex(name, '_', 0)
    case None => None
    case Some(u) =>
      match FirstIndex(name, '.', u + 1)
      case None => None
      case Some(k) => if k > u + 1 && TailMatches(name[k + 1..]) then Some(name[u + 1..k]) else None
  }

  /** The shape the default regex describes, with group 1 as capture. */
  ghost predicate Shaped(name: string, prefix: string, capture: string, tail: string) {
    name == prefix + "_" + capture + "." + tail
    && '_' !in prefix && capture != [] && '.' !in capture && TailMatches(tail)
  }

  /** A name of the shape the regex describes gives its group 1. */
  lemma DefaultCaptureOf(prefix: string, capture: string, tail: string)
    requires '_' !in prefix && capture != [] && '.' !in capture && TailMatches(tail)
    ensures DefaultCapture(prefix + "_" + capture + "." + tail) == Some(capture)
  {
    var name := prefix + "_" + capture + "." + tail;
    var u, k := |prefix|, |prefix| + 1 + |capture|;
    assert name[..u] == prefix;
    FirstIndexAt(name, '_', 0, u);
    assert name[u + 1..k] == capture;
    FirstIndexAt(name, '.', u + 1, k);
    assert name[k + 1..] == tail;
  }

  /** The scanner captures exactly what the regex captures. */
  lemma DefaultCaptureIff(name: string, capture: string)
    ensures DefaultCapture(name) == Some(capture)
            <==> exists prefix, tail :: Shaped(name, prefix, capture, tail)
  {
    if DefaultCapture(name) == Some(capture) {
      var u := FirstIndex(name, '_', 0).value;
      var k := FirstIndex(name, '.', u + 1).value;
      var prefix, tail := name[..u], name[k + 1..];
      assert name == prefix + "_" + capture + "." + tail;
      assert Shaped(name, prefix, capture, tail);
    }
    if exists prefix, tail :: Shaped(name, prefix, capture, tail) {
      var prefix, tail :| Shaped(name, prefix, capture, tail);
      DefaultCaptureOf(prefix, capture, tail);
    }
  }

  /** The file name the tests use gives its date. */
  lemma DefaultCaptureExample(name: string)
    requires name == "versionableFile_2017-01-01.txt"
    ensures DefaultCapture(name) == Some("2017-01-01")
  {
    assert name == "versionableFile" + "_" + "2017-01-01" + "." + "txt";
    DefaultCaptureOf("versionableFile", "2017-01-01", "txt");
  }

  /** A name without an underscore has no discriminator. */
  lemma DefaultCaptureNeedsUnderscore(name: string)
    requires '_' !in name
    ensures DefaultCapture(name) == None
  {
    assert name[0..] == name;
  }

  /* --------------------------------------------------------------- backup */

  /** What each backup step depends on, read once from the options. */
  datatype Plan = Plan(
    tmpDir: Option<string>,
    ns: Option<string>,
    regexText: Option<string>,
    capture: string -> Option<string>,
    versionOutcome: (string, string, string) -> Option<DriveVersioner.Failure>)

  /** The events one step of a run made and how it ended. */
  datatype Progress = Progress(events: seq<Event>, failure: Option<Failure>)

  /** `$parts[1]` is set and truthy. */
  predicate Usable(capture: Option<string>) {
    capture.Some? && Truthy(Str(capture.value))
  }

  /** Where the downloader puts a file: `tmp-dir . '/' . basename(filename)`. */
  function TmpLocation(tmpDir: string, file: StorageObject): string {
    tmpDir + "/" + Basename(file.filename)
  }

  /**
   * One turn of `doBackup`: download the object, take the discriminator
   * from the downloaded file's base name, and version it.
   */
  function BackupOne(plan: Plan, file: StorageObject): (p: Progress)
    ensures plan.tmpDir.None? ==> p == Progress([], Some(ConversionError))
    ensures p.failure.None? ==> plan.tmpDir.Some? && plan.ns.Some? && Usable(plan.capture(Basename(file.filename)))
    ensures plan.tmpDir.Some? ==> |p.events| >= 1 && p.events[0] == Downloaded(file, TmpLocation(plan.tmpDir.value, file))
    ensures (p.failure.Some? && p.failure.value.RegexIncorrect?)
            <==> plan.tmpDir.Some? && plan.regexText.Some? && !Usable(plan.capture(Basename(file.filename)))
    ensures p.failure.Some? && p.failure.value.RegexIncorrect? ==>
              p.failure.value.message == MESSAGE_DISCRIMINATOR_REGEX_INCORRECT + "Filename: " + Basename(file.filename)
                                         + ", Regex: " + plan.regexText.value
              && |p.events| == 1
    ensures plan.tmpDir.Some? && Usable(plan.capture(Basename(file.filename))) && plan.ns.Some? ==>
              p.events == [ Downloaded(file, TmpLocation(plan.tmpDir.value, file)),
                            Versioned(TmpLocation(plan.tmpDir.value, file), plan.ns.value,
                                      plan.capture(Basename(file.filename)).value) ]
  {
    match plan.tmpDir
    case None => Progress([], Some(ConversionError))
    case Some(tmpDir) =>
      var path := TmpLocation(tmpDir, file);
      var name := Basename(path);
      BasenameOfJoin(tmpDir, Basename(file.filename));
      var parts := plan.capture(name);
      if !Usable(parts) then
        match plan.regexText
        case None => Progress([Downloaded(file, path)], Some(ConversionError))
        case Some(regex) =>
          Progress([Downloaded(file, path)],
                   Some(RegexIncorrect(MESSAGE_DISCRIMINATOR_REGEX_INCORRECT + "Filename: " + name + ", Regex: " + regex)))
      else
        match plan.ns
        case None => Progress([Downloaded(file, path)], Some(TypeError))
        case Some(ns) =>
          var failure := plan.versionOutcome(path, ns, parts.value);
          Progress([Downloaded(file, path), Versioned(path, ns, parts.value)],
                   if failure.Some? then Some(VersionFailed(failure.value)) else None)
  }

  /** `doBackup` over files: every turn in order, up to the first that throws. */
  ghost function BackupRun(plan: Plan, files: seq<StorageObject>): Progress
    decreases |files|
  {
    if files == [] then Progress([], None)
    else
      var done := BackupRun(plan, files[..|files| - 1]);
      if done.failure.Some? then done
      else
        var step := BackupOne(plan, files[|files| - 1]);
        Progress(done.events + step.events, step.failure)
  }

  /** `doDelete` over files: one delete per object, in order. */
  ghost function DeleteRun(files: seq<StorageObject>): (events: seq<Event>)
    ensures |events| == |files| && forall i :: 0 <= i < |files| ==> events[i] == Deleted(files[i])
  {
    seq(|files|, i requires 0 <= i < |files| => Deleted(files[i]))
  }

  /** The backup never deletes anything. */
  lemma {:induction false} BackupRunNoDeletes(plan: Plan, files: seq<StorageObject>)
    ensures forall e :: e in BackupRun(plan, files).events ==> !e.Deleted?
    decreases |files|
  {
    if files != [] {
      BackupRunNoDeletes(plan, files[..|files| - 1]);
    }
  }

  /**
   * A backup that completes downloads each file and then versions it,
   * file by file in order, under `tmp-dir/basename(filename)` with the
   * discriminator the regex takes from that base name.
   */
  lemma {:induction false} BackupRunComplete(plan: Plan, files: seq<StorageObject>)
    requires BackupRun(plan, files).failure.None?
    ensures files != [] ==> plan.tmpDir.Some? && plan.ns.Some?
    ensures |BackupRun(plan, files).events| == 2 * |files|
    ensures forall i :: 0 <= i < |files| ==>
              Usable(plan.capture(Basename(files[i].filename)))
              && BackupRun(plan, files).events[2 * i] == Downloaded(files[i], TmpLocation(plan.tmpDir.value, files[i]))
              && BackupRun(plan, files).events[2 * i + 1]
                 == Versioned(TmpLocation(plan.tmpDir.value, files[i]), plan.ns.value,
                              plan.capture(Basename(files[i].filename)).value)
    decreases |files|
  {
    if files != [] {
      var init := files[..|files| - 1];
      var last := files[|files| - 1];
      BackupRunComplete(plan, init);
      var step := BackupOne(plan, last);
      assert step.failure.None?;
      assert Usable(plan.capture(Basename(last.filename))) && plan.ns.Some?;
      var events := BackupRun(plan, files).events;
      assert events == BackupRun(plan, init).events + step.events;
      forall i | 0 <= i < |files|
        ensures Usable(plan.capture(Basename(files[i].filename)))
        ensures events[2 * i] == Downloaded(files[i], TmpLocation(plan.tmpDir.value, files[i]))
        ensures events[2 * i + 1] == Versioned(TmpLocation(plan.tmpDir.value, files[i]), plan.ns.value,
                                               plan.capture(Basename(files[i].filename)).value)
      {
        if i < |init| {
          assert files[i] == init[i];
        }
      }
    }
  }

  /** The run over files threw at the turn of files[i], after every earlier turn went through. */
  ghost predicate StopsAt(plan: Plan, files: seq<StorageObject>, i: nat) {
    i < |files|
    && BackupRun(plan, files[..i]).failure.None?
    && BackupRun(plan, files).events == BackupRun(plan, files[..i]).events + BackupOne(plan, files[i]).events
    && BackupRun(plan, files).failure == BackupOne(plan, files[i]).failure
  }

  /**
   * A backup that throws stops at the file that threw: every earlier file
   * went through, and nothing after it is touched.
   */
  lemma {:induction false} BackupRunStops(plan: Plan, files: seq<StorageObject>)
    requires BackupRun(plan, files).failure.Some?
    ensures exists i :: StopsAt(plan, files, i)
    decreases |files|
  {
    var init := files[..|files| - 1];
    if BackupRun(plan, init).failure.Some? {
      BackupRunStops(plan, init);
      var i :| StopsAt(plan, init, i);
      StopsAtExtends(plan, files, i);
    } else {
      StopsAtLast(plan, files);
    }
  }

  lemma StopsAtExtends(plan: Plan, files: seq<StorageObject>, i: nat)
    requires files != [] && StopsAt(plan, files[..|files| - 1], i)
    requires BackupRun(plan, files[..|files| - 1]).failure.Some?
    ensures StopsAt(plan, files, i)
  {
    var init := files[..|files| - 1];
    assert init[..i] == files[..i];
  }

  lemma StopsAtLast(plan: Plan, files: seq<StorageObject>)
    requires files != [] && BackupRun(plan, files).failure.Some?
    requires BackupRun(plan, files[..|files| - 1]).failure.None?
    ensures StopsAt(plan, files, |files| - 1)
  {
  }

  /** Running one more file extends a run that has not failed by that file's turn. */
  lemma BackupRunSnoc(plan: Plan, files: seq<StorageObject>, i: nat)
    requires i < |files| && BackupRun(plan, files[..i]).failure.None?
    ensures BackupRun(plan, files[..i + 1])
            == Progress(BackupRun(plan, files[..i]).events + BackupOne(plan, files[i]).events, BackupOne(plan, files[i]).failure)
  {
    assert files[..i + 1][..i] == files[..i];
  }

  /** A failure at the file before index n is the failure of the whole list. */
  lemma {:induction false} BackupRunPrefixFails(plan: Plan, files: seq<StorageObject>, n: nat)
    requires 0 < n <= |files| && BackupRun(plan, files[..n]).failure.Some?
    ensures BackupRun(plan, files) == BackupRun(plan, files[..n])
    decreases |files| - n
  {
    if n < |files| {
      assert files[..n + 1][..n] == files[..n];
      BackupRunPrefixFails(plan, files, n + 1);
    } else {
      assert files[..n] == files;
    }
  }

  /** The two counts `run` reports, written only when an output is set. */
  function Reports(hasOutput: bool, backupable: nat, selected: nat): (lines: seq<string>)
    ensures hasOutput ==> lines == [MESSAGE_DEBUG_DRIVE_BACKING_UP + NatToString(backupable),
                                    MESSAGE_DEBUG_GCE_DELETING + NatToString(selected)]
    ensures !hasOutput ==> lines == []
  {
    (if hasOutput then [MESSAGE_DEBUG_DRIVE_BACKING_UP + NatToString(backupable)] else [])
    + (if hasOutput then [MESSAGE_DEBUG_GCE_DELETING + NatToString(selected)] else [])
  }

  class Backup {
    const objects: seq<StorageObject>
    const options: PArray
    const hasOutput: bool
    /** Group 1 of a caller-supplied regex on a name (`preg_match`), when the regex is not the default. */
    const otherCapture: (Value, string) -> Option<string>
    const versionOutcome: (string, string, string) -> Option<DriveVersioner.Failure>
    var selectFilter: Option<seq<StorageObject> -> seq<StorageObject>>
    var backupFilter: Option<seq<StorageObject> -> seq<StorageObject>>
    ghost var lines: seq<string>
    ghost var events: seq<Event>

    constructor(objects: seq<StorageObject>, options: PArray, hasOutput: bool,
                otherCapture: (Value, string) -> Option<string>,
                versionOutcome: (string, string, string) -> Option<DriveVersioner.Failure>)
      ensures this.objects == objects && this.options == options && this.hasOutput == hasOutput
      ensures this.otherCapture == otherCapture && this.versionOutcome == versionOutcome
      ensures selectFilter.None? && backupFilter.None? && lines == [] && events == []
    {
      this.objects := objects;
      this.options := options;
      this.hasOutput := hasOutput;
      this.otherCapture := otherCapture;
      this.versionOutcome := versionOutcome;
      selectFilter := None;
      backupFilter := None;
      lines := [];
      events := [];
    }

    /**
     * `new GCEToDriveBackup($bucket, $driveVersioner, $options)`: the
     * defaults overridden by the caller's options; fails unless the
     * caller set `ns`.
     */
    static method New(objects: seq<StorageObject>, caller: PArray, hasOutput: bool,
                      otherCapture: (Value, string) -> Option<string>,
                      versionOutcome: (string, string, string) -> Option<DriveVersioner.Failure>)
      returns (r: Result<Backup>)
      ensures r.Err? <==> !IsSet(caller, StrKey("ns"))
      ensures r.Err? ==> r.error == NsMissing
      ensures r.Ok? ==> fresh(r.value) && r.value.options == MergedOptions(caller) && r.value.objects == objects
      ensures r.Ok? ==> r.value.hasOutput == hasOutput && r.value.otherCapture == otherCapture
                        && r.value.versionOutcome == versionOutcome
      ensures r.Ok? ==> r.value.selectFilter.None? && r.value.backupFilter.None?
                        && r.value.lines == [] && r.value.events == []
    {
      var options := MergedOptions(caller);
      if !IsSet(caller, StrKey("ns")) {
        return Err(NsMissing);
      }
      var b := new Backup(objects, options, hasOutput, otherCapture, versionOutcome);
      return Ok(b);
    }

    method SetSelectFilter(filter: seq<StorageObject> -> seq<StorageObject>)
      modifies this`selectFilter
      ensures selectFilter == Some(filter)
    {
      selectFilter := Some(filter);
    }

    method SetBackupFilter(filter: seq<StorageObject> -> seq<StorageObject>)
      modifies this`backupFilter
      ensures backupFilter == Some(filter)
    {
      backupFilter := Some(filter);
    }

    /** `$this->options['dry-run']` is truthy. */
    predicate DryRun() {
      Truthy(OptionValue(options, "dry-run"))
    }

    /** Group 1 of the configured regex on a base name. */
    function Capture(name: string): Option<string> {
      var regex := OptionValue(options, "discriminator-regex");
      if regex == Str(DEFAULT_DISCRIMINATOR_REGEX) then DefaultCapture(name) else otherCapture(regex, name)
    }

    function BackupPlan(): Plan {
      Plan(ConcatString(OptionValue(options, "tmp-dir")), StringParam(OptionValue(options, "ns")),
           ConcatString(OptionValue(options, "discriminator-regex")), Capture, versionOutcome)
    }

    /**
     * `run`: select among the bucket's objects, pick the backupable ones,
     * report both counts, then unless dry-run back up and, only when every
     * backup went through, delete the selected objects.
     */
    method Run() returns (r: Result<()>)
      modifies this`lines, this`events
      ensures selectFilter.None? ==> r == Err(CallOnNull) && events == old(events) && lines == old(lines)
      ensures selectFilter.Some? && backupFilter.None? ==>
                r == Err(CallOnNull) && events == old(events) + [Listed] && lines == old(lines)
      ensures selectFilter.Some? && backupFilter.Some? ==>
                var selected := selectFilter.value(objects);
                var backupable := backupFilter.value(selected);
                var backup := BackupRun(BackupPlan(), backupable);
                lines == old(lines) + Reports(hasOutput, |backupable|, |selected|)
                && (DryRun() ==> r == Ok(()) && events == old(events) + [Listed])
                && (!DryRun() && backup.failure.None? ==>
                      r == Ok(()) && events == old(events) + [Listed] + backup.events + DeleteRun(selected))
                && (!DryRun() && backup.failure.Some? ==>
                      r == Err(backup.failure.value) && events == old(events) + [Listed] + backup.events)
    {
      if selectFilter.None? {
        return Err(CallOnNull);
      }
      events := events + [Listed];
      var selected := selectFilter.value(objects);
      if backupFilter.None? {
        return Err(CallOnNull);
      }
      var backupable := backupFilter.value(selected);
      Output(MESSAGE_DEBUG_DRIVE_BACKING_UP + NatToString(|backupable|));
      Output(MESSAGE_DEBUG_GCE_DELETING + NatToString(|selected|));
      if DryRun() {
        return Ok(());
      }
      var failure := DoBackup(backupable);
      if failure.Some? {
        return Err(failure.value);
      }
      DoDelete(selected);
      r := Ok(());
    }

    /** `output`: a line is written only when an output is set. */
    method Output(message: string)
      modifies this`lines
      ensures lines == old(lines) + (if hasOutput then [message] else [])
    {
      if hasOutput {
        lines := lines + [message];
      }
    }

    /** `doBackup`: download and version each file in turn; the first exception ends the loop. */
    method DoBackup(files: seq<StorageObject>) returns (failure: Option<Failure>)
      modifies this`events
      ensures events == old(events) + BackupRun(BackupPlan(), files).events
      ensures failure == BackupRun(BackupPlan(), files).failure
    {
      ghost var plan := BackupPlan();
      ghost var start := events;
      var i := 0;
      while i < |files|
        invariant 0 <= i <= |files|
        invariant events == start + BackupRun(plan, files[..i]).events
        invariant BackupRun(plan, files[..i]).failure.None?
      {
        ghost var before := events;
        BackupRunSnoc(plan, files, i);
        failure := BackupStep(files[i]);
        AppendAssoc(start, BackupRun(plan, files[..i]).events, BackupOne(plan, files[i]).events);
        if failure.Some? {
          BackupRunPrefixFails(plan, files, i + 1);
          return;
        }
        i := i + 1;
      }
      assert files[..i] == files;
      failure := None;
    }

    /** The downloader and the backuper for one file. */
    method BackupStep(file: StorageObject) returns (failure: Option<Failure>)
      modifies this`events
      ensures events == old(events) + BackupOne(BackupPlan(), file).events
      ensures failure == BackupOne(BackupPlan(), file).failure
    {
      var tmpDir := ConcatString(OptionValue(options, "tmp-dir"));
      if tmpDir.None? {
        return Some(ConversionError);
      }
      var path := tmpDir.value + "/" + Basename(file.filename);
      events := events + [Downloaded(file, path)];
      var name := Basename(path);
      var parts := Capture(name);
      if !Usable(parts) {
        var regex := ConcatString(OptionValue(options, "discriminator-regex"));
        if regex.None? {
          return Some(ConversionError);
        }
        return Some(RegexIncorrect(MESSAGE_DISCRIMINATOR_REGEX_INCORRECT + "Filename: " + name + ", Regex: " + regex.value));
      }
      var ns := StringParam(OptionValue(options, "ns"));
      if ns.None? {
        return Some(TypeError);
      }
      events := events + [Versioned(path, ns.value, parts.value)];
      var outcome := versionOutcome(path, ns.value, parts.value);
      failure := if outcome.Some? then Some(VersionFailed(outcome.value)) else None;
    }

    /** `doDelete`: delete each file in turn. */
    method DoDelete(files: seq<StorageObject>)
      modifies this`events
      ensures events == old(events) + DeleteRun(files)
    {
      var i := 0;
      while i < |files|
        invariant 0 <= i <= |files|
        invariant events == old(events) + DeleteRun(files[..i])
      {
        assert DeleteRun(files[..i + 1]) == DeleteRun(files[..i]) + [Deleted(files[i])];
        events := events + [Deleted(files[i])];
        i := i + 1;
      }
      assert files[..i] == files;
    }
  }
}
