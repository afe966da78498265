/**
  The VirtualBox engine: lifecycle calls that drive `vboxmanage`. A linked
  clone in VirtualBox needs a snapshot, so when the user names none the engine
  makes (once) a snapshot of its own on the source machine.
 */
module VirtualBox {
  import opened Core
  import opened Environment

  /** The snapshot the engine creates and clones from when the user names none. */
  const SnapshotName: string := "lovm-clone"

  /** `vboxmanage controlvm ... poweroff` output when the guest is already off. */
  const NotRunningMessage: string := "is not currently running"

  function DetectArgv(path: string): Argv { ["vboxmanage", "snapshot", path, "showvminfo", SnapshotName] }
  function TakeArgv(path: string): Argv { ["vboxmanage", "snapshot", path, "take", SnapshotName] }

  function CloneArgv(base: string, pwd: string, snapshot: string): Argv {
    ["vboxmanage", "clonevm", base, "--options", "link", "--basefolder", WorkDir(pwd),
     "--name", BaseName(pwd), "--register", "--snapshot", if snapshot == "" then SnapshotName else snapshot]
  }

  function StartArgv(path: string): Argv { ["vboxmanage", "startvm", path, "--type", "headless"] }
  function StopArgv(path: string): Argv { ["vboxmanage", "controlvm", path, "poweroff"] }
  function DeleteArgv(path: string): Argv { ["vboxmanage", "unregistervm", path, "--delete"] }

  predicate Found(rec: Record, host: Host) {
    DescriptorFound(rec, host)
  }

  /** The spelling of a path this engine owns: none yet, or a `.vbox` machine file. */
  predicate OwnsPath(rec: Record) {
    rec.path == "" || HasSuffix(rec.path, ".vbox")
  }

  /** Whether the engine's snapshot exists on the machine at `path`: any failure means it does not. */
  predicate DetectSnapshot(path: string, host: Host) {
    host.run(DetectArgv(path)).ToolOk?
  }

  datatype Snapshotting = Snapshotting(outcome: Outcome, calls: seq<Argv>)

  /**
    Make sure the engine's snapshot exists on the machine at `path`: an
    existing snapshot is left alone, otherwise one is taken.
   */
  function CreateSnapshot(path: string, host: Host): (r: Snapshotting)
    ensures r.outcome.Ok? <==> DetectSnapshot(path, host) || host.run(TakeArgv(path)).ToolOk?
    ensures r.calls == if DetectSnapshot(path, host) then [DetectArgv(path)] else [DetectArgv(path), TakeArgv(path)]
    ensures r.outcome.Failed? ==> r.outcome.error == CommandFailed(TakeArgv(path))
  {
    if DetectSnapshot(path, host) then Snapshotting(Ok, [DetectArgv(path)])
    else
      var argv := TakeArgv(path);
      Snapshotting(FromTool(argv, host.run(argv)), [DetectArgv(path), argv])
  }

  /**
    Clone the source into `<pwd>/.lovm/<name>/<name>.vbox`. With no snapshot
    in the source the engine's own snapshot is ensured first and used, but it
    is not written into the record; a failure to make it leaves the record as it
    was. Otherwise, after the tool ran, the record points at the new machine and
    remembers the source, and the recorded source reproduces the same call.
   */
  function Clone(rec: Record, source: string, host: Host): (s: Step)
    ensures s.record.mounts == rec.mounts && s.record.engine == rec.engine
    ensures |s.calls| <= 3
    ensures s.calls == [] ==> s.record == rec
    ensures Found(rec, host) ==> s.calls == []
    ensures s.outcome == Failed(SnapshotRequired) ==> s.record == rec
    ensures s.record != rec ==>
      && OwnsPath(s.record)
      && host.pwd.Some?
      && s.record.path == TargetPath(host.pwd.value, ".vbox")
      && s.calls[|s.calls| - 1] == CloneArgv(SourceBase(s.record.source), host.pwd.value, SourceSnapshot(s.record.source))
      && (s.outcome.Ok? <==> host.run(s.calls[|s.calls| - 1]).ToolOk?)
      && (SourceSnapshot(s.record.source) == "" <==> |s.calls| > 1)
    ensures s.record != rec ==>
      var src := EffectiveSource(rec, source);
      s.record.source == QualifiedSource(SourceBase(src), SourceSnapshot(src))
    ensures Reconcile(rec, source, Found(rec, host)).Finish? ==>
      s == Step(rec, Reconcile(rec, source, Found(rec, host)).outcome, [])
    ensures !Found(rec, host) && EffectiveSource(rec, source) != "" && !host.canMakeWorkDir ==>
      s == Step(rec, Failed(FileSystem("mkdir .lovm")), [])
    ensures !Found(rec, host) && EffectiveSource(rec, source) != "" && host.canMakeWorkDir && host.pwd.None? ==>
      s == Step(rec, Failed(FileSystem("getwd")), [])
    ensures ClonesFrom(rec, source, Found(rec, host), host) ==>
      var src := EffectiveSource(rec, source);
      var base := SourceBase(src);
      var snapshot := SourceSnapshot(src);
      var argv := CloneArgv(base, host.pwd.value, snapshot);
      if snapshot == "" && CreateSnapshot(base, host).outcome.Failed? then
        s == Step(rec, Failed(SnapshotRequired), CreateSnapshot(base, host).calls)
      else
        && s.calls == (if snapshot == "" then CreateSnapshot(base, host).calls else []) + [argv]
        && s.record == rec.(path := TargetPath(host.pwd.value, ".vbox"), source := QualifiedSource(base, snapshot))
        && (s.outcome.Ok? <==> host.run(argv).ToolOk?)
  {
    match Reconcile(rec, source, Found(rec, host))
    case Finish(outcome) => Step(rec, outcome, [])
    case CloneFrom(src) =>
      if !host.canMakeWorkDir then Step(rec, Failed(FileSystem("mkdir .lovm")), [])
      else
        var base := SourceBase(src);
        var snapshot := SourceSnapshot(src);
        if host.pwd.None? then Step(rec, Failed(FileSystem("getwd")), [])
        else
          var pwd := host.pwd.value;
          var prepared := if snapshot == "" then CreateSnapshot(base, host) else Snapshotting(Ok, []);
          if prepared.outcome.Failed? then Step(rec, Failed(SnapshotRequired), prepared.calls)
          else
            var argv := CloneArgv(base, pwd, snapshot);
            var recorded := QualifiedSource(base, snapshot);
            assert SourceBase(recorded) == base && SourceSnapshot(recorded) == snapshot by {
              QualifiedSourceSplits(base, snapshot);
            }
            Step(rec.(path := TargetPath(pwd, ".vbox"), source := recorded),
                 FromTool(argv, host.run(argv)), prepared.calls + [argv])
  }

  /** Clone from the recorded source if needed, then boot the guest headless. */
  function Start(rec: Record, host: Host): (s: Step)
    ensures s.record.mounts == rec.mounts && s.record.engine == rec.engine
    ensures OwnsPath(rec) ==> OwnsPath(s.record)
    ensures s.outcome.Ok? ==> s.record.path != "" && |s.calls| >= 1 && s.calls[|s.calls| - 1] == StartArgv(s.record.path)
    ensures Clone(rec, "", host).outcome.Failed? ==> s == Clone(rec, "", host)
    ensures Clone(rec, "", host).outcome.Ok? ==>
      var c := Clone(rec, "", host);
      && s.record == c.record
      && s.calls == c.calls + [StartArgv(c.record.path)]
      && (s.outcome.Ok? <==> host.run(StartArgv(c.record.path)).ToolOk?)
  {
    var c := Clone(rec, "", host);
    if c.outcome.Failed? then c
    else
      var argv := StartArgv(c.record.path);
      Step(c.record, FromTool(argv, host.run(argv)), c.calls + [argv])
  }

  /** Power the guest off; a guest that is not there or not running is a success. */
  function Stop(rec: Record, host: Host): (s: Step)
    ensures s.record == rec
    ensures !Found(rec, host) ==> s.outcome.Ok? && s.calls == []
    ensures Found(rec, host) ==> s.calls == [StopArgv(rec.path)]
    ensures s.outcome.Failed? ==> s.outcome.error == CommandFailed(StopArgv(rec.path))
    ensures Found(rec, host) ==>
      (s.outcome.Ok? <==> host.run(StopArgv(rec.path)).ToolOk? ||
                          Contains(host.run(StopArgv(rec.path)).output, NotRunningMessage))
  {
    if !Found(rec, host) then Step(rec, Ok, [])
    else
      var argv := StopArgv(rec.path);
      var result := host.run(argv);
      if result.ToolError? && Contains(result.output, NotRunningMessage) then Step(rec, Ok, [argv])
      else Step(rec, FromTool(argv, result), [argv])
  }

  /** Stop, then start; a failed stop is returned without starting. */
  function Restart(rec: Record, host: Host): (s: Step)
    ensures Stop(rec, host).outcome.Failed? ==> s == Stop(rec, host)
    ensures Stop(rec, host).outcome.Ok? ==>
      s.outcome == Start(rec, host).outcome && s.record == Start(rec, host).record &&
      s.calls == Stop(rec, host).calls + Start(rec, host).calls
  {
    var stopped := Stop(rec, host);
    if stopped.outcome.Failed? then stopped
    else
      var started := Start(stopped.record, host);
      Step(started.record, started.outcome, stopped.calls + started.calls)
  }

  /** Stop the guest, then unregister it and delete its files; the path is cleared exactly on success. */
  function Delete(rec: Record, host: Host): (s: Step)
    ensures s.record.source == rec.source && s.record.mounts == rec.mounts && s.record.engine == rec.engine
    ensures s.record.path == rec.path || s.record.path == ""
    ensures !Found(rec, host) ==> s == Step(rec, Ok, [])
    ensures Found(rec, host) ==>
      (s.record.path == "" <==> Stop(rec, host).outcome.Ok? && host.run(DeleteArgv(rec.path)).ToolOk?)
    ensures s.outcome.Ok? <==> !Found(rec, host) || s.record.path == ""
    ensures Stop(rec, host).outcome.Failed? ==> s == Stop(rec, host)
  {
    if !Found(rec, host) then Step(rec, Ok, [])
    else
      var stopped := Stop(rec, host);
      if stopped.outcome.Failed? then stopped
      else
        var argv := DeleteArgv(rec.path);
        var outcome := FromTool(argv, host.run(argv));
        Step(if outcome.Ok? then rec.(path := "") else rec, outcome, stopped.calls + [argv])
  }

  /** Shared folders are not implemented for VirtualBox. */
  function Mount(rec: Record): (s: Step)
    ensures s == Step(rec, Failed(NotImplemented), [])
  {
    Step(rec, Failed(NotImplemented), [])
  }

  /** IP discovery is not implemented for VirtualBox. */
  function IP(rec: Record): (r: Result<string>)
    ensures r == Failure(NotImplemented)
  {
    Failure(NotImplemented)
  }

  // ----- properties relating several calls -----

  /** Starting a machine that is already cloned from a recorded source runs the start tool and nothing else. */
  lemma StartFoundMachine(rec: Record, host: Host)
    requires Found(rec, host) && rec.source != ""
    ensures Start(rec, host) == Step(rec, FromTool(StartArgv(rec.path), host.run(StartArgv(rec.path))), [StartArgv(rec.path)])
  {
    assert Clone(rec, "", host) == Step(rec, Ok, []);
  }

  /** With no source recorded, start refuses before running any tool, even when a machine file exists. */
  lemma StartWithoutSource(rec: Record, host: Host)
    requires rec.source == ""
    ensures Start(rec, host) == Step(rec, Failed(NoCloneSource), [])
  {
    assert Clone(rec, "", host) == Step(rec, Failed(NoCloneSource), []);
  }

  /** Restarting a machine that is not there has nothing to stop: it is the same as starting it. */
  lemma RestartMissing(rec: Record, host: Host)
    requires !Found(rec, host)
    ensures Restart(rec, host) == Start(rec, host)
  {
    AfterSilentStep(Stop(rec, host), Start(rec, host), Restart(rec, host));
  }


  /** Once the snapshot has been taken, ensuring it again only looks for it. */
  lemma CreateSnapshotOnce(path: string, host: Host, later: Host)
    requires CreateSnapshot(path, host).outcome.Ok?
    requires DetectSnapshot(path, later)
    ensures CreateSnapshot(path, later) == Snapshotting(Ok, [DetectArgv(path)])
  {
  }

  /** Every lifecycle call keeps the path empty or pointing at a `.vbox` file. */
  lemma PathStaysMachineFile(rec: Record, host: Host)
    requires OwnsPath(rec)
    ensures OwnsPath(Clone(rec, "", host).record)
    ensures OwnsPath(Restart(rec, host).record)
    ensures OwnsPath(Delete(rec, host).record)
  {
  }

  /** Deleting twice: once the first delete succeeded, the second is a no-op success on any host. */
  lemma DeleteIdempotent(rec: Record, host: Host, later: Host)
    requires Delete(rec, host).outcome.Ok?
    requires Found(rec, host) || later == host
    ensures Delete(Delete(rec, host).record, later) == Step(Delete(rec, host).record, Ok, [])
  {
  }

  /**
    The engine's own snapshot never reaches the record: cloning a source that
    names no snapshot records the bare source, so a later `clone` of the same
    text is a no-op rather than a conflict.
   */
  lemma ImplicitSnapshotNotRecorded(rec: Record, source: string, host: Host)
    requires source != "" && ':' !in source
    requires Clone(rec, source, host).record != rec
    ensures Clone(rec, source, host).record.source == source
    ensures |Clone(rec, source, host).calls| > 1
  {
    assert Reconcile(rec, source, Found(rec, host)) == CloneFrom(source);
    BeforeColonWhole(source);
  }

  /**
    After a clone whose tool call ran, deleting the machine and cloning again
    from the record alone, in the same directory, repeats the same clone call.
   */
  lemma RecloneFromRecord(rec: Record, source: string, host: Host, later: Host)
    requires Clone(rec, source, host).record != rec
    requires Clone(rec, source, host).record.source != ""
    requires !Found(Clone(rec, source, host).record, later)
    requires later.canMakeWorkDir && later.pwd == host.pwd
    requires CreateSnapshot(SourceBase(Clone(rec, source, host).record.source), later).outcome.Ok?
    ensures var again := Clone(Clone(rec, source, host).record, "", later);
      again.calls[|again.calls| - 1] == Clone(rec, source, host).calls[|Clone(rec, source, host).calls| - 1]
  {
  }
}
