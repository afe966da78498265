/**
  The earlier VMware engine, kept in the repository beside the current one and
  driven by the older command dispatcher. It shares the reconciliation, the
  stop and delete behaviour and the IP discovery with the current engine, but
  its clone neither detects a running snapshot nor records the source.
 */
module LegacyVMware {
  import opened Core
  import opened Environment
  import VMware
  import Discovery

  predicate Found(rec: Record, host: Host) {
    DescriptorFound(rec, host)
  }

  /**
    Clone into `<pwd>/.lovm/<name>/<name>.vmx`. Once the tool ran, whatever
    its exit status, the path points at the target; the source is never written.
   */
  function Clone(rec: Record, source: string, host: Host): (s: Step)
    ensures s.record.source == rec.source && s.record.mounts == rec.mounts && s.record.engine == rec.engine
    ensures |s.calls| <= 1
    ensures s.calls == [] ==> s.record == rec
    ensures Found(rec, host) ==> s.calls == []
    ensures |s.calls| == 1 ==>
      && host.pwd.Some?
      && s.record.path == TargetPath(host.pwd.value, ".vmx")
      && (s.outcome.Ok? <==> host.run(s.calls[0]).ToolOk?)
    ensures Reconcile(rec, source, Found(rec, host)).Finish? ==>
      s == Step(rec, Reconcile(rec, source, Found(rec, host)).outcome, [])
    ensures !Found(rec, host) && EffectiveSource(rec, source) != "" && !host.canMakeWorkDir ==>
      s == Step(rec, Failed(FileSystem("mkdir .lovm")), [])
    ensures !Found(rec, host) && EffectiveSource(rec, source) != "" && host.canMakeWorkDir && host.pwd.None? ==>
      s == Step(rec, Failed(FileSystem("getwd")), [])
    ensures ClonesFrom(rec, source, Found(rec, host), host) ==>
      var src := EffectiveSource(rec, source);
      var target := TargetPath(host.pwd.value, ".vmx");
      s.calls == [VMware.CloneArgv(SourceBase(src), target, SourceSnapshot(src))] && s.record == rec.(path := target)
  {
    match Reconcile(rec, source, Found(rec, host))
    case Finish(outcome) => Step(rec, outcome, [])
    case CloneFrom(src) =>
      if !host.canMakeWorkDir then Step(rec, Failed(FileSystem("mkdir .lovm")), [])
      else if host.pwd.None? then Step(rec, Failed(FileSystem("getwd")), [])
      else
        var target := TargetPath(host.pwd.value, ".vmx");
        var argv := VMware.CloneArgv(SourceBase(src), target, SourceSnapshot(src));
        Step(rec.(path := target), FromTool(argv, host.run(argv)), [argv])
  }

  /** Clone from the recorded source if needed, then power the guest on without a window. */
  function Start(rec: Record, host: Host): (s: Step)
    ensures s.record.source == rec.source
    ensures s.outcome.Ok? ==> s.record.path != "" && |s.calls| >= 1 && s.calls[|s.calls| - 1] == VMware.StartArgv(s.record.path)
    ensures Clone(rec, "", host).outcome.Failed? ==> s == Clone(rec, "", host)
    ensures Clone(rec, "", host).outcome.Ok? ==>
      var c := Clone(rec, "", host);
      && s.record == c.record
      && s.calls == c.calls + [VMware.StartArgv(c.record.path)]
      && (s.outcome.Ok? <==> host.run(VMware.StartArgv(c.record.path)).ToolOk?)
  {
    var c := Clone(rec, "", host);
    if c.outcome.Failed? then c
    else
      var argv := VMware.StartArgv(c.record.path);
      Step(c.record, FromTool(argv, host.run(argv)), c.calls + [argv])
  }

  /** Stop is the current engine's stop, including the already-off downgrade. */
  function Stop(rec: Record, host: Host): (s: Step)
    ensures s == VMware.Stop(rec, host)
    ensures s.record == rec
  {
    VMware.Stop(rec, host)
  }

  /** Stop, then start with the legacy clone; a failed stop is returned without starting. */
  function Restart(rec: Record, host: Host): (s: Step)
    ensures Stop(rec, host).outcome.Failed? ==> s == Stop(rec, host)
    ensures Stop(rec, host).outcome.Ok? ==>
      s.outcome == Start(rec, host).outcome && s.record == Start(rec, host).record &&
      s.calls == Stop(rec, host).calls + Start(rec, host).calls
  {
    var stopped := Stop(rec, host);
    if stopped.outcome.Failed? then stopped
    else
      var started := Start(stopped.record, host);
      Step(started.record, started.outcome, stopped.calls + started.calls)
  }

  /** Delete is the current engine's delete: stop, `vmrun deleteVM`, clear the path on success. */
  function Delete(rec: Record, host: Host): (s: Step)
    ensures s == VMware.Delete(rec, host)
    ensures s.outcome.Ok? <==> !Found(rec, host) || s.record.path == ""
  {
    VMware.Delete(rec, host)
  }

  function Mount(rec: Record): (s: Step)
    ensures s == Step(rec, Failed(LegacyNotImplemented), [])
  {
    Step(rec, Failed(LegacyNotImplemented), [])
  }

  /** The same discovery as the current engine: the first interface with a current lease. */
  function IP(rec: Record, host: Host): (r: Result<string>)
    requires OrderFits(host, rec.path)
    ensures r == VMware.IP(rec, host)
    ensures r == Failure(NotFound) <==>
      && VmxReadable(host, rec.path)
      && Discovery.NoInterfaceLeased(Discovery.ReadMacs(host.vmx[rec.path]), host.networking, host.leases, host.now)
  {
    Discovery.IP(ReadVmx(host, rec.path), host.networking, host.leases, host.now, host.interfaceOrder)
  }

  // ----- how the legacy engine differs from the current one -----

  /** Starting a machine that is already cloned from a recorded source runs the start tool and nothing else. */
  lemma StartFoundMachine(rec: Record, host: Host)
    requires Found(rec, host) && rec.source != ""
    ensures Start(rec, host) == Step(rec, FromTool(VMware.StartArgv(rec.path), host.run(VMware.StartArgv(rec.path))), [VMware.StartArgv(rec.path)])
  {
    assert Clone(rec, "", host) == Step(rec, Ok, []);
  }

  /** With no source recorded, start refuses before running any tool, even when a machine file exists. */
  lemma StartWithoutSource(rec: Record, host: Host)
    requires rec.source == ""
    ensures Start(rec, host) == Step(rec, Failed(NoCloneSource), [])
  {
    assert Clone(rec, "", host) == Step(rec, Failed(NoCloneSource), []);
  }

  /** Restarting a machine that is not there has nothing to stop: it is the same as starting it. */
  lemma RestartMissing(rec: Record, host: Host)
    requires !Found(rec, host)
    ensures Restart(rec, host) == Start(rec, host)
  {
    AfterSilentStep(Stop(rec, host), Start(rec, host), Restart(rec, host));
  }


  /**
    Both engines run the same `vmrun clone` command and point the record at
    the same target; only the source they record differs.
   */
  lemma SameCloneCommand(rec: Record, source: string, host: Host)
    requires VMware.Clone(rec, source, host).outcome != Failed(SnapshotPoweredOn)
    ensures Clone(rec, source, host).calls == VMware.Clone(rec, source, host).calls
    ensures Clone(rec, source, host).record.path == VMware.Clone(rec, source, host).record.path
    ensures Clone(rec, source, host).outcome == VMware.Clone(rec, source, host).outcome
  {
    match Reconcile(rec, source, Found(rec, host))
    case Finish(_) =>
    case CloneFrom(src) =>
      if host.canMakeWorkDir && host.pwd.Some? {
        var argv := VMware.CloneArgv(SourceBase(src), TargetPath(host.pwd.value, ".vmx"), SourceSnapshot(src));
        assert Clone(rec, source, host).calls == [argv] == VMware.Clone(rec, source, host).calls;
      }
  }

  /**
    Because the legacy clone never records its source, a machine cloned from a
    fresh record and then deleted cannot be started again: the start has no
    source to clone from.
   */
  lemma ForgetsSource(source: string, host: Host, later: Host)
    requires source != ""
    requires Clone(EmptyRecord, source, host).outcome.Ok?
    requires Delete(Clone(EmptyRecord, source, host).record, later).outcome.Ok?
    ensures Start(Delete(Clone(EmptyRecord, source, host).record, later).record, later).outcome
         == Failed(NoCloneSource)
  {
  }
}
