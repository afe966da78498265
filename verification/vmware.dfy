/**
  The VMware Workstation engine: lifecycle calls that drive `vmrun`, and IP
  discovery from the guest's MAC addresses and the host's DHCP leases.
 */
module VMware {
  import opened Core
  import opened Environment
  import Discovery

  const Identifier: string := "vmware"

  /** `vmrun clone` output when the source snapshot is running. */
  const PoweredOnMessage: string := "The virtual machine should not be powered on. It is already running."

  /** `vmrun stop` output when the guest is already off. */
  const NotPoweredOnMessage: string := "The virtual machine is not powered on"

  function CloneArgv(base: string, target: string, snapshot: string): Argv {
    ["vmrun", "clone", base, target, "linked"] + (if snapshot != "" then ["-snapshot=" + snapshot] else [])
  }

  function StartArgv(path: string): Argv { ["vmrun", "start", path, "nogui"] }
  function StopArgv(path: string): Argv { ["vmrun", "stop", path, "hard"] }
  function DeleteArgv(path: string): Argv { ["vmrun", "deleteVM", path] }

  predicate Found(rec: Record, host: Host) {
    DescriptorFound(rec, host)
  }

  /** The spelling of a path this engine owns: none yet, or a `.vmx` descriptor. */
  predicate OwnsPath(rec: Record) {
    rec.path == "" || HasSuffix(rec.path, ".vmx")
  }

  /**
    Clone the source into `<pwd>/.lovm/<name>/<name>.vmx` as a linked clone.
    After the tool ran (whatever its exit status, unless it reported a running
    snapshot) the record points at the new descriptor and remembers the source,
    and the recorded source, split again, reproduces the same tool call.
   */
  function Clone(rec: Record, source: string, host: Host): (s: Step)
    ensures s.record.mounts == rec.mounts && s.record.engine == rec.engine
    ensures |s.calls| <= 1
    ensures s.calls == [] ==> s.record == rec
    ensures Found(rec, host) ==> s.calls == []
    ensures s.outcome.Ok? ==> Found(rec, host) || |s.calls| == 1
    ensures s.record != rec ==>
      && OwnsPath(s.record)
      && s.calls == [CloneArgv(SourceBase(s.record.source), s.record.path, SourceSnapshot(s.record.source))]
    ensures s.record != rec ==>
      var src := EffectiveSource(rec, source);
      s.record.source == QualifiedSource(SourceBase(src), SourceSnapshot(src))
    ensures |s.calls| == 1 && host.run(s.calls[0]).ToolError? && Contains(host.run(s.calls[0]).output, PoweredOnMessage) ==>
      s == Step(rec, Failed(SnapshotPoweredOn), s.calls)
    ensures Reconcile(rec, source, Found(rec, host)).Finish? ==>
      s == Step(rec, Reconcile(rec, source, Found(rec, host)).outcome, [])
    ensures !Found(rec, host) && EffectiveSource(rec, source) != "" && !host.canMakeWorkDir ==>
      s == Step(rec, Failed(FileSystem("mkdir .lovm")), [])
    ensures !Found(rec, host) && EffectiveSource(rec, source) != "" && host.canMakeWorkDir && host.pwd.None? ==>
      s == Step(rec, Failed(FileSystem("getwd")), [])
    ensures ClonesFrom(rec, source, Found(rec, host), host) ==>
      var src := EffectiveSource(rec, source);
      var target := TargetPath(host.pwd.value, ".vmx");
      var argv := CloneArgv(SourceBase(src), target, SourceSnapshot(src));
      && s.calls == [argv]
      && (s.outcome == Failed(SnapshotPoweredOn) <==>
            host.run(argv).ToolError? && Contains(host.run(argv).output, PoweredOnMessage))
      && (s.outcome != Failed(SnapshotPoweredOn) ==>
            && s.record == rec.(path := target, source := QualifiedSource(SourceBase(src), SourceSnapshot(src)))
            && (s.outcome.Ok? <==> host.run(argv).ToolOk?))
  {
    match Reconcile(rec, source, Found(rec, host))
    case Finish(outcome) => Step(rec, outcome, [])
    case CloneFrom(src) =>
      if !host.canMakeWorkDir then Step(rec, Failed(FileSystem("mkdir .lovm")), [])
      else
        var base := SourceBase(src);
        var snapshot := SourceSnapshot(src);
        if host.pwd.None? then Step(rec, Failed(FileSystem("getwd")), [])
        else
          var target := TargetPath(host.pwd.value, ".vmx");
          var argv := CloneArgv(base, target, snapshot);
          var result := host.run(argv);
          if result.ToolError? && Contains(result.output, PoweredOnMessage) then
            Step(rec, Failed(SnapshotPoweredOn), [argv])
          else
            var recorded := QualifiedSource(base, snapshot);
            assert SourceBase(recorded) == base && SourceSnapshot(recorded) == snapshot by {
              QualifiedSourceSplits(base, snapshot);
            }
            Step(rec.(path := target, source := recorded), FromTool(argv, result), [argv])
  }

  /** Clone from the recorded source if needed, then power the guest on without a window. */
  function Start(rec: Record, host: Host): (s: Step)
    ensures s.record.mounts == rec.mounts && s.record.engine == rec.engine
    ensures OwnsPath(rec) ==> OwnsPath(s.record)
    ensures s.outcome.Ok? ==> s.record.path != "" && |s.calls| >= 1 && s.calls[|s.calls| - 1] == StartArgv(s.record.path)
    ensures Clone(rec, "", host).outcome.Failed? ==> s == Clone(rec, "", host)
    ensures Clone(rec, "", host).outcome.Ok? ==>
      var c := Clone(rec, "", host);
      && s.record == c.record
      && s.calls == c.calls + [StartArgv(c.record.path)]
      && (s.outcome.Ok? <==> host.run(StartArgv(c.record.path)).ToolOk?)
  {
    var c := Clone(rec, "", host);
    if c.outcome.Failed? then c
    else
      var argv := StartArgv(c.record.path);
      Step(c.record, FromTool(argv, host.run(argv)), c.calls + [argv])
  }

  /** Hard power-off; a guest that is not there or already off is a success. */
  function Stop(rec: Record, host: Host): (s: Step)
    ensures s.record == rec
    ensures !Found(rec, host) ==> s.outcome.Ok? && s.calls == []
    ensures Found(rec, host) ==> s.calls == [StopArgv(rec.path)]
    ensures s.outcome.Failed? ==> s.outcome.error == CommandFailed(StopArgv(rec.path))
    ensures Found(rec, host) ==>
      (s.outcome.Ok? <==> host.run(StopArgv(rec.path)).ToolOk? ||
                          Contains(host.run(StopArgv(rec.path)).output, NotPoweredOnMessage))
  {
    if !Found(rec, host) then Step(rec, Ok, [])
    else
      var argv := StopArgv(rec.path);
      var result := host.run(argv);
      if result.ToolError? && Contains(result.output, NotPoweredOnMessage) then Step(rec, Ok, [argv])
      else Step(rec, FromTool(argv, result), [argv])
  }

  /** Stop, then start; a failed stop is returned without starting. */
  function Restart(rec: Record, host: Host): (s: Step)
    ensures Stop(rec, host).outcome.Failed? ==> s == Stop(rec, host)
    ensures Stop(rec, host).outcome.Ok? ==>
      s.outcome == Start(rec, host).outcome && s.record == Start(rec, host).record &&
      s.calls == Stop(rec, host).calls + Start(rec, host).calls
  {
    var stopped := Stop(rec, host);
    if stopped.outcome.Failed? then stopped
    else
      var started := Start(stopped.record, host);
      Step(started.record, started.outcome, stopped.calls + started.calls)
  }

  /**
    Stop the guest and delete its files. The path is cleared exactly when the
    delete command succeeded; the source is kept so the machine can be cloned again.
   */
  function Delete(rec: Record, host: Host): (s: Step)
    ensures s.record.source == rec.source && s.record.mounts == rec.mounts && s.record.engine == rec.engine
    ensures s.record.path == rec.path || s.record.path == ""
    ensures !Found(rec, host) ==> s == Step(rec, Ok, [])
    ensures Found(rec, host) ==>
      (s.record.path == "" <==> Stop(rec, host).outcome.Ok? && host.run(DeleteArgv(rec.path)).ToolOk?)
    ensures s.outcome.Ok? <==> !Found(rec, host) || s.record.path == ""
    ensures Stop(rec, host).outcome.Failed? ==> s == Stop(rec, host)
  {
    if !Found(rec, host) then Step(rec, Ok, [])
    else
      var stopped := Stop(rec, host);
      if stopped.outcome.Failed? then stopped
      else
        var argv := DeleteArgv(rec.path);
        var result := host.run(argv);
        var outcome := FromTool(argv, result);
        Step(if outcome.Ok? then rec.(path := "") else rec, outcome, stopped.calls + [argv])
  }

  /** Shared folders are not implemented for VMware. */
  function Mount(rec: Record): (s: Step)
    ensures s == Step(rec, Failed(NotImplemented), [])
  {
    Step(rec, Failed(NotImplemented), [])
  }

  /** The IP of the first interface of the guest that holds a current DHCP lease. */
  function IP(rec: Record, host: Host): (r: Result<string>)
    requires OrderFits(host, rec.path)
    ensures r.Success? ==>
      && VmxReadable(host, rec.path)
      && Discovery.SomeInterfaceLeased(Discovery.ReadMacs(host.vmx[rec.path]), host.networking, host.leases, host.now, r.value)
    ensures r == Failure(NotFound) <==>
      && VmxReadable(host, rec.path)
      && Discovery.NoInterfaceLeased(Discovery.ReadMacs(host.vmx[rec.path]), host.networking, host.leases, host.now)
    ensures !VmxReadable(host, rec.path) ==> r.Failure? && r != Failure(NotFound)
    ensures VmxReadable(host, rec.path) && r != Failure(NotFound) ==>
      var macs := Discovery.ReadMacs(host.vmx[rec.path]);
      var order := host.interfaceOrder;
      exists i :: 0 <= i < |order| && Discovery.InterfaceLookup(macs, order[i], host.networking, host.leases, host.now) == r &&
        forall j :: 0 <= j < i ==>
          Discovery.InterfaceLookup(macs, order[j], host.networking, host.leases, host.now) == Failure(NotFound)
  {
    Discovery.IP(ReadVmx(host, rec.path), host.networking, host.leases, host.now, host.interfaceOrder)
  }

  /** With no clone path there is no descriptor to read: discovery fails, and not with `NotFound`. */
  lemma IPWithoutPath(rec: Record, host: Host)
    requires rec.path == ""
    ensures IP(rec, host).Failure? && IP(rec, host) != Failure(NotFound)
  {
  }

  // ----- properties relating several calls -----

  /** Starting a machine that is already cloned from a recorded source runs the start tool and nothing else. */
  lemma StartFoundMachine(rec: Record, host: Host)
    requires Found(rec, host) && rec.source != ""
    ensures Start(rec, host) == Step(rec, FromTool(StartArgv(rec.path), host.run(StartArgv(rec.path))), [StartArgv(rec.path)])
  {
    assert Clone(rec, "", host) == Step(rec, Ok, []);
  }

  /** With no source recorded, start refuses before running any tool, even when a machine file exists. */
  lemma StartWithoutSource(rec: Record, host: Host)
    requires rec.source == ""
    ensures Start(rec, host) == Step(rec, Failed(NoCloneSource), [])
  {
    assert Clone(rec, "", host) == Step(rec, Failed(NoCloneSource), []);
  }

  /** Restarting a machine that is not there has nothing to stop: it is the same as starting it. */
  lemma RestartMissing(rec: Record, host: Host)
    requires !Found(rec, host)
    ensures Restart(rec, host) == Start(rec, host)
  {
    AfterSilentStep(Stop(rec, host), Start(rec, host), Restart(rec, host));
  }


  /** Every lifecycle call keeps the path empty or pointing at a `.vmx` descriptor. */
  lemma PathStaysDescriptor(rec: Record, host: Host)
    requires OwnsPath(rec)
    ensures OwnsPath(Clone(rec, "", host).record)
    ensures OwnsPath(Start(rec, host).record)
    ensures OwnsPath(Stop(rec, host).record)
    ensures OwnsPath(Restart(rec, host).record)
    ensures OwnsPath(Delete(rec, host).record)
  {
  }

  /** Deleting twice: once the first delete succeeded, the second is a no-op success on any host. */
  lemma DeleteIdempotent(rec: Record, host: Host, later: Host)
    requires Delete(rec, host).outcome.Ok?
    requires Found(rec, host) || later == host
    ensures Delete(Delete(rec, host).record, later) == Step(Delete(rec, host).record, Ok, [])
  {
  }

  /** Stopping a stopped guest: when the tool says it is not powered on, stop still succeeds. */
  lemma StopIdempotent(rec: Record, host: Host)
    requires host.run(StopArgv(rec.path)) == ToolError(NotPoweredOnMessage)
    ensures Stop(rec, host).outcome.Ok?
    ensures Stop(Stop(rec, host).record, host) == Stop(rec, host)
  {
    ContainsAt(NotPoweredOnMessage, NotPoweredOnMessage, 0);
  }

  /**
    After a clone whose tool call ran, deleting the descriptor and cloning
    again from the record alone repeats exactly the same `vmrun clone` call.
   */
  lemma RecloneFromRecord(rec: Record, source: string, host: Host, later: Host)
    requires Clone(rec, source, host).record != rec
    requires Clone(rec, source, host).record.source != ""
    requires !Found(Clone(rec, source, host).record, later)
    requires later.canMakeWorkDir && later.pwd == host.pwd
    ensures Clone(Clone(rec, source, host).record, "", later).calls == Clone(rec, source, host).calls
  {
    var first := Clone(rec, source, host);
    assert ClonesFrom(rec, source, Found(rec, host), host);
    assert first.record.path == TargetPath(host.pwd.value, ".vmx");
    assert ClonesFrom(first.record, "", Found(first.record, later), later);
  }

  /**
    Cloning the same source a second time, once the descriptor exists, is a
    no-op exactly when the source is well formed; a source such as
    `a.vmx:snap:x` or `a.vmx:` is recorded differently from how it was given
    and the second call reports a conflict.
   */
  lemma CloneTwice(rec: Record, source: string, host: Host, later: Host)
    requires source != ""
    requires Clone(rec, source, host).record != rec
    requires Found(Clone(rec, source, host).record, later)
    ensures Clone(Clone(rec, source, host).record, source, later).calls == []
    ensures Clone(Clone(rec, source, host).record, source, later).outcome.Ok? <==> WellFormedSource(source)
  {
    var first := Clone(rec, source, host);
    assert Reconcile(rec, source, Found(rec, host)) == CloneFrom(source);
    SourceRoundTrip(source);
  }
}
