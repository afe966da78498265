/**
  Engine identification and the factory: a clone source selects a backend by
  the suffix of its base, and the backend then acts on the shared machine
  record. The record is shared by reference in the program, so a backend is
  represented here by its kind alone and every call takes the record and
  returns it updated; the rejecting backend leaves it as it was.
 */
module Engine {
  import opened Core
  import opened Environment
  import VMware
  import VirtualBox
  import Unknown

  datatype Kind = VMwareKind | VirtualBoxKind | UnknownKind

  /** The tag the command line writes into the record's `engine` field. */
  function Tag(k: Kind): string {
    match k
    case VMwareKind => VMware.Identifier
    case VirtualBoxKind => "virtualbox"
    case UnknownKind => "unknown"
  }

  lemma TagsDistinct(a: Kind, b: Kind)
    ensures Tag(a) == Tag(b) <==> a == b
  {
  }

  /** No name ends in both `.vmx` and `.vbox`: they differ in the next-to-last letter. */
  lemma SuffixesExclusive(s: string)
    ensures HasSuffix(s, ".vmx") ==> !HasSuffix(s, ".vbox")
  {
    if HasSuffix(s, ".vmx") {
      assert s[|s| - 2] == s[|s| - 4..][2] == 'm';
    }
  }

  /**
    Classify a clone source: the part before the first colon (the snapshot
    separator) decides, `.vmx` for VMware, `.vbox` for VirtualBox, anything
    else the rejecting backend. Total: every string gets exactly one kind.
   */
  function Identify(source: string): (k: Kind)
    ensures k == VMwareKind <==> HasSuffix(SourceBase(source), ".vmx")
    ensures k == VirtualBoxKind <==> HasSuffix(SourceBase(source), ".vbox")
    ensures k == UnknownKind <==> !HasSuffix(SourceBase(source), ".vmx") && !HasSuffix(SourceBase(source), ".vbox")
  {
    var base := SourceBase(source);
    SuffixesExclusive(base);
    if HasSuffix(base, ".vmx") then VMwareKind
    else if HasSuffix(base, ".vbox") then VirtualBoxKind
    else UnknownKind
  }

  /** A snapshot suffix never changes the classification. */
  lemma IdentifyIgnoresSnapshot(base: string, snapshot: string)
    requires ':' !in base
    ensures Identify(base + ":" + snapshot) == Identify(base)
  {
    BeforeColonPrefix(base, snapshot);
    BeforeColonWhole(base);
  }

  // The table of the repository's identification test, one row per lemma.

  lemma IdentifyVmx()
    ensures Identify("/path/to/some.vmx") == VMwareKind
  {
    BeforeColonWhole("/path/to/some.vmx");
  }

  lemma IdentifyVmxSnapshot()
    ensures Identify("/path/to/some.vmx" + ":" + "snapshotID") == VMwareKind
  {
    var base := "/path/to/some.vmx";
    assert ':' !in base;
    BeforeColonPrefix(base, "snapshotID");
    assert SourceBase(base + ":" + "snapshotID") == base;
    assert HasSuffix(base, ".vmx");
  }

  lemma IdentifyVbox()
    ensures Identify("/path/to/some.vbox") == VirtualBoxKind
  {
    BeforeColonWhole("/path/to/some.vbox");
  }

  lemma IdentifyOther()
    ensures Identify("/path/to/something.else") == UnknownKind
  {
    BeforeColonWhole("/path/to/something.else");
  }

  /** The lifecycle calls every backend answers. */
  datatype Operation = CloneOp(source: string) | StartOp | StopOp | RestartOp | DeleteOp | MountOp

  /**
    One lifecycle call on the backend `Engine(source, rec)` selected, where
    `kind == Identify(source)`.
   */
  function Run(kind: Kind, rec: Record, op: Operation, host: Host): (s: Step)
    ensures s.record.mounts == rec.mounts && s.record.engine == rec.engine
    ensures kind == UnknownKind ==> s.record == rec && s.calls == [] && s.outcome.Failed?
    ensures op.MountOp? ==> s == Step(rec, s.outcome, []) && s.outcome.Failed?
    ensures op.StopOp? ==> s.record == rec
  {
    match kind
    case VMwareKind =>
      (match op
       case CloneOp(source) => VMware.Clone(rec, source, host)
       case StartOp => VMware.Start(rec, host)
       case StopOp => VMware.Stop(rec, host)
       case RestartOp => VMware.Restart(rec, host)
       case DeleteOp => VMware.Delete(rec, host)
       case MountOp => VMware.Mount(rec))
    case VirtualBoxKind =>
      (match op
       case CloneOp(source) => VirtualBox.Clone(rec, source, host)
       case StartOp => VirtualBox.Start(rec, host)
       case StopOp => VirtualBox.Stop(rec, host)
       case RestartOp => VirtualBox.Restart(rec, host)
       case DeleteOp => VirtualBox.Delete(rec, host)
       case MountOp => VirtualBox.Mount(rec))
    case UnknownKind =>
      (match op
       case CloneOp(source) => Unknown.Clone(rec, source)
       case _ => Unknown.Refuse(rec))
  }

  /** A source whose base ends in `.vmx` gets the VMware engine: each call is that engine's (the rest below). */
  lemma RunVMware(source: string, rec: Record, host: Host)
    requires HasSuffix(SourceBase(source), ".vmx")
    ensures Run(Identify(source), rec, CloneOp(source), host) == VMware.Clone(rec, source, host)
    ensures Run(Identify(source), rec, StartOp, host) == VMware.Start(rec, host)
    ensures Run(Identify(source), rec, StopOp, host) == VMware.Stop(rec, host)
  {
    assert Identify(source) == VMwareKind;
  }

  lemma RunVMwareRest(source: string, rec: Record, host: Host)
    requires HasSuffix(SourceBase(source), ".vmx")
    ensures Run(Identify(source), rec, RestartOp, host) == VMware.Restart(rec, host)
    ensures Run(Identify(source), rec, DeleteOp, host) == VMware.Delete(rec, host)
    ensures Run(Identify(source), rec, MountOp, host) == VMware.Mount(rec)
  {
    assert Identify(source) == VMwareKind;
  }

  /** A source whose base ends in `.vbox` gets the VirtualBox engine: each call is that engine's (the rest below). */
  lemma RunVirtualBox(source: string, rec: Record, host: Host)
    requires HasSuffix(SourceBase(source), ".vbox")
    ensures Run(Identify(source), rec, CloneOp(source), host) == VirtualBox.Clone(rec, source, host)
    ensures Run(Identify(source), rec, StartOp, host) == VirtualBox.Start(rec, host)
    ensures Run(Identify(source), rec, StopOp, host) == VirtualBox.Stop(rec, host)
  {
    assert Identify(source) == VirtualBoxKind;
  }

  lemma RunVirtualBoxRest(source: string, rec: Record, host: Host)
    requires HasSuffix(SourceBase(source), ".vbox")
    ensures Run(Identify(source), rec, RestartOp, host) == VirtualBox.Restart(rec, host)
    ensures Run(Identify(source), rec, DeleteOp, host) == VirtualBox.Delete(rec, host)
    ensures Run(Identify(source), rec, MountOp, host) == VirtualBox.Mount(rec)
  {
    assert Identify(source) == VirtualBoxKind;
  }

  /** A source whose base ends in `.vmx` gets its address from the VMware engine's discovery. */
  lemma IPVMware(source: string, rec: Record, host: Host)
    requires HasSuffix(SourceBase(source), ".vmx")
    requires OrderFits(host, rec.path)
    ensures IP(Identify(source), rec, host) == VMware.IP(rec, host)
  {
    assert Identify(source) == VMwareKind;
  }

  /**
    Any other source gets the rejecting engine: clone reports the format,
    every other call refuses.
   */
  lemma RunUnknown(source: string, rec: Record, op: Operation, host: Host)
    requires !HasSuffix(SourceBase(source), ".vmx") && !HasSuffix(SourceBase(source), ".vbox")
    ensures op.CloneOp? ==> Run(Identify(source), rec, op, host) == Unknown.Clone(rec, op.source)
    ensures !op.CloneOp? ==> Run(Identify(source), rec, op, host) == Unknown.Refuse(rec)
  {
    assert Identify(source) == UnknownKind;
  }

  /** `Found()` of the selected backend. */
  predicate Found(kind: Kind, rec: Record, host: Host)
    ensures Found(kind, rec, host) <==> kind != UnknownKind && DescriptorFound(rec, host)
  {
    match kind
    case VMwareKind => VMware.Found(rec, host)
    case VirtualBoxKind => VirtualBox.Found(rec, host)
    case UnknownKind => Unknown.Found(rec)
  }

  /** The IP of the guest, from the selected backend; only VMware discovers one. */
  function IP(kind: Kind, rec: Record, host: Host): (r: Result<string>)
    requires kind == VMwareKind ==> OrderFits(host, rec.path)
    ensures kind == VirtualBoxKind ==> r == Failure(NotImplemented)
    ensures kind == UnknownKind ==> r == Failure(NoConfiguration)
    ensures kind == VMwareKind ==> r == VMware.IP(rec, host)
    ensures r.Success? ==> kind == VMwareKind && VmxReadable(host, rec.path)
  {
    match kind
    case VMwareKind => VMware.IP(rec, host)
    case VirtualBoxKind => VirtualBox.IP(rec)
    case UnknownKind => Unknown.IP(rec)
  }

  /**
    A machine is found only by a backend that knows its path: VMware and
    VirtualBox agree on it, and the rejecting backend never finds anything.
   */
  lemma FoundNeedsPath(kind: Kind, rec: Record, host: Host)
    ensures Found(kind, rec, host) ==> kind != UnknownKind && rec.path != "" && rec.path in host.files
  {
  }

  /**
    The source a clone records selects the same backend again: the program
    picks the backend from the recorded source on every later run, so a
    machine cloned from a `.vmx` (or `.vbox`) stays with that engine.
   */
  lemma RecordedSourceKeepsEngine(rec: Record, source: string, host: Host)
    requires source != ""
    requires Identify(source) != UnknownKind
    requires Run(Identify(source), rec, CloneOp(source), host).record.source != rec.source
    ensures Identify(Run(Identify(source), rec, CloneOp(source), host).record.source) == Identify(source)
  {
    var base := SourceBase(source);
    var snapshot := SourceSnapshot(source);
    var s := Run(Identify(source), rec, CloneOp(source), host);
    if Identify(source) == VMwareKind {
      assert s == VMware.Clone(rec, source, host);
    } else {
      assert s == VirtualBox.Clone(rec, source, host);
    }
    assert s.record.source == QualifiedSource(base, snapshot);
    QualifiedSourceSplits(base, snapshot);
  }
}
