/**
  Everything the engines learn from outside the process, passed in as one
  value: which descriptor files exist, the working directory, what each
  native-tool invocation returns, and the files the IP discovery reads.
  Within one lifecycle call the host does not change.
 */
module Environment {
  import opened Core
  import opened Discovery

  datatype Host = Host(
    files: set<string>,                      // paths that exist and are regular files (os.Stat)
    pwd: Option<string>,                     // os.Getwd; None when it fails
    canMakeWorkDir: bool,                    // os.MkdirAll(".lovm") succeeds
    run: Argv -> ToolResult,                 // exit status and combined output of a native tool
    vmx: map<string, seq<VmxMatch>>,         // descriptor contents by path; missing = unreadable
    networking: Option<seq<string>>,         // DHCP network tokens of the networking file
    leases: map<int, seq<LeaseMatch>>,       // lease table of each network id; missing = unreadable
    now: int,
    interfaceOrder: seq<string>)             // the order ranging over the interface map visits keys

  /** `Found()` of the VMware and VirtualBox engines: a non-empty path naming an existing regular file. */
  predicate DescriptorFound(rec: Record, host: Host) {
    rec.path != "" && rec.path in host.files
  }

  /** Reading the descriptor at `path` succeeds: an empty path never names a file, whatever the host holds. */
  predicate VmxReadable(host: Host, path: string) {
    path != "" && path in host.vmx
  }

  function ReadVmx(host: Host, path: string): (r: Option<seq<VmxMatch>>)
    ensures r.Some? <==> VmxReadable(host, path)
    ensures r.Some? ==> r.value == host.vmx[path]
  {
    if VmxReadable(host, path) then Some(host.vmx[path]) else None
  }

  /** `interfaceOrder` is a valid iteration order of the interface map of the descriptor at `path`. */
  predicate OrderFits(host: Host, path: string) {
    VmxReadable(host, path) ==> Enumerates(host.interfaceOrder, ReadMacs(host.vmx[path]).Keys)
  }

  // ----- clone reconciliation, common to every engine that clones -----

  datatype Decision = Finish(outcome: Outcome) | CloneFrom(source: string)

  /** The source a clone works from: the user's, or failing that the recorded one. */
  function EffectiveSource(rec: Record, source: string): string {
    if source == "" then rec.source else source
  }

  /**
    What `Clone(source)` does before touching the file system: fail when no
    source is known, do nothing when the clone exists and the source agrees,
    fail when the clone exists and the user asks for a different source, and
    otherwise clone from the user's source or, failing that, the recorded one.
   */
  function Reconcile(rec: Record, source: string, found: bool): (d: Decision)
    ensures d.CloneFrom? <==> !found && (source != "" || rec.source != "")
    ensures d.CloneFrom? ==> d.source != "" && (source != "" ==> d.source == source)
                             && (source == "" ==> d.source == rec.source)
    ensures d.Finish? && d.outcome.Ok? <==>
      found && (source != "" || rec.source != "") && (source == "" || source == rec.source)
  {
    if source == "" && rec.source == "" then Finish(Failed(NoCloneSource))
    else if found then
      if source != "" && source != rec.source then Finish(Failed(SourceConflict(source, rec.source)))
      else Finish(Ok)
    else CloneFrom(if source == "" then rec.source else source)
  }

  /**
    A clone gets as far as running a tool: no clone exists yet, some source
    is known, `.lovm` could be made and the working directory is known.
   */
  predicate ClonesFrom(rec: Record, source: string, found: bool, host: Host) {
    !found && EffectiveSource(rec, source) != "" && host.canMakeWorkDir && host.pwd.Some?
  }

  /**
    The reconciliation table in the comment on `Clone`
    (engine/vmware/vmware.go:61-72), row by row: (has clone, has
    recorded source, user source given, user source equals record) decides
    between error, clone and no-op.
   */
  lemma ReconciliationTable(rec: Record, source: string, found: bool)
    ensures !found && rec.source == "" && source == "" ==> Reconcile(rec, source, found) == Finish(Failed(NoCloneSource))
    ensures !found && source != "" ==> Reconcile(rec, source, found) == CloneFrom(source)
    ensures !found && rec.source != "" && source == "" ==> Reconcile(rec, source, found) == CloneFrom(rec.source)
    ensures found && rec.source != "" && source == "" ==> Reconcile(rec, source, found) == Finish(Ok)
    ensures found && rec.source != "" && source == rec.source ==> Reconcile(rec, source, found) == Finish(Ok)
    ensures found && source != "" && source != rec.source ==>
      Reconcile(rec, source, found) == Finish(Failed(SourceConflict(source, rec.source)))
  {
  }
}
