/**
  The command line: parsing `os.Args`, the argument checks of `clone` and
  `mount`, the command handlers, and the rule that the machine record is
  written back only after a command succeeded.
 */
module Cli {
  import opened Core
  import opened Environment
  import Engine
  import Ssh

  datatype Arguments = Arguments(command: string, args: seq<string>)

  /** `ParseArgs`: the program name, then the command, then its arguments; missing parts are empty. */
  function ParseArgs(input: seq<string>): (r: Arguments)
    ensures |input| < 2 ==> r == Arguments("", [])
    ensures |input| >= 2 ==> [input[0], r.command] + r.args == input
  {
    Arguments(if |input| > 1 then input[1] else "", if |input| > 2 then input[2..] else [])
  }

  datatype CloneRequest = CloneRequest(source: string, record: Record, outcome: Outcome)

  /**
    `ParseClone`: no argument means "clone the recorded source again" and needs
    one; a single argument is the new source and fixes the engine tag; more is
    an error. Only the engine tag of the record ever changes.
   */
  function ParseClone(args: seq<string>, rec: Record): (r: CloneRequest)
    ensures r.outcome.Ok? <==> |args| == 1 || (|args| == 0 && rec.source != "")
    ensures |args| == 0 && rec.source == "" ==> r.outcome == Failed(CloneSourceMissing)
    ensures |args| >= 2 ==> r.outcome == Failed(TooManyArguments)
    ensures |args| == 1 ==> r.source == args[0] && r.record == rec.(engine := Engine.Tag(Engine.Identify(args[0])))
    ensures |args| != 1 ==> r.source == "" && r.record == rec
  {
    if |args| == 0 then
      if rec.source == "" then CloneRequest("", rec, Failed(CloneSourceMissing)) else CloneRequest("", rec, Ok)
    else if |args| == 1 then
      CloneRequest(args[0], rec.(engine := Engine.Tag(Engine.Identify(args[0]))), Ok)
    else CloneRequest("", rec, Failed(TooManyArguments))
  }

  /** The mount table of a record, a nil map reading as empty. */
  function MountTable(rec: Record): map<string, string> {
    if rec.mounts.Some? then rec.mounts.value else map[]
  }

  datatype MountRequest = MountRequest(record: Record, outcome: Outcome) | Panicked

  /**
    `ParseMounts` as the program writes it: the assignment into the record's
    map panics when the map is nil, which it is for a record made fresh
    because no sidecar file exists, and for one read from a file whose
    `mounts` is `null`.
   */
  function ParseMountsAsWritten(args: seq<string>, rec: Record): (r: MountRequest)
    ensures r.Panicked? <==> |args| == 2 && rec.mounts.None?
    ensures |args| != 2 ==> r == MountRequest(rec, Failed(MountArguments))
    ensures r.MountRequest? && r.outcome.Ok? ==> r.record.mounts.Some?
  {
    if |args| != 2 then MountRequest(rec, Failed(MountArguments))
    else if rec.mounts.None? then Panicked
    else MountRequest(rec.(mounts := Some(rec.mounts.value[args[0] := args[1]])), Ok)
  }

  /**
    `ParseMounts` as evidently intended: exactly two arguments add or replace
    the entry for the host path, a nil map counting as empty; every other
    entry and every other field stays as it was.
   */
  function ParseMounts(args: seq<string>, rec: Record): (r: MountRequest)
    ensures r.MountRequest?
    ensures r.outcome.Ok? <==> |args| == 2
    ensures r.outcome.Failed? ==> r.record == rec && r.outcome.error == MountArguments
    ensures r.outcome.Ok? ==>
      && r.record.path == rec.path && r.record.source == rec.source && r.record.engine == rec.engine
      && r.record.mounts.Some?
      && args[0] in r.record.mounts.value && r.record.mounts.value[args[0]] == args[1]
      && (forall k :: k != args[0] ==> (k in r.record.mounts.value <==> k in MountTable(rec)))
      && (forall k :: k != args[0] && k in MountTable(rec) ==> r.record.mounts.value[k] == MountTable(rec)[k])
  {
    if |args| != 2 then MountRequest(rec, Failed(MountArguments))
    else MountRequest(rec.(mounts := Some(MountTable(rec)[args[0] := args[1]])), Ok)
  }

  /** With a map present, the corrected parse is the program's. */
  lemma MountsAgreeWhenPresent(args: seq<string>, rec: Record)
    requires rec.mounts.Some?
    ensures ParseMountsAsWritten(args, rec) == ParseMounts(args, rec)
  {
  }

  /** The counterexample: `lovm mount a b` in a directory without a sidecar file panics. */
  lemma FreshRecordMountPanics()
    ensures ParseMountsAsWritten(["a", "b"], EmptyRecord).Panicked?
    ensures ParseMounts(["a", "b"], EmptyRecord).record.mounts == Some(map["a" := "b"])
  {
  }

  /** Adding the same mount twice leaves the same table as adding it once. */
  lemma MountIdempotent(host: string, guest: string, rec: Record)
    ensures ParseMounts([host, guest], ParseMounts([host, guest], rec).record) == ParseMounts([host, guest], rec)
  {
    var once := ParseMounts([host, guest], rec).record;
    assert MountTable(once)[host := guest] == MountTable(once);
  }

  // ----- the command handlers -----

  /** The commands the program dispatches to a handler. */
  const HandlerNames: set<string> := {"clone", "start", "stop", "restart", "ssh", "ip", "mount", "delete"}

  /** The commands that print help and return at once. */
  const HelpCommands: set<string> := {"", "-h", "--help", "help"}

  /** What a handler leaves behind: its error value, the record in memory, and the tools it ran. */
  datatype Handled = Handled(outcome: Outcome, record: Record, calls: seq<Argv>)

  /** A backend step as a handler returns it. */
  function Ran(s: Step): Handled {
    Handled(s.outcome, s.record, s.calls)
  }

  function LifecycleOperation(command: string): Option<Engine.Operation> {
    if command == "start" then Some(Engine.StartOp)
    else if command == "stop" then Some(Engine.StopOp)
    else if command == "restart" then Some(Engine.RestartOp)
    else if command == "delete" then Some(Engine.DeleteOp)
    else None
  }

  /** The precondition of IP discovery, for the backend the record selects. */
  predicate DiscoveryReady(config: Record, host: Host) {
    Engine.Identify(config.source) == Engine.VMwareKind ==> OrderFits(host, config.path)
  }

  /**
    The `clone` handler: the argument check, then the backend of the given
    source (or of the recorded one when no source is given).
   */
  function HandleClone(args: seq<string>, config: Record, host: Host): (h: Handled)
    ensures h.record.mounts == config.mounts
    ensures ParseClone(args, config).outcome.Failed? ==> h == Handled(ParseClone(args, config).outcome, config, [])
    ensures |args| == 1 ==> h.record.engine == Engine.Tag(Engine.Identify(args[0]))
    ensures ParseClone(args, config).outcome.Ok? && ParseClone(args, config).source == "" ==>
      h == Ran(Engine.Run(Engine.Identify(config.source), ParseClone(args, config).record, Engine.CloneOp(""), host))
    ensures |args| == 0 && config.source != "" ==>
      h == Ran(Engine.Run(Engine.Identify(config.source), config, Engine.CloneOp(""), host))
    ensures ParseClone(args, config).outcome.Ok? && ParseClone(args, config).source != "" ==>
      var kind := Engine.Identify(args[0]);
      h == Ran(Engine.Run(kind, config.(engine := Engine.Tag(kind)), Engine.CloneOp(args[0]), host))
  {
    var request := ParseClone(args, config);
    if request.outcome.Failed? then Handled(request.outcome, request.record, [])
    else
      var chosen := if request.source != "" then Engine.Identify(request.source) else Engine.Identify(config.source);
      Ran(Engine.Run(chosen, request.record, Engine.CloneOp(request.source), host))
  }

  /** The `ssh` handler: find the guest's address, then run `ssh` with it; the record is left alone. */
  function HandleSsh(args: seq<string>, config: Record, host: Host): (h: Handled)
    requires DiscoveryReady(config, host)
    ensures h.record == config
    ensures h.outcome.Ok? ==>
      exists ip :: Engine.IP(Engine.Identify(config.source), config, host) == Success(ip) && h.calls == [Ssh.BuildCommand(args, ip)]
    ensures Engine.IP(Engine.Identify(config.source), config, host).Failure? ==>
      h == Handled(Failed(Engine.IP(Engine.Identify(config.source), config, host).error), config, [])
    ensures Engine.IP(Engine.Identify(config.source), config, host).Success? ==>
      var argv := Ssh.BuildCommand(args, Engine.IP(Engine.Identify(config.source), config, host).value);
      h == Handled(FromTool(argv, host.run(argv)), config, [argv])
  {
    match Engine.IP(Engine.Identify(config.source), config, host)
    case Failure(e) => Handled(Failed(e), config, [])
    case Success(ip) =>
      var argv := Ssh.BuildCommand(args, ip);
      Handled(FromTool(argv, host.run(argv)), config, [argv])
  }

  /** The `ip` handler: succeeds exactly when the backend finds an address; nothing runs and the record is left alone. */
  function HandleIp(config: Record, host: Host): (h: Handled)
    requires DiscoveryReady(config, host)
    ensures h.record == config && h.calls == []
    ensures h.outcome.Ok? <==> Engine.IP(Engine.Identify(config.source), config, host).Success?
  {
    match Engine.IP(Engine.Identify(config.source), config, host)
    case Failure(e) => Handled(Failed(e), config, [])
    case Success(_) => Handled(Ok, config, [])
  }

  /**
    The `mount` handler: the table is updated in memory, then the backend is
    asked to mount, which every backend refuses.
   */
  function HandleMount(args: seq<string>, config: Record, host: Host): (h: Handled)
    ensures h.outcome.Failed? && h.calls == []
    ensures |args| != 2 ==> h.record == config
    ensures |args| == 2 ==> h.record == ParseMounts(args, config).record
  {
    var request := ParseMounts(args, config);
    if request.outcome.Failed? then Handled(request.outcome, config, [])
    else
      Ran(Engine.Run(Engine.Identify(config.source), request.record, Engine.MountOp, host))
  }

  /**
    One handler on the backend `Engine(config.Source, config)`; `clone` with an
    explicit source swaps in the backend of that source instead, and `ssh`
    runs `ssh` with the address the backend finds.
   */
  function Handle(command: string, args: seq<string>, config: Record, host: Host): (h: Handled)
    requires command in HandlerNames
    requires DiscoveryReady(config, host)
    ensures h.record.mounts != config.mounts ==> command == "mount"
    ensures command == "mount" ==> h.outcome.Failed?
    ensures command in {"ip", "ssh", "stop"} ==> h.record == config
    ensures command == "start" ==> h == Ran(Engine.Run(Engine.Identify(config.source), config, Engine.StartOp, host))
    ensures command == "stop" ==> h == Ran(Engine.Run(Engine.Identify(config.source), config, Engine.StopOp, host))
    ensures command == "restart" ==> h == Ran(Engine.Run(Engine.Identify(config.source), config, Engine.RestartOp, host))
    ensures command == "delete" ==> h == Ran(Engine.Run(Engine.Identify(config.source), config, Engine.DeleteOp, host))
  {
    if command == "clone" then HandleClone(args, config, host)
    else if command == "ssh" then HandleSsh(args, config, host)
    else if command == "ip" then HandleIp(config, host)
    else if command == "mount" then HandleMount(args, config, host)
    else
      Ran(Engine.Run(Engine.Identify(config.source), config, LifecycleOperation(command).value, host))
  }

  // ----- Main -----

  /** What reading `machine.lovm` gave: no file, an unreadable or unparsable file, or a record. */
  datatype Sidecar = Missing | Unreadable | Loaded(record: Record)

  /** `ConfigFromFileOrNew`: a missing file gives the empty record. */
  function InitialConfig(sidecar: Sidecar): (r: Record)
    ensures sidecar.Loaded? ==> r == sidecar.record
    ensures !sidecar.Loaded? ==> r.path == "" && r.source == "" && r.engine == "" && r.mounts.None?
    ensures !sidecar.Loaded? ==> Engine.Identify(r.source) == Engine.UnknownKind
  {
    if sidecar.Loaded? then sidecar.record else EmptyRecord
  }

  /** The end of one run: the error returned, the record written to `machine.lovm` (if any), and the tools run. */
  datatype Completion = Completion(outcome: Outcome, saved: Option<Record>, calls: seq<Argv>)

  /** `config.Save(pwd)` after a successful handler. */
  function Save(h: Handled, writable: bool): (c: Completion)
    requires h.outcome.Ok?
    ensures c.calls == h.calls
    ensures c.saved.Some? <==> writable
    ensures c.saved.Some? ==> c.saved.value == h.record && c.outcome.Ok?
  {
    if writable then Completion(Ok, Some(h.record), h.calls)
    else Completion(Failed(FileSystem("write machine.lovm")), None, h.calls)
  }

  /**
    `Main`: help returns before anything is saved, an unknown command is an
    error, and a handler's record is written back exactly when the handler
    returned no error.
   */
  function Main(input: seq<string>, sidecar: Sidecar, host: Host, writable: bool): (c: Completion)
    requires DiscoveryReady(InitialConfig(sidecar), host)
    ensures c.saved.Some? ==> c.outcome.Ok? && ParseArgs(input).command in HandlerNames - {"mount"}
    ensures host.pwd.None? || sidecar.Unreadable? ==> c.outcome.Failed? && c.saved.None? && c.calls == []
    ensures ParseArgs(input).command in HelpCommands && host.pwd.Some? && !sidecar.Unreadable? ==>
      c == Completion(Ok, None, [])
    ensures ParseArgs(input).command !in HelpCommands + HandlerNames ==> c.outcome.Failed? && c.saved.None?
  {
    if host.pwd.None? then Completion(Failed(FileSystem("getwd")), None, [])
    else
      var arguments := ParseArgs(input);
      if sidecar.Unreadable? then Completion(Failed(FileSystem("read machine.lovm")), None, [])
      else
        var config := InitialConfig(sidecar);
        if arguments.command in HelpCommands then Completion(Ok, None, [])
        else if arguments.command !in HandlerNames then
          Completion(Failed(UnrecognizedCommand(arguments.command)), None, [])
        else
          var h := Handle(arguments.command, arguments.args, config, host);
          if h.outcome.Failed? then Completion(h.outcome, None, h.calls)
          else Save(h, writable)
  }

  /** The completion of a dispatched command, in terms of its handler alone. */
  lemma MainRunsHandler(input: seq<string>, sidecar: Sidecar, host: Host, writable: bool)
    requires DiscoveryReady(InitialConfig(sidecar), host)
    requires host.pwd.Some? && !sidecar.Unreadable?
    requires ParseArgs(input).command in HandlerNames
    ensures var h := Handle(ParseArgs(input).command, ParseArgs(input).args, InitialConfig(sidecar), host);
      Main(input, sidecar, host, writable) == if h.outcome.Failed? then Completion(h.outcome, None, h.calls) else Save(h, writable)
  {
    var arguments := ParseArgs(input);
    assert arguments.command !in HelpCommands;
    var h := Handle(arguments.command, arguments.args, InitialConfig(sidecar), host);
    assert Main(input, sidecar, host, writable) == if h.outcome.Failed? then Completion(h.outcome, None, h.calls) else Save(h, writable);
  }

  /**
    Save on success, and only then: for a dispatched command, the record is
    written exactly when the handler succeeded and the file can be written,
    and what is written is the handler's record.
   */
  lemma SaveOnlyOnSuccess(input: seq<string>, sidecar: Sidecar, host: Host, writable: bool)
    requires DiscoveryReady(InitialConfig(sidecar), host)
    requires host.pwd.Some? && !sidecar.Unreadable?
    requires ParseArgs(input).command in HandlerNames
    ensures var h := Handle(ParseArgs(input).command, ParseArgs(input).args, InitialConfig(sidecar), host);
      && (Main(input, sidecar, host, writable).saved.Some? <==> h.outcome.Ok? && writable)
      && (Main(input, sidecar, host, writable).saved.Some? ==> Main(input, sidecar, host, writable).saved.value == h.record)
      && Main(input, sidecar, host, writable).calls == h.calls
  {
    MainRunsHandler(input, sidecar, host, writable);
  }

  /** `mount` never writes the record: every backend's mount fails after the table was updated in memory. */
  lemma MountNeverSaves(hostPath: string, guestPath: string, sidecar: Sidecar, host: Host, writable: bool)
    requires DiscoveryReady(InitialConfig(sidecar), host)
    ensures Main(["lovm", "mount", hostPath, guestPath], sidecar, host, writable).saved.None?
  {
    assert ParseArgs(["lovm", "mount", hostPath, guestPath]).command == "mount";
  }

  /** With one argument, `clone` runs the clone of the given source's backend on the record tagged with it. */
  lemma CloneGivenSource(source: string, config: Record, host: Host)
    requires source != ""
    ensures var kind := Engine.Identify(source);
      HandleClone([source], config, host) == Handled(
        Engine.Run(kind, config.(engine := Engine.Tag(kind)), Engine.CloneOp(source), host).outcome,
        Engine.Run(kind, config.(engine := Engine.Tag(kind)), Engine.CloneOp(source), host).record,
        Engine.Run(kind, config.(engine := Engine.Tag(kind)), Engine.CloneOp(source), host).calls)
  {
  }

  /**
    `clone <source>` works with the backend of the given source, whatever the
    record's own source selects, and tags the record with that backend.
   */
  lemma CloneUsesGivenSource(source: string, sidecar: Sidecar, host: Host, writable: bool)
    requires DiscoveryReady(InitialConfig(sidecar), host)
    requires source != "" && host.pwd.Some? && !sidecar.Unreadable?
    ensures var config := InitialConfig(sidecar);
      var kind := Engine.Identify(source);
      var s := Engine.Run(kind, config.(engine := Engine.Tag(kind)), Engine.CloneOp(source), host);
      && Main(["lovm", "clone", source], sidecar, host, writable).calls == s.calls
      && (Main(["lovm", "clone", source], sidecar, host, writable).saved.Some? <==> s.outcome.Ok? && writable)
      && (Main(["lovm", "clone", source], sidecar, host, writable).saved.Some? ==>
            Main(["lovm", "clone", source], sidecar, host, writable).saved.value.engine == Engine.Tag(kind))
  {
    var input := ["lovm", "clone", source];
    assert ParseArgs(input) == Arguments("clone", [source]);
    MainRunsHandler(input, sidecar, host, writable);
    CloneGivenSource(source, InitialConfig(sidecar), host);
  }
}
