/**
  The second command-line front end. It registers the same handlers in a
  table given to an external dispatcher, which also answers help, version and
  unknown commands itself. After the dispatcher returns without error the
  record is written, unless it is still the zero record.
 */
module Commands {
  import opened Core
  import opened Environment
  import Cli

  /** What the dispatcher did: run one registered handler, or answer by itself with some error value. */
  datatype Invocation = Handler(name: string, args: seq<string>) | Builtin(outcome: Outcome)

  /**
    `Main`: the handler's record is written exactly when the dispatcher
    returned no error and the record differs from the zero record, so help in
    a directory without a sidecar file leaves no file behind.
   */
  function Main(invocation: Invocation, sidecar: Cli.Sidecar, host: Host, writable: bool): (c: Cli.Completion)
    requires invocation.Handler? ==> invocation.name in Cli.HandlerNames
    requires Cli.DiscoveryReady(Cli.InitialConfig(sidecar), host)
    ensures c.saved.Some? ==> c.outcome.Ok? && c.saved.value != EmptyRecord
    ensures host.pwd.None? || sidecar.Unreadable? ==> c.outcome.Failed? && c.saved.None? && c.calls == []
    ensures invocation.Builtin? ==> c.calls == []
  {
    if host.pwd.None? then Cli.Completion(Failed(FileSystem("getwd")), None, [])
    else if sidecar.Unreadable? then Cli.Completion(Failed(FileSystem("read machine.lovm")), None, [])
    else
      var config := Cli.InitialConfig(sidecar);
      var h := match invocation
        case Handler(name, args) => Cli.Handle(name, args, config, host)
        case Builtin(outcome) => Cli.Handled(outcome, config, []);
      if h.outcome.Failed? then Cli.Completion(h.outcome, None, h.calls)
      else if h.record == EmptyRecord then Cli.Completion(Ok, None, h.calls)
      else Cli.Save(h, writable)
  }

  /**
    The save guard, both ways: for a handler that succeeded, the record is
    written exactly when it is not the zero record and the file can be written.
   */
  lemma SaveGuard(invocation: Invocation, sidecar: Cli.Sidecar, host: Host, writable: bool)
    requires invocation.Handler? && invocation.name in Cli.HandlerNames
    requires Cli.DiscoveryReady(Cli.InitialConfig(sidecar), host)
    requires host.pwd.Some? && !sidecar.Unreadable?
    ensures var h := Cli.Handle(invocation.name, invocation.args, Cli.InitialConfig(sidecar), host);
      && (Main(invocation, sidecar, host, writable).saved.Some? <==> h.outcome.Ok? && h.record != EmptyRecord && writable)
      && (Main(invocation, sidecar, host, writable).saved.Some? ==> Main(invocation, sidecar, host, writable).saved.value == h.record)
  {
  }

  /** Help, version and similar answers in a directory without a sidecar file write nothing. */
  lemma FreshBuiltinWritesNothing(outcome: Outcome, host: Host, writable: bool)
    requires Cli.DiscoveryReady(EmptyRecord, host)
    ensures Main(Builtin(outcome), Cli.Missing, host, writable).saved.None?
  {
  }

  /**
    Unlike the first front end, a successful builtin answer re-writes an
    existing non-zero record unchanged.
   */
  lemma BuiltinRewritesExisting(rec: Record, host: Host)
    requires rec != EmptyRecord
    requires Cli.DiscoveryReady(rec, host)
    requires host.pwd.Some?
    ensures Main(Builtin(Ok), Cli.Loaded(rec), host, true).saved == Some(rec)
  {
  }

  /**
    For a registered command both front ends run the same handler, the same
    tools, and write the same record, except that this one skips writing the
    zero record.
   */
  lemma FrontEndsAgree(command: string, args: seq<string>, sidecar: Cli.Sidecar, host: Host, writable: bool)
    requires command in Cli.HandlerNames
    requires Cli.DiscoveryReady(Cli.InitialConfig(sidecar), host)
    ensures var first := Cli.Main(["lovm", command] + args, sidecar, host, writable);
      var second := Main(Handler(command, args), sidecar, host, writable);
      && first.calls == second.calls
      && (second.saved.Some? ==> first.saved == second.saved)
      && (first.saved.Some? && first.saved.value != EmptyRecord ==> first.saved == second.saved)
  {
    var input := ["lovm", command] + args;
    assert Cli.ParseArgs(input) == Cli.Arguments(command, args) by {
      assert input[1] == command;
      if |input| > 2 {
        assert input[2..] == args;
      }
    }
    if host.pwd.Some? && !sidecar.Unreadable? {
      Cli.MainRunsHandler(input, sidecar, host, writable);
      var h := Cli.Handle(command, args, Cli.InitialConfig(sidecar), host);
      assert Main(Handler(command, args), sidecar, host, writable) ==
        if h.outcome.Failed? then Cli.Completion(h.outcome, None, h.calls)
        else if h.record == EmptyRecord then Cli.Completion(Ok, None, h.calls)
        else Cli.Save(h, writable);
    }
  }
}
