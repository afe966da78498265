/**
  Building the `ssh` command line: the user's arguments are split into the
  flags and options that must precede the host and the remote command that
  must follow it, and the guest's address is put between the two.
 */
module Ssh {

  /** Letters of `ssh` flags that take no argument. */
  const BoolFlags: string := "46AaCfGgKkMNnqsTtVvXxYy"

  /** Letters of `ssh` options that take one argument. */
  const OptionFlags: string := "bcDEeFIiJLlmooOopQrRsSttWw"

  predicate BoolLetter(c: char) {
    c in BoolFlags
  }

  predicate OptionLetter(c: char) {
    c in OptionFlags
  }

  /** One or more flag letters after a dash, all of them argument-free: `-4`, `-A6`. */
  predicate IsBoolFlags(arg: string) {
    |arg| >= 2 && arg[0] == '-' && forall i :: 1 <= i < |arg| ==> BoolLetter(arg[i])
  }

  /** Exactly one option letter after a dash: `-l`, `-i`. */
  predicate IsOptionFlag(arg: string) {
    |arg| == 2 && arg[0] == '-' && OptionLetter(arg[1])
  }

  /** Whether `c` is one of `letters`, by the scan the program performs. */
  method ScanLetters(c: char, letters: string) returns (found: bool)
    ensures found <==> c in letters
  {
    found := false;
    var k := 0;
    while k < |letters|
      invariant 0 <= k <= |letters|
      invariant found <==> c in letters[..k]
    {
      if c == letters[k] {
        found := true;
      }
      k := k + 1;
    }
    assert letters[..k] == letters;
  }

  /** The program's check for boolean flags: every byte after the dash must be a boolean flag letter. */
  method CheckBoolFlags(arg: string) returns (r: bool)
    ensures r <==> IsBoolFlags(arg)
  {
    if |arg| < 2 || arg[0] != '-' {
      return false;
    }
    var i := 1;
    while i < |arg|
      invariant 1 <= i <= |arg|
      invariant forall j :: 1 <= j < i ==> BoolLetter(arg[j])
    {
      var found := ScanLetters(arg[i], BoolFlags);
      if !found {
        return false;
      }
      i := i + 1;
    }
    return true;
  }

  /** The program's check for an option flag: a dash and a single option letter. */
  method CheckOptionFlag(arg: string) returns (r: bool)
    ensures r <==> IsOptionFlag(arg)
  {
    if |arg| != 2 || arg[0] != '-' {
      return false;
    }
    r := ScanLetters(arg[1], OptionFlags);
  }

  /**
    A run of arguments read as the program reads them, from the left: boolean
    flags one at a time, and an option flag (that is not also a boolean flag)
    together with the argument after it.
   */
  predicate FlagPrefix(s: seq<string>)
    decreases |s|
  {
    if |s| == 0 then true
    else if IsBoolFlags(s[0]) then FlagPrefix(s[1..])
    else IsOptionFlag(s[0]) && |s| >= 2 && FlagPrefix(s[2..])
  }

  /** Where the remote command starts: not a boolean flag, and not an option flag with something after it. */
  predicate StartsRemote(r: seq<string>) {
    |r| == 0 || (!IsBoolFlags(r[0]) && !(IsOptionFlag(r[0]) && |r| >= 2))
  }

  datatype Split = Split(ssh: seq<string>, remote: seq<string>)

  /**
    Where the program's loop stops reading flags: past boolean flags one at a
    time and option flags together with their argument; an option flag in last
    position stops it.
   */
  function SplitIndex(args: seq<string>): (k: nat)
    ensures k <= |args|
    decreases |args|
  {
    if |args| == 0 then 0
    else if IsBoolFlags(args[0]) then 1 + SplitIndex(args[1..])
    else if IsOptionFlag(args[0]) && |args| > 1 then 2 + SplitIndex(args[2..])
    else 0
  }

  /** The loop stops after a run of flags, at a place where the remote command can start. */
  lemma {:induction false} SplitIndexStops(args: seq<string>)
    ensures FlagPrefix(args[..SplitIndex(args)])
    ensures StartsRemote(args[SplitIndex(args)..])
    decreases |args|
  {
    var k := SplitIndex(args);
    if |args| > 0 && IsBoolFlags(args[0]) {
      var tail := args[1..];
      SplitIndexStops(tail);
      var j := SplitIndex(tail);
      assert k == 1 + j;
      var flags := args[..k];
      assert flags[0] == args[0] && flags[1..] == tail[..j];
      assert FlagPrefix(flags);
      assert args[k..] == tail[j..];
    } else if |args| > 0 && IsOptionFlag(args[0]) && |args| > 1 {
      var tail := args[2..];
      SplitIndexStops(tail);
      var j := SplitIndex(tail);
      assert k == 2 + j;
      var flags := args[..k];
      assert flags[0] == args[0] && flags[2..] == tail[..j];
      assert FlagPrefix(flags);
      assert args[k..] == tail[j..];
    } else {
      assert k == 0 && args[k..] == args;
    }
  }

  /**
    `SplitSSHRemoteCommands`: the longest run of flags and options, then
    everything else. Nothing is dropped or reordered, and an option flag in
    last position begins the remote command instead of taking an argument.
   */
  function SplitRemoteCommands(args: seq<string>): (r: Split)
    ensures r.ssh + r.remote == args
    ensures FlagPrefix(r.ssh)
    ensures StartsRemote(r.remote)
  {
    var k := SplitIndex(args);
    SplitIndexStops(args);
    assert args[..k] + args[k..] == args;
    Split(args[..k], args[k..])
  }

  /**
    The loop's stopping point is determined by the two properties: any index
    where a flag run ends and the remote command can start is the one the
    program finds.
   */
  lemma {:induction false} SplitIndexUnique(args: seq<string>, k: nat)
    requires k <= |args|
    requires FlagPrefix(args[..k])
    requires StartsRemote(args[k..])
    ensures SplitIndex(args) == k
    decreases |args|, 1
  {
    if k > 0 {
      var flags := args[..k];
      assert flags[0] == args[0];
      if IsBoolFlags(args[0]) {
        SkipFlags(args, k, 1);
      } else {
        SkipFlags(args, k, 2);
      }
    }
  }

  /** One step of the uniqueness proof: the first `n` arguments are a flag or an option with its argument. */
  lemma {:induction false} SkipFlags(args: seq<string>, k: nat, n: nat)
    requires 0 < n <= k <= |args|
    requires n == (if IsBoolFlags(args[0]) then 1 else 2)
    requires n == 2 ==> IsOptionFlag(args[0])
    requires FlagPrefix(args[n..k])
    requires StartsRemote(args[k..])
    ensures SplitIndex(args) == k
    decreases |args|, 0
  {
    assert args[n..k] == args[n..][..k - n];
    assert args[k..] == args[n..][k - n..];
    SplitIndexUnique(args[n..], k - n);
  }

  /**
    The three properties of the split determine it: any division of the
    arguments into a flag run and a remote part that starts where the flags
    stop is the one the program computes.
   */
  lemma SplitUnique(args: seq<string>, ssh: seq<string>, remote: seq<string>)
    requires ssh + remote == args
    requires FlagPrefix(ssh)
    requires StartsRemote(remote)
    ensures SplitRemoteCommands(args) == Split(ssh, remote)
  {
    assert args[..|ssh|] == ssh && args[|ssh|..] == remote;
    SplitIndexUnique(args, |ssh|);
  }

  /** Arguments that start the remote command are all remote. */
  lemma SplitAtRemote(args: seq<string>)
    requires StartsRemote(args)
    ensures SplitRemoteCommands(args) == Split([], args)
  {
    assert SplitIndex(args) == 0;
    assert args[..0] == [] && args[0..] == args;
  }

  /** A boolean flag in front joins the ssh part and leaves the remote part alone. */
  lemma SplitAfterBoolFlag(flag: string, tail: seq<string>)
    requires IsBoolFlags(flag)
    ensures SplitRemoteCommands([flag] + tail) ==
      Split([flag] + SplitRemoteCommands(tail).ssh, SplitRemoteCommands(tail).remote)
  {
    var args := [flag] + tail;
    assert args[0] == flag && args[1..] == tail;
    var j := SplitIndex(tail);
    assert SplitIndex(args) == 1 + j;
    assert args[..1 + j] == [flag] + tail[..j];
    assert args[1 + j..] == tail[j..];
  }

  /** One boolean flag, then the remote command: the flag is the whole ssh part. */
  lemma BoolFlagThenRemote(flag: string, next: string, rest: seq<string>)
    requires IsBoolFlags(flag)
    requires StartsRemote([next] + rest)
    ensures SplitRemoteCommands([flag, next] + rest) == Split([flag], [next] + rest)
  {
    var args := [flag, next] + rest;
    assert args[0] == flag && args[1..] == [next] + rest;
    assert SplitIndex([next] + rest) == 0;
    assert SplitIndex(args) == 1;
    assert args[..1] == [flag];
  }

  /** `-s` and `-t` are boolean flags as well as option letters: they never take the next argument. */
  lemma BoolFlagWins(flag: string, next: string, rest: seq<string>)
    requires IsBoolFlags(flag) && IsOptionFlag(flag)
    requires !IsBoolFlags(next) && !IsOptionFlag(next)
    ensures SplitRemoteCommands([flag, next] + rest) == Split([flag], [next] + rest)
  {
    var tail := [next] + rest;
    assert StartsRemote(tail) by {
      assert tail[0] == next;
    }
    BoolFlagThenRemote(flag, next, rest);
  }

  /**
    `BuildSSHCommand`: `ssh`, the flags, the address, the remote command. The
    address sits exactly where the flags stop; removing it gives back `ssh`
    followed by the user's arguments unchanged.
   */
  function BuildCommand(args: seq<string>, ip: string): (argv: seq<string>)
    ensures |argv| == |args| + 2 && argv[0] == "ssh"
    ensures exists k :: 0 <= k <= |args| && argv == ["ssh"] + args[..k] + [ip] + args[k..]
                                         && FlagPrefix(args[..k]) && StartsRemote(args[k..])
  {
    var split := SplitRemoteCommands(args);
    var k := |split.ssh|;
    assert args[..k] == split.ssh && args[k..] == split.remote;
    ["ssh"] + split.ssh + [ip] + split.remote
  }

  // ----- the repository's test tables -----

  lemma BoolFlagExamples()
    ensures !IsBoolFlags("a") && IsBoolFlags("-a") && IsBoolFlags("-Aa")
    ensures IsBoolFlags("-MN6XY") && !IsBoolFlags("MN6XY")
  {
  }

  lemma OptionLettersAreNotBoolFlags()
    ensures !IsBoolFlags("-b") && !IsBoolFlags("-c")
  {
    assert !BoolLetter("-b"[1]);
    assert !BoolLetter("-c"[1]);
  }

  lemma OptionFlagExamples()
    ensures IsOptionFlag("-b") && IsOptionFlag("-c")
  {
    assert OptionLetter("-b"[1]);
    assert OptionLetter("-c"[1]);
  }

  lemma NotOptionFlagExamples()
    ensures !IsOptionFlag("c") && !IsOptionFlag("-bc") && !IsOptionFlag("-q")
  {
    assert !OptionLetter("-q"[1]);
  }

  lemma SplitNothing()
    ensures SplitRemoteCommands([]) == Split([], [])
  {
  }

  lemma SplitOnlyRemote()
    ensures SplitRemoteCommands(["sudo", "shutdown", "-r", "now"]) == Split([], ["sudo", "shutdown", "-r", "now"])
  {
    assert "sudo"[0] != '-';
    SplitUnique(["sudo", "shutdown", "-r", "now"], [], ["sudo", "shutdown", "-r", "now"]);
  }

  lemma SplitOnlyOption()
    ensures SplitRemoteCommands(["-i", "~/.ssh/id_rsa"]) == Split(["-i", "~/.ssh/id_rsa"], [])
  {
    assert !BoolLetter("-i"[1]) && OptionLetter("-i"[1]);
    SplitUnique(["-i", "~/.ssh/id_rsa"], ["-i", "~/.ssh/id_rsa"], []);
  }

  lemma SplitOptionThenRemote()
    ensures SplitRemoteCommands(["-l", "root", "shutdown", "-r", "now"]) == Split(["-l", "root"], ["shutdown", "-r", "now"])
  {
    assert !BoolLetter("-l"[1]) && OptionLetter("-l"[1]);
    assert "shutdown"[0] != '-';
    SplitUnique(["-l", "root", "shutdown", "-r", "now"], ["-l", "root"], ["shutdown", "-r", "now"]);
  }

  lemma BuildWithLogin()
    ensures BuildCommand(["-l", "root"], "192.168.1.80") == ["ssh", "-l", "root", "192.168.1.80"]
  {
    assert !BoolLetter("-l"[1]);
    SplitUnique(["-l", "root"], ["-l", "root"], []);
  }

  lemma BuildWithRemoteCommand()
    ensures BuildCommand(["shutdown", "-h", "now"], "192.168.1.80") == ["ssh", "192.168.1.80", "shutdown", "-h", "now"]
  {
    assert "shutdown"[0] != '-';
    SplitUnique(["shutdown", "-h", "now"], [], ["shutdown", "-h", "now"]);
  }

  lemma BuildWithBoth()
    ensures BuildCommand(["-l", "root", "shutdown", "-h", "now"], "192.168.1.80")
         == ["ssh", "-l", "root", "192.168.1.80", "shutdown", "-h", "now"]
  {
    assert !BoolLetter("-l"[1]) && "shutdown"[0] != '-';
    SplitUnique(["-l", "root", "shutdown", "-h", "now"], ["-l", "root"], ["shutdown", "-h", "now"]);
  }
}
