/**
  Shared vocabulary of the lovm model: the machine record kept in the sidecar
  file, the errors the engines return, the outcome of one native tool call,
  and the string helpers the engines use to take clone sources and paths apart.
 */
module Core {

  datatype Option<+T> = None | Some(value: T)

  /** The machine record (`core.MachineConfig`). `mounts == None` is Go's nil map. */
  datatype Record = Record(
    path: string,
    mounts: Option<map<string, string>>,
    source: string,
    engine: string)

  /** The zero value `&core.MachineConfig{}`: what the program starts from when no sidecar exists. */
  const EmptyRecord: Record := Record("", None, "", "")

  type Argv = seq<string>

  datatype Error =
    | NoCloneSource                              // "clone a virtual machine first"
    | SourceConflict(asked: string, cloned: string)  // "... already cloned from ...; run delete first"
    | SnapshotPoweredOn                          // the snapshot to clone is running
    | SnapshotRequired                           // "failed to create snapshot required for cloning"
    | CommandFailed(argv: Argv)                  // non-zero exit of a native tool
    | FileSystem(operation: string)              // MkdirAll, Getwd or ReadFile failed
    | NotImplemented                             // core.ErrNotImplemented
    | LegacyNotImplemented                       // errNotImplemented of the older VMware backend
    | NoConfiguration                            // "no configuration found; you need to clone first"
    | UnrecognizedFormat                         // "unrecognized virtualization format; ..."
    | NotFound                                   // vmware.ErrNotFound
    | BadLeaseAddress(text: string)              // "failed parsing ip address: ..."
    | CloneSourceMissing                         // "clone source must be specified, ..."
    | TooManyArguments
    | MountArguments                             // "expected args <host path to mount> <target path in guest>"
    | UnrecognizedCommand(command: string)

  datatype Outcome = Ok | Failed(error: Error)

  datatype Result<+T> = Success(value: T) | Failure(error: Error)

  /** What running a native tool gave back: exit status zero, or a failure with its combined output. */
  datatype ToolResult = ToolOk | ToolError(output: string)

  /** The error a tool call is reported as when its output is not recognised. */
  function FromTool(argv: Argv, t: ToolResult): (o: Outcome)
    ensures o.Ok? <==> t.ToolOk?
    ensures o.Failed? ==> o.error == CommandFailed(argv)
  {
    if t.ToolOk? then Ok else Failed(CommandFailed(argv))
  }

  /** Result of one lifecycle call: the record afterwards, the error value, and the argv of every tool run, in order. */
  datatype Step = Step(record: Record, outcome: Outcome, calls: seq<Argv>)

  /** A step that made no calls, followed by `second`, is just `second`. */
  lemma AfterSilentStep(first: Step, second: Step, both: Step)
    requires first.calls == []
    requires both.record == second.record && both.outcome == second.outcome
    requires both.calls == first.calls + second.calls
    ensures both == second
  {
    assert both.calls == second.calls;
  }

  // ----- strings -----

  predicate IsPrefix(p: string, s: string) {
    |p| <= |s| && s[..|p|] == p
  }

  /** `strings.HasSuffix` */
  predicate HasSuffix(s: string, suffix: string) {
    |suffix| <= |s| && s[|s| - |suffix|..] == suffix
  }

  /** `bytes.Contains` / `strings.Contains` */
  predicate Contains(s: string, needle: string)
    decreases |s|
  {
    IsPrefix(needle, s) || (|s| > 0 && Contains(s[1..], needle))
  }

  lemma {:induction false} ContainsAt(s: string, needle: string, i: nat)
    requires i + |needle| <= |s| && s[i..i + |needle|] == needle
    ensures Contains(s, needle)
    decreases i
  {
    if i == 0 {
      assert s[..|needle|] == needle;
    } else {
      assert s[1..][i - 1..i - 1 + |needle|] == s[i..i + |needle|];
      ContainsAt(s[1..], needle, i - 1);
    }
  }

  function CountColons(s: string): nat {
    if |s| == 0 then 0 else (if s[0] == ':' then 1 else 0) + CountColons(s[1..])
  }

  /** `strings.Split(s, ":")[0]`: the text before the first colon (all of `s` if there is none). */
  function BeforeColon(s: string): (r: string)
    ensures IsPrefix(r, s) && ':' !in r
    ensures |r| < |s| ==> s[|r|] == ':'
  {
    if |s| == 0 then ""
    else if s[0] == ':' then ""
    else [s[0]] + BeforeColon(s[1..])
  }

  /** The text after the first colon (empty if there is none). */
  function AfterColon(s: string): (r: string)
    ensures ':' in s ==> s == BeforeColon(s) + ":" + r
    ensures ':' !in s ==> r == ""
  {
    if ':' in s then
      var b := BeforeColon(s);
      assert |b| < |s| by {
        var i :| 0 <= i < |s| && s[i] == ':';
        assert i >= |b|;
      }
      assert s == b + [s[|b|]] + s[|b| + 1..];
      s[|b| + 1..]
    else ""
  }

  /** The base of a clone source `base[:snapshot]`. */
  function SourceBase(s: string): string {
    BeforeColon(s)
  }

  /** `strings.Split(s, ":")[1]` when `s` holds a colon, otherwise "". */
  function SourceSnapshot(s: string): string {
    if ':' in s then BeforeColon(AfterColon(s)) else ""
  }

  /** The source as the engines write it back into the record: `base` or `base:snapshot`. */
  function QualifiedSource(base: string, snapshot: string): string {
    if snapshot == "" then base else base + ":" + snapshot
  }

  /** A source with at most one snapshot suffix, and a non-empty one when the colon is present. */
  predicate WellFormedSource(s: string) {
    CountColons(s) <= 1 && (|s| > 0 ==> s[|s| - 1] != ':')
  }

  lemma {:induction false} CountColonsSplit(a: string, b: string)
    ensures CountColons(a + b) == CountColons(a) + CountColons(b)
    decreases |a|
  {
    if |a| == 0 {
      assert a + b == b;
    } else {
      assert (a + b)[1..] == a[1..] + b;
      CountColonsSplit(a[1..], b);
    }
  }

  lemma {:induction false} CountColonsZero(s: string)
    ensures CountColons(s) == 0 <==> ':' !in s
    decreases |s|
  {
    if |s| > 0 {
      CountColonsZero(s[1..]);
      assert s == [s[0]] + s[1..];
    }
  }

  /** The first colon of a source is one of its colons; the rest are in the text after it. */
  lemma {:induction false} ColonsAfterFirst(s: string)
    requires ':' in s
    ensures CountColons(s) == 1 + CountColons(AfterColon(s))
  {
    var b := BeforeColon(s);
    var a := AfterColon(s);
    assert s == b + (":" + a);
    CountColonsZero(b);
    CountColonsSplit(b, ":" + a);
    CountColonsSplit(":", a);
    assert CountColons(":") == 1;
  }

  /**
    Writing a source back after splitting it reproduces it exactly when it
    carries at most one, non-empty, snapshot suffix.
   */
  lemma {:induction false} SourceRoundTrip(s: string)
    ensures QualifiedSource(SourceBase(s), SourceSnapshot(s)) == s <==> WellFormedSource(s)
  {
    var b := BeforeColon(s);
    if ':' !in s {
      CountColonsZero(s);
      assert b == s by { BeforeColonWhole(s); }
    } else {
      var a := AfterColon(s);
      assert s == b + ":" + a;
      ColonsAfterFirst(s);
      CountColonsZero(a);
      if ':' in a {
        RoundTripTwoColons(s);
      } else {
        assert BeforeColon(a) == a by { BeforeColonWhole(a); }
        if a == "" {
          assert s[|s| - 1] == ':';
        } else {
          assert s[|s| - 1] == a[|a| - 1];
        }
      }
    }
  }

  /** A source with a second colon is not written back as it was given: the text after that colon is lost. */
  lemma RoundTripTwoColons(s: string)
    requires ':' in s && ':' in AfterColon(s)
    ensures QualifiedSource(SourceBase(s), SourceSnapshot(s)) != s
  {
    var b := BeforeColon(s);
    var a := AfterColon(s);
    var n := BeforeColon(a);
    assert n != a;
    assert |n| < |a|;
    assert s == b + ":" + a;
    assert |QualifiedSource(b, n)| < |s|;
  }

  /** Splitting what the engines write back yields the base and snapshot they wrote. */
  lemma {:induction false} QualifiedSourceSplits(base: string, snapshot: string)
    requires ':' !in base && ':' !in snapshot
    ensures SourceBase(QualifiedSource(base, snapshot)) == base
    ensures SourceSnapshot(QualifiedSource(base, snapshot)) == snapshot
  {
    var q := QualifiedSource(base, snapshot);
    if snapshot == "" {
      BeforeColonWhole(base);
    } else {
      assert q == base + ":" + snapshot;
      BeforeColonPrefix(base, snapshot);
      assert AfterColon(q) == snapshot;
      BeforeColonWhole(snapshot);
    }
  }

  lemma {:induction false} BeforeColonPrefix(base: string, rest: string)
    requires ':' !in base
    ensures BeforeColon(base + ":" + rest) == base
    ensures AfterColon(base + ":" + rest) == rest
    decreases |base|
  {
    if |base| > 0 {
      assert (base + ":" + rest)[1..] == base[1..] + ":" + rest;
      BeforeColonPrefix(base[1..], rest);
      assert base == [base[0]] + base[1..];
    }
  }

  lemma {:induction false} BeforeColonWhole(s: string)
    requires ':' !in s
    ensures BeforeColon(s) == s
    decreases |s|
  {
    if |s| > 0 {
      assert ':' !in s[1..];
      BeforeColonWhole(s[1..]);
      assert s == [s[0]] + s[1..];
    }
  }

  // ----- paths (filepath.Split / filepath.Join on clean absolute paths) -----

  /** The last element of a slash-separated path (`filepath.Split`'s file part). */
  function BaseName(p: string): (r: string)
    ensures '/' !in r
    ensures HasSuffix(p, r)
    ensures |r| < |p| ==> p[|p| - |r| - 1] == '/'
  {
    if |p| == 0 then ""
    else if p[|p| - 1] == '/' then ""
    else
      var r := BaseName(p[..|p| - 1]) + [p[|p| - 1]];
      assert p[..|p| - 1][|p| - |r|..] + [p[|p| - 1]] == p[|p| - |r|..];
      r
  }

  /** The last element of a path ending in a slash-free `elem` that follows a separator (or nothing) is `elem`. */
  lemma {:induction false} BaseNameAfterSeparator(dir: string, elem: string)
    requires dir == "" || dir[|dir| - 1] == '/'
    requires '/' !in elem
    ensures BaseName(dir + elem) == elem
    decreases |elem|
  {
    if |elem| > 0 {
      var p := dir + elem;
      var front := elem[..|elem| - 1];
      assert p[..|p| - 1] == dir + front;
      assert '/' !in front;
      BaseNameAfterSeparator(dir, front);
      assert elem == front + [elem[|elem| - 1]];
    } else {
      assert dir + elem == dir;
    }
  }

  /**
    `filepath.Join(dir, elem)` for an already clean `dir` and a slash-free
    `elem`: empty elements are dropped, otherwise `elem` follows `dir`.
   */
  function JoinPath(dir: string, elem: string): (r: string)
    ensures elem == "" ==> r == dir
    ensures elem != "" ==> IsPrefix(dir, r) && HasSuffix(r, elem)
  {
    if elem == "" then dir
    else if dir == "" then elem
    else if dir[|dir| - 1] == '/' then dir + elem
    else dir + "/" + elem
  }

  /** A non-empty slash-free element joined to a directory is the last element of the result. */
  lemma JoinPathBaseName(dir: string, elem: string)
    requires elem != "" && '/' !in elem
    ensures BaseName(JoinPath(dir, elem)) == elem
  {
    if dir == "" {
      BaseNameAfterSeparator("", elem);
      assert "" + elem == elem;
    } else if dir[|dir| - 1] == '/' {
      BaseNameAfterSeparator(dir, elem);
    } else {
      BaseNameAfterSeparator(dir + "/", elem);
      assert dir + "/" + elem == (dir + "/") + elem;
    }
  }

  /** `<pwd>/.lovm`, the private working directory. */
  function WorkDir(pwd: string): (r: string)
    ensures IsPrefix(pwd, r) && BaseName(r) == ".lovm"
  {
    JoinPathBaseName(pwd, ".lovm");
    JoinPath(pwd, ".lovm")
  }

  /**
    `<pwd>/.lovm/<name>/<name><ext>` where `name` is the last element of
    `pwd`: the file is named after the directory, and it lies in a directory
    of that name inside the working directory.
   */
  function TargetPath(pwd: string, ext: string): (r: string)
    requires ext != ""
    ensures HasSuffix(r, ext)
    ensures pwd != "" && pwd[|pwd| - 1] != '/' ==>
      r == pwd + "/" + ".lovm" + "/" + BaseName(pwd) + "/" + (BaseName(pwd) + ext)
  {
    var name := BaseName(pwd);
    var work := WorkDir(pwd);
    var r := JoinPath(JoinPath(work, name), name + ext);
    assert pwd != "" && pwd[|pwd| - 1] != '/' ==>
      r == pwd + "/" + ".lovm" + "/" + name + "/" + (name + ext) by {
      if pwd != "" && pwd[|pwd| - 1] != '/' {
        TargetPathJoins(pwd, name, name + ext);
      }
    }
    r
  }

  /** Joining to a directory that does not end in a slash inserts exactly one. */
  lemma JoinPathInsertsSlash(dir: string, elem: string)
    requires dir != "" && dir[|dir| - 1] != '/' && elem != ""
    ensures JoinPath(dir, elem) == dir + "/" + elem
  {
  }

  /** The three joins of the target when the working directory does not end in a slash. */
  lemma TargetPathJoins(pwd: string, name: string, file: string)
    requires pwd != "" && pwd[|pwd| - 1] != '/'
    requires name == BaseName(pwd) && file != ""
    ensures JoinPath(JoinPath(WorkDir(pwd), name), file) == pwd + "/" + ".lovm" + "/" + name + "/" + file
  {
    var work := pwd + "/" + ".lovm";
    JoinPathInsertsSlash(pwd, ".lovm");
    assert WorkDir(pwd) == work;
    assert work[|work| - 1] == 'm';
    assert name != "" by {
      assert BaseName(pwd) == BaseName(pwd[..|pwd| - 1]) + [pwd[|pwd| - 1]];
    }
    var dir := work + "/" + name;
    JoinPathInsertsSlash(work, name);
    assert JoinPath(WorkDir(pwd), name) == dir;
    assert dir[|dir| - 1] == name[|name| - 1];
    assert name[|name| - 1] in name;
    JoinPathInsertsSlash(dir, file);
    assert JoinPath(dir, file) == dir + "/" + file;
  }

  /** The clone's file is named after the working directory, with the engine's extension. */
  lemma TargetPathBaseName(pwd: string, ext: string)
    requires ext != "" && '/' !in ext
    ensures BaseName(TargetPath(pwd, ext)) == BaseName(pwd) + ext
  {
    var name := BaseName(pwd);
    var dir := JoinPath(WorkDir(pwd), name);
    JoinPathBaseName(dir, name + ext);
  }
}
