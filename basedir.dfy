/**
 * Where an OctoPrint instance keeps its data (`get_octoprint_basedir`).
 *
 * The base directory is looked up, in a fixed order, in the process's own
 * arguments, the `OCTOPRINT_BASEDIR` environment variable, the command line the
 * operating system reports for the process, and the default `~/.octoprint`.
 * The host is a value: the arguments, the environment, the reported command line
 * (absent when asking for it failed) and the set of paths that exist.
 */
module Basedir {
  import opened Options

  const Flag: string := "--basedir"
  const FlagEq: string := "--basedir="
  const EnvKey: string := "OCTOPRINT_BASEDIR"

  datatype Host = Host(
    argv: seq<string>,
    environ: map<string, string>,
    /** What the process table reports as this process's command line; None when that call raised. */
    cmdline: Option<seq<string>>,
    /** `~/.octoprint` with the user's home directory substituted. */
    defaultPath: string,
    existing: set<string>)

  predicate HasPrefix(s: string, p: string)
  {
    |p| <= |s| && s[..|p|] == p
  }

  /** Position of the first `c` in `s` at or after `from`. */
  function IndexOf(s: string, c: char, from: nat): (r: Option<nat>)
    requires from <= |s|
    ensures r.Some? ==> from <= r.value < |s| && s[r.value] == c
    ensures r.Some? ==> forall k :: from <= k < r.value ==> s[k] != c
    ensures r.None? ==> forall k :: from <= k < |s| ==> s[k] != c
    decreases |s| - from
  {
    if from == |s| then None
    else if s[from] == c then Some(from)
    else IndexOf(s, c, from + 1)
  }

  /** Python's `s.split(sep, 1)` for a one-character separator. */
  function SplitOnce(s: string, sep: char): (parts: seq<string>)
    ensures 1 <= |parts| <= 2
    ensures |parts| == 2 <==> sep in s
    ensures |parts| == 2 ==> s == parts[0] + [sep] + parts[1] && sep !in parts[0]
    ensures |parts| == 1 ==> parts[0] == s
  {
    match IndexOf(s, sep, 0)
    case None => [s]
    case Some(k) =>
      assert s == s[..k] + [sep] + s[k + 1..];
      [s[..k], s[k + 1..]]
  }

  /** An argument `--basedir=V` splits on its first `=`, so what follows that `=` is V, whatever it holds. */
  lemma {:induction false} SplitFlagEq(arg: string)
    requires HasPrefix(arg, FlagEq)
    ensures SplitOnce(arg, '=') == [Flag, arg[|FlagEq|..]]
  {
    var parts := SplitOnce(arg, '=');
    assert arg[|FlagEq| - 1] == '=';
    assert '=' in arg;
    assert |parts| == 2;
    // the first '=' of the argument is the one that ends the flag
    assert forall k :: 0 <= k < |Flag| ==> arg[k] == Flag[k] && arg[k] != '=';
    assert parts[0] == arg[..|Flag|] == Flag;
  }

  /** Argument `i` names the base directory: `--basedir` with a following argument, or `--basedir=...`. */
  predicate MatchAt(args: seq<string>, i: nat)
    requires i < |args|
  {
    (args[i] == Flag && i + 1 < |args|) || HasPrefix(args[i], FlagEq)
  }

  /** The base directory argument `i` names. */
  function ValueAt(args: seq<string>, i: nat): string
    requires i < |args| && MatchAt(args, i)
  {
    if args[i] == Flag && i + 1 < |args| then args[i + 1]
    else
      assert args[i][|FlagEq| - 1] == '=';
      SplitOnce(args[i], '=')[1]
  }

  /** The loop of janus.py over `enumerate(args)`, resumed at position `i`. */
  function ScanFrom(args: seq<string>, i: nat): (r: Option<string>)
    requires i <= |args|
    decreases |args| - i
  {
    if i == |args| then None
    else if args[i] == Flag && i + 1 < |args| then Some(args[i + 1])
    else if HasPrefix(args[i], FlagEq) then
      assert '=' in args[i] by { assert args[i][|FlagEq| - 1] == '='; }
      Some(SplitOnce(args[i], '=')[1])
    else ScanFrom(args, i + 1)
  }

  /**
   * The base directory named in an argument list, if any: the value of the
   * first argument that names one, and nothing exactly when no argument does.
   */
  function Scan(args: seq<string>): (r: Option<string>)
    ensures r.None? <==> forall j :: 0 <= j < |args| ==> !MatchAt(args, j)
    ensures r.Some? ==>
      exists j :: 0 <= j < |args| && MatchAt(args, j) && r.value == ValueAt(args, j)
        && forall k :: 0 <= k < j ==> !MatchAt(args, k)
  {
    ScanFromFirstMatch(args, 0);
    ScanFrom(args, 0)
  }

  lemma {:induction false} ScanFromFirstMatch(args: seq<string>, i: nat)
    requires i <= |args|
    ensures ScanFrom(args, i).None? <==> forall j :: i <= j < |args| ==> !MatchAt(args, j)
    ensures ScanFrom(args, i).Some? ==>
      exists j :: i <= j < |args| && MatchAt(args, j) && ScanFrom(args, i).value == ValueAt(args, j)
        && forall k :: i <= k < j ==> !MatchAt(args, k)
    decreases |args| - i
  {
    if i < |args| && !MatchAt(args, i) {
      ScanFromFirstMatch(args, i + 1);
      var r := ScanFrom(args, i);
      if r.Some? {
        var j :| i + 1 <= j < |args| && MatchAt(args, j) && r.value == ValueAt(args, j)
          && forall k :: i + 1 <= k < j ==> !MatchAt(args, k);
        assert forall k :: i <= k < j ==> !MatchAt(args, k);
      }
    } else if i < |args| {
      assert ScanFrom(args, i).value == ValueAt(args, i);
    }
  }

  /** `--basedir X` yields X, whatever X is and whatever follows it. */
  lemma ScanFlagThenValue(v: string, rest: seq<string>)
    ensures Scan([Flag, v] + rest) == Some(v)
  {
  }

  /** `--basedir=V` yields V, everything after the first `=` (so `--basedir=a=b` gives `a=b`, `--basedir=` gives ""). */
  lemma ScanFlagEq(v: string, rest: seq<string>)
    ensures Scan([FlagEq + v] + rest) == Some(v)
  {
    var args := [FlagEq + v] + rest;
    assert HasPrefix(args[0], FlagEq);
    SplitFlagEq(args[0]);
    assert args[0][|FlagEq|..] == v;
  }

  lemma {:induction false} ScanFromShift(a: string, rest: seq<string>, i: nat)
    requires i <= |rest|
    requires a != Flag && !HasPrefix(a, FlagEq)
    ensures ScanFrom([a] + rest, i + 1) == ScanFrom(rest, i)
    decreases |rest| - i
  {
    var args := [a] + rest;
    if i < |rest| {
      assert args[i + 1] == rest[i];
      ScanFromShift(a, rest, i + 1);
    }
  }

  /** An argument that names nothing is passed over. */
  lemma ScanSkips(a: string, rest: seq<string>)
    requires a != Flag && !HasPrefix(a, FlagEq)
    ensures Scan([a] + rest) == Scan(rest)
  {
    ScanFromShift(a, rest, 0);
  }

  lemma {:induction false} ScanFromExtend(args: seq<string>, more: seq<string>, i: nat)
    requires i <= |args|
    requires ScanFrom(args, i).Some?
    ensures ScanFrom(args + more, i) == ScanFrom(args, i)
    decreases |args| - i
  {
    var all := args + more;
    assert all[i] == args[i];
    if i + 1 < |args| {
      assert all[i + 1] == args[i + 1];
    }
    if !(args[i] == Flag && i + 1 < |args|) && !HasPrefix(args[i], FlagEq) {
      ScanFromExtend(args, more, i + 1);
    }
  }

  /** The first match wins: arguments after it cannot change the result. */
  lemma ScanFirstMatchWins(args: seq<string>, more: seq<string>)
    requires Scan(args).Some?
    ensures Scan(args + more) == Scan(args)
  {
    ScanFromExtend(args, more, 0);
  }

  lemma {:induction false} ScanFromDangling(args: seq<string>, i: nat)
    requires i <= |args|
    requires args == [] || args[|args| - 1] != Flag
    ensures ScanFrom(args + [Flag], i) == ScanFrom(args, i)
    decreases |args| - i
  {
    var all := args + [Flag];
    if i == |args| {
      assert all[i] == Flag;
      assert !HasPrefix(Flag, FlagEq);
    } else {
      assert all[i] == args[i];
      if i + 1 < |args| {
        assert all[i + 1] == args[i + 1];
      }
      ScanFromDangling(args, i + 1);
    }
  }

  /** A trailing `--basedir` with no value after it matches nothing, and the scan goes on as without it. */
  lemma ScanDanglingFlag(args: seq<string>)
    requires args == [] || args[|args| - 1] != Flag
    ensures Scan(args + [Flag]) == Scan(args)
  {
    ScanFromDangling(args, 0);
  }

  /** `os.environ.get('OCTOPRINT_BASEDIR', '')`. */
  function EnvBasedir(h: Host): string
  {
    if EnvKey in h.environ then h.environ[EnvKey] else ""
  }

  /**
   * `get_octoprint_basedir`: the value of the first source, in the order
   * arguments, non-empty environment variable, reported command line, existing
   * default path, that has one; "" when none has.
   */
  function GetOctoprintBasedir(h: Host): (r: string)
    ensures r == FirstSome(Sources(h)).GetOr("")
  {
    var s := Sources(h);
    assert s[1..][1..][1..][1..] == [];
    assert FirstSome(s[1..][1..][1..]) == s[3];
    assert FirstSome(s[1..][1..]) == if s[2].Some? then s[2] else s[3];
    var fromArgv := Scan(h.argv);
    if fromArgv.Some? then fromArgv.value
    else if EnvBasedir(h) != "" then EnvBasedir(h)
    else
      var fromCmdline := if h.cmdline.Some? then Scan(h.cmdline.value) else None;
      if fromCmdline.Some? then fromCmdline.value
      else if h.defaultPath in h.existing then h.defaultPath
      else ""
  }

  /** The first source that yields a value. */
  function FirstSome(sources: seq<Option<string>>): (r: Option<string>)
    ensures r.None? <==> forall i :: 0 <= i < |sources| ==> sources[i].None?
    ensures r.Some? ==>
      exists i :: 0 <= i < |sources| && sources[i] == r && forall j :: 0 <= j < i ==> sources[j].None?
  {
    if sources == [] then None
    else if sources[0].Some? then sources[0]
    else
      var r := FirstSome(sources[1..]);
      assert r.Some? ==>
        exists i :: 1 <= i < |sources| && sources[i] == r && forall j :: 0 <= j < i ==> sources[j].None? by {
        if r.Some? {
          var i :| 0 <= i < |sources[1..]| && sources[1..][i] == r
            && forall j :: 0 <= j < i ==> sources[1..][j].None?;
          assert sources[i + 1] == r;
        }
      }
      r
  }

  /** The four sources of a base directory, in the order they are consulted. */
  function Sources(h: Host): (s: seq<Option<string>>)
    ensures |s| == 4
  {
    [ Scan(h.argv),
      if EnvBasedir(h) != "" then Some(EnvBasedir(h)) else None,
      if h.cmdline.Some? then Scan(h.cmdline.value) else None,
      if h.defaultPath in h.existing then Some(h.defaultPath) else None ]
  }

  /** An argument naming the base directory decides it, even when it names the empty string. */
  lemma ArgvWins(h: Host)
    requires Scan(h.argv).Some?
    ensures GetOctoprintBasedir(h) == Scan(h.argv).value
  {
  }

  /**
   * A `--basedir=` that is the first argument naming a base directory, wherever
   * it stands, gives "" and does not fall through to the environment.
   */
  lemma EmptyFlagValueStops(h: Host, i: nat)
    requires i < |h.argv| && h.argv[i] == FlagEq
    requires forall j :: 0 <= j < i ==> !MatchAt(h.argv, j)
    ensures GetOctoprintBasedir(h) == ""
  {
    assert MatchAt(h.argv, i);
    var r := Scan(h.argv);
    var j :| 0 <= j < |h.argv| && MatchAt(h.argv, j) && r.value == ValueAt(h.argv, j)
      && forall k :: 0 <= k < j ==> !MatchAt(h.argv, k);
    assert j == i;
    SplitFlagEq(h.argv[i]);
  }

  /** An empty `OCTOPRINT_BASEDIR` is skipped exactly as an unset one is. */
  lemma EmptyEnvSkipped(h: Host)
    ensures GetOctoprintBasedir(h.(environ := h.environ[EnvKey := ""]))
         == GetOctoprintBasedir(h.(environ := h.environ - {EnvKey}))
  {
  }

  /** Without a base directory in the arguments, a non-empty `OCTOPRINT_BASEDIR` decides it. */
  lemma EnvBeforeCmdline(h: Host)
    requires Scan(h.argv).None? && EnvBasedir(h) != ""
    ensures GetOctoprintBasedir(h) == EnvBasedir(h)
  {
  }

  /** "" results only when no source yields anything, or a source yields "" itself. */
  lemma EmptyBasedir(h: Host)
    requires GetOctoprintBasedir(h) == ""
    ensures Scan(h.argv) == Some("")
      || (Scan(h.argv).None? && EnvBasedir(h) == ""
          && ((h.cmdline.Some? && Scan(h.cmdline.value) == Some(""))
              || ((h.cmdline.None? || Scan(h.cmdline.value).None?)
                  && (h.defaultPath !in h.existing || h.defaultPath == ""))))
  {
  }
}
