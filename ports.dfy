/**
 * Per-instance Janus ports (`get_instance_port_offset`, `calculate_janus_ports`
 * and the module-level WS port, admin port and PID file path of janus.py).
 *
 * Each OctoPrint instance hashes its base directory into one of ten slots, twenty
 * ports apart, above the Janus base port. From that slot it walks up to five
 * candidate ports and takes the first whose PID file is absent, names a process
 * that is no longer running, or cannot be read as a number; it deletes that one
 * stale file if it can. When all five candidates belong to live processes it
 * falls back to its slot's base port.
 *
 * The files under /tmp are a map from path to PID file, the process table a set
 * of running process ids, and SHA-256 (its first sixteen hex digits, read as a
 * number) a function `sha` the model knows nothing about.
 */
module Ports {
  import Decimal
  import Basedir
  import opened Options

  const JanusBasePort: nat := 17730
  const JanusPortGap: nat := 20
  const Slots: nat := 10
  /** `range(5)`: how many port ranges are tried. */
  const Attempts: nat := 5

  const PidPrefix: string := "/tmp/obico-janus-"
  const PidSuffix: string := ".pid"

  /** `f'/tmp/obico-janus-{port}.pid'`. */
  function PidFilePath(port: nat): string
  {
    PidPrefix + Decimal.Render(port) + PidSuffix
  }

  /** The port a PID file path names: its digits between the prefix and the suffix, if it has that form. */
  function PortOfPidFile(path: string): Option<nat>
  {
    if |path| > |PidPrefix| + |PidSuffix|
       && path[..|PidPrefix|] == PidPrefix && path[|path| - |PidSuffix|..] == PidSuffix
    then
      var digits := path[|PidPrefix|..|path| - |PidSuffix|];
      if forall i :: 0 <= i < |digits| ==> Decimal.IsDigit(digits[i]) then Some(Decimal.Parse(digits))
      else None
    else None
  }

  /** A PID file path names the port it was made for. */
  lemma PidFilePathRoundTrip(port: nat)
    ensures PortOfPidFile(PidFilePath(port)) == Some(port)
  {
    var path := PidFilePath(port);
    assert path[..|PidPrefix|] == PidPrefix;
    assert path[|path| - |PidSuffix|..] == PidSuffix;
    assert path[|PidPrefix|..|path| - |PidSuffix|] == Decimal.Render(port);
    Decimal.ParseRender(port);
  }

  /** Two different ports never share a PID file. */
  lemma PidFilePathInjective(a: nat, b: nat)
    requires PidFilePath(a) == PidFilePath(b)
    ensures a == b
  {
    PidFilePathRoundTrip(a);
    PidFilePathRoundTrip(b);
  }

  /** `get_instance_port_offset` for a known base directory: slot `sha(basedir) % 10`, or 0 without a base directory. */
  function PortOffset(basedir: string, sha: string -> nat): (offset: nat)
    ensures basedir == "" ==> offset == 0
    ensures exists slot :: 0 <= slot < Slots && offset == slot * JanusPortGap
  {
    if basedir != "" then
      var slot := sha(basedir) % Slots;
      slot * JanusPortGap
    else
      assert 0 == 0 * JanusPortGap;
      0
  }

  /** Two base directories share a slot exactly when their hashes agree modulo ten. */
  lemma SameSlot(b1: string, b2: string, sha: string -> nat)
    requires b1 != "" && b2 != ""
    ensures PortOffset(b1, sha) == PortOffset(b2, sha) <==> sha(b1) % Slots == sha(b2) % Slots
  {
  }

  /** `get_instance_port_offset`, which first looks up the base directory: 0 without one, otherwise one of the ten slots. */
  function InstancePortOffset(h: Basedir.Host, sha: string -> nat): (offset: nat)
    ensures Basedir.GetOctoprintBasedir(h) == "" ==> offset == 0
    ensures offset % JanusPortGap == 0 && offset <= (Slots - 1) * JanusPortGap
  {
    PortOffset(Basedir.GetOctoprintBasedir(h), sha)
  }

  /** A port on the twenty-port grid that starts at the Janus base port. */
  predicate OnGrid(port: nat)
  {
    JanusBasePort <= port && (port - JanusBasePort) % JanusPortGap == 0
  }

  function CandidatePort(basePort: nat, i: nat): nat
  {
    basePort + i * JanusPortGap
  }

  /** What `calculate_janus_ports` finds at a PID file it reads. */
  datatype PidContent =
    | Pid(pid: int)       // the file holds an integer
    | NotAnInteger        // `int(...)` raises ValueError
    | Unreadable          // `open` raises FileNotFoundError or PermissionError

  /** A PID file, and whether `os.remove` would succeed on it. */
  datatype PidFile = PidFile(content: PidContent, removable: bool)

  type PidFiles = map<string, PidFile>

  /** How the walk treats one candidate port. */
  datatype PortStatus = Absent | Live | Stale | Invalid

  function Status(files: PidFiles, running: set<int>, port: nat): PortStatus
  {
    var path := PidFilePath(port);
    if path !in files then Absent
    else match files[path].content
      case Pid(p) => if p in running then Live else Stale
      case NotAnInteger => Invalid
      case Unreadable => Invalid
  }

  /** The first candidate at or after `i` that is not held by a live process, or `Attempts` when there is none. */
  function FirstFree(basePort: nat, files: PidFiles, running: set<int>, i: nat): (k: nat)
    requires i <= Attempts
    ensures i <= k <= Attempts
    decreases Attempts - i
  {
    if i == Attempts then Attempts
    else if Status(files, running, CandidatePort(basePort, i)) != Live then i
    else FirstFree(basePort, files, running, i + 1)
  }

  /**
   * The port `calculate_janus_ports` settles on from a given base port: the
   * first of the five candidates not held by a live process, every earlier
   * candidate being held by one; when all five are held, the base port.
   */
  function ChosenPort(basePort: nat, files: PidFiles, running: set<int>): (port: nat)
    ensures (exists i :: 0 <= i < Attempts && port == CandidatePort(basePort, i)
               && Status(files, running, port) != Live
               && forall j :: 0 <= j < i ==> Status(files, running, CandidatePort(basePort, j)) == Live)
         || (port == basePort
               && forall j :: 0 <= j < Attempts ==> Status(files, running, CandidatePort(basePort, j)) == Live)
  {
    FirstFreeSpec(basePort, files, running, 0);
    var k := FirstFree(basePort, files, running, 0);
    if k < Attempts then CandidatePort(basePort, k) else basePort
  }

  /**
   * The PID files after the walk. At most one file is deleted, the chosen
   * port's, and only when it was stale or invalid and removable; every other
   * file keeps its content. When the chosen file was absent, or every candidate
   * was live, nothing changes.
   */
  function FilesAfter(basePort: nat, files: PidFiles, running: set<int>): (after: PidFiles)
    ensures var port := ChosenPort(basePort, files, running);
      && after.Keys <= files.Keys
      && files.Keys - after.Keys <= {PidFilePath(port)}
      && (forall p :: p in after ==> after[p] == files[p])
      && (after != files ==> Status(files, running, port) in {Stale, Invalid}
                              && files[PidFilePath(port)].removable)
      && (Status(files, running, port) in {Absent, Live} ==> after == files)
      && ((Status(files, running, port) in {Stale, Invalid} && files[PidFilePath(port)].removable)
            ==> after == files - {PidFilePath(port)})
  {
    FirstFreeSpec(basePort, files, running, 0);
    var k := FirstFree(basePort, files, running, 0);
    if k == Attempts then files
    else
      var port := CandidatePort(basePort, k);
      var path := PidFilePath(port);
      if Status(files, running, port) in {Stale, Invalid} && files[path].removable then files - {path}
      else files
  }

  /**
   * The loop of `calculate_janus_ports`: walks the five candidates from a base
   * port. Returns the chosen port and the PID files as the walk leaves them.
   */
  method WalkCandidates(basePort: nat, files: PidFiles, running: set<int>)
    returns (port: nat, files': PidFiles)
    ensures port == ChosenPort(basePort, files, running)
    ensures files' == FilesAfter(basePort, files, running)
  {
    for i := 0 to Attempts
      invariant FirstFree(basePort, files, running, 0) == FirstFree(basePort, files, running, i)
    {
      var testPort := basePort + i * JanusPortGap;
      var pidFile := PidFilePath(testPort);
      if pidFile !in files {
        return testPort, files;
      }
      var f := files[pidFile];
      match f.content {
        case Pid(p) =>
          if p !in running {
            files' := if f.removable then files - {pidFile} else files;
            return testPort, files';
          }
        case NotAnInteger =>
          files' := if f.removable then files - {pidFile} else files;
          return testPort, files';
        case Unreadable =>
          files' := if f.removable then files - {pidFile} else files;
          return testPort, files';
      }
    }
    return basePort, files;
  }

  /** `calculate_janus_ports`: the walk from the instance's base port, 17730 plus its offset. */
  method CalculateJanusPorts(h: Basedir.Host, sha: string -> nat, files: PidFiles, running: set<int>)
    returns (port: nat, files': PidFiles)
    ensures port == ChosenPort(JanusBasePort + InstancePortOffset(h, sha), files, running)
    ensures files' == FilesAfter(JanusBasePort + InstancePortOffset(h, sha), files, running)
  {
    var basePort := JanusBasePort + InstancePortOffset(h, sha);
    port, files' := WalkCandidates(basePort, files, running);
  }

  lemma {:induction false} FirstFreeSpec(basePort: nat, files: PidFiles, running: set<int>, i: nat)
    requires i <= Attempts
    ensures var k := FirstFree(basePort, files, running, i);
      (forall j :: i <= j < k ==> Status(files, running, CandidatePort(basePort, j)) == Live)
      && (k < Attempts ==> Status(files, running, CandidatePort(basePort, k)) != Live)
    decreases Attempts - i
  {
    if i < Attempts && Status(files, running, CandidatePort(basePort, i)) == Live {
      FirstFreeSpec(basePort, files, running, i + 1);
    }
  }

  /** Conversely, any candidate not held by a live process, with every earlier one held, is the one chosen. */
  lemma FirstFreeIsChosen(basePort: nat, files: PidFiles, running: set<int>, i: nat)
    requires i < Attempts
    requires Status(files, running, CandidatePort(basePort, i)) != Live
    requires forall j :: 0 <= j < i ==> Status(files, running, CandidatePort(basePort, j)) == Live
    ensures ChosenPort(basePort, files, running) == CandidatePort(basePort, i)
  {
    FirstFreeSpec(basePort, files, running, 0);
  }

  /** With a candidate whose PID file is missing, the walk never goes past it. */
  lemma AbsentCandidateBoundsWalk(basePort: nat, files: PidFiles, running: set<int>, i: nat)
    requires i < Attempts
    requires PidFilePath(CandidatePort(basePort, i)) !in files
    ensures exists j :: 0 <= j <= i && ChosenPort(basePort, files, running) == CandidatePort(basePort, j)
  {
    FirstFreeSpec(basePort, files, running, 0);
  }

  /** The PID files of the candidates before the chosen one are left alone. */
  lemma EarlierCandidatesUntouched(basePort: nat, files: PidFiles, running: set<int>, j: nat)
    requires j < FirstFree(basePort, files, running, 0)
    ensures var path := PidFilePath(CandidatePort(basePort, j));
      path in files && path in FilesAfter(basePort, files, running)
      && FilesAfter(basePort, files, running)[path] == files[path]
  {
    FirstFreeSpec(basePort, files, running, 0);
    var k := FirstFree(basePort, files, running, 0);
    if k < Attempts && PidFilePath(CandidatePort(basePort, j)) == PidFilePath(CandidatePort(basePort, k)) {
      PidFilePathInjective(CandidatePort(basePort, j), CandidatePort(basePort, k));
      assert false;
    }
  }

  /** From a slot's base port, the walk stays on the twenty-port grid from 17730, at most four steps above the slot. */
  lemma ChosenPortOnGrid(basePort: nat, files: PidFiles, running: set<int>)
    requires OnGrid(basePort) && basePort <= JanusBasePort + (Slots - 1) * JanusPortGap
    ensures var port := ChosenPort(basePort, files, running);
      OnGrid(port) && port <= JanusBasePort + (Slots - 1 + Attempts - 1) * JanusPortGap
  {
    var port := ChosenPort(basePort, files, running);
    if port != basePort {
      var i :| 0 <= i < Attempts && port == CandidatePort(basePort, i);
      assert port - JanusBasePort == (basePort - JanusBasePort) + i * JanusPortGap;
    }
  }

  /**
   * The WS port an instance ends up with is one of its five candidates, twenty
   * apart from its slot's base: it lies in [17730, 17990] and is 17730 plus a
   * multiple of twenty.
   */
  lemma WsPortRange(h: Basedir.Host, sha: string -> nat, files: PidFiles, running: set<int>)
    ensures var port := ChosenPort(JanusBasePort + InstancePortOffset(h, sha), files, running);
      OnGrid(port) && port <= JanusBasePort + (Slots - 1 + Attempts - 1) * JanusPortGap
  {
    ChosenPortOnGrid(JanusBasePort + InstancePortOffset(h, sha), files, running);
  }

  /** The ports and PID file the rest of janus.py uses once the walk is done. */
  datatype JanusPorts = JanusPorts(ws: nat, admin: nat, pidFile: string)

  /** `JANUS_ADMIN_WS_PORT = JANUS_WS_PORT + 1` and `janus_pid_file_path()`. */
  function PortsFor(ws: nat): JanusPorts
  {
    JanusPorts(ws, ws + 1, PidFilePath(ws))
  }

  /** Module load: the WS port from the walk, the admin port beside it, and the PID file named after the WS port. */
  method LoadJanusPorts(h: Basedir.Host, sha: string -> nat, files: PidFiles, running: set<int>)
    returns (ports: JanusPorts, files': PidFiles)
    ensures ports.ws == ChosenPort(JanusBasePort + InstancePortOffset(h, sha), files, running)
    ensures OnGrid(ports.ws) && ports.ws <= 17990
    ensures ports.admin == ports.ws + 1
    ensures ports.pidFile == PidFilePath(ports.ws)
    ensures files' == FilesAfter(JanusBasePort + InstancePortOffset(h, sha), files, running)
  {
    var ws;
    ws, files' := CalculateJanusPorts(h, sha, files, running);
    ChosenPortOnGrid(JanusBasePort + InstancePortOffset(h, sha), files, running);
    ports := PortsFor(ws);
  }

  /** The admin port beside a WS port on the twenty-port grid from 17730 is not on that grid. */
  lemma AdminPortOffGrid(ws1: nat, ws2: nat)
    requires OnGrid(ws1) && OnGrid(ws2)
    ensures PortsFor(ws1).admin != ws2
  {
  }

  /** From two slot base ports, the admin port chosen from one is never the WS port chosen from the other. */
  lemma AdminPortNeverWsPortFromBases(b1: nat, b2: nat, files1: PidFiles, files2: PidFiles, running: set<int>)
    requires OnGrid(b1) && b1 <= JanusBasePort + (Slots - 1) * JanusPortGap
    requires OnGrid(b2) && b2 <= JanusBasePort + (Slots - 1) * JanusPortGap
    ensures PortsFor(ChosenPort(b1, files1, running)).admin != ChosenPort(b2, files2, running)
  {
    ChosenPortOnGrid(b1, files1, running);
    ChosenPortOnGrid(b2, files2, running);
    AdminPortOffGrid(ChosenPort(b1, files1, running), ChosenPort(b2, files2, running));
  }

  /**
   * No instance's admin port is any instance's WS port: every WS port is 17730
   * plus a multiple of twenty, and the admin port sits one above its own.
   */
  lemma AdminPortNeverWsPort(h1: Basedir.Host, h2: Basedir.Host, sha: string -> nat,
                             files1: PidFiles, files2: PidFiles, running: set<int>)
    ensures PortsFor(ChosenPort(JanusBasePort + InstancePortOffset(h1, sha), files1, running)).admin
         != ChosenPort(JanusBasePort + InstancePortOffset(h2, sha), files2, running)
  {
    AdminPortNeverWsPortFromBases(JanusBasePort + InstancePortOffset(h1, sha),
                                  JanusBasePort + InstancePortOffset(h2, sha), files1, files2, running);
  }
}
