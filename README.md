# Per-instance Janus ports of the Obico OctoPrint plugin

The plugin runs a local Janus WebRTC gateway for each OctoPrint instance. Several
OctoPrint instances can share one machine, so each one needs its own Janus ports.
This project models how `octoprint_obico/janus.py` chooses those ports and proves
properties of that choice. It also models the small connection object that
relays messages to Janus.

- **Base directory** (`Basedir`, `get_octoprint_basedir`). The instance's data
  directory is looked up in a fixed order. The first source is the process
  arguments: `--basedir X` or `--basedir=V`, and the first matching argument wins.
  Then comes a non-empty `OCTOPRINT_BASEDIR`, then the command line the process
  table reports, then `~/.octoprint` if it exists, and finally `""`. The host is a
  value holding the arguments, the environment, the reported command line and
  the set of existing paths. The command line is absent when asking for it
  raised.
- **Port offset** (`Ports.PortOffset`, `get_instance_port_offset`). A non-empty
  base directory is hashed into one of 10 slots, 20 ports apart. An empty one
  gets offset 0. The hash is a parameter `sha`.
- **Port walk** (`Ports.CalculateJanusPorts` and its loop `Ports.WalkCandidates`, `calculate_janus_ports`). From
  `17730 + offset`, five candidate ports 20 apart are tried. The first one wins
  if its PID file `/tmp/obico-janus-<port>.pid` is absent, names a process that
  is not running, or cannot be read as an integer. A stale or invalid file is
  deleted when deletion succeeds. When all five candidates are held by live
  processes, the base port is used. The `/tmp` PID files are a map from path to
  file, and the process table is a set of running pids. The method returns the
  port and the map as the walk leaves it.
- **Module-level ports** (`Ports.LoadJanusPorts`, `Ports.PortsFor`). The WS port
  comes from the walk. The admin port is the WS port plus one. The PID file
  path is derived from the WS port.
- **Connection** (`JanusConnection.JanusConn`). A class with the fields
  `janusWs` and `shuttingDown`. Its methods are `Connected`, `PassToJanus` and
  `Shutdown`. The websocket client is defined in a module that is not part of
  this model. It is modelled as an object with a connected flag, a closed flag
  and a log of sent messages.

The comment at `octoprint_obico/janus.py:79` says the slots cover ports
17730-17930. In the code, the highest slot base is 17730 + 9 * 20 = 17910. The
walk then reaches up to 17910 + 4 * 20 = 17990. The model follows the code:
`Ports.WsPortRange` proves the range [17730, 17990].

## Model

| member | source | states |
|---|---|---|
| `Basedir.SplitOnce` | octoprint_obico/janus.py:42 | `split(sep, 1)` gives two parts exactly when the separator occurs; they rebuild the string around its first occurrence, and the first part holds no separator |
| `Basedir.SplitFlagEq` | octoprint_obico/janus.py:41-42 | for an argument starting with `--basedir=`, the split on the first `=` yields `--basedir` and everything after the flag, even when that contains more `=` |
| `Basedir.Scan` | octoprint_obico/janus.py:38-42 | the argument scan returns the value named by the first qualifying argument (`--basedir` followed by another argument, or `--basedir=...`), and returns nothing exactly when no argument qualifies |
| `Basedir.ScanFromFirstMatch` | octoprint_obico/janus.py:53-57 | the same loop, run over the reported command line and resumed at any position, finds the first qualifying argument from there on, and nothing exactly when none qualifies |
| `Basedir.ScanFlagThenValue` | octoprint_obico/janus.py:39-40 | `--basedir X` yields X |
| `Basedir.ScanFlagEq` | octoprint_obico/janus.py:41-42 | `--basedir=V` yields V for every V: `--basedir=a=b` gives `a=b` and `--basedir=` gives the empty string |
| `Basedir.ScanSkips` | octoprint_obico/janus.py:38-42 | an argument that is neither `--basedir` nor starts with `--basedir=` is passed over |
| `Basedir.ScanFirstMatchWins` | octoprint_obico/janus.py:38-42 | once a prefix of the arguments names a base directory, later arguments cannot change it |
| `Basedir.ScanDanglingFlag` | octoprint_obico/janus.py:39 | a trailing `--basedir` with no value matches nothing, and the scan result is the same as without it |
| `Basedir.FirstSome` | octoprint_obico/janus.py:37-66 | the first source that yields a value, and nothing exactly when every source yields nothing |
| `Basedir.GetOctoprintBasedir` | octoprint_obico/janus.py:32-66 | the base directory is the value of the first source, in the order arguments, non-empty environment variable, reported command line, existing default path; otherwise `""` |
| `Basedir.ArgvWins` | octoprint_obico/janus.py:37-42 | a base directory named in the arguments decides the result whatever the other sources hold |
| `Basedir.EmptyFlagValueStops` | octoprint_obico/janus.py:41-47 | a `--basedir=` at any position, with no qualifying argument before it, yields `""` without falling through to the environment variable or later sources |
| `Basedir.EmptyEnvSkipped` | octoprint_obico/janus.py:44-47 | an empty `OCTOPRINT_BASEDIR` gives the same base directory as an unset one |
| `Basedir.EnvBeforeCmdline` | octoprint_obico/janus.py:44-57 | without a match in the arguments, a non-empty `OCTOPRINT_BASEDIR` is used before the reported command line is consulted |
| `Basedir.EmptyBasedir` | octoprint_obico/janus.py:32-66 | the result is `""` only if some source named `""` itself, or no source yielded a value (or the default path is `""`) |
| `Decimal.Render` | octoprint_obico/janus.py:98 | the f-string rendering of a port is a non-empty string of decimal digits, longer than one digit exactly when the port is 10 or more |
| `Decimal.ParseRender` | octoprint_obico/janus.py:98 | the decimal rendering of a port number reads back as that number |
| `Decimal.RenderInjective` | octoprint_obico/janus.py:98 | different numbers render as different decimal strings |
| `Ports.PidFilePathRoundTrip` | octoprint_obico/janus.py:98 | the PID file path `/tmp/obico-janus-<port>.pid` built by `PidFilePath` reads back, through `PortOfPidFile`, as the port it was made for |
| `Ports.PidFilePathInjective` | octoprint_obico/janus.py:98 | two different ports never share a PID file path |
| `Ports.PortOffset` | octoprint_obico/janus.py:75-85 | the offset is 0 for an empty base directory and is always one of the ten slots 0, 20, ..., 180 |
| `Ports.InstancePortOffset` | octoprint_obico/janus.py:68-85 | the offset of an instance is 0 when its base directory is `""`, and otherwise a multiple of 20 no greater than 180 |
| `Ports.SameSlot` | octoprint_obico/janus.py:77-81 | two non-empty base directories get the same offset exactly when their hashes agree modulo 10 |
| `Ports.FirstFree` | octoprint_obico/janus.py:96-117 | the index of the first candidate not held by a live process lies between the starting index and 5, where 5 means that none was found |
| `Ports.WalkCandidates` | octoprint_obico/janus.py:96-121 | the loop returns the port of the first candidate not held by a live process (the base port if there is none) and the PID files with that candidate's file deleted exactly when it was stale or invalid and removable, and unchanged otherwise, as `ChosenPort` and `FilesAfter` characterize them |
| `Ports.CalculateJanusPorts` | octoprint_obico/janus.py:87-121 | the walk starts from 17730 plus the instance's offset, and returns the chosen port and the PID files the walk leaves |
| `Ports.FirstFreeSpec` | octoprint_obico/janus.py:96-117 | every candidate the walk passes is held by a live process, and the one it stops at is not |
| `Ports.ChosenPort` | octoprint_obico/janus.py:96-121 | the chosen port is a candidate that is not live, and every earlier candidate is live; or all five candidates are live and the port is the base port |
| `Ports.FirstFreeIsChosen` | octoprint_obico/janus.py:96-117 | conversely, a candidate that is not live, with every earlier candidate live, is the chosen port |
| `Ports.AbsentCandidateBoundsWalk` | octoprint_obico/janus.py:100-101 | the walk never goes past a candidate whose PID file is missing |
| `Ports.FilesAfter` | octoprint_obico/janus.py:100-117 | the chosen port's PID file is deleted exactly when it was stale or invalid and removable, and no other file is deleted or changed; an absent file, a live one or the all-live fallback changes nothing |
| `Ports.EarlierCandidatesUntouched` | octoprint_obico/janus.py:96-117 | the PID files of the live candidates before the chosen one survive unchanged |
| `Ports.WsPortRange` | octoprint_obico/janus.py:92-97 | the WS port lies in [17730, 17990] and differs from 17730 by a multiple of 20 |
| `Ports.LoadJanusPorts` | octoprint_obico/janus.py:123-130 | at module load the WS port is the port the walk chose, is in range, the admin port is one above it, the PID file path names the WS port, and the PID files are those the walk leaves |
| `Ports.AdminPortNeverWsPort` | octoprint_obico/janus.py:124-125 | no instance's admin port (its WS port plus one, as `PortsFor` builds it) equals any instance's WS port |
| `JanusConnection.JanusConn.constructor` | octoprint_obico/janus.py:134-138 | a new connection has no websocket, is not shutting down and is not connected |
| `JanusConnection.JanusConn.Connected` | octoprint_obico/janus.py:169-170 | connected only when there is a websocket and that websocket reports itself connected; never when the websocket is `None` |
| `JanusConnection.JanusConn.PassToJanus` | octoprint_obico/janus.py:172-174 | the message is appended to the websocket's sent log when connected; otherwise nothing is sent |
| `JanusConnection.JanusConn.Shutdown` | octoprint_obico/janus.py:207-213 | afterwards `shuttingDown` is true, the websocket is `None`, the connection is not connected, and the previous websocket was closed without sending anything |
| `JanusConnection.ShutdownThenPass` | octoprint_obico/janus.py:169-174 | a message passed to Janus after shutdown is sent on no websocket |

## Left out

- `JanusConn.start`, `run_janus_forever`, `wait_for_janus`, `start_janus_ws` and `kill_janus_if_running` (octoprint_obico/janus.py:140-205) are left out. They spawn Janus, read its output on a thread, write and kill through the PID file, poll ports and open the websocket. All of this is process I/O and concurrency.
- `JanusConnection.JanusConn.Shutdown`: does not model the final call to `kill_janus_if_running`. That call kills the Janus process and removes its PID file, which is process I/O.
- `process_janus_msg` is left out. It parses JSON and forwards the message through the plugin's server websocket and Sentry, which are calls into code outside this model.
- The websocket client class is not part of this model. Its `connected` and `send` are modelled as a flag and an append to a log. Its `close` is modelled as setting the closed flag and clearing the connected flag; clearing the flag is an assumption about code not shown, and no property depends on it because `Shutdown` drops the websocket.
- SHA-256 is a parameter `sha: string -> nat`. It stands for the value of the first 16 hex digits of the digest of the UTF-8 encoded base directory.
- `psutil.pid_exists` is a set of running pids. `psutil.Process(...).cmdline()` is an optional command line in the host record, absent when the call raised.
- `os.environ` is a map in the host record.
- `os.path.expanduser('~/.octoprint')` is not modelled: the host record carries the expanded path. `os.path.exists` is a set of existing paths.
- Reading a PID file is abstracted to its outcome. It holds an integer, it is not an integer (`ValueError`), or it cannot be opened (`FileNotFoundError`, `PermissionError`). The details of `int(f.read().strip())` are not modelled.
- Deleting a PID file is abstracted to a `removable` flag on the file. When deletion fails with a caught error, the file stays and the port is still returned.
- Errors that the walk does not catch would abort module loading. Examples are an `IsADirectoryError`, or an `os.remove` error other than `FileNotFoundError` or `PermissionError` in the stale branch. These are not modelled.
- A base directory that cannot be encoded as UTF-8 is not modelled. Python decodes undecodable bytes in the arguments and the environment with `surrogateescape`, so `basedir.encode()` at octoprint_obico/janus.py:77 raises `UnicodeEncodeError`. Nothing catches it, so loading the module fails. A base directory here is a Dafny `string`, which cannot hold such a value.
- Logging is not modelled. This includes the second call to `get_octoprint_basedir` made only for the log line at octoprint_obico/janus.py:127.
- The whitespace split of the Janus command line (octoprint_obico/janus.py:144, 149) is left out. It belongs to process start-up.
- Hardware-encoder detection and selection, and the diagnostic scripts `test_vaapi_implementation.py` and `test_hardware_detection.py`, are left out. The modules these scripts exercise are not part of this model.
