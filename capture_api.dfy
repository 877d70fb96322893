/**
 * The Pi's Flask control server (pi/capture_api.py): the mode state machine kept
 * in files under /tmp, the PID files of the camera processes, the latest-image
 * choice and the in-memory sensor register.
 *
 * The file system is a map from path to contents. Process control is reduced to
 * what the server observes of it: `os.killpg` answers through the oracle
 * `killpg`, `subprocess.Popen` through a `SpawnResult`, and the signals sent and
 * processes started are recorded, in order, in `trace`.
 */
module CaptureApi {
  import opened Wrappers
  import opened Json
  import opened PyText

  const CaptureDir: string := "/home/pi5-01/captures"
  const ModeFile: string := "/tmp/current_mode"
  const MotionPidFile: string := "/tmp/motion_pid"
  const StreamPidFile: string := "/tmp/stream_pid"

  type FileSystem = map<string, string>

  lemma PathsDistinct()
    ensures StreamPidFile != MotionPidFile && StreamPidFile != ModeFile && MotionPidFile != ModeFile
  {
    assert StreamPidFile[5] != MotionPidFile[5];
    assert |StreamPidFile| != |ModeFile| && |MotionPidFile| != |ModeFile|;
  }

  /** The JSON (or text, or file) bodies the endpoints answer with. */
  datatype Body =
    | StatusError(message: string)   // {"status": "error", "message": ...}
    | Started(mode: string)          // {"status": "started", "mode": ...}
    | ModeReport(mode: string)       // {"mode": ...}
    | StatusOk                       // {"status": "ok"}
    | SensorData(data: Json)         // the stored sensor document
    | JpegFile(path: string)         // send_file(path, mimetype='image/jpeg')
    | PlainText(text: string)
    | InternalServerError            // Flask's answer to an uncaught exception

  datatype Response = Response(status: int, body: Body)

  /** Side effects outside the file system, in the order the server causes them. */
  datatype Effect = Signal(pgid: int) | Spawn(mode: string)

  /** `os.killpg(pid, SIGTERM)`: returns, raises ProcessLookupError, or raises another OSError. */
  datatype KillResult = Terminated | NotRunning | KillError

  /** `subprocess.Popen`: a child with its PID, or the exception's message. */
  datatype SpawnResult = Spawned(pid: nat) | SpawnFailed(message: string)

  /** A directory entry of the capture directory. */
  datatype DirEntry = DirEntry(name: string, mtime: real)

  predicate ValidMode(mode: string)
  {
    mode == "motion" || mode == "stream"
  }

  // ---------------------------------------------------------------------------
  // Mode flag

  /** `get_mode_string`: the stripped flag file when it names a mode, "unknown" otherwise. */
  function GetModeString(fs: FileSystem): (m: string)
    ensures m == "motion" || m == "stream" || m == "unknown"
    ensures m != "unknown" <==> ModeFile in fs && ValidMode(Strip(fs[ModeFile]))
    ensures m != "unknown" ==> m == Strip(fs[ModeFile])
  {
    if ModeFile in fs then
      var mode := Strip(fs[ModeFile]);
      if ValidMode(mode) then mode else "unknown"
    else "unknown"
  }

  /** What `set_mode_flag(mode)` writes, `get_mode_string` reads back. */
  lemma ModeFlagRoundTrip(fs: FileSystem, mode: string)
    requires ValidMode(mode)
    ensures GetModeString(fs[ModeFile := mode]) == mode
  {
    assert !IsSpace(mode[0]) && !IsSpace(mode[|mode| - 1]);
  }

  /** Only the flag file decides the mode: removing any other file leaves it alone. */
  lemma ModeIgnoresOtherFiles(fs: FileSystem, path: string)
    requires path != ModeFile
    ensures GetModeString(fs - {path}) == GetModeString(fs)
  {
    if ModeFile in fs {
      assert (fs - {path})[ModeFile] == fs[ModeFile];
    }
  }

  /** `toggle_mode`'s target: stream exactly when the current mode is motion. */
  function ToggleTarget(current: string): (target: string)
    ensures target == "stream" <==> current == "motion"
    ensures ValidMode(target)
  {
    if current == "motion" then "stream" else "motion"
  }

  // ---------------------------------------------------------------------------
  // PID files

  /** The PID `kill_pid_file` reads: blank content is -1; None is the ValueError case. */
  function ParsePid(content: string): (pid: Option<int>)
    ensures (forall i :: 0 <= i < |content| ==> IsSpace(content[i])) ==> pid == Some(-1)
  {
    var text := Strip(content);
    if text == "" then Some(-1) else ParseInt(text)
  }

  /** A PID file written by `start_motion`/`start_stream` parses back to the child's PID. */
  lemma PidFileRoundTrip(pid: nat)
    ensures ParsePid(NatToString(pid)) == Some(pid)
  {
    ParseIntRoundTrip(pid);
  }

  /** The signal `kill_pid_file` sends for `pidFile`, if any. */
  function PidSignal(fs: FileSystem, pidFile: string): seq<Effect>
  {
    if pidFile in fs && ParsePid(fs[pidFile]).Some? then [Signal(ParsePid(fs[pidFile]).value)] else []
  }

  /** `kill_pid_file(pidFile)` lets an exception escape: `os.killpg` raised something other than ProcessLookupError. */
  predicate KillRaises(fs: FileSystem, pidFile: string, killpg: int -> KillResult)
  {
    pidFile in fs && ParsePid(fs[pidFile]).Some? && killpg(ParsePid(fs[pidFile]).value) == KillError
  }

  /** `kill_existing_camera_processes` raises: from the stream PID file, or else from the motion PID file. */
  predicate StopRaises(fs: FileSystem, killpg: int -> KillResult)
  {
    KillRaises(fs, StreamPidFile, killpg) || KillRaises(fs, MotionPidFile, killpg)
  }

  /** The signals `kill_existing_camera_processes` sends; it stops at the first exception. */
  function StopSignals(fs: FileSystem, killpg: int -> KillResult): seq<Effect>
  {
    PidSignal(fs, StreamPidFile) + (if KillRaises(fs, StreamPidFile, killpg) then [] else PidSignal(fs, MotionPidFile))
  }

  /** Removing one PID file does not change what killing another one does. */
  lemma OtherPidFileUnaffected(fs: FileSystem, removed: string, pidFile: string, killpg: int -> KillResult)
    requires removed != pidFile
    ensures PidSignal(fs - {removed}, pidFile) == PidSignal(fs, pidFile)
    ensures KillRaises(fs - {removed}, pidFile, killpg) == KillRaises(fs, pidFile, killpg)
  {
    if pidFile in fs {
      assert (fs - {removed})[pidFile] == fs[pidFile];
    }
  }

  /** When the stream PID file does not raise, the rest of the stop is `kill_pid_file` of the motion PID file on what is left. */
  lemma StopAfterStreamFile(fs: FileSystem, killpg: int -> KillResult)
    requires !KillRaises(fs, StreamPidFile, killpg)
    ensures StopRaises(fs, killpg) == KillRaises(fs - {StreamPidFile}, MotionPidFile, killpg)
    ensures StopSignals(fs, killpg) == PidSignal(fs, StreamPidFile) + PidSignal(fs - {StreamPidFile}, MotionPidFile)
  {
    PathsDistinct();
    OtherPidFileUnaffected(fs, StreamPidFile, MotionPidFile, killpg);
  }

  /** An exception from the stream PID file ends the stop before the motion PID file is read. */
  lemma StopWhenStreamRaises(fs: FileSystem, killpg: int -> KillResult)
    requires KillRaises(fs, StreamPidFile, killpg)
    ensures StopRaises(fs, killpg)
    ensures StopSignals(fs, killpg) == PidSignal(fs, StreamPidFile)
  {
    AppendNothing(PidSignal(fs, StreamPidFile));
  }

  lemma AppendNothing<T>(a: seq<T>)
    ensures a + [] == a
  {
  }

  /** Running `kill_pid_file` on the stream PID file, then on the motion one, is the whole stop. */
  lemma StopComposes(fs0: FileSystem, fs1: FileSystem, fs2: FileSystem, t0: seq<Effect>, t1: seq<Effect>, t2: seq<Effect>,
                     raised: bool, killpg: int -> KillResult)
    requires !KillRaises(fs0, StreamPidFile, killpg)
    requires fs1 == fs0 - {StreamPidFile} && t1 == t0 + PidSignal(fs0, StreamPidFile)
    requires fs2 == fs1 - {MotionPidFile} && t2 == t1 + PidSignal(fs1, MotionPidFile)
    requires raised <==> KillRaises(fs1, MotionPidFile, killpg)
    ensures raised <==> StopRaises(fs0, killpg)
    ensures t2 == t0 + StopSignals(fs0, killpg)
    ensures fs2 == fs0 - {StreamPidFile, MotionPidFile}
  {
    StopAfterStreamFile(fs0, killpg);
    AppendAssociates(t0, PidSignal(fs0, StreamPidFile), PidSignal(fs1, MotionPidFile));
    RemoveKeysInTurn(fs0, StreamPidFile, MotionPidFile);
  }

  lemma AppendAssociates<T>(a: seq<T>, b: seq<T>, c: seq<T>)
    ensures a + b + c == a + (b + c)
  {
  }

  lemma RemoveThirdKey<K, V>(m: map<K, V>, a: K, b: K, c: K)
    ensures m - {a, b} - {c} == m - {a, b, c}
    ensures c !in m - {a, b, c}
  {
  }

  lemma RemoveKeysInTurn<K, V>(m: map<K, V>, a: K, b: K)
    ensures m - {a} - {b} == m - {a, b}
  {
  }

  /** The files a stop that raised leaves: the stream PID file is gone, and the motion one too when it was reached. */
  function StoppedUntilRaise(fs: FileSystem, killpg: int -> KillResult): FileSystem
  {
    if KillRaises(fs, StreamPidFile, killpg) then fs - {StreamPidFile} else fs - {StreamPidFile, MotionPidFile}
  }

  /** A stop that raised has not reached the mode flag. */
  lemma RaisedStopKeepsMode(fs: FileSystem, killpg: int -> KillResult)
    ensures GetModeString(StoppedUntilRaise(fs, killpg)) == GetModeString(fs)
  {
    PathsDistinct();
    ModeIgnoresOtherFiles(fs, StreamPidFile);
    if !KillRaises(fs, StreamPidFile, killpg) {
      RemoveKeysInTurn(fs, StreamPidFile, MotionPidFile);
      ModeIgnoresOtherFiles(fs - {StreamPidFile}, MotionPidFile);
    }
  }

  /** After a full stop no mode is set, and a successful start sets exactly the requested one. */
  lemma StoppedModes(fs: FileSystem, mode: string, spawn: SpawnResult)
    requires ValidMode(mode)
    ensures fs - {StreamPidFile, MotionPidFile} - {ModeFile} == Stopped(fs)
    ensures GetModeString(Stopped(fs)) == "unknown"
    ensures spawn.Spawned? ==>
      GetModeString(Stopped(fs)[PidFileFor(mode) := NatToString(spawn.pid)][ModeFile := mode]) == mode
  {
    RemoveThirdKey(fs, StreamPidFile, MotionPidFile, ModeFile);
    if spawn.Spawned? {
      ModeFlagRoundTrip(Stopped(fs)[PidFileFor(mode) := NatToString(spawn.pid)], mode);
    }
  }

  function PidFileFor(mode: string): string
  {
    if mode == "motion" then MotionPidFile else StreamPidFile
  }

  /** The files once both PID files and the mode flag are gone. */
  function Stopped(fs: FileSystem): FileSystem
  {
    fs - {StreamPidFile, MotionPidFile, ModeFile}
  }

  // ---------------------------------------------------------------------------
  // Latest image

  predicate IsJpg(name: string)
  {
    |name| >= 4 && name[|name| - 4..] == ".jpg"
  }

  /**
   * `latest_image`: the `.jpg` with the greatest mtime; among equal mtimes the first
   * in listing order, since Python's sort with reverse=True is stable. 404 without one.
   */
  method LatestImage(listing: seq<DirEntry>) returns (resp: Response, chosen: Option<nat>)
    ensures chosen.None? <==> forall i :: 0 <= i < |listing| ==> !IsJpg(listing[i].name)
    ensures chosen.None? ==> resp == Response(404, PlainText("No image found"))
    ensures chosen.Some? ==>
      && chosen.value < |listing|
      && IsJpg(listing[chosen.value].name)
      && (forall i :: 0 <= i < |listing| && IsJpg(listing[i].name) ==> listing[i].mtime <= listing[chosen.value].mtime)
      && (forall i :: 0 <= i < chosen.value && IsJpg(listing[i].name) ==> listing[i].mtime < listing[chosen.value].mtime)
      && resp == Response(200, JpegFile(CaptureDir + "/" + listing[chosen.value].name))
  {
    chosen := None;
    var i := 0;
    while i < |listing|
      invariant 0 <= i <= |listing|
      invariant chosen.None? <==> forall j :: 0 <= j < i ==> !IsJpg(listing[j].name)
      invariant chosen.Some? ==>
        && chosen.value < i
        && IsJpg(listing[chosen.value].name)
        && (forall j :: 0 <= j < i && IsJpg(listing[j].name) ==> listing[j].mtime <= listing[chosen.value].mtime)
        && (forall j :: 0 <= j < chosen.value && IsJpg(listing[j].name) ==> listing[j].mtime < listing[chosen.value].mtime)
    {
      if IsJpg(listing[i].name) && (chosen.None? || listing[i].mtime > listing[chosen.value].mtime) {
        chosen := Some(i);
      }
      i := i + 1;
    }
    if chosen.None? {
      resp := Response(404, PlainText("No image found"));
    } else {
      resp := Response(200, JpegFile(CaptureDir + "/" + listing[chosen.value].name));
    }
  }

  // ---------------------------------------------------------------------------
  // The server's state

  class PiServer {
    var files: FileSystem
    var trace: seq<Effect>
    /** `latest_sensor_data`; JNull stands for Python's None. */
    var latestSensorData: Json

    constructor (initialFiles: FileSystem)
      ensures files == initialFiles && trace == [] && latestSensorData == JNull
    {
      files, trace, latestSensorData := initialFiles, [], JNull;
    }

    /**
     * `kill_pid_file`: a missing file is left alone; an unparsable one is removed
     * without a signal; otherwise the group is signalled and the file removed,
     * whatever `os.killpg` did.
     */
    method KillPidFile(pidFile: string, killpg: int -> KillResult) returns (raised: bool)
      modifies this`files, this`trace
      ensures files == old(files) - {pidFile}
      ensures trace == old(trace) + PidSignal(old(files), pidFile)
      ensures raised <==> KillRaises(old(files), pidFile, killpg)
    {
      ghost var fs0, t0 := files, trace;
      if pidFile !in files {
        assert files == fs0 - {pidFile} && trace == t0 + [];
        return false;
      }
      var pid := ParsePid(files[pidFile]);
      if pid.None? {
        files := files - {pidFile};
        assert trace == t0 + PidSignal(fs0, pidFile);
        return false;
      }
      assert PidSignal(fs0, pidFile) == [Signal(pid.value)];
      trace := trace + [Signal(pid.value)];
      var result := killpg(pid.value);
      raised := result == KillError;
      files := files - {pidFile};
    }

    /** `kill_existing_camera_processes`: stream PID file first, then motion; an exception skips the rest. */
    method KillExistingCameraProcesses(killpg: int -> KillResult) returns (raised: bool)
      modifies this`files, this`trace
      ensures raised <==> StopRaises(old(files), killpg)
      ensures trace == old(trace) + StopSignals(old(files), killpg)
      ensures KillRaises(old(files), StreamPidFile, killpg) ==> files == old(files) - {StreamPidFile}
      ensures !KillRaises(old(files), StreamPidFile, killpg) ==> files == old(files) - {StreamPidFile, MotionPidFile}
    {
      PathsDistinct();
      ghost var fs0, t0 := files, trace;
      raised := KillPidFile(StreamPidFile, killpg);
      if raised {
        StopWhenStreamRaises(fs0, killpg);
        return;
      }
      ghost var fs1, t1 := files, trace;
      raised := KillPidFile(MotionPidFile, killpg);
      StopComposes(fs0, fs1, files, t0, t1, trace, raised, killpg);
    }

    /** `clear_mode_flag`: removing a missing flag is not an error. */
    method ClearModeFlag()
      modifies this`files
      ensures files == old(files) - {ModeFile}
    {
      files := files - {ModeFile};
    }

    /**
     * `start_motion` / `start_stream`: spawn the process; only once that succeeded
     * write its PID file and then the mode flag.
     */
    method StartMode(mode: string, spawn: SpawnResult) returns (resp: Response)
      requires ValidMode(mode)
      modifies this`files, this`trace
      ensures trace == old(trace) + [Spawn(mode)]
      ensures spawn.SpawnFailed? ==> resp == Response(500, StatusError(spawn.message)) && files == old(files)
      ensures spawn.Spawned? ==>
        && resp == Response(200, Started(mode))
        && files == old(files)[PidFileFor(mode) := NatToString(spawn.pid)][ModeFile := mode]
    {
      trace := trace + [Spawn(mode)];
      if spawn.SpawnFailed? {
        return Response(500, StatusError(spawn.message));
      }
      files := files[PidFileFor(mode) := NatToString(spawn.pid)];
      files := files[ModeFile := mode];
      resp := Response(200, Started(mode));
    }

    /**
     * POST /set-mode/<mode>: reject other modes with 400; otherwise stop both camera
     * processes, clear the flag, and start the requested one.
     */
    method SetMode(mode: string, spawn: SpawnResult, killpg: int -> KillResult) returns (resp: Response)
      modifies this`files, this`trace
      ensures !ValidMode(mode) ==>
        resp == Response(400, StatusError("Invalid mode")) && files == old(files) && trace == old(trace)
      ensures ValidMode(mode) && StopRaises(old(files), killpg) ==>
        && resp == Response(500, InternalServerError)
        && trace == old(trace) + StopSignals(old(files), killpg)
        && files == StoppedUntilRaise(old(files), killpg)
        && GetModeString(files) == GetModeString(old(files))
      ensures ValidMode(mode) && !StopRaises(old(files), killpg) ==>
        trace == old(trace) + StopSignals(old(files), killpg) + [Spawn(mode)]
      ensures ValidMode(mode) && !StopRaises(old(files), killpg) && spawn.SpawnFailed? ==>
        && resp == Response(500, StatusError(spawn.message))
        && files == Stopped(old(files))
        && GetModeString(files) == "unknown"
      ensures ValidMode(mode) && !StopRaises(old(files), killpg) && spawn.Spawned? ==>
        && resp == Response(200, Started(mode))
        && files == Stopped(old(files))[PidFileFor(mode) := NatToString(spawn.pid)][ModeFile := mode]
        && GetModeString(files) == mode
    {
      if !ValidMode(mode) {
        return Response(400, StatusError("Invalid mode"));
      }
      resp := SwitchMode(mode, spawn, killpg);
    }

    /** `set_mode` past its mode check: stop both camera processes, clear the flag, start `mode`. */
    method SwitchMode(mode: string, spawn: SpawnResult, killpg: int -> KillResult) returns (resp: Response)
      requires ValidMode(mode)
      modifies this`files, this`trace
      ensures StopRaises(old(files), killpg) ==>
        && resp == Response(500, InternalServerError)
        && trace == old(trace) + StopSignals(old(files), killpg)
        && files == StoppedUntilRaise(old(files), killpg)
        && GetModeString(files) == GetModeString(old(files))
      ensures !StopRaises(old(files), killpg) ==>
        trace == old(trace) + StopSignals(old(files), killpg) + [Spawn(mode)]
      ensures !StopRaises(old(files), killpg) && spawn.SpawnFailed? ==>
        && resp == Response(500, StatusError(spawn.message))
        && files == Stopped(old(files))
        && GetModeString(files) == "unknown"
      ensures !StopRaises(old(files), killpg) && spawn.Spawned? ==>
        && resp == Response(200, Started(mode))
        && files == Stopped(old(files))[PidFileFor(mode) := NatToString(spawn.pid)][ModeFile := mode]
        && GetModeString(files) == mode
    {
      ghost var fs0, t0 := files, trace;
      var raised := KillExistingCameraProcesses(killpg);
      ghost var signals := StopSignals(fs0, killpg);
      assert trace == t0 + signals;
      if raised {
        RaisedStopKeepsMode(fs0, killpg);
        assert files == StoppedUntilRaise(fs0, killpg);
        return Response(500, InternalServerError);
      }
      assert files == fs0 - {StreamPidFile, MotionPidFile};
      ClearModeFlag();
      StoppedModes(fs0, mode, spawn);
      assert files == Stopped(fs0);
      resp := StartMode(mode, spawn);
      assert trace == t0 + signals + [Spawn(mode)];
    }

    /** POST /toggle-mode: `set_mode` with stream when the current mode is motion, motion otherwise. */
    method ToggleMode(spawn: SpawnResult, killpg: int -> KillResult) returns (resp: Response)
      modifies this`files, this`trace
      ensures resp.status != 400
      ensures resp.status == 200 ==> GetModeString(files) == ToggleTarget(GetModeString(old(files)))
      ensures StopRaises(old(files), killpg) ==>
        && resp == Response(500, InternalServerError)
        && trace == old(trace) + StopSignals(old(files), killpg)
        && files == StoppedUntilRaise(old(files), killpg)
      ensures var target := ToggleTarget(GetModeString(old(files)));
        !StopRaises(old(files), killpg) ==>
          && trace == old(trace) + StopSignals(old(files), killpg) + [Spawn(target)]
          && (spawn.SpawnFailed? ==>
                resp == Response(500, StatusError(spawn.message)) && files == Stopped(old(files)))
          && (spawn.Spawned? ==>
                && resp == Response(200, Started(target))
                && files == Stopped(old(files))[PidFileFor(target) := NatToString(spawn.pid)][ModeFile := target])
    {
      var current := GetModeString(files);
      resp := SetMode(ToggleTarget(current), spawn, killpg);
    }

    /** GET /mode: always 200, with one of the three mode strings. */
    function GetMode(): (r: Response)
      reads this
      ensures r.status == 200 && r.body.ModeReport?
      ensures r.body.mode == "motion" || r.body.mode == "stream" || r.body.mode == "unknown"
      ensures r.body.mode == GetModeString(files)
    {
      Response(200, ModeReport(GetModeString(files)))
    }

    /**
     * POST /sensor: `request.get_json(silent=True)` replaces the register, so the last
     * write wins and an unparsable body stores None.
     */
    method UpdateSensor(body: RequestBody) returns (resp: Response)
      modifies this`latestSensorData
      ensures latestSensorData == (if body.Parsed? then body.value else JNull)
      ensures resp == Response(200, StatusOk)
    {
      latestSensorData := if body.Parsed? then body.value else JNull;
      resp := Response(200, StatusOk);
    }

    /** GET /sensor/latest (and GET /sensor): 404 exactly while the register holds None. */
    function GetLatestSensor(): (r: Response)
      reads this
      ensures r.status == 404 <==> latestSensorData == JNull
      ensures r.status == 404 ==> r.body == StatusError("No data")
      ensures r.status != 404 ==> r == Response(200, SensorData(latestSensorData))
    {
      if latestSensorData == JNull then Response(404, StatusError("No data"))
      else Response(200, SensorData(latestSensorData))
    }
  }
}
