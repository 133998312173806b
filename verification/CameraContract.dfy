/** The camera's own state (camera/main/camera_manager.cpp), how the status handler
    reports it (camera/main/api_server.cpp), and the gateway's check of such reports
    (gateway/noob_gateway/environment_camera.py, `_status_evidence`). */
module CameraContract {
  import opened Options
  import opened Runs
  import Media
  import MediaSafety

  const FRAME_WIDTH: nat := 640
  const FRAME_HEIGHT: nat := 480
  const FRESH_MS: nat := 2000
  const MAX_GENERATION: nat := 2_147_483_647
  const UINT32: nat := 0x1_0000_0000

  const OV2640: (string, nat) := ("OV2640", 0x26)
  const OV3660: (string, nat) := ("OV3660", 0x3660)

  datatype Sensor = Sensor(detected: bool, name: string, pid: nat, ov2640: bool, supported: bool)

  datatype Status = Status(
    pinmapVerified: bool, enabled: bool, initialized: bool, generation: nat, sensor: Sensor,
    psramInitialized: bool, psramSize: nat, width: nat, height: nat, frameSequence: nat, lastFrameMs: nat)

  /** The manager: its status, the latest image, the boot policy, the capture task, and
      whether that task has a frame in hand between its two critical sections. */
  datatype Manager = Manager(status: Status, latestBytes: nat, keepEnabled: bool, capturing: bool, captured: bool)

  /** What the camera driver answers to an initialisation. */
  datatype Probe = InitFails | NoSensor | Found(name: string, pid: nat)

  datatype DriverFrame = DriverFrame(width: nat, height: nat, bytes: nat, wholeJpeg: bool)

  /** The name check of the gateway; the driver's sensor table holds only such names. */
  predicate BoundedText(text: string, maximum: nat) {
    1 <= |text| <= maximum && forall i :: 0 <= i < |text| ==> 32 <= text[i] as int && text[i] as int != 127
  }

  predicate DriverTells(probe: Probe) {
    probe.Found? ==> BoundedText(probe.name, 64) && probe.pid <= 0xFFFF
  }

  predicate Supported(name: string, pid: nat) { (name, pid) == OV2640 || (name, pid) == OV3660 }

  function Bump(n: nat): nat { (n + 1) % UINT32 }

  function Deinitialized(m: Manager): Manager {
    m.(status := m.status.(enabled := false, initialized := false, width := 0, height := 0, lastFrameMs := 0),
       latestBytes := 0)
  }

  /** `initialize_sensor_locked`. */
  function Initialized(m: Manager, probe: Probe): Manager {
    if m.status.initialized then m
    else
      match probe
      case InitFails => m
      case NoSensor => Deinitialized(m.(status := m.status.(initialized := true, enabled := true, generation := Bump(m.status.generation))))
      case Found(name, pid) =>
        var up := m.(status := m.status.(initialized := true, enabled := true, generation := Bump(m.status.generation),
          sensor := Sensor(true, name, pid, (name, pid) == OV2640, Supported(name, pid))));
        if Supported(name, pid) then up else Deinitialized(up)
  }

  /** `initialize` on a manager just constructed. */
  function Booted(keepEnabled: bool, psram: bool, size: nat, probe: Probe, taskCreated: bool): Manager {
    var blank := Status(false, false, false, 0, Sensor(false, "", 0, false, false), psram, if psram then size else 0, 0, 0, 0, 0);
    var m := Manager(blank, 0, keepEnabled, false, false);
    if !psram || size == 0 then m
    else
      var up := Initialized(m, probe);
      if taskCreated then up.(capturing := true) else Deinitialized(up)
  }

  function SetEnabled(m: Manager, enabled: bool, expected: nat, probe: Probe): Manager {
    if expected != m.status.generation || enabled == m.status.enabled then m
    else if enabled then Initialized(m.(keepEnabled := true), probe)
    else
      var down := Deinitialized(m);
      down.(status := down.status.(generation := Bump(m.status.generation)))
  }

  predicate ValidJpeg(f: DriverFrame) {
    f.wholeJpeg && f.width == FRAME_WIDTH && f.height == FRAME_HEIGHT && 4 <= f.bytes <= Media.MAX_JPEG_BYTES
  }

  /** The capture task's first critical section. */
  function Captured(m: Manager, frame: Option<DriverFrame>, nowMs: nat): Manager {
    if !(m.status.enabled && m.status.initialized) || frame.None? || !ValidJpeg(frame.value) then m.(captured := false)
    else m.(
      status := m.status.(width := frame.value.width, height := frame.value.height,
        frameSequence := Bump(m.status.frameSequence), lastFrameMs := nowMs,
        pinmapVerified := m.status.sensor.supported && m.status.psramInitialized),
      latestBytes := frame.value.bytes, captured := true)
  }

  /** ... and its second: back to standby after the probe frame, unless told to stay on. */
  function StoodBy(m: Manager): Manager {
    if m.keepEnabled then m.(captured := false)
    else
      var down := Deinitialized(m.(keepEnabled := true, captured := false));
      down.(status := down.status.(generation := Bump(m.status.generation)))
  }

  function CopyLatest(m: Manager): Option<Media.CapturedFrame> {
    if !m.status.enabled || !m.status.pinmapVerified || m.latestBytes == 0 then None
    else Some(Media.CapturedFrame(m.latestBytes, m.status.width, m.status.height, m.status.lastFrameMs))
  }

  class CameraManager {
    var status: Status
    var latestBytes: nat
    var enableAfterProbe: bool
    var capturing: bool
    var captured: bool

    ghost function Model(): Manager
      reads this
    {
      Manager(status, latestBytes, enableAfterProbe, capturing, captured)
    }

    constructor (psram: bool, size: nat)
      ensures Model() == Manager(Status(false, false, false, 0, Sensor(false, "", 0, false, false), psram,
        if psram then size else 0, 0, 0, 0, 0), 0, false, false, false)
    {
      status := Status(false, false, false, 0, Sensor(false, "", 0, false, false), psram, if psram then size else 0, 0, 0, 0, 0);
      latestBytes, enableAfterProbe, capturing, captured := 0, false, false, false;
    }

    method DeinitializeSensor()
      modifies this
      ensures Model() == Deinitialized(old(Model()))
    {
      status := status.(initialized := false, enabled := false, width := 0, height := 0, lastFrameMs := 0);
      latestBytes := 0;
    }

    method InitializeSensor(probe: Probe)
      modifies this
      ensures Model() == Initialized(old(Model()), probe)
    {
      if status.initialized || probe.InitFails? {
        return;
      }
      status := status.(initialized := true, enabled := true, generation := Bump(status.generation));
      if probe.NoSensor? {
        DeinitializeSensor();
        return;
      }
      status := status.(sensor := Sensor(true, probe.name, probe.pid, (probe.name, probe.pid) == OV2640, Supported(probe.name, probe.pid)));
      if !status.sensor.supported {
        DeinitializeSensor();
      }
    }

    method Switch(enabled: bool, expected: nat, probe: Probe)
      modifies this
      ensures Model() == SetEnabled(old(Model()), enabled, expected, probe)
    {
      if expected != status.generation || enabled == status.enabled {
        return;
      }
      if enabled {
        enableAfterProbe := true;
        InitializeSensor(probe);
      } else {
        DeinitializeSensor();
        status := status.(generation := Bump(status.generation));
      }
    }

    method CaptureFrame(frame: Option<DriverFrame>, nowMs: nat)
      modifies this
      ensures Model() == Captured(old(Model()), frame, nowMs)
    {
      captured := false;
      if status.enabled && status.initialized && frame.Some? && ValidJpeg(frame.value) {
        latestBytes := frame.value.bytes;
        status := status.(width := frame.value.width, height := frame.value.height,
          frameSequence := Bump(status.frameSequence), lastFrameMs := nowMs,
          pinmapVerified := status.sensor.supported && status.psramInitialized);
        captured := true;
      }
    }

    method StandBy()
      modifies this
      ensures Model() == StoodBy(old(Model()))
    {
      captured := false;
      if !enableAfterProbe {
        enableAfterProbe := true;
        DeinitializeSensor();
        status := status.(generation := Bump(status.generation));
      }
    }
  }

  // ----- The report and its check -----

  /** The camera object of the status response; `jpeg` is its pixel format. */
  datatype Report = Report(
    pinmapVerified: bool, enabled: bool, initialized: bool, generation: nat, detected: bool, name: Option<string>,
    pid: Option<nat>, ov2640: bool, supported: bool, psramInitialized: bool, psramSize: nat, width: Option<nat>,
    height: Option<nat>, jpeg: bool, frameSequence: nat, ageMs: Option<nat>, freshFrame: bool)

  function Reported(s: Status, nowMs: nat): Report {
    var hasFrame := s.lastFrameMs > 0 && nowMs >= s.lastFrameMs;
    var age := if hasFrame then nowMs - s.lastFrameMs else 0;
    var sized := s.width != 0 && s.height != 0;
    Report(
      s.pinmapVerified, s.enabled, s.initialized, s.generation, s.sensor.detected,
      if s.sensor.name == "" then None else Some(s.sensor.name),
      if s.sensor.name == "" then None else Some(s.sensor.pid),
      s.sensor.ov2640, s.sensor.supported, s.psramInitialized, s.psramSize,
      if sized then Some(s.width) else None, if sized then Some(s.height) else None, sized,
      s.frameSequence, if hasFrame then Some(age) else None,
      s.enabled && hasFrame && age <= FRESH_MS)
  }

  predicate SensorPasses(r: Report) {
    && (r.name.Some? ==> BoundedText(r.name.value, 64)) && (r.pid.Some? ==> r.pid.value <= 0xFFFF)
    && r.detected == (r.name.Some? && r.pid.Some?)
    && r.ov2640 == (r.detected && (r.name.value, r.pid.value) == OV2640)
    && r.supported == (r.detected && Supported(r.name.value, r.pid.value))
  }

  predicate SizePasses(r: Report) {
    && (r.width.Some? ==> r.width.value == FRAME_WIDTH) && (r.height.Some? ==> r.height.value == FRAME_HEIGHT)
    && (r.width.None? <==> r.height.None?) && (r.width.None? <==> !r.jpeg)
    && r.frameSequence <= 0x4000_0000_0000_0000
    && (r.ageMs.Some? ==> r.ageMs.value <= 0x4000_0000_0000_0000)
  }

  predicate ExactFrameClaim(r: Report) {
    && r.enabled && r.initialized && r.width == Some(FRAME_WIDTH) && r.height == Some(FRAME_HEIGHT) && r.jpeg
    && r.ageMs.Some? && r.ageMs.value <= FRESH_MS
  }

  predicate FreshPasses(r: Report) {
    && (r.freshFrame ==> ExactFrameClaim(r))
    && (!r.enabled ==> !r.initialized && !r.freshFrame && r.width.None?)
    && (r.freshFrame ==> r.pinmapVerified && r.supported && r.psramInitialized && r.psramSize > 0)
  }

  /** The camera part of `_status_evidence`, and the bound on the generation. */
  predicate Accepted(r: Report) {
    && SensorPasses(r)
    && r.psramSize <= 0x4000_0000 && r.psramInitialized == (r.psramSize > 0)
    && SizePasses(r) && FreshPasses(r)
    && r.generation <= MAX_GENERATION
  }

  // ----- Every reachable state -----

  datatype Step =
    | EnableOrDisable(enabled: bool, expected: nat, probe: Probe)
    | TaskCaptures(frame: Option<DriverFrame>, nowMs: nat)
    | TaskStandsBy

  predicate Enabled(m: Manager, step: Step) {
    match step
    case EnableOrDisable(_, _, probe) => DriverTells(probe)
    case TaskCaptures(_, _) => m.capturing && !m.captured
    case TaskStandsBy => m.capturing && m.captured
  }

  function Apply(m: Manager, step: Step): Manager {
    match step
    case EnableOrDisable(enabled, expected, probe) => SetEnabled(m, enabled, expected, probe)
    case TaskCaptures(frame, nowMs) => Captured(m, frame, nowMs)
    case TaskStandsBy => StoodBy(m)
  }

  ghost predicate Next(m: Manager, r: Manager) { exists step :: Enabled(m, step) && r == Apply(m, step) }

  ghost predicate Reachable(m: Manager) {
    exists keepEnabled, psram, size, probe, taskCreated ::
      DriverTells(probe) && size <= 0x4000_0000 && Follows(Next, Booted(keepEnabled, psram, size, probe, taskCreated), m)
  }

  ghost predicate Inv(m: Manager) {
    var s := m.status;
    && s.enabled == s.initialized
    && (!s.enabled ==> s.width == 0 && s.height == 0 && s.lastFrameMs == 0 && m.latestBytes == 0)
    && ((s.width == 0 && s.height == 0) || (s.width == FRAME_WIDTH && s.height == FRAME_HEIGHT))
    && (s.lastFrameMs > 0 || m.latestBytes > 0 ==> s.width == FRAME_WIDTH)
    && (m.latestBytes > 0 ==> 4 <= m.latestBytes <= Media.MAX_JPEG_BYTES)
    && s.sensor.detected == (s.sensor.name != "")
    && (s.sensor.detected ==> BoundedText(s.sensor.name, 64) && s.sensor.pid <= 0xFFFF)
    && s.sensor.ov2640 == (s.sensor.detected && (s.sensor.name, s.sensor.pid) == OV2640)
    && s.sensor.supported == (s.sensor.detected && Supported(s.sensor.name, s.sensor.pid))
    && (s.enabled ==> s.sensor.supported)
    && (m.capturing ==> s.psramInitialized && s.psramSize > 0)
    && (s.width == FRAME_WIDTH ==> s.psramInitialized && s.psramSize > 0 && s.pinmapVerified)
    && (!s.psramInitialized ==> s.psramSize == 0) && s.psramSize <= 0x4000_0000
    && s.generation < UINT32 && s.frameSequence < UINT32
  }

  lemma BootKeeps(keepEnabled: bool, psram: bool, size: nat, probe: Probe, taskCreated: bool)
    requires DriverTells(probe) && size <= 0x4000_0000
    ensures Inv(Booted(keepEnabled, psram, size, probe, taskCreated))
  {
  }

  lemma DeinitializedKeeps(m: Manager, generation: nat)
    requires generation < UINT32 && Inv(m)
    ensures Inv(Deinitialized(m).(status := Deinitialized(m).status.(generation := generation)))
    ensures Inv(Deinitialized(m))
  {
  }

  lemma InitializedKeeps(m: Manager, probe: Probe)
    requires Inv(m) && DriverTells(probe)
    ensures Inv(Initialized(m, probe))
  {
  }

  lemma CapturedKeeps(m: Manager, frame: Option<DriverFrame>, nowMs: nat)
    requires Inv(m) && m.capturing
    ensures Inv(Captured(m, frame, nowMs))
  {
  }

  lemma StepKeeps(m: Manager, step: Step)
    requires Inv(m) && Enabled(m, step)
    ensures Inv(Apply(m, step))
  {
    match step
    case EnableOrDisable(enabled, expected, probe) =>
      if enabled { InitializedKeeps(m.(keepEnabled := true), probe); } else { DeinitializedKeeps(m, Bump(m.status.generation)); }
    case TaskCaptures(frame, nowMs) => CapturedKeeps(m, frame, nowMs);
    case TaskStandsBy => DeinitializedKeeps(m.(keepEnabled := true, captured := false), Bump(m.status.generation));
  }

  lemma ReachableInv(m: Manager)
    requires Reachable(m)
    ensures Inv(m)
  {
    var keepEnabled, psram, size, probe, taskCreated :|
      DriverTells(probe) && size <= 0x4000_0000 && Follows(Next, Booted(keepEnabled, psram, size, probe, taskCreated), m);
    BootKeeps(keepEnabled, psram, size, probe, taskCreated);
    forall n, r | Inv(n) && Next(n, r) ensures Inv(r) {
      var step :| Enabled(n, step) && r == Apply(n, step);
      StepKeeps(n, step);
    }
    FollowsKeeps(Next, Inv, Booted(keepEnabled, psram, size, probe, taskCreated), m);
  }

  lemma ReportPasses(m: Manager, nowMs: nat)
    requires Inv(m) && nowMs <= 0x4000_0000_0000_0000
    ensures var r := Reported(m.status, nowMs); SensorPasses(r) && SizePasses(r) && FreshPasses(r)
  {
  }

  /** The gateway accepts the report of every reachable camera state, at whatever time it
      is read, exactly when PSRAM that is initialised has a size and the generation has
      not outgrown the gateway's bound. */
  lemma ReportsAreAcceptedExactly(m: Manager, nowMs: nat)
    requires Reachable(m) && nowMs <= 0x4000_0000_0000_0000
    ensures Accepted(Reported(m.status, nowMs)) <==>
      (m.status.psramInitialized ==> m.status.psramSize > 0) && m.status.generation <= MAX_GENERATION
  {
    ReachableInv(m);
    ReportPasses(m, nowMs);
  }

  /** It does go wrong otherwise: PSRAM that initialises with no size is reported, and refused. */
  lemma SizelessPsramIsRefused()
    ensures Reachable(Booted(false, true, 0, InitFails, false))
    ensures !Accepted(Reported(Booted(false, true, 0, InitFails, false).status, 0))
  {
    var m := Booted(false, true, 0, InitFails, false);
    assert Leads(Next, m, m, 0);
  }

  /** A generation stands for one setting: whenever the camera goes on or off, by request,
      by a failed probe or into standby, the generation is a new one, and a request with
      an outdated generation changes nothing. */
  lemma SwitchingIsANewGeneration(m: Manager, step: Step)
    requires Reachable(m) && Enabled(m, step)
    ensures var r := Apply(m, step);
      && (r.status.enabled != m.status.enabled ==> r.status.generation == Bump(m.status.generation) != m.status.generation)
      && (step.EnableOrDisable? && step.expected != m.status.generation ==> r == m)
      && (r.latestBytes > 0 && m.latestBytes > 0 ==> r.status.generation == m.status.generation)
  {
    ReachableInv(m);
  }

  /** Frames handed to the media store are whole images of the one supported size. */
  lemma FramesHandedOutAreSound(m: Manager)
    requires Reachable(m)
    ensures MediaSafety.Sound(CopyLatest(m))
  {
    ReachableInv(m);
  }

  /** A switch request at the current generation is obeyed: switching off leaves the sensor
      off with nothing to hand out, switching on leaves it on exactly if it was or a
      supported sensor answers; and what is so already stays with its generation. */
  lemma SwitchObeys(m: Manager, wanted: bool, probe: Probe)
    requires Reachable(m) && DriverTells(probe)
    ensures var r := Apply(m, EnableOrDisable(wanted, m.status.generation, probe));
      && (!wanted ==> !r.status.enabled && !r.status.initialized && CopyLatest(r).None?)
      && (wanted ==> (r.status.enabled <==> m.status.enabled || (probe.Found? && Supported(probe.name, probe.pid))))
      && (m.status.enabled == wanted ==> r == m)
      && (m.status.enabled != r.status.enabled ==> r.status.generation != m.status.generation)
      && (wanted && !m.status.enabled && probe.Found? ==>
            r.status.sensor.name == probe.name && r.status.sensor.pid == probe.pid
            && (r.status.sensor.supported <==> Supported(probe.name, probe.pid)))
      && (wanted && !m.status.enabled ==> r.keepEnabled)
  {
    ReachableInv(m);
  }

  /** A whole image of the one size, captured while the sensor is on, is the one handed out
      from then on; anything else leaves what was handed out. */
  lemma CapturedIsHandedOut(m: Manager, frame: Option<DriverFrame>, nowMs: nat)
    requires Reachable(m) && Enabled(m, TaskCaptures(frame, nowMs))
    ensures var r := Apply(m, TaskCaptures(frame, nowMs));
      if m.status.enabled && frame.Some? && frame.value.wholeJpeg && frame.value.width == 640 && frame.value.height == 480
         && 4 <= frame.value.bytes <= 256 * 1024
      then CopyLatest(r) == Some(Media.CapturedFrame(frame.value.bytes, 640, 480, nowMs)) && r.captured
           && r.status.generation == m.status.generation
      else CopyLatest(r) == CopyLatest(m) && r.status == m.status && !r.captured
  {
    ReachableInv(m);
  }

  /** After the probe frame the camera goes to standby, once; a camera told to stay on, or
      switched on since, keeps its image. */
  lemma ProbeStandsByOnce(m: Manager)
    requires Reachable(m) && Enabled(m, TaskStandsBy)
    ensures var r := Apply(m, TaskStandsBy);
      r.keepEnabled && !r.captured
      && if m.keepEnabled then r.status == m.status && CopyLatest(r) == CopyLatest(m)
         else !r.status.enabled && CopyLatest(r).None? && r.status.generation == Bump(m.status.generation)
              && r.status.pinmapVerified == m.status.pinmapVerified
  {
    ReachableInv(m);
  }

  /** With PSRAM, a supported sensor and its capture task the camera comes up capturing;
      without the task, or without PSRAM, it stays off. */
  lemma BootCaptures(keepEnabled: bool, psram: bool, size: nat, probe: Probe, taskCreated: bool)
    ensures var m := Booted(keepEnabled, psram, size, probe, taskCreated);
      && (m.status.enabled <==> psram && size > 0 && taskCreated && probe.Found? && Supported(probe.name, probe.pid))
      && (m.capturing <==> psram && size > 0 && taskCreated) && m.keepEnabled == keepEnabled && !m.captured
      && m.status.psramInitialized == psram && (psram ==> m.status.psramSize == size)
  {
  }

  /** A frame that was captured is reported with its size and age, as fresh for two seconds. */
  lemma CapturedIsReported(m: Manager, frame: Option<DriverFrame>, takenMs: nat, nowMs: nat)
    requires Reachable(m) && Enabled(m, TaskCaptures(frame, takenMs)) && 0 < takenMs <= nowMs
    requires m.status.enabled && frame.Some? && ValidJpeg(frame.value)
    ensures var r := Reported(Apply(m, TaskCaptures(frame, takenMs)).status, nowMs);
      && r.enabled && r.pinmapVerified && r.width == Some(640) && r.height == Some(480) && r.jpeg
      && r.ageMs == Some(nowMs - takenMs) && (r.freshFrame <==> nowMs - takenMs <= 2000)
      && r.generation == m.status.generation
  {
    ReachableInv(m);
  }
}
