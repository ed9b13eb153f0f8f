/** `ButtonActivity`: two on-screen buttons whose pressed state rides along
    with the telemetry, optional vibration while a button is held, and a
    sender loop that transmits a packet about every 50 ms. */
module ButtonScreen {
  import opened Wrappers
  import opened JavaText
  import opened Pairs
  import opened Telemetry
  import opened DiscoveryCodec

  /** The extras `MainActivity` puts into the launching intent; `None` is an
      absent extra. */
  datatype Intent = Intent(
    targetIp: Option<string>,
    targetPort: Option<int>,
    invertPitch: Option<bool>,
    invertYaw: Option<bool>,
    vibrateOnPress: Option<bool>,
    deviceInfo: Option<string>,
    phoneIp: Option<string>)

  /** `getBooleanExtra(name, false)`. */
  function FlagOf(extra: Option<bool>): bool {
    extra.Some? && extra.value
  }

  /** `getIntExtra("TARGET_PORT", 20103)`. */
  function PortOf(extra: Option<int>): (p: int)
    ensures extra.None? ==> p == DefaultReceiverPort
    ensures extra.Some? ==> p == extra.value
  {
    match extra
    case None => DefaultReceiverPort
    case Some(p) => p
  }

  /** The `vibrator` field: `null`, or a service that has a motor or not. */
  datatype VibratorRef = NoVibrator | Vibrator(hasMotor: bool)

  datatype ButtonId = Button1 | Button2

  function Other(id: ButtonId): ButtonId {
    if id == Button1 then Button2 else Button1
  }

  /** `MotionEvent.getAction()` as the listeners distinguish it. */
  datatype TouchAction = ActionDown | ActionUp | ActionCancel | OtherAction

  // ---------------------------------------------------------------------
  // The touch state machine
  // ---------------------------------------------------------------------

  /** The fields the touch listeners change: the two pressed flags, the two
      `shouldVibrateButtonN` flags, and whether a repeating vibration has
      been started and not cancelled since. */
  datatype Buttons = Buttons(pressed1: bool, pressed2: bool, shouldVibrate1: bool, shouldVibrate2: bool, vibrating: bool)

  const Released := Buttons(false, false, false, false, false)

  function PressedOf(b: Buttons, id: ButtonId): bool {
    if id == Button1 then b.pressed1 else b.pressed2
  }

  function ShouldVibrateOf(b: Buttons, id: ButtonId): bool {
    if id == Button1 then b.shouldVibrate1 else b.shouldVibrate2
  }

  /** The flags a well-behaved run keeps: a button asks for vibration only
      while pressed and only with vibrate-on-press set, and a vibration runs
      only while some button asks for it and there is a motor. */
  predicate ButtonsValid(b: Buttons, vibrateOnPress: bool, vib: VibratorRef) {
    (b.shouldVibrate1 ==> b.pressed1 && vibrateOnPress) &&
    (b.shouldVibrate2 ==> b.pressed2 && vibrateOnPress) &&
    (b.vibrating ==> (b.shouldVibrate1 || b.shouldVibrate2) && vib.Vibrator? && vib.hasMotor)
  }

  /** `startContinuousVibration`: a repeating waveform, when there is a motor. */
  function StartVibration(b: Buttons, vib: VibratorRef): (r: Buttons)
    ensures r.vibrating <==> b.vibrating || (vib.Vibrator? && vib.hasMotor)
    ensures r.(vibrating := b.vibrating) == b
  {
    if vib.Vibrator? && vib.hasMotor then b.(vibrating := true) else b
  }

  /** `stopVibrationIfNeeded`: cancel only when neither button still asks. */
  function StopIfNeeded(b: Buttons, vib: VibratorRef): (r: Buttons)
    ensures b.shouldVibrate1 || b.shouldVibrate2 ==> r == b
    ensures !b.shouldVibrate1 && !b.shouldVibrate2 && vib != NoVibrator ==> !r.vibrating
    ensures r.(vibrating := b.vibrating) == b
  {
    if !b.shouldVibrate1 && !b.shouldVibrate2 && vib != NoVibrator then b.(vibrating := false) else b
  }

  /** One touch event on one button. */
  function TouchStep(b: Buttons, vibrateOnPress: bool, vib: VibratorRef, id: ButtonId, a: TouchAction): (r: Buttons)
    ensures a == ActionDown ==> PressedOf(r, id) && (ShouldVibrateOf(r, id) <==> vibrateOnPress || ShouldVibrateOf(b, id))
    ensures a == ActionUp || a == ActionCancel ==> !PressedOf(r, id) && !ShouldVibrateOf(r, id)
    ensures a == OtherAction ==> r == b
    ensures PressedOf(r, Other(id)) == PressedOf(b, Other(id))
    ensures ShouldVibrateOf(r, Other(id)) == ShouldVibrateOf(b, Other(id))
  {
    match a
    case ActionDown =>
      var pressed := if id == Button1 then b.(pressed1 := true) else b.(pressed2 := true);
      if vibrateOnPress then
        StartVibration(if id == Button1 then pressed.(shouldVibrate1 := true) else pressed.(shouldVibrate2 := true), vib)
      else pressed
    case ActionUp => Release(b, vib, id)
    case ActionCancel => Release(b, vib, id)
    case OtherAction => b
  }

  /** `ACTION_UP` and `ACTION_CANCEL`: clear both flags of the button, then
      stop the vibration if no button still asks for it. */
  function Release(b: Buttons, vib: VibratorRef, id: ButtonId): (r: Buttons)
    ensures !PressedOf(r, id) && !ShouldVibrateOf(r, id)
    ensures PressedOf(r, Other(id)) == PressedOf(b, Other(id)) && ShouldVibrateOf(r, Other(id)) == ShouldVibrateOf(b, Other(id))
    ensures r.vibrating <==> b.vibrating && (ShouldVibrateOf(b, Other(id)) || vib == NoVibrator)
  {
    StopIfNeeded(if id == Button1 then b.(pressed1 := false, shouldVibrate1 := false)
                 else b.(pressed2 := false, shouldVibrate2 := false), vib)
  }

  /** Every touch event keeps the flags consistent. */
  lemma TouchKeepsValid(b: Buttons, vibrateOnPress: bool, vib: VibratorRef, id: ButtonId, a: TouchAction)
    requires ButtonsValid(b, vibrateOnPress, vib)
    ensures ButtonsValid(TouchStep(b, vibrateOnPress, vib, id, a), vibrateOnPress, vib)
  {
  }

  /** Pressing a button asks for vibration exactly when vibrate-on-press is
      set, and then the motor (if any) runs. */
  lemma PressVibratesIff(b: Buttons, vibrateOnPress: bool, vib: VibratorRef, id: ButtonId)
    requires ButtonsValid(b, vibrateOnPress, vib)
    ensures var r := TouchStep(b, vibrateOnPress, vib, id, ActionDown);
            (ShouldVibrateOf(r, id) <==> vibrateOnPress) &&
            (vibrateOnPress && vib.Vibrator? && vib.hasMotor ==> r.vibrating) &&
            (!vibrateOnPress ==> r.vibrating == b.vibrating)
  {
  }

  /** Releasing one button while the other still asks for vibration keeps
      the vibration going. */
  lemma ReleaseWhileOtherHeld(b: Buttons, vibrateOnPress: bool, vib: VibratorRef, id: ButtonId, a: TouchAction)
    requires ButtonsValid(b, vibrateOnPress, vib)
    requires a == ActionUp || a == ActionCancel
    requires ShouldVibrateOf(b, Other(id))
    ensures TouchStep(b, vibrateOnPress, vib, id, a).vibrating == b.vibrating
  {
  }

  /** Releasing the last button that asks for vibration stops it. */
  lemma ReleaseLastStops(b: Buttons, vibrateOnPress: bool, vib: VibratorRef, id: ButtonId, a: TouchAction)
    requires ButtonsValid(b, vibrateOnPress, vib)
    requires a == ActionUp || a == ActionCancel
    requires !ShouldVibrateOf(b, Other(id))
    ensures !TouchStep(b, vibrateOnPress, vib, id, a).vibrating
  {
  }

  /** Pressing and releasing a button with the other one idle returns the
      flags to where they were. */
  lemma PressReleaseRestores(b: Buttons, vibrateOnPress: bool, vib: VibratorRef, id: ButtonId)
    requires ButtonsValid(b, vibrateOnPress, vib)
    requires !PressedOf(b, id) && !PressedOf(b, Other(id))
    ensures TouchStep(TouchStep(b, vibrateOnPress, vib, id, ActionDown), vibrateOnPress, vib, id, ActionUp) == b
  {
  }

  // ---------------------------------------------------------------------
  // The sender loop
  // ---------------------------------------------------------------------

  /** A callback the UI thread runs while the sender thread sleeps. */
  datatype UiEvent = Sensed(event: SensorEvent) | Touched(id: ButtonId, action: TouchAction)

  /** What the sender thread meets at one turn of its loop: the value of
      `isRunning` its check reads (other threads may have cleared it),
      whether the 50 ms sleep after the packet is interrupted, and the
      sensor and touch callbacks that run during that sleep. */
  datatype Tick = Tick(running: bool, interrupted: bool, during: seq<UiEvent>)

  /** The reading and the touch flags the callbacks leave behind. */
  datatype Shared = Shared(reading: Sample, buttons: Buttons)

  /** One callback: a sensor event records its values, a touch event steps
      the touch state machine. */
  function ApplyEvent(st: Shared, e: UiEvent, vibrateOnPress: bool, vib: VibratorRef): Shared {
    match e
    case Sensed(ev) => st.(reading := Record(st.reading, ev))
    case Touched(id, a) => st.(buttons := TouchStep(st.buttons, vibrateOnPress, vib, id, a))
  }

  /** The callbacks of one sleep, in order. */
  function ApplyEvents(st: Shared, events: seq<UiEvent>, vibrateOnPress: bool, vib: VibratorRef): Shared {
    if events == [] then st
    else ApplyEvent(ApplyEvents(st, events[..|events| - 1], vibrateOnPress, vib), events[|events| - 1], vibrateOnPress, vib)
  }

  /** What `sendUdpPacket` reads besides the reading and the buttons:
      whether the socket is open and the address resolved, the target port,
      the inversion switches, and the two intent strings. */
  datatype SendConfig = SendConfig(ready: bool, port: int, inversion: Inversion, deviceInfo: Option<string>, phoneIp: Option<string>)

  /** The packet sent from `c` when the shared fields hold `st`: nothing
      without an open socket and a resolved address or with a port no
      datagram can carry (the checked send; `PacketIsCheckedSend`). */
  function PacketWith(f: Formatter, c: SendConfig, st: Shared): Option<string> {
    if !c.ready || !IsUdpPort(c.port) then None
    else Some(Payload(f, Invert(st.reading, c.inversion),
                      ButtonExtras(c.deviceInfo, c.phoneIp, st.buttons.pressed1, st.buttons.pressed2)))
  }

  /** The button screen's packet is the checked send of its payload, so it
      never crashes where the code as written does (`SendAsWritten`). */
  lemma PacketIsCheckedSend(f: Formatter, c: SendConfig, st: Shared)
    ensures var payload := Payload(f, Invert(st.reading, c.inversion),
                                   ButtonExtras(c.deviceInfo, c.phoneIp, st.buttons.pressed1, st.buttons.pressed2));
            PacketWith(f, c, st) == CheckedSend(c.ready, c.port, payload) &&
            (SendAsWritten(c.ready, c.port, payload).Crashed? ==> PacketWith(f, c, st).None?)
  {
  }

  /** The packets of the first `n` turns, each built from the fields as the
      callbacks of the earlier sleeps left them. */
  function SentPackets(f: Formatter, c: SendConfig, st: Shared, ticks: seq<Tick>, n: nat, vibrateOnPress: bool, vib: VibratorRef): seq<Option<string>>
    requires n <= |ticks|
  {
    if n == 0 then []
    else SentPackets(f, c, st, ticks, n - 1, vibrateOnPress, vib) + [PacketWith(f, c, AfterTurns(st, ticks[..n - 1], vibrateOnPress, vib))]
  }

  lemma {:induction false} SentPacketsAt(f: Formatter, c: SendConfig, st: Shared, ticks: seq<Tick>, n: nat, vibrateOnPress: bool, vib: VibratorRef)
    requires n <= |ticks|
    ensures var sent := SentPackets(f, c, st, ticks, n, vibrateOnPress, vib);
            |sent| == n &&
            forall k :: 0 <= k < n ==> sent[k] == PacketWith(f, c, AfterTurns(st, ticks[..k], vibrateOnPress, vib))
  {
    if n > 0 {
      SentPacketsAt(f, c, st, ticks, n - 1, vibrateOnPress, vib);
    }
  }

  /** One more turn adds the callbacks of its sleep. */
  lemma AfterNextTurn(st: Shared, ticks: seq<Tick>, i: nat, vibrateOnPress: bool, vib: VibratorRef)
    requires i < |ticks|
    ensures AfterTurns(st, ticks[..i + 1], vibrateOnPress, vib) ==
              ApplyEvents(AfterTurns(st, ticks[..i], vibrateOnPress, vib), ticks[i].during, vibrateOnPress, vib)
  {
    assert ticks[..i + 1][..i] == ticks[..i];
  }

  /** What the fields hold after the sleeps of the given turns. */
  function AfterTurns(st: Shared, ticks: seq<Tick>, vibrateOnPress: bool, vib: VibratorRef): Shared {
    if ticks == [] then st
    else ApplyEvents(AfterTurns(st, ticks[..|ticks| - 1], vibrateOnPress, vib), ticks[|ticks| - 1].during, vibrateOnPress, vib)
  }

  /** How many packets the loop sends over the observed turns: it stops at
      the first check that reads `false`, and right after a packet whose
      sleep is interrupted. */
  function SenderRounds(ticks: seq<Tick>): (n: nat)
    ensures n <= |ticks|
  {
    if ticks == [] || !ticks[0].running then 0
    else if ticks[0].interrupted then 1
    else 1 + SenderRounds(ticks[1..])
  }

  /** Every turn that sent a packet read `isRunning` as true, and every one
      but the last slept without interruption; the loop ends at the first
      turn that reads `false` or after the first interrupted sleep. */
  lemma {:induction false} SenderRoundsExact(ticks: seq<Tick>)
    ensures var n := SenderRounds(ticks);
            (forall k :: 0 <= k < n ==> ticks[k].running) &&
            (forall k :: 0 <= k < n - 1 ==> !ticks[k].interrupted) &&
            (n == |ticks| || !ticks[n].running || (n > 0 && ticks[n - 1].interrupted))
  {
    if ticks != [] && ticks[0].running && !ticks[0].interrupted {
      var rest := ticks[1..];
      SenderRoundsExact(rest);
      var n := SenderRounds(ticks);
      assert n == 1 + SenderRounds(rest);
      forall k | 0 < k < n
        ensures ticks[k] == rest[k - 1]
      {
      }
    }
  }

  /** A loop that reads `false` at its first check sends nothing. */
  lemma NotRunningSendsNothing(ticks: seq<Tick>)
    requires |ticks| > 0 && !ticks[0].running
    ensures SenderRounds(ticks) == 0
  {
  }

  /** What a receiver reads from a button packet: the pitch sent negated iff
      `invertPitch`, and `button1`/`button2` equal to `"true"` exactly for a
      pressed button. */
  lemma ButtonPayloadReads(f: Formatter, s: Sample, inv: Inversion, dev: Option<string>, phoneIp: Option<string>, pressed1: bool, pressed2: bool)
    requires PlainFormatter(f)
    requires PlainValue(NullableText(dev)) && PlainValue(NullableText(phoneIp))
    ensures var extras := ButtonExtras(dev, phoneIp, pressed1, pressed2);
            var r := ReadTelemetry(Payload(f, Invert(s, inv), extras));
            r.Some? &&
            "head_pos_pitch" in r.value.0 &&
            r.value.0["head_pos_pitch"] == f.fixed2(if inv.invertPitch then -s.pitch else s.pitch) &&
            "button1" in r.value.1 && (r.value.1["button1"] == "true" <==> pressed1) &&
            "button2" in r.value.1 && (r.value.1["button2"] == "true" <==> pressed2)
  {
    var extras := ButtonExtras(dev, phoneIp, pressed1, pressed2);
    var o := Invert(s, inv);
    assert o.pitch == if inv.invertPitch then -s.pitch else s.pitch;
    ButtonExtrasPlain(dev, phoneIp, pressed1, pressed2);
    ReadPayload(f, o, extras);
    var motion := MapOf(MotionFields(f, o));
    var extra := MapOf(extras);
    assert ReadTelemetry(Payload(f, o, extras)) == Some((motion, extra));
    MotionMapFields(f, o);
    ButtonMapFields(dev, phoneIp, pressed1, pressed2);
  }

  // ---------------------------------------------------------------------
  // The activity
  // ---------------------------------------------------------------------

  class ButtonActivity {
    var button1Pressed: bool
    var button2Pressed: bool
    var shouldVibrateButton1: bool
    var shouldVibrateButton2: bool
    /** A repeating vibration was started and not cancelled since. */
    var vibrating: bool

    /** `currentPitch`, `currentRoll` and the three `angularVel` fields. */
    var reading: Sample

    var invertPitch: bool
    var invertYaw: bool
    var vibrateOnPress: bool

    var targetIp: Option<string>
    var targetPort: int
    /** `targetInetAddress`: the host it was resolved from, or `null`. */
    var targetAddress: Option<string>
    var sendSocket: SocketRef
    var deviceInfo: Option<string>
    var phoneIp: Option<string>

    var vibrator: VibratorRef
    /** `sensorManager != null`. */
    var sensorManagerReady: bool
    var sensorsRegistered: bool
    /** `udpSenderThread != null`. */
    var senderThread: bool
    var isRunning: bool
    /** `finish()` was called. */
    var finished: bool

    function ButtonState(): Buttons
      reads this
    {
      Buttons(button1Pressed, button2Pressed, shouldVibrateButton1, shouldVibrateButton2, vibrating)
    }

    ghost predicate Valid()
      reads this
    {
      ButtonsValid(ButtonState(), vibrateOnPress, vibrator) &&
      sendSocket != ClosedSocket &&
      (isRunning ==> senderThread && sendSocket == OpenSocket && targetAddress.Some?) &&
      (sensorsRegistered ==> sensorManagerReady)
    }

    /** `onCreate`: read the extras; finish at once without a target address
        text; otherwise set up sensors and vibrator, resolve the address and
        open the socket, finishing if either fails; only then start the
        sender. */
    constructor (intent: Intent, hostResolves: bool, socketOpens: bool, vibratorService: VibratorRef)
      ensures Valid()
      ensures targetIp == intent.targetIp && targetPort == PortOf(intent.targetPort)
      ensures invertPitch == FlagOf(intent.invertPitch) && invertYaw == FlagOf(intent.invertYaw)
      ensures vibrateOnPress == FlagOf(intent.vibrateOnPress)
      ensures deviceInfo == intent.deviceInfo && phoneIp == intent.phoneIp
      ensures ButtonState() == Released && reading == ZeroSample
      ensures var hasTarget := intent.targetIp.Some? && intent.targetIp.value != [];
              sensorManagerReady == hasTarget && sensorsRegistered == hasTarget &&
              vibrator == (if hasTarget then vibratorService else NoVibrator) &&
              (targetAddress.Some? <==> hasTarget && hostResolves) &&
              (isRunning <==> hasTarget && hostResolves && socketOpens) &&
              finished == !isRunning
      ensures targetAddress.Some? ==> targetAddress == intent.targetIp
      ensures senderThread == isRunning && (sendSocket == OpenSocket) == isRunning
    {
      button1Pressed, button2Pressed := false, false;
      shouldVibrateButton1, shouldVibrateButton2 := false, false;
      vibrating := false;
      reading := ZeroSample;
      targetIp := intent.targetIp;
      targetPort := PortOf(intent.targetPort);
      invertPitch := FlagOf(intent.invertPitch);
      invertYaw := FlagOf(intent.invertYaw);
      vibrateOnPress := FlagOf(intent.vibrateOnPress);
      deviceInfo := intent.deviceInfo;
      phoneIp := intent.phoneIp;
      targetAddress := None;
      sendSocket := NoSocket;
      vibrator := NoVibrator;
      sensorManagerReady := false;
      sensorsRegistered := false;
      senderThread := false;
      isRunning := false;
      finished := false;
      if intent.targetIp.None? || intent.targetIp.value == [] {
        finished := true;
      } else {
        sensorManagerReady := true;
        sensorsRegistered := true;
        vibrator := vibratorService;
        if !hostResolves {
          finished := true;
        } else {
          targetAddress := intent.targetIp;
          if !socketOpens {
            finished := true;
          } else {
            sendSocket := OpenSocket;
            isRunning := true;
            senderThread := true;
          }
        }
      }
    }

    method StartContinuousVibration()
      modifies this`vibrating
      ensures ButtonState() == StartVibration(old(ButtonState()), vibrator)
    {
      if vibrator.Vibrator? && vibrator.hasMotor {
        vibrating := true;
      }
    }

    method StopVibrationIfNeeded()
      modifies this`vibrating
      ensures ButtonState() == StopIfNeeded(old(ButtonState()), vibrator)
    {
      if !shouldVibrateButton1 && !shouldVibrateButton2 {
        if vibrator != NoVibrator {
          vibrating := false;
        }
      }
    }

    /** The two touch listeners. */
    method Touch(id: ButtonId, action: TouchAction)
      requires Valid()
      modifies this`button1Pressed, this`button2Pressed, this`shouldVibrateButton1, this`shouldVibrateButton2, this`vibrating
      ensures Valid()
      ensures ButtonState() == TouchStep(old(ButtonState()), vibrateOnPress, vibrator, id, action)
    {
      TouchKeepsValid(ButtonState(), vibrateOnPress, vibrator, id, action);
      if action == ActionDown {
        Press(id);
      } else if action == ActionUp || action == ActionCancel {
        ReleaseButton(id);
      }
    }

    /** `ACTION_DOWN` on one button. */
    method Press(id: ButtonId)
      modifies this`button1Pressed, this`button2Pressed, this`shouldVibrateButton1, this`shouldVibrateButton2, this`vibrating
      ensures ButtonState() == TouchStep(old(ButtonState()), vibrateOnPress, vibrator, id, ActionDown)
    {
      if id == Button1 {
        button1Pressed := true;
        if vibrateOnPress {
          shouldVibrateButton1 := true;
          StartContinuousVibration();
        }
      } else {
        button2Pressed := true;
        if vibrateOnPress {
          shouldVibrateButton2 := true;
          StartContinuousVibration();
        }
      }
    }

    /** `ACTION_UP` or `ACTION_CANCEL` on one button. */
    method ReleaseButton(id: ButtonId)
      modifies this`button1Pressed, this`button2Pressed, this`shouldVibrateButton1, this`shouldVibrateButton2, this`vibrating
      ensures ButtonState() == Release(old(ButtonState()), vibrator, id)
    {
      if id == Button1 {
        button1Pressed := false;
        shouldVibrateButton1 := false;
      } else {
        button2Pressed := false;
        shouldVibrateButton2 := false;
      }
      StopVibrationIfNeeded();
    }

    /** `onSensorChanged`: store the reading (no other guard here). */
    method OnSensorChanged(e: SensorEvent)
      modifies this`reading
      ensures reading == Record(old(reading), e)
    {
      match e
      case Gyroscope(x, y, z) =>
        reading := reading.(velYaw := z, velPitch := x, velRoll := y);
      case RotationVector(p, q) =>
        reading := reading.(pitch := p, roll := q);
      case OtherSensor =>
    }

    /** What the shared fields hold now. */
    function SharedState(): Shared
      reads this
    {
      Shared(reading, ButtonState())
    }

    /** The packet `sendUdpPacket` sends when the shared fields hold `st`:
        nothing without an open socket and a resolved address. */
    function PacketFor(f: Formatter, st: Shared): Option<string>
      reads this
    {
      PacketWith(f, Config(), st)
    }

    /** The fields `sendUdpPacket` reads besides the shared ones. */
    function Config(): SendConfig
      reads this`sendSocket, this`targetAddress, this`targetPort, this`invertPitch, this`invertYaw, this`deviceInfo, this`phoneIp
    {
      SendConfig(sendSocket == OpenSocket && targetAddress.Some?, targetPort, Inversion(invertPitch, invertYaw), deviceInfo, phoneIp)
    }

    /** The packet `sendUdpPacket` would send now. */
    function Packet(f: Formatter): Option<string>
      reads this
    {
      PacketFor(f, SharedState())
    }

    /** `sendUdpPacket`, with the port checked before the datagram is
        built (the code as written crashes instead; see `SendAsWritten`). */
    method SendUdpPacket(f: Formatter) returns (packet: Option<string>)
      ensures packet.Some? <==> sendSocket == OpenSocket && targetAddress.Some? && IsUdpPort(targetPort)
      ensures packet == Packet(f)
    {
      if sendSocket != OpenSocket || targetAddress.None? {
        return None;
      }
      var outputPitch := if invertPitch then -reading.pitch else reading.pitch;
      var outputYaw := if invertYaw then -reading.velYaw else reading.velYaw;
      var out := reading.(pitch := outputPitch, velYaw := outputYaw);
      var payload := Payload(f, out, ButtonExtras(deviceInfo, phoneIp, button1Pressed, button2Pressed));
      if !IsUdpPort(targetPort) {
        return None;
      }
      packet := Some(payload);
    }

    /** The callbacks that run during one sleep of the sender thread. */
    method RunCallbacks(events: seq<UiEvent>)
      requires Valid()
      modifies this`reading, this`button1Pressed, this`button2Pressed, this`shouldVibrateButton1, this`shouldVibrateButton2, this`vibrating
      ensures Valid()
      ensures SharedState() == ApplyEvents(old(SharedState()), events, vibrateOnPress, vibrator)
    {
      var j := 0;
      while j < |events|
        invariant 0 <= j <= |events| && Valid()
        invariant SharedState() == ApplyEvents(old(SharedState()), events[..j], vibrateOnPress, vibrator)
      {
        assert events[..j + 1][..j] == events[..j];
        match events[j] {
          case Sensed(e) => OnSensorChanged(e);
          case Touched(id, a) => Touch(id, a);
        }
        j := j + 1;
      }
      assert events[..j] == events;
    }

    /** One turn of the sender loop: a packet, then the sleep during which
        the callbacks run. */
    method SenderTurn(f: Formatter, during: seq<UiEvent>) returns (packet: Option<string>)
      requires Valid()
      modifies this`reading, this`button1Pressed, this`button2Pressed, this`shouldVibrateButton1, this`shouldVibrateButton2, this`vibrating
      ensures Valid()
      ensures Config() == old(Config())
      ensures packet == PacketWith(f, Config(), old(SharedState()))
      ensures SharedState() == ApplyEvents(old(SharedState()), during, vibrateOnPress, vibrator)
    {
      packet := SendUdpPacket(f);
      RunCallbacks(during);
    }

    /** Turn `i` of the sender loop, its packet appended to those of the
        turns before it. */
    method SenderStep(f: Formatter, ticks: seq<Tick>, i: nat, start: Shared, sent: seq<Option<string>>) returns (sent': seq<Option<string>>)
      requires Valid() && i < |ticks|
      requires sent == SentPackets(f, Config(), start, ticks, i, vibrateOnPress, vibrator)
      requires SharedState() == AfterTurns(start, ticks[..i], vibrateOnPress, vibrator)
      modifies this`reading, this`button1Pressed, this`button2Pressed, this`shouldVibrateButton1, this`shouldVibrateButton2, this`vibrating
      ensures Valid() && Config() == old(Config())
      ensures sent' == SentPackets(f, Config(), start, ticks, i + 1, vibrateOnPress, vibrator)
      ensures SharedState() == AfterTurns(start, ticks[..i + 1], vibrateOnPress, vibrator)
    {
      var packet := SenderTurn(f, ticks[i].during);
      sent' := sent + [packet];
      AfterNextTurn(start, ticks, i, vibrateOnPress, vibrator);
    }

    /** The loop of the sender thread: a packet per turn while `isRunning`
        reads true, leaving the loop when the sleep is interrupted. Each
        packet carries the reading and the button flags as the callbacks of
        the earlier sleeps left them. */
    method RunSender(f: Formatter, ticks: seq<Tick>) returns (sent: seq<Option<string>>)
      requires Valid()
      modifies this`reading, this`button1Pressed, this`button2Pressed, this`shouldVibrateButton1, this`shouldVibrateButton2, this`vibrating
      ensures Valid()
      ensures |sent| == SenderRounds(ticks)
      ensures forall k :: 0 <= k < |sent| ==>
                sent[k] == PacketFor(f, AfterTurns(old(SharedState()), ticks[..k], vibrateOnPress, vibrator))
      ensures SharedState() == AfterTurns(old(SharedState()), ticks[..|sent|], vibrateOnPress, vibrator)
    {
      var start := SharedState();
      var config := Config();
      sent := [];
      var i := 0;
      var stop := false;
      while !stop && i < |ticks| && ticks[i].running
        invariant 0 <= i <= |ticks| && Valid()
        invariant stop ==> |sent| == SenderRounds(ticks) && |sent| == i + 1 <= |ticks|
        invariant !stop ==> |sent| == i && SenderRounds(ticks) == i + SenderRounds(ticks[i..])
        invariant |sent| <= |ticks| && sent == SentPackets(f, config, start, ticks, |sent|, vibrateOnPress, vibrator)
        invariant config == Config()
        invariant SharedState() == AfterTurns(start, ticks[..|sent|], vibrateOnPress, vibrator)
        decreases |ticks| - i, !stop
      {
        sent := SenderStep(f, ticks, i, start, sent);
        assert ticks[i..][1..] == ticks[i + 1..];
        if ticks[i].interrupted {
          stop := true;
        } else {
          i := i + 1;
        }
      }
      if !stop {
        if i < |ticks| {
          assert !ticks[i..][0].running;
        }
      }
      SentPacketsAt(f, config, start, ticks, |sent|, vibrateOnPress, vibrator);
    }

    /** `cleanup` as written: it unregisters the sensor listener through
        `sensorManager` without a null check, so it throws when `onCreate`
        finished before creating the sensor manager; the socket is then left
        as it was. */
    method CleanupAsWritten() returns (crashed: bool)
      requires Valid()
      modifies this`isRunning, this`senderThread, this`vibrating, this`sensorsRegistered, this`sendSocket
      ensures crashed <==> !sensorManagerReady
      ensures !isRunning && !senderThread
      ensures vibrating == (old(vibrating) && vibrator == NoVibrator)
      ensures crashed ==> sendSocket == old(sendSocket) && sensorsRegistered == old(sensorsRegistered)
      ensures !crashed ==> sendSocket == NoSocket && !sensorsRegistered
    {
      isRunning := false;
      if senderThread {
        senderThread := false;
      }
      if vibrator != NoVibrator {
        vibrating := false;
      }
      if !sensorManagerReady {
        return true;
      }
      sensorsRegistered := false;
      if sendSocket == OpenSocket {
        sendSocket := NoSocket;
      }
      return false;
    }

    /** `cleanup` with the sensor manager null-checked: it always leaves the
        sender stopped, the thread and socket references cleared, the
        vibration cancelled and the sensors unregistered. */
    method Cleanup()
      requires Valid()
      modifies this`isRunning, this`senderThread, this`vibrating, this`sensorsRegistered, this`sendSocket
      ensures Valid()
      ensures !isRunning && !senderThread && sendSocket == NoSocket && !sensorsRegistered
      ensures vibrating == (old(vibrating) && vibrator == NoVibrator)
    {
      isRunning := false;
      if senderThread {
        senderThread := false;
      }
      if vibrator != NoVibrator {
        vibrating := false;
      }
      if sensorManagerReady {
        sensorsRegistered := false;
      }
      if sendSocket == OpenSocket {
        sendSocket := NoSocket;
      }
    }

    method OnPause()
      requires Valid()
      modifies this`isRunning, this`senderThread, this`vibrating, this`sensorsRegistered, this`sendSocket
      ensures Valid()
      ensures !isRunning && !senderThread && sendSocket == NoSocket && !sensorsRegistered
      ensures vibrating == (old(vibrating) && vibrator == NoVibrator)
    {
      Cleanup();
    }

    method OnDestroy()
      requires Valid()
      modifies this`isRunning, this`senderThread, this`vibrating, this`sensorsRegistered, this`sendSocket
      ensures Valid()
      ensures !isRunning && !senderThread && sendSocket == NoSocket && !sensorsRegistered
      ensures vibrating == (old(vibrating) && vibrator == NoVibrator)
    {
      Cleanup();
    }
  }

  /** The sequence Android runs for an activity launched without a target
      address text: `onCreate` finishes it, `onDestroy` follows, and the
      cleanup as written throws on the null sensor manager. */
  method EmptyTargetCrashes() returns (crashed: bool)
    ensures crashed
  {
    var intent := Intent(Some(""), None, None, None, None, None, None);
    var a := new ButtonActivity(intent, true, true, Vibrator(true));
    crashed := a.CleanupAsWritten();
  }

  /** With the null check, the same launch shuts down cleanly, and a second
      cleanup (`onPause` then `onDestroy` in a normal run) changes nothing. */
  method EmptyTargetCleansUp() returns (stopped: bool)
    ensures stopped
  {
    var intent := Intent(Some(""), None, None, None, None, None, None);
    var a := new ButtonActivity(intent, true, true, Vibrator(true));
    a.Cleanup();
    a.Cleanup();
    stopped := !a.isRunning && a.sendSocket == NoSocket;
  }
}
