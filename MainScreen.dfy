/** `MainActivity`: the target and listen-port fields, the tracking session
    that streams telemetry, the two background listeners, discovery, and
    the hand-over to `ButtonActivity`. */
module MainScreen {
  import opened Wrappers
  import opened JavaText
  import opened Telemetry
  import opened DiscoveryCodec
  import opened NetAddress
  import ButtonScreen

  /** A listener thread: the port its socket is bound to and whether it is
      still alive (it dies when its socket cannot be opened or is closed). */
  datatype Listener = Listener(port: int, alive: bool)

  /** `startDiscoveryListener` and `startVibrationListener`: keep a listener
      that is still alive; otherwise start a new one on the port, if there is
      a port to start it on. */
  function StartListener(l: Option<Listener>, port: Option<int>): (r: Option<Listener>)
    ensures l.Some? && l.value.alive ==> r == l
    ensures (l.None? || !l.value.alive) && port.Some? ==> r == Some(Listener(port.value, true))
    ensures port.None? ==> r == l
  {
    if l.Some? && l.value.alive then l
    else if port.Some? then Some(Listener(port.value, true))
    else l
  }

  /** Starting a listener a second time changes nothing: there is never a
      second live listener beside the first. */
  lemma StartListenerIdempotent(l: Option<Listener>, port: Option<int>)
    ensures StartListener(StartListener(l, port), port) == StartListener(l, port)
  {
  }

  /** With a port to bind, a listener is running afterwards. */
  lemma StartListenerRuns(l: Option<Listener>, port: int)
    ensures var r := StartListener(l, Some(port));
            r.Some? && r.value.alive && (l.None? || !l.value.alive ==> r.value.port == port)
  {
  }

  /** How `startTracking` ends: started, or at the first check or
      exception that stops it. */
  datatype StartOutcome = Started | MissingSensor | EmptyField | BadPortText | UnknownHost | SocketFailed

  /** The order of the checks in `startTracking`: the rotation-vector
      sensor, the two fields, `parseInt` of the port, host resolution, the
      socket. */
  function StartResult(hasRotationSensor: bool, ipText: string, portText: string, hostResolves: bool, socketOpens: bool): StartOutcome {
    if !hasRotationSensor then MissingSensor
    else if ipText == [] || portText == [] then EmptyField
    else if ParseInteger(portText, IntMin, IntMax).None? then BadPortText
    else if !hostResolves then UnknownHost
    else if !socketOpens then SocketFailed
    else Started
  }

  /** Tracking starts exactly when the sensor is there, the address field is
      non-empty, the port field parses, the host resolves and the socket
      opens. */
  lemma StartedIff(hasRotationSensor: bool, ipText: string, portText: string, hostResolves: bool, socketOpens: bool)
    ensures StartResult(hasRotationSensor, ipText, portText, hostResolves, socketOpens) == Started <==>
              hasRotationSensor && ipText != [] && ParseInteger(portText, IntMin, IntMax).Some? &&
              hostResolves && socketOpens
  {
  }

  /** The fields a discovery response writes are accepted by `startTracking`.
      Streaming to the receiver also needs its port to be a UDP port, which
      neither the decoder nor `startTracking` checks (see
      `OutOfRangePortCrashes`). */
  lemma DiscoveredTargetStarts(ip: string, port: int)
    requires ip != [] && 0 <= port <= IntMax
    ensures StartResult(true, ip, IntToString(port), true, true) == Started
    ensures ParseInteger(IntToString(port), IntMin, IntMax) == Some(port)
  {
    ParseIntToString(port, IntMin, IntMax);
  }

  /** A port the field accepts but no datagram can carry: `startTracking`
      starts a session on 70000 and `openButtonController` hands 70000 to
      the button screen, and the first send of either crashes as written.
      The checked send refuses it instead. */
  lemma OutOfRangePortCrashes(ip: string, payload: string)
    requires ip != []
    ensures StartResult(true, ip, IntToString(70000), true, true) == Started
    ensures ParseInteger(IntToString(70000), IntMin, IntMax) == Some(70000)
    ensures ButtonScreen.PortOf(Some(ControllerPort(IntToString(70000)))) == 70000
    ensures SendAsWritten(true, 70000, payload) == Crashed
    ensures CheckedSend(true, 70000, payload) == None
  {
    DiscoveredTargetStarts(ip, 70000);
  }

  /** `getIntExtra`-compatible target port of `openButtonController`: the
      field when it parses, the default receiver port otherwise. */
  function ControllerPort(portText: string): (p: int)
    ensures ParseInteger(portText, IntMin, IntMax).None? ==> p == DefaultReceiverPort
    ensures ParseInteger(portText, IntMin, IntMax).Some? ==> p == ParseInteger(portText, IntMin, IntMax).value
    ensures IntMin <= p <= IntMax
  {
    match ParseInteger(portText, IntMin, IntMax)
    case None => DefaultReceiverPort
    case Some(p) => p
  }

  class MainActivity {
    /** `etTargetIp`, `etTargetPort`, `etListenPort`. */
    var targetIpText: string
    var targetPortText: string
    var listenPortText: string

    var invertPitch: bool
    var invertYaw: bool
    var vibrateOnPress: bool

    /** `rotationVectorSensor != null`. */
    var hasRotationSensor: bool
    var currentTargetPort: int
    var currentListenPort: int
    /** `targetInetAddress`: the host it was resolved from, or `null`. */
    var targetAddress: Option<string>
    var sendSocket: SocketRef
    var sensorsRegistered: bool
    var isTracking: bool
    var discoveryListener: Option<Listener>
    var vibrationListener: Option<Listener>

    /** `currentPitch`, `currentRoll` and the three `angularVel` fields. */
    var reading: Sample

    /** A tracking session owns an open socket, the registered sensors and
        a resolved target; outside one there is neither socket nor sensor
        registration. */
    ghost predicate Valid()
      reads this
    {
      sendSocket != ClosedSocket &&
      (sendSocket == OpenSocket <==> isTracking) &&
      (sensorsRegistered <==> isTracking) &&
      (isTracking ==> targetAddress.Some?) &&
      (discoveryListener.Some? ==> discoveryListener.value.port == DiscoveryPort)
    }

    /** `onCreate`: empty target address, the default receiver and vibration
        ports in the fields, switches off, nothing running. */
    constructor (rotationSensorPresent: bool)
      ensures Valid()
      ensures targetIpText == [] && targetPortText == IntToString(DefaultReceiverPort)
      ensures listenPortText == IntToString(VibrationPort)
      ensures !invertPitch && !invertYaw && !vibrateOnPress
      ensures hasRotationSensor == rotationSensorPresent
      ensures targetAddress.None? && !isTracking && discoveryListener.None? && vibrationListener.None?
      ensures reading == ZeroSample
      ensures currentTargetPort == 0 && currentListenPort == 0
    {
      targetIpText := [];
      targetPortText := IntToString(DefaultReceiverPort);
      listenPortText := IntToString(VibrationPort);
      invertPitch, invertYaw, vibrateOnPress := false, false, false;
      hasRotationSensor := rotationSensorPresent;
      currentTargetPort, currentListenPort := 0, 0;
      targetAddress := None;
      sendSocket := NoSocket;
      sensorsRegistered := false;
      isTracking := false;
      discoveryListener, vibrationListener := None, None;
      reading := ZeroSample;
    }

    method SetInvertPitch(isChecked: bool)
      modifies this`invertPitch
      ensures invertPitch == isChecked
    {
      invertPitch := isChecked;
    }

    method SetInvertYaw(isChecked: bool)
      modifies this`invertYaw
      ensures invertYaw == isChecked
    {
      invertYaw := isChecked;
    }

    method SetVibrateOnPress(isChecked: bool)
      modifies this`vibrateOnPress
      ensures vibrateOnPress == isChecked
    {
      vibrateOnPress := isChecked;
    }

    /** `startTracking`, called only while not tracking. The port is stored
        as soon as it parses and the address as soon as it resolves, so a
        later failure leaves those two updated. */
    method StartTracking(hostResolves: bool, socketOpens: bool) returns (outcome: StartOutcome)
      requires Valid() && !isTracking
      modifies this`currentTargetPort, this`targetAddress, this`sendSocket, this`sensorsRegistered, this`isTracking
      ensures Valid()
      ensures outcome == StartResult(hasRotationSensor, targetIpText, targetPortText, hostResolves, socketOpens)
      ensures isTracking <==> outcome == Started
      ensures outcome in {UnknownHost, SocketFailed, Started} ==>
                currentTargetPort == ParseInteger(targetPortText, IntMin, IntMax).value
      ensures outcome !in {UnknownHost, SocketFailed, Started} ==> currentTargetPort == old(currentTargetPort)
      ensures targetAddress == if outcome in {SocketFailed, Started} then Some(targetIpText) else old(targetAddress)
      ensures sendSocket == (if isTracking then OpenSocket else NoSocket) && sensorsRegistered == isTracking
    {
      if !hasRotationSensor {
        return MissingSensor;
      }
      if targetIpText == [] || targetPortText == [] {
        return EmptyField;
      }
      var port := ParseInteger(targetPortText, IntMin, IntMax);
      if port.None? {
        return BadPortText;
      }
      currentTargetPort := port.value;
      if !hostResolves {
        return UnknownHost;
      }
      targetAddress := Some(targetIpText);
      if !socketOpens {
        return SocketFailed;
      }
      sendSocket := OpenSocket;
      sensorsRegistered := true;
      isTracking := true;
      return Started;
    }

    /** `stopTracking`: unregister the sensors and close and drop the socket;
        calling it again changes nothing more. */
    method StopTracking()
      requires Valid()
      modifies this`sendSocket, this`sensorsRegistered, this`isTracking
      ensures Valid()
      ensures !isTracking && !sensorsRegistered && sendSocket == NoSocket
    {
      isTracking := false;
      sensorsRegistered := false;
      if sendSocket == OpenSocket {
        sendSocket := NoSocket;
      }
    }

    /** The start/stop button. */
    method ToggleTracking(hostResolves: bool, socketOpens: bool)
      requires Valid()
      modifies this`currentTargetPort, this`targetAddress, this`sendSocket, this`sensorsRegistered, this`isTracking
      ensures Valid()
      ensures isTracking <==>
                (!old(isTracking) &&
                 StartResult(hasRotationSensor, targetIpText, targetPortText, hostResolves, socketOpens) == Started)
      ensures sendSocket == (if isTracking then OpenSocket else NoSocket) && sensorsRegistered == isTracking
      ensures old(isTracking) ==> currentTargetPort == old(currentTargetPort) && targetAddress == old(targetAddress)
      ensures !old(isTracking) ==>
                var outcome := StartResult(hasRotationSensor, targetIpText, targetPortText, hostResolves, socketOpens);
                (outcome in {UnknownHost, SocketFailed, Started} ==>
                   currentTargetPort == ParseInteger(targetPortText, IntMin, IntMax).value) &&
                (outcome !in {UnknownHost, SocketFailed, Started} ==> currentTargetPort == old(currentTargetPort)) &&
                targetAddress == if outcome in {SocketFailed, Started} then Some(targetIpText) else old(targetAddress)
    {
      if isTracking {
        StopTracking();
      } else {
        var _ := StartTracking(hostResolves, socketOpens);
      }
    }

    /** `onSensorChanged`: nothing outside a session; in one, store the
        reading, and on a rotation-vector event return the datagram sent,
        through the checked send (the code as written crashes on a port
        outside 0..65535; see `SendAsWritten`). */
    method OnSensorChanged(e: SensorEvent, dev: string, wifi: WifiState, f: Formatter) returns (packet: Option<string>)
      requires Valid()
      modifies this`reading
      ensures reading == if isTracking then Record(old(reading), e) else old(reading)
      ensures packet.Some? <==> isTracking && e.RotationVector? && IsUdpPort(currentTargetPort)
      ensures packet.Some? ==>
                packet.value == Payload(f, Invert(reading, Inversion(invertPitch, invertYaw)), MainExtras(dev, LocalIpText(wifi)))
    {
      if !isTracking {
        return None;
      }
      match e
      case Gyroscope(x, y, z) =>
        reading := reading.(velYaw := z, velPitch := x, velRoll := y);
        return None;
      case RotationVector(p, q) =>
        reading := reading.(pitch := p, roll := q);
        var outputPitch := if invertPitch then -reading.pitch else reading.pitch;
        var outputYaw := if invertYaw then -reading.velYaw else reading.velYaw;
        if sendSocket == OpenSocket && targetAddress.Some? {
          var out := reading.(pitch := outputPitch, velYaw := outputYaw);
          var payload := Payload(f, out, MainExtras(dev, LocalIpText(wifi)));
          return CheckedSend(true, currentTargetPort, payload);
        }
        return None;
      case OtherSensor =>
        return None;
    }

    method StartDiscoveryListener()
      requires Valid()
      modifies this`discoveryListener
      ensures Valid()
      ensures discoveryListener == StartListener(old(discoveryListener), Some(DiscoveryPort))
    {
      if discoveryListener.Some? && discoveryListener.value.alive {
        return;
      }
      discoveryListener := Some(Listener(DiscoveryPort, true));
    }

    method StopDiscoveryListener()
      modifies this`discoveryListener
      ensures discoveryListener.None?
    {
      if discoveryListener.Some? {
        discoveryListener := None;
      }
    }

    /** `startVibrationListener`: the listen port is parsed (and stored) only
        when no live listener exists; an unparsable field starts nothing. */
    method StartVibrationListener()
      modifies this`vibrationListener, this`currentListenPort
      ensures vibrationListener == StartListener(old(vibrationListener), ParseInteger(listenPortText, IntMin, IntMax))
      ensures currentListenPort ==
                if (old(vibrationListener).None? || !old(vibrationListener).value.alive) &&
                   ParseInteger(listenPortText, IntMin, IntMax).Some?
                then ParseInteger(listenPortText, IntMin, IntMax).value
                else old(currentListenPort)
    {
      if vibrationListener.Some? && vibrationListener.value.alive {
        return;
      }
      var port := ParseInteger(listenPortText, IntMin, IntMax);
      if port.Some? {
        currentListenPort := port.value;
        vibrationListener := Some(Listener(currentListenPort, true));
      }
    }

    method StopVibrationListener()
      modifies this`vibrationListener
      ensures vibrationListener.None?
    {
      if vibrationListener.Some? {
        vibrationListener := None;
      }
    }

    /** A listener thread ends on its own (its socket could not be bound or
        failed): the reference stays, but `isAlive` is false. */
    method DiscoveryListenerExited()
      requires Valid()
      modifies this`discoveryListener
      ensures Valid()
      ensures discoveryListener == if old(discoveryListener).Some? then Some(old(discoveryListener).value.(alive := false)) else None
    {
      if discoveryListener.Some? {
        discoveryListener := Some(discoveryListener.value.(alive := false));
      }
    }

    method VibrationListenerExited()
      modifies this`vibrationListener
      ensures vibrationListener == if old(vibrationListener).Some? then Some(old(vibrationListener).value.(alive := false)) else None
    {
      if vibrationListener.Some? {
        vibrationListener := Some(vibrationListener.value.(alive := false));
      }
    }

    /** `onResume`: both listeners running (the vibration one when its field
        parses); a listener that is still alive is kept as it is, its port
        included. */
    method OnResume()
      requires Valid()
      modifies this`discoveryListener, this`vibrationListener, this`currentListenPort
      ensures Valid()
      ensures discoveryListener == StartListener(old(discoveryListener), Some(DiscoveryPort))
      ensures vibrationListener == StartListener(old(vibrationListener), ParseInteger(listenPortText, IntMin, IntMax))
      ensures currentListenPort ==
                if (old(vibrationListener).None? || !old(vibrationListener).value.alive) &&
                   ParseInteger(listenPortText, IntMin, IntMax).Some?
                then ParseInteger(listenPortText, IntMin, IntMax).value
                else old(currentListenPort)
      ensures discoveryListener.Some? && discoveryListener.value.alive
      ensures ParseInteger(listenPortText, IntMin, IntMax).Some? ==> vibrationListener.Some? && vibrationListener.value.alive
    {
      StartDiscoveryListener();
      StartVibrationListener();
    }

    /** `onPause`: the session stopped and both listeners dropped. */
    method OnPause()
      requires Valid()
      modifies this`sendSocket, this`sensorsRegistered, this`isTracking, this`discoveryListener, this`vibrationListener
      ensures Valid()
      ensures !isTracking && sendSocket == NoSocket && !sensorsRegistered
      ensures discoveryListener.None? && vibrationListener.None?
    {
      if isTracking {
        StopTracking();
      }
      StopDiscoveryListener();
      StopVibrationListener();
    }

    /** `handleDiscoveryResponse`: an accepted response writes the address
        and the port into the fields and, when the address resolves, makes
        it the live target; anything else changes nothing. */
    method HandleDiscoveryResponse(message: string, hostResolves: bool) returns (outcome: DiscoveryOutcome)
      requires Valid()
      modifies this`targetIpText, this`targetPortText, this`targetAddress, this`currentTargetPort
      ensures Valid()
      ensures outcome == DecodeDiscoveryResponse(message)
      ensures outcome.Ignored? ==>
                targetIpText == old(targetIpText) && targetPortText == old(targetPortText) &&
                targetAddress == old(targetAddress) && currentTargetPort == old(currentTargetPort)
      ensures outcome.Discovered? ==>
                targetIpText == outcome.receiverIp && targetPortText == IntToString(outcome.port)
      ensures outcome.Discovered? && hostResolves ==>
                targetAddress == Some(outcome.receiverIp) && currentTargetPort == outcome.port
      ensures outcome.Discovered? && !hostResolves ==>
                targetAddress == old(targetAddress) && currentTargetPort == old(currentTargetPort)
    {
      outcome := ParseDiscoveryResponse(message);
      if outcome.Ignored? {
        return;
      }
      targetIpText := outcome.receiverIp;
      targetPortText := IntToString(outcome.port);
      if hostResolves {
        targetAddress := Some(outcome.receiverIp);
        currentTargetPort := outcome.port;
      }
    }

    /** `sendDiscoveryBroadcast`: the announcement and where it goes; an
        unparsable listen-port field is reset to the vibration port, so the
        field always parses afterwards. */
    method SendDiscoveryBroadcast(wifi: WifiState) returns (message: string, broadcastAddress: string)
      modifies this`listenPortText
      ensures message == Announcement(LocalIpText(wifi), AnnouncedListenPort(old(listenPortText)))
      ensures ParseQuad(broadcastAddress) == Some(BroadcastTarget(wifi))
      ensures ParseInteger(listenPortText, IntMin, IntMax) == Some(AnnouncedListenPort(old(listenPortText)))
      ensures listenPortText ==
                if ParseInteger(old(listenPortText), IntMin, IntMax).Some? then old(listenPortText)
                else IntToString(VibrationPort)
    {
      var myIp := LocalIpText(wifi);
      broadcastAddress := SubnetBroadcastAddress(wifi);
      var listenPort: int;
      var parsed := ParseInteger(listenPortText, IntMin, IntMax);
      if parsed.Some? {
        listenPort := parsed.value;
      } else {
        listenPort := VibrationPort;
        listenPortText := IntToString(listenPort);
        ParseIntToString(listenPort, IntMin, IntMax);
      }
      message := Announcement(myIp, listenPort);
    }

    /** `openButtonController`: nothing without a target address text;
        otherwise the intent for `ButtonActivity`, with the port field or the
        default receiver port. */
    method OpenButtonController(dev: string, wifi: WifiState) returns (intent: Option<ButtonScreen.Intent>)
      ensures intent.Some? <==> targetIpText != []
      ensures intent.Some? ==>
                intent.value.targetIp == Some(targetIpText) &&
                intent.value.targetPort == Some(ControllerPort(targetPortText)) &&
                intent.value.invertPitch == Some(invertPitch) && intent.value.invertYaw == Some(invertYaw) &&
                intent.value.vibrateOnPress == Some(vibrateOnPress) &&
                intent.value.deviceInfo == Some(dev) && intent.value.phoneIp == Some(LocalIpText(wifi))
    {
      if targetIpText == [] {
        return None;
      }
      var targetPort: int;
      var parsed := ParseInteger(targetPortText, IntMin, IntMax);
      if parsed.Some? {
        targetPort := parsed.value;
      } else {
        targetPort := DefaultReceiverPort;
      }
      intent := Some(ButtonScreen.Intent(Some(targetIpText), Some(targetPort), Some(invertPitch), Some(invertYaw),
                                         Some(vibrateOnPress), Some(dev), Some(LocalIpText(wifi))));
    }
  }

  /** A `ButtonActivity` launched from the main screen always has a target
      address text, so it never takes the early `finish()` path and its
      sensor manager exists when `cleanup` runs. */
  method LaunchFromMain(m: MainActivity, dev: string, wifi: WifiState, hostResolves: bool, socketOpens: bool, vib: ButtonScreen.VibratorRef)
    returns (launched: Option<ButtonScreen.ButtonActivity>)
    ensures launched.Some? <==> m.targetIpText != []
    ensures launched.Some? ==> fresh(launched.value) && launched.value.sensorManagerReady
  {
    var intent := m.OpenButtonController(dev, wifi);
    if intent.None? {
      return None;
    }
    var b := new ButtonScreen.ButtonActivity(intent.value, hostResolves, socketOpens, vib);
    return Some(b);
  }
}
