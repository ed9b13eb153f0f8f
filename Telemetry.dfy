/** The telemetry datagram both activities send:
    `$NITHphoneWrapper-v0.2.0|OPR|head_pos_pitch=..&head_pos_roll=..&head_vel_yaw=..&head_vel_pitch=..&head_vel_roll=..^dev=..&phone_ip=..`,
    with `&button1=..&button2=..` appended by `ButtonActivity`. */
module Telemetry {
  import opened Wrappers
  import opened JavaText
  import opened Pairs

  const Header := "$NITHphoneWrapper-v0.2.0|OPR|"

  /** The latest sensor readings: pitch and roll in degrees from the rotation
      vector, the three angular velocities in rad/s from the gyroscope. */
  datatype Sample = Sample(pitch: real, roll: real, velYaw: real, velPitch: real, velRoll: real)

  const ZeroSample := Sample(0.0, 0.0, 0.0, 0.0, 0.0)

  /** A sensor callback: the gyroscope's three axis rates (x, y, z in
      rad/s), or the rotation vector already reduced to pitch and roll in
      degrees (`getRotationMatrixFromVector`, `getOrientation` and
      `toDegrees` are not part of this model), or any other sensor. */
  datatype SensorEvent =
    | Gyroscope(x: real, y: real, z: real)
    | RotationVector(pitchDeg: real, rollDeg: real)
    | OtherSensor

  /** How both activities store a reading: yaw rate from z, pitch rate from
      x, roll rate from y; pitch and roll from the rotation vector. */
  function Record(s: Sample, e: SensorEvent): (r: Sample)
    ensures e.Gyroscope? ==> r.pitch == s.pitch && r.roll == s.roll
    ensures e.Gyroscope? ==> r.velYaw == e.z && r.velPitch == e.x && r.velRoll == e.y
    ensures e.RotationVector? ==> r.velYaw == s.velYaw && r.velPitch == s.velPitch && r.velRoll == s.velRoll
    ensures e.RotationVector? ==> r.pitch == e.pitchDeg && r.roll == e.rollDeg
    ensures e.OtherSensor? ==> r == s
  {
    match e
    case Gyroscope(x, y, z) => s.(velYaw := z, velPitch := x, velRoll := y)
    case RotationVector(p, q) => s.(pitch := p, roll := q)
    case OtherSensor => s
  }

  /** The two switches of the main screen. */
  datatype Inversion = Inversion(invertPitch: bool, invertYaw: bool)

  /** `%.2f` and `%.4f` under `Locale.US`, kept abstract. */
  datatype Formatter = Formatter(fixed2: real -> string, fixed4: real -> string)

  /** What is sent: pitch negated iff `invertPitch`, yaw velocity negated iff
      `invertYaw`, the other three readings as they are. */
  function Invert(s: Sample, inv: Inversion): (o: Sample)
    ensures o.roll == s.roll && o.velPitch == s.velPitch && o.velRoll == s.velRoll
    ensures o.pitch == s.pitch <==> !inv.invertPitch || s.pitch == 0.0
    ensures o.velYaw == s.velYaw <==> !inv.invertYaw || s.velYaw == 0.0
    ensures o.pitch == s.pitch || o.pitch == -s.pitch
    ensures o.velYaw == s.velYaw || o.velYaw == -s.velYaw
  {
    s.(pitch := if inv.invertPitch then -s.pitch else s.pitch,
       velYaw := if inv.invertYaw then -s.velYaw else s.velYaw)
  }

  /** Inverting twice with the same switches gives the reading back. */
  lemma InvertInvolution(s: Sample, inv: Inversion)
    ensures Invert(Invert(s, inv), inv) == s
  {
  }

  /** With both switches off the reading is sent as it is. */
  lemma InvertNothing(s: Sample)
    ensures Invert(s, Inversion(false, false)) == s
  {
  }

  /** The five motion fields, in order. */
  function MotionFields(f: Formatter, o: Sample): seq<(string, string)> {
    [("head_pos_pitch", f.fixed2(o.pitch)), ("head_pos_roll", f.fixed2(o.roll)),
     ("head_vel_yaw", f.fixed4(o.velYaw)), ("head_vel_pitch", f.fixed4(o.velPitch)),
     ("head_vel_roll", f.fixed4(o.velRoll))]
  }

  /** The header, the motion fields, `^`, then the extra fields. */
  function Payload(f: Formatter, o: Sample, extras: seq<(string, string)>): string
    requires |extras| >= 1
  {
    Header + Join(Params(MotionFields(f, o)), '&') + "^" + Join(Params(extras), '&')
  }

  /** `%s` of a `String` that may be `null`. */
  function NullableText(s: Option<string>): string {
    match s
    case None => "null"
    case Some(t) => t
  }

  function BoolText(b: bool): string {
    if b then "true" else "false"
  }

  /** The extras of `MainActivity.onSensorChanged`. */
  function MainExtras(dev: string, phoneIp: string): seq<(string, string)> {
    [("dev", dev), ("phone_ip", phoneIp)]
  }

  /** The extras of `ButtonActivity.sendUdpPacket`: the two intent strings
      (possibly `null`) and the two pressed flags. */
  function ButtonExtras(dev: Option<string>, phoneIp: Option<string>, pressed1: bool, pressed2: bool): seq<(string, string)> {
    MainExtras(NullableText(dev), NullableText(phoneIp)) + [("button1", BoolText(pressed1)), ("button2", BoolText(pressed2))]
  }

  // ---------------------------------------------------------------------
  // A reference reader
  // ---------------------------------------------------------------------

  /** A receiver's reading of a datagram: the header, then the motion map
      before the first `^` and the extras map after it. */
  function ReadTelemetry(payload: string): Option<(map<string, string>, map<string, string>)> {
    if !StartsWith(payload, Header) then None
    else
      match SplitAtFirst(payload[|Header|..], '^')
      case None => None
      case Some((motion, extra)) => Some((PairMap(Split(motion, '&')), PairMap(Split(extra, '&'))))
  }

  /** A formatted number that survives the reader: no separator characters and
      nothing for `trim` to remove. */
  predicate PlainNumber(t: string) {
    PlainValue(t) && '^' !in t
  }

  ghost predicate PlainFormatter(f: Formatter) {
    forall x: real :: PlainNumber(f.fixed2(x)) && PlainNumber(f.fixed4(x))
  }

  lemma MotionFieldsPlain(f: Formatter, o: Sample)
    requires PlainFormatter(f)
    ensures AllPlain(MotionFields(f, o))
    ensures forall k :: 0 <= k < 5 ==> '^' !in MotionFields(f, o)[k].0 && '^' !in MotionFields(f, o)[k].1
  {
    var m := MotionFields(f, o);
    MotionNames(f, o);
    forall k | 0 <= k < 5
      ensures PlainKey(m[k].0) && '^' !in m[k].0 && PlainNumber(m[k].1)
    {
      FieldNamePlain(m[k].0);
      assert m[k].1 in {f.fixed2(o.pitch), f.fixed2(o.roll), f.fixed4(o.velYaw), f.fixed4(o.velPitch), f.fixed4(o.velRoll)};
    }
  }

  lemma MotionNames(f: Formatter, o: Sample)
    ensures forall k :: 0 <= k < 5 ==> IsFieldName(MotionFields(f, o)[k].0)
  {
    PositionNames();
    VelocityNames();
  }

  lemma PositionNames()
    ensures IsFieldName("head_pos_pitch") && IsFieldName("head_pos_roll")
  {
  }

  lemma VelocityNames()
    ensures IsFieldName("head_vel_yaw") && IsFieldName("head_vel_pitch") && IsFieldName("head_vel_roll")
  {
  }

  /** The reader splits at the first `^` after the header. */
  lemma ReadFrame(motion: string, extra: string)
    requires '^' !in motion
    ensures ReadTelemetry(Header + motion + "^" + extra) ==
              Some((PairMap(Split(motion, '&')), PairMap(Split(extra, '&'))))
  {
    var p := Header + motion + "^" + extra;
    assert p[..|Header|] == Header && p[|Header|..] == motion + ['^'] + extra by {
      assert p == Header + (motion + ['^'] + extra);
    }
    SplitAtFirstOf(motion, '^', extra);
  }

  /** Round trip: the reader recovers the motion fields and the extras. */
  lemma ReadPayload(f: Formatter, o: Sample, extras: seq<(string, string)>)
    requires PlainFormatter(f) && |extras| >= 1 && AllPlain(extras)
    ensures ReadTelemetry(Payload(f, o, extras)) == Some((MapOf(MotionFields(f, o)), MapOf(extras)))
  {
    var kvs := MotionFields(f, o);
    assert AllPlain(kvs) && '^' !in Join(Params(kvs), '&') by {
      MotionFieldsPlain(f, o);
      ParamsJoinFree(kvs, '^');
    }
    ReadFrame(Join(Params(kvs), '&'), Join(Params(extras), '&'));
    ParamsRoundTrip(kvs);
    ParamsRoundTrip(extras);
  }

  /** The motion map holds each output reading under its own key. */
  lemma MotionMapFields(f: Formatter, o: Sample)
    ensures var m := MapOf(MotionFields(f, o));
            "head_pos_pitch" in m && m["head_pos_pitch"] == f.fixed2(o.pitch) &&
            "head_pos_roll" in m && m["head_pos_roll"] == f.fixed2(o.roll) &&
            "head_vel_yaw" in m && m["head_vel_yaw"] == f.fixed4(o.velYaw) &&
            "head_vel_pitch" in m && m["head_vel_pitch"] == f.fixed4(o.velPitch) &&
            "head_vel_roll" in m && m["head_vel_roll"] == f.fixed4(o.velRoll)
  {
    var kvs := MotionFields(f, o);
    MapOfLookup(kvs, 0);
    MapOfLookup(kvs, 1);
    MapOfLookup(kvs, 2);
    MapOfLookup(kvs, 3);
    MapOfLookup(kvs, 4);
  }

  lemma ButtonExtrasPlain(dev: Option<string>, phoneIp: Option<string>, pressed1: bool, pressed2: bool)
    requires PlainValue(NullableText(dev)) && PlainValue(NullableText(phoneIp))
    ensures AllPlain(ButtonExtras(dev, phoneIp, pressed1, pressed2))
  {
    var e := ButtonExtras(dev, phoneIp, pressed1, pressed2);
    forall k | 0 <= k < 4
      ensures PlainKey(e[k].0)
    {
      assert IsFieldName(e[k].0);
      FieldNamePlain(e[k].0);
    }
    assert PlainValue(BoolText(pressed1)) && PlainValue(BoolText(pressed2));
  }

  /** The button fields read back as `"true"` exactly for a pressed button. */
  lemma ButtonMapFields(dev: Option<string>, phoneIp: Option<string>, pressed1: bool, pressed2: bool)
    ensures var m := MapOf(ButtonExtras(dev, phoneIp, pressed1, pressed2));
            "button1" in m && (m["button1"] == "true" <==> pressed1) &&
            "button2" in m && (m["button2"] == "true" <==> pressed2) &&
            "dev" in m && m["dev"] == NullableText(dev) &&
            "phone_ip" in m && m["phone_ip"] == NullableText(phoneIp)
  {
    var kvs := ButtonExtras(dev, phoneIp, pressed1, pressed2);
    MapOfLookup(kvs, 0);
    MapOfLookup(kvs, 1);
    MapOfLookup(kvs, 2);
    MapOfLookup(kvs, 3);
  }

  /** The highest port a `DatagramPacket` can be addressed to. */
  const MaxUdpPort := 65535

  predicate IsUdpPort(port: int) {
    0 <= port <= MaxUdpPort
  }

  /** How one send ends: the datagram sent, nothing to send from, or a
      thrown exception nobody catches. */
  datatype SendOutcome = Sent(payload: string) | Skipped | Crashed

  /** The send as both activities write it: nothing without an open socket
      and a resolved address; otherwise `new DatagramPacket(.., port)`,
      which throws `IllegalArgumentException` for a port outside 0..65535.
      Only `IOException` is caught around it, so the sending thread dies
      and takes the app with it. */
  function SendAsWritten(ready: bool, port: int, payload: string): (o: SendOutcome)
    ensures o.Skipped? <==> !ready
    ensures o.Crashed? <==> ready && !IsUdpPort(port)
    ensures o.Sent? ==> o.payload == payload
  {
    if !ready then Skipped
    else if !IsUdpPort(port) then Crashed
    else Sent(payload)
  }

  /** The send as intended: a port no datagram can carry is a failed send
      like any other, logged and skipped. */
  function CheckedSend(ready: bool, port: int, payload: string): (r: Option<string>)
    ensures r.Some? <==> ready && IsUdpPort(port)
    ensures r.Some? ==> r.value == payload
  {
    if ready && IsUdpPort(port) then Some(payload) else None
  }

  /** The checked send never crashes, and wherever the send as written does
      not crash the two send the same datagram. */
  lemma CheckedSendAgrees(ready: bool, port: int, payload: string)
    ensures SendAsWritten(ready, port, payload).Crashed? ==> CheckedSend(ready, port, payload).None?
    ensures !SendAsWritten(ready, port, payload).Crashed? ==>
              (CheckedSend(ready, port, payload) == Some(payload) <==> SendAsWritten(ready, port, payload) == Sent(payload))
  {
  }
}
