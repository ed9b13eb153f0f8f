/** The vibration-command decoder of `MainActivity.processVibrationCommand`:
    `$<issuer>-<version>|COM|vibration_intensity=V&vibration_duration=V^`. */
module CommandCodec {
  import opened Wrappers
  import opened JavaText
  import opened Pairs

  /** The amplitude handed to the vibrator: Android's `DEFAULT_AMPLITUDE`, kept
      opaque, or an explicit level. */
  datatype Amplitude = DefaultAmplitude | Level(level: int)

  /** Why a command produced no vibration; each is one early `return` (or the
      `NumberFormatException` handler) of the source. */
  datatype RejectReason = MissingMarkers | MissingParts | NotCommand | BadNumber | DurationOutOfRange

  datatype Decision = Vibrate(amplitude: Amplitude, durationMs: int) | Reject(reason: RejectReason)

  /** The locals `vibrationIntensity` and `vibrationDuration` of the parameter loop. */
  datatype Settings = Settings(intensity: Amplitude, durationMs: int)

  /** Before any parameter: the default amplitude and 100 ms. */
  const InitialSettings := Settings(DefaultAmplitude, 100)

  const IntensityKey := "vibration_intensity"
  const DurationKey := "vibration_duration"

  /** `param` is a `key=value` pair whose key is `key`, ignoring case. */
  predicate IsParamFor(param: string, key: string) {
    ParsePair(param).Some? && EqualsIgnoreCase(ParsePair(param).value.0, key)
  }

  /** The value part of a parameter that parses. */
  function ValueOf(param: string): string
    requires ParsePair(param).Some?
  {
    ParsePair(param).value.1
  }

  /** A recognised parameter whose value `parseInt` / `parseLong` refuses. */
  predicate IsBadNumber(param: string) {
    (IsParamFor(param, IntensityKey) && ParseInteger(ValueOf(param), IntMin, IntMax).None?) ||
    (IsParamFor(param, DurationKey) && ParseInteger(ValueOf(param), LongMin, LongMax).None?)
  }

  /** One turn of the parameter loop; `None` is the `NumberFormatException`
      that ends the whole command. */
  function ApplyParam(s: Settings, param: string): Option<Settings> {
    match ParsePair(param)
    case None => Some(s)
    case Some(kv) =>
      if EqualsIgnoreCase(kv.0, IntensityKey) then
        match ParseInteger(kv.1, IntMin, IntMax)
        case None => None
        case Some(n) => Some(s.(intensity := Level(n)))
      else if EqualsIgnoreCase(kv.0, DurationKey) then
        match ParseInteger(kv.1, LongMin, LongMax)
        case None => None
        case Some(n) => Some(s.(durationMs := n))
      else Some(s)
  }

  /** The parameter loop over `params` from the initial settings. */
  function ApplyParams(params: seq<string>): Option<Settings> {
    if params == [] then Some(InitialSettings)
    else
      match ApplyParams(params[..|params| - 1])
      case None => None
      case Some(s) => ApplyParam(s, params[|params| - 1])
  }

  /** The range rule: an intensity outside 1..255 becomes the default amplitude. */
  function CheckedIntensity(a: Amplitude): (r: Amplitude)
    ensures r.Level? ==> 1 <= r.level <= 255
    ensures r == a || r == DefaultAmplitude
    ensures a.Level? && 1 <= a.level <= 255 ==> r == a
  {
    if a.Level? && 1 <= a.level <= 255 then a else DefaultAmplitude
  }

  /** What `processVibrationCommand` does with a received datagram's text. */
  function DecodeCommand(command: string): (d: Decision)
    ensures d.Vibrate? ==> StartsWith(command, "$") && EndsWith(command, "^")
    ensures d.Vibrate? ==> 1 <= d.durationMs <= 10000
    ensures d.Vibrate? && d.amplitude.Level? ==> 1 <= d.amplitude.level <= 255
  {
    if !StartsWith(command, "$") || !EndsWith(command, "^") then Reject(MissingMarkers)
    else
      assert command[0] == '$' && command[|command| - 1] == '^';
      var parts := Split(command[1..|command| - 1], '|');
      if |parts| < 3 then Reject(MissingParts)
      else if !EqualsIgnoreCase(parts[1], "COM") then Reject(NotCommand)
      else
        Conclude(ApplyParams(Split(parts[2], '&')))
  }

  /** What follows the parameter loop: the exception handler, the duration
      range check and the intensity range rule. */
  function Conclude(r: Option<Settings>): (d: Decision)
    ensures r.None? ==> d == Reject(BadNumber)
    ensures d.Vibrate? <==> r.Some? && 1 <= r.value.durationMs <= 10000
    ensures d.Vibrate? ==> d.durationMs == r.value.durationMs && d.amplitude == CheckedIntensity(r.value.intensity)
  {
    match r
    case None => Reject(BadNumber)
    case Some(s) =>
      if s.durationMs < 1 || s.durationMs > 10000 then Reject(DurationOutOfRange)
      else Vibrate(CheckedIntensity(s.intensity), s.durationMs)
  }

  /** Only a command framed by `$` and `^` can get past the first check. */
  lemma MarkersRequired(command: string)
    ensures DecodeCommand(command) == Reject(MissingMarkers) <==>
              !(StartsWith(command, "$") && EndsWith(command, "^"))
  {
  }

  /** Inside the markers, fewer than three `|`-fields (trailing empty ones
      not counted) or a type other than `COM` in any letter case rejects the
      command before any parameter is read. */
  lemma FrameRejects(command: string)
    requires StartsWith(command, "$") && EndsWith(command, "^")
    ensures |command| >= 2
    ensures var parts := Split(command[1..|command| - 1], '|');
            (DecodeCommand(command) == Reject(MissingParts) <==> |parts| < 3) &&
            (DecodeCommand(command) == Reject(NotCommand) <==> |parts| >= 3 && !EqualsIgnoreCase(parts[1], "COM"))
  {
    assert command[0] == '$' && command[|command| - 1] == '^';
  }

  // ---------------------------------------------------------------------
  // The loop as the source writes it
  // ---------------------------------------------------------------------

  /** Once a parameter has thrown, the rest of the loop never runs. */
  lemma {:induction false} AbortIsFinal(params: seq<string>, i: nat)
    requires i <= |params| && ApplyParams(params[..i]) == None
    ensures ApplyParams(params) == None
    decreases |params| - i
  {
    if i < |params| {
      assert params[..i + 1][..i] == params[..i];
      AbortIsFinal(params, i + 1);
    } else {
      assert params[..i] == params;
    }
  }

  /** The parameter loop of `processVibrationCommand`: the two locals are
      updated in place, and the first unparsable number ends it (`None`, the
      `NumberFormatException` caught around the whole command). */
  method ParameterLoop(params: seq<string>) returns (r: Option<Settings>)
    ensures r == ApplyParams(params)
  {
    var vibrationIntensity := DefaultAmplitude;
    var vibrationDuration := 100;
    var i := 0;
    while i < |params|
      invariant i <= |params|
      invariant ApplyParams(params[..i]) == Some(Settings(vibrationIntensity, vibrationDuration))
    {
      assert params[..i + 1][..i] == params[..i];
      var next := ReadParam(Settings(vibrationIntensity, vibrationDuration), params[i]);
      if next.None? {
        AbortIsFinal(params, i + 1);
        return None;
      }
      vibrationIntensity, vibrationDuration := next.value.intensity, next.value.durationMs;
      i := i + 1;
    }
    assert params[..i] == params;
    r := Some(Settings(vibrationIntensity, vibrationDuration));
  }

  /** The body of the parameter loop for one piece: split at the first `=`,
      trim both halves, and set the local the key names (`None` when its
      value does not parse). */
  method ReadParam(s: Settings, param: string) returns (r: Option<Settings>)
    ensures r == ApplyParam(s, param)
  {
    var keyValue := SplitAtFirst(param, '=');
    if keyValue.None? {
      OtherParam(s, param);
      return Some(s);
    }
    var key := Trim(keyValue.value.0);
    var value := Trim(keyValue.value.1);
    assert ParsePair(param) == Some((key, value));
    if EqualsIgnoreCase(key, IntensityKey) {
      IntensityParam(s, param, key, value);
      var n := ParseInteger(value, IntMin, IntMax);
      if n.None? {
        return None;
      }
      r := Some(s.(intensity := Level(n.value)));
    } else if EqualsIgnoreCase(key, DurationKey) {
      DurationParam(s, param, key, value);
      var n := ParseInteger(value, LongMin, LongMax);
      if n.None? {
        return None;
      }
      r := Some(s.(durationMs := n.value));
    } else {
      OtherParam(s, param);
      r := Some(s);
    }
  }

  /** `processVibrationCommand`: framing, header and type checks, the
      parameter loop, then the range rules. */
  method ProcessVibrationCommand(command: string) returns (d: Decision)
    ensures d == DecodeCommand(command)
  {
    if !StartsWith(command, "$") || !EndsWith(command, "^") {
      return Reject(MissingMarkers);
    }
    assert command[0] == '$' && command[|command| - 1] == '^';
    var trimmed := command[1..|command| - 1];
    var mainParts := Split(trimmed, '|');
    if |mainParts| < 3 {
      return Reject(MissingParts);
    }
    if !EqualsIgnoreCase(mainParts[1], "COM") {
      return Reject(NotCommand);
    }
    var settings := ParameterLoop(Split(mainParts[2], '&'));
    if settings.None? {
      return Reject(BadNumber);
    }
    var vibrationIntensity := settings.value.intensity;
    var vibrationDuration := settings.value.durationMs;
    if vibrationIntensity.Level? && (vibrationIntensity.level < 1 || vibrationIntensity.level > 255) {
      vibrationIntensity := DefaultAmplitude;
    }
    if vibrationDuration < 1 || vibrationDuration > 10000 {
      return Reject(DurationOutOfRange);
    }
    d := Vibrate(vibrationIntensity, vibrationDuration);
  }

  // ---------------------------------------------------------------------
  // What the parameter loop computes
  // ---------------------------------------------------------------------

  /** A single parameter throws exactly when it is a recognised key with a
      value the parser refuses; otherwise it sets at most its own field. */
  lemma ApplyParamEffect(s: Settings, param: string)
    ensures ApplyParam(s, param).None? <==> IsBadNumber(param)
    ensures ApplyParam(s, param).Some? ==>
      var t := ApplyParam(s, param).value;
      (t.intensity == if IsParamFor(param, IntensityKey)
                      then Level(ParseInteger(ValueOf(param), IntMin, IntMax).value)
                      else s.intensity) &&
      (t.durationMs == if IsParamFor(param, DurationKey)
                       then ParseInteger(ValueOf(param), LongMin, LongMax).value
                       else s.durationMs)
  {
  }

  /** What one parameter does to the two locals, whatever their values. */
  datatype Effect = Keep | SetIntensity(level: int) | SetDuration(ms: int) | Throw

  /** The effect of one parameter, by the same tests in the same order as the
      loop body. */
  function EffectOf(param: string): Effect {
    if IsParamFor(param, IntensityKey) then
      match ParseInteger(ValueOf(param), IntMin, IntMax)
      case None => Throw
      case Some(n) => SetIntensity(n)
    else if IsParamFor(param, DurationKey) then
      match ParseInteger(ValueOf(param), LongMin, LongMax)
      case None => Throw
      case Some(n) => SetDuration(n)
    else Keep
  }

  function Perform(s: Settings, e: Effect): Option<Settings> {
    match e
    case Keep => Some(s)
    case SetIntensity(n) => Some(s.(intensity := Level(n)))
    case SetDuration(n) => Some(s.(durationMs := n))
    case Throw => None
  }

  /** The effects of a parameter list, in order. */
  function Effects(params: seq<string>): (r: seq<Effect>)
    ensures |r| == |params| && forall k :: 0 <= k < |params| ==> r[k] == EffectOf(params[k])
  {
    seq(|params|, k requires 0 <= k < |params| => EffectOf(params[k]))
  }

  /** The loop over effects: stops at the first `Throw`. */
  function Run(es: seq<Effect>): Option<Settings> {
    if es == [] then Some(InitialSettings)
    else
      match Run(es[..|es| - 1])
      case None => None
      case Some(s) => Perform(s, es[|es| - 1])
  }

  /** A parameter's effect, in terms of the predicates the lemmas use. */
  lemma EffectOfMeaning(param: string)
    ensures EffectOf(param) == Throw <==> IsBadNumber(param)
    ensures EffectOf(param).SetIntensity? <==> IsParamFor(param, IntensityKey) && !IsBadNumber(param)
    ensures EffectOf(param).SetIntensity? ==>
              ParseInteger(ValueOf(param), IntMin, IntMax) == Some(EffectOf(param).level)
    ensures EffectOf(param).SetDuration? <==> IsParamFor(param, DurationKey) && !IsBadNumber(param)
    ensures EffectOf(param).SetDuration? ==>
              ParseInteger(ValueOf(param), LongMin, LongMax) == Some(EffectOf(param).ms)
  {
    if IsParamFor(param, IntensityKey) {
      assert !IsParamFor(param, DurationKey) by {
        assert |IntensityKey| != |DurationKey|;
      }
    }
  }

  lemma ApplyParamIsEffect(s: Settings, param: string)
    ensures ApplyParam(s, param) == Perform(s, EffectOf(param))
  {
    match ParsePair(param)
    case None =>
      OtherParam(s, param);
    case Some((k, v)) =>
      assert ValueOf(param) == v;
      if EqualsIgnoreCase(k, IntensityKey) {
        IntensityParam(s, param, k, v);
      } else if EqualsIgnoreCase(k, DurationKey) {
        DurationParam(s, param, k, v);
      } else {
        OtherParam(s, param);
      }
  }

  lemma {:induction false} ApplyParamsIsRun(params: seq<string>)
    ensures ApplyParams(params) == Run(Effects(params))
  {
    if params != [] {
      var n := |params|;
      var init := params[..n - 1];
      assert Effects(params)[..n - 1] == Effects(init);
      ApplyParamsIsRun(init);
      if ApplyParams(init).Some? {
        ApplyParamIsEffect(ApplyParams(init).value, params[n - 1]);
      }
    }
  }

  lemma {:induction false} RunThrowsIff(es: seq<Effect>)
    ensures Run(es).None? <==> exists i :: 0 <= i < |es| && es[i] == Throw
  {
    if es != [] {
      var n := |es|;
      var init := es[..n - 1];
      RunThrowsIff(init);
      if i :| 0 <= i < n - 1 && init[i] == Throw {
        assert es[i] == Throw;
      }
      if i :| 0 <= i < n && es[i] == Throw {
        if i < n - 1 {
          assert init[i] == Throw;
        }
      }
    }
  }

  lemma {:induction false} RunDurationLast(es: seq<Effect>, i: nat)
    requires Run(es).Some?
    requires i < |es| && es[i].SetDuration?
    requires forall j :: i < j < |es| ==> !es[j].SetDuration?
    ensures Run(es).value.durationMs == es[i].ms
  {
    var n := |es|;
    var init := es[..n - 1];
    assert Run(init).Some?;
    if i < n - 1 {
      assert init[i] == es[i];
      forall j | i < j < n - 1
        ensures !init[j].SetDuration?
      {
        assert init[j] == es[j];
      }
      RunDurationLast(init, i);
    }
  }

  lemma {:induction false} RunDurationDefault(es: seq<Effect>)
    requires Run(es).Some?
    requires forall j :: 0 <= j < |es| ==> !es[j].SetDuration?
    ensures Run(es).value.durationMs == 100
  {
    if es != [] {
      var n := |es|;
      var init := es[..n - 1];
      assert Run(init).Some?;
      forall j | 0 <= j < n - 1
        ensures !init[j].SetDuration?
      {
        assert init[j] == es[j];
      }
      RunDurationDefault(init);
    }
  }

  lemma {:induction false} RunIntensityLast(es: seq<Effect>, i: nat)
    requires Run(es).Some?
    requires i < |es| && es[i].SetIntensity?
    requires forall j :: i < j < |es| ==> !es[j].SetIntensity?
    ensures Run(es).value.intensity == Level(es[i].level)
  {
    var n := |es|;
    var init := es[..n - 1];
    assert Run(init).Some?;
    if i < n - 1 {
      assert init[i] == es[i];
      forall j | i < j < n - 1
        ensures !init[j].SetIntensity?
      {
        assert init[j] == es[j];
      }
      RunIntensityLast(init, i);
    }
  }

  lemma {:induction false} RunIntensityDefault(es: seq<Effect>)
    requires Run(es).Some?
    requires forall j :: 0 <= j < |es| ==> !es[j].SetIntensity?
    ensures Run(es).value.intensity == DefaultAmplitude
  {
    if es != [] {
      var n := |es|;
      var init := es[..n - 1];
      assert Run(init).Some?;
      forall j | 0 <= j < n - 1
        ensures !init[j].SetIntensity?
      {
        assert init[j] == es[j];
      }
      RunIntensityDefault(init);
    }
  }

  /** The loop throws exactly when some parameter is a bad number, wherever it
      stands and whatever follows it. */
  lemma AbortsIffBadNumber(params: seq<string>)
    ensures ApplyParams(params).None? <==> exists i :: 0 <= i < |params| && IsBadNumber(params[i])
  {
    var es := Effects(params);
    ApplyParamsIsRun(params);
    RunThrowsIff(es);
    if i :| 0 <= i < |params| && IsBadNumber(params[i]) {
      EffectOfMeaning(params[i]);
      assert es[i] == Throw;
    }
    if i :| 0 <= i < |es| && es[i] == Throw {
      EffectOfMeaning(params[i]);
    }
  }

  /** After a loop that did not throw, the duration is the value of the LAST
      duration parameter. */
  lemma DurationIsLastWritten(params: seq<string>, i: nat)
    requires ApplyParams(params).Some?
    requires i < |params| && IsParamFor(params[i], DurationKey)
    requires forall j :: i < j < |params| ==> !IsParamFor(params[j], DurationKey)
    ensures ParseInteger(ValueOf(params[i]), LongMin, LongMax) == Some(ApplyParams(params).value.durationMs)
  {
    var es := Effects(params);
    ApplyParamsIsRun(params);
    RunThrowsIff(es);
    EffectOfMeaning(params[i]);
    assert es[i] != Throw;
    forall j | i < j < |es|
      ensures !es[j].SetDuration?
    {
      EffectOfMeaning(params[j]);
    }
    RunDurationLast(es, i);
  }

  /** With no duration parameter at all the duration stays at 100 ms. */
  lemma DurationDefault(params: seq<string>)
    requires ApplyParams(params).Some?
    requires forall j :: 0 <= j < |params| ==> !IsParamFor(params[j], DurationKey)
    ensures ApplyParams(params).value.durationMs == 100
  {
    var es := Effects(params);
    ApplyParamsIsRun(params);
    forall j | 0 <= j < |es|
      ensures !es[j].SetDuration?
    {
      EffectOfMeaning(params[j]);
    }
    RunDurationDefault(es);
  }

  /** Likewise the intensity: the value of the LAST intensity parameter. */
  lemma IntensityIsLastWritten(params: seq<string>, i: nat)
    requires ApplyParams(params).Some?
    requires i < |params| && IsParamFor(params[i], IntensityKey)
    requires forall j :: i < j < |params| ==> !IsParamFor(params[j], IntensityKey)
    ensures ApplyParams(params).value.intensity.Level?
    ensures ParseInteger(ValueOf(params[i]), IntMin, IntMax) == Some(ApplyParams(params).value.intensity.level)
  {
    var es := Effects(params);
    ApplyParamsIsRun(params);
    RunThrowsIff(es);
    EffectOfMeaning(params[i]);
    assert es[i] != Throw;
    forall j | i < j < |es|
      ensures !es[j].SetIntensity?
    {
      EffectOfMeaning(params[j]);
    }
    RunIntensityLast(es, i);
  }

  /** With no intensity parameter the default amplitude stays. */
  lemma IntensityDefault(params: seq<string>)
    requires ApplyParams(params).Some?
    requires forall j :: 0 <= j < |params| ==> !IsParamFor(params[j], IntensityKey)
    ensures ApplyParams(params).value.intensity == DefaultAmplitude
  {
    var es := Effects(params);
    ApplyParamsIsRun(params);
    forall j | 0 <= j < |es|
      ensures !es[j].SetIntensity?
    {
      EffectOfMeaning(params[j]);
    }
    RunIntensityDefault(es);
  }


  // ---------------------------------------------------------------------
  // Commands as the receiver writes them
  // ---------------------------------------------------------------------

  /** `vibration_intensity=<a>&vibration_duration=<b>`. */
  function ParamsOf(intensityText: string, durationText: string): string {
    Param((IntensityKey, intensityText)) + "&" + Param((DurationKey, durationText))
  }

  /** `$<issuer>|COM|vibration_intensity=<a>&vibration_duration=<b>^`, the
      command format documented on `processVibrationCommand`, with the two
      values as text. */
  function CommandOf(issuer: string, intensityText: string, durationText: string): string {
    "$" + issuer + "|COM|" + ParamsOf(intensityText, durationText) + "^"
  }

  /** The command a receiver sends for a given intensity and duration. */
  function CommandText(issuer: string, intensity: int, duration: int): string {
    CommandOf(issuer, IntToString(intensity), IntToString(duration))
  }

  lemma IntToStringShape(n: int)
    ensures |IntToString(n)| >= 1 && IsTrimmed(IntToString(n))
    ensures '|' !in IntToString(n) && '&' !in IntToString(n) && '=' !in IntToString(n)
  {
    var d := DecimalString(if n < 0 then -n else n);
    assert forall k :: 0 <= k < |d| ==> IsDigit(d[k]);
    if n < 0 {
      assert IntToString(n) == ['-'] + d;
    }
  }

  /** `<issuer>|COM|<params>` splits back into its three parts. */
  lemma {:induction false} FrameParts(issuer: string, paramText: string)
    requires '|' !in issuer && '|' !in paramText && paramText != []
    ensures Split(issuer + "|COM|" + paramText, '|') == [issuer, "COM", paramText]
  {
    var pieces := [issuer, "COM", paramText];
    assert pieces[1..] == ["COM", paramText] && pieces[1..][1..] == [paramText];
    assert Join(pieces[1..], '|') == "COM" + ['|'] + paramText;
    assert "|COM|" == ['|'] + "COM" + ['|'];
    assert Join(pieces, '|') == issuer + "|COM|" + paramText;
    SplitJoin(pieces, '|');
  }

  /** `<p0>&<p1>` splits back into its two parameters. */
  lemma {:induction false} TwoParams(p0: string, p1: string)
    requires '&' !in p0 && '&' !in p1 && p1 != []
    ensures Split(p0 + "&" + p1, '&') == [p0, p1]
  {
    var ps := [p0, p1];
    assert ps[1..] == [p1];
    assert Join(ps, '&') == p0 + "&" + p1;
    SplitJoin(ps, '&');
  }

  /** The two recognised keys: plain, equal to themselves ignoring case, and
      different from each other. */
  lemma RecognisedKeys()
    ensures PlainKey(IntensityKey) && PlainKey(DurationKey)
    ensures EqualsIgnoreCase(IntensityKey, IntensityKey) && EqualsIgnoreCase(DurationKey, DurationKey)
    ensures !EqualsIgnoreCase(DurationKey, IntensityKey)
    ensures '|' !in IntensityKey && '|' !in DurationKey
  {
    KeyText(IntensityKey);
    KeyText(DurationKey);
    EqualsIgnoreCaseSelf(IntensityKey);
    EqualsIgnoreCaseSelf(DurationKey);
    assert |DurationKey| != |IntensityKey|;
  }

  /** A key made of lower-case letters and `_` is plain and has no `|`. */
  lemma KeyText(key: string)
    requires key == IntensityKey || key == DurationKey
    ensures PlainKey(key) && '|' !in key && IsAscii(key)
  {
    assert IsFieldName(key);
    FieldNamePlain(key);
  }

  /** The frame of a command splits back into issuer, `COM` and parameters. */
  lemma CommandOfParts(issuer: string, a: string, b: string)
    requires '|' !in issuer && '|' !in a && '|' !in b
    ensures var c := CommandOf(issuer, a, b);
            StartsWith(c, "$") && EndsWith(c, "^") &&
            Split(c[1..|c| - 1], '|') == [issuer, "COM", ParamsOf(a, b)]
  {
    var paramText := ParamsOf(a, b);
    var body := issuer + "|COM|" + paramText;
    assert CommandOf(issuer, a, b) == "$" + body + "^";
    Framed(body);
    assert '|' !in paramText by {
      assert '|' !in IntensityKey && '|' !in DurationKey;
    }
    FrameParts(issuer, paramText);
  }

  /** The markers around a body come off again. */
  lemma Framed(body: string)
    ensures var c := "$" + body + "^";
            StartsWith(c, "$") && EndsWith(c, "^") && c[1..|c| - 1] == body
  {
  }

  /** The type field of a receiver's command. */
  lemma CommandType()
    ensures EqualsIgnoreCase("COM", "COM")
  {
  }

  /** A parameter whose key matches `vibration_intensity` in any letter case
      sets the intensity or throws. */
  lemma IntensityParam(st: Settings, p: string, k: string, v: string)
    requires ParsePair(p) == Some((k, v)) && EqualsIgnoreCase(k, IntensityKey)
    ensures ApplyParam(st, p) ==
              match ParseInteger(v, IntMin, IntMax)
              case None => None
              case Some(i) => Some(st.(intensity := Level(i)))
  {
  }

  /** Otherwise, a key matching `vibration_duration` sets the duration or throws. */
  lemma DurationParam(st: Settings, p: string, k: string, v: string)
    requires ParsePair(p) == Some((k, v)) && !EqualsIgnoreCase(k, IntensityKey) && EqualsIgnoreCase(k, DurationKey)
    ensures ApplyParam(st, p) ==
              match ParseInteger(v, LongMin, LongMax)
              case None => None
              case Some(d) => Some(st.(durationMs := d))
  {
  }

  /** Any other piece changes nothing. */
  lemma OtherParam(st: Settings, p: string)
    requires ParsePair(p).Some? ==>
               !EqualsIgnoreCase(ParsePair(p).value.0, IntensityKey) && !EqualsIgnoreCase(ParsePair(p).value.0, DurationKey)
    ensures ApplyParam(st, p) == Some(st)
  {
  }

  /** Two parameters: the loop applies the first, then the second. */
  lemma TwoParamsApplied(p0: string, p1: string)
    ensures ApplyParams([p0, p1]) ==
              match ApplyParam(InitialSettings, p0)
              case None => None
              case Some(st) => ApplyParam(st, p1)
  {
    var ps := [p0, p1];
    assert ps[..1] == [p0] && [p0][..0] == [];
    assert ApplyParams([p0]) == ApplyParam(InitialSettings, p0);
  }

  /** The settings two parameter values give: both numbers, or the exception
      the first unparsable one throws. */
  function BothValues(a: string, b: string): Option<Settings> {
    match ParseInteger(a, IntMin, IntMax)
    case None => None
    case Some(i) =>
      match ParseInteger(b, LongMin, LongMax)
      case None => None
      case Some(d) => Some(Settings(Level(i), d))
  }

  /** The two parameters read back as the two numbers, or throw. */
  lemma ParamsOfValues(a: string, b: string)
    requires PlainValue(a) && PlainValue(b)
    ensures ApplyParams(Split(ParamsOf(a, b), '&')) == BothValues(a, b)
  {
    var p0, p1 := Param((IntensityKey, a)), Param((DurationKey, b));
    RecognisedKeys();
    TwoParams(p0, p1);
    TwoParamsApplied(p0, p1);
    ParsePairOfParam((IntensityKey, a));
    ParsePairOfParam((DurationKey, b));
    IntensityParam(InitialSettings, p0, IntensityKey, a);
    if i :| ParseInteger(a, IntMin, IntMax) == Some(i) {
      DurationParam(Settings(Level(i), 100), p1, DurationKey, b);
    }
  }

  /** Decoding a well-framed command with both parameters: a value either
      parse refuses rejects the whole command (an unparsable intensity does
      not fall back to the default); otherwise the duration decides between
      vibrating and rejecting, and the intensity only decides the amplitude. */
  lemma DecodeCommandOf(issuer: string, a: string, b: string)
    requires '|' !in issuer && '|' !in a && '|' !in b
    requires PlainValue(a) && PlainValue(b)
    ensures DecodeCommand(CommandOf(issuer, a, b)) == Conclude(BothValues(a, b))
  {
    var c := CommandOf(issuer, a, b);
    CommandOfParts(issuer, a, b);
    CommandType();
    assert DecodeCommand(c) == Conclude(ApplyParams(Split(ParamsOf(a, b), '&')));
    ParamsOfValues(a, b);
  }

  /** Round trip: the command written for an intensity and a duration decodes
      to a vibration of that duration when it lies in 1..10000 ms, with that
      intensity when it lies in 1..255 and the default amplitude otherwise. */
  lemma DecodeCommandText(issuer: string, intensity: int, duration: int)
    requires '|' !in issuer
    requires IntMin <= intensity <= IntMax && LongMin <= duration <= LongMax
    ensures DecodeCommand(CommandText(issuer, intensity, duration)) ==
              if 1 <= duration <= 10000 then Vibrate(CheckedIntensity(Level(intensity)), duration)
              else Reject(DurationOutOfRange)
  {
    IntToStringShape(intensity);
    IntToStringShape(duration);
    ParseIntToString(intensity, IntMin, IntMax);
    ParseIntToString(duration, LongMin, LongMax);
    DecodeCommandOf(issuer, IntToString(intensity), IntToString(duration));
  }

  /** An intensity too large for `int` is not clamped: it rejects the command. */
  lemma IntensityOverflowRejects(issuer: string, duration: int)
    requires '|' !in issuer && LongMin <= duration <= LongMax
    ensures DecodeCommand(CommandOf(issuer, DecimalString(IntMax + 1), IntToString(duration))) == Reject(BadNumber)
  {
    var a := DecimalString(IntMax + 1);
    assert PlainValue(a) && '|' !in a by {
      assert forall k :: 0 <= k < |a| ==> IsDigit(a[k]);
    }
    ParseRefusesOverflow(IntMax + 1, IntMin, IntMax);
    IntToStringShape(duration);
    DecodeCommandOf(issuer, a, IntToString(duration));
  }

  /** A non-numeric intensity rejects the command even though the duration is valid. */
  lemma BadIntensityExample()
    ensures DecodeCommand(CommandOf("X-1.0", "abc", "100")) == Reject(BadNumber)
  {
    assert !IsDigit('a');
    DecodeCommandOf("X-1.0", "abc", "100");
  }

  /** Java drops the empty piece after the last `|`: a command with an empty
      parameter section has only two parts. */
  lemma EmptyParamsRejected(issuer: string)
    requires '|' !in issuer
    ensures DecodeCommand("$" + issuer + "|COM|^") == Reject(MissingParts)
  {
    var c := "$" + issuer + "|COM|^";
    var body := issuer + "|COM|";
    assert StartsWith(c, "$") && EndsWith(c, "^") && c[1..|c| - 1] == body;
    EmptyParamsParts(issuer);
    FrameRejects(c);
  }

  /** `issuer|COM|` splits into two fields: Java drops the empty third. */
  lemma EmptyParamsParts(issuer: string)
    requires '|' !in issuer
    ensures Split(issuer + "|COM|", '|') == [issuer, "COM"]
  {
    var body := issuer + "|COM|";
    var pieces := [issuer, "COM", ""];
    assert SplitAll(body, '|') == pieces by {
      assert Join(pieces, '|') == body by {
        assert pieces[1..] == ["COM", ""] && pieces[1..][1..] == [""];
        assert Join(pieces[1..], '|') == "COM" + ['|'];
        assert "|COM|" == ['|'] + "COM" + ['|'];
      }
      SplitAllJoin(pieces, '|');
    }
    assert '|' in body by {
      assert body[|issuer|] == '|';
    }
    assert DropTrailingEmpty(pieces) == [issuer, "COM"] by {
      var kept := pieces[..2];
      assert kept == [issuer, "COM"] && kept[1] != "";
      assert DropTrailingEmpty(pieces) == DropTrailingEmpty(kept);
    }
  }
}
