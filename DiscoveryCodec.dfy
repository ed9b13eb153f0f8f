/** The discovery handshake of `MainActivity`: the announcement broadcast by
    `sendDiscoveryBroadcast` and the response decoded by
    `handleDiscoveryResponse` (`NITHreceiver|receiver_ip=S&expected_port=P`). */
module DiscoveryCodec {
  import opened Wrappers
  import opened JavaText
  import opened Pairs

  const DiscoveryPort := 20500
  const VibrationPort := 21103
  const DefaultReceiverPort := 20103

  const ResponsePrefix := "NITHreceiver|"
  const ReceiverIpKey := "receiver_ip"
  const ExpectedPortKey := "expected_port"

  const DeviceIdentifier := "NITHphoneWrapper-1.0"
  const DeviceIpKey := "device_ip"
  const DevicePortKey := "device_port"

  /** Why a datagram did not change the target; each is one early `return`
      (or the `NumberFormatException` caught around the whole handler). */
  datatype IgnoreReason = WrongPrefix | MissingField | BadPort

  datatype DiscoveryOutcome = Discovered(receiverIp: string, port: int) | Ignored(reason: IgnoreReason)

  /** `Integer.parseInt` on a string of digits: no sign, so never negative. */
  lemma ParseDigits(s: string, lo: int, hi: int)
    requires AllDigits(s) && s != [] && lo <= 0
    ensures ParseInteger(s, lo, hi) == if DigitsValue(s) <= hi then Some(DigitsValue(s) as int) else None
  {
    assert IsDigit(s[0]);
  }

  /** The key/value map of a response: the text after the prefix, split on
      `&`, each piece `put` in turn. */
  function ResponseParams(message: string): map<string, string>
    requires StartsWith(message, ResponsePrefix)
  {
    PairMap(Split(message[|ResponsePrefix|..], '&'))
  }

  /** What `handleDiscoveryResponse` makes of a datagram: the receiver's
      address text and the port read from the digits of `expected_port`. */
  function DecodeDiscoveryResponse(message: string): (r: DiscoveryOutcome)
    ensures r.Discovered? ==>
              StartsWith(message, ResponsePrefix) &&
              ReceiverIpKey in ResponseParams(message) && ExpectedPortKey in ResponseParams(message) &&
              r.receiverIp == ResponseParams(message)[ReceiverIpKey] &&
              0 <= r.port <= IntMax &&
              r.port == DigitsValue(KeepDigits(ResponseParams(message)[ExpectedPortKey]))
  {
    if !StartsWith(message, ResponsePrefix) then Ignored(WrongPrefix)
    else
      var params := ResponseParams(message);
      if ReceiverIpKey !in params || ExpectedPortKey !in params then Ignored(MissingField)
      else
        var digits := KeepDigits(params[ExpectedPortKey]);
        match ParseInteger(digits, IntMin, IntMax)
        case None => Ignored(BadPort)
        case Some(p) =>
          assert digits != [];
          ParseDigits(digits, IntMin, IntMax);
          Discovered(params[ReceiverIpKey], p)
  }

  /** A response is accepted exactly when it has the prefix, both keys, and a
      port value whose digits are there and fit an `int`. */
  lemma DiscoveredIff(message: string)
    ensures DecodeDiscoveryResponse(message).Discovered? <==>
              StartsWith(message, ResponsePrefix) &&
              ReceiverIpKey in ResponseParams(message) && ExpectedPortKey in ResponseParams(message) &&
              KeepDigits(ResponseParams(message)[ExpectedPortKey]) != [] &&
              DigitsValue(KeepDigits(ResponseParams(message)[ExpectedPortKey])) <= IntMax
  {
    if StartsWith(message, ResponsePrefix) {
      var params := ResponseParams(message);
      if ReceiverIpKey in params && ExpectedPortKey in params {
        var digits := KeepDigits(params[ExpectedPortKey]);
        if digits != [] {
          ParseDigits(digits, IntMin, IntMax);
        }
      }
    }
  }

  // ---------------------------------------------------------------------
  // The handler as the source writes it
  // ---------------------------------------------------------------------

  /** The `HashMap` loop: each piece that has an `=` is `put` with its trimmed
      key and value, a later key overwriting an earlier one. */
  method CollectParams(pieces: seq<string>) returns (params: map<string, string>)
    ensures params == PairMap(pieces)
  {
    params := map[];
    var i := 0;
    while i < |pieces|
      invariant i <= |pieces|
      invariant params == PairMap(pieces[..i])
    {
      assert pieces[..i + 1][..i] == pieces[..i];
      var parts := SplitAtFirst(pieces[i], '=');
      if parts.Some? {
        params := params[Trim(parts.value.0) := Trim(parts.value.1)];
      }
      i := i + 1;
    }
    assert pieces[..i] == pieces;
  }

  /** `handleDiscoveryResponse` up to the UI update: the prefix test, the
      parameter loop, the two lookups and the port parse. */
  method ParseDiscoveryResponse(message: string) returns (r: DiscoveryOutcome)
    ensures r == DecodeDiscoveryResponse(message)
  {
    if !StartsWith(message, ResponsePrefix) {
      return Ignored(WrongPrefix);
    }
    var paramsString := message[|ResponsePrefix|..];
    var params := CollectParams(Split(paramsString, '&'));
    if ReceiverIpKey !in params || ExpectedPortKey !in params {
      return Ignored(MissingField);
    }
    var finalIp := params[ReceiverIpKey];
    var finalPort := ParseInteger(KeepDigits(params[ExpectedPortKey]), IntMin, IntMax);
    if finalPort.None? {
      return Ignored(BadPort);
    }
    return Discovered(finalIp, finalPort.value);
  }

  // ---------------------------------------------------------------------
  // Responses as a receiver writes them
  // ---------------------------------------------------------------------

  /** `NITHreceiver|receiver_ip=<ip>&expected_port=<portText>`. */
  function ResponseOf(ip: string, portText: string): string {
    ResponsePrefix + Join(Params([(ReceiverIpKey, ip), (ExpectedPortKey, portText)]), '&')
  }

  /** The response a receiver at `ip` expecting telemetry on `port` sends. */
  function ResponseText(ip: string, port: int): string {
    ResponseOf(ip, IntToString(port))
  }

  /** The parameters of a written response read back as the two values. */
  lemma ResponseOfParams(ip: string, portText: string)
    requires PlainValue(ip) && PlainValue(portText)
    ensures StartsWith(ResponseOf(ip, portText), ResponsePrefix)
    ensures ResponseParams(ResponseOf(ip, portText)) == map[ReceiverIpKey := ip, ExpectedPortKey := portText]
  {
    var m := ResponseOf(ip, portText);
    var rest := Join(Params([(ReceiverIpKey, ip), (ExpectedPortKey, portText)]), '&');
    assert m[..|ResponsePrefix|] == ResponsePrefix && m[|ResponsePrefix|..] == rest;
    assert PlainKey(ReceiverIpKey) && PlainKey(ExpectedPortKey);
    TwoPairsRoundTrip(ReceiverIpKey, ip, ExpectedPortKey, portText);
  }

  /** Decoding a written response: the address comes back as written, and
      the port is whatever the digits of its text spell, every other
      character (a sign included) being deleted first. */
  lemma DecodeResponseOf(ip: string, portText: string)
    requires PlainValue(ip) && PlainValue(portText)
    ensures DecodeDiscoveryResponse(ResponseOf(ip, portText)) ==
              match ParseInteger(KeepDigits(portText), IntMin, IntMax)
              case None => Ignored(BadPort)
              case Some(p) => Discovered(ip, p)
  {
    ResponseOfParams(ip, portText);
  }

  /** Round trip: a receiver's response gives back its address and port. */
  lemma DecodeResponseText(ip: string, port: int)
    requires PlainValue(ip) && 0 <= port <= IntMax
    ensures DecodeDiscoveryResponse(ResponseText(ip, port)) == Discovered(ip, port)
  {
    var t := IntToString(port);
    assert PlainValue(t) by {
      assert forall k :: 0 <= k < |t| ==> IsDigit(t[k]);
    }
    KeepDigitsOfDigits(t);
    ParseIntToString(port, IntMin, IntMax);
    DecodeResponseOf(ip, t);
  }

  /** A port text without a single digit leaves the target alone. */
  lemma NoDigitsIgnored(ip: string, portText: string)
    requires PlainValue(ip) && PlainValue(portText)
    requires forall k :: 0 <= k < |portText| ==> !IsDigit(portText[k])
    ensures DecodeDiscoveryResponse(ResponseOf(ip, portText)) == Ignored(BadPort)
  {
    DecodeResponseOf(ip, portText);
  }

  /** A minus sign in the port text is deleted with the other non-digits:
      `-<n>` is read as `n`. */
  lemma NegativePortReadAsPositive(ip: string, port: int)
    requires PlainValue(ip) && 0 < port <= IntMax
    ensures DecodeDiscoveryResponse(ResponseText(ip, -port)) == Discovered(ip, port)
  {
    var d := DecimalString(port);
    assert IntToString(-port) == ['-'] + d;
    assert KeepDigits(['-'] + d) == KeepDigits(d) by {
      assert (['-'] + d)[1..] == d;
    }
    KeepDigitsOfDigits(d);
    SignedDigitsPlain(d);
    assert d == IntToString(port);
    ParseIntToString(port, IntMin, IntMax);
    DecodeResponseOf(ip, ['-'] + d);
  }

  lemma SignedDigitsPlain(d: string)
    requires d != [] && AllDigits(d)
    ensures PlainValue(['-'] + d)
  {
    assert forall k :: 0 <= k < |d| ==> IsDigit(d[k]);
  }

  /** The documented example: `NITHreceiver|receiver_ip=192.168.1.50&expected_port=20103`. */
  lemma ResponseExample()
    ensures DecodeDiscoveryResponse(ResponseText("192.168.1.50", 20103)) == Discovered("192.168.1.50", 20103)
  {
    assert PlainValue("192.168.1.50");
    DecodeResponseText("192.168.1.50", 20103);
  }

  // ---------------------------------------------------------------------
  // The announcement
  // ---------------------------------------------------------------------

  /** The listen port announced: the listen-port field when `parseInt`
      accepts it, otherwise the vibration port (and the field is reset). */
  function AnnouncedListenPort(listenPortText: string): (p: int)
    ensures IntMin <= p <= IntMax
    ensures ParseInteger(listenPortText, IntMin, IntMax).None? ==> p == VibrationPort
    ensures ParseInteger(listenPortText, IntMin, IntMax).Some? ==> p == ParseInteger(listenPortText, IntMin, IntMax).value
  {
    match ParseInteger(listenPortText, IntMin, IntMax)
    case None => VibrationPort
    case Some(n) => n
  }

  /** `NITHphoneWrapper-1.0|device_ip=<ip>&device_port=<port>`. */
  function Announcement(myIp: string, listenPort: int): string {
    DeviceIdentifier + "|" + Join(Params([(DeviceIpKey, myIp), (DevicePortKey, IntToString(listenPort))]), '&')
  }

  /** A receiver reading the announcement with the same pair grammar gets the
      phone's address and listen port back. */
  lemma AnnouncementRoundTrip(myIp: string, listenPort: int)
    requires PlainValue(myIp) && IntMin <= listenPort <= IntMax
    ensures var a := Announcement(myIp, listenPort);
            var n := |DeviceIdentifier| + 1;
            StartsWith(a, DeviceIdentifier + "|") &&
            PairMap(Split(a[n..], '&')) == map[DeviceIpKey := myIp, DevicePortKey := IntToString(listenPort)] &&
            ParseInteger(IntToString(listenPort), IntMin, IntMax) == Some(listenPort)
  {
    var t := IntToString(listenPort);
    assert PlainValue(t) by {
      var d := DecimalString(if listenPort < 0 then -listenPort else listenPort);
      assert forall k :: 0 <= k < |d| ==> IsDigit(d[k]);
      if listenPort < 0 {
        assert t == ['-'] + d;
      }
    }
    var a := Announcement(myIp, listenPort);
    var rest := Join(Params([(DeviceIpKey, myIp), (DevicePortKey, t)]), '&');
    assert a[|DeviceIdentifier| + 1..] == rest by {
      assert a == DeviceIdentifier + "|" + rest;
    }
    assert PlainKey(DeviceIpKey) && PlainKey(DevicePortKey);
    TwoPairsRoundTrip(DeviceIpKey, myIp, DevicePortKey, t);
    ParseIntToString(listenPort, IntMin, IntMax);
  }
}
