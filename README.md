# NITHphoneWrapper: a Dafny model of the phone-side protocol and state

NITHphoneWrapper turns an Android phone into a head tracker. `MainActivity`
does four things:

- It streams orientation telemetry over UDP to a receiver.
- It finds that receiver with a broadcast discovery handshake.
- It obeys vibration commands sent back by the receiver.
- It can hand over to `ButtonActivity`. That screen adds two on-screen buttons to the same telemetry and can vibrate while a button is held.

This project models the protocol and state logic of the two activities and
proves properties of it:

- **Text handling.** `JavaText` models the Java string operations the code
  relies on:
  - `split` with and without a limit;
  - `trim` and `equalsIgnoreCase`;
  - `Integer.parseInt`/`Long.parseLong`;
  - `String.valueOf` and `replaceAll("[^0-9]", "")`.

  `Pairs` models the `key=value&...` grammar and the `HashMap` loop both
  decoders use.
- **Vibration commands.** `CommandCodec` models `processVibrationCommand`:
  - the `$...^` framing;
  - the `|` fields and the case-insensitive `COM` check;
  - the parameter loop with its in-place locals;
  - the range rules.

  It also proves the round trip from a well-formed command to the vibration it requests.
- **Discovery.** `DiscoveryCodec` models the response decoder of
  `handleDiscoveryResponse` and the announcement of `sendDiscoveryBroadcast`.
  Both have round-trip lemmas.
- **Addresses.** `NetAddress` models the little-endian 32-bit IPv4 arithmetic
  of `getSubnetBroadcastAddress` and `getIpAddress`:
  - the three broadcast tiers;
  - the octet order;
  - a dotted-quad parser under which every formatted address reads back.
- **Telemetry.** `Telemetry` models the datagram both screens send:
  - the inversion switches;
  - the field order;
  - the button extras.

  A reference reader recovers every field.
- **The two screens.** `MainScreen` (class `MainActivity`) and `ButtonScreen`
  (class `ButtonActivity`) model the fields the activities update in place:
  - the tracking session and its socket;
  - the two listener guards;
  - the touch and vibration state machine;
  - the sender loop;
  - `onCreate`'s guards;
  - `cleanup`.

Inputs that come from the platform are parameters of the model:

- whether a host name resolves;
- whether a socket opens;
- the Wi-Fi and DHCP state;
- the vibrator;
- sensor events;
- the float formatter.

Two behaviours of the code are easy to miss, and the model keeps both:

- A vibration command whose intensity is not a number is dropped. It is not
  served at the default amplitude. `Integer.parseInt` throws inside the
  parameter loop, and the handler around the whole command catches the
  exception. Only an intensity that parses but falls outside 1..255 falls back
  to the default.
- The discovery port is read after deleting every non-digit character
  anywhere in the value. A minus sign is deleted too, so `-20103` reads as
  `20103`, and `20a1b03` also reads as `20103`.

## Model

| member | source | states |
|---|---|---|
| JavaText.SplitJoin | app/src/main/java/com/example/nithphonewrapper/MainActivity.java:491-492 | `split` with limit 0 inverts joining for separator-free pieces whose last piece is non-empty (trailing empty strings are dropped) |
| JavaText.SplitAllJoin | app/src/main/java/com/example/nithphonewrapper/MainActivity.java:512 | the unlimited split inverts the join for separator-free pieces |
| JavaText.JoinSplitAll | app/src/main/java/com/example/nithphonewrapper/MainActivity.java:512 | joining the unlimited split restores the text |
| JavaText.SplitAtFirst | app/src/main/java/com/example/nithphonewrapper/MainActivity.java:513-514 | `split("=", 2)` has two parts exactly when `=` occurs; the head has no `=` and head, `=`, tail rebuild the text |
| JavaText.SplitAtFirstOf | app/src/main/java/com/example/nithphonewrapper/MainActivity.java:513-514 | splitting at the first separator gives back a separator-free head and everything after it |
| JavaText.Trim | app/src/main/java/com/example/nithphonewrapper/MainActivity.java:515-516 | the result is a slice of the input, everything before and after the slice is at or below U+0020, and the result neither starts nor ends with such a character |
| JavaText.TrimIdempotent | app/src/main/java/com/example/nithphonewrapper/MainActivity.java:515-516 | trimming twice is trimming once |
| JavaText.EqualsIgnoreCaseOnAscii | app/src/main/java/com/example/nithphonewrapper/MainActivity.java:502 | for ASCII text, `equalsIgnoreCase` against a literal is equality after lower-casing |
| JavaText.ParseInteger | app/src/main/java/com/example/nithphonewrapper/MainActivity.java:519-521 | the empty string never parses; a parsed value lies in the type's range (what is accepted and what is refused is stated by the two lemmas below) |
| JavaText.ParseSignedDigits | app/src/main/java/com/example/nithphonewrapper/MainActivity.java:519-521 | a digit string, bare, after `+` or after `-`, parses to its value (negated after `-`) exactly when that value is in range |
| JavaText.ParseRejectsNonDigit | app/src/main/java/com/example/nithphonewrapper/MainActivity.java:519-521 | any other character than a digit, except a leading sign followed by more text, makes the parse fail |
| JavaText.ParseIntToString | app/src/main/java/com/example/nithphonewrapper/MainActivity.java:519-521 | every in-range integer, written in decimal, parses back to itself |
| JavaText.ParseRefusesOverflow | app/src/main/java/com/example/nithphonewrapper/MainActivity.java:519-521 | a digit string whose value exceeds the maximum does not parse |
| JavaText.ParseRefusesUnderflow | app/src/main/java/com/example/nithphonewrapper/MainActivity.java:519-521 | a negative number below the minimum does not parse |
| JavaText.KeepDigits | app/src/main/java/com/example/nithphonewrapper/MainActivity.java:689 | the result is all digits and is empty exactly when the input has no digit (which digits and in what order is stated by the two lemmas below) |
| JavaText.KeepDigitsAppend | app/src/main/java/com/example/nithphonewrapper/MainActivity.java:689 | deleting non-digits from a concatenation deletes them from each part, so the kept digits keep their order |
| JavaText.KeepDigitsChar | app/src/main/java/com/example/nithphonewrapper/MainActivity.java:689 | a single character is kept exactly when it is a digit |
| JavaText.KeepDigitsOfDigits | app/src/main/java/com/example/nithphonewrapper/MainActivity.java:689 | deleting non-digits leaves a digit string unchanged |
| JavaText.DecimalStringValue | app/src/main/java/com/example/nithphonewrapper/MainActivity.java:693 | the decimal text of `n` has the value `n` |
| Pairs.ParsePair | app/src/main/java/com/example/nithphonewrapper/MainActivity.java:513-516 | a pair is recognised exactly when it has an `=`; key and value come out trimmed |
| Pairs.PutAt | app/src/main/java/com/example/nithphonewrapper/MainActivity.java:674-677 | one `put` adds the pair's key with its value and leaves every other key's presence and value as they were |
| Pairs.PairMapHasKey | app/src/main/java/com/example/nithphonewrapper/MainActivity.java:672-678 | a key is in the map exactly when some piece supplies it |
| Pairs.PairMapLastWins | app/src/main/java/com/example/nithphonewrapper/MainActivity.java:672-678 | the map holds the value from the last piece that supplies the key |
| Pairs.Params | app/src/main/java/com/example/nithphonewrapper/MainActivity.java:447-449 | one `key=value` text per pair, in order |
| Pairs.ParsePairOfParam | app/src/main/java/com/example/nithphonewrapper/MainActivity.java:513-516 | a written pair with a plain key and trimmed value parses back to itself |
| Pairs.PairMapOfParams | app/src/main/java/com/example/nithphonewrapper/MainActivity.java:672-678 | the map built from written pairs is the pairs' own map, the last one winning |
| Pairs.ParamsRoundTrip | app/src/main/java/com/example/nithphonewrapper/MainActivity.java:672-678 | splitting an `&`-joined list of plain pairs and collecting it gives back their map |
| Pairs.TwoPairsRoundTrip | app/src/main/java/com/example/nithphonewrapper/MainActivity.java:672-686 | the same round trip for a two-pair text, as the receiver writes it |
| Pairs.MapOfLookup | app/src/main/java/com/example/nithphonewrapper/MainActivity.java:680-681 | a key that no later pair repeats maps to its own value |
| Pairs.ParamsJoinFree | app/src/main/java/com/example/nithphonewrapper/MainActivity.java:447-449 | a character absent from all keys and values is absent from the joined text |
| CommandCodec.DecodeCommand | app/src/main/java/com/example/nithphonewrapper/MainActivity.java:476-552 | a vibration needs the `$`/`^` markers, a duration within 1..10000 and an explicit intensity within 1..255 |
| CommandCodec.MarkersRequired | app/src/main/java/com/example/nithphonewrapper/MainActivity.java:482-485 | the marker rejection happens exactly when the command is not framed by `$` and `^` |
| CommandCodec.FrameRejects | app/src/main/java/com/example/nithphonewrapper/MainActivity.java:488-505 | inside the markers: rejected for missing parts exactly when the split yields fewer than 3 fields; rejected as non-`COM` exactly when field 2 differs from `COM` ignoring case |
| CommandCodec.AbortIsFinal | app/src/main/java/com/example/nithphonewrapper/MainActivity.java:512-524 | once a parameter throws, the remaining parameters cannot undo it |
| CommandCodec.ParameterLoop | app/src/main/java/com/example/nithphonewrapper/MainActivity.java:509-524 | the loop with in-place locals computes the parameter fold |
| CommandCodec.ReadParam | app/src/main/java/com/example/nithphonewrapper/MainActivity.java:513-522 | one turn of the loop (split at the first `=`, trim, set the local the key names or throw) is exactly one step of the fold |
| CommandCodec.ProcessVibrationCommand | app/src/main/java/com/example/nithphonewrapper/MainActivity.java:476-552 | the imperative handler decides exactly what the decoder decides |
| CommandCodec.ApplyParamEffect | app/src/main/java/com/example/nithphonewrapper/MainActivity.java:513-522 | one parameter throws exactly when it is a recognised key with an unparsable value; otherwise it sets only its own field |
| CommandCodec.CheckedIntensity | app/src/main/java/com/example/nithphonewrapper/MainActivity.java:527-530 | the intensity handed on is within 1..255 or the default amplitude, and an intensity within 1..255 is kept |
| CommandCodec.Conclude | app/src/main/java/com/example/nithphonewrapper/MainActivity.java:527-549 | a number the parser refused rejects the command; otherwise it vibrates exactly when the duration is within 1..10000, with that duration and the range-checked intensity |
| CommandCodec.AbortsIffBadNumber | app/src/main/java/com/example/nithphonewrapper/MainActivity.java:509-549 | the command is dropped for a bad number exactly when some parameter holds one, wherever it stands |
| CommandCodec.DurationIsLastWritten | app/src/main/java/com/example/nithphonewrapper/MainActivity.java:520-521 | the duration is the value of the last duration parameter |
| CommandCodec.DurationDefault | app/src/main/java/com/example/nithphonewrapper/MainActivity.java:510 | without a duration parameter the duration stays 100 |
| CommandCodec.IntensityIsLastWritten | app/src/main/java/com/example/nithphonewrapper/MainActivity.java:518-519 | the intensity is the value of the last intensity parameter |
| CommandCodec.IntensityDefault | app/src/main/java/com/example/nithphonewrapper/MainActivity.java:509 | without an intensity parameter the intensity stays the default amplitude |
| CommandCodec.IntToStringShape | app/src/main/java/com/example/nithphonewrapper/MainActivity.java:519-521 | a written integer is non-empty, trimmed and free of the separators |
| CommandCodec.FrameParts | app/src/main/java/com/example/nithphonewrapper/MainActivity.java:491 | `issuer|COM|params` splits into exactly those three fields |
| CommandCodec.TwoParams | app/src/main/java/com/example/nithphonewrapper/MainActivity.java:512 | two `&`-joined parameters split back into the two |
| CommandCodec.CommandOfParts | app/src/main/java/com/example/nithphonewrapper/MainActivity.java:482-508 | a written command passes the framing and type checks with its parameter text as field 3 |
| CommandCodec.ParamsOfValues | app/src/main/java/com/example/nithphonewrapper/MainActivity.java:512-524 | the loop over a written parameter text yields the two parsed values, or throws |
| CommandCodec.DecodeCommandOf | app/src/main/java/com/example/nithphonewrapper/MainActivity.java:476-552 | decoding a written command is the range rules applied to its two parsed values |
| CommandCodec.DecodeCommandText | app/src/main/java/com/example/nithphonewrapper/MainActivity.java:476-552 | round trip: a command written with an intensity and a duration vibrates with them (intensity defaulted outside 1..255), or is rejected exactly when the duration is outside 1..10000 |
| CommandCodec.IntensityOverflowRejects | app/src/main/java/com/example/nithphonewrapper/MainActivity.java:519-547 | an intensity beyond `int` drops the command instead of defaulting |
| CommandCodec.BadIntensityExample | app/src/main/java/com/example/nithphonewrapper/MainActivity.java:519-547 | a non-numeric intensity drops the command |
| CommandCodec.EmptyParamsRejected | app/src/main/java/com/example/nithphonewrapper/MainActivity.java:491-495 | an empty parameter field is dropped by `split` and the command lacks parts |
| DiscoveryCodec.ParseDigits | app/src/main/java/com/example/nithphonewrapper/MainActivity.java:689 | a non-empty digit string parses to its value when that fits |
| DiscoveryCodec.DecodeDiscoveryResponse | app/src/main/java/com/example/nithphonewrapper/MainActivity.java:661-709 | an accepted response has the prefix and both keys; it gives the `receiver_ip` value and a non-negative port spelled by the digits of `expected_port` |
| DiscoveryCodec.DiscoveredIff | app/src/main/java/com/example/nithphonewrapper/MainActivity.java:663-689 | accepted exactly when the prefix and both keys are there and the port's digits exist and fit an `int` |
| DiscoveryCodec.CollectParams | app/src/main/java/com/example/nithphonewrapper/MainActivity.java:671-678 | the `HashMap` loop builds the last-wins pair map |
| DiscoveryCodec.ParseDiscoveryResponse | app/src/main/java/com/example/nithphonewrapper/MainActivity.java:661-689 | the imperative handler decides exactly what the decoder decides |
| DiscoveryCodec.ResponseOfParams | app/src/main/java/com/example/nithphonewrapper/MainActivity.java:668-678 | a written response reads back as its two values |
| DiscoveryCodec.DecodeResponseOf | app/src/main/java/com/example/nithphonewrapper/MainActivity.java:680-689 | decoding a written response gives its address and whatever its port text's digits spell |
| DiscoveryCodec.DecodeResponseText | app/src/main/java/com/example/nithphonewrapper/MainActivity.java:661-689 | round trip: a receiver's response gives back its address and port |
| DiscoveryCodec.NoDigitsIgnored | app/src/main/java/com/example/nithphonewrapper/MainActivity.java:689-708 | a port without digits leaves the target alone |
| DiscoveryCodec.NegativePortReadAsPositive | app/src/main/java/com/example/nithphonewrapper/MainActivity.java:689 | `-n` is read as `n` |
| DiscoveryCodec.ResponseExample | app/src/main/java/com/example/nithphonewrapper/MainActivity.java:659 | the documented example response decodes to `192.168.1.50` and port 20103 |
| DiscoveryCodec.AnnouncedListenPort | app/src/main/java/com/example/nithphonewrapper/MainActivity.java:199-206 | the field's value when `parseInt` accepts it, otherwise the vibration port 21103; always an `int` |
| DiscoveryCodec.AnnouncementRoundTrip | app/src/main/java/com/example/nithphonewrapper/MainActivity.java:209-211 | a receiver reading the announcement gets the phone's address and listen port back |
| NetAddress.Pack | app/src/main/java/com/example/nithphonewrapper/MainActivity.java:325-330 | packing four octets and reading them back, low byte first, gives the same octets |
| NetAddress.PackOctetsOf | app/src/main/java/com/example/nithphonewrapper/MainActivity.java:325-330 | reading the octets of an address and packing them gives the address |
| NetAddress.ParseOctet | app/src/main/java/com/example/nithphonewrapper/MainActivity.java:325-330 | a recognised octet text has one to three digits and a value at most 255 |
| NetAddress.DecimalStringShape | app/src/main/java/com/example/nithphonewrapper/MainActivity.java:325-330 | an octet's decimal text has one to three digits and no `.` |
| NetAddress.ParseOctetOf | app/src/main/java/com/example/nithphonewrapper/MainActivity.java:325-330 | an octet's text reads back as the octet |
| NetAddress.QuadTextParts | app/src/main/java/com/example/nithphonewrapper/MainActivity.java:324-330 | a dotted quad splits at `.` into its four octet texts |
| NetAddress.ParseFormatQuad | app/src/main/java/com/example/nithphonewrapper/MainActivity.java:324-330 | round trip: a formatted address reads back as the same 32-bit value |
| NetAddress.FormatQuadInjective | app/src/main/java/com/example/nithphonewrapper/MainActivity.java:324-330 | different addresses are printed differently |
| NetAddress.SubnetBroadcastShape | app/src/main/java/com/example/nithphonewrapper/MainActivity.java:251 | the broadcast address keeps the network bits and sets every host bit |
| NetAddress.SubnetBroadcastUnique | app/src/main/java/com/example/nithphonewrapper/MainActivity.java:251 | it is the only address that does both |
| NetAddress.SlashTwentyFourIsSubnet | app/src/main/java/com/example/nithphonewrapper/MainActivity.java:261-265 | the fallback is the subnet broadcast under `255.255.255.0`: the first three printed octets kept, the last 255 |
| NetAddress.SlashTwentyFourBroadcast | app/src/main/java/com/example/nithphonewrapper/MainActivity.java:264-270 | the `/24` guess keeps the first three printed octets and prints 255 last |
| NetAddress.BroadcastTarget | app/src/main/java/com/example/nithphonewrapper/MainActivity.java:242-279 | the DHCP subnet broadcast when the mask is non-zero; else the `/24` broadcast when the connection address is non-zero; else all ones |
| NetAddress.SubnetBroadcastAddress | app/src/main/java/com/example/nithphonewrapper/MainActivity.java:242-279 | the returned text reads back as the chosen broadcast address |
| NetAddress.AllOnesText | app/src/main/java/com/example/nithphonewrapper/MainActivity.java:278 | the last tier prints `255.255.255.255` |
| NetAddress.BroadcastExampleOctets | app/src/main/java/com/example/nithphonewrapper/MainActivity.java:240 | 192.168.87.68 under 255.255.255.0 broadcasts to octets 192.168.87.255 |
| NetAddress.BroadcastExample | app/src/main/java/com/example/nithphonewrapper/MainActivity.java:240 | and that address prints as `192.168.87.255` |
| NetAddress.LocalIpText | app/src/main/java/com/example/nithphonewrapper/MainActivity.java:312-334 | on the hotspot the fixed address `192.168.43.1`; otherwise a non-zero connection address printed so that it reads back; without Wi-Fi service or address "Not Available" |
| NetAddress.HotspotAddressIsQuad | app/src/main/java/com/example/nithphonewrapper/MainActivity.java:319 | the hotspot constant is the dotted quad 192.168.43.1 |
| Telemetry.Record | app/src/main/java/com/example/nithphonewrapper/MainActivity.java:401-418 | a gyroscope event sets the yaw, pitch and roll rates from z, x and y and keeps the angles; a rotation event sets the angles and keeps the rates |
| Telemetry.Invert | app/src/main/java/com/example/nithphonewrapper/MainActivity.java:421-422 | pitch changes exactly when inverted and non-zero, yaw rate likewise; roll and the other rates pass through |
| Telemetry.InvertInvolution | app/src/main/java/com/example/nithphonewrapper/MainActivity.java:421-422 | inverting twice gives the reading back |
| Telemetry.InvertNothing | app/src/main/java/com/example/nithphonewrapper/MainActivity.java:421-422 | with both switches off the reading is sent as it is |
| Telemetry.MotionFieldsPlain | app/src/main/java/com/example/nithphonewrapper/MainActivity.java:447-449 | the motion fields carry no separator characters |
| Telemetry.ReadFrame | app/src/main/java/com/example/nithphonewrapper/MainActivity.java:447-449 | a reader splits the datagram at the first `^` after the header |
| Telemetry.ReadPayload | app/src/main/java/com/example/nithphonewrapper/MainActivity.java:447-449 | round trip: a reader recovers the five motion fields and the extras |
| Telemetry.MotionMapFields | app/src/main/java/com/example/nithphonewrapper/MainActivity.java:447-449 | each motion key holds its formatted reading |
| Telemetry.ButtonExtrasPlain | app/src/main/java/com/example/nithphonewrapper/ButtonActivity.java:247-252 | the button extras are plain when the intent strings are |
| Telemetry.ButtonMapFields | app/src/main/java/com/example/nithphonewrapper/ButtonActivity.java:247-252 | `button1`/`button2` read `"true"` exactly for a pressed button; `dev` and `phone_ip` hold the intent strings or `null` |
| Telemetry.SendAsWritten | app/src/main/java/com/example/nithphonewrapper/ButtonActivity.java:254-262 | as written, nothing is sent without an open socket and a resolved address; otherwise the send throws exactly when the port is outside 0..65535, and sends the payload when it is inside |
| Telemetry.CheckedSend | app/src/main/java/com/example/nithphonewrapper/ButtonActivity.java:254-262 | the corrected send: a datagram goes out exactly when the socket is ready and the port is in 0..65535, and it carries the payload |
| Telemetry.CheckedSendAgrees | app/src/main/java/com/example/nithphonewrapper/ButtonActivity.java:254-262 | the corrected send never crashes, and wherever the send as written does not crash both send the same datagram |
| ButtonScreen.PortOf | app/src/main/java/com/example/nithphonewrapper/ButtonActivity.java:93 | the `TARGET_PORT` extra when present, 20103 when absent |
| ButtonScreen.TouchStep | app/src/main/java/com/example/nithphonewrapper/ButtonActivity.java:151-195 | down sets the button pressed and asks for vibration iff vibrate-on-press; up or cancel clears both flags; other actions change nothing; the other button's flags never change |
| ButtonScreen.StartVibration | app/src/main/java/com/example/nithphonewrapper/ButtonActivity.java:198-211 | the motor runs afterwards exactly when it ran before or a motor exists; no other flag changes |
| ButtonScreen.StopIfNeeded | app/src/main/java/com/example/nithphonewrapper/ButtonActivity.java:213-220 | while a button still asks for vibration nothing changes; when none does and a vibrator exists the vibration is cancelled; no other flag changes |
| ButtonScreen.Release | app/src/main/java/com/example/nithphonewrapper/ButtonActivity.java:162-191 | the released button is neither pressed nor asking for vibration, the other button's flags stay, and the vibration continues exactly when it ran and the other button asks for it (or there is no vibrator to cancel) |
| ButtonScreen.TouchKeepsValid | app/src/main/java/com/example/nithphonewrapper/ButtonActivity.java:151-220 | every touch keeps the invariant: a button asks for vibration only while pressed with vibrate-on-press set, and vibration runs only while one asks |
| ButtonScreen.PressVibratesIff | app/src/main/java/com/example/nithphonewrapper/ButtonActivity.java:156-201 | a press asks for vibration exactly when vibrate-on-press is set; with a motor it then vibrates, and without the switch nothing starts |
| ButtonScreen.ReleaseWhileOtherHeld | app/src/main/java/com/example/nithphonewrapper/ButtonActivity.java:162-220 | releasing one button while the other asks for vibration keeps it running |
| ButtonScreen.ReleaseLastStops | app/src/main/java/com/example/nithphonewrapper/ButtonActivity.java:162-220 | releasing the last button asking for vibration stops it |
| ButtonScreen.PressReleaseRestores | app/src/main/java/com/example/nithphonewrapper/ButtonActivity.java:151-172 | press then release with both buttons idle restores the flags |
| ButtonScreen.SenderRoundsExact | app/src/main/java/com/example/nithphonewrapper/ButtonActivity.java:224-232 | every sending turn read `isRunning` true, only the last may have been interrupted, and the loop stops at the first false check or interrupted sleep |
| ButtonScreen.NotRunningSendsNothing | app/src/main/java/com/example/nithphonewrapper/ButtonActivity.java:224 | a loop that first reads `isRunning` false sends nothing |
| ButtonScreen.SentPacketsAt | app/src/main/java/com/example/nithphonewrapper/ButtonActivity.java:224-227 | the k-th packet of the loop is built from the fields as the callbacks of the first k sleeps left them |
| ButtonScreen.PacketIsCheckedSend | app/src/main/java/com/example/nithphonewrapper/ButtonActivity.java:237-262 | the button screen's packet is the corrected send of its payload, so it is nothing where the send as written would crash |
| ButtonScreen.ButtonPayloadReads | app/src/main/java/com/example/nithphonewrapper/ButtonActivity.java:243-252 | a reader of a button packet finds the pitch negated iff `invertPitch` and `button1`/`button2` `"true"` exactly when pressed |
| ButtonScreen.ButtonActivity.constructor | app/src/main/java/com/example/nithphonewrapper/ButtonActivity.java:87-148 | the extras are stored with their defaults; without a target text it finishes before anything is set up; `isRunning` becomes true exactly when resolution and socket both succeed |
| ButtonScreen.ButtonActivity.StartContinuousVibration | app/src/main/java/com/example/nithphonewrapper/ButtonActivity.java:198-211 | a repeating vibration starts only with a motor |
| ButtonScreen.ButtonActivity.StopVibrationIfNeeded | app/src/main/java/com/example/nithphonewrapper/ButtonActivity.java:213-220 | cancelled only when neither button asks for vibration |
| ButtonScreen.ButtonActivity.Touch | app/src/main/java/com/example/nithphonewrapper/ButtonActivity.java:150-196 | the listeners perform the touch step and keep the invariant |
| ButtonScreen.ButtonActivity.Press | app/src/main/java/com/example/nithphonewrapper/ButtonActivity.java:153-160 | `ACTION_DOWN` gives the down touch step: the button pressed, and with vibrate-on-press set its vibration flag and the motor started |
| ButtonScreen.ButtonActivity.ReleaseButton | app/src/main/java/com/example/nithphonewrapper/ButtonActivity.java:162-168 | `ACTION_UP` and `ACTION_CANCEL` clear the button's two flags and stop the motor when no button still asks for it |
| ButtonScreen.ButtonActivity.OnSensorChanged | app/src/main/java/com/example/nithphonewrapper/ButtonActivity.java:266-288 | the reading is stored as recorded |
| ButtonScreen.ButtonActivity.SendUdpPacket | app/src/main/java/com/example/nithphonewrapper/ButtonActivity.java:237-263 | a packet is built exactly when the socket is open, the address resolved and the port is in 0..65535 (the corrected send), and it is the packet of the current fields |
| ButtonScreen.ButtonActivity.RunCallbacks | app/src/main/java/com/example/nithphonewrapper/ButtonActivity.java:150-288 | the callbacks of one sleep update the reading as `Record` does and the touch flags as `TouchStep` does, in order |
| ButtonScreen.ButtonActivity.SenderTurn | app/src/main/java/com/example/nithphonewrapper/ButtonActivity.java:224-227 | one turn sends the packet of the current fields, then runs the callbacks of the sleep; the socket, address, switches and intent strings stay |
| ButtonScreen.ButtonActivity.RunSender | app/src/main/java/com/example/nithphonewrapper/ButtonActivity.java:222-235 | the loop sends one packet per turn until a turn reads `isRunning` false or its sleep is interrupted (the count `SenderRoundsExact` characterises); the k-th packet carries the reading and the button flags as the sensor and touch callbacks of the earlier sleeps left them; afterwards the fields hold what those callbacks wrote |
| ButtonScreen.ButtonActivity.CleanupAsWritten | app/src/main/java/com/example/nithphonewrapper/ButtonActivity.java:307-326 | it throws exactly when the sensor manager was never created, leaving the socket open |
| ButtonScreen.ButtonActivity.Cleanup | app/src/main/java/com/example/nithphonewrapper/ButtonActivity.java:307-326 | the sender is stopped, the thread and socket dropped, sensors unregistered and vibration cancelled; a second call changes nothing |
| ButtonScreen.ButtonActivity.OnPause | app/src/main/java/com/example/nithphonewrapper/ButtonActivity.java:296-299 | the session is shut down: sender stopped, thread and socket dropped, sensors unregistered, vibration cancelled when a vibrator exists |
| ButtonScreen.ButtonActivity.OnDestroy | app/src/main/java/com/example/nithphonewrapper/ButtonActivity.java:301-305 | the session is shut down as by the null-checked `cleanup`: sender stopped, thread and socket dropped, sensors unregistered, vibration cancelled when a vibrator exists |
| ButtonScreen.EmptyTargetCrashes | app/src/main/java/com/example/nithphonewrapper/ButtonActivity.java:100-104 | a launch with an empty target text reaches the unguarded cleanup and throws |
| ButtonScreen.EmptyTargetCleansUp | app/src/main/java/com/example/nithphonewrapper/ButtonActivity.java:100-104 | with the null check the same launch shuts down, twice in a row |
| MainScreen.StartListener | app/src/main/java/com/example/nithphonewrapper/MainActivity.java:713-747 | a live listener is kept; otherwise a new one starts on the port, if there is one |
| MainScreen.StartListenerIdempotent | app/src/main/java/com/example/nithphonewrapper/MainActivity.java:713-747 | starting twice is starting once: never a second live listener |
| MainScreen.StartListenerRuns | app/src/main/java/com/example/nithphonewrapper/MainActivity.java:713-747 | with a port to bind, a live listener exists afterwards |
| MainScreen.StartedIff | app/src/main/java/com/example/nithphonewrapper/MainActivity.java:336-358 | tracking starts exactly when the sensor exists, the address is non-empty, the port parses, the host resolves and the socket opens |
| MainScreen.DiscoveredTargetStarts | app/src/main/java/com/example/nithphonewrapper/MainActivity.java:336-358 | the fields written by discovery pass every check of `startTracking`; none of those checks bounds the port to 0..65535 |
| MainScreen.OutOfRangePortCrashes | app/src/main/java/com/example/nithphonewrapper/MainActivity.java:451-461 | the port text `70000` starts a session and is handed to the button screen, the send as written crashes on it, and the corrected send refuses it |
| MainScreen.ControllerPort | app/src/main/java/com/example/nithphonewrapper/MainActivity.java:289-294 | the port field's value when it parses, otherwise 20103 |
| MainScreen.MainActivity.constructor | app/src/main/java/com/example/nithphonewrapper/MainActivity.java:87-169 | empty target, 20103 and 21103 in the port fields, the stored ports at Java's default 0, switches off, nothing running |
| MainScreen.MainActivity.SetInvertPitch | app/src/main/java/com/example/nithphonewrapper/MainActivity.java:133-136 | the switch sets `invertPitch` |
| MainScreen.MainActivity.SetInvertYaw | app/src/main/java/com/example/nithphonewrapper/MainActivity.java:139-142 | the switch sets `invertYaw` |
| MainScreen.MainActivity.SetVibrateOnPress | app/src/main/java/com/example/nithphonewrapper/MainActivity.java:145-148 | the switch sets `vibrateOnPress` |
| MainScreen.MainActivity.StartTracking | app/src/main/java/com/example/nithphonewrapper/MainActivity.java:336-367 | the outcome follows the check order; tracking iff started, with the socket open and the sensors registered exactly then; the port is stored once it parses and the address once it resolves, even if a later step fails |
| MainScreen.MainActivity.StopTracking | app/src/main/java/com/example/nithphonewrapper/MainActivity.java:369-382 | not tracking, sensors unregistered, socket dropped; safe to repeat |
| MainScreen.MainActivity.ToggleTracking | app/src/main/java/com/example/nithphonewrapper/MainActivity.java:161-164 | while tracking the button stops the session and keeps the stored port and address; otherwise it starts one exactly when every check passes, storing the port and address as `startTracking` does; the socket is open and the sensors registered exactly while tracking |
| MainScreen.MainActivity.OnSensorChanged | app/src/main/java/com/example/nithphonewrapper/MainActivity.java:398-464 | nothing outside a session; in one, the reading is recorded and a datagram goes out exactly on rotation events to a port in 0..65535 (the corrected send), with the inverted reading and the device extras |
| MainScreen.MainActivity.StartDiscoveryListener | app/src/main/java/com/example/nithphonewrapper/MainActivity.java:713-725 | the listener guard on the discovery port |
| MainScreen.MainActivity.StopDiscoveryListener | app/src/main/java/com/example/nithphonewrapper/MainActivity.java:727-732 | no discovery listener afterwards |
| MainScreen.MainActivity.StartVibrationListener | app/src/main/java/com/example/nithphonewrapper/MainActivity.java:734-747 | the listener guard on the parsed listen port, storing the port only when a listener starts |
| MainScreen.MainActivity.StopVibrationListener | app/src/main/java/com/example/nithphonewrapper/MainActivity.java:749-754 | no vibration listener afterwards |
| MainScreen.MainActivity.DiscoveryListenerExited | app/src/main/java/com/example/nithphonewrapper/MainActivity.java:589-595 | a discovery thread that ended is no longer alive, its reference kept |
| MainScreen.MainActivity.VibrationListenerExited | app/src/main/java/com/example/nithphonewrapper/MainActivity.java:642-648 | a vibration thread that ended is no longer alive, its reference kept |
| MainScreen.MainActivity.OnResume | app/src/main/java/com/example/nithphonewrapper/MainActivity.java:757-762 | both listener guards run: a live listener is kept with its port, otherwise a new discovery listener starts and a vibration listener starts when the listen port parses, storing that port; so a live discovery listener exists afterwards |
| MainScreen.MainActivity.OnPause | app/src/main/java/com/example/nithphonewrapper/MainActivity.java:765-772 | not tracking, no socket, no listeners |
| MainScreen.MainActivity.HandleDiscoveryResponse | app/src/main/java/com/example/nithphonewrapper/MainActivity.java:661-709 | an ignored response changes nothing; an accepted one writes the fields and, when the address resolves, the live target |
| MainScreen.MainActivity.SendDiscoveryBroadcast | app/src/main/java/com/example/nithphonewrapper/MainActivity.java:190-236 | the announcement goes to the chosen broadcast address; a listen-port field that parses is kept, any other is replaced by `21103`, and the announced port is what the field now holds |
| MainScreen.MainActivity.OpenButtonController | app/src/main/java/com/example/nithphonewrapper/MainActivity.java:281-305 | no intent without a target text; otherwise the intent carries the target, the port or 20103, the switches and the device extras |
| MainScreen.LaunchFromMain | app/src/main/java/com/example/nithphonewrapper/MainActivity.java:281-305 | a button screen launched from the main screen always has its sensor manager |

## Left out

- `Telemetry.Sample` holds Java `float` values as `real`, so `Telemetry.Invert` and the payload lemmas do not capture the sign of zero, NaN, infinities or float32 rounding. The visible consequence: `ButtonActivity` starts with `currentPitch = 0f`, and with `INVERT_PITCH` set it sends `-0.00` as the pitch (`-0.0f` under `%.2f`) until the first sensor event; the model sends the same text with and without inversion. The yaw rate under `INVERT_YAW` behaves the same way.
- Sensor processing is not modelled. This covers `getRotationMatrixFromVector`, `getOrientation`, `Math.toDegrees` and the float conversions. A rotation event arrives as pitch and roll in degrees.
- The `%.2f`/`%.4f` rendering is an abstract formatter. Only its freedom from separator characters is assumed, and only for the read-back lemmas.
- The display texts, toasts, logging and button colours are not modelled.
- `String.format(Locale.getDefault(), "%d...")` is modelled with ASCII digits. A locale with other digits would print the octets differently.
- Java `parseInt` also accepts non-ASCII Unicode digits. `ParseInteger` accepts ASCII digits only.
- Threads, `runOnUiThread` and the per-packet send threads of `onSensorChanged` are not modelled. Each method runs to completion. The sender loop is the one place where other threads interleave: a `Tick` gives its view of `isRunning`, whether the sleep was interrupted, and the sensor and touch callbacks that ran during the sleep. Callbacks are taken to run between turns, never in the middle of building a packet.
- The receive loops of the two listener classes are not modelled. This covers sockets, buffer sizes and packet truncation. A thread that ends is the event `DiscoveryListenerExited`/`VibrationListenerExited`.
- Host resolution, socket creation and the send itself are inputs or are left out.
- `getIpAddress` treats the reflective hotspot check as a boolean input. An exception from that check counts as "not a hotspot".
- A `null` from `getConnectionInfo` is not modelled.
- A `ButtonActivity` whose sensors are absent still counts as registered. The per-sensor `null` checks of `onCreate` and `registerSensors` are not modelled.
- `testVibration` and the actual vibrator calls are not modelled. A command's decision is the model's output.
- `MainScreen.MainActivity.OnSensorChanged`: the `event == null` guard is not modelled, because a model event is never null. The same holds for `ButtonScreen.ButtonActivity.OnSensorChanged`.
- `MainScreen.MainActivity.StartTracking` requires `!isTracking`. Its only caller, the start/stop button, calls it only then.
- `ButtonScreen.ButtonActivity.RunSender` sends through the corrected send. With a target port outside 0..65535 the loop as written dies at its first send and takes the app with it (see Findings); the model's loop goes on, sending nothing. `MainScreen.MainActivity.OnSensorChanged` does the same for each rotation event.
- `ButtonScreen.ButtonActivity.OnDestroy` runs the null-checked `Cleanup`, not the crashing `cleanup` as written; the crash is modelled separately by `ButtonScreen.ButtonActivity.CleanupAsWritten` (see Findings). `OnPause` does the same.
- `ButtonScreen.ButtonActivity.Cleanup` states that a repeat changes nothing through its full description of the new state. There is no separate idempotence clause.
- `tools/pc_discovery_responder.py` and `tools/test_broadcast.py` are not part of this model. They are test scripts, and their messages do not use the `NITHreceiver|` format.

## Findings

| source | as written | input that shows it | evidently intended | confidence | as-written member | corrected member |
|---|---|---|---|---|---|---|
| app/src/main/java/com/example/nithphonewrapper/ButtonActivity.java:301-305 | `onCreate` calls `finish()` before `sensorManager` is assigned. `onDestroy` then runs `cleanup`, which calls `sensorManager.unregisterListener` without a null check and throws. | An intent with no `TARGET_IP` extra, or an empty one. `MainActivity` never sends such an intent, so it takes another launcher. | `cleanup` skips the unregistration when `sensorManager` is `null` and shuts down normally. | low, not executed | ButtonScreen.EmptyTargetCrashes | ButtonScreen.ButtonActivity.Cleanup |
| app/src/main/java/com/example/nithphonewrapper/ButtonActivity.java:254-262 | `sendUdpPacket` builds `new DatagramPacket(buffer, len, address, targetPort)` inside a `try` that catches only `IOException`. For a port outside 0..65535 the constructor throws `IllegalArgumentException`, which ends the sender thread and the app. `onSensorChanged` of `MainActivity` does the same at MainActivity.java:451-461. | The port field set to `70000`: `parseInt` accepts it, `startTracking` starts, `openButtonController` passes it on, and the first send throws (`MainScreen.OutOfRangePortCrashes`). A discovery response with `expected_port=70000` stores the same port. | A send to a port no datagram can carry fails like any other send error: logged, with the loop going on. | medium, not executed | Telemetry.SendAsWritten | Telemetry.CheckedSend |
