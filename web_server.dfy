// HTTP handler rules (src/web_server.cpp): the MJPEG stream loop with its
// signal-dependent pacing, error cut-off and multipart framing, the
// /control dispatch onto the camera settings, the /wifi-connect validation
// and append, and the /capture guard.
//
// What the camera, the socket and the WiFi stack return is an input of each
// handler; the sends a handler makes are its output. Response bodies are
// named by their meaning rather than spelled out.

module WebServer {
  import opened Common
  import opened Json
  import Config
  import CameraPolicy
  import Diagnostics

  // ---------------------------------------------------------------------
  // Stream framing (multipart/x-mixed-replace, section 5.1.1 of RFC 2046)
  // ---------------------------------------------------------------------

  const PART_BOUNDARY: string := "123456789000000000000987654321"
  const STREAM_CONTENT_TYPE: string := "multipart/x-mixed-replace;boundary=" + PART_BOUNDARY
  const CRLF: string := "\r\n"
  /** The delimiter sent before each part: CRLF, two hyphens, the boundary, CRLF. */
  const STREAM_BOUNDARY: string := CRLF + "--" + PART_BOUNDARY + CRLF
  /** Size of the buffer the part header is formatted into. */
  const PART_BUF_SIZE: nat := 64

  /** The part header for a JPEG of `len` bytes. */
  function PartHeader(len: u32): string
  {
    "Content-Type: image/jpeg" + CRLF + "Content-Length: " + NatToString(len) + CRLF + CRLF
  }

  /** A boundary character that RFC 2046 allows anywhere in a boundary. */
  predicate BoundaryChar(c: char)
  {
    IsDigit(c) || 'a' <= c <= 'z' || 'A' <= c <= 'Z' || c in "'()+_,-./:=?"
  }

  /**
   * The boundary is 1 to 70 allowed characters, the content type announces
   * it, and the delimiter is CRLF "--" boundary.
   */
  lemma BoundaryWellFormed()
    ensures 1 <= |PART_BOUNDARY| <= 70
    ensures forall i :: 0 <= i < |PART_BOUNDARY| ==> BoundaryChar(PART_BOUNDARY[i])
    ensures STREAM_CONTENT_TYPE[|STREAM_CONTENT_TYPE| - |PART_BOUNDARY|..] == PART_BOUNDARY
    ensures STREAM_BOUNDARY[..4] == CRLF + "--" && STREAM_BOUNDARY[4..4 + |PART_BOUNDARY|] == PART_BOUNDARY
  {
  }

  /** Every 32-bit length gives a header that fits the 64-byte buffer with its terminator, so it is never cut short. */
  lemma PartHeaderFits(len: u32)
    ensures |PartHeader(len)| < PART_BUF_SIZE
  {
    assert Pow10(10) == 10_000_000_000;
    NatToStringLength(len, 10);
  }

  // ---------------------------------------------------------------------
  // Stream pacing
  // ---------------------------------------------------------------------

  /** The target time per frame for the signal strength when the stream starts. */
  function StreamDelay(rssi: int): (ms: nat)
    ensures ms in {10, 20, 30, 50}
    ensures rssi > -60 <==> ms == 10
    ensures rssi <= -80 <==> ms == 50
  {
    if rssi > -60 then 10
    else if rssi > -70 then 20
    else if rssi > -80 then 30
    else 50
  }

  /** A weaker signal never gets a shorter target. */
  lemma StreamDelayMonotone(a: int, b: int)
    requires a <= b
    ensures StreamDelay(b) <= StreamDelay(a)
  {
  }

  // ---------------------------------------------------------------------
  // The stream loop
  // ---------------------------------------------------------------------

  /** Consecutive capture failures after which the stream gives up. */
  const MAX_CONSECUTIVE_ERRORS: nat := 5
  /** Pause after a failed capture. */
  const RETRY_DELAY_MS: nat := 100

  /**
   * What one fetch of the loop gets: no frame, or frame `fb` of `len` bytes
   * with the results of the sends made for it and the time the iteration
   * took up to the pacing decision.
   */
  datatype Grab =
    | NoFrame
    | Frame(fb: nat, len: u32, sendResults: seq<EspErr>, frameTime: u32)

  /** The result of the k-th send for a frame (sends beyond the results given succeed). */
  function SendResult(g: Grab, k: nat): EspErr
    requires g.Frame?
  {
    if k < |g.sendResults| then g.sendResults[k] else ESP_OK
  }

  datatype Part = Boundary | Header(len: u32) | Data(fb: nat, len: u32)

  /** An effect of the stream handler, in order. */
  datatype StreamOp = Send(part: Part) | ReturnFrame(fb: nat) | Pause(ms: nat)

  datatype StreamEnd = Streaming | Ended(res: EspErr)

  /** The outcome of the loop: how it ended, what it did, and how many fetches it used. */
  datatype StreamResult = StreamResult(end: StreamEnd, ops: seq<StreamOp>, used: nat)

  /** The sends for one frame, stopping after the first that fails, and the last result. */
  function FrameSends(g: Grab): (r: (EspErr, seq<StreamOp>))
    requires g.Frame?
  {
    var r0 := SendResult(g, 0);
    if r0 != ESP_OK then (r0, [Send(Boundary)])
    else
      var r1 := SendResult(g, 1);
      if r1 != ESP_OK then (r1, [Send(Boundary), Send(Header(g.len))])
      else (SendResult(g, 2), [Send(Boundary), Send(Header(g.len)), Send(Data(g.fb, g.len))])
  }

  function Prefixed(ops: seq<StreamOp>, r: StreamResult, n: nat): StreamResult
  {
    StreamResult(r.end, ops + r.ops, r.used + n)
  }

  /**
   * The loop of handleStream from fetch `grabs[0]` on, with `errors`
   * consecutive failures so far and pacing target `target`.
   */
  function StreamFrom(grabs: seq<Grab>, errors: nat, target: nat): (r: StreamResult)
    ensures r.used <= |grabs|
    decreases |grabs|
  {
    if |grabs| == 0 then StreamResult(Streaming, [], 0)
    else match grabs[0]
      case NoFrame =>
        if errors + 1 >= MAX_CONSECUTIVE_ERRORS then StreamResult(Ended(ESP_FAIL), [], 1)
        else Prefixed([Pause(RETRY_DELAY_MS)], StreamFrom(grabs[1..], errors + 1, target), 1)
      case Frame(fb, len, _, frameTime) =>
        var (res, sends) := FrameSends(grabs[0]);
        if res != ESP_OK then StreamResult(Ended(res), sends + [ReturnFrame(fb)], 1)
        else
          var pace := if frameTime < target then [Pause(target - frameTime)] else [];
          Prefixed(sends + [ReturnFrame(fb)] + pace, StreamFrom(grabs[1..], 0, target), 1)
  }

  lemma PrefixedTwice(a: seq<StreamOp>, b: seq<StreamOp>, r: StreamResult, n: nat, m: nat)
    ensures Prefixed(a, Prefixed(b, r, m), n) == Prefixed(a + b, r, n + m)
  {
    assert a + (b + r.ops) == (a + b) + r.ops;
  }

  lemma StreamFromSuffix(grabs: seq<Grab>, i: nat)
    requires i < |grabs|
    ensures grabs[i..][0] == grabs[i] && grabs[i..][1..] == grabs[i + 1..]
  {
  }

  /** A failed capture below the cut-off: pause, then go on with one more failure counted. */
  lemma StepRetry(grabs: seq<Grab>, i: nat, errors: nat, target: nat)
    requires i < |grabs| && grabs[i].NoFrame? && errors + 1 < MAX_CONSECUTIVE_ERRORS
    ensures StreamFrom(grabs[i..], errors, target) ==
      Prefixed([Pause(RETRY_DELAY_MS)], StreamFrom(grabs[i + 1..], errors + 1, target), 1)
  {
    StreamFromSuffix(grabs, i);
  }

  /** The failed capture that reaches the cut-off ends the stream. */
  lemma StepGiveUp(grabs: seq<Grab>, i: nat, errors: nat, target: nat)
    requires i < |grabs| && grabs[i].NoFrame? && errors + 1 >= MAX_CONSECUTIVE_ERRORS
    ensures StreamFrom(grabs[i..], errors, target) == StreamResult(Ended(ESP_FAIL), [], 1)
  {
    StreamFromSuffix(grabs, i);
  }

  /** A frame: its sends and its return, then either the end or the pause and the rest. */
  lemma StepFrame(grabs: seq<Grab>, i: nat, errors: nat, target: nat)
    requires i < |grabs| && grabs[i].Frame?
    ensures var g := grabs[i];
      var head := FrameSends(g).1 + [ReturnFrame(g.fb)];
      var pace := if g.frameTime < target then [Pause(target - g.frameTime)] else [];
      StreamFrom(grabs[i..], errors, target) ==
        if FrameSends(g).0 != ESP_OK then StreamResult(Ended(FrameSends(g).0), head, 1)
        else Prefixed(head + pace, StreamFrom(grabs[i + 1..], 0, target), 1)
  {
    StreamFromSuffix(grabs, i);
  }

  /** Five failed captures in a row end the stream with ESP_FAIL. */
  lemma {:induction false} FailuresEndStream(grabs: seq<Grab>, errors: nat, target: nat)
    requires errors < MAX_CONSECUTIVE_ERRORS && MAX_CONSECUTIVE_ERRORS - errors <= |grabs|
    requires forall k :: 0 <= k < MAX_CONSECUTIVE_ERRORS - errors ==> grabs[k].NoFrame?
    ensures StreamFrom(grabs, errors, target).end == Ended(ESP_FAIL)
    decreases MAX_CONSECUTIVE_ERRORS - errors
  {
    if errors + 1 < MAX_CONSECUTIVE_ERRORS {
      assert forall k :: 0 <= k < MAX_CONSECUTIVE_ERRORS - errors - 1 ==> grabs[1..][k] == grabs[k + 1];
      FailuresEndStream(grabs[1..], errors + 1, target);
    }
  }

  /** A frame fetched clears the failure count: what follows does not depend on earlier failures. */
  lemma SuccessResetsErrors(grabs: seq<Grab>, e1: nat, e2: nat, target: nat)
    requires |grabs| > 0 && grabs[0].Frame?
    requires e1 < MAX_CONSECUTIVE_ERRORS && e2 < MAX_CONSECUTIVE_ERRORS
    ensures StreamFrom(grabs, e1, target) == StreamFrom(grabs, e2, target)
  {
  }

  /** Handles returned to the camera, in order. */
  function Returned(ops: seq<StreamOp>): seq<nat>
  {
    if |ops| == 0 then []
    else (if ops[0].ReturnFrame? then [ops[0].fb] else []) + Returned(ops[1..])
  }

  /** Handles of the frames fetched, in order. */
  function Fetched(grabs: seq<Grab>): seq<nat>
  {
    if |grabs| == 0 then []
    else (if grabs[0].Frame? then [grabs[0].fb] else []) + Fetched(grabs[1..])
  }

  lemma {:induction false} ReturnedAppend(a: seq<StreamOp>, b: seq<StreamOp>)
    ensures Returned(a + b) == Returned(a) + Returned(b)
    decreases |a|
  {
    if |a| > 0 {
      var head := if a[0].ReturnFrame? then [a[0].fb] else [];
      assert (a + b)[0] == a[0];
      assert (a + b)[1..] == a[1..] + b;
      ReturnedAppend(a[1..], b);
      calc {
        Returned(a + b);
        head + Returned(a[1..] + b);
        head + (Returned(a[1..]) + Returned(b));
        (head + Returned(a[1..])) + Returned(b);
      }
    } else {
      assert a + b == b;
    }
  }

  /**
   * Every frame the loop fetches is returned exactly once, in the order
   * fetched, including the frame whose send failed; nothing else is returned.
   */
  lemma {:induction false} FramesReturnedOnce(grabs: seq<Grab>, errors: nat, target: nat)
    ensures var r := StreamFrom(grabs, errors, target);
      Returned(r.ops) == Fetched(grabs[..r.used]) && (r.end == Streaming ==> r.used == |grabs|)
    decreases |grabs|
  {
    var r := StreamFrom(grabs, errors, target);
    if |grabs| > 0 {
      var g := grabs[0];
      var rest := StreamFrom(grabs[1..], if g.NoFrame? then errors + 1 else 0, target);
      FramesReturnedOnce(grabs[1..], if g.NoFrame? then errors + 1 else 0, target);
      FetchedStep(grabs, r.used);
      if g.NoFrame? {
        if errors + 1 < MAX_CONSECUTIVE_ERRORS {
          ReturnedAppend([Pause(RETRY_DELAY_MS)], rest.ops);
        }
      } else {
        var pace := if g.frameTime < target then [Pause(target - g.frameTime)] else [];
        FrameReturnedOnce(g, pace);
        if FrameSends(g).0 == ESP_OK {
          ReturnedAppend(FrameSends(g).1 + [ReturnFrame(g.fb)] + pace, rest.ops);
        }
      }
    } else {
      assert grabs[..r.used] == [];
    }
  }

  lemma FetchedStep(grabs: seq<Grab>, n: nat)
    requires 0 < n <= |grabs|
    ensures Fetched(grabs[..n]) == (if grabs[0].Frame? then [grabs[0].fb] else []) + Fetched(grabs[1..][..n - 1])
  {
    assert grabs[..n][0] == grabs[0];
    assert grabs[..n][1..] == grabs[1..][..n - 1];
  }

  /** The ops for one sent frame return exactly that frame. */
  lemma FrameReturnedOnce(g: Grab, pace: seq<StreamOp>)
    requires g.Frame? && forall k :: 0 <= k < |pace| ==> pace[k].Pause?
    ensures Returned(FrameSends(g).1 + [ReturnFrame(g.fb)]) == [g.fb]
    ensures Returned(FrameSends(g).1 + [ReturnFrame(g.fb)] + pace) == [g.fb]
  {
    var sends := FrameSends(g).1;
    assert Returned([Send(Data(g.fb, g.len))]) == [];
    assert Returned([Send(Header(g.len)), Send(Data(g.fb, g.len))]) == [];
    assert Returned(sends) == [];
    ReturnedAppend(sends, [ReturnFrame(g.fb)]);
    ReturnedAppend(sends + [ReturnFrame(g.fb)], pace);
    if |pace| > 0 {
      assert pace == [pace[0]] + pace[1..];
      ReturnedAppend([pace[0]], pace[1..]);
      NoReturns(pace[1..]);
    }
  }

  lemma {:induction false} NoReturns(ops: seq<StreamOp>)
    requires forall k :: 0 <= k < |ops| ==> ops[k].Pause?
    ensures Returned(ops) == []
    decreases |ops|
  {
    if |ops| > 0 {
      NoReturns(ops[1..]);
    }
  }

  /** Each JPEG send is directly preceded by its own header, and that by the boundary. */
  predicate PartsInOrder(ops: seq<StreamOp>)
  {
    forall k :: 0 <= k < |ops| && ops[k].Send? && ops[k].part.Data? ==>
      k >= 2 && ops[k - 1] == Send(Header(ops[k].part.len)) && ops[k - 2] == Send(Boundary)
  }

  lemma PartsInOrderAppend(a: seq<StreamOp>, b: seq<StreamOp>)
    requires PartsInOrder(a) && PartsInOrder(b)
    ensures PartsInOrder(a + b)
  {
    var c := a + b;
    forall k | 0 <= k < |c| && c[k].Send? && c[k].part.Data?
      ensures k >= 2 && c[k - 1] == Send(Header(c[k].part.len)) && c[k - 2] == Send(Boundary)
    {
      if k >= |a| {
        assert b[k - |a|] == c[k];
      }
    }
  }

  /** One frame's sends and its return keep the three parts in order. */
  lemma FramePartsInOrder(g: Grab)
    requires g.Frame?
    ensures PartsInOrder(FrameSends(g).1 + [ReturnFrame(g.fb)])
  {
  }

  /** In the whole stream, every part is boundary, header, data, in that order. */
  lemma {:induction false} StreamPartsInOrder(grabs: seq<Grab>, errors: nat, target: nat)
    ensures PartsInOrder(StreamFrom(grabs, errors, target).ops)
    decreases |grabs|
  {
    if |grabs| > 0 {
      var g := grabs[0];
      var rest := StreamFrom(grabs[1..], if g.NoFrame? then errors + 1 else 0, target);
      StreamPartsInOrder(grabs[1..], if g.NoFrame? then errors + 1 else 0, target);
      if g.NoFrame? {
        if errors + 1 < MAX_CONSECUTIVE_ERRORS {
          PartsInOrderAppend([Pause(RETRY_DELAY_MS)], rest.ops);
        }
      } else {
        var (res, sends) := FrameSends(g);
        var pace := if g.frameTime < target then [Pause(target - g.frameTime)] else [];
        var head := sends + [ReturnFrame(g.fb)];
        FramePartsInOrder(g);
        if res == ESP_OK {
          assert StreamFrom(grabs, errors, target).ops == head + pace + rest.ops;
          PartsInOrderAppend(head, pace);
          PartsInOrderAppend(head + pace, rest.ops);
        }
      }
    }
  }

  /** The three sends for one frame, each made only while the previous ones succeeded. */
  method SendFrame(g: Grab) returns (res: EspErr, sends: seq<StreamOp>)
    requires g.Frame?
    ensures res == FrameSends(g).0 && sends == FrameSends(g).1
  {
    res := ESP_OK;
    sends := [];
    if res == ESP_OK {
      res := SendResult(g, 0);
      sends := [Send(Boundary)];
    }
    if res == ESP_OK {
      res := SendResult(g, 1);
      sends := sends + [Send(Header(g.len))];
    }
    if res == ESP_OK {
      res := SendResult(g, 2);
      sends := sends + [Send(Data(g.fb, g.len))];
    }
  }

  /**
   * One pass of handleStream's loop on fetch `grabs[i]`: either the stream
   * ends here, or it goes on with the failure count `errors'`.
   */
  method StreamIteration(grabs: seq<Grab>, i: nat, errors: nat, target: nat)
      returns (stop: bool, end: StreamEnd, more: seq<StreamOp>, errors': nat)
    requires i < |grabs| && errors < MAX_CONSECUTIVE_ERRORS
    ensures stop ==> StreamFrom(grabs[i..], errors, target) == StreamResult(end, more, 1)
    ensures !stop ==> (errors' < MAX_CONSECUTIVE_ERRORS &&
      StreamFrom(grabs[i..], errors, target) == Prefixed(more, StreamFrom(grabs[i + 1..], errors', target), 1))
  {
    var g := grabs[i];
    if g.NoFrame? {
      errors' := errors + 1;
      if errors' >= MAX_CONSECUTIVE_ERRORS {
        StepGiveUp(grabs, i, errors, target);
        return true, Ended(ESP_FAIL), [], errors';
      }
      StepRetry(grabs, i, errors, target);
      return false, Streaming, [Pause(RETRY_DELAY_MS)], errors';
    }
    StepFrame(grabs, i, errors, target);
    errors' := 0;
    var res, sends := SendFrame(g);
    more := sends + [ReturnFrame(g.fb)];
    if res != ESP_OK {
      return true, Ended(res), more, errors';
    }
    if g.frameTime < target {
      more := more + [Pause(target - g.frameTime)];
    }
    stop, end := false, Streaming;
  }

  /**
   * handleStream. A camera that is not initialised, or sleeping, gets
   * "Camera not ready" and ESP_FAIL with no capture; otherwise the loop runs
   * over the fetches given, with the pacing target chosen from `rssi`.
   */
  method HandleStream(cameraReady: bool, rssi: int, grabs: seq<Grab>) returns (end: StreamEnd, ops: seq<StreamOp>)
    ensures !cameraReady ==> end == Ended(ESP_FAIL) && ops == []
    ensures cameraReady ==>
      end == StreamFrom(grabs, 0, StreamDelay(rssi)).end && ops == StreamFrom(grabs, 0, StreamDelay(rssi)).ops
  {
    if !cameraReady {
      return Ended(ESP_FAIL), [];
    }
    var target := StreamDelay(rssi);
    var errors: nat := 0;
    ops := [];
    var i := 0;
    while i < |grabs|
      invariant 0 <= i <= |grabs| && errors < MAX_CONSECUTIVE_ERRORS
      invariant StreamFrom(grabs, 0, target) == Prefixed(ops, StreamFrom(grabs[i..], errors, target), i)
    {
      var stop, more;
      stop, end, more, errors := StreamIteration(grabs, i, errors, target);
      if stop {
        return end, ops + more;
      }
      PrefixedTwice(ops, more, StreamFrom(grabs[i + 1..], errors, target), i, 1);
      ops := ops + more;
      i := i + 1;
    }
    assert grabs[i..] == [];
    return Streaming, ops;
  }

  // ---------------------------------------------------------------------
  // /control
  // ---------------------------------------------------------------------

  /** What `httpd_query_key_value` yields into a 32-byte buffer: values longer than 31 characters are refused. */
  function QueryValue(p: Option<string>): Option<string>
  {
    if p.Some? && |p.value| <= 31 then p else None
  }

  predicate IsSpace(c: char)
  {
    c == ' ' || c == '\t' || c == '\n' || c == '\U{B}' || c == '\U{C}' || c == '\r'
  }

  function SkipSpace(s: string): (t: string)
    ensures |t| <= |s| && t == s[|s| - |t|..]
  {
    if |s| > 0 && IsSpace(s[0]) then SkipSpace(s[1..]) else s
  }

  /** The longest run of digits at the start of `s`. */
  function LeadingDigits(s: string): (d: string)
    ensures |d| <= |s| && d == s[..|d|]
    ensures forall i :: 0 <= i < |d| ==> IsDigit(d[i])
  {
    if |s| > 0 && IsDigit(s[0]) then [s[0]] + LeadingDigits(s[1..]) else []
  }

  function Clamp(x: int): (r: int)
    ensures INT_MIN <= r <= INT_MAX
    ensures INT_MIN <= x <= INT_MAX ==> r == x
  {
    if x < INT_MIN then INT_MIN else if x > INT_MAX then INT_MAX else x
  }

  /**
   * `atoi` as `(int)strtol(s, NULL, 10)` with a 32-bit `long`: leading white
   * space, an optional sign, then digits; out-of-range values saturate.
   */
  function Atoi(s: string): (v: int)
    ensures INT_MIN <= v <= INT_MAX
  {
    var t := SkipSpace(s);
    var signed := |t| > 0 && (t[0] == '-' || t[0] == '+');
    var m: int := DigitsValue(LeadingDigits(if signed then t[1..] else t));
    Clamp(if signed && t[0] == '-' then -m else m)
  }

  lemma {:induction false} LeadingDigitsAll(s: string)
    requires forall i :: 0 <= i < |s| ==> IsDigit(s[i])
    ensures LeadingDigits(s) == s
  {
    if |s| > 0 {
      LeadingDigitsAll(s[1..]);
    }
  }

  /** `atoi` reads back every `int` printed in decimal. */
  lemma AtoiRoundTrip(n: int)
    requires INT_MIN <= n <= INT_MAX
    ensures Atoi(IntToString(n)) == n
  {
    var m := if n < 0 then -n else n;
    var digits := NatToString(m);
    LeadingDigitsAll(digits);
    NatToStringRoundTrip(m);
    assert !IsSpace(IntToString(n)[0]);
    if n < 0 {
      assert IntToString(n)[1..] == digits;
    } else {
      assert IntToString(n) == digits;
      assert IsDigit(digits[0]);
    }
  }

  /** The settings /control can change. */
  const SENSOR_CONTROLS: set<string> :=
    {"framesize", "quality", "brightness", "contrast", "saturation", "hmirror", "vflip"}
  const CONTROL_KEYS: set<string> := SENSOR_CONTROLS + {"led_intensity"}

  lemma ControlKeysAreCameraKeys()
    ensures CONTROL_KEYS <= Config.CAMERA_KEYS
  {
  }

  /** The call a /control request makes. */
  datatype ControlCall = SensorSet(name: string, value: int) | SetLed(value: int)

  datatype ControlReply = ControlSuccess | ControlFailed | MissingParameters | CameraNotAvailable

  /**
   * handleControl. `varParam` and `valParam` are the query parameters as
   * found, `setterResult` what the sensor setter returns. Without both
   * parameters: "Missing parameters"; without a sensor: "Camera not
   * available"; both with ESP_FAIL and no change. Otherwise the setting
   * named by `var` (if it is one of the eight) is set to `atoi(val)` whatever
   * the setter returns, and the reply reflects the setter's result.
   */
  method HandleControl(store: Config.Store, varParam: Option<string>, valParam: Option<string>,
                       sensorPresent: bool, setterResult: EspErr)
      returns (res: EspErr, reply: ControlReply, call: Option<ControlCall>)
    modifies store`camera
    ensures var v, w := QueryValue(varParam), QueryValue(valParam);
      && (v.None? || w.None? ==>
            res == ESP_FAIL && reply == MissingParameters && call.None? && store.camera == old(store.camera))
      && (v.Some? && w.Some? && !sensorPresent ==>
            res == ESP_FAIL && reply == CameraNotAvailable && call.None? && store.camera == old(store.camera))
      && (v.Some? && w.Some? && sensorPresent ==>
            var value := Atoi(w.value);
            var ok := v.value !in SENSOR_CONTROLS || setterResult == 0;
            && store.camera == (if v.value in CONTROL_KEYS then old(store.camera)[v.value := value] else old(store.camera))
            && call == (if v.value in SENSOR_CONTROLS then Some(SensorSet(v.value, value))
                        else if v.value == "led_intensity" then Some(SetLed(value)) else None)
            && (res == ESP_OK <==> ok) && (!ok ==> res == ESP_FAIL)
            && reply == (if ok then ControlSuccess else ControlFailed))
  {
    var v, w := QueryValue(varParam), QueryValue(valParam);
    if v.None? || w.None? {
      return ESP_FAIL, MissingParameters, None;
    }
    if !sensorPresent {
      return ESP_FAIL, CameraNotAvailable, None;
    }
    var result := 0;
    var name := v.value;
    var value := Atoi(w.value);
    call := None;
    if name in SENSOR_CONTROLS {
      result := setterResult;
      call := Some(SensorSet(name, value));
      store.camera := store.camera[name := value];
    } else if name == "led_intensity" {
      call := Some(SetLed(value));
      store.camera := store.camera[name := value];
    }
    reply := if result == 0 then ControlSuccess else ControlFailed;
    res := if result == 0 then ESP_OK else ESP_FAIL;
  }

  /**
   * /control stores whatever quality `atoi` yields, unchecked; once saved,
   * the document passes validation on the next load exactly when that value
   * is in 0..63.
   */
  lemma ControlQualityValidation(nets: seq<Config.Network>, camera: map<string, int>, sys: Config.SystemSettings, val: string)
    requires Config.CameraWellFormed(camera)
    ensures var stored := camera["quality" := Atoi(val)];
      && Config.CameraWellFormed(stored)
      && (Config.Validate(Config.SaveDocument(nets, stored, sys)) <==> Config.QUALITY_MIN <= Atoi(val) <= Config.QUALITY_MAX)
  {
    var v := Atoi(val);
    assert "quality" in Config.CAMERA_KEYS;
    SetKeepsWellFormed(camera, "quality", v);
    Config.SavedDocumentValid(nets, camera["quality" := v], sys);
  }

  /** Setting a camera key to an `int` keeps the section well formed. */
  lemma SetKeepsWellFormed(camera: map<string, int>, k: string, v: int)
    requires Config.CameraWellFormed(camera) && k in camera && INT_MIN <= v <= INT_MAX
    ensures Config.CameraWellFormed(camera[k := v])
  {
    assert camera[k := v].Keys == camera.Keys;
  }

  /**
   * For instance "quality=64" is stored as 64, and the saved document then
   * fails validation on the next load.
   */
  lemma AtoiOutOfRangeQuality(nets: seq<Config.Network>, camera: map<string, int>, sys: Config.SystemSettings)
    requires Config.CameraWellFormed(camera)
    ensures Atoi("64") == 64
    ensures !Config.Validate(Config.SaveDocument(nets, camera["quality" := Atoi("64")], sys))
  {
    AtoiSixtyFour();
    ControlQualityValidation(nets, camera, sys, "64");
  }

  lemma AtoiSixtyFour()
    ensures Atoi("64") == 64
  {
    var s := "64";
    assert s[0] == '6' && !IsSpace(s[0]);
    assert SkipSpace(s) == s;
    assert s[1..] == "4" && "4"[1..] == [];
    assert LeadingDigits("4") == "4";
    assert LeadingDigits(s) == s;
    assert s[..1] == "6" && "6"[..0] == [];
    assert DigitsValue("6") == 6;
    assert DigitsValue(s) == 64;
  }

  // ---------------------------------------------------------------------
  // /wifi-connect
  // ---------------------------------------------------------------------

  /** Size of the request body buffer. */
  const CONTENT_BUFFER: nat := 512
  const HTTPD_SOCK_ERR_TIMEOUT: int := -3

  /** The receive size handleWiFiConnect uses, as written: the whole buffer. */
  function RecvSizeAsWritten(contentLen: nat): nat
  {
    if contentLen < CONTENT_BUFFER then contentLen else CONTENT_BUFFER
  }

  /**
   * As written, every body of 512 bytes or more is received into all 512
   * bytes of the buffer, so the terminating NUL lands at index 512, one
   * past its end; shorter bodies leave room for it.
   */
  lemma TerminatorOverrunsAsWritten(contentLen: nat)
    ensures contentLen >= CONTENT_BUFFER ==> RecvSizeAsWritten(contentLen) == CONTENT_BUFFER
    ensures RecvSizeAsWritten(contentLen) < CONTENT_BUFFER <==> contentLen < CONTENT_BUFFER
  {
  }

  /** The receive size that leaves room for the terminator. */
  function RecvSize(contentLen: nat): (n: nat)
    ensures n < CONTENT_BUFFER && n <= contentLen
    ensures contentLen < CONTENT_BUFFER ==> n == contentLen
  {
    if contentLen < CONTENT_BUFFER then contentLen else CONTENT_BUFFER - 1
  }

  datatype WifiReply =
    | NoReply
    | RequestTimeout
    | InvalidJson
    | CredentialsRequired
    | InvalidIpFormat
    | Connected
    | ConnectFailed

  /** The connection attempt made. */
  datatype Attempt = NoAttempt | Dhcp(ssid: string, password: string) | StaticIp(ssid: string, password: string, ip: seq<byte>, gateway: seq<byte>)

  /** An address as `IPAddress` holds it after `fromString`: 0.0.0.0 when parsing failed. */
  function AddressOrZero(parsed: Option<seq<byte>>): (a: seq<byte>)
    requires parsed.Some? ==> |parsed.value| == 4
    ensures |a| == 4
  {
    if parsed.Some? then parsed.value else [0, 0, 0, 0]
  }

  /** The network the handler records for credentials it connected with. */
  function NewNetwork(ssid: string, password: string, priority: int, useStatic: bool,
                      ip: Option<seq<byte>>, gw: Option<seq<byte>>, prev: Config.Network): (n: Config.Network)
    requires ip.Some? ==> |ip.value| == 4
    requires gw.Some? ==> |gw.value| == 4
    ensures |n.ssid| <= Config.SSID_MAX && |n.password| <= Config.PASSWORD_MAX
    ensures n.priority == priority && n.useStaticIp == useStatic
  {
    Config.Network(
      Config.Truncate(ssid, Config.SSID_MAX),
      Config.Truncate(password, Config.PASSWORD_MAX),
      priority,
      useStatic,
      if useStatic then AddressOrZero(ip) else prev.staticIp,
      if useStatic then AddressOrZero(gw) else prev.gateway)
  }

  /**
   * handleWiFiConnect. `received` is what httpd_req_recv returns for at most
   * RecvSize(contentLen) bytes, `body` the parse of what was received
   * (None when it is not JSON), `ipParsed`/`gwParsed` the results of parsing
   * "static_ip" and "gateway" as addresses, and `connected` whether the
   * connection attempt succeeds.
   */
  method HandleWiFiConnect(store: Config.Store, contentLen: nat, received: int, body: Option<Json>,
                           ipParsed: Option<seq<byte>>, gwParsed: Option<seq<byte>>, connected: bool)
      returns (res: EspErr, reply: WifiReply, attempt: Attempt, saved: bool)
    requires store.Valid()
    requires received <= RecvSize(contentLen)
    requires ipParsed.Some? ==> |ipParsed.value| == 4
    requires gwParsed.Some? ==> |gwParsed.value| == 4
    requires body.Some? && !Has(body.value, "static_ip") ==> ipParsed.None?
    requires body.Some? && !Has(body.value, "gateway") ==> gwParsed.None?
    modifies store`networkCount, store.networks
    ensures store.Valid()
    ensures res == ESP_OK <==> reply == Connected
    ensures reply != Connected ==>
      !saved && store.networkCount == old(store.networkCount) && store.networks[..] == old(store.networks[..])
    ensures received <= 0 ==> reply == (if received == HTTPD_SOCK_ERR_TIMEOUT then RequestTimeout else NoReply)
    ensures received > 0 && body.None? ==> reply == InvalidJson
    ensures attempt == NoAttempt <==> reply !in {Connected, ConnectFailed}
    ensures received > 0 && body.Some? ==>
      var doc := body.value;
      var ssid, password := StrOrNull(Get(doc, "ssid")), StrOrNull(Get(doc, "password"));
      var useStatic := BoolOr(Get(doc, "use_static_ip"), false);
      && (ssid.None? || password.None? || |ssid.value| == 0 || |password.value| == 0 ==> reply == CredentialsRequired)
      && (ssid.Some? && password.Some? && |ssid.value| > 0 && |password.value| > 0 ==>
            && (useStatic && Has(doc, "static_ip") && (ipParsed.None? || gwParsed.None?) ==> reply == InvalidIpFormat)
            && (useStatic && Has(doc, "static_ip") && ipParsed.Some? && gwParsed.Some? ==>
                  attempt == StaticIp(ssid.value, password.value, ipParsed.value, gwParsed.value))
            && (!(useStatic && Has(doc, "static_ip")) ==> attempt == Dhcp(ssid.value, password.value))
            && (attempt != NoAttempt ==> (reply == Connected <==> connected))
            && (reply == Connected ==>
                  var n := old(store.networkCount);
                  && saved == (n < Config.MAX_WIFI_NETWORKS)
                  && (saved ==> (store.networkCount == n + 1 &&
                        store.networks[..] == old(store.networks[..])[n := NewNetwork(ssid.value, password.value, n,
                          useStatic, ipParsed, gwParsed, old(store.networks[n]))]))
                  && (!saved ==> store.networkCount == n && store.networks[..] == old(store.networks[..]))))
  {
    attempt := NoAttempt;
    saved := false;
    if received <= 0 {
      reply := if received == HTTPD_SOCK_ERR_TIMEOUT then RequestTimeout else NoReply;
      return ESP_FAIL, reply, attempt, saved;
    }
    if body.None? {
      return ESP_FAIL, InvalidJson, attempt, saved;
    }
    var doc := body.value;
    var ssid, password := StrOrNull(Get(doc, "ssid")), StrOrNull(Get(doc, "password"));
    if ssid.None? || password.None? || |ssid.value| == 0 || |password.value| == 0 {
      return ESP_FAIL, CredentialsRequired, attempt, saved;
    }
    var useStatic := BoolOr(Get(doc, "use_static_ip"), false);
    if useStatic && Has(doc, "static_ip") {
      if ipParsed.None? || gwParsed.None? {
        return ESP_FAIL, InvalidIpFormat, attempt, saved;
      }
      attempt := StaticIp(ssid.value, password.value, ipParsed.value, gwParsed.value);
    } else {
      attempt := Dhcp(ssid.value, password.value);
    }
    if !connected {
      return ESP_FAIL, ConnectFailed, attempt, saved;
    }
    var n := store.networkCount;
    if n < Config.MAX_WIFI_NETWORKS {
      store.networks[n] := NewNetwork(ssid.value, password.value, n, useStatic, ipParsed, gwParsed, store.networks[n]);
      store.networkCount := n + 1;
      saved := true;
    }
    return ESP_OK, Connected, attempt, saved;
  }

  // ---------------------------------------------------------------------
  // /capture
  // ---------------------------------------------------------------------

  datatype CaptureReply = Jpeg(fb: nat) | NotReady | CaptureFailed

  /**
   * handleCapture. A camera that is not initialised, or sleeping, is refused
   * without a capture. A failed capture counts a frame error. A frame is
   * counted as sent, sent (`sendResult` is the send's result) and released.
   */
  method HandleCapture(cam: CameraPolicy.Camera, diag: Diagnostics.Counters, grabbed: Option<nat>,
                       len: u32, now: u32, sendResult: EspErr)
      returns (res: EspErr, reply: CaptureReply)
    modifies cam`calls, diag
    ensures !old(cam.initialized) || old(cam.sleeping) ==>
      res == ESP_FAIL && reply == NotReady && cam.calls == old(cam.calls) &&
      diag.frameErrors == old(diag.frameErrors) && diag.totalFramesSent == old(diag.totalFramesSent)
    ensures old(cam.initialized) && !old(cam.sleeping) && grabbed.None? ==>
      res == ESP_FAIL && reply == CaptureFailed && cam.calls == old(cam.calls) + [CameraPolicy.FbGet] &&
      diag.frameErrors == ToU32(old(diag.frameErrors) + 1) && diag.totalFramesSent == old(diag.totalFramesSent)
    ensures old(cam.initialized) && !old(cam.sleeping) && grabbed.Some? ==>
      && res == sendResult && reply == Jpeg(grabbed.value)
      && cam.calls == old(cam.calls) + [CameraPolicy.FbGet, CameraPolicy.FbReturn(grabbed.value)]
      && diag.frameErrors == old(diag.frameErrors)
      && diag.totalFramesSent == ToU32(old(diag.totalFramesSent) + 1)
      && diag.totalBytesSent == ToU32(old(diag.totalBytesSent) + len)
      && diag.FpsWindow() == Diagnostics.FrameSentAsWritten(old(diag.FpsWindow()), now)
  {
    if !cam.initialized || cam.sleeping {
      return ESP_FAIL, NotReady;
    }
    var fb := cam.CaptureFrame(grabbed);
    if fb.None? {
      diag.RecordFrameError();
      return ESP_FAIL, CaptureFailed;
    }
    diag.RecordFrameSent(len, now);
    res := sendResult;
    cam.ReleaseFrame(fb);
    reply := Jpeg(fb.value);
  }
}
