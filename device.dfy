/**
 * The board side (esp.cpp): the control globals isStarted, oledText and
 * oledNeedsUpdate, the WebSocket event handler that updates them, and one pass
 * of the main loop, which captures, conditions and sends a frame while the
 * socket is connected and recording is started, then refreshes the display
 * when the flag is raised.
 */
module Device {
  import opened Base
  import opened Samples

  /** I2S_BUFFER_SIZE (esp.cpp:33): bytes per capture, 800 samples. */
  const I2S_BUFFER_SIZE: nat := 1600

  /** The driver's success code. */
  const ESP_OK: int := 0

  /**
   * An inbound text message as the JSON parser delivers it: a parse failure,
   * or a document recording which of the keys start and stop are present and
   * the value of text, converted to a string, when that key is present.
   */
  datatype Inbound =
    | ParseError
    | Document(hasStart: bool, hasStop: bool, text: Option<string>)

  /** The WebSocket client's events; every kind not listed is WsOther. */
  datatype WsEvent =
    | WsDisconnected
    | WsConnected
    | WsText(msg: Inbound)
    | WsBin
    | WsOther

  /** The three globals the handler writes. */
  datatype ControlState = ControlState(isStarted: bool, oledText: string, oledNeedsUpdate: bool)

  /**
   * The effect of one text message (esp.cpp:109-146). The keys are tested in
   * the order start, stop, text, and only their presence matters; the
   * postconditions give the net effect.
   */
  function ApplyText(s: ControlState, msg: Inbound): (r: ControlState)
    ensures msg.ParseError? ==> r == s
    ensures msg.Document? ==>
      r.isStarted == (if msg.hasStop then false else if msg.hasStart then true else s.isStarted)
    ensures msg.Document? ==>
      r.oledText == (if msg.text.Some? then msg.text.value
                     else if msg.hasStop then "Stopped."
                     else if msg.hasStart then "Recording..."
                     else s.oledText)
    ensures r.oledNeedsUpdate <==>
      s.oledNeedsUpdate || (msg.Document? && (msg.hasStart || msg.hasStop || msg.text.Some?))
  {
    match msg
    case ParseError => s
    case Document(hasStart, hasStop, text) =>
      var afterStart := if hasStart then ControlState(true, "Recording...", true) else s;
      var afterStop := if hasStop then ControlState(false, "Stopped.", true) else afterStart;
      if text.Some? then afterStop.(oledText := text.value, oledNeedsUpdate := true) else afterStop
  }

  /**
   * The handler of esp.cpp:95-152. A disconnect shows "Disconnected!" and leaves
   * the recording intent alone; connect, binary and other events change nothing.
   */
  function OnEvent(s: ControlState, ev: WsEvent): (r: ControlState)
    ensures ev.WsDisconnected? ==>
      r == ControlState(s.isStarted, "Disconnected!", true)
    ensures ev.WsConnected? || ev.WsBin? || ev.WsOther? ==> r == s
    ensures r.isStarted != s.isStarted ==> ev.WsText?
  {
    match ev
    case WsDisconnected => s.(oledText := "Disconnected!", oledNeedsUpdate := true)
    case WsText(msg) => ApplyText(s, msg)
    case _ => s
  }

  /** The control state after a sequence of events, delivered in order. */
  function Replay(s: ControlState, evs: seq<WsEvent>): ControlState
    decreases |evs|
  {
    if evs == [] then s else Replay(OnEvent(s, evs[0]), evs[1..])
  }

  /** The text messages among a sequence of events, in order. */
  function Commands(evs: seq<WsEvent>): (r: seq<WsEvent>)
    ensures |r| <= |evs|
    ensures forall i :: 0 <= i < |r| ==> r[i].WsText?
  {
    if evs == [] then []
    else if evs[0].WsText? then [evs[0]] + Commands(evs[1..])
    else Commands(evs[1..])
  }

  /**
   * Transmission is gated on both the connection and the intent (esp.cpp:202).
   */
  predicate EffectiveStreaming(connected: bool, s: ControlState) {
    connected && s.isStarted
  }

  /**
   * Whether recording is started depends only on the earlier intent and the
   * text messages: connects, disconnects and other events never change it.
   */
  lemma {:induction false} IntentIgnoresConnectionEvents(s: ControlState, t: ControlState, evs: seq<WsEvent>)
    requires s.isStarted == t.isStarted
    ensures Replay(s, evs).isStarted == Replay(t, Commands(evs)).isStarted
    decreases |evs|
  {
    if evs != [] {
      var e, rest := evs[0], evs[1..];
      assert evs == [e] + rest;
      if e.WsText? {
        assert Commands(evs) == [e] + Commands(rest);
        assert ([e] + Commands(rest))[1..] == Commands(rest);
        IntentIgnoresConnectionEvents(OnEvent(s, e), OnEvent(t, e), rest);
      } else {
        assert Commands(evs) == Commands(rest);
        IntentIgnoresConnectionEvents(OnEvent(s, e), t, rest);
      }
    }
  }

  /**
   * Start, then a disconnect, then a reconnect: streaming resumes without a
   * second start.
   */
  lemma StartSurvivesReconnect(s: ControlState)
    ensures EffectiveStreaming(true, Replay(s, [WsText(Document(true, false, None)), WsDisconnected, WsConnected]))
  {
  }

  /** Handling the same message twice has the effect of handling it once. */
  lemma ApplyTextIdempotent(s: ControlState, msg: Inbound)
    ensures ApplyText(ApplyText(s, msg), msg) == ApplyText(s, msg)
  {
  }

  /** The driver's answer to i2s_channel_read: its result code and the bytes it stored. */
  datatype ReadResult = ReadResult(err: int, data: seq<Byte>)

  /** The processing branch of esp.cpp:214 is taken. */
  predicate Captured(read: ReadResult) {
    read.err == ESP_OK && |read.data| > 0
  }

  /** The buffer once the driver has stored `data` at its start. */
  function Deposited(buf: seq<Byte>, data: seq<Byte>): (r: seq<Byte>)
    requires |data| <= |buf|
    ensures |r| == |buf| && r[..|data|] == data && r[|data|..] == buf[|data|..]
  {
    data + buf[|data|..]
  }

  /** The board's state: the globals of esp.cpp and the capture buffer. */
  class Board {
    var isStarted: bool
    var oledText: string
    var oledNeedsUpdate: bool
    /** The stored filter state; it holds the previous raw sample. */
    var lastFilteredSample: int
    /** i2s_read_buffer. */
    const buffer: array<Byte>

    ghost predicate Valid()
      reads this
    {
      buffer.Length == I2S_BUFFER_SIZE
    }

    function Control(): ControlState
      reads this
    {
      ControlState(isStarted, oledText, oledNeedsUpdate)
    }

    /** The initial values of the globals (esp.cpp:40-50, 92). */
    constructor ()
      ensures Valid() && fresh(buffer)
      ensures Control() == ControlState(false, "", false)
      ensures lastFilteredSample == 0
      ensures forall i :: 0 <= i < buffer.Length ==> buffer[i] == 0
    {
      isStarted := false;
      oledText := "";
      oledNeedsUpdate := false;
      lastFilteredSample := 0;
      buffer := new Byte[I2S_BUFFER_SIZE](_ => 0);
    }

    /** The state part of setup (esp.cpp:189-190): show "Ready." on the next pass. */
    method Setup()
      modifies this`oledText, this`oledNeedsUpdate
      ensures Control() == ControlState(old(isStarted), "Ready.", true)
    {
      oledText := "Ready.";
      oledNeedsUpdate := true;
    }

    /** webSocketEvent (esp.cpp:95-152). */
    method HandleEvent(ev: WsEvent)
      modifies this`isStarted, this`oledText, this`oledNeedsUpdate
      ensures Control() == OnEvent(old(Control()), ev)
    {
      match ev {
        case WsDisconnected =>
          oledText := "Disconnected!";
          oledNeedsUpdate := true;
        case WsText(msg) =>
          if msg.Document? {
            if msg.hasStart {
              isStarted := true;
              oledText := "Recording...";
              oledNeedsUpdate := true;
            }
            if msg.hasStop {
              isStarted := false;
              oledText := "Stopped.";
              oledNeedsUpdate := true;
            }
            if msg.text.Some? {
              oledText := msg.text.value;
              oledNeedsUpdate := true;
            }
          }
        case _ =>
      }
    }

    /**
     * One pass of loop() after webSocket.loop() has delivered its events
     * (esp.cpp:202-260). `connected` is webSocket.isConnected(); `read` is what
     * the driver would answer if asked. Returns the binary payload sent, if
     * any, and the text drawn on the display, if any.
     */
    method Loop(connected: bool, read: ReadResult) returns (sent: Option<seq<Byte>>, drawn: Option<string>)
      requires Valid()
      requires |read.data| <= I2S_BUFFER_SIZE
      modifies this, buffer
      ensures Valid()
      ensures isStarted == old(isStarted) && oledText == old(oledText)
      ensures !oledNeedsUpdate
      ensures drawn == if old(oledNeedsUpdate) then Some(oledText) else None
      ensures !EffectiveStreaming(connected, old(Control())) ==>
        sent == None && buffer[..] == old(buffer[..]) && lastFilteredSample == old(lastFilteredSample)
      ensures EffectiveStreaming(connected, old(Control())) && !Captured(read) ==>
        sent == None && buffer[..] == Deposited(old(buffer[..]), read.data)
        && lastFilteredSample == old(lastFilteredSample)
      ensures EffectiveStreaming(connected, old(Control())) && Captured(read) ==>
        var raw := Deposited(old(buffer[..]), read.data);
        var n := |read.data| / 2;
        && buffer[..] == ConditionedFrame(raw, n)
        && sent == Some(buffer[..|read.data|])
        && lastFilteredSample == LastRawSample(raw, n, old(lastFilteredSample))
    {
      sent := None;
      if connected && isStarted {
        var bytesRead := |read.data|;
        StoreRead(read.data);
        if read.err == ESP_OK && bytesRead > 0 {
          ConditionSamples(bytesRead / 2);
          sent := Some(buffer[..bytesRead]);
        }
      }
      if oledNeedsUpdate {
        drawn := Some(oledText);
        oledNeedsUpdate := false;
      } else {
        drawn := None;
      }
    }

    /** The driver's copy of the bytes it read into i2s_read_buffer. */
    method StoreRead(data: seq<Byte>)
      requires Valid() && |data| <= I2S_BUFFER_SIZE
      modifies buffer
      ensures buffer[..] == Deposited(old(buffer[..]), data)
    {
      forall j | 0 <= j < |data| {
        buffer[j] := data[j];
      }
    }

    /** The sample loop of esp.cpp:216-241 over the first numSamples samples. */
    method ConditionSamples(numSamples: nat)
      requires Valid() && 2 * numSamples <= I2S_BUFFER_SIZE
      modifies buffer, this`lastFilteredSample
      ensures buffer[..] == ConditionedFrame(old(buffer[..]), numSamples)
      ensures lastFilteredSample == LastRawSample(old(buffer[..]), numSamples, old(lastFilteredSample))
    {
      ghost var raw := buffer[..];
      for i := 0 to numSamples
        invariant buffer[..] == ConditionedFrame(raw, i)
        invariant lastFilteredSample == LastRawSample(raw, i, old(lastFilteredSample))
      {
        ghost var before: seq<Byte> := buffer[..];
        ConditionedFrameStep(raw, i);
        var current := SampleOf(buffer[2 * i], buffer[2 * i + 1]);
        var filtered := HighPass(lastFilteredSample, current);
        lastFilteredSample := current;
        var boosted := Boost(filtered);
        var stored := Clamp16(boosted);
        var p := EncodeSample(stored);
        buffer[2 * i] := p.0;
        buffer[2 * i + 1] := p.1;
        assert buffer[..] == before[2 * i := p.0][2 * i + 1 := p.1];
      }
    }
  }

  /**
   * After a pass that sent a frame, the payload is exactly bytes_read long and
   * holds every complete raw sample conditioned, in the int16 range.
   */
  lemma PayloadSamples(raw: seq<Byte>, bytesRead: nat, k: nat)
    requires bytesRead <= |raw| && k < bytesRead / 2
    ensures |ConditionedFrame(raw, bytesRead / 2)[..bytesRead]| == bytesRead
    ensures SampleAt(ConditionedFrame(raw, bytesRead / 2)[..bytesRead], k) == Conditioned(SampleAt(raw, k))
    ensures InInt16(SampleAt(ConditionedFrame(raw, bytesRead / 2)[..bytesRead], k))
  {
    ConditionedFrameSamples(raw, bytesRead / 2, k);
  }
}
