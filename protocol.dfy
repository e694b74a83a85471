/**
 * The messages the relay server sends to the board (server.js:149, 154, 163,
 * 169) as the board's handler reads them (esp.cpp:123-143).
 */
module Protocol {
  import opened Base
  import Device
  import Relay

  /** The document the board's parser makes of a message the server sends it. */
  function AsDocument(m: Relay.Outgoing): (d: Option<Device.Inbound>)
    ensures d.Some? <==> m.EspText? || m.EspStart? || m.EspStop?
  {
    match m
    case EspText(t) => Some(Device.Document(false, false, Some(t)))
    case EspStart => Some(Device.Document(true, false, None))
    case EspStop => Some(Device.Document(false, true, None))
    case _ => None
  }

  /**
   * {start: true} starts recording and shows "Recording..."; {stop: true}
   * stops it and shows "Stopped."; {text} shows the transcript and leaves
   * recording as it was. Each raises the display flag.
   */
  lemma BoardFollowsServer(s: Device.ControlState, m: Relay.Outgoing)
    requires AsDocument(m).Some?
    ensures var r := Device.ApplyText(s, AsDocument(m).value);
      && r.oledNeedsUpdate
      && (m.EspStart? ==> r.isStarted && r.oledText == "Recording...")
      && (m.EspStop? ==> !r.isStarted && r.oledText == "Stopped.")
      && (m.EspText? ==> r.isStarted == s.isStarted && r.oledText == m.text)
  {
  }
}
