/**
 * The relay server (server.js:89-182): three socket slots (the board, the
 * browser UI and the AssemblyAI streaming session), the turns map, and the
 * handlers that forward audio, collect transcripts and send the start, stop
 * and text messages. Events are handled one at a time.
 */
module Relay {
  import opened Base
  import opened Transcript

  /** A socket held in a slot: an identity and whether its readyState is OPEN. */
  datatype Socket = Socket(id: nat, open: bool)

  /** The messages the server sends, one constructor per JSON shape. */
  datatype Outgoing =
    | UiTranscript(text: string)   // {type: 'transcript', text} to the UI
    | UiStart                      // {type: 'start'} to the UI
    | UiStop                       // {type: 'stop'} to the UI
    | EspText(text: string)        // {text} to the board
    | EspStart                     // {start: true} to the board
    | EspStop                      // {stop: true} to the board
    | AaiTerminate                 // {type: 'Terminate'} to AssemblyAI
    | AaiAudio(data: seq<Byte>)    // a board frame, forwarded unchanged

  /** One message handed to the socket with the given identity. */
  datatype Delivery = Delivery(to: nat, msg: Outgoing)

  /**
   * A UI message: one the handler throws on (JSON.parse fails, or the value is
   * null), or a parsed value with its `type` field when that is a string.
   */
  datatype UiInbound = UiUnparsable | UiRequest(kind: Option<string>)

  /** An AssemblyAI message, by its `type`. */
  datatype AaiInbound =
    | AaiUnparsable
    | AaiTurn(turn: Turn)
    | AaiBegin
    | AaiOther

  /**
   * sendSafe (server.js:89-93), and broadcastToESP and sendToUI, which only
   * call it (server.js:94-99): what reaches the slot's socket.
   */
  function Deliver(slot: Option<Socket>, msg: Outgoing): (r: seq<Delivery>)
    ensures |r| <= 1
    ensures r != [] <==> slot.Some? && slot.value.open
    ensures r != [] ==> r[0] == Delivery(slot.value.id, msg)
  {
    if slot.Some? && slot.value.open then [Delivery(slot.value.id, msg)] else []
  }

  /** The module-level state of server.js:101-104, with a log of every message sent. */
  class Server {
    var esp: Option<Socket>
    var ui: Option<Socket>
    var aai: Option<Socket>
    var turns: Turns
    var sent: seq<Delivery>

    constructor ()
      ensures esp == None && ui == None && aai == None
      ensures turns == map[] && sent == []
    {
      esp, ui, aai := None, None, None;
      turns := map[];
      sent := [];
    }

    method SendSafe(slot: Option<Socket>, msg: Outgoing)
      modifies this`sent
      ensures sent == old(sent) + Deliver(slot, msg)
    {
      if slot.Some? && slot.value.open {
        sent := sent + [Delivery(slot.value.id, msg)];
      }
    }

    /** A board connects (server.js:106-109); it takes the slot, open. */
    method OnEspConnection(id: nat)
      modifies this`esp
      ensures esp == Some(Socket(id, true))
    {
      esp := Some(Socket(id, true));
    }

    /** A frame from the board goes to AssemblyAI only if that session is open (server.js:110-114). */
    method OnEspMessage(data: seq<Byte>)
      modifies this`sent
      ensures sent == old(sent) + Deliver(aai, AaiAudio(data))
    {
      if aai.Some? && aai.value.open {
        sent := sent + [Delivery(aai.value.id, AaiAudio(data))];
      }
    }

    /** A board socket closes (server.js:116-119): the slot empties, whichever socket it held. */
    method OnEspClose()
      modifies this`esp
      ensures esp == None
    {
      esp := None;
    }

    /** A UI connects (server.js:122-125). */
    method OnUiConnection(id: nat)
      modifies this`ui
      ensures ui == Some(Socket(id, true))
    {
      ui := Some(Socket(id, true));
    }

    /** A UI socket closes (server.js:178-181). */
    method OnUiClose()
      modifies this`ui
      ensures ui == None
    {
      ui := None;
    }

    /**
     * A UI message (server.js:126-176). `session` is the outcome of
     * connectAssemblyAI: the identity of the session socket once it is open,
     * or None if the connection was rejected.
     */
    method OnUiMessage(msg: UiInbound, session: Option<nat>)
      modifies this`turns, this`aai, this`sent
      ensures msg == UiRequest(Some("start")) ==>
        && turns == map[]
        && aai == (if session.Some? then Some(Socket(session.value, true)) else old(aai))
        && sent == old(sent)
      ensures msg == UiRequest(Some("stop")) ==>
        && turns == map[]
        && aai == None
        && sent == old(sent) + Deliver(esp, EspStop) + Deliver(old(aai), AaiTerminate)
      ensures msg != UiRequest(Some("start")) && msg != UiRequest(Some("stop")) ==>
        turns == old(turns) && aai == old(aai) && sent == old(sent)
    {
      if msg.UiRequest? && msg.kind == Some("start") {
        turns := map[];
        if session.Some? {
          aai := Some(Socket(session.value, true));
        }
      }
      if msg.UiRequest? && msg.kind == Some("stop") {
        SendSafe(esp, EspStop);
        if aai.Some? && aai.value.open {
          sent := sent + [Delivery(aai.value.id, AaiTerminate)];
        }
        aai := None;
        turns := map[];
      }
    }

    /** A message from the AssemblyAI session (server.js:134-157). */
    method OnAaiMessage(p: AaiInbound)
      modifies this`turns, this`sent
      ensures p.AaiTurn? ==>
        && turns == Store(old(turns), p.turn)
        && sent == old(sent)
             + Deliver(ui, UiTranscript(OrderedTranscript(turns)))
             + Deliver(esp, EspText(OrderedTranscript(turns)))
      ensures p.AaiBegin? ==>
        turns == old(turns) && sent == old(sent) + Deliver(ui, UiStart) + Deliver(esp, EspStart)
      ensures p.AaiUnparsable? || p.AaiOther? ==>
        turns == old(turns) && sent == old(sent)
    {
      match p {
        case AaiTurn(turn) =>
          turns := Store(turns, turn);
          var orderedTurns := OrderedTranscript(turns);
          SendSafe(ui, UiTranscript(orderedTurns));
          SendSafe(esp, EspText(orderedTurns));
        case AaiBegin =>
          SendSafe(ui, UiStart);
          SendSafe(esp, EspStart);
        case _ =>
      }
    }

    /** The AssemblyAI session closes (server.js:159-164); the turns are kept. */
    method OnAaiClose()
      modifies this`aai, this`sent
      ensures aai == None
      ensures sent == old(sent) + Deliver(ui, UiStop) + Deliver(esp, EspStop)
    {
      aai := None;
      SendSafe(ui, UiStop);
      SendSafe(esp, EspStop);
    }
  }
}
