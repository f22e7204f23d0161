/** The probe terminal screen (`DeviceControlActivity`): it registers itself as the link's
    listener, connects to the address it was started with, shows each link event as a chat
    line, and on teardown releases the link unless the Home action asked to keep it alive.
    The link is the single `Ble.BleManager`; this screen's listener identity is `id`. */
module DeviceControl {
  import opened Wrappers
  import opened Ble

  datatype Kind = System | Received

  /** `ChatMessage(text, type)`. */
  datatype ChatMessage = ChatMessage(text: string, kind: Kind)

  const ConnectedText: string := "✅ CONECTADO!"
  const DisconnectedText: string := "❌ DESCONECTADO"
  const ErrorPrefix: string := "ERRO: "

  /** The line the screen shows for one listener call. */
  function MessageOf(e: Event): ChatMessage {
    match e
    case Connected => ChatMessage(ConnectedText, System)
    case Disconnected => ChatMessage(DisconnectedText, System)
    case DataReceived(text) => ChatMessage(text, Received)
    case Error(message) => ChatMessage(ErrorPrefix + message, System)
  }

  /** Reading a line back: which listener call it shows, if any. */
  function EventOf(m: ChatMessage): Option<Event> {
    if m.kind == Received then Some(DataReceived(m.text))
    else if m.text == ConnectedText then Some(Connected)
    else if m.text == DisconnectedText then Some(Disconnected)
    else if |m.text| >= |ErrorPrefix| && m.text[..|ErrorPrefix|] == ErrorPrefix then Some(Error(m.text[|ErrorPrefix|..]))
    else None
  }

  /** Every line names its event: received data is the only RECEIVED line and keeps its text
      verbatim, and reading a line back gives the event that produced it. */
  lemma MessageRoundTrip(e: Event)
    ensures EventOf(MessageOf(e)) == Some(e)
    ensures MessageOf(e).kind == Received <==> e.DataReceived?
  {
    match e
    case Error(message) =>
      var t := ErrorPrefix + message;
      assert t[..|ErrorPrefix|] == ErrorPrefix;
      assert t[|ErrorPrefix|..] == message;
      assert t[0] == 'E' != ConnectedText[0];
      assert t[0] != DisconnectedText[0];
    case _ =>
  }

  /** The lines for the notices addressed to listener `id`, in arrival order. */
  function Transcript(notices: seq<Notice>, id: nat): (r: seq<ChatMessage>)
    ensures |r| <= |notices|
  {
    if notices == [] then []
    else
      var rest := Transcript(notices[..|notices| - 1], id);
      var n := notices[|notices| - 1];
      if n.listener == id then rest + [MessageOf(n.event)] else rest
  }

  lemma {:induction false} TranscriptAppend(a: seq<Notice>, b: seq<Notice>, id: nat)
    ensures Transcript(a + b, id) == Transcript(a, id) + Transcript(b, id)
    decreases |b|
  {
    if b == [] {
      assert a + b == a;
    } else {
      var b' := b[..|b| - 1];
      assert (a + b)[..|a + b| - 1] == a + b';
      TranscriptAppend(a, b', id);
    }
  }

  /** The line shown once a connect has been issued. */
  function ConnectingText(address: string): string {
    "Conectando a " + address + "..."
  }

  /** The link after `onCreate`: this screen listens, and a connect is issued only when an
      address was passed. */
  function Startup(s: Link, id: nat, address: Option<string>, initialized: bool): Link {
    var l := Listen(s, Some(id));
    if address.Some? then ConnectReleasing(l, address.value, initialized) else l
  }

  /** The link after `onDestroy`: the listener is detached first, then the link is released
      unless keep-alive was set. */
  function Teardown(s: Link, keepAlive: bool): Link {
    var l := Listen(s, None);
    if keepAlive then l else Release(l)
  }

  /** After `onCreate` this screen is the listener; without an address the link is otherwise
      untouched; with a well-formed one the link targets it. */
  lemma StartupListens(s: Link, id: nat, address: Option<string>, initialized: bool)
    requires Consistent(s)
    ensures var r := Startup(s, id, address, initialized);
            && r.listener == Some(id)
            && (address.None? ==> r == s.(listener := Some(id)))
            && (address.Some? && initialized && IsValidMac(address.value) ==> r.address == address)
  {
  }

  /** Tearing down tells no listener anything; with keep-alive the link stays as it was,
      without it every session is closed and the link is marked
      disconnected (the address is forgotten only when a session was still held). */
  lemma TeardownSilent(s: Link, keepAlive: bool)
    requires Consistent(s) && Tidy(s)
    ensures var r := Teardown(s, keepAlive);
            && r.log == s.log && r.listener.None?
            && (keepAlive ==> r == s.(listener := None))
            && (!keepAlive ==> r.gatt.None? && r.open == {} && !r.connected)
            && (!keepAlive && s.gatt.Some? ==> r.address.None?)
  {
  }

  /** Starting on the address the link is already connected to re-announces the connection,
      and since the listener runs on the screen's own thread, "CONECTADO" is shown before
      "Conectando a …". From a link with no session, the first line is "Conectando a …". */
  lemma StartupOrder(s: Link, id: nat, address: string, initialized: bool)
    ensures var r := Startup(s, id, Some(address), initialized);
            && |r.log| >= |s.log|
            && (AlreadyConnected(s, address) ==>
                  Transcript(r.log[|s.log|..], id) + [ChatMessage(ConnectingText(address), System)]
                  == [ChatMessage(ConnectedText, System), ChatMessage(ConnectingText(address), System)])
            && (s.gatt.None? && initialized && IsValidMac(address) ==> r.log[|s.log|..] == [])
  {
    var r := Startup(s, id, Some(address), initialized);
    if AlreadyConnected(s, address) {
      assert r.log == s.log + [Notice(id, Connected)];
      assert r.log[|s.log|..] == [Notice(id, Connected)];
      assert Transcript([Notice(id, Connected)], id) == Transcript([], id) + [MessageOf(Connected)];
    }
  }

  class DeviceControlScreen {
    const id: nat
    var messages: seq<ChatMessage>
    var keepConnectionAlive: bool

    constructor (id: nat)
      ensures this.id == id && messages == [] && !keepConnectionAlive
    {
      this.id := id;
      messages := [];
      keepConnectionAlive := false;
    }

    /** `onCreate`: listen, connect when an address was passed, and show the lines of any
        listener calls made during the connect, then "Conectando a …". */
    method OnCreate(ble: BleManager, address: Option<string>, initialized: bool)
      requires ble.Valid()
      modifies this, ble
      ensures ble.Valid() && ble.State() == Startup(old(ble.State()), id, address, initialized)
      ensures keepConnectionAlive == old(keepConnectionAlive)
      ensures messages == old(messages) + Transcript(ble.log[|old(ble.log)|..], id)
                          + (if address.Some? then [ChatMessage(ConnectingText(address.value), System)] else [])
    {
      var before := |ble.log|;
      ble.SetListener(Some(id));
      if address.Some? {
        ble.ConnectToDevice(address.value, initialized);
        messages := messages + Transcript(ble.log[before..], id);
        messages := messages + [ChatMessage(ConnectingText(address.value), System)];
      } else {
        assert ble.log[before..] == [];
      }
    }

    /** A listener call handed to the screen: one line appended. */
    method OnEvent(e: Event)
      modifies this
      ensures messages == old(messages) + [MessageOf(e)]
      ensures keepConnectionAlive == old(keepConnectionAlive)
    {
      messages := messages + [MessageOf(e)];
    }

    /** The Home action: keep the link for the next screen, then finish. */
    method HomeAction()
      modifies this
      ensures keepConnectionAlive && messages == old(messages)
    {
      keepConnectionAlive := true;
    }

    /** `onDestroy`. */
    method OnDestroy(ble: BleManager)
      requires ble.Valid()
      modifies ble
      ensures ble.Valid() && ble.State() == Teardown(old(ble.State()), keepConnectionAlive)
    {
      ble.SetListener(None);
      if !keepConnectionAlive {
        ble.Disconnect();
      }
    }
  }

  /** Every notice addressed to the screen has its line in the transcript. */
  lemma {:induction false} EveryNoticeShown(notices: seq<Notice>, id: nat, k: nat)
    requires k < |notices| && notices[k].listener == id
    ensures exists j :: 0 <= j < |Transcript(notices, id)| && Transcript(notices, id)[j] == MessageOf(notices[k].event)
    decreases |notices|
  {
    var init := notices[..|notices| - 1];
    if k == |notices| - 1 {
      var t := Transcript(notices, id);
      assert t[|t| - 1] == MessageOf(notices[k].event);
    } else {
      assert init[k] == notices[k];
      EveryNoticeShown(init, id, k);
      var j :| 0 <= j < |Transcript(init, id)| && Transcript(init, id)[j] == MessageOf(notices[k].event);
      var t := Transcript(notices, id);
      assert t[j] == Transcript(init, id)[j];
    }
  }
}
