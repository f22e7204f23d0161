/** The Bluetooth LE link to the probe (`BleManager`): one GATT session at a time, the
    connected flag, the connected address and the single listener that is told about the link.
    The platform's GATT sessions are opaque handles; `open` is the set of sessions opened and
    not yet closed. Listener calls are recorded as an appended log of notices. GATT callbacks
    arrive as separate inputs; the platform's "is Bluetooth available" check (`initialize`) is
    the parameter `initialized`. */
module Ble {
  import opened Wrappers

  const InvalidAddressMessage: string := "Endereço MAC inválido."

  /** The `ConnectionListener` calls. */
  datatype Event = Connected | Disconnected | DataReceived(text: string) | Error(message: string)

  /** One listener call: which listener (by identity) heard which event. */
  datatype Notice = Notice(listener: nat, event: Event)

  /** The `newState` of `onConnectionStateChange`; the transitional states are `Other`. */
  datatype GattState = StateConnected | StateDisconnected | StateOther

  /** The manager's state. `gatt` is `bluetoothGatt`, `connected` is `isDeviceConnected`,
      `address` is `connectedDeviceAddress`; `nextHandle` numbers new sessions. */
  datatype Link = Link(gatt: Option<nat>, open: set<nat>, nextHandle: nat, connected: bool,
                       address: Option<string>, listener: Option<nat>, log: seq<Notice>)

  const Initial: Link := Link(None, {}, 0, false, None, None, [])

  /** Sessions are numbered below `nextHandle`, and the current session is open. */
  ghost predicate Consistent(s: Link) {
    && (forall h :: h in s.open ==> h < s.nextHandle)
    && (s.gatt.Some? ==> s.gatt.value in s.open)
  }

  /** No session is open except the current one, and the link is marked connected only
      while it has a session. */
  ghost predicate Tidy(s: Link) {
    && (forall h :: h in s.open ==> s.gatt == Some(h))
    && (s.connected ==> s.gatt.Some?)
  }

  /** `listener?.on…()`: the log after telling the current listener, if any. */
  function Notify(s: Link, e: Event): seq<Notice> {
    if s.listener.Some? then s.log + [Notice(s.listener.value, e)] else s.log
  }

  predicate IsHexDigit(c: char) {
    '0' <= c <= '9' || 'A' <= c <= 'F'
  }

  /** The address form the platform accepts (`BluetoothAdapter.checkBluetoothAddress`): six
      upper-case hex pairs separated by colons. */
  predicate IsValidMac(a: string) {
    |a| == 17 && forall i :: 0 <= i < 17 ==> if i % 3 == 2 then a[i] == ':' else IsHexDigit(a[i])
  }

  /** `setListener`. */
  function Listen(s: Link, l: Option<nat>): Link {
    s.(listener := l)
  }

  /** `disconnect`: without a session nothing happens; otherwise the session is closed and
      dropped, the link reset and the listener told. */
  function Release(s: Link): (r: Link)
  {
    if s.gatt.None? then s
    else s.(gatt := None, open := s.open - {s.gatt.value}, connected := false, address := None,
            log := Notify(s, Disconnected))
  }

  /** The second half of `connectToDevice`: a new session to a well-formed address, or the
      error for a malformed one. */
  function Open(s: Link, address: string, initialized: bool): Link {
    if !initialized then s
    else if !IsValidMac(address) then s.(log := Notify(s, Error(InvalidAddressMessage)))
    else
      var h := s.nextHandle;
      s.(gatt := Some(h), open := s.open + {h}, nextHandle := h + 1, address := Some(address))
  }

  /** Already connected to `address` over a live session. */
  predicate AlreadyConnected(s: Link, address: string) {
    s.connected && s.address == Some(address) && s.gatt.Some?
  }

  /** `connectToDevice` as written: the previous session is released only when the link is
      marked connected. */
  function Connect(s: Link, address: string, initialized: bool): Link {
    if AlreadyConnected(s, address) then s.(log := Notify(s, Connected))
    else Open(if s.connected then Release(s) else s, address, initialized)
  }

  /** `connectToDevice` releasing any previous session, connected or still pending, before
      opening a new one. */
  function ConnectReleasing(s: Link, address: string, initialized: bool): Link {
    if AlreadyConnected(s, address) then s.(log := Notify(s, Connected))
    else Open(Release(s), address, initialized)
  }

  /** `onConnectionStateChange` from session `g`. */
  function StateChanged(s: Link, g: nat, state: GattState): Link {
    match state
    case StateConnected => s.(connected := true)
    case StateDisconnected =>
      s.(connected := false, log := Notify(s, Disconnected), open := s.open - {g}, gatt := None)
    case StateOther => s
  }

  /** `onServicesDiscovered`: the listener hears `onConnected` only after a successful
      discovery that found the UART service, its TX characteristic and that characteristic's
      notification descriptor. */
  function ServicesDiscovered(s: Link, success: bool, hasService: bool, hasCharacteristic: bool,
                                hasDescriptor: bool): Link {
    if success && hasService && hasCharacteristic && hasDescriptor then s.(log := Notify(s, Connected))
    else s
  }

  /** `onCharacteristicChanged`: the received text goes to the listener. */
  function CharacteristicChanged(s: Link, text: string): Link {
    s.(log := Notify(s, DataReceived(text)))
  }

  // ---------------------------------------------------------------------------------------
  // What the operations promise

  /** `setListener` swaps the listener without telling either one and without touching the
      link; from then on, notices go to the new listener only. */
  lemma SetListenerReplaces(s: Link, l: Option<nat>, e: Event)
    ensures var r := Listen(s, l);
            && r.log == s.log
            && (r.gatt, r.open, r.connected, r.address) == (s.gatt, s.open, s.connected, s.address)
            && Notify(r, e) == s.log + (if l.Some? then [Notice(l.value, e)] else [])
  {
  }

  /** With no listener, nothing is ever told: every operation leaves the log unchanged. */
  lemma DetachedHearsNothing(s: Link, address: string, initialized: bool, g: nat, state: GattState,
                             text: string, ok: bool)
    requires s.listener.None?
    ensures ConnectReleasing(s, address, initialized).log == s.log
    ensures Connect(s, address, initialized).log == s.log
    ensures Release(s).log == s.log
    ensures StateChanged(s, g, state).log == s.log
    ensures ServicesDiscovered(s, ok, ok, ok, ok).log == s.log
    ensures CharacteristicChanged(s, text).log == s.log
  {
  }

  /** Connecting again to the connected address keeps the session and re-announces it. */
  lemma ReconnectSameAddress(s: Link, address: string, initialized: bool)
    requires AlreadyConnected(s, address)
    ensures var r := ConnectReleasing(s, address, initialized);
            && r.gatt == s.gatt && r.open == s.open && r.connected && r.address == Some(address)
            && r.log == Notify(s, Connected)
  {
  }

  /** Connecting to another device while connected first closes the current session and tells
      the listener it is disconnected. */
  lemma ConnectElsewhereDisconnectsFirst(s: Link, address: string, initialized: bool)
    requires Consistent(s) && s.connected && s.gatt.Some? && s.address != Some(address)
    ensures var r := ConnectReleasing(s, address, initialized);
            && s.gatt.value !in r.open && !r.connected
            && r.log[..|Notify(s, Disconnected)|] == Notify(s, Disconnected)
  {
  }

  /** A malformed address is reported and opens nothing; a well-formed one opens a fresh
      session and becomes the connected address. The corrected connect first releases any
      session; the connect as written releases only a connected one, so a pending session
      stays open and, on a malformed address, stays the current one. */
  lemma ConnectAddress(s: Link, address: string)
    requires Consistent(s) && !AlreadyConnected(s, address)
    ensures var d := Release(s);
            var r := ConnectReleasing(s, address, true);
            && (!IsValidMac(address) ==>
                  r.gatt.None? && r.open == d.open && r.log == Notify(d, Error(InvalidAddressMessage)))
            && (IsValidMac(address) ==>
                  r.address == Some(address) && r.gatt == Some(d.nextHandle) && d.nextHandle !in s.open
                  && r.open == d.open + {d.nextHandle} && r.log == d.log)
    ensures var d := if s.connected then Release(s) else s;
            var r := Connect(s, address, true);
            && (!IsValidMac(address) ==>
                  r.gatt == d.gatt && r.open == d.open && r.log == Notify(d, Error(InvalidAddressMessage)))
            && (IsValidMac(address) ==>
                  r.address == Some(address) && r.gatt == Some(d.nextHandle) && d.nextHandle !in s.open
                  && r.open == d.open + {d.nextHandle} && r.log == d.log)
            && (!s.connected && s.gatt.Some? ==> s.gatt.value in r.open && r.log[..|s.log|] == s.log)
  {
  }

  /** `disconnect` without a session changes nothing and tells nobody; with one, it always
      ends with no session, not connected, no address, and one `onDisconnected`. */
  lemma DisconnectResets(s: Link)
    ensures s.gatt.None? ==> Release(s) == s
    ensures s.gatt.Some? ==>
              var r := Release(s);
              && r.gatt.None? && !r.connected && r.address.None? && s.gatt.value !in r.open
              && r.log == s.log + (if s.listener.Some? then [Notice(s.listener.value, Disconnected)] else [])
  {
  }

  /** The transport coming up marks the link connected but tells nobody yet; only a complete
      discovery announces it. */
  lemma ConnectedOnlyAfterDiscovery(s: Link, g: nat, success: bool, hasService: bool,
                                    hasCharacteristic: bool, hasDescriptor: bool)
    ensures var r := StateChanged(s, g, StateConnected);
            r.connected && r.log == s.log && r.gatt == s.gatt
    ensures var r := ServicesDiscovered(s, success, hasService, hasCharacteristic, hasDescriptor);
            && (r.log != s.log <==> s.listener.Some? && success && hasService && hasCharacteristic && hasDescriptor)
            && r.(log := s.log) == s
  {
  }

  /** A link lost from the device's side clears the flag and the session and tells the
      listener, but keeps the remembered address. */
  lemma HardwareDisconnect(s: Link, g: nat)
    ensures var r := StateChanged(s, g, StateDisconnected);
            && !r.connected && r.gatt.None? && g !in r.open && r.address == s.address
            && r.log == Notify(s, Disconnected)
  {
  }

  // ---------------------------------------------------------------------------------------
  // The leaked session, and the corrected connect

  const DeviceA: string := "24:0A:C4:00:00:01"
  const DeviceB: string := "24:0A:C4:00:00:02"

  lemma DevicesValid()
    ensures IsValidMac(DeviceA) && IsValidMac(DeviceB) && DeviceA != DeviceB
  {
    assert DeviceA[16] != DeviceB[16];
  }

  /** As written, a second connect issued before the first session reports STATE_CONNECTED
      replaces `bluetoothGatt` without closing the first session, which stays open with
      nothing left to close it. */
  lemma ConnectLeaksPendingSession()
    ensures var s1 := Connect(Initial, DeviceA, true);
            var s2 := Connect(s1, DeviceB, true);
            && Tidy(s1) && s1.gatt == Some(0)
            && 0 in s2.open && s2.gatt == Some(1) && !Tidy(s2)
  {
    DevicesValid();
  }

  /** With the release before every new session, no operation leaves a session open other
      than the current one. */
  lemma TidyPreserved(s: Link, address: string, initialized: bool, g: nat, state: GattState,
                      l: Option<nat>, text: string, ok: bool)
    requires Consistent(s) && Tidy(s) && g in s.open
    ensures Consistent(ConnectReleasing(s, address, initialized)) && Tidy(ConnectReleasing(s, address, initialized))
    ensures Consistent(Release(s)) && Tidy(Release(s))
    ensures Consistent(StateChanged(s, g, state)) && Tidy(StateChanged(s, g, state))
    ensures Tidy(Listen(s, l)) && Tidy(ServicesDiscovered(s, ok, ok, ok, ok)) && Tidy(CharacteristicChanged(s, text))
  {
  }

  // ---------------------------------------------------------------------------------------
  // The manager object

  class BleManager {
    var gatt: Option<nat>
    var open: set<nat>
    var nextHandle: nat
    var connected: bool
    var address: Option<string>
    var listener: Option<nat>
    var log: seq<Notice>

    function State(): Link
      reads this
    {
      Link(gatt, open, nextHandle, connected, address, listener, log)
    }

    ghost predicate Valid()
      reads this
    {
      Consistent(State()) && Tidy(State())
    }

    constructor ()
      ensures State() == Initial && Valid()
    {
      gatt, open, nextHandle, connected, address, listener, log := None, {}, 0, false, None, None, [];
    }

    /** `isConnected()`: true only while a session is held. */
    function IsConnected(): (r: bool)
      reads this
      ensures r <==> State().connected
      ensures r && Valid() ==> gatt.Some? && gatt.value in open
    {
      connected
    }

    method Tell(e: Event)
      modifies this
      ensures State() == old(State()).(log := Notify(old(State()), e))
    {
      if listener.Some? {
        log := log + [Notice(listener.value, e)];
      }
    }

    method SetListener(l: Option<nat>)
      modifies this
      ensures State() == Listen(old(State()), l)
    {
      listener := l;
    }

    method Disconnect()
      modifies this
      ensures State() == Release(old(State()))
    {
      if gatt.None? {
        return;
      }
      open := open - {gatt.value};
      Tell(Disconnected);
      gatt := None;
      connected := false;
      address := None;
    }

    /** `connectToDevice`, with the previous session released whenever one exists. */
    method ConnectToDevice(addr: string, initialized: bool)
      requires Valid()
      modifies this
      ensures State() == ConnectReleasing(old(State()), addr, initialized) && Valid()
    {
      if connected && address == Some(addr) && gatt.Some? {
        Tell(Connected);
        return;
      }
      Disconnect();
      if !initialized {
        return;
      }
      if !IsValidMac(addr) {
        Tell(Error(InvalidAddressMessage));
        return;
      }
      gatt := Some(nextHandle);
      open := open + {nextHandle};
      nextHandle := nextHandle + 1;
      address := Some(addr);
    }

    method OnConnectionStateChange(g: nat, state: GattState)
      requires Valid() && g in open
      modifies this
      ensures State() == StateChanged(old(State()), g, state) && Valid()
    {
      match state
      case StateConnected =>
        connected := true;
      case StateDisconnected =>
        connected := false;
        Tell(Disconnected);
        open := open - {g};
        gatt := None;
      case StateOther =>
    }

    method OnServicesDiscovered(success: bool, hasService: bool, hasCharacteristic: bool, hasDescriptor: bool)
      modifies this
      ensures State() == ServicesDiscovered(old(State()), success, hasService, hasCharacteristic, hasDescriptor)
    {
      if success && hasService && hasCharacteristic && hasDescriptor {
        Tell(Connected);
      }
    }

    method OnCharacteristicChanged(text: string)
      modifies this
      ensures State() == CharacteristicChanged(old(State()), text)
    {
      Tell(DataReceived(text));
    }
  }
}
