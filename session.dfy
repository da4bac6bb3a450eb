/** The connection session of `BluetoothRepository`, as values.

    A `Session` is everything the repository owns: the published connection state, the
    socket and its two streams, the read job, whether the read pump is still active, the
    received-message events published so far and the data written to the output stream.
    Each operation of the repository is a function from the session before to the session
    after; operations that launch background work are split into the synchronous part
    (which returns the job it launches) and the job's body, which runs as a later step. */
module ConnectionSession {
  import opened Platform

  /** The connection states the repository publishes. */
  datatype ConnectionState =
    | Idle
    | Connecting(deviceName: string)
    | Connected(deviceName: string)
    | Error(message: string)
    | Disconnected

  const AdapterDisabledMessage: string := "El Bluetooth no está habilitado"
  const InvalidAddressMessage: string := "Dirección MAC inválida"
  const DeviceNotFoundMessage: string := "Dispositivo no encontrado"
  const ConnectFailedPrefix: string := "Conexión fallida: "
  const SecurityMessage: string := "Error de seguridad. ¿Permisos?"
  const NotConnectedMessage: string := "No conectado para enviar"
  const SendFailedMessage: string := "Error al enviar"

  /** How many characters of an I/O failure's message the connect error keeps. */
  const ReasonLength: nat := 30

  /** The size of the read pump's buffer. */
  const BufferSize: nat := 1024

  /** A platform resource (socket, stream or job), identified by when it was created. */
  type Handle = nat

  /** The socket's two streams are the socket's own, so they carry the socket's handle. */
  datatype Session = Session(
    state: ConnectionState,
    socket: Option<Handle>,
    outputStream: Option<Handle>,
    inputStream: Option<Handle>,
    readJob: Option<Handle>,
    pumpActive: bool,
    nextHandle: nat,
    received: seq<string>,
    sent: seq<string>)

  predicate NoHandles(s: Session) {
    s.socket.None? && s.outputStream.None? && s.inputStream.None? && s.readJob.None?
  }

  /** At most one session exists: the streams are those of the one socket, there is a read
      job exactly while there is a socket, a `Connected` state has a live socket, and every handle
      was handed out before. */
  predicate Consistent(s: Session) {
    s.outputStream == s.socket && s.inputStream == s.socket
    && (s.readJob.Some? <==> s.socket.Some?)
    && (s.pumpActive ==> s.readJob.Some?)
    && (s.state.Connected? ==> s.socket.Some?)
    && (s.socket.Some? ==> s.socket.value < s.nextHandle)
    && (s.readJob.Some? ==> s.readJob.value < s.nextHandle)
  }

  /** A freshly constructed repository. */
  function Initial(): (s: Session)
    ensures s.state == Idle && NoHandles(s) && !s.pumpActive
    ensures s.received == [] && s.sent == []
    ensures Consistent(s)
  {
    Session(Idle, None, None, None, None, false, 0, [], [])
  }

  predicate AdapterUnavailable(adapter: Option<Adapter>) {
    adapter.None? || !adapter.value.enabled
  }

  /** `getAdapterState`: three fixed texts for absent, disabled and enabled. */
  function GetAdapterState(adapter: Option<Adapter>): (r: string)
    ensures r == "No soporta Bluetooth" <==> adapter.None?
    ensures r == "Bluetooth desactivado" <==> adapter.Some? && !adapter.value.enabled
    ensures r == "Bluetooth activado" <==> !AdapterUnavailable(adapter)
  {
    if adapter.None? then "No soporta Bluetooth"
    else if !adapter.value.enabled then "Bluetooth desactivado"
    else "Bluetooth activado"
  }

  // ---------------------------------------------------------------------------
  // Closing

  /** `closeConnectionInternally`: cancels the read job (so the pump is no longer active)
      and, whatever a `close` call throws, ends with every handle null. */
  function Close(s: Session): (r: Session)
    ensures NoHandles(r) && !r.pumpActive
    ensures r.state == s.state && r.nextHandle == s.nextHandle
    ensures r.received == s.received && r.sent == s.sent
    ensures !s.state.Connected? ==> Consistent(r)
  {
    s.(socket := None, outputStream := None, inputStream := None, readJob := None, pumpActive := false)
  }

  lemma CloseIdempotent(s: Session)
    ensures Close(Close(s)) == Close(s)
  {
  }

  /** The body of the job `disconnect` launches: close, then publish `Disconnected`. */
  function Disconnect(s: Session): (r: Session)
    ensures r.state == Disconnected && NoHandles(r) && !r.pumpActive
    ensures r.received == s.received && r.sent == s.sent
    ensures Consistent(r)
  {
    Close(s).(state := Disconnected)
  }

  /** Disconnecting twice is the same as disconnecting once. */
  lemma DisconnectIdempotent(s: Session)
    ensures Disconnect(Disconnect(s)) == Disconnect(s)
  {
  }

  // ---------------------------------------------------------------------------
  // Connecting

  /** What `getRemoteDevice(address)` does: hand out a device, throw
      `IllegalArgumentException` for an address the platform rejects, or give null. */
  datatype DeviceLookup = Resolved(device: RemoteDevice) | Rejected | Unresolved

  /** The background job `connectToDevice` launches, with what it captured. */
  datatype ConnectJob = ConnectJob(device: RemoteDevice, deviceName: string)

  datatype ConnectRequestResult = ConnectRequestResult(session: Session, job: Option<ConnectJob>)

  /** The synchronous part of `connectToDevice`: the adapter check, the device lookup and
      the `Connecting` state, returning the job it launches, if any. Only the state changes;
      no handle is touched before the job runs. */
  function ConnectRequest(s: Session, adapter: Option<Adapter>, address: string, lookup: DeviceLookup)
    : (r: ConnectRequestResult)
    ensures r.session == s.(state := r.session.state)
    ensures AdapterUnavailable(adapter) ==>
              r.session.state == Error(AdapterDisabledMessage) && r.job.None?
    ensures !AdapterUnavailable(adapter) && lookup.Rejected? ==>
              r.session.state == Error(InvalidAddressMessage) && r.job.None?
    ensures !AdapterUnavailable(adapter) && lookup.Unresolved? ==>
              r.job.None? &&
              r.session.state == (if s.state.Error? then s.state else Error(DeviceNotFoundMessage))
    ensures r.job.Some? <==> !AdapterUnavailable(adapter) && lookup.Resolved?
    ensures r.job.Some? ==>
              r.job.value == ConnectJob(lookup.device, lookup.device.name.GetOr(address)) &&
              r.session.state == Connecting(r.job.value.deviceName)
    ensures r.session.state.Connecting? ==> r.job.Some?
    ensures Consistent(s) ==> Consistent(r.session)
  {
    if AdapterUnavailable(adapter) then
      ConnectRequestResult(s.(state := Error(AdapterDisabledMessage)), None)
    else
      var afterLookup := if lookup.Rejected? then s.(state := Error(InvalidAddressMessage)) else s;
      match lookup
      case Resolved(device) =>
        var name := device.name.GetOr(address);
        ConnectRequestResult(afterLookup.(state := Connecting(name)), Some(ConnectJob(device, name)))
      case _ =>
        // a lookup error already published is not overwritten
        var settled := if afterLookup.state.Error? then afterLookup
                       else afterLookup.(state := Error(DeviceNotFoundMessage));
        ConnectRequestResult(settled, None)
  }

  /** `e.message?.take(30)` as it appears in the connect error text: a null message
      prints as "null". */
  function FailureReason(message: Option<string>): (r: string)
    ensures message.None? ==> r == "null"
    ensures message.Some? ==>
              |r| == (if |message.value| <= ReasonLength then |message.value| else ReasonLength) &&
              r == message.value[..|r|]
  {
    match message
    case None => "null"
    case Some(m) => if |m| <= ReasonLength then m else m[..ReasonLength]
  }

  /** How creating and connecting the RFCOMM socket and taking its streams ends. */
  datatype OpenOutcome = Opened | OpenIoFailure(message: Option<string>) | OpenSecurityFailure

  /** `startReceivingData`: cancel the previous read job and launch a new, active one. */
  function StartReceiving(s: Session): (r: Session)
    ensures r.readJob == Some(s.nextHandle) && r.pumpActive && r.nextHandle == s.nextHandle + 1
    ensures Consistent(s) ==> r.readJob != s.readJob
    ensures r.state == s.state && r.socket == s.socket && r.outputStream == s.outputStream &&
            r.inputStream == s.inputStream && r.received == s.received && r.sent == s.sent
    ensures Consistent(s) && s.socket.Some? ==> Consistent(r)
  {
    s.(readJob := Some(s.nextHandle), pumpActive := true, nextHandle := s.nextHandle + 1)
  }

  /** The body of the connect job: close any prior session, open the socket, then either
      publish `Connected` and start the read pump, or publish the error and close again. */
  function RunConnect(s: Session, job: ConnectJob, outcome: OpenOutcome): (r: Session)
    ensures Consistent(r)
    ensures r.received == s.received && r.sent == s.sent
    ensures outcome.Opened? ==>
              r.state == Connected(job.deviceName) && r.socket.Some? &&
              r.outputStream.Some? && r.inputStream.Some? && r.readJob.Some? && r.pumpActive
    // the prior session was closed first: every live handle afterwards is a new one
    ensures r.socket.Some? ==> s.nextHandle <= r.socket.value
    ensures r.readJob.Some? ==> s.nextHandle <= r.readJob.value
    ensures outcome.OpenIoFailure? ==>
              r.state == Error(ConnectFailedPrefix + FailureReason(outcome.message)) &&
              NoHandles(r) && !r.pumpActive
    ensures outcome.OpenSecurityFailure? ==>
              r.state == Error(SecurityMessage) && NoHandles(r) && !r.pumpActive
  {
    var closed := Close(s);
    match outcome
    case Opened =>
      var h := closed.nextHandle;
      StartReceiving(closed.(socket := Some(h), outputStream := Some(h), inputStream := Some(h),
                             nextHandle := h + 1, state := Connected(job.deviceName)))
    case OpenIoFailure(m) =>
      Close(closed.(state := Error(ConnectFailedPrefix + FailureReason(m))))
    case OpenSecurityFailure =>
      Close(closed.(state := Error(SecurityMessage)))
  }

  /** The scenario of a healthy device: enabled adapter, resolvable device named
      "ESP32-Test", socket opens; the states seen are `Connecting` then `Connected`,
      both with the device's name. */
  lemma SuccessfulConnectScenario(s: Session, adapter: Adapter, device: RemoteDevice)
    requires adapter.enabled && device.name == Some("ESP32-Test")
    ensures var req := ConnectRequest(s, Some(adapter), "AA:BB:CC:DD:EE:FF", Resolved(device));
            req.session.state == Connecting("ESP32-Test") && req.job.Some? &&
            RunConnect(req.session, req.job.value, Opened).state == Connected("ESP32-Test")
  {
  }

  /** Connecting again while connected: the request publishes `Connecting` and keeps the
      live session until the job runs; the job, however it ends, leaves no handle of the
      earlier session (each connect passes through `Connecting`, never `Connected` to
      `Connected`). */
  lemma ReconnectReplacesSession(s: Session, adapter: Adapter, address: string, device: RemoteDevice, outcome: OpenOutcome)
    requires Consistent(s) && s.state.Connected? && adapter.enabled
    ensures var req := ConnectRequest(s, Some(adapter), address, Resolved(device));
            req.session.state.Connecting? && req.session.socket == s.socket && req.job.Some? &&
            var r := RunConnect(req.session, req.job.value, outcome);
            r.socket != s.socket && r.readJob != s.readJob
  {
    var req := ConnectRequest(s, Some(adapter), address, Resolved(device));
    var r := RunConnect(req.session, req.job.value, outcome);
    assert s.socket.Some? && s.socket.value < s.nextHandle;
    assert s.readJob.Some? && s.readJob.value < s.nextHandle;
    assert req.session.nextHandle == s.nextHandle;
  }

  // ---------------------------------------------------------------------------
  // Receiving

  /** How one `inputStream.read(buffer)` ends: it fills the buffer with the bytes it returns
      (their count is the result; zero bytes is a result of 0), reports end of stream (-1),
      or throws an `IOException`. */
  datatype ReadOutcome = Bytes(data: seq<Byte>) | EndOfStream | ReadFailure

  /** The condition of the read loop: the job is active, the socket is connected, the
      input stream is there. */
  predicate PumpRuns(s: Session) {
    s.pumpActive && s.socket.Some? && s.inputStream.Some?
  }

  /** What the pump does after a positive read: publish the decoded text if it is not
      empty; then, as the check placed at the end of the loop body demands, force
      `Disconnected` unless an error or a disconnection is already published, and close. */
  function AfterChunk(s: Session, message: string): (r: Session)
    ensures NoHandles(r) && !r.pumpActive
  {
    var published := if message != "" then s.(received := s.received + [message]) else s;
    var settled :=
      if published.pumpActive && !published.state.Error? && !published.state.Disconnected?
      then published.(state := Disconnected) else published;
    Close(settled)
  }

  /** The read pump's coroutine body, run against the outcomes of its successive reads.
      When the outcomes run out while the loop still runs, the pump is blocked in a read
      and the session is as it stands; when the loop ends the coroutine completes and the
      pump is no longer active. */
  function Pump(s: Session, outcomes: seq<ReadOutcome>, decode: seq<Byte> -> string): (r: Session)
    decreases |outcomes|
  {
    if !PumpRuns(s) then s.(pumpActive := false)
    else if outcomes == [] then s
    else match outcomes[0]
      case Bytes(data) =>
        if |data| > 0 then Pump(AfterChunk(s, decode(data)), outcomes[1..], decode)
        else Close(s.(state := Disconnected)).(pumpActive := false)
      case EndOfStream =>
        Close(s.(state := Disconnected)).(pumpActive := false)
      case ReadFailure =>
        // no close here: the socket and streams stay set
        (if s.pumpActive then s.(state := Disconnected) else s).(pumpActive := false)
  }

  /** A positive read publishes exactly the decoded text of those bytes (when it is not
      empty), then ends the session: `Disconnected` unless an error or a disconnection was
      already published, every handle null. */
  lemma PumpPositiveRead(s: Session, data: seq<Byte>, rest: seq<ReadOutcome>, decode: seq<Byte> -> string)
    requires PumpRuns(s) && |data| > 0
    ensures var r := Pump(s, [Bytes(data)] + rest, decode);
            r.received == s.received + (if decode(data) != "" then [decode(data)] else []) &&
            r.state == (if s.state.Error? || s.state.Disconnected? then s.state else Disconnected) &&
            NoHandles(r) && !r.pumpActive && r.sent == s.sent
  {
    var outcomes := [Bytes(data)] + rest;
    assert outcomes[0] == Bytes(data) && outcomes[1..] == rest;
    var t := AfterChunk(s, decode(data));
    assert !PumpRuns(t);
  }

  /** A read of zero bytes or the end of the stream publishes `Disconnected` and closes,
      never an error, and publishes no message. */
  lemma PumpEndOfStream(s: Session, outcomes: seq<ReadOutcome>, decode: seq<Byte> -> string)
    requires PumpRuns(s) && outcomes != []
    requires outcomes[0].EndOfStream? || (outcomes[0].Bytes? && |outcomes[0].data| == 0)
    ensures var r := Pump(s, outcomes, decode);
            r.state == Disconnected && NoHandles(r) && !r.pumpActive &&
            r.received == s.received && r.sent == s.sent
  {
  }

  /** A read that throws while the pump is active publishes `Disconnected` and ends the
      pump without closing: socket, streams and job stay as they were. */
  lemma PumpReadFailure(s: Session, outcomes: seq<ReadOutcome>, decode: seq<Byte> -> string)
    requires PumpRuns(s) && outcomes != [] && outcomes[0].ReadFailure?
    ensures Pump(s, outcomes, decode) == s.(state := Disconnected, pumpActive := false)
  {
  }

  /** The pump handles at most one read: whatever follows the first outcome is never
      consumed, so it publishes at most one message, and keeps what was published before. */
  lemma {:induction false} PumpConsumesAtMostOne(s: Session, outcomes: seq<ReadOutcome>, decode: seq<Byte> -> string)
    requires outcomes != []
    ensures Pump(s, outcomes, decode) == Pump(s, outcomes[..1], decode)
  {
    if PumpRuns(s) && outcomes[0].Bytes? && |outcomes[0].data| > 0 {
      var t := AfterChunk(s, decode(outcomes[0].data));
      assert !PumpRuns(t);
      assert outcomes[..1][0] == outcomes[0] && outcomes[..1][1..] == [];
    }
  }

  lemma PumpEmitsAtMostOne(s: Session, outcomes: seq<ReadOutcome>, decode: seq<Byte> -> string)
    ensures var r := Pump(s, outcomes, decode);
            s.received <= r.received && |r.received| <= |s.received| + 1 && r.sent == s.sent
  {
    if PumpRuns(s) && outcomes != [] && outcomes[0].Bytes? && |outcomes[0].data| > 0 {
      PumpPositiveRead(s, outcomes[0].data, outcomes[1..], decode);
      assert [Bytes(outcomes[0].data)] + outcomes[1..] == outcomes;
    }
  }

  /** The pump keeps the session consistent. */
  lemma PumpKeepsConsistent(s: Session, outcomes: seq<ReadOutcome>, decode: seq<Byte> -> string)
    requires Consistent(s)
    ensures Consistent(Pump(s, outcomes, decode))
  {
    if PumpRuns(s) && outcomes != [] && outcomes[0].Bytes? && |outcomes[0].data| > 0 {
      PumpPositiveRead(s, outcomes[0].data, outcomes[1..], decode);
      assert [Bytes(outcomes[0].data)] + outcomes[1..] == outcomes;
    }
  }

  /** The scenario of a peer that sends ten bytes and then closes the stream: one message
      with those bytes decoded, then `Disconnected`; the end of stream is never read,
      since the pump already closed the session after the first chunk. */
  lemma TenBytesThenCloseScenario(s: Session, data: seq<Byte>, decode: seq<Byte> -> string)
    requires PumpRuns(s) && s.state.Connected? && |data| == 10 && decode(data) != ""
    ensures var r := Pump(s, [Bytes(data), EndOfStream], decode);
            r.received == s.received + [decode(data)] && r.state == Disconnected && NoHandles(r)
  {
    PumpPositiveRead(s, data, [EndOfStream], decode);
    assert [Bytes(data)] + [EndOfStream] == [Bytes(data), EndOfStream];
  }

  // ---------------------------------------------------------------------------
  // Sending

  /** The background job `sendData` launches. */
  datatype SendJob = SendJob(data: string)

  datatype SendRequestResult = SendRequestResult(session: Session, job: Option<SendJob>)

  /** The synchronous part of `sendData`: without an output stream or a connected socket
      it publishes the not-connected error and launches nothing; otherwise it launches the
      write and changes nothing yet. Nothing is written synchronously. */
  function SendRequest(s: Session, data: string): (r: SendRequestResult)
    ensures r.session.sent == s.sent
    ensures s.outputStream.None? || s.socket.None? ==>
              r.session == s.(state := Error(NotConnectedMessage)) && r.job.None?
    ensures s.outputStream.Some? && s.socket.Some? ==>
              r.session == s && r.job == Some(SendJob(data))
    ensures Consistent(s) ==> Consistent(r.session)
  {
    if s.outputStream.None? || s.socket.None? then
      SendRequestResult(s.(state := Error(NotConnectedMessage)), None)
    else
      SendRequestResult(s, Some(SendJob(data)))
  }

  /** How `write` followed by `flush` ends. */
  datatype WriteOutcome = WriteOk | WriteFailed | FlushFailed

  /** The body of the send job: write and flush through the output stream current at that
      moment (nothing at all if it has been nulled meanwhile). A failure publishes the send
      error and closes nothing. */
  function RunSend(s: Session, job: SendJob, outcome: WriteOutcome): (r: Session)
    ensures r.socket == s.socket && r.outputStream == s.outputStream &&
            r.inputStream == s.inputStream && r.readJob == s.readJob &&
            r.pumpActive == s.pumpActive && r.received == s.received
    ensures s.outputStream.None? ==> r == s
    ensures s.outputStream.Some? ==>
              r.sent == s.sent + (if outcome.WriteFailed? then [] else [job.data]) &&
              r.state == (if outcome.WriteOk? then s.state else Error(SendFailedMessage))
    ensures Consistent(s) ==> Consistent(r)
  {
    if s.outputStream.None? then s
    else
      var written := if outcome.WriteFailed? then s else s.(sent := s.sent + [job.data]);
      if outcome.WriteOk? then written else written.(state := Error(SendFailedMessage))
  }

  /** Sending while idle publishes only the not-connected error and writes nothing. */
  lemma SendWhileIdleScenario(data: string)
    ensures SendRequest(Initial(), data) ==
            SendRequestResult(Initial().(state := Error(NotConnectedMessage)), None)
  {
  }

  /** The asymmetry between reading and sending: after a failed read the published state is
      `Disconnected`, yet the socket and output stream are still set, so a following send is
      accepted rather than refused as not connected. */
  lemma SendAcceptedAfterReadFailure(s: Session, outcomes: seq<ReadOutcome>, decode: seq<Byte> -> string, data: string)
    requires Consistent(s) && PumpRuns(s) && outcomes != [] && outcomes[0].ReadFailure?
    ensures var r := Pump(s, outcomes, decode);
            r.state == Disconnected && SendRequest(r, data).job == Some(SendJob(data))
  {
    PumpReadFailure(s, outcomes, decode);
  }
}
