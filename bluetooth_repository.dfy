/** `BluetoothRepository` as an object: the nullable handle fields it reassigns, the state
    it publishes and the events it emits. Each method is proved to move the object's
    `Snapshot()` exactly as the matching function of `ConnectionSession` does.
    The platform is injected: the adapter as it stands at the call, the device lookup,
    and the outcomes of opening, reading and writing are parameters. */
module Repository {
  import opened Platform
  import opened ConnectionSession

  class BluetoothRepository {
    var state: ConnectionState
    var socket: Option<Handle>
    var outputStream: Option<Handle>
    var inputStream: Option<Handle>
    var readJob: Option<Handle>
    /** `isActive` of the most recently launched read pump. */
    var pumpActive: bool
    /** Source of fresh handles for sockets and jobs. */
    var nextHandle: nat
    /** The messages emitted on the received-data event stream, in order. */
    var received: seq<string>
    /** The data written (and handed to flush) on output streams, in order. */
    var sent: seq<string>

    function Snapshot(): (r: Session)
      reads this
    {
      Session(state, socket, outputStream, inputStream, readJob, pumpActive, nextHandle, received, sent)
    }

    ghost predicate Valid()
      reads this
    {
      Consistent(Snapshot())
    }

    constructor ()
      ensures Valid() && Snapshot() == Initial()
    {
      state := Idle;
      socket, outputStream, inputStream, readJob := None, None, None, None;
      pumpActive := false;
      nextHandle := 0;
      received, sent := [], [];
    }

    /** `closeConnectionInternally`. */
    method CloseConnectionInternally()
      modifies this
      ensures Snapshot() == Close(old(Snapshot()))
    {
      // cancelling the job clears the pump's isActive
      pumpActive := false;
      readJob := None;
      // whatever the close calls throw, the finally block nulls the three handles
      outputStream := None;
      inputStream := None;
      socket := None;
    }

    /** The synchronous part of `connectToDevice`; returns the background job it launches. */
    method ConnectToDevice(deviceAddress: string, adapter: Option<Adapter>, lookup: DeviceLookup)
      returns (job: Option<ConnectJob>)
      requires Valid()
      modifies this
      ensures Valid()
      ensures ConnectRequestResult(Snapshot(), job) ==
              ConnectRequest(old(Snapshot()), adapter, deviceAddress, lookup)
    {
      if adapter.None? || !adapter.value.enabled {
        state := Error(AdapterDisabledMessage);
        return None;
      }
      var device: Option<RemoteDevice>;
      match lookup {
        case Resolved(d) => device := Some(d);
        case Rejected =>
          state := Error(InvalidAddressMessage);
          device := None;
        case Unresolved => device := None;
      }
      if device.None? {
        if !state.Error? {
          state := Error(DeviceNotFoundMessage);
        }
        return None;
      }
      var deviceName := device.value.name.GetOr(deviceAddress);
      state := Connecting(deviceName);
      job := Some(ConnectJob(device.value, deviceName));
    }

    /** The body of the job `connectToDevice` launches. */
    method RunConnectJob(job: ConnectJob, outcome: OpenOutcome)
      modifies this
      ensures Valid()
      ensures Snapshot() == RunConnect(old(Snapshot()), job, outcome)
    {
      CloseConnectionInternally();
      match outcome {
        case Opened =>
          socket := Some(nextHandle);
          nextHandle := nextHandle + 1;
          outputStream := socket;
          inputStream := socket;
          state := Connected(job.deviceName);
          StartReceivingData();
        case OpenIoFailure(m) =>
          state := Error(ConnectFailedPrefix + FailureReason(m));
          CloseConnectionInternally();
        case OpenSecurityFailure =>
          state := Error(SecurityMessage);
          CloseConnectionInternally();
      }
    }

    /** `startReceivingData`: replaces the read job by a new, active one. */
    method StartReceivingData()
      modifies this
      ensures Snapshot() == StartReceiving(old(Snapshot()))
    {
      pumpActive := false;
      readJob := Some(nextHandle);
      nextHandle := nextHandle + 1;
      pumpActive := true;
    }

    /** The body of the read job, run against the outcomes of its successive reads.
        Each read fills the 1024-byte buffer with the bytes it returns; `decode` stands
        for the platform's decoding of a byte range as text. */
    method RunReadPump(outcomes: seq<ReadOutcome>, decode: seq<Byte> -> string)
      requires Valid()
      requires forall k :: 0 <= k < |outcomes| && outcomes[k].Bytes? ==> |outcomes[k].data| <= BufferSize
      modifies this
      ensures Valid()
      ensures Snapshot() == Pump(old(Snapshot()), outcomes, decode)
    {
      PumpKeepsConsistent(Snapshot(), outcomes, decode);
      var buffer := new Byte[BufferSize];
      var i := 0;
      while pumpActive && socket.Some? && inputStream.Some?
        invariant 0 <= i <= |outcomes|
        invariant Pump(Snapshot(), outcomes[i..], decode) == Pump(old(Snapshot()), outcomes, decode)
        decreases |outcomes| - i
      {
        if i == |outcomes| {
          // still blocked in read
          return;
        }
        var outcome := outcomes[i];
        assert outcomes[i..][0] == outcome && outcomes[i..][1..] == outcomes[i + 1..];
        i := i + 1;
        match outcome {
          case Bytes(data) =>
            var n := |data|;
            if n > 0 {
              forall k | 0 <= k < n {
                buffer[k] := data[k];
              }
              assert buffer[..n] == data;
              var incomingMessage := decode(buffer[..n]);
              if incomingMessage != "" {
                received := received + [incomingMessage];
              }
            } else {
              state := Disconnected;
              CloseConnectionInternally();
              break;
            }
          case EndOfStream =>
            state := Disconnected;
            CloseConnectionInternally();
            break;
          case ReadFailure =>
            if pumpActive {
              state := Disconnected;
            }
            break;
        }
        if pumpActive && !state.Error? && !state.Disconnected? {
          state := Disconnected;
        }
        CloseConnectionInternally();
      }
      // the coroutine completes
      pumpActive := false;
    }

    /** The synchronous part of `sendData`; returns the background write it launches. */
    method SendData(data: string) returns (job: Option<SendJob>)
      requires Valid()
      modifies this
      ensures Valid()
      ensures SendRequestResult(Snapshot(), job) == SendRequest(old(Snapshot()), data)
    {
      if outputStream.None? || socket.None? {
        state := Error(NotConnectedMessage);
        return None;
      }
      job := Some(SendJob(data));
    }

    /** The body of the job `sendData` launches. */
    method RunSendJob(job: SendJob, outcome: WriteOutcome)
      requires Valid()
      modifies this
      ensures Valid()
      ensures Snapshot() == RunSend(old(Snapshot()), job, outcome)
    {
      if outputStream.Some? {
        match outcome {
          case WriteOk => sent := sent + [job.data];
          case WriteFailed => state := Error(SendFailedMessage);
          case FlushFailed =>
            sent := sent + [job.data];
            state := Error(SendFailedMessage);
        }
      }
    }

    /** The body of the job `disconnect` launches (the call itself does nothing else). */
    method Disconnect()
      modifies this
      ensures Valid()
      ensures Snapshot() == ConnectionSession.Disconnect(old(Snapshot()))
    {
      CloseConnectionInternally();
      state := Disconnected;
    }
  }
}
