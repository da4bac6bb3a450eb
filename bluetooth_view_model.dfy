/** `BluetoothViewModel`: checks the address before delegating to the repository, frames
    outgoing messages, and keeps the communication log and its own copy of the state.
    The two collectors of `init` are methods that deliver the repository's next value;
    the clock is a `timestamp` parameter. */
module ConnectionViewModel {
  import opened Platform
  import opened ConnectionSession
  import opened MacAddress
  import opened Repository

  /** One line of the communication log; received and sent data both carry the "TX" label. */
  function LogEntry(timestamp: string, data: string): (r: string)
    ensures |r| == |timestamp| + 5 + |data|
    ensures r[..|timestamp|] == timestamp && r[|timestamp|..|timestamp| + 5] == " TX: "
    ensures r[|timestamp| + 5..] == data
  {
    timestamp + " TX: " + data
  }

  /** The application's framing: every outgoing message ends with a newline. */
  function Frame(message: string): (r: string)
    ensures |r| == |message| + 1 && r[..|message|] == message && r[|message|] == '\n'
  {
    message + "\n"
  }

  class BluetoothViewModel {
    const repository: BluetoothRepository
    var connectionState: ConnectionState
    var receivedDataLog: seq<string>
    /** The last repository state the state collector has delivered. */
    var observedState: ConnectionState
    /** How many of the repository's emitted messages the data collector has delivered. */
    var delivered: nat

    ghost predicate Valid()
      reads this, repository
    {
      repository.Valid() && delivered <= |repository.received|
    }

    /** Construction, with the collectors' first delivery (the repository's initial `Idle`). */
    constructor ()
      ensures Valid() && fresh(repository) && repository.Snapshot() == Initial()
      ensures connectionState == Idle && receivedDataLog == []
      ensures observedState == Idle && delivered == 0
    {
      repository := new BluetoothRepository();
      connectionState := Idle;
      receivedDataLog := [];
      observedState := Idle;
      delivered := 0;
    }

    /** `connect`: a blank or malformed address publishes the invalid-address error here
        and never reaches the repository; a well-formed one clears the log and delegates. */
    method Connect(deviceAddress: string, adapter: Option<Adapter>, lookup: DeviceLookup)
      returns (job: Option<ConnectJob>)
      requires Valid()
      modifies this, repository
      ensures Valid()
      ensures observedState == old(observedState) && delivered == old(delivered)
      ensures !IsAcceptedAddress(deviceAddress) ==>
                connectionState == Error(InvalidAddressMessage) && job.None? &&
                receivedDataLog == old(receivedDataLog) &&
                repository.Snapshot() == old(repository.Snapshot())
      ensures IsAcceptedAddress(deviceAddress) ==>
                connectionState == old(connectionState) && receivedDataLog == [] &&
                ConnectRequestResult(repository.Snapshot(), job) ==
                ConnectRequest(old(repository.Snapshot()), adapter, deviceAddress, lookup)
    {
      if IsBlank(deviceAddress) || !MatchesMacPattern(deviceAddress) {
        connectionState := Error(InvalidAddressMessage);
        return None;
      }
      receivedDataLog := [];
      job := repository.ConnectToDevice(deviceAddress, adapter, lookup);
    }

    /** `disconnect`: delegates; the state arrives later through the state collector. */
    method Disconnect()
      requires Valid()
      modifies repository
      ensures Valid()
      ensures repository.Snapshot() == ConnectionSession.Disconnect(old(repository.Snapshot()))
    {
      repository.Disconnect();
    }

    /** `sendMessage`: a blank message does nothing; otherwise the framed message goes to
        the repository and the unframed one is appended to the log, whether or not the
        repository accepts the send. */
    method SendMessage(message: string, timestamp: string) returns (job: Option<SendJob>)
      requires Valid()
      modifies this, repository
      ensures Valid()
      ensures connectionState == old(connectionState)
      ensures observedState == old(observedState) && delivered == old(delivered)
      ensures IsBlank(message) ==>
                job.None? && receivedDataLog == old(receivedDataLog) &&
                repository.Snapshot() == old(repository.Snapshot())
      ensures !IsBlank(message) ==>
                receivedDataLog == old(receivedDataLog) + [LogEntry(timestamp, message)] &&
                SendRequestResult(repository.Snapshot(), job) ==
                SendRequest(old(repository.Snapshot()), Frame(message))
    {
      if IsBlank(message) {
        return None;
      }
      var fullMessage := Frame(message);
      job := repository.SendData(fullMessage);
      receivedDataLog := receivedDataLog + [LogEntry(timestamp, message)];
    }

    /** The state collector: a state flow delivers each new value that differs from the
        previous one, and the view-model's state is overwritten by it. */
    method CollectConnectionState()
      requires Valid()
      modifies this
      ensures Valid()
      ensures receivedDataLog == old(receivedDataLog) && delivered == old(delivered)
      ensures observedState == repository.state
      ensures connectionState == if repository.state != old(observedState)
                                 then repository.state else old(connectionState)
    {
      if repository.state != observedState {
        connectionState := repository.state;
        observedState := repository.state;
      }
    }

    /** The received-data collector: the next emitted message, if there is one, becomes
        exactly one entry at the end of the log. */
    method CollectReceivedData(timestamp: string) returns (collected: bool)
      requires Valid()
      modifies this
      ensures Valid()
      ensures connectionState == old(connectionState) && observedState == old(observedState)
      ensures collected <==> old(delivered) < |repository.received|
      ensures collected ==>
                delivered == old(delivered) + 1 &&
                receivedDataLog == old(receivedDataLog) +
                                   [LogEntry(timestamp, repository.received[old(delivered)])]
      ensures !collected ==> delivered == old(delivered) && receivedDataLog == old(receivedDataLog)
    {
      collected := delivered < |repository.received|;
      if collected {
        receivedDataLog := receivedDataLog + [LogEntry(timestamp, repository.received[delivered])];
        delivered := delivered + 1;
      }
    }
  }
}
