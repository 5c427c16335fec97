/**
 * `Client`, the initiator role: it searches for the responder, bonds with
 * it, connects, greets it with a ping and shows every frame that arrives.
 * `ClientModel` is reached only through calls.
 */
module ClientRole {
  import opened Wrappers
  import opened Json
  import opened App
  import opened Envelope

  /**
   * The status report a frame asks for: `pwr=1` for a frame that starts
   * with `@1`, `pwr=0` for one that starts with `@0`, none for any other.
   */
  function StatusRequestFor(frame: string): (r: Option<nat>)
    ensures r == Some(1) <==> |frame| >= 2 && frame[0] == '@' && frame[1] == '1'
    ensures r == Some(0) <==> |frame| >= 2 && frame[0] == '@' && frame[1] == '0'
    ensures r.Some? ==> r == Some(0) || r == Some(1)
  {
    if |frame| >= 1 && frame[0] == '@' then
      if |frame| >= 2 && frame[1] == '1' then Some(1)
      else if |frame| >= 2 && frame[1] == '0' then Some(0)
      else None
    else None
  }

  function StatusCalls(frame: string): seq<Call> {
    match StatusRequestFor(frame)
    case None => []
    case Some(p) => [StatusRequest(p)]
  }

  /** A chat record never reads as a control frame: its text starts with `{`. */
  lemma EnvelopeIsNotControl(e: Envelope)
    requires PlainAscii(e.name) && PlainAscii(e.text)
    ensures StatusRequestFor(FromCharCodes(WireBytes(Frame(e)))) == None
  {
    SerializeAscii(e);
    WireAscii(Serialize(e));
    assert Serialize(e)[0] == '{';
  }

  /** From index `from` on, the first call that sends anything is the ping. */
  ghost predicate PingFirst(log: seq<Call>, from: nat) {
    exists k :: from <= k < |log| && log[k].SendPing?
      && forall j :: from <= j < k ==> !IsSend(log[j])
  }

  class Client {
    const serviceUUID: string
    var discovering: bool
    var globalSocket: Option<Socket>
    /** Assigned by nothing in the class: `ClientModel` may set it. */
    var chatServerDevice: Option<Device>
    /** Every outward call made so far, in order. */
    var calls: seq<Call>

    /** The UUID given to the constructor is ignored: the fixed one is used. */
    constructor(serviceUUID: string)
      ensures this.serviceUUID == ServiceUuid
      ensures !discovering && globalSocket == None && chatServerDevice == None && calls == []
    {
      this.serviceUUID := ServiceUuid;
      discovering := false;
      globalSocket := None;
      chatServerDevice := None;
      calls := [];
    }

    method SetDiscovering(discoveringInProgress: bool)
      modifies this
      ensures discovering == discoveringInProgress
      ensures globalSocket == old(globalSocket) && chatServerDevice == old(chatServerDevice)
      ensures calls == old(calls) + [SetDiscoveringProgress(discoveringInProgress)]
    {
      discovering := discoveringInProgress;
      calls := calls + [SetDiscoveringProgress(discoveringInProgress)];
    }

    method GetDiscovering() returns (d: bool)
      ensures d == discovering
    {
      d := discovering;
    }

    method SearchServer()
      modifies this
      ensures calls == old(calls) + [App.SearchServer]
      ensures discovering == old(discovering) && globalSocket == old(globalSocket)
      ensures chatServerDevice == old(chatServerDevice)
    {
      calls := calls + [App.SearchServer];
    }

    method AddDeviceToList(device: Device)
      modifies this
      ensures calls == old(calls) + [App.AddDeviceToList(device)]
      ensures discovering == old(discovering) && globalSocket == old(globalSocket)
      ensures chatServerDevice == old(chatServerDevice)
    {
      calls := calls + [App.AddDeviceToList(device)];
    }

    /**
     * `stopServerSearching`: with an address, the discovery is stopped with
     * a continuation that bonds with that address; without one, it is only stopped.
     */
    method StopServerSearching(address: Option<string>)
      modifies this
      ensures calls == old(calls) + [StopSearching(address)]
      ensures discovering == old(discovering) && globalSocket == old(globalSocket)
      ensures chatServerDevice == old(chatServerDevice)
    {
      calls := calls + [StopSearching(address)];
    }

    /** The continuation of a stop with an address: bond with it, then connect. */
    method StartBonding(address: string)
      modifies this
      ensures calls == old(calls) + [App.StartBonding(address)]
      ensures discovering == old(discovering) && globalSocket == old(globalSocket)
      ensures chatServerDevice == old(chatServerDevice)
    {
      calls := calls + [App.StartBonding(address)];
    }

    /** The continuation of a bond: connect to the bonded device's chat service. */
    method ConnectToService(device: Device)
      modifies this
      ensures calls == old(calls) + [App.ConnectToService(device, serviceUUID)]
      ensures discovering == old(discovering) && globalSocket == old(globalSocket)
      ensures chatServerDevice == old(chatServerDevice)
    {
      calls := calls + [App.ConnectToService(device, serviceUUID)];
    }

    /**
     * `connectToServiceSuccess`: the socket is kept, the connection is on,
     * the chat page shows the device's name, and the ping goes out last.
     */
    method ConnectToServiceSuccess(adapterName: string, device: Device, socket: Socket)
      modifies this
      ensures globalSocket == Some(socket)
      ensures calls == old(calls) + [SetConnection(true), ShowChatPage(Some(device.name)), App.SendPing(adapterName, Some(socket))]
      ensures PingFirst(calls, |old(calls)|)
      ensures discovering == old(discovering) && chatServerDevice == old(chatServerDevice)
    {
      globalSocket := Some(socket);
      calls := calls + [SetConnection(true), ShowChatPage(Some(device.name))];
      SendPing(adapterName);
      assert calls[|old(calls)| + 2].SendPing?;
    }

    method ConnectToServiceError(message: string)
      modifies this
      ensures calls == old(calls) + [LogError("Client_connectToServiceError: " + message)]
      ensures discovering == old(discovering) && globalSocket == old(globalSocket)
      ensures chatServerDevice == old(chatServerDevice)
    {
      calls := calls + [LogError("Client_connectToServiceError: " + message)];
    }

    /**
     * `onmessage`: the bytes become text one character each; a control
     * prefix asks for a status report, and every frame is displayed as it came.
     */
    method OnSocketMessage(data: seq<int8>)
      modifies this
      ensures calls == old(calls) + StatusCalls(FromCharCodes(data)) + [DisplayFrame(FromCharCodes(data))]
      ensures discovering == old(discovering) && globalSocket == old(globalSocket)
      ensures chatServerDevice == old(chatServerDevice)
    {
      var recvmsg := ReadFrame(data);
      var pwr := StatusRequestFor(recvmsg);
      if pwr.Some? {
        calls := calls + [StatusRequest(pwr.value)];
      }
      calls := calls + [DisplayFrame(recvmsg)];
    }

    method OnSocketError(socket: Socket)
      modifies this
      ensures calls == old(calls) + [LogError("Client onerror"), Close(socket)]
      ensures discovering == old(discovering) && globalSocket == old(globalSocket)
      ensures chatServerDevice == old(chatServerDevice)
    {
      calls := calls + [LogError("Client onerror"), Close(socket)];
    }

    /** `onclose`: the connection is off and the server gone; the socket field is left as it was. */
    method OnSocketClose()
      modifies this
      ensures calls == old(calls) + [SetConnection(false), ServerDisconnected]
      ensures discovering == old(discovering) && globalSocket == old(globalSocket)
      ensures chatServerDevice == old(chatServerDevice)
    {
      calls := calls + [SetConnection(false), ServerDisconnected];
    }

    method SendPing(adapterName: string)
      modifies this
      ensures calls == old(calls) + [App.SendPing(adapterName, globalSocket)]
      ensures discovering == old(discovering) && globalSocket == old(globalSocket)
      ensures chatServerDevice == old(chatServerDevice)
    {
      calls := calls + [App.SendPing(adapterName, globalSocket)];
    }

    method SendMessage(adapterName: string, message: string)
      modifies this
      ensures calls == old(calls) + [App.SendMessage(adapterName, globalSocket, message)]
      ensures discovering == old(discovering) && globalSocket == old(globalSocket)
      ensures chatServerDevice == old(chatServerDevice)
    {
      calls := calls + [App.SendMessage(adapterName, globalSocket, message)];
    }

    method SendBye(adapterName: string)
      modifies this
      ensures calls == old(calls) + [App.SendBye(adapterName, globalSocket)]
      ensures discovering == old(discovering) && globalSocket == old(globalSocket)
      ensures chatServerDevice == old(chatServerDevice)
    {
      calls := calls + [App.SendBye(adapterName, globalSocket)];
    }

    method DestroyBonding()
      modifies this
      ensures calls == old(calls) + [App.DestroyBonding(chatServerDevice)]
      ensures discovering == old(discovering) && globalSocket == old(globalSocket)
      ensures chatServerDevice == old(chatServerDevice)
    {
      calls := calls + [App.DestroyBonding(chatServerDevice)];
    }
  }
}
