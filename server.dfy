/**
 * `Server`, the responder role: it registers the chat service, counts the
 * clients that connect, keeps the last socket and the service handler,
 * and reads the frames that arrive.
 */
module ServerRole {
  import opened Wrappers
  import opened Json
  import opened App
  import opened Envelope
  import ServerModel

  class Server {
    const serviceUUID: string
    var numberOfClients: nat
    var globalSocket: Option<Socket>
    var globalRecordHandler: Option<Handler>
    /** Every outward call made so far, in order. */
    var calls: seq<Call>

    /** The UUID given to the constructor is ignored: the fixed one is used. */
    constructor(serviceUUID: string)
      ensures this.serviceUUID == ServiceUuid
      ensures numberOfClients == 0 && globalSocket == None && globalRecordHandler == None
      ensures calls == []
    {
      this.serviceUUID := ServiceUuid;
      numberOfClients := 0;
      globalSocket := None;
      globalRecordHandler := None;
      calls := [];
    }

    method GetNumberOfClients() returns (n: nat)
      ensures n == numberOfClients
    {
      n := numberOfClients;
    }

    /** `registerServer`: a request only while no client is connected; nothing else changes. */
    method RegisterServer(thrown: Option<string>)
      modifies this
      ensures calls == old(calls) + ServerModel.RegisterServer(old(numberOfClients), serviceUUID, thrown)
      ensures numberOfClients == old(numberOfClients) && globalSocket == old(globalSocket)
      ensures globalRecordHandler == old(globalRecordHandler)
    {
      calls := calls + ServerModel.RegisterServer(numberOfClients, serviceUUID, thrown);
    }

    /** The registration error callback: the error is logged. */
    method OnRegisterError(message: string)
      modifies this
      ensures calls == old(calls) + [LogError(message)]
      ensures numberOfClients == old(numberOfClients) && globalSocket == old(globalSocket)
      ensures globalRecordHandler == old(globalRecordHandler)
    {
      calls := calls + [LogError(message)];
    }

    /** `registerServerSuccess`: the handler is kept (its `onconnect` installed) and the chat page shown. */
    method RegisterServerSuccess(recordHandler: Handler)
      modifies this
      ensures globalRecordHandler == Some(recordHandler)
      ensures calls == old(calls) + [ShowChatPage(None)]
      ensures numberOfClients == old(numberOfClients) && globalSocket == old(globalSocket)
    {
      globalRecordHandler := Some(recordHandler);
      calls := calls + [ShowChatPage(None)];
    }

    /** `onconnect`: one more client, its socket replaces the last one, and the connection is on; no ping. */
    method OnConnect(socket: Socket)
      modifies this
      ensures numberOfClients == old(numberOfClients) + 1
      ensures globalSocket == Some(socket)
      ensures globalRecordHandler == old(globalRecordHandler)
      ensures calls == old(calls) + [SetConnection(true)]
    {
      numberOfClients := numberOfClients + 1;
      globalSocket := Some(socket);
      calls := calls + [SetConnection(true)];
    }

    /**
     * `onmessage` of any accepted socket: the bytes become text one character
     * each, the text is parsed and its four properties are displayed, still
     * percent-encoded; a frame that does not parse throws and shows nothing.
     */
    method OnSocketMessage(data: seq<int8>) returns (thrown: Option<JsonError>)
      modifies this
      ensures var r := ReadFields(FromCharCodes(data));
        && (r.Success? ==> thrown == None && calls == old(calls) + [DisplayFields(r.value)])
        && (r.Failure? ==> thrown == Some(r.error) && calls == old(calls))
      ensures numberOfClients == old(numberOfClients) && globalSocket == old(globalSocket)
      ensures globalRecordHandler == old(globalRecordHandler)
    {
      var frame := ReadFrame(data);
      match ReadFields(frame)
      case Failure(e) =>
        thrown := Some(e);
      case Success(fields) =>
        calls := calls + [DisplayFields(fields)];
        thrown := None;
    }

    /** `onerror`: the error is logged and that socket closed. */
    method OnSocketError(socket: Socket)
      modifies this
      ensures calls == old(calls) + [LogError("Server onerror"), Close(socket)]
      ensures numberOfClients == old(numberOfClients) && globalSocket == old(globalSocket)
      ensures globalRecordHandler == old(globalRecordHandler)
    {
      calls := calls + [LogError("Server onerror"), Close(socket)];
    }

    /**
     * `onclose`: the connection is off and the client gone. The client count
     * stays, and so does the socket field: the assignment to it runs on the
     * socket, not on the server.
     */
    method OnSocketClose()
      modifies this
      ensures calls == old(calls) + [SetConnection(false), ClientDisconnected]
      ensures numberOfClients == old(numberOfClients) && globalSocket == old(globalSocket)
      ensures globalRecordHandler == old(globalRecordHandler)
    {
      calls := calls + [SetConnection(false), ClientDisconnected];
    }

    /** `unregisterChatServer`, with `throws` telling whether `unregister` throws at once. */
    method UnregisterChatServer(throws: bool)
      modifies this
      ensures match ServerModel.UnregisterChatServer(old(globalRecordHandler), throws)
        case UnregisterRequested(h) =>
          calls == old(calls) + [Unregister(h)] && numberOfClients == old(numberOfClients)
        case ButtonsShown =>
          calls == old(calls) + [ShowStartButtons] && numberOfClients == old(numberOfClients)
        case ErrorReported =>
          calls == old(calls) + [LogError("Server_unregisterChatServerError"), RestartBluetooth]
          && numberOfClients == 0
      ensures globalSocket == old(globalSocket) && globalRecordHandler == old(globalRecordHandler)
    {
      match ServerModel.UnregisterChatServer(globalRecordHandler, throws)
      case UnregisterRequested(h) =>
        calls := calls + [Unregister(h)];
      case ButtonsShown =>
        calls := calls + [ShowStartButtons];
      case ErrorReported =>
        UnregisterChatServerError();
    }

    /** Unregistration success: no handler, no client, and the adapter is restarted. */
    method UnregisterChatServerSuccess()
      modifies this
      ensures globalRecordHandler == None && numberOfClients == 0
      ensures globalSocket == old(globalSocket)
      ensures calls == old(calls) + [RestartBluetooth]
    {
      globalRecordHandler := None;
      numberOfClients := 0;
      calls := calls + [RestartBluetooth];
    }

    /** Unregistration error: no client, the handler kept, and the adapter is restarted. */
    method UnregisterChatServerError()
      modifies this
      ensures numberOfClients == 0
      ensures globalRecordHandler == old(globalRecordHandler) && globalSocket == old(globalSocket)
      ensures calls == old(calls) + [LogError("Server_unregisterChatServerError"), RestartBluetooth]
    {
      calls := calls + [LogError("Server_unregisterChatServerError")];
      numberOfClients := 0;
      calls := calls + [RestartBluetooth];
    }

    /**
     * `sendMessage` on the last accepted socket, under the adapter's present
     * name and with the state that socket reports now.
     */
    method SendMessage(adapterName: string, state: SocketState, message: string, thrown: ServerModel.Throw)
      modifies this
      ensures !ServerModel.IsOpen(globalSocket, state) ==> calls == old(calls)
      ensures ServerModel.IsOpen(globalSocket, state) && thrown.NoThrow? ==>
        calls == old(calls) + [Write(globalSocket.value, Frame(MessageEnvelope(adapterName, message))), MessageCallback(message)]
      ensures ServerModel.IsOpen(globalSocket, state) && thrown.WriteThrows? ==>
        calls == old(calls) + [LogError("sendMessage: " + thrown.message)]
      ensures ServerModel.IsOpen(globalSocket, state) && thrown.CallbackThrows? ==>
        calls == old(calls) + [Write(globalSocket.value, Frame(MessageEnvelope(adapterName, message))), MessageCallback(message),
                               LogError("sendMessage: " + thrown.message)]
      ensures numberOfClients == old(numberOfClients) && globalSocket == old(globalSocket)
      ensures globalRecordHandler == old(globalRecordHandler)
    {
      var sent := ServerModel.SendMessage(adapterName, globalSocket, state, message, thrown);
      calls := calls + sent;
    }

    /** `sendBye` on the last accepted socket. */
    method SendBye(adapterName: string, state: SocketState, writeThrows: Option<string>)
      modifies this
      ensures !ServerModel.IsOpen(globalSocket, state) ==> calls == old(calls)
      ensures ServerModel.IsOpen(globalSocket, state) && writeThrows.None? ==>
        calls == old(calls) + [Write(globalSocket.value, Frame(ByeEnvelope(adapterName)))]
      ensures ServerModel.IsOpen(globalSocket, state) && writeThrows.Some? ==>
        calls == old(calls) + [LogError("sendBye: " + writeThrows.value)]
      ensures numberOfClients == old(numberOfClients) && globalSocket == old(globalSocket)
      ensures globalRecordHandler == old(globalRecordHandler)
    {
      var sent := ServerModel.SendBye(adapterName, globalSocket, state, writeThrows);
      calls := calls + sent;
    }
  }
}
