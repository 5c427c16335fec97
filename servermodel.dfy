/**
 * `ServerModel`: the adapter and socket calls behind the responder.
 * Registration and unregistration only dispatch; the two sends build the
 * record, turn its text into character codes and write them to an open socket.
 */
module ServerModel {
  import opened Wrappers
  import opened App
  import opened Envelope

  /** The service name every registration uses. */
  const ChatServiceName: string := "Chat service"

  /**
   * `registerServer`: a registration request is made only while no client
   * is connected; an exception it throws at once is logged and goes no further.
   */
  function RegisterServer(clients: int, uuid: string, thrown: Option<string>): (r: seq<Call>)
    ensures r != [] <==> clients == 0
    ensures clients == 0 ==> r[0] == RegisterService(uuid, ChatServiceName)
    ensures forall i :: 0 < i < |r| ==> r[i].LogError?
    ensures |r| == 2 <==> clients == 0 && thrown.Some?
    ensures clients == 0 && thrown.Some? ==> r[1] == LogError(thrown.value)
  {
    if clients == 0 then
      [RegisterService(uuid, ChatServiceName)] + (if thrown.Some? then [LogError(thrown.value)] else [])
    else []
  }

  /** The three ways `unregisterChatServer` can go. */
  datatype UnregisterStep =
    | UnregisterRequested(handler: Handler)  // `unregister(success, error)` was called
    | ButtonsShown                           // there was no handler: only the start buttons
    | ErrorReported                          // `unregister` threw: the error callback ran

  function UnregisterChatServer(handler: Option<Handler>, throws: bool): (r: UnregisterStep)
    ensures r.UnregisterRequested? <==> handler.Some? && !throws
    ensures r.UnregisterRequested? ==> r.handler == handler.value
    ensures r.ButtonsShown? <==> handler.None?
    ensures r.ErrorReported? <==> handler.Some? && throws
  {
    match handler
    case None => ButtonsShown
    case Some(h) => if throws then ErrorReported else UnregisterRequested(h)
  }

  /** Where an exception escapes during a send, if anywhere. */
  datatype Throw = NoThrow | WriteThrows(message: string) | CallbackThrows(message: string)

  /** The socket is there and reports `'OPEN'`. */
  predicate IsOpen(socket: Option<Socket>, state: SocketState) {
    socket.Some? && state == Open
  }

  /**
   * `sendMessage`: the codes of the serialised message record are written
   * and the callback gets the message as typed, only on an open socket; an
   * exception of the write or of the callback is logged and goes no further.
   */
  method SendMessage(name: string, socket: Option<Socket>, state: SocketState, message: string, thrown: Throw)
    returns (calls: seq<Call>)
    ensures !IsOpen(socket, state) ==> calls == []
    ensures IsOpen(socket, state) && thrown.NoThrow? ==>
      calls == [Write(socket.value, Frame(MessageEnvelope(name, message))), MessageCallback(message)]
    ensures IsOpen(socket, state) && thrown.WriteThrows? ==> calls == [LogError("sendMessage: " + thrown.message)]
    ensures IsOpen(socket, state) && thrown.CallbackThrows? ==>
      calls == [Write(socket.value, Frame(MessageEnvelope(name, message))), MessageCallback(message),
                LogError("sendMessage: " + thrown.message)]
  {
    var codes := CharCodes(Serialize(MessageEnvelope(name, message)));
    calls := [];
    if IsOpen(socket, state) {
      match thrown
      case WriteThrows(m) =>
        calls := [LogError("sendMessage: " + m)];
      case NoThrow =>
        calls := [Write(socket.value, codes), MessageCallback(message)];
      case CallbackThrows(m) =>
        calls := [Write(socket.value, codes), MessageCallback(message), LogError("sendMessage: " + m)];
    }
  }

  /** `sendBye`: the codes of the bye record, written only on an open socket, with no callback. */
  method SendBye(name: string, socket: Option<Socket>, state: SocketState, writeThrows: Option<string>)
    returns (calls: seq<Call>)
    ensures !IsOpen(socket, state) ==> calls == []
    ensures IsOpen(socket, state) && writeThrows.None? ==> calls == [Write(socket.value, Frame(ByeEnvelope(name)))]
    ensures IsOpen(socket, state) && writeThrows.Some? ==> calls == [LogError("sendBye: " + writeThrows.value)]
  {
    var codes := CharCodes(Serialize(ByeEnvelope(name)));
    calls := [];
    if IsOpen(socket, state) {
      if writeThrows.Some? {
        calls := [LogError("sendBye: " + writeThrows.value)];
      } else {
        calls := [Write(socket.value, codes)];
      }
    }
  }
}
