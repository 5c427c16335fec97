/**
 * What the controllers see of the rest of the application: the Bluetooth
 * objects they hold by identity, and every call they make outwards, to the
 * application, the pages, the adapter, a socket, `ClientModel` or a callback
 * they were given. Each controller keeps the calls it has made, in order.
 */
module App {
  import opened Wrappers
  import Envelope

  /** The fixed serial-port profile UUID both roles use, whatever they are given. */
  const ServiceUuid: string := "00001101-0000-1000-8000-00805F9B34FB"

  /** A `BluetoothSocket`, by identity. */
  datatype Socket = Socket(id: nat)

  /** The `state` a socket reports: `'OPEN'` or `'CLOSED'`. */
  datatype SocketState = Open | Closed

  /** A `BluetoothServiceHandler`, by identity. */
  datatype Handler = Handler(id: nat)

  /** A `BluetoothDevice`, by the two properties the controllers read. */
  datatype Device = Device(address: string, name: string)

  datatype Call =
    // the application object
    | SetConnection(connected: bool)
    | ClientDisconnected
    | ServerDisconnected
    | RestartBluetooth
    | ConnectionLost
    // the pages
    | ShowChatPage(title: Option<string>)
    | ShowStartButtons
    | ShowPowerOnButton
    | ShowMessagePopup(message: string)
    | SetDiscoveringProgress(on: bool)
    | AddDeviceToList(device: Device)
    | DisplayFields(fields: Envelope.Fields)
    | DisplayFrame(frame: string)
    | Alert(message: string)
    | Exit
    // the adapter, a service handler and a socket
    | RegisterService(uuid: string, serviceName: string)
    | Unregister(handler: Handler)
    | Write(socket: Socket, codes: seq<int>)
    | Close(socket: Socket)
    | SetPowered(on: bool)
    | SetName(name: string)
    // ClientModel
    | SearchServer
    | StopSearching(bondWith: Option<string>)
    | StartBonding(address: string)
    | ConnectToService(device: Device, uuid: string)
    | SendPing(name: string, target: Option<Socket>)
    | SendMessage(name: string, target: Option<Socket>, message: string)
    | SendBye(name: string, target: Option<Socket>)
    | DestroyBonding(bonded: Option<Device>)
    // everything else
    | StatusRequest(pwr: nat)
    | Callback
    | MessageCallback(message: string)
    | LogError(message: string)

  /** A call that hands text to a socket, directly or through `ClientModel`. */
  predicate IsSend(c: Call) {
    c.Write? || c.SendPing? || c.SendMessage? || c.SendBye?
  }
}
