/**
 * `Model`, the adapter power bookkeeping. The adapter's `powered` property
 * is read at each call and given as a parameter; each `setPowered` or
 * `setName` request is a recorded call, and each of its success and error
 * callbacks is an event method. `operationInProgress` brackets the power
 * requests the application makes itself, so that a power-off it asked for
 * is not taken for a lost connection.
 */
module AdapterModel {
  import opened Wrappers
  import opened App

  /** An exception: whether it is a `ReferenceError`, and its message. */
  datatype Thrown = Thrown(reference: bool, message: string)

  /** Where `init` is interrupted by an exception, if anywhere. */
  datatype InitFault =
    | NoFault
    | AdapterThrows(e: Thrown)   // getting the adapter or installing its listener threw
    | CallbackThrows(e: Thrown)  // the listener is installed, and the callback threw

  const NoBluetoothMessage: string := "This application can only run on a device supporting Bluetooth"
  const ProblemPrefix: string := "Problem with Bluetooth. Application can't work properly: "

  /** The alert `init` shows for an exception: a `ReferenceError` always means no Bluetooth. */
  function AlertText(e: Thrown): (r: string)
    ensures e.reference ==> r == NoBluetoothMessage
    ensures !e.reference ==> r == ProblemPrefix + e.message
    ensures !e.reference ==> r[|ProblemPrefix|..] == e.message
  {
    if e.reference then NoBluetoothMessage else ProblemPrefix + e.message
  }

  /**
   * `checkPowerState`: exactly one of the two callbacks, the power-on
   * button when and only when the adapter is off.
   */
  function CheckPowerState(powered: bool): (r: Call)
    ensures r == ShowPowerOnButton <==> !powered
    ensures r == ShowStartButtons <==> powered
  {
    if !powered then ShowPowerOnButton else ShowStartButtons
  }

  /** Whether a change to `powered` counts as a lost connection. */
  function LosesConnection(powered: bool, operationInProgress: bool): (r: bool)
    ensures r <==> !powered && !operationInProgress
    ensures powered ==> !r
  {
    !powered && !operationInProgress
  }

  class Model {
    const serviceUUID: string
    var operationInProgress: bool
    /** The adapter's `onstatechanged` listener is installed. */
    var listenerInstalled: bool
    /** `init` failed: the alert was shown and the application exited. */
    var exited: bool
    /** Every outward call made so far, in order. */
    var calls: seq<Call>

    constructor()
      ensures serviceUUID == ServiceUuid
      ensures !operationInProgress && !listenerInstalled && !exited && calls == []
    {
      serviceUUID := ServiceUuid;
      operationInProgress := false;
      listenerInstalled := false;
      exited := false;
      calls := [];
    }

    /**
     * `init`: without `tizen.bluetooth` a `ReferenceError` is thrown at once.
     * Any exception inside the `try`, the callback's included, ends in an
     * alert and an exit.
     */
    method Init(bluetoothAvailable: bool, fault: InitFault)
      modifies this
      ensures !bluetoothAvailable ==>
        calls == old(calls) + [Alert(NoBluetoothMessage), Exit] && exited && listenerInstalled == old(listenerInstalled)
      ensures bluetoothAvailable && fault.NoFault? ==>
        calls == old(calls) + [Callback] && listenerInstalled && exited == old(exited)
      ensures bluetoothAvailable && fault.AdapterThrows? ==>
        calls == old(calls) + [Alert(AlertText(fault.e)), Exit] && exited && listenerInstalled == old(listenerInstalled)
      ensures bluetoothAvailable && fault.CallbackThrows? ==>
        calls == old(calls) + [Callback, Alert(AlertText(fault.e)), Exit] && exited && listenerInstalled
      ensures operationInProgress == old(operationInProgress)
    {
      if !bluetoothAvailable {
        Fail(Thrown(true, "tizen.bluetooth is not available"));
      } else {
        match fault
        case AdapterThrows(e) =>
          Fail(e);
        case NoFault =>
          listenerInstalled := true;
          calls := calls + [Callback];
        case CallbackThrows(e) =>
          listenerInstalled := true;
          calls := calls + [Callback];
          Fail(e);
      }
    }

    /** The `catch` of `init`. */
    method Fail(e: Thrown)
      modifies this
      ensures calls == old(calls) + [Alert(AlertText(e)), Exit] && exited
      ensures operationInProgress == old(operationInProgress) && listenerInstalled == old(listenerInstalled)
    {
      calls := calls + [Alert(AlertText(e)), Exit];
      exited := true;
    }

    /** `checkPowerState`, which changes nothing but the calls. */
    method CheckPowerStateNow(powered: bool)
      modifies this
      ensures calls == old(calls) + [CheckPowerState(powered)]
      ensures operationInProgress == old(operationInProgress) && listenerInstalled == old(listenerInstalled)
      ensures exited == old(exited)
    {
      calls := calls + [CheckPowerState(powered)];
    }

    /** The listener: an unsolicited power-off is a lost connection. */
    method OnStateChanged(powered: bool)
      requires listenerInstalled
      modifies this
      ensures LosesConnection(powered, operationInProgress) ==> calls == old(calls) + [ConnectionLost]
      ensures !LosesConnection(powered, operationInProgress) ==> calls == old(calls)
      ensures operationInProgress == old(operationInProgress) && listenerInstalled && exited == old(exited)
    {
      if !powered && !operationInProgress {
        calls := calls + [ConnectionLost];
      }
    }

    /**
     * `powerOn`: a powered adapter calls back at once. Otherwise the flag
     * is raised and power-on requested; a request that throws lowers it,
     * shows the error and offers the power-on button again.
     */
    method PowerOn(powered: bool, thrown: Option<string>)
      modifies this
      ensures powered ==> calls == old(calls) + [Callback] && operationInProgress == old(operationInProgress)
      ensures !powered && thrown.None? ==> calls == old(calls) + [SetPowered(true)] && operationInProgress
      ensures !powered && thrown.Some? ==>
        calls == old(calls) + [ShowMessagePopup(thrown.value), ShowPowerOnButton] && !operationInProgress
      ensures listenerInstalled == old(listenerInstalled) && exited == old(exited)
    {
      if !powered {
        operationInProgress := true;
        if thrown.Some? {
          operationInProgress := false;
          calls := calls + [ShowMessagePopup(thrown.value), ShowPowerOnButton];
        } else {
          calls := calls + [SetPowered(true)];
        }
      } else {
        calls := calls + [Callback];
      }
    }

    /** Power-on success: the flag drops and the callback runs (after the delay). */
    method PowerOnSuccess()
      modifies this
      ensures !operationInProgress && calls == old(calls) + [Callback]
      ensures listenerInstalled == old(listenerInstalled) && exited == old(exited)
    {
      operationInProgress := false;
      calls := calls + [Callback];
    }

    /** Power-on error: the flag drops; the callback never runs. */
    method PowerOnError()
      modifies this
      ensures !operationInProgress && calls == old(calls)
      ensures listenerInstalled == old(listenerInstalled) && exited == old(exited)
    {
      operationInProgress := false;
    }

    /**
     * `powerOff`: an unpowered adapter calls back at once. Otherwise the
     * flag is raised and power-off requested. There is no `try`: a request
     * that throws lets the exception out and leaves the flag raised.
     */
    method PowerOff(powered: bool, thrown: Option<string>) returns (escaped: Option<string>)
      modifies this
      ensures !powered ==> calls == old(calls) + [Callback] && operationInProgress == old(operationInProgress) && escaped == None
      ensures powered && thrown.None? ==> calls == old(calls) + [SetPowered(false)] && operationInProgress && escaped == None
      ensures powered && thrown.Some? ==> calls == old(calls) && operationInProgress && escaped == thrown
      ensures listenerInstalled == old(listenerInstalled) && exited == old(exited)
    {
      escaped := RequestPowerOff(powered, thrown);
    }

    /** Power-off success or error: the flag drops and the callback runs either way. */
    method PowerOffDone()
      modifies this
      ensures !operationInProgress && calls == old(calls) + [Callback]
      ensures listenerInstalled == old(listenerInstalled) && exited == old(exited)
    {
      operationInProgress := false;
      calls := calls + [Callback];
    }

    /**
     * `restartBluetooth`: the same request as `powerOff` (power off only,
     * never on), with the callback only on success.
     */
    method RestartBluetooth(powered: bool, thrown: Option<string>) returns (escaped: Option<string>)
      modifies this
      ensures !powered ==> calls == old(calls) + [Callback] && operationInProgress == old(operationInProgress) && escaped == None
      ensures powered && thrown.None? ==> calls == old(calls) + [SetPowered(false)] && operationInProgress && escaped == None
      ensures powered && thrown.Some? ==> calls == old(calls) && operationInProgress && escaped == thrown
      ensures forall i :: |old(calls)| <= i < |calls| ==> calls[i] != SetPowered(true)
      ensures listenerInstalled == old(listenerInstalled) && exited == old(exited)
    {
      escaped := RequestPowerOff(powered, thrown);
    }

    /** Restart success: the flag drops and the callback runs (after the delay). */
    method RestartSuccess()
      modifies this
      ensures !operationInProgress && calls == old(calls) + [Callback]
      ensures listenerInstalled == old(listenerInstalled) && exited == old(exited)
    {
      operationInProgress := false;
      calls := calls + [Callback];
    }

    /** Restart error: the flag drops; the callback never runs. */
    method RestartError()
      modifies this
      ensures !operationInProgress && calls == old(calls)
      ensures listenerInstalled == old(listenerInstalled) && exited == old(exited)
    {
      operationInProgress := false;
    }

    /** The request `powerOff` and `restartBluetooth` share. */
    method RequestPowerOff(powered: bool, thrown: Option<string>) returns (escaped: Option<string>)
      modifies this
      ensures !powered ==> calls == old(calls) + [Callback] && operationInProgress == old(operationInProgress) && escaped == None
      ensures powered && thrown.None? ==> calls == old(calls) + [SetPowered(false)] && operationInProgress && escaped == None
      ensures powered && thrown.Some? ==> calls == old(calls) && operationInProgress && escaped == thrown
      ensures listenerInstalled == old(listenerInstalled) && exited == old(exited)
    {
      escaped := None;
      if powered {
        operationInProgress := true;
        if thrown.Some? {
          escaped := thrown;
        } else {
          calls := calls + [SetPowered(false)];
        }
      } else {
        calls := calls + [Callback];
      }
    }

    /**
     * `setAdapterName`: a rename request only when asked for; otherwise the
     * callback at once. There is no `try`: a request that throws lets the
     * exception out, and no callback runs.
     */
    method SetAdapterName(changeName: bool, currentName: string, thrown: Option<string>) returns (escaped: Option<string>)
      modifies this
      ensures changeName && thrown.None? ==> calls == old(calls) + [SetName(currentName)] && escaped == None
      ensures changeName && thrown.Some? ==> calls == old(calls) && escaped == thrown
      ensures !changeName ==> calls == old(calls) + [Callback] && escaped == None
      ensures operationInProgress == old(operationInProgress) && listenerInstalled == old(listenerInstalled)
      ensures exited == old(exited)
    {
      escaped := None;
      if changeName {
        if thrown.Some? {
          escaped := thrown;
        } else {
          calls := calls + [SetName(currentName)];
        }
      } else {
        calls := calls + [Callback];
      }
    }

    /** Rename success: the callback runs. A rename error does nothing at all. */
    method SetNameSuccess()
      modifies this
      ensures calls == old(calls) + [Callback]
      ensures operationInProgress == old(operationInProgress) && listenerInstalled == old(listenerInstalled)
      ensures exited == old(exited)
    {
      calls := calls + [Callback];
    }
  }
}
