/** The configurator window with the widgets taken away: the form variables, the link and the
    monitor are fields, and each button handler is a method that updates them in place. Every
    method is proved to do exactly what the matching function of Session describes. */
module App {
  import Wire
  import Text
  import Session

  class SerialApp {
    /** The entries offered by the port drop-down. */
    var ports: seq<string>
    /** The form variables: port and baud rate drop-downs, SSID and password entries. */
    var selectedPort: string
    var baudrate: string
    var ssid: string
    var password: string
    /** Whether there is a connection object and it is open. */
    var isOpen: bool
    /** The flag the listener loop tests before every pass. */
    var running: bool
    /** The lines handed to the link's write, in order. */
    var writes: seq<string>
    /** The messages inserted into the monitor, in order. */
    var log: seq<string>

    /** The object's state as a value of the specification. */
    ghost function Snapshot(): Session.State
      reads this
    {
      Session.State(ports, selectedPort, baudrate, ssid, password, isOpen, running, writes, log)
    }

    /** Builds the window on the ports `available` at start-up and starts the listener. */
    constructor (available: seq<string>)
      ensures Snapshot() == Session.Init(available)
    {
      ports := [];
      selectedPort := "";
      baudrate := Session.DefaultBaudrate;
      ssid := "";
      password := "";
      isOpen := false;
      writes := [];
      log := [];
      running := true;
      new;
      RefreshComPorts(available);
    }

    /** Re-reads the port list: `available` is what the enumeration reports. */
    method RefreshComPorts(available: seq<string>)
      modifies this`ports, this`selectedPort
      ensures Snapshot() == Session.Refresh(old(Snapshot()), available)
    {
      ports := available;
      if available != [] {
        selectedPort := available[0];
      } else {
        selectedPort := "";
      }
    }

    /** Appends `message` at the end of the monitor. */
    method UpdateTextArea(message: string)
      modifies this`log
      ensures log == old(log) + [message]
    {
      log := log + [message];
    }

    /** The Connect button. `openSucceeds` is whether opening the selected port at the selected
        baud rate works, and `error` the exception's text when it does not. */
    method ConnectToSerial(openSucceeds: bool, error: string)
      modifies this`isOpen, this`log
      ensures Snapshot() == Session.Connect(old(Snapshot()), openSucceeds, error)
    {
      if selectedPort == "" {
        UpdateTextArea(Session.NoPortSelected);
        return;
      }
      if !isOpen {
        if openSucceeds {
          isOpen := true;
          UpdateTextArea(Session.ConnectedMessage(selectedPort, baudrate));
        } else {
          UpdateTextArea(Session.ErrorMessage(error));
        }
      }
    }

    /** The Send button. `writeSucceeds` is whether the link accepts the write, and `error` the
        exception's text when it does not. */
    method SendToSerial(writeSucceeds: bool, error: string)
      modifies this`writes, this`log
      ensures Snapshot() == Session.Send(old(Snapshot()), writeSucceeds, error)
    {
      if !isOpen {
        UpdateTextArea(Session.NotConnected);
        return;
      }
      if ssid == "" || password == "" {
        UpdateTextArea(Session.EmptyCredentials);
        return;
      }
      var message := Wire.Command(ssid, password);
      if writeSucceeds {
        writes := writes + [message];
        UpdateTextArea(Session.SentMessage(message));
      } else {
        UpdateTextArea(Session.ErrorMessage(error));
      }
    }

    /** The Disconnect button. */
    method DisconnectSerial()
      modifies this`isOpen, this`log
      ensures Snapshot() == Session.Disconnect(old(Snapshot()))
    {
      if isOpen {
        isOpen := false;
        UpdateTextArea(Session.Disconnected);
      } else {
        UpdateTextArea(Session.NothingToDisconnect);
      }
    }

    /** One pass of the listener loop, `read` being what readline delivered. */
    method SerialListenerPass(read: Session.ReadResult)
      modifies this`log
      ensures Snapshot() == Session.Listen(old(Snapshot()), read)
    {
      if !running {
        return;
      }
      if isOpen {
        match read
        case Received(text) =>
          var line := Text.Strip(text);
          if line != "" {
            UpdateTextArea(Session.ReceivedMessage(line));
          }
        case ReadFailed(e) =>
          UpdateTextArea(Session.ListenerErrorMessage(e));
      }
    }

    /** Closing the window: stop the listener loop, then close the link if it is open. */
    method CloseApp()
      modifies this`running, this`isOpen
      ensures Snapshot() == Session.CloseApp(old(Snapshot()))
    {
      running := false;
      if isOpen {
        isOpen := false;
      }
    }
  }

  /** A configuration session as an operator runs it, relying on the contracts alone: the one
      successful send puts exactly one command on the wire. */
  method ConfigureDevice() returns (app: SerialApp)
    ensures app.writes == ["setWifi - 'MyNet' --'secret123'\n"]
    ensures !app.isOpen && !app.running
  {
    app := new SerialApp(["COM3", "COM4"]);
    app.SendToSerial(true, "");
    assert app.writes == [] && app.selectedPort == "COM3";
    app.ConnectToSerial(true, "");
    assert app.isOpen;
    app.ConnectToSerial(false, "busy");
    assert app.isOpen && app.writes == [];
    app.SendToSerial(true, "");
    assert app.writes == [];
    app.ssid, app.password := "MyNet", "secret123";
    app.SendToSerial(true, "");
    Wire.ExampleCommand();
    assert app.writes == ["setWifi - 'MyNet' --'secret123'\n"];
    app.DisconnectSerial();
    app.DisconnectSerial();
    app.CloseApp();
  }
}
