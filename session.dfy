/** The configurator's connection and command logic as a state machine over plain values: the
    specification that the methods of App.SerialApp are proved against. The serial link is
    reduced to an open flag and the list of lines written to it; the monitor text area to the
    list of messages inserted into it. */
module Session {
  import Wire
  import Text

  const DefaultBaudrate := "9600"
  const BaudRates: seq<string> := ["9600", "19200", "38400", "57600", "115200"]

  const NoPortSelected := "No COM port selected.\n"
  const NotConnected := "Not connected to any COM port.\n"
  const EmptyCredentials := "SSID and Password cannot be empty.\n"
  const Disconnected := "Disconnected from the COM port.\n"
  const NothingToDisconnect := "No active connection to disconnect.\n"

  function ConnectedMessage(port: string, baudrate: string): string {
    "Connected to " + port + " at " + baudrate + " baud.\n"
  }

  /** The message for an exception `error` caught while connecting or sending. */
  function ErrorMessage(error: string): string {
    "Error: " + error + "\n"
  }

  function SentMessage(command: string): string {
    "Sent: " + command
  }

  function ReceivedMessage(line: string): string {
    "Received: " + line + "\n"
  }

  function ListenerErrorMessage(error: string): string {
    "Listener Error: " + error + "\n"
  }

  /** What one readline on the open link gives the listener: the received line, already decoded
      to text, or the message of the exception the read raised. */
  datatype ReadResult = Received(text: string) | ReadFailed(error: string)

  /** Everything the operations read or change: the port list shown in the drop-down, the four
      form variables, whether the link is open, whether the listener loop still runs, what was
      written to the link and what was inserted into the monitor. */
  datatype State = State(
    ports: seq<string>,
    selectedPort: string,
    baudrate: string,
    ssid: string,
    password: string,
    isOpen: bool,
    running: bool,
    writes: seq<string>,
    log: seq<string>)

  /** After a refresh the drop-down offers `available`, and the first of them is selected,
      or nothing when there is none. */
  function Refresh(s: State, available: seq<string>): (r: State)
    ensures r.ports == available
    ensures available == [] ==> r.selectedPort == ""
    ensures available != [] ==> r.selectedPort == available[0]
    ensures r.selectedPort == "" || r.selectedPort in r.ports
    ensures r.(ports := s.ports, selectedPort := s.selectedPort) == s
  {
    s.(ports := available, selectedPort := if available != [] then available[0] else "")
  }

  /** The window as it stands when the constructor returns: empty form but for the default baud
      rate, the port list refreshed once, the link closed and the listener running. */
  function Init(available: seq<string>): (r: State)
    ensures r.ports == available
    ensures available == [] ==> r.selectedPort == ""
    ensures available != [] ==> r.selectedPort == available[0]
    ensures r.baudrate == DefaultBaudrate && r.baudrate in BaudRates
    ensures r.ssid == "" && r.password == ""
    ensures !r.isOpen && r.running && r.writes == [] && r.log == []
  {
    Refresh(State([], "", DefaultBaudrate, "", "", false, true, [], []), available)
  }

  /** Connecting. With no port selected only the complaint is logged. With the link already
      open nothing at all happens. Otherwise the open is attempted: `openSucceeds` is its
      outcome and `error` the exception's text when it fails. Nothing is ever written. */
  function Connect(s: State, openSucceeds: bool, error: string): (r: State)
    ensures r.writes == s.writes && r.running == s.running
    ensures s.selectedPort == "" ==> r == s.(log := s.log + [NoPortSelected])
    ensures s.selectedPort != "" && s.isOpen ==> r == s
    ensures s.selectedPort != "" && !s.isOpen && openSucceeds ==>
              r == s.(isOpen := true, log := s.log + [ConnectedMessage(s.selectedPort, s.baudrate)])
    ensures s.selectedPort != "" && !s.isOpen && !openSucceeds ==>
              r == s.(log := s.log + [ErrorMessage(error)])
    ensures r.isOpen <==> s.isOpen || (s.selectedPort != "" && openSucceeds)
  {
    if s.selectedPort == "" then
      s.(log := s.log + [NoPortSelected])
    else if s.isOpen then
      s
    else if openSucceeds then
      s.(isOpen := true, log := s.log + [ConnectedMessage(s.selectedPort, s.baudrate)])
    else
      s.(log := s.log + [ErrorMessage(error)])
  }

  /** Sending the credentials. A closed link is reported first, whatever the form holds; then
      an empty SSID or password. Otherwise the command is handed to the link once: when the
      write succeeds it is recorded and echoed, when it raises `error` nothing is recorded.
      The link stays as it was. */
  function Send(s: State, writeSucceeds: bool, error: string): (r: State)
    ensures r.isOpen == s.isOpen && r.running == s.running
    ensures !s.isOpen ==> r == s.(log := s.log + [NotConnected])
    ensures s.isOpen && (s.ssid == "" || s.password == "") ==> r == s.(log := s.log + [EmptyCredentials])
    ensures s.isOpen && s.ssid != "" && s.password != "" && writeSucceeds ==>
              var command := Wire.Command(s.ssid, s.password);
              r == s.(writes := s.writes + [command], log := s.log + [SentMessage(command)])
    ensures s.isOpen && s.ssid != "" && s.password != "" && !writeSucceeds ==>
              r == s.(log := s.log + [ErrorMessage(error)])
    ensures r.writes != s.writes <==> s.isOpen && s.ssid != "" && s.password != "" && writeSucceeds
  {
    if !s.isOpen then
      s.(log := s.log + [NotConnected])
    else if s.ssid == "" || s.password == "" then
      s.(log := s.log + [EmptyCredentials])
    else
      var command := Wire.Command(s.ssid, s.password);
      if writeSucceeds then
        s.(writes := s.writes + [command], log := s.log + [SentMessage(command)])
      else
        s.(log := s.log + [ErrorMessage(error)])
  }

  /** Disconnecting always leaves the link closed and writes nothing; the message says whether
      there was a connection to close. */
  function Disconnect(s: State): (r: State)
    ensures !r.isOpen
    ensures r.log == s.log + [if s.isOpen then Disconnected else NothingToDisconnect]
    ensures r.(isOpen := s.isOpen, log := s.log) == s
  {
    s.(isOpen := false, log := s.log + [if s.isOpen then Disconnected else NothingToDisconnect])
  }

  /** One pass of the listener loop. Once the loop has stopped, or while the link is closed,
      nothing happens. A received line is stripped and, unless nothing is left, shown; a read
      that raised is shown as a listener error. Only the monitor can change. */
  function Listen(s: State, read: ReadResult): (r: State)
    ensures r.(log := s.log) == s
    ensures !(s.running && s.isOpen) ==> r == s
    ensures s.running && s.isOpen && read.Received? ==>
              r.log == s.log + (if Text.Strip(read.text) == "" then [] else [ReceivedMessage(Text.Strip(read.text))])
    ensures s.running && s.isOpen && read.ReadFailed? ==> r.log == s.log + [ListenerErrorMessage(read.error)]
  {
    if !(s.running && s.isOpen) then
      s
    else
      match read
      case Received(text) =>
        var line := Text.Strip(text);
        if line != "" then s.(log := s.log + [ReceivedMessage(line)]) else s
      case ReadFailed(error) =>
        s.(log := s.log + [ListenerErrorMessage(error)])
  }

  /** Closing the window stops the listener loop and closes the link, silently. */
  function CloseApp(s: State): (r: State)
    ensures !r.running && !r.isOpen
    ensures r.(running := s.running, isOpen := s.isOpen) == s
  {
    s.(running := false, isOpen := false)
  }

  /** Everything that can happen to the window: the operations above, plus the operator
      editing the form (the drop-downs and the two entries). */
  datatype Op =
    | RefreshComPorts(available: seq<string>)
    | ChoosePort(port: string)
    | ChooseBaudrate(baudrate: string)
    | TypeCredentials(ssid: string, password: string)
    | ConnectToSerial(openSucceeds: bool, openError: string)
    | SendToSerial(writeSucceeds: bool, writeError: string)
    | DisconnectSerial
    | ListenOnce(read: ReadResult)
    | CloseApplication

  /** One operation. It appends at most one message to the monitor, keeping what was there, and
      it writes at most one line to the link: the command for the form's credentials, which are
      then both non-empty. */
  function Step(s: State, op: Op): (r: State)
    ensures s.log <= r.log && |r.log| <= |s.log| + 1
    ensures s.writes <= r.writes && |r.writes| <= |s.writes| + 1
    ensures |r.writes| > |s.writes| ==>
              op.SendToSerial? && s.isOpen && s.ssid != "" && s.password != ""
              && r.writes[|s.writes|] == Wire.Command(s.ssid, s.password)
    ensures r.running ==> s.running
  {
    match op
    case RefreshComPorts(available) => Refresh(s, available)
    case ChoosePort(port) => s.(selectedPort := port)
    case ChooseBaudrate(baudrate) => s.(baudrate := baudrate)
    case TypeCredentials(ssid, password) => s.(ssid := ssid, password := password)
    case ConnectToSerial(openSucceeds, error) => Connect(s, openSucceeds, error)
    case SendToSerial(writeSucceeds, error) => Send(s, writeSucceeds, error)
    case DisconnectSerial => Disconnect(s)
    case ListenOnce(read) => Listen(s, read)
    case CloseApplication => CloseApp(s)
  }

  /** The state after the operations `ops`, in order, starting from `s`. */
  function Run(s: State, ops: seq<Op>): State
    decreases |ops|
  {
    if ops == [] then s else Step(Run(s, ops[..|ops| - 1]), ops[|ops| - 1])
  }

  /** The monitor is append-only: after any operations it still starts with what it showed
      before, and it has grown by at most one message per operation. */
  lemma {:induction false} LogAppendOnly(s: State, ops: seq<Op>)
    ensures s.log <= Run(s, ops).log
    ensures |Run(s, ops).log| <= |s.log| + |ops|
  {
    if ops != [] {
      LogAppendOnly(s, ops[..|ops| - 1]);
    }
  }

  /** A well-formed configuration command for non-empty credentials. */
  ghost predicate IsConfigCommand(line: string) {
    exists ssid, password :: ssid != "" && password != "" && line == Wire.Command(ssid, password)
  }

  /** The link only ever receives configuration commands with non-empty credentials, appended
      after what was written before, at most one per send. */
  lemma {:induction false} OnlyCommandsWritten(s: State, ops: seq<Op>)
    ensures s.writes <= Run(s, ops).writes
    ensures |Run(s, ops).writes| <= |s.writes| + |ops|
    ensures forall i :: |s.writes| <= i < |Run(s, ops).writes| ==> IsConfigCommand(Run(s, ops).writes[i])
  {
    if ops != [] {
      var before := Run(s, ops[..|ops| - 1]);
      OnlyCommandsWritten(s, ops[..|ops| - 1]);
      var after := Step(before, ops[|ops| - 1]);
      assert after == Run(s, ops);
      forall i | |s.writes| <= i < |after.writes| ensures IsConfigCommand(after.writes[i]) {
        if i < |before.writes| {
          assert after.writes[i] == before.writes[i];
        } else {
          assert after.writes[i] == Wire.Command(before.ssid, before.password);
        }
      }
    }
  }

  /** Operations that close the link. */
  predicate Closes(op: Op) {
    op.DisconnectSerial? || op.CloseApplication?
  }

  /** Reading the trace alone: the port selected after `ops`, starting from `initial`. Only a
      refresh and the operator's choice change it, and a refresh selects the first port or none. */
  function SelectionAfter(initial: string, ops: seq<Op>): string
    decreases |ops|
  {
    if ops == [] then initial
    else match ops[|ops| - 1]
      case RefreshComPorts(available) => if available != [] then available[0] else ""
      case ChoosePort(port) => port
      case _ => SelectionAfter(initial, ops[..|ops| - 1])
  }

  /** The selection after a run is the one the trace determines. */
  lemma {:induction false} SelectionFollowsTrace(s: State, ops: seq<Op>)
    ensures Run(s, ops).selectedPort == SelectionAfter(s.selectedPort, ops)
  {
    if ops != [] {
      SelectionFollowsTrace(s, ops[..|ops| - 1]);
    }
  }

  /** Nothing after position k of `ops` closes the link. */
  ghost predicate NothingClosesAfter(ops: seq<Op>, k: int) {
    forall j :: 0 <= j < |ops| && k < j ==> !Closes(ops[j])
  }

  /** The k-th operation is a connect whose open succeeds, made while a port was selected, and
      nothing closes the link after it. */
  ghost predicate OpenedLastAt(initialPort: string, ops: seq<Op>, k: int)
    requires 0 <= k < |ops|
  {
    ops[k].ConnectToSerial? && ops[k].openSucceeds && SelectionAfter(initialPort, ops[..k]) != ""
    && NothingClosesAfter(ops, k)
  }

  /** Reading the trace alone: the link counts as open when the last operation deciding it was a
      successful connect with a port selected, or when it was open initially and nothing closed
      it since. */
  ghost predicate OpenByTrace(initiallyOpen: bool, initialPort: string, ops: seq<Op>) {
    (exists k :: 0 <= k < |ops| && OpenedLastAt(initialPort, ops, k))
    || (initiallyOpen && NothingClosesAfter(ops, -1))
  }

  /** How OpenByTrace changes when one more operation is appended. */
  lemma OpenByTraceSnoc(initiallyOpen: bool, initialPort: string, ops: seq<Op>, op: Op)
    ensures OpenByTrace(initiallyOpen, initialPort, ops + [op]) ==
              if Closes(op) then false
              else if op.ConnectToSerial? && op.openSucceeds && SelectionAfter(initialPort, ops) != "" then true
              else OpenByTrace(initiallyOpen, initialPort, ops)
  {
    var longer := ops + [op];
    var n := |ops|;
    assert forall j :: 0 <= j < n ==> longer[j] == ops[j];
    assert forall k :: 0 <= k <= n ==> longer[..k] == ops[..k];
    assert longer[n] == op;
    if Closes(op) {
      forall k | 0 <= k < |longer| ensures !OpenedLastAt(initialPort, longer, k) {
        if k < n { assert !NothingClosesAfter(longer, k); }
      }
      assert !NothingClosesAfter(longer, -1);
    } else if op.ConnectToSerial? && op.openSucceeds && SelectionAfter(initialPort, ops) != "" {
      assert OpenedLastAt(initialPort, longer, n);
    } else {
      forall k | 0 <= k < n ensures OpenedLastAt(initialPort, longer, k) <==> OpenedLastAt(initialPort, ops, k) {
        assert NothingClosesAfter(longer, k) <==> NothingClosesAfter(ops, k);
      }
      assert !OpenedLastAt(initialPort, longer, n);
      assert NothingClosesAfter(longer, -1) <==> NothingClosesAfter(ops, -1);
    }
  }

  /** What one operation does to the link. */
  lemma StepOnLink(s: State, op: Op)
    ensures Step(s, op).isOpen ==
              if Closes(op) then false
              else if op.ConnectToSerial? && op.openSucceeds && s.selectedPort != "" then true
              else s.isOpen
  {
  }

  /** The link is open after a run exactly when the last operation that decides it was a connect
      whose open succeeded while a port was selected, or when it was open to begin with and
      nothing closed it. A failed open, or a connect with no port selected, never changes it. */
  lemma {:induction false} OpenIffLastConnectSucceeded(s: State, ops: seq<Op>)
    ensures Run(s, ops).isOpen <==> OpenByTrace(s.isOpen, s.selectedPort, ops)
  {
    if ops != [] {
      var n := |ops| - 1;
      assert ops == ops[..n] + [ops[n]];
      OpenIffLastConnectSucceeded(s, ops[..n]);
      SelectionFollowsTrace(s, ops[..n]);
      StepOnLink(Run(s, ops[..n]), ops[n]);
      OpenByTraceSnoc(s.isOpen, s.selectedPort, ops[..n], ops[n]);
    }
  }

  /** While the link is closed and no connect is attempted, nothing is written and the link
      stays closed, whatever else happens. */
  lemma {:induction false} NoWritesWithoutConnect(s: State, ops: seq<Op>)
    requires !s.isOpen
    requires forall i :: 0 <= i < |ops| ==> !ops[i].ConnectToSerial?
    ensures !Run(s, ops).isOpen && Run(s, ops).writes == s.writes
  {
    if ops != [] {
      NoWritesWithoutConnect(s, ops[..|ops| - 1]);
    }
  }

  /** Once the window is closed the listener never runs again: whatever happens afterwards,
      the loop stays stopped, and every listener pass in the run leaves the state as it was. */
  lemma {:induction false} StoppedListenerStaysSilent(s: State, ops: seq<Op>)
    requires !s.running
    ensures !Run(s, ops).running
    ensures forall k :: 0 <= k < |ops| && ops[k].ListenOnce? ==> Run(s, ops[..k + 1]) == Run(s, ops[..k])
  {
    if ops != [] {
      var n := |ops| - 1;
      StoppedListenerStaysSilent(s, ops[..n]);
      forall k | 0 <= k < |ops| && ops[k].ListenOnce? ensures Run(s, ops[..k + 1]) == Run(s, ops[..k]) {
        if k < n {
          assert ops[..n][..k + 1] == ops[..k + 1] && ops[..n][..k] == ops[..k] && ops[..n][k] == ops[k];
        } else {
          assert ops[..k + 1] == ops && ops[..k] == ops[..n];
        }
      }
    }
  }

  /** Connecting twice is the same as connecting once when the first open succeeds: the second
      attempt finds the link open and does nothing, whatever its own outcome would have been. */
  lemma ConnectIsIdempotent(s: State, secondSucceeds: bool, error: string, secondError: string)
    requires s.selectedPort != ""
    ensures Connect(Connect(s, true, error), secondSucceeds, secondError) == Connect(s, true, error)
  {
  }

  /** A second disconnect in a row cannot reopen the link or write anything: it only says that
      there is no connection. */
  lemma DisconnectTwice(s: State)
    ensures var once := Disconnect(s);
            Disconnect(once) == once.(log := once.log + [NothingToDisconnect])
  {
  }

  /** With the link open, MyNet / secret123 put exactly this line on the wire. */
  lemma ExampleSend(s: State)
    requires s.isOpen && s.ssid == "MyNet" && s.password == "secret123"
    ensures Send(s, true, "").writes == s.writes + ["setWifi - 'MyNet' --'secret123'\n"]
  {
    Wire.ExampleCommand();
  }

  /** A reading that is only whitespace, such as the empty read of a timeout or a bare line
      ending, shows nothing. */
  lemma BlankReadShowsNothing(s: State, text: string)
    requires Text.AllSpace(text)
    ensures Listen(s, Received(text)) == s
  {
  }
}
