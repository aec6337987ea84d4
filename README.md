# WiFi Configurator: the serial session in Dafny

The WiFi Configurator is a small desktop tool. The operator picks a serial port and a baud
rate, connects, types an SSID and a password, and sends them to a device as one command
line. A background listener shows everything the device sends back in a monitor pane.

This project models the connection and command logic of the tool's one class, `SerialApp`.
The Tk widgets and pyserial are replaced by abstract state:

- the serial link becomes an open flag plus the list of lines it wrote successfully;
- the monitor text area becomes the list of messages inserted into it;
- the form's `StringVar`s become plain fields.

The model has four modules:

- `Text` (text.dfy) is Python's `str.strip()` over Python's exact whitespace set. The
  listener applies it to every line it receives.
- `Wire` (wire.dfy) holds the command format `setWifi - '<ssid>' --'<password>'` plus a
  newline. It also holds a reference parser, which acts as the format's inverse.
- `Session` (session.dfy) models each handler as a function on a `State` value, and a run
  of operations as `Run`. This is the specification. It holds the lemmas about whole runs:
  - the monitor is append-only;
  - only well-formed commands are ever written;
  - the link is open exactly when the last deciding operation was a successful connect made
    while a port was selected;
  - nothing is written while no connect is attempted;
  - once the window is closed, the listener stays stopped and every later pass is silent.
- `App` (serial_app.dfy) is the class `SerialApp`. Its fields are updated in place by one
  method per handler. Each method is proved to leave the object in the state the matching
  `Session` function gives.

The outcomes of foreign calls are parameters:

- the port list that enumeration reports;
- whether opening the port succeeds, and the exception text if it does not;
- whether the write succeeds, and the exception text if it does not;
- what one `readline` delivered, already decoded to text.

Under these parameters the model follows the handlers' branches in source order:

- An empty port selection is reported before anything else.
- A connect on an open link does nothing, not even a message.
- When sending, a closed link is reported before empty fields are.
- A write that raises records nothing.
- A second disconnect logs "No active connection to disconnect.".
- Closing the window stops the listener and closes the link without a message.

Behaviours of the code worth noting:

- The code shows no message for a connect on an open link.
- Disconnecting a closed link logs a message of its own.
- The listener thread is started once, when the window is built, and runs until the window
  closes. It is not started per connection, and it skips its pass while the link is closed.
- Because the code decodes with `errors='replace'`, its hexadecimal fallback for undecodable
  bytes is never taken.
- The handlers return nothing. Each outcome is visible only as the message it logs.

`App.ConfigureDevice` is a client of the class. Using only the method contracts, it
shows that a session with one successful send writes exactly
`setWifi - 'MyNet' --'secret123'` and a newline.

The command format does not escape quotes. `Wire.QuoteInSsidIsAmbiguous` shows two different
credential pairs that produce the same line. `Wire.ParseIffCommand` shows that the line can be
read back exactly when the SSID holds no quote. Whether escaping was intended is not known, so
this is recorded as a property of the format rather than as a defect.

## Model

| member | source | states |
|---|---|---|
| `Text.Strip` | WifiConfigurator.py:121 | the result is a slice of the input with only whitespace cut from either end, and it neither starts nor ends with whitespace; it is empty exactly when the input is all whitespace |
| `Text.StripIdempotent` | WifiConfigurator.py:121 | stripping a stripped line changes nothing |
| `Wire.ParseCommand` | WifiConfigurator.py:101 | a command whose SSID holds no quote parses back to its own SSID and password |
| `Wire.ParseSound` | WifiConfigurator.py:101 | every line the parser accepts is the command of the credentials it returns, and that SSID holds no quote |
| `Wire.ParseIffCommand` | WifiConfigurator.py:101 | the parser yields (ssid, password) if and only if the line is their command and the SSID holds no quote |
| `Wire.QuoteInSsidIsAmbiguous` | WifiConfigurator.py:101 | two different credential pairs whose SSID or password hold quotes produce the same command line |
| `Wire.ExampleCommand` | WifiConfigurator.py:101 | MyNet / secret123 format to `setWifi - 'MyNet' --'secret123'` plus a newline |
| `Session.Refresh` | WifiConfigurator.py:64-70 | the drop-down offers the reported ports; the first one is selected, or "" when none is reported; nothing else changes |
| `Session.Init` | WifiConfigurator.py:10-62 | a new window has an empty form except the 9600 default baud rate, offers the reported ports with the first one selected (or "" when none is reported), has the link closed and the listener running, and nothing written or logged |
| `Session.Connect` | WifiConfigurator.py:72-89 | with no port selected, only "No COM port selected." is logged; on an open link nothing at all happens; otherwise a successful open opens the link and logs "Connected to <port> at <baud> baud.", and a failed one logs one "Error: ..." line; nothing is ever written |
| `Session.Send` | WifiConfigurator.py:91-105 | a closed link logs "Not connected to any COM port.", whatever the fields hold; then an empty SSID or password logs "SSID and Password cannot be empty."; otherwise exactly one command is written and echoed as "Sent: ..." when the write succeeds, or one "Error: ..." line is logged and nothing is recorded; something is written if and only if all three guards pass and the write succeeds; the link is unchanged |
| `Session.Disconnect` | WifiConfigurator.py:107-112 | afterwards the link is closed; the logged message is "Disconnected from the COM port." when it was open and "No active connection to disconnect." otherwise; nothing else changes |
| `Session.Listen` | WifiConfigurator.py:114-129 | with the loop stopped or the link closed, nothing changes; a received line is logged as "Received: <stripped line>" only when the stripped line is non-empty; a failed read logs "Listener Error: ..."; only the monitor changes |
| `Session.CloseApp` | WifiConfigurator.py:137-141 | the listener stops and the link closes, with nothing logged or written |
| `Session.Step` | WifiConfigurator.py:64-141 | any single operation, form edits included, keeps the old monitor as a prefix and adds at most one message; it writes at most one line, only on a send over an open link with both fields non-empty, and that line is the command for the form's credentials; nothing restarts a stopped listener |
| `Session.LogAppendOnly` | WifiConfigurator.py:131-135 | after any run the monitor still starts with what it showed before, and it has grown by at most one message per operation |
| `Session.OnlyCommandsWritten` | WifiConfigurator.py:96-103 | after any run the earlier writes are kept, at most one line is added per operation, and every added line is a configuration command with non-empty SSID and password |
| `Session.SelectionFollowsTrace` | WifiConfigurator.py:64-70 | the port selected after any run is determined by the run alone: the last refresh (its first port, or "") or the last choice of the operator, else the initial selection |
| `Session.OpenIffLastConnectSucceeded` | WifiConfigurator.py:72-112 | for any run, the link afterwards is open if and only if the last connect whose open succeeded while a port was selected comes after every disconnect and window close, or the link was open to begin with and nothing closed it |
| `Session.NoWritesWithoutConnect` | WifiConfigurator.py:91-94 | starting closed, a run with no connect attempt writes nothing and leaves the link closed |
| `Session.StoppedListenerStaysSilent` | WifiConfigurator.py:114-116 | once the loop flag is cleared, no run of any operations sets it again, and every listener pass in such a run leaves the state unchanged |
| `Session.ConnectIsIdempotent` | WifiConfigurator.py:78 | a connect right after a successful connect leaves link and monitor unchanged, whatever its own open outcome would be |
| `Session.DisconnectTwice` | WifiConfigurator.py:107-112 | a second disconnect in a row keeps the link closed, writes nothing, and only logs "No active connection to disconnect." |
| `Session.ExampleSend` | WifiConfigurator.py:100-103 | on an open link with MyNet / secret123, a successful send writes exactly `setWifi - 'MyNet' --'secret123'` plus a newline |
| `Session.BlankReadShowsNothing` | WifiConfigurator.py:118-126 | a reading that is all whitespace (a timed-out empty read, a bare line ending) changes nothing |
| `App.SerialApp.constructor` | WifiConfigurator.py:10-62 | the new object is in the state `Session.Init` describes |
| `App.SerialApp.RefreshComPorts` | WifiConfigurator.py:64-70 | the new state is `Session.Refresh` of the old one; only the port list and the selection may change |
| `App.SerialApp.UpdateTextArea` | WifiConfigurator.py:131-135 | the message is appended to the monitor, and nothing else changes |
| `App.SerialApp.ConnectToSerial` | WifiConfigurator.py:72-89 | the new state is `Session.Connect` of the old one; only the link flag and the monitor may change |
| `App.SerialApp.SendToSerial` | WifiConfigurator.py:91-105 | the new state is `Session.Send` of the old one; only the writes and the monitor may change |
| `App.SerialApp.DisconnectSerial` | WifiConfigurator.py:107-112 | the new state is `Session.Disconnect` of the old one; only the link flag and the monitor may change |
| `App.SerialApp.SerialListenerPass` | WifiConfigurator.py:115-129 | the new state is `Session.Listen` of the old one; only the monitor may change |
| `App.SerialApp.CloseApp` | WifiConfigurator.py:137-141 | the new state is `Session.CloseApp` of the old one; only the loop flag and the link flag may change |
| `App.ConfigureDevice` | WifiConfigurator.py:46-52 | driving the buttons in an operator's order (send too early, connect twice, send with an empty form, send, disconnect twice, close) writes the configuration command exactly once, and leaves the link closed and the listener stopped |

## Left out

- Tk widgets, the grid layout, and the `StringVar` plumbing are UI. The form variables are
  plain fields, and the operator's edits are field assignments (the `ChoosePort`,
  `ChooseBaudrate` and `TypeCredentials` operations in `Session.Op`). The read-only
  drop-downs are not modelled as restricting those edits.
- pyserial is a foreign library. Opening the device, `readline`, `write`, `close` and port
  enumeration via `comports()` are replaced by parameters. Any exception raised while
  opening, including a failure of `int()` on the baud rate, becomes `openSucceeds == false`.
  With a baud rate from the fixed list, `int()` cannot fail.
- `message.encode()` is not modelled. The writes record the text of each line, not its UTF-8
  bytes.
- SendToSerial: a write that raises is modelled as writing nothing. Bytes that reach the
  device before the exception are not modelled.
- The listener thread, the `while self.running` loop and `time.sleep(0.1)` are concurrency and
  timing. Only one loop pass is modelled. Races between the listener and the buttons on the
  link and the monitor are not modelled.
- UTF-8 decoding with `errors='replace'` and the hexadecimal fallback are outside the model.
  The read result carries the decoded text. The fallback is unreachable under `errors='replace'`.
- Exception texts are opaque strings supplied as parameters.
- `root.destroy()` in `close_app` belongs to Tk and is not modelled.
