/** The one command the configurator sends to the device, and a reference parser for it. */
module Wire {

  datatype Option<T> = None | Some(value: T)

  datatype Credentials = Credentials(ssid: string, password: string)

  const Prefix := "setWifi - '"
  const Separator := "' --'"
  const Terminator := "'\n"

  /** The line written to the serial link: the SSID and the password are quoted but not escaped. */
  function Command(ssid: string, password: string): string {
    Prefix + ssid + Separator + password + Terminator
  }

  /** Position of the first `c` in `s`, or |s| when there is none. */
  function IndexOf(s: string, c: char): (r: nat)
    ensures r <= |s|
    ensures r < |s| ==> s[r] == c
    ensures forall i :: 0 <= i < r ==> s[i] != c
  {
    if s == [] || s[0] == c then 0 else 1 + IndexOf(s[1..], c)
  }

  /** Reads a command line back the way a receiver would: the SSID ends at the first quote
      after the prefix, and everything between the separator and the terminator is the password. */
  function Parse(line: string): Option<Credentials> {
    if |line| < |Prefix| + |Terminator| || line[..|Prefix|] != Prefix || line[|line| - |Terminator|..] != Terminator then
      None
    else
      var body := line[|Prefix|..|line| - |Terminator|];
      var q := IndexOf(body, '\'');
      if Separator <= body[q..] then Some(Credentials(body[..q], body[q + |Separator|..])) else None
  }

  /** A command whose SSID holds no quote parses back to its own fields. */
  lemma ParseCommand(ssid: string, password: string)
    requires '\'' !in ssid
    ensures Parse(Command(ssid, password)) == Some(Credentials(ssid, password))
  {
    var line := Command(ssid, password);
    var body := ssid + Separator + password;
    assert line == Prefix + body + Terminator;
    assert line[..|Prefix|] == Prefix;
    assert line[|line| - |Terminator|..] == Terminator;
    assert line[|Prefix|..|line| - |Terminator|] == body;
    var q := IndexOf(body, '\'');
    assert body[|ssid|] == '\'';
    assert forall i :: 0 <= i < |ssid| ==> body[i] == ssid[i];
    assert q == |ssid|;
    assert body[q..] == Separator + password;
    assert body[..q] == ssid;
    assert body[q + |Separator|..] == password;
  }

  /** Whatever the parser accepts is a command, and its SSID holds no quote. */
  lemma ParseSound(line: string, c: Credentials)
    requires Parse(line) == Some(c)
    ensures '\'' !in c.ssid && line == Command(c.ssid, c.password)
  {
    var body := line[|Prefix|..|line| - |Terminator|];
    var q := IndexOf(body, '\'');
    assert c.ssid == body[..q] && c.password == body[q + |Separator|..];
    assert body == c.ssid + Separator + c.password by {
      assert body == body[..q] + body[q..q + |Separator|] + body[q + |Separator|..];
    }
    assert line == line[..|Prefix|] + body + line[|line| - |Terminator|..];
    forall i | 0 <= i < |c.ssid| ensures c.ssid[i] != '\'' { assert c.ssid[i] == body[i]; }
  }

  /** The parser accepts exactly the commands whose SSID holds no quote, and returns their fields. */
  lemma ParseIffCommand(line: string, ssid: string, password: string)
    ensures Parse(line) == Some(Credentials(ssid, password)) <==> '\'' !in ssid && line == Command(ssid, password)
  {
    if '\'' !in ssid && line == Command(ssid, password) { ParseCommand(ssid, password); }
    if Parse(line) == Some(Credentials(ssid, password)) { ParseSound(line, Credentials(ssid, password)); }
  }

  /** Without escaping, a quote in the SSID makes two different credential pairs send the same line. */
  lemma QuoteInSsidIsAmbiguous()
    ensures Command("a' --'b", "c") == Command("a", "b' --'c")
    ensures Credentials("a' --'b", "c") != Credentials("a", "b' --'c")
  {
  }

  /** The line that the example credentials MyNet / secret123 produce. */
  lemma ExampleCommand()
    ensures Command("MyNet", "secret123") == "setWifi - 'MyNet' --'secret123'\n"
  {
  }
}
