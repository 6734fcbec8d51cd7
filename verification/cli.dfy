/** The command-line entry point (`spotipi start [port_number]`): the
    decision `main` takes from the arguments after the program name. The
    decision is returned as a value instead of spawning the dev server or
    exiting the process. */
module Cli {
  import opened Wrappers
  import opened JsParseInt

  const DefaultPort: int := 5173
  const MinPort: int := 1
  const MaxPort: int := 65535
  /** Exit status of both failure paths (`process.exit(1)`). */
  const FailureExitCode: int := 1
  /** Written to standard error before exiting on a bad port. */
  const InvalidPortMessage: string := "Invalid port number. Please specify a port between 1 and 65535."
  /** Written to standard output before exiting on any other command. */
  const UsageMessage: string := "Usage: spotipi start [port_number]"

  datatype Outcome =
    | Start(port: int)
    | InvalidPort(message: string, exitCode: int)
    | Usage(message: string, exitCode: int)

  predicate IsValidPort(p: int) {
    MinPort <= p <= MaxPort
  }

  /** `main` on `process.argv.slice(2)`. */
  function Decide(args: seq<string>): (o: Outcome)
    ensures o.Usage? <==> |args| == 0 || args[0] != "start"
    ensures o.Usage? ==> o == Usage("Usage: spotipi start [port_number]", 1)
    ensures o.InvalidPort? ==>
      o == InvalidPort("Invalid port number. Please specify a port between 1 and 65535.", 1)
    ensures o.Start? ==> 1 <= o.port <= 65535
  {
    if |args| == 0 || args[0] != "start" then Usage(UsageMessage, FailureExitCode)
    else if |args| > 1 then
      match ParseInt(args[1])
      case Some(p) =>
        if IsValidPort(p) then Start(p) else InvalidPort(InvalidPortMessage, FailureExitCode)
      case None => InvalidPort(InvalidPortMessage, FailureExitCode)
    else Start(DefaultPort)
  }

  /** The `--port=<port>` flag handed to the dev server, with the port
      printed in decimal; reading the number back gives the port. */
  function PortFlag(port: nat): (flag: string)
    ensures |flag| > 7 && flag[..7] == "--port="
    ensures ParseInt(flag[7..]) == Some(port)
  {
    var digits := Decimal(port);
    var flag := "--port=" + digits;
    ParseIntOfDecimal(port);
    assert flag[7..] == digits;
    flag
  }

  /** The command run through the shell to start the dev server:
      `npm run dev -- --port=<port>`, whose last word reads back as the port
      (`PortFlag`). */
  function DevServerCommand(port: nat): (command: seq<string>)
    ensures |command| == 5
    ensures command[0] == "npm" && command[1] == "run" && command[2] == "dev" && command[3] == "--"
    ensures command[4] == PortFlag(port)
  {
    ["npm", "run", "dev", "--", PortFlag(port)]
  }

  /** `start` alone starts on the default port. */
  lemma StartWithoutPortUsesDefault()
    ensures Decide(["start"]) == Start(5173)
  {
  }

  /** With a port argument, the server starts on `p` exactly when `parseInt`
      reads `p` from it and `p` is in range; every other value of the
      argument, `NaN` included, is an invalid port. */
  lemma StartWithPort(s: string, p: int)
    ensures Decide(["start", s]) == Start(p) <==> ParseInt(s) == Some(p) && 1 <= p <= 65535
    ensures Decide(["start", s]).InvalidPort? <==>
      ParseInt(s).None? || ParseInt(s).value < 1 || ParseInt(s).value > 65535
  {
  }

  /** Only the first two arguments are read. */
  lemma ExtraArgumentsIgnored(args: seq<string>, extra: seq<string>)
    requires |args| >= 2
    ensures Decide(args + extra) == Decide(args)
  {
    assert (args + extra)[0] == args[0] && (args + extra)[1] == args[1];
  }

  /** Every in-range port typed in its decimal form is the port started on,
      and the dev server is then asked for that same port. */
  lemma PortRoundTrip(p: int)
    requires 1 <= p <= 65535
    ensures Decide(["start", Decimal(p)]) == Start(p)
    ensures ParseInt(PortFlag(p)[7..]) == Some(p)
  {
    ParseIntOfDecimal(p);
  }

  /** `-0` has digits but reads as zero, so it is an invalid port rather
      than a usage error or a start. */
  lemma NegativeZeroIsInvalidPort()
    ensures Decide(["start", "-0"]) == InvalidPort(InvalidPortMessage, 1)
  {
    ParseIntOfNegativeZero();
    StartWithPort("-0", 0);
  }

  /** A port written with blanks and a `+` sign still starts the server. */
  lemma PaddedPortStarts()
    ensures Decide(["start", " +8080"]) == Start(8080)
  {
    ParseIntSkipsBlankAndPlus();
    StartWithPort(" +8080", 8080);
  }
}
