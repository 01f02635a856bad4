/** The process supervisor of builder.go: on each rebuild it kills the
    running application and debugger, compiles the project, starts the
    application on a negotiated address and attaches the debugger to it on
    a negotiated port.

    The compiler's exit status, the network (which ports can be bound) and
    the process ids the operating system hands out are oracles, passed in
    as parameters.  The operating system's process table is modelled by the
    set of process ids this builder started and has not killed. */
module Builder {
  import opened Wrappers
  import opened Strings
  import opened Config

  /** A command handle: program, arguments, working directory, environment
      (None: inherited) and the started process's id (None: the command was
      created but its process did not start). */
  datatype Cmd = Cmd(path: string, args: seq<string>, dir: string, env: Option<seq<string>>, pid: Option<nat>)

  /** The network as the builder sees it at one moment: the ports a
      listener can bind, and the port the system assigns to a listener on
      port 0 (None when even that bind fails). */
  datatype Net = Net(bindable: set<int>, ephemeral: Option<nat>)

  /** A port some running process holds: it cannot be bound, and the
      system does not hand it out for port 0. */
  predicate Held(net: Net, p: nat) {
    p !in net.bindable && net.ephemeral != Some(p)
  }

  /** What one rebuild achieved.  The three middle cases are where the
      source gives up with a panic. */
  datatype Outcome =
    | BuildFailed     // the compiler failed; nothing was started
    | NoAppAddress    // no port for the application could be bound
    | NoDebugPort     // no port for the debugger could be bound
    | AppNotRunning   // the application did not start, so it has no pid to attach to
    | Launched        // the application and the debugger were launched

  const MaxPort: int := 65535

  /** The port tried first for the application's address. */
  const PreferredAppPort: int := 8080

  const ListenFlag: string := "--listen=:"

  const AddressHost: string := "localhost:"

  /** Binding a TCP listener on ":port": port 0 asks the system for a free
      port; any other port binds only if it is a valid, bindable port. */
  function Listen(net: Net, port: int): (bound: Option<nat>)
    ensures port != 0 ==> (bound.Some? <==> 0 < port <= MaxPort && port in net.bindable)
    ensures port != 0 && bound.Some? ==> bound.value == port
  {
    if port == 0 then net.ephemeral
    else if 0 < port <= MaxPort && port in net.bindable then Some(port)
    else None
  }

  /** getListenerPort: the preferred port when it can be bound, otherwise
      a system-assigned one; nothing only when both binds fail. */
  function ListenerPort(net: Net, preferred: int): (port: Option<nat>)
    ensures 0 < preferred <= MaxPort && preferred in net.bindable ==> port == Some(preferred)
    ensures !(0 < preferred <= MaxPort && preferred in net.bindable) ==> port == net.ephemeral
    ensures port.None? <==> Listen(net, preferred).None? && net.ephemeral.None?
  {
    var preferredListener := Listen(net, preferred);
    if preferredListener.Some? then preferredListener else Listen(net, 0)
  }

  /** Negotiation never hands out a port that a running process holds. */
  lemma ListenerPortAvoidsHeld(net: Net, preferred: int, p: nat)
    requires Held(net, p)
    ensures ListenerPort(net, preferred) != Some(p)
  {
  }

  /** The application's address for a port: "localhost:" followed by the
      port's decimal digits. */
  function AppAddress(port: nat): (address: string)
    ensures HasPrefix(address, AddressHost) && |address| > |AddressHost|
    ensures forall k :: |AddressHost| <= k < |address| ==> '0' <= address[k] <= '9'
  {
    var address := AddressHost + NatToString(port);
    NatToStringDigits(port);
    assert forall k :: |AddressHost| <= k < |address| ==> address[k] == NatToString(port)[k - |AddressHost|];
    address
  }

  /** Reads the port back out of an application address. */
  function AddressPort(address: string): Option<nat> {
    if HasPrefix(address, AddressHost) then ParseNat(address[|AddressHost|..]) else None
  }

  lemma AddressRoundTrip(port: nat)
    ensures AddressPort(AppAddress(port)) == Some(port)
  {
    var a := AppAddress(port);
    assert a[..|AddressHost|] == AddressHost;
    assert a[|AddressHost|..] == NatToString(port);
    ParseNatToString(port);
  }

  /** The arguments of the compiler ("go") invocation. */
  function CompilerArgs(c: Config): (args: seq<string>)
    ensures |args| == 4 + |c.buildArgs| && args[4..] == c.buildArgs
  {
    ["build", "-C=" + c.path, "-o", c.name] + c.buildArgs
  }

  /** What a compiler invocation asks for: working directory, output name
      and extra arguments. */
  function CompileRequest(args: seq<string>): Option<(string, string, seq<string>)> {
    if |args| >= 4 && args[0] == "build" && HasPrefix(args[1], "-C=") && args[2] == "-o"
    then Some((args[1][3..], args[3], args[4..]))
    else None
  }

  /** The compiler is asked to build the project directory into the
      configured name, with the configured extra arguments in order. */
  lemma CompilerArgsRoundTrip(c: Config)
    ensures CompileRequest(CompilerArgs(c)) == Some((c.path, c.name, c.buildArgs))
  {
    var args := CompilerArgs(c);
    assert args[1][..3] == "-C=";
    assert args[1][3..] == c.path;
    assert args[4..] == c.buildArgs;
  }

  /** The arguments of the debugger ("dlv") invocation: attach headless,
      API version 2, multi-client, continuing, listening on `port`. */
  function DebuggerArgs(port: nat, appPid: nat): (args: seq<string>)
    ensures |args| == 7 && args[0] == "attach" && HasPrefix(args[1], ListenFlag)
    ensures forall k :: |ListenFlag| <= k < |args[1]| ==> '0' <= args[1][k] <= '9'
    ensures forall k :: 0 <= k < |args[4]| ==> '0' <= args[4][k] <= '9'
  {
    NatToStringDigits(port);
    NatToStringDigits(appPid);
    var listen := ListenFlag + NatToString(port);
    assert forall k :: |ListenFlag| <= k < |listen| ==> listen[k] == NatToString(port)[k - |ListenFlag|];
    ["attach", listen, "--headless=true", "--api-version=2",
     NatToString(appPid), "--accept-multiclient", "--continue"]
  }

  /** The listen port and target pid a debugger invocation names. */
  function DebugTarget(args: seq<string>): Option<(nat, nat)> {
    if |args| == 7 && args[0] == "attach" && HasPrefix(args[1], ListenFlag) then
      var port := ParseNat(args[1][|ListenFlag|..]);
      var pid := ParseNat(args[4]);
      if port.Some? && pid.Some? then Some((port.value, pid.value)) else None
    else None
  }

  /** The debugger listens on the given port and attaches to the given
      process. */
  lemma DebuggerArgsRoundTrip(port: nat, appPid: nat)
    ensures |DebuggerArgs(port, appPid)| == 7
    ensures DebugTarget(DebuggerArgs(port, appPid)) == Some((port, appPid))
  {
    var args := DebuggerArgs(port, appPid);
    assert args[1][..|ListenFlag|] == ListenFlag;
    assert args[1][|ListenFlag|..] == NatToString(port);
    ParseNatToString(port);
    ParseNatToString(appPid);
  }

  /** The application command: the built binary, run in the project
      directory with the address as its only argument. */
  function AppCmd(c: Config, pid: Option<nat>): (cmd: Cmd)
    ensures cmd.path == c.path + "/" + c.name && cmd.args == [c.address]
    ensures cmd.dir == c.path && cmd.env.None? && cmd.pid == pid
  {
    Cmd(BinaryPath(c), [c.address], c.path, None, pid)
  }

  /** The debugger command, run in the project directory with an empty
      environment. */
  function DebuggerCmd(c: Config, port: nat, appPid: nat, pid: Option<nat>): (cmd: Cmd)
    ensures cmd.path == "dlv" && cmd.dir == c.path && cmd.env == Some([]) && cmd.pid == pid
    ensures |cmd.args| == 7 && cmd.args[0] == "attach" && cmd.args[4] == NatToString(appPid)
  {
    Cmd("dlv", DebuggerArgs(port, appPid), c.path, Some([]), pid)
  }

  /** The running process behind an optional id, as a set and as a list. */
  function PidSet(pid: Option<nat>): set<nat> {
    if pid.Some? then {pid.value} else {}
  }

  function HandlePid(c: Option<Cmd>): Option<nat> {
    if c.Some? then c.value.pid else None
  }

  function PidSeq(pid: Option<nat>): seq<nat> {
    if pid.Some? then [pid.value] else []
  }

  class Builder {
    var config: Config
    var runningBinary: Option<Cmd>
    var debugger: Option<Cmd>
    /** The debugger port, 0 until one is negotiated. */
    var port: nat
    /** Processes this builder started and has not killed. */
    var live: set<nat>
    /** The process ids passed to KillPid, in order. */
    var killed: seq<nat>

    /** Every live process is the current application or debugger: there
        is never more than one of each. */
    ghost predicate Valid()
      reads this
    {
      live <= PidSet(HandlePid(runningBinary)) + PidSet(HandlePid(debugger))
    }

    constructor (conf: Config)
      ensures Valid()
      ensures config == conf && runningBinary == None && debugger == None
      ensures port == 0 && live == {} && killed == []
    {
      config := conf;
      runningBinary := None;
      debugger := None;
      port := 0;
      live := {};
      killed := [];
    }

    /** KillPid on a handle's process group, when the handle has a
        process. */
    method Kill(handle: Option<Cmd>)
      modifies this
      ensures killed == old(killed) + PidSeq(HandlePid(handle))
      ensures live == old(live) - PidSet(HandlePid(handle))
      ensures config == old(config) && runningBinary == old(runningBinary)
      ensures debugger == old(debugger) && port == old(port)
    {
      if handle.Some? && handle.value.pid.Some? {
        killed := killed + [handle.value.pid.value];
        live := live - {handle.value.pid.value};
      }
    }

    /** buildBinary: runs the compiler; `compiles` is its exit status. */
    method BuildBinary(compiles: bool) returns (args: seq<string>, ok: bool)
      ensures args == CompilerArgs(config)
      ensures CompileRequest(args) == Some((config.path, config.name, config.buildArgs))
      ensures ok == compiles
    {
      args := ["build", "-C=" + config.path, "-o", config.name];
      args := args + config.buildArgs;
      CompilerArgsRoundTrip(config);
      ok := compiles;
    }

    /** runBinary: negotiates the address once (preferring port 8080) and
        keeps it for later runs, then starts the application on it.  `ok`
        is false where the source panics for want of a port; then nothing
        changes. */
    method RunBinary(net: Net, appPid: Option<nat>) returns (ok: bool)
      modifies this
      ensures ok <==> old(config.address) != "" || ListenerPort(net, PreferredAppPort).Some?
      ensures !ok ==> config == old(config) && runningBinary == old(runningBinary) && live == old(live)
      ensures ok && old(config.address) == "" ==>
                config.address == AppAddress(ListenerPort(net, PreferredAppPort).value)
      ensures old(config.address) != "" ==> config.address == old(config.address)
      ensures config == old(config).(address := config.address)
      ensures ok ==> runningBinary == Some(AppCmd(config, appPid)) && live == old(live) + PidSet(appPid)
      ensures debugger == old(debugger) && port == old(port) && killed == old(killed)
    {
      if config.address == "" {
        var freePort := ListenerPort(net, PreferredAppPort);
        if freePort.None? {
          return false;
        }
        config := config.(address := AppAddress(freePort.value));
      }
      runningBinary := Some(Cmd(config.path + "/" + config.name, [config.address], config.path, None, appPid));
      if appPid.Some? {
        live := live + {appPid.value};
      }
      return true;
    }

    /** runDebugger: negotiates the debugger port once (preferring the
        configured one) and keeps it, then attaches a debugger to the
        application's process. */
    method RunDebugger(net: Net, debuggerPid: Option<nat>) returns (outcome: Outcome)
      modifies this
      ensures outcome in {NoDebugPort, AppNotRunning, Launched}
      ensures outcome == NoDebugPort <==> old(port) == 0 && ListenerPort(net, config.listenPort).None?
      ensures old(port) != 0 ==> port == old(port)
      ensures old(port) == 0 && outcome != NoDebugPort ==> port == ListenerPort(net, config.listenPort).value
      ensures outcome == AppNotRunning <==> outcome != NoDebugPort && HandlePid(runningBinary).None?
      ensures outcome == Launched ==>
                debugger == Some(DebuggerCmd(config, port, HandlePid(runningBinary).value, debuggerPid))
                && live == old(live) + PidSet(debuggerPid)
      ensures outcome != Launched ==> debugger == old(debugger) && live == old(live)
      ensures outcome == NoDebugPort ==> port == old(port)
      ensures config == old(config) && runningBinary == old(runningBinary) && killed == old(killed)
    {
      if port == 0 {
        var freePort := ListenerPort(net, config.listenPort);
        if freePort.None? {
          return NoDebugPort;
        }
        port := freePort.value;
      }
      if HandlePid(runningBinary).None? {
        return AppNotRunning;
      }
      var debuggerArgs := ["attach", ListenFlag + NatToString(port), "--headless=true", "--api-version=2",
                           NatToString(runningBinary.value.pid.value), "--accept-multiclient", "--continue"];
      debugger := Some(Cmd("dlv", debuggerArgs, config.path, Some([]), debuggerPid));
      if debuggerPid.Some? {
        live := live + {debuggerPid.value};
      }
      return Launched;
    }

    /** build: kills the running application and then the debugger, then
        compiles; only a successful compile runs the application and the
        debugger.  Whatever happens, no process of an earlier cycle is
        left alive.  `net` is the network when the application's address
        is negotiated; `debugNet` is the network afterwards, once the
        application has been started, when the debugger's port is. */
    method Build(compiles: bool, net: Net, debugNet: Net, appPid: Option<nat>, debuggerPid: Option<nat>)
      returns (outcome: Outcome)
      requires Valid()
      modifies this
      ensures Valid()
      ensures killed == old(killed) + PidSeq(HandlePid(old(runningBinary))) + PidSeq(HandlePid(old(debugger)))
      ensures live <= PidSet(appPid) + PidSet(debuggerPid)
      ensures outcome == BuildFailed <==> !compiles
      ensures outcome == NoAppAddress <==>
                compiles && old(config.address) == "" && ListenerPort(net, PreferredAppPort).None?
      ensures outcome == NoDebugPort <==>
                compiles && outcome != NoAppAddress && old(port) == 0 && ListenerPort(debugNet, config.listenPort).None?
      ensures outcome == AppNotRunning <==>
                compiles && outcome != NoAppAddress && outcome != NoDebugPort && appPid.None?
      ensures !compiles ==>
                config == old(config) && port == old(port) && live == {}
                && runningBinary == old(runningBinary) && debugger == old(debugger)
      ensures config == old(config).(address := config.address)
      ensures old(config.address) != "" ==> config.address == old(config.address)
      ensures old(port) != 0 ==> port == old(port)
      ensures old(config.address) == "" && compiles && outcome != NoAppAddress ==>
                config.address == AppAddress(ListenerPort(net, PreferredAppPort).value)
      ensures old(port) == 0 && compiles && outcome != NoAppAddress && outcome != NoDebugPort ==>
                port == ListenerPort(debugNet, config.listenPort).value
      ensures outcome == Launched && old(port) == 0 && AddressPort(config.address).Some?
              && Held(debugNet, AddressPort(config.address).value) ==>
                port != AddressPort(config.address).value
      ensures outcome == Launched ==>
                appPid.Some? && config.address != ""
                && runningBinary == Some(AppCmd(config, appPid))
                && debugger == Some(DebuggerCmd(config, port, appPid.value, debuggerPid))
                && live == PidSet(appPid) + PidSet(debuggerPid)
    {
      Kill(runningBinary);
      Kill(debugger);
      var args, ok := BuildBinary(compiles);
      if !ok {
        return BuildFailed;
      }
      var started := RunBinary(net, appPid);
      if !started {
        return NoAppAddress;
      }
      outcome := RunDebugger(debugNet, debuggerPid);
    }
  }

  /** A client of the builder: a failed rebuild leaves nothing running and
      keeps the negotiated address; the next successful rebuild starts the
      application on that same address. */
  method RebuildAfterFailure(b: Builder, net: Net, appPid: nat, debuggerPid: nat)
    returns (aliveAfterFailure: set<nat>, addressAfterFailure: string)
    requires b.Valid() && b.config.address != "" && b.port != 0
    modifies b
    ensures aliveAfterFailure == {} && addressAfterFailure == old(b.config.address)
    ensures b.Valid()
    ensures b.runningBinary == Some(AppCmd(old(b.config), Some(appPid)))
    ensures b.runningBinary.value.args == [old(b.config.address)]
    ensures b.live == {appPid, debuggerPid}
  {
    var failed := b.Build(false, net, net, Some(appPid), Some(debuggerPid));
    aliveAfterFailure, addressAfterFailure := b.live, b.config.address;
    var launched := b.Build(true, net, net, Some(appPid), Some(debuggerPid));
    assert launched == Launched;
  }
}
