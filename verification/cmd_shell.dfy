/** The interactive shell of the cmd package (cmd/shell.go): the same line
    splitting, with a registry holding only the scaffolding command. */
module CmdShell {
  import opened Wrappers
  import opened Strings

  /** The commands the shell registers. */
  datatype Command = Make

  /** The name a command is registered under. */
  function Name(c: Command): string {
    match c
    case Make => "make"
  }

  /** The registered names. */
  const Names: set<string> := {"make"}

  /** Every command is registered under a registered name. */
  lemma NamesIdentifyCommands()
    ensures forall c :: Name(c) in Names
  {
  }

  /** getCommands: the registry, filled entry by entry.  Its keys are
      exactly the registered names, each mapped to the command of that
      name. */
  method GetCommands() returns (commands: map<string, Command>)
    ensures commands.Keys == Names
    ensures forall k :: k in commands ==> Name(commands[k]) == k
  {
    commands := map[];
    commands := commands["make" := Make];
  }

  /** getCommand: the registered command, or nothing (a nil command) for
      an unregistered key. */
  method GetCommand(key: string) returns (command: Option<Command>)
    ensures command.Some? <==> key in Names
    ensures command.Some? ==> Name(command.value) == key
  {
    var commands := GetCommands();
    if key in commands {
      return Some(commands[key]);
    }
    return None;
  }

  /** hasCommand: scans the registry's keys, stopping at a match. */
  method HasCommand(key: string) returns (found: bool)
    ensures found <==> key in Names
  {
    var commands := GetCommands();
    var unseen := commands.Keys;
    while unseen != {}
      invariant unseen <= commands.Keys
      invariant key !in commands.Keys - unseen
      decreases unseen
    {
      var registered :| registered in unseen;
      if registered == key {
        return true;
      }
      unseen := unseen - {registered};
    }
    return false;
  }

  /** splitCommand: the input split at every space; the first field is the
      program and the remaining fields, empty ones included, its arguments.
      Joining them with spaces gives back the input. */
  method SplitCommand(input: string) returns (bin: string, args: seq<string>)
    ensures HasPrefix(input, bin) && ' ' !in bin
    ensures ' ' in input ==> input[|bin|] == ' '
    ensures ' ' !in input ==> bin == input && args == []
    ensures Join([bin] + args, ' ') == input
    ensures |args| == Count(input, ' ')
    ensures forall k :: 0 <= k < |args| ==> ' ' !in args[k]
  {
    var split := Split(input, ' ');
    bin := "";
    args := [];
    var i := 0;
    while i < |split|
      invariant 0 <= i <= |split|
      invariant i == 0 ==> args == []
      invariant i >= 1 ==> bin == split[0] && args == split[1..i]
    {
      if i == 0 {
        bin := split[0];
      } else {
        args := args + [split[i]];
      }
      i := i + 1;
    }
    assert [bin] + args == split;
    JoinSplit(input, ' ');
    SplitFields(input, ' ');
    assert forall k :: 0 <= k < |args| ==> args[k] == split[k + 1];
    FirstField(input, ' ');
  }
}
