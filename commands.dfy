/** The command registry (commands/commands.mjs): a shared table from
    command name to its description and handler. */
module Commands {

  /** How running a handler ended: normally, or with an exception. */
  datatype HandlerOutcome = Completed | Threw

  /** A registry entry; the handler is given the message's arguments. */
  datatype Command = Command(description: string, execute: seq<string> -> HandlerOutcome)

  class Registry {
    /** The `commands` object's own entries. */
    var commands: map<string, Command>

    /** The registry starts empty. */
    constructor ()
      ensures commands == map[]
    {
      commands := map[];
    }

    /** `addCommand`: the entry for `name` becomes the new one, whether or
        not the name was registered before; other entries are kept. */
    method AddCommand(name: string, description: string, execute: seq<string> -> HandlerOutcome)
      modifies this
      ensures commands == old(commands)[name := Command(description, execute)]
      ensures name in commands && commands[name] == Command(description, execute)
      ensures forall other :: other != name ==>
        (other in commands <==> other in old(commands)) && (other in commands ==> commands[other] == old(commands)[other])
    {
      commands := commands[name := Command(description, execute)];
    }
  }
}
