/**
 * Recognising a chat line as a command and routing it to the callback
 * registered under its first word. A callback is named by the `Command` it
 * runs; invoking it is `Commands.Run`.
 */
module CommandHandler {
  import opened Wrappers
  import opened RustStr

  /** The callbacks a handler can hold. */
  datatype Command = StartCommand | ScoreCommand | HelpCommand

  /**
   * `is_valid_command`: the line starts with `/` and its first
   * whitespace-separated word is longer than the `/` alone. (The source
   * measures that word in UTF-8 bytes; since `/` is one byte and every other
   * character at least one, "more than one byte" and "more than one
   * character" agree.)
   */
  function IsValidCommand(message: string): (valid: bool)
    ensures valid <==> |message| >= 2 && message[0] == '/' && !IsAsciiWhitespace(message[1])
  {
    if !(|message| > 0 && message[0] == '/') then false
    else
      FirstTokenAtStart(message);
      match FirstToken(message)
      case Some(command) => |command| > 1
      case None => false
  }

  /** A line starting with `/` always has a first word, so the final `false` of `is_valid_command` only answers lines without the `/`. */
  lemma SlashLineHasFirstWord(message: string)
    requires |message| > 0 && message[0] == '/'
    ensures FirstToken(message).Some?
    ensures IsValidCommand(message) <==> |FirstToken(message).value| > 1
  {
    FirstTokenAtStart(message);
  }

  /** `"/"` alone and `"/"` followed by whitespace are not commands. */
  lemma BareSlashIsNoCommand(rest: string)
    ensures !IsValidCommand("/")
    ensures !IsValidCommand("/ " + rest)
  {
    assert ("/ " + rest)[1] == ' ';
  }

  class CommandHandler {
    var callbacks: map<string, Command>

    /** `CommandHandler::default()`: nothing registered. */
    constructor ()
      ensures callbacks == map[]
    {
      callbacks := map[];
    }

    /** Registers `callback` under `prefix`, replacing an earlier one, and hands back the same handler for chaining. */
    method Callback(prefix: string, callback: Command) returns (handler: CommandHandler)
      modifies this
      ensures handler == this
      ensures callbacks == old(callbacks)[prefix := callback]
    {
      callbacks := callbacks[prefix := callback];
      handler := this;
    }

    /**
     * `handle`: a line that is no command is declined and runs nothing;
     * every command is accepted, and the callback run is the one registered
     * under exactly its first word, if there is one.
     */
    method Handle(message: string) returns (handled: bool, invoked: Option<Command>)
      ensures handled <==> |message| >= 2 && message[0] == '/' && !IsAsciiWhitespace(message[1])
      ensures !handled ==> invoked == None
      ensures handled ==>
        var word := message[..LeadingTokenLength(message)];
        invoked == if word in callbacks then Some(callbacks[word]) else None
    {
      if !IsValidCommand(message) {
        return false, None;
      }
      FirstTokenAtStart(message);
      var word := FirstToken(message).value;
      if word in callbacks {
        invoked := Some(callbacks[word]);
      } else {
        invoked := None;
      }
      handled := true;
    }
  }
}
