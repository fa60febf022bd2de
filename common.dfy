/** Shared value types: optional values, results, and the observable effects of the mod. */
module Common {

  /** Java's nullable references and "not found" answers. */
  datatype Option<+T> = None | Some(value: T)

  /** An operation that either yields a value or is rejected with an observable event. */
  datatype Result<+T, +E> = Ok(value: T) | Err(error: E)

  /**
   * What the mod makes visible to the player or sends to the server. Effects are appended to an
   * output log instead of being performed.
   */
  datatype Event =
    | Msg(key: string, args: seq<string>)    // sendLocalizedMessage("cycm.message." + key, args)
    | ChatLine(nick: string, text: string)   // "<nick> text" shown locally
    | Announce(nick: string, command: string) // legacy reader: "nick ввів команду '/command'"
    | SendChat(text: string)                 // player.sendChatMessage(text)
    | SendCommand(command: string)           // networkHandler.sendChatCommand(command)
    | Executed(requester: Option<string>, command: string, rep: nat, reps: nat)
                                             // a timer's announcement before it sends the command
    | Crash(exception: string)               // an unchecked Java exception escapes the handler

  /** What sendLocalizedMessage shows: the message, or nothing when there is no player. */
  function Shown(player: bool, key: string, args: seq<string>): seq<Event>
  {
    if player then [Msg(key, args)] else []
  }
}
