/** The commands in a client's log. */
module SentCommands {
  import C = ClientSpec

  /** The commands sent, in order. */
  function Commands(log: seq<C.Effect>): seq<char> {
    if log == [] then []
    else Commands(log[..|log| - 1]) + if log[|log| - 1].Sent? then [log[|log| - 1].cmd] else []
  }

  lemma CommandsSnoc(log: seq<C.Effect>, e: C.Effect)
    ensures Commands(log + [e]) == Commands(log) + if e.Sent? then [e.cmd] else []
  {
    assert (log + [e])[..|log|] == log;
  }
}
