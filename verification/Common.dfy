/** Values shared by all modules: optional results, instants and metric messages. */
module Common {

  datatype Option<+T> = None | Some(value: T)

  /** An instant. Only the order of instants matters. */
  type Time = int

  /** A metric message: its time stamp, which the router may overwrite, and everything else. */
  datatype Msg = Msg(time: Time, body: int)

  /** What the message processor returns for one message: a message unless it was dropped,
      and whether it failed. */
  datatype Processed = Processed(msg: Option<Msg>, failed: bool) {
    predicate Forwarded() {
      !failed && msg.Some?
    }
  }
}
