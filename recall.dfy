/** What a history key reads and writes in either terminal: the history cursor
    and the input buffer. */
module Recall {

  datatype State = State(index: int, buffer: string)
}
