/** An optional value, used wherever the source may or may not
    produce something (a dequeued command, a read MIDI event, an emitted note). */
module Wrappers {

  datatype Option<+T> = None | Some(value: T)
}
