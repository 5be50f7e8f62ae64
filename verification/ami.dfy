/**
 * The parts of the Asterisk Manager Interface (AMI) client library that the
 * exporter consumes: events, action responses, outgoing actions, and the
 * clock the polling loops read.  The library itself (sockets, framing, its
 * event thread) is not part of this model; these are the values it hands over.
 */
module Ami {

  datatype Option<+T> = None | Some(value: T) {
    function GetOr(default: T): T {
      match this
      case Some(v) => v
      case None => default
    }
  }

  /** An AMI event: its name (absent for some frames) and its key/value attributes. */
  datatype Event = Event(name: Option<string>, keys: map<string, string>)

  /** The response to an action: its status text and whether the library flags it as an error. */
  datatype Response = Response(status: string, isError: bool)

  /** An outgoing action (the library's SimpleAction): its name and its header fields. */
  datatype SimpleAction = SimpleAction(name: string, keys: map<string, string>)

  /**
   * Time is counted in ticks of one polling interval.  Both polling loops of
   * the exporter sleep 0.02 s between checks, so one second is 50 ticks.
   */
  const TicksPerSecond: int := 50

  /** A timeout given in whole seconds, expressed in ticks. */
  function Ticks(seconds: int): (t: int)
    ensures seconds >= 0 ==> t >= 0
  {
    seconds * TicksPerSecond
  }
}
