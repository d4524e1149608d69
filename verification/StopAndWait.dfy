/** An abstract stop-and-wait sender: what the read half of the server is meant to be, without
    buffers, streams or tables. */
module StopAndWait {
  import opened Octets

  /** Packet `current` is being sent, or waits for its acknowledgment, with `left` resends to go. */
  datatype Sender =
    | Sending(current: nat, left: nat)
    | Waiting(current: nat, left: nat)
    | Aborting
    | Stopped

  /** What reaches the sender. `fault` says that reading the next block fails. */
  datatype Signal =
    | Sent
    | Acked(number: nat, fault: bool)
    | PeerError
    | Garbage
    | Foreign
    | Timer

  datatype Message = Packet(number: nat) | IllegalOperation | ReadFault

  const RESENDS: nat := 3

  predicate Fits(s: Sender, signal: Signal) {
    match s
    case Stopped => false
    case Waiting(_, _) => !signal.Sent?
    case _ => signal.Sent?
  }

  predicate IsIgnored(s: Sender, signal: Signal) {
    s.Waiting? && (signal.Foreign? || (signal.Acked? && signal.number < s.current))
  }

  predicate IsExactAck(s: Sender, signal: Signal) {
    s.Waiting? && signal.Acked? && signal.number == s.current
  }

  /** Packets are numbered up to `last`. Only the exact acknowledgment moves on; an older one and
      a foreign packet change nothing and send nothing. */
  function Next(s: Sender, signal: Signal, last: nat): (Sender, Option<Message>)
    requires Fits(s, signal)
  {
    match s
    case Sending(c, l) => (Waiting(c, l), None)
    case Aborting => (Stopped, None)
    case Waiting(c, l) =>
      if IsIgnored(s, signal) then (s, None)
      else if IsExactAck(s, signal) then
        if c >= last then (Stopped, None)
        else if signal.fault then (Aborting, Some(ReadFault))
        else (Sending(c + 1, RESENDS), Some(Packet(c + 1)))
      else if signal.PeerError? then (Stopped, None)
      else if signal.Timer? then
        if l == 0 then (Stopped, None) else (Sending(c, l - 1), Some(Packet(c)))
      else (Aborting, Some(IllegalOperation))
  }

  /** Weights blocks left over resends left over the phase. */
  function Measure(s: Sender, last: nat): int {
    match s
    case Sending(c, l) => 8 * (last - c) + 2 * l + 3
    case Waiting(c, l) => 8 * (last - c) + 2 * l + 2
    case Aborting => 1
    case Stopped => 0
  }

  predicate InRange(s: Sender, last: nat) {
    s.Sending? || s.Waiting? ==> s.current <= last && s.left <= RESENDS
  }

  /** Where the last block is matters to nothing but the exact acknowledgment. */
  lemma OnlyExactAckAsksForMore(s: Sender, signal: Signal, a: nat, b: nat)
    requires Fits(s, signal) && !IsExactAck(s, signal)
    ensures Next(s, signal, a) == Next(s, signal, b)
  {
  }

  /** Everything but an ignored packet brings the end nearer. */
  lemma EverySignalCounts(s: Sender, signal: Signal, last: nat)
    requires Fits(s, signal) && InRange(s, last)
    ensures InRange(Next(s, signal, last).0, last)
    ensures 0 <= Measure(Next(s, signal, last).0, last)
    ensures if IsIgnored(s, signal) then Next(s, signal, last) == (s, None)
            else Measure(Next(s, signal, last).0, last) < Measure(s, last)
  {
  }
}
