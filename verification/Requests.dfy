/** A value that may be missing: the driver's null pointers and failed lookups. */
module Options {
  datatype Option<+T> = None | Some(value: T)
}

/**
 * The state machine of one request callback
 * (cpp-driver/src/request_callback.hpp, cpp-driver/src/request_callback.cpp).
 */
module Requests {
  import opened Options

  type Id = nat
  type Byte = b: int | 0 <= b < 256

  datatype State =
    | New
    | Writing
    | Reading
    | ReadBeforeWrite
    | Finished
    | Cancelled
    | CancelledWriting
    | CancelledReading
    | CancelledReadBeforeWrite

  /** A response read from the socket. `event` tells the EVENT opcode from every other one. */
  datatype Frame = Frame(stream: int, event: bool, body: seq<Byte>)

  datatype ErrorCode = WriteError | TimedOut | EncodeError | EncodeErrorReportedByRequest

  /** How a request ended: exactly one of on_set, on_error, on_retry and on_cancel was called. */
  datatype Outcome =
    | Set(stream: int, frame: Frame)
    | Error(code: ErrorCode)
    | Retry
    | Cancel

  /**
   * `accepts` counts the times a connection took a reference to the request, `refs` the
   * references that the connection still holds, and `outcomes` the terminal notifications.
   */
  datatype Request = Request(
    state: State,
    stream: int,
    saved: Option<Frame>,
    idempotent: bool,
    accepts: nat,
    refs: int,
    outcomes: seq<Outcome>)

  /** The connection holds the request: a pending batch or the read list contains it. */
  predicate InFlight(s: State) {
    s != New && s != Finished && s != Cancelled
  }

  /** States of a request that waits in a pending batch for its write callback. */
  predicate WriteOutstanding(s: State) {
    s == Writing || s == ReadBeforeWrite || s == CancelledWriting || s == CancelledReadBeforeWrite
  }

  /** States of a request that waits in the read list for its response. */
  predicate ReadOutstanding(s: State) {
    s == Reading || s == CancelledReading
  }

  /** No response has been seen yet, so the request owns its stream id. */
  predicate AwaitsResponse(s: State) {
    s == Writing || s == Reading || s == CancelledWriting || s == CancelledReading
  }

  predicate CancelledInFlight(s: State) {
    s == CancelledWriting || s == CancelledReading || s == CancelledReadBeforeWrite
  }

  /** The transitions of set_state that do not end in an assertion failure. */
  predicate Legal(cur: State, next: State) {
    match cur
    case New => next == New || next == Cancelled || next == Writing
    case Writing => next == Reading || next == ReadBeforeWrite || next == Finished || next == Cancelled
    case Reading => next == Finished || next == Cancelled
    case ReadBeforeWrite => next == Finished || next == Cancelled
    case Finished => next == New || next == Cancelled
    case Cancelled => true
    case CancelledReadBeforeWrite => next == Cancelled
    case CancelledReading => next == Cancelled
    case CancelledWriting => next == Cancelled || next == CancelledReading || next == CancelledReadBeforeWrite
  }

  /** The state after set_state(next), with assertions compiled out. */
  function Transition(cur: State, next: State): (r: State) {
    if !Legal(cur, next) then cur
    else if cur == Cancelled then Cancelled
    else if next == Cancelled && cur == Writing then CancelledWriting
    else if next == Cancelled && cur == Reading then CancelledReading
    else if next == Cancelled && cur == ReadBeforeWrite then CancelledReadBeforeWrite
    else next
  }

  /**
   * The life of a request: it gets in flight by being written and in no other way, leaves as finished,
   * or as cancelled once it was cancelled, and a cancelled one never comes back.
   */
  lemma StatesFollow(cur: State, next: State)
    ensures var t := Transition(cur, next);
            && (cur == New ==> t == New || t == Writing || t == Cancelled)
            && (cur == Finished ==> t == Finished || t == New || t == Cancelled)
            && (cur == Cancelled ==> t == Cancelled)
            && (!InFlight(cur) && InFlight(t) ==> cur == New && t == Writing)
            && (InFlight(cur) && !InFlight(t) ==> t == if CancelledInFlight(cur) then Cancelled else Finished)
            && (CancelledInFlight(cur) ==> t == Cancelled || CancelledInFlight(t))
            && (ReadOutstanding(cur) ==> !WriteOutstanding(t))
            && (AwaitsResponse(t) ==> cur == New || AwaitsResponse(cur))
    ensures var t := Transition(cur, Cancelled);
            && (t == Cancelled || CancelledInFlight(t))
            && (InFlight(cur) && !CancelledInFlight(cur) ==>
                  && WriteOutstanding(t) == WriteOutstanding(cur)
                  && AwaitsResponse(t) == AwaitsResponse(cur)
                  && CancelledInFlight(t))
  {
  }

  /** `data` written over a stretch of bytes from an offset on. */
  function Overwritten(bytes: seq<Byte>, offset: nat, data: seq<Byte>): (r: seq<Byte>)
    requires offset + |data| <= |bytes|
    ensures |r| == |bytes|
  {
    bytes[..offset] + data + bytes[offset + |data|..]
  }

  /** Total size and contents of a list of buffers. */
  function Flat(bufs: seq<seq<Byte>>): seq<Byte> {
    if bufs == [] then [] else bufs[0] + Flat(bufs[1..])
  }

  lemma {:induction false} FlatConcat(a: seq<seq<Byte>>, b: seq<seq<Byte>>)
    ensures Flat(a + b) == Flat(a) + Flat(b)
  {
    if a == [] {
      assert a + b == b;
    } else {
      calc {
        Flat(a + b);
        { assert (a + b)[1..] == a[1..] + b; }
        a[0] + Flat(a[1..] + b);
        { FlatConcat(a[1..], b); }
        a[0] + (Flat(a[1..]) + Flat(b));
        Flat(a) + Flat(b);
      }
    }
  }
}
