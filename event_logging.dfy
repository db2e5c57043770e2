/**
 * The severity-triggered log buffer: a bounded, ordered buffer of log records
 * that drops its oldest record when full and hands the whole buffer to its
 * target as soon as a record at or above the flush level arrives.
 */
module EventLogging {
  import opened Wrappers

  // Numeric levels of Python's logging module.
  const DEBUG: int := 10
  const INFO: int := 20
  const WARNING: int := 30
  const ERROR: int := 40
  const CRITICAL: int := 50

  // The instance the application configures: capacity 100, flush at ERROR, with a target.
  const CONFIGURED_CAPACITY: nat := 100
  const CONFIGURED_FLUSH_LEVEL: int := ERROR

  datatype LogRecord = LogRecord(levelno: int, message: string)

  /** `pop(0)` on an empty buffer, which is what a zero capacity leads to. */
  datatype EmitError = IndexError

  /** The handler's settings: fixed at construction. */
  datatype Config = Config(capacity: nat, flushLevel: int, hasTarget: bool)

  const CONFIGURED: Config := Config(CONFIGURED_CAPACITY, CONFIGURED_FLUSH_LEVEL, true)

  /** The buffer, and every record the target has handled so far, in the order handled. */
  datatype HandlerState = HandlerState(buffer: seq<LogRecord>, delivered: seq<LogRecord>)

  predicate ShouldFlush(flushLevel: int, r: LogRecord) {
    r.levelno >= flushLevel
  }

  /** The inherited flush: with a target, deliver the buffer in order and clear it; otherwise nothing. */
  function Flushed(hasTarget: bool, s: HandlerState): HandlerState {
    if hasTarget then HandlerState([], s.delivered + s.buffer) else s
  }

  /** The buffer after the capacity check and the append, before any flush. */
  function Appended(capacity: nat, buffer: seq<LogRecord>, r: LogRecord): Result<seq<LogRecord>, EmitError> {
    if |buffer| == capacity then
      if buffer == [] then Failure(IndexError) else Success(buffer[1..] + [r])
    else
      Success(buffer + [r])
  }

  /** One `emit`: make room, append, and flush when the record is severe enough. */
  function EmitStep(c: Config, s: HandlerState, r: LogRecord): Result<HandlerState, EmitError> {
    match Appended(c.capacity, s.buffer, r)
    case Failure(e) => Failure(e)
    case Success(b) =>
      var appended := HandlerState(b, s.delivered);
      Success(if ShouldFlush(c.flushLevel, r) then Flushed(c.hasTarget, appended) else appended)
  }

  /** A sequence of `emit` calls, left to right; the first one that raises stops the run. */
  function EmitAll(c: Config, s: HandlerState, rs: seq<LogRecord>): Result<HandlerState, EmitError>
    decreases |rs|
  {
    if rs == [] then Success(s)
    else
      match EmitStep(c, s, rs[0])
      case Failure(e) => Failure(e)
      case Success(s') => EmitAll(c, s', rs[1..])
  }

  /** The last `n` elements of `s` (all of them when there are fewer). */
  function LastN<T>(s: seq<T>, n: nat): seq<T> {
    if |s| <= n then s else s[|s| - n..]
  }

  /** The records of `b` that survive making room for one more. */
  function Survivors(capacity: nat, b: seq<LogRecord>): seq<LogRecord>
    requires b != [] || |b| != capacity
  {
    if |b| == capacity then b[1..] else b
  }

  /** `emit` raises exactly when the buffer is full at capacity zero. */
  lemma EmitRaisesOnlyAtZeroCapacity(c: Config, s: HandlerState, r: LogRecord)
    requires |s.buffer| <= c.capacity
    ensures EmitStep(c, s, r).Failure? <==> c.capacity == 0
  {
  }

  /**
   * Below the flush level, a full buffer loses exactly its oldest record, the
   * new record goes last, and the target receives nothing.
   */
  lemma EmitEvictsOldest(c: Config, s: HandlerState, r: LogRecord)
    requires c.capacity >= 1 && |s.buffer| == c.capacity
    requires !ShouldFlush(c.flushLevel, r)
    ensures EmitStep(c, s, r) == Success(HandlerState(s.buffer[1..] + [r], s.delivered))
  {
  }

  /** Emitting never takes the buffer above capacity. */
  lemma EmitBounded(c: Config, s: HandlerState, r: LogRecord)
    requires c.capacity >= 1 && |s.buffer| <= c.capacity
    ensures EmitStep(c, s, r).Success?
    ensures |EmitStep(c, s, r).value.buffer| <= c.capacity
  {
  }

  /**
   * Below the flush level the surviving records keep their arrival order, the
   * new record is last, and the target receives nothing.
   */
  lemma EmitBelowLevel(c: Config, s: HandlerState, r: LogRecord)
    requires c.capacity >= 1 && |s.buffer| <= c.capacity
    requires !ShouldFlush(c.flushLevel, r)
    ensures EmitStep(c, s, r) == Success(HandlerState(Survivors(c.capacity, s.buffer) + [r], s.delivered))
    ensures EmitStep(c, s, r).value.buffer[|EmitStep(c, s, r).value.buffer| - 1] == r
  {
  }

  /**
   * At or above the flush level, with a target, the target receives the whole
   * buffer in arrival order with the triggering record last, and the buffer is empty.
   */
  lemma EmitAtLevelFlushes(c: Config, s: HandlerState, r: LogRecord)
    requires c.capacity >= 1 && |s.buffer| <= c.capacity && c.hasTarget
    requires ShouldFlush(c.flushLevel, r)
    ensures EmitStep(c, s, r) == Success(HandlerState([], s.delivered + Survivors(c.capacity, s.buffer) + [r]))
  {
    assert s.delivered + (Survivors(c.capacity, s.buffer) + [r]) == s.delivered + Survivors(c.capacity, s.buffer) + [r];
  }

  /** Without a target a flush is a no-op: the record just stays buffered. */
  lemma EmitWithoutTargetKeeps(c: Config, s: HandlerState, r: LogRecord)
    requires c.capacity >= 1 && |s.buffer| <= c.capacity && !c.hasTarget
    ensures EmitStep(c, s, r) == Success(HandlerState(Survivors(c.capacity, s.buffer) + [r], s.delivered))
  {
  }

  /**
   * With no record at the flush level, a run of emits leaves exactly the last
   * `capacity` records (of those buffered and those emitted) in the buffer, and the
   * target receives nothing.
   */
  lemma {:induction false} EmitAllRetainsLast(c: Config, s: HandlerState, rs: seq<LogRecord>)
    requires c.capacity >= 1 && |s.buffer| <= c.capacity
    requires forall k :: 0 <= k < |rs| ==> !ShouldFlush(c.flushLevel, rs[k])
    ensures EmitAll(c, s, rs) == Success(HandlerState(LastN(s.buffer + rs, c.capacity), s.delivered))
    decreases |rs|
  {
    if rs == [] {
      assert s.buffer + rs == s.buffer;
    } else {
      EmitBelowLevel(c, s, rs[0]);
      var s' := HandlerState(Survivors(c.capacity, s.buffer) + [rs[0]], s.delivered);
      assert s'.buffer == LastN(LastN(s.buffer, c.capacity) + [rs[0]], c.capacity);
      LastNConcat(s.buffer, [rs[0]], c.capacity);
      EmitAllRetainsLast(c, s', rs[1..]);
      LastNConcat(s.buffer + [rs[0]], rs[1..], c.capacity);
      assert s.buffer + [rs[0]] + rs[1..] == s.buffer + rs;
    }
  }

  /** Trimming to the last n before appending more does not change the last n. */
  lemma LastNConcat<T>(x: seq<T>, y: seq<T>, n: nat)
    ensures LastN(LastN(x, n) + y, n) == LastN(x + y, n)
  {
    if |x| > n {
      var t := |x| - n;
      var tail := (x + y)[t..];
      assert LastN(x, n) + y == tail;
      if y == [] {
        assert LastN(tail, n) == tail;
        assert LastN(x + y, n) == tail;
      } else {
        var u := |x| + |y| - n;
        assert LastN(tail, n) == tail[u - t..];
        assert tail[u - t..] == (x + y)[u..];
      }
    }
  }

  /**
   * The configured handler (capacity 100, flush at ERROR): 101 records below
   * ERROR into an empty buffer leave exactly the last 100.
   */
  lemma ConfiguredRetainsLastHundred(rs: seq<LogRecord>)
    requires |rs| == CONFIGURED_CAPACITY + 1
    requires forall k :: 0 <= k < |rs| ==> rs[k].levelno < ERROR
    ensures EmitAll(CONFIGURED, HandlerState([], []), rs) == Success(HandlerState(rs[1..], []))
  {
    EmitAllRetainsLast(CONFIGURED, HandlerState([], []), rs);
    assert [] + rs == rs;
  }

  /** The handler object: its settings are fixed, its buffer and its target's log change. */
  class EventMemoryHandler {
    const capacity: nat
    const flushLevel: int
    const hasTarget: bool
    var buffer: seq<LogRecord>
    var delivered: seq<LogRecord>   // what the target has handled, in order

    ghost predicate Valid()
      reads this
    {
      |buffer| <= capacity
    }

    function Settings(): Config {
      Config(capacity, flushLevel, hasTarget)
    }

    function State(): HandlerState
      reads this
    {
      HandlerState(buffer, delivered)
    }

    constructor (capacity: nat, flushLevel: int, hasTarget: bool)
      ensures Valid()
      ensures this.capacity == capacity && this.flushLevel == flushLevel && this.hasTarget == hasTarget
      ensures buffer == [] && delivered == []
    {
      this.capacity := capacity;
      this.flushLevel := flushLevel;
      this.hasTarget := hasTarget;
      buffer := [];
      delivered := [];
    }

    /** The inherited flush: hand each buffered record to the target, then clear the buffer. */
    method Flush()
      modifies this
      ensures State() == Flushed(hasTarget, old(State()))
    {
      if hasTarget {
        var i := 0;
        while i < |buffer|
          invariant 0 <= i <= |buffer|
          invariant buffer == old(buffer)
          invariant delivered == old(delivered) + buffer[..i]
        {
          delivered := delivered + [buffer[i]];
          i := i + 1;
        }
        assert buffer[..i] == buffer;
        buffer := [];
      }
    }

    method Emit(r: LogRecord) returns (raised: Option<EmitError>)
      requires Valid()
      modifies this
      ensures Valid()
      ensures match EmitStep(Settings(), old(State()), r)
              case Success(s) => raised.None? && State() == s
              case Failure(e) => raised == Some(e) && State() == old(State())
    {
      if |buffer| == capacity {
        if buffer == [] {
          return Some(IndexError);
        }
        buffer := buffer[1..];
      }
      buffer := buffer + [r];
      if ShouldFlush(flushLevel, r) {
        Flush();
      }
      return None;
    }
  }

  /** The handler as the application's logging configuration builds it. */
  method NewConfiguredHandler() returns (h: EventMemoryHandler)
    ensures fresh(h) && h.Valid()
    ensures h.Settings() == CONFIGURED && h.State() == HandlerState([], [])
  {
    h := new EventMemoryHandler(CONFIGURED_CAPACITY, CONFIGURED_FLUSH_LEVEL, true);
  }
}
