/**
 The input-report list of `hid_device_`: what the list, seen as a value, goes through.
 The linked list itself is `HidLibusb.HidDevice`, whose methods are proved against these functions.
 */
module ReportQueue {
  import opened Common

  type Report = seq<Byte>

  /** The read callback pops when it has walked more than 30 links, so 32 reports stay queued. */
  const CAPACITY: nat := 32

  /** How a report left the list. `seen` is the number of arrivals there had been by then. */
  datatype Removal =
    | Read(report: Report)
    | Dropped(report: Report, seen: nat)
    | Cleared(report: Report)

  /** The list together with the whole history of arrivals and removals. */
  datatype Fifo = Fifo(queue: seq<Report>, arrivals: seq<Report>, gone: seq<Removal>)

  const EMPTY: Fifo := Fifo([], [], [])

  /** The removed reports, in the order they were removed. */
  function Reports(gone: seq<Removal>): (reports: seq<Report>)
    ensures |reports| == |gone|
    ensures forall i :: 0 <= i < |gone| ==> reports[i] == gone[i].report
  {
    seq(|gone|, i requires 0 <= i < |gone| => gone[i].report)
  }

  /** The oldest report leaves the list; `entry` says why. */
  function Remove(f: Fifo, entry: Removal): Fifo
    requires f.queue != []
  {
    Fifo(f.queue[1..], f.arrivals, f.gone + [entry])
  }

  /** A completed transfer: append, then drop the oldest report if there were 32 before. */
  function Arrive(f: Fifo, r: Report): Fifo {
    var g := Fifo(f.queue + [r], f.arrivals + [r], f.gone);
    if |f.queue| < CAPACITY then g else Remove(g, Dropped(f.queue[0], |g.arrivals|))
  }

  /** A reader takes the oldest report. */
  function Take(f: Fifo): Fifo
    requires f.queue != []
  {
    Remove(f, Read(f.queue[0]))
  }

  /** `hid_close` frees whatever is still queued. */
  function Clear(f: Fifo): Fifo
    decreases |f.queue|
  {
    if f.queue == [] then f else Clear(Remove(f, Cleared(f.queue[0])))
  }

  /** The bytes a read of at most `length` bytes delivers from report `r`. */
  function Prefix(r: Report, length: nat): Report {
    if length < |r| then r[..length] else r
  }

  /**
   Nothing is lost, reordered or invented: what was removed, followed by what is queued, is exactly what arrived;
   at most 32 reports are queued; and a report is dropped only by the 32nd arrival after its own.
   */
  ghost predicate Sound(f: Fifo) {
    && f.arrivals == Reports(f.gone) + f.queue
    && |f.queue| <= CAPACITY
    && forall i :: 0 <= i < |f.gone| && f.gone[i].Dropped? ==> f.gone[i].seen == i + CAPACITY + 1
  }

  datatype Op = Arrival(report: Report) | TakeOldest | ClearAll

  /** Any history of a device: takes of an empty list do nothing. */
  function Run(ops: seq<Op>): Fifo {
    if ops == [] then
      EMPTY
    else
      var f := Run(ops[..|ops| - 1]);
      match ops[|ops| - 1]
      case Arrival(r) => Arrive(f, r)
      case TakeOldest => if f.queue == [] then f else Take(f)
      case ClearAll => Clear(f)
  }

  lemma RemoveSplits(f: Fifo, entry: Removal)
    requires f.queue != [] && entry.report == f.queue[0]
    requires f.arrivals == Reports(f.gone) + f.queue
    ensures var g := Remove(f, entry); g.arrivals == Reports(g.gone) + g.queue
  {
    assert f.queue == [f.queue[0]] + f.queue[1..];
    assert Reports(Remove(f, entry).gone) == Reports(f.gone) + [f.queue[0]];
  }

  lemma ArriveSound(f: Fifo, r: Report)
    requires Sound(f)
    ensures Sound(Arrive(f, r))
  {
    var g := Fifo(f.queue + [r], f.arrivals + [r], f.gone);
    assert g.arrivals == Reports(g.gone) + g.queue;
    if |f.queue| == CAPACITY { RemoveSplits(g, Dropped(f.queue[0], |g.arrivals|)); }
  }

  lemma TakeSound(f: Fifo)
    requires Sound(f) && f.queue != []
    ensures Sound(Take(f))
  {
    RemoveSplits(f, Read(f.queue[0]));
  }

  lemma {:induction false} ClearSound(f: Fifo)
    requires Sound(f)
    ensures Sound(Clear(f)) && Clear(f).queue == [] && Clear(f).arrivals == f.arrivals
    decreases |f.queue|
  {
    if f.queue != [] {
      RemoveSplits(f, Cleared(f.queue[0]));
      ClearSound(Remove(f, Cleared(f.queue[0])));
    }
  }

  /** Every history keeps the list a bounded FIFO. */
  lemma {:induction false} RunSound(ops: seq<Op>)
    ensures Sound(Run(ops))
  {
    if ops != [] {
      var front := ops[..|ops| - 1];
      RunSound(front);
      match ops[|ops| - 1]
      case Arrival(r) => ArriveSound(Run(front), r);
      case TakeOldest => if Run(front).queue != [] { TakeSound(Run(front)); }
      case ClearAll => ClearSound(Run(front));
    }
  }

  /** The list always holds the newest arrivals, oldest first, and report number `i` is the `i`th to leave. */
  lemma NewestArrivals(ops: seq<Op>)
    ensures var f := Run(ops);
            && |f.queue| <= |f.arrivals|
            && f.queue == f.arrivals[|f.arrivals| - |f.queue|..]
            && Reports(f.gone) == f.arrivals[..|f.arrivals| - |f.queue|]
  {
    RunSound(ops);
  }

  /** A drop happens exactly when an arrival finds 32 reports queued, and then takes the oldest one. */
  lemma DropsOnlyWhenFull(ops: seq<Op>, r: Report)
    ensures var before, after := Run(ops), Run(ops + [Arrival(r)]);
            && |before.queue| <= 32
            && (|before.queue| == 32 <==> after.gone != before.gone)
            && (|before.queue| == 32 ==>
                  after.gone == before.gone + [Dropped(before.queue[0], |before.arrivals| + 1)]
                  && after.queue == before.queue[1..] + [r])
            && (|before.queue| < 32 ==> after.queue == before.queue + [r])
  {
    RunSound(ops);
    assert (ops + [Arrival(r)])[..|ops|] == ops;
  }
}
