/** The organizer's traffic measurements (simgrid/organizer/hpvc.c:1008-1025, 1300-1316): one cell per ordered pair of VMs with a
    message count and an average latency, updated by senders and collected and cleared, cell by cell, by the organizer. */
module Traffic {
  import opened RealSums

  const INITIAL_RATE: int := 1
  const INITIAL_LATENCY: real := 0.006

  datatype Cell = Cell(rate: int, latency: real)

  const INITIAL := Cell(INITIAL_RATE, INITIAL_LATENCY)

  /** What a successful send that took `elapsed` does to the cell of its pair. */
  function Record(c: Cell, elapsed: real): Cell
    requires c.rate >= 1
  {
    Cell(c.rate + 1, (c.latency * c.rate as real + elapsed) / (c.rate + 1) as real)
  }

  /** Sends and collections of cells, in any interleaving; the snapshot loop is a series of `Collect` events. A failed send
      leaves no trace. */
  type Pair = (nat, nat)
  datatype Event = Send(pair: Pair, ok: bool, elapsed: real) | Collect(pair: Pair)

  /** The running matrices, and for every pair the cells collected from it so far. */
  datatype Books = Books(cells: map<Pair, Cell>, collected: map<Pair, seq<Cell>>) {
    function CellOf(p: Pair): Cell {
      if p in cells then cells[p] else INITIAL
    }

    function CollectedOf(p: Pair): seq<Cell> {
      if p in collected then collected[p] else []
    }
  }

  ghost predicate Sampled(b: Books) {
    forall p: Pair :: b.CellOf(p).rate >= 1
  }

  ghost function Apply(b: Books, e: Event): (b': Books)
    requires Sampled(b)
    ensures Sampled(b')
  {
    match e
    case Send(p, ok, elapsed) =>
      if ok then
        var b' := b.(cells := b.cells[p := Record(b.CellOf(p), elapsed)]);
        assert forall q: Pair :: b'.CellOf(q) == if q == p then Record(b.CellOf(p), elapsed) else b.CellOf(q);
        b'
      else b
    case Collect(p) =>
      var b' := Books(b.cells[p := INITIAL], b.collected[p := b.CollectedOf(p) + [b.CellOf(p)]]);
      assert forall q: Pair :: b'.CellOf(q) == if q == p then INITIAL else b.CellOf(q);
      b'
  }

  ghost function Run(events: seq<Event>): (b: Books)
    ensures Sampled(b)
  {
    if events == [] then Books(map[], map[]) else Apply(Run(events[..|events| - 1]), events[|events| - 1])
  }

  /** The measured times of the pair's successful sends, in order. */
  function Sends(events: seq<Event>, p: Pair): seq<real> {
    if events == [] then []
    else
      var before, e := Sends(events[..|events| - 1], p), events[|events| - 1];
      if e.Send? && e.pair == p && e.ok then before + [e.elapsed] else before
  }

  /** The same sends, cut into windows at the pair's own collections; the last window is still open. */
  function Windows(events: seq<Event>, p: Pair): (w: seq<seq<real>>)
    ensures |w| >= 1
  {
    if events == [] then [[]]
    else
      var before, e := Windows(events[..|events| - 1], p), events[|events| - 1];
      if e.pair != p then before
      else match e
        case Collect(_) => before + [[]]
        case Send(_, ok, elapsed) =>
          if ok then before[|before| - 1 := before[|before| - 1] + [elapsed]] else before
  }

  function Flatten(w: seq<seq<real>>): seq<real> {
    if w == [] then [] else Flatten(w[..|w| - 1]) + w[|w| - 1]
  }

  /** The cell stands for exactly these sends on top of the initial sample. */
  ghost predicate Accounts(c: Cell, window: seq<real>) {
    && c.rate == INITIAL_RATE + |window|
    && c.latency * c.rate as real == INITIAL_LATENCY + Sum(window)
  }

  lemma RecordAccounts(c: Cell, window: seq<real>, elapsed: real)
    requires Accounts(c, window)
    ensures Accounts(Record(c, elapsed), window + [elapsed])
  {
    SumAppend(window, elapsed);
    var d := (c.rate + 1) as real;
    Quotient(c.latency * c.rate as real + elapsed, d);
  }

  lemma Quotient(x: real, d: real)
    requires d != 0.0
    ensures x / d * d == x
  {
  }

  /** Every send is in exactly one window: the windows, in order, are the sends, in order. */
  lemma {:induction false} WindowsHoldEverySend(events: seq<Event>, p: Pair)
    ensures Flatten(Windows(events, p)) == Sends(events, p)
  {
    if events != [] {
      var prefix, e := events[..|events| - 1], events[|events| - 1];
      WindowsHoldEverySend(prefix, p);
      var before, w := Windows(prefix, p), Windows(events, p);
      assert w == before || w[..|w| - 1] == (if e.Collect? then before else before[..|before| - 1]);
    }
  }

  /** In every interleaving, each collected cell accounts for its own window and the running cell for the open one. */
  lemma {:induction false} CellsAccountForWindows(events: seq<Event>, p: Pair)
    ensures var b, w := Run(events), Windows(events, p);
      && |b.CollectedOf(p)| == |w| - 1
      && Accounts(b.CellOf(p), w[|w| - 1])
      && forall k :: 0 <= k < |w| - 1 ==> Accounts(b.CollectedOf(p)[k], w[k])
  {
    if events != [] {
      var prefix, e := events[..|events| - 1], events[|events| - 1];
      CellsAccountForWindows(prefix, p);
      var b, w := Run(prefix), Windows(prefix, p);
      if e.Send? && e.pair == p && e.ok {
        RecordAccounts(b.CellOf(p), w[|w| - 1], e.elapsed);
      }
    }
  }

  /** Samples and time in a series of cells beyond the initial sample that each cell starts from. */
  function SamplesIn(cells: seq<Cell>): int {
    if cells == [] then 0 else SamplesIn(cells[..|cells| - 1]) + cells[|cells| - 1].rate - INITIAL_RATE
  }

  function TimeOf(c: Cell): real {
    c.latency * c.rate as real - INITIAL_LATENCY
  }

  function TimeIn(cells: seq<Cell>): real {
    if cells == [] then 0.0
    else
      TimeIn(cells[..|cells| - 1]) + TimeOf(cells[|cells| - 1])
  }

  lemma AccountedCell(c: Cell, window: seq<real>)
    requires Accounts(c, window)
    ensures c.rate - INITIAL_RATE == |window| && TimeOf(c) == Sum(window)
  {
  }

  lemma {:induction false} AccountedTotals(cells: seq<Cell>, w: seq<seq<real>>)
    requires |cells| == |w| && forall k :: 0 <= k < |w| ==> Accounts(cells[k], w[k])
    ensures SamplesIn(cells) == |Flatten(w)| && TimeIn(cells) == Sum(Flatten(w))
  {
    if w != [] {
      var n := |w| - 1;
      AccountedTotals(cells[..n], w[..n]);
      AccountedCell(cells[n], w[n]);
      SumConcat(Flatten(w[..n]), w[n]);
    }
  }

  /** Conservation: over all collected windows and the open one together, the cells hold as many samples as there were
      successful sends, and as much time as these took. */
  lemma SamplesConserved(events: seq<Event>, p: Pair)
    ensures var b := Run(events); var cells := b.CollectedOf(p) + [b.CellOf(p)];
      SamplesIn(cells) == |Sends(events, p)| && TimeIn(cells) == Sum(Sends(events, p))
  {
    CellsAccountForWindows(events, p);
    WindowsHoldEverySend(events, p);
    AccountedTotals(Run(events).CollectedOf(p) + [Run(events).CellOf(p)], Windows(events, p));
  }
}
