/** Span instrumentation of scripts/diagnose_native_latency.py. */
module Spans {
  // A list of event rows and a stack of open ones, both global, updated by nested `with span(...)` blocks
  // that may raise.

  datatype Option<T> = None | Some(value: T)

  datatype Row = Row(name: string, parent: Option<nat>, start: real, end: Option<real>, exception: bool)
  {
    predicate Closed() {
      end.Some?
    }

    /** wall_s. */
    function Wall(): real
      requires Closed()
    {
      end.value - start
    }
  }

  /** The instrumented program, as far as spans see it. */
  datatype Program =
    | Done
    | Work(next: Program)
    | Raise
    | Span(name: string, body: Program, next: Program)
    | Try(body: Program, next: Program)   // an exception handler around the body

  // ---- Laminar families of rows --------------------------------------------------------------

  /** a had ended when b began. */
  predicate Before(a: Row, b: Row) {
    a.Closed() && a.end.value <= b.start
  }

  predicate Within(b: Row, a: Row) {
    a.Closed() && b.Closed() && a.start <= b.start && b.end.value <= a.end.value
  }

  /** Row i of a segment that begins at lo under the open row `top`. */
  predicate RowOk(events: seq<Row>, lo: nat, i: nat, top: Option<nat>, t0: real, t1: real)
    requires lo <= i < |events|
  {
    var r := events[i];
    && r.Closed() && t0 <= r.start <= r.end.value <= t1
    && (r.parent == top || (r.parent.Some? && lo <= r.parent.value < i && Within(r, events[r.parent.value])))
  }

  predicate PairOk(a: Row, b: Row) {
    && (Before(a, b) || Within(b, a))
    && (a.parent == b.parent ==> Before(a, b))
  }

  /** The rows lo..hi are closed, lie in [t0, t1], name earlier rows or `top` as parents, enclose their
      children, and are pairwise nested or disjoint; siblings are disjoint, in order. */
  ghost predicate Laminar(events: seq<Row>, lo: nat, hi: nat, top: Option<nat>, t0: real, t1: real) {
    && lo <= hi <= |events| && t0 <= t1
    && (top.Some? ==> top.value < lo)
    && (forall i :: lo <= i < hi ==> RowOk(events, lo, i, top, t0, t1))
    && (forall i, j :: lo <= i < j < hi ==> PairOk(events[i], events[j]))
  }

  /** Two stretches of work under the same open row, one after the other. */
  lemma LaminarConcat(events: seq<Row>, lo: nat, mid: nat, hi: nat, top: Option<nat>, t0: real, t1: real, t2: real)
    requires Laminar(events, lo, mid, top, t0, t1) && Laminar(events, mid, hi, top, t1, t2)
    ensures Laminar(events, lo, hi, top, t0, t2)
  {
    forall i | lo <= i < hi ensures RowOk(events, lo, i, top, t0, t2) {
      if i < mid { assert RowOk(events, lo, i, top, t0, t1); } else { assert RowOk(events, mid, i, top, t1, t2); }
    }
    forall i, j | lo <= i < j < hi ensures PairOk(events[i], events[j]) {
      if i < mid <= j {
        assert RowOk(events, lo, i, top, t0, t1) && RowOk(events, mid, j, top, t1, t2);
        ParentsDiffer(events, lo, mid, i, j, top, t0, t1, t2);
      }
    }
  }

  lemma ParentsDiffer(events: seq<Row>, lo: nat, mid: nat, i: nat, j: nat, top: Option<nat>, t0: real, t1: real, t2: real)
    requires lo <= i < mid <= j < |events|
    requires RowOk(events, lo, i, top, t0, t1) && RowOk(events, mid, j, top, t1, t2)
    ensures PairOk(events[i], events[j])
  {
    assert events[i].end.value <= t1 <= events[j].start;
  }

  /** Rows agree where the segment looks, so it stays laminar. */
  lemma LaminarFrame(events: seq<Row>, events': seq<Row>, lo: nat, hi: nat, top: Option<nat>, t0: real, t1: real)
    requires Laminar(events, lo, hi, top, t0, t1) && hi <= |events'|
    requires forall i :: lo <= i < hi ==> events'[i] == events[i]
    ensures Laminar(events', lo, hi, top, t0, t1)
  {
    forall i | lo <= i < hi ensures RowOk(events', lo, i, top, t0, t1) {
      assert RowOk(events, lo, i, top, t0, t1);
    }
    forall i, j | lo <= i < j < hi ensures PairOk(events'[i], events'[j]) {
      assert PairOk(events[i], events[j]);
    }
  }

  /** Closing a span: its row encloses everything recorded since it was opened. */
  lemma LaminarClose(events: seq<Row>, lo: nat, top: Option<nat>, t0: real, t1: real)
    requires lo < |events| && (top.Some? ==> top.value < lo)
    requires var r := events[lo]; r.Closed() && r.parent == top && t0 <= r.start <= t1 <= r.end.value
    requires Laminar(events, lo + 1, |events|, Some(lo), events[lo].start, t1)
    ensures Laminar(events, lo, |events|, top, t0, events[lo].end.value)
  {
    var r := events[lo];
    forall i | lo <= i < |events| ensures RowOk(events, lo, i, top, t0, r.end.value) {
      if i > lo { assert RowOk(events, lo + 1, i, Some(lo), r.start, t1); }
    }
    forall i, j | lo <= i < j < |events| ensures PairOk(events[i], events[j]) {
      assert RowOk(events, lo + 1, j, Some(lo), r.start, t1);
      if i > lo { assert RowOk(events, lo + 1, i, Some(lo), r.start, t1); }
    }
  }

  // ---- The recorder ----------------------------------------------------------------------------

  class Recorder {
    const ticks: nat -> real      // successive answers of time.perf_counter
    var read: nat                 // how many were taken
    var clock: real               // the latest one
    var events: seq<Row>
    var stack: seq<nat>

    ghost predicate Valid()
      reads this
    {
      && (forall m, n :: m <= n ==> ticks(m) <= ticks(n))
      && (forall m :: read <= m ==> clock <= ticks(m))
      && (forall k :: 0 <= k < |stack| ==> stack[k] < |events|)
    }

    constructor (ticks: nat -> real)
      requires forall m, n :: m <= n ==> ticks(m) <= ticks(n)
      ensures Valid() && events == [] && stack == []
    {
      this.ticks := ticks;
      read, clock, events, stack := 0, ticks(0), [], [];
    }

    function Top(): Option<nat>
      reads this
    {
      if stack == [] then None else Some(stack[|stack| - 1])
    }

    method ReadClock() returns (t: real)
      requires Valid()
      modifies `read, `clock
      ensures Valid() && t == clock && old(clock) <= clock
    {
      t := ticks(read);
      read, clock := read + 1, t;
    }

    /** A span around a block: the row is closed and the stack popped whether or not the body raises. */
    method RunSpan(name: string, body: Program) returns (raised: bool)
      requires Valid()
      modifies this
      ensures Valid() && stack == old(stack) && old(events) < events && old(clock) <= clock
      ensures Laminar(events, |old(events)|, |events|, old(Top()), old(clock), clock)
      ensures Recorded(events, |old(events)|, SpanRows(name, body, |old(events)|, old(Top())))
      ensures raised == Raises(body)
      decreases body, 1, 0
    {
      var index := Enter(name);
      ghost var start := clock;
      raised := RunProgram(body);
      ghost var inner, bodyEnd := events, clock;
      Exit(index, raised);
      LaminarFrame(inner, events, index + 1, |events|, Some(index), start, bodyEnd);
      LaminarClose(events, index, old(Top()), old(clock), bodyEnd);
      RecordedSpan(inner, events, index, Shape(name, old(Top()), raised), Entered(body, index + 1, Some(index)));
    }

    method Enter(name: string) returns (index: nat)
      requires Valid()
      modifies this
      ensures Valid() && old(clock) <= clock
      ensures index == |old(events)| && stack == old(stack) + [index]
      ensures events == old(events) + [Row(name, old(Top()), clock, None, false)]
    {
      var start := ReadClock();
      index := |events|;
      events := events + [Row(name, Top(), start, None, false)];
      stack := stack + [index];
    }

    method Exit(index: nat, raised: bool)
      requires Valid() && stack != [] && index < |events|
      modifies this
      ensures Valid() && old(clock) <= clock && stack == old(stack)[..|old(stack)| - 1]
      ensures var row := old(events)[index];
              events == old(events)[index := row.(exception := row.exception || raised, end := Some(clock))]
    {
      if raised {
        events := events[index := events[index].(exception := true)];
      }
      var end := ReadClock();
      events := events[index := events[index].(end := Some(end))];
      stack := stack[..|stack| - 1];
    }

    method RunProgram(p: Program) returns (raised: bool)
      requires Valid()
      modifies this
      ensures Valid() && stack == old(stack) && old(events) <= events && old(clock) <= clock
      ensures Laminar(events, |old(events)|, |events|, old(Top()), old(clock), clock)
      ensures Recorded(events, |old(events)|, Entered(p, |old(events)|, old(Top())))
      ensures raised == Raises(p)
      decreases p, 0, 1
    {
      match p {
        case Done => raised := false;
        case Raise => raised := true;
        case Work(next) => raised := RunProgram(next);
        case Span(name, body, next) => raised := RunSpanThen(name, body, next);
        case Try(body, next) => raised := RunTryThen(body, next);
      }
    }

    method RunSpanThen(name: string, body: Program, next: Program) returns (raised: bool)
      requires Valid()
      modifies this
      ensures Valid() && stack == old(stack) && old(events) <= events && old(clock) <= clock
      ensures Laminar(events, |old(events)|, |events|, old(Top()), old(clock), clock)
      ensures Recorded(events, |old(events)|, Entered(Span(name, body, next), |old(events)|, old(Top())))
      ensures raised == (Raises(body) || Raises(next))
      decreases Span(name, body, next), 0, 0
    {
      ghost var rows := SpanRows(name, body, |events|, Top());
      raised := RunSpan(name, body);
      if !raised {
        raised := Continue(next, old(clock), old(events), old(Top()), rows);
      }
    }

    method RunTryThen(body: Program, next: Program) returns (raised: bool)
      requires Valid()
      modifies this
      ensures Valid() && stack == old(stack) && old(events) <= events && old(clock) <= clock
      ensures Laminar(events, |old(events)|, |events|, old(Top()), old(clock), clock)
      ensures Recorded(events, |old(events)|, Entered(Try(body, next), |old(events)|, old(Top())))
      ensures raised == Raises(next)
      decreases Try(body, next), 0, 0
    {
      var caught := RunProgram(body);
      raised := Continue(next, old(clock), old(events), old(Top()), Entered(body, |old(events)|, old(Top())));
    }

    /** The rest of a block, after a first stretch of it has been recorded. */
    method Continue(next: Program, ghost t0: real, ghost before: seq<Row>, ghost top: Option<nat>, ghost rows: seq<Shape>)
      returns (raised: bool)
      requires Valid() && before <= events && Top() == top && Laminar(events, |before|, |events|, top, t0, clock)
      requires Recorded(events, |before|, rows)
      modifies this
      ensures Valid() && stack == old(stack) && before <= events && old(clock) <= clock
      ensures Laminar(events, |before|, |events|, top, t0, clock)
      ensures Recorded(events, |before|, rows + Entered(next, |before| + |rows|, top))
      ensures raised == Raises(next)
      decreases next, 1, 0
    {
      raised := RunProgram(next);
      LaminarFrame(old(events), events, |before|, |old(events)|, top, t0, old(clock));
      LaminarConcat(events, |before|, |old(events)|, |events|, top, t0, old(clock), clock);
      RecordedConcat(old(events), events, |before|, rows, Entered(next, |before| + |rows|, top));
    }
  }

  /** Whether a program leaves by an exception. */
  predicate Raises(p: Program) {
    match p
    case Done => false
    case Raise => true
    case Work(next) => Raises(next)
    case Span(_, body, next) => Raises(body) || Raises(next)
    case Try(_, next) => Raises(next)
  }

  // ---- What a program records ------------------------------------------------------------------

  /** A row without its times. */
  datatype Shape = Shape(name: string, parent: Option<nat>, exception: bool)

  /** The rows of the spans a program enters, in order of entry, when the first of them gets the given
      index: each under the row of the span around it, and marked iff its block leaves by an exception.
      Nothing after an exception is entered, up to the handler that catches it. */
  function Entered(p: Program, index: nat, parent: Option<nat>): (rows: seq<Shape>)
    ensures |rows| == Reached(p)
    decreases p, 0
  {
    match p
    case Done => []
    case Raise => []
    case Work(next) => Entered(next, index, parent)
    case Span(name, body, next) =>
      var rows := SpanRows(name, body, index, parent);
      if Raises(body) then rows else rows + Entered(next, index + |rows|, parent)
    case Try(body, next) =>
      var rows := Entered(body, index, parent);
      rows + Entered(next, index + |rows|, parent)
  }

  function SpanRows(name: string, body: Program, index: nat, parent: Option<nat>): (rows: seq<Shape>)
    ensures |rows| == 1 + Reached(body)
    decreases body, 1
  {
    [Shape(name, parent, Raises(body))] + Entered(body, index + 1, Some(index))
  }

  predicate Recorded(events: seq<Row>, lo: nat, rows: seq<Shape>) {
    && |events| == lo + |rows|
    && forall i :: 0 <= i < |rows| ==> ShapeOf(events[lo + i]) == rows[i]
  }

  function ShapeOf(r: Row): Shape {
    Shape(r.name, r.parent, r.exception)
  }

  lemma RecordedConcat(before: seq<Row>, events: seq<Row>, lo: nat, a: seq<Shape>, b: seq<Shape>)
    requires Recorded(before, lo, a) && before <= events && Recorded(events, lo + |a|, b)
    ensures Recorded(events, lo, a + b)
  {
    forall i | 0 <= i < |a + b| ensures ShapeOf(events[lo + i]) == (a + b)[i] {
      if i < |a| {
        assert events[lo + i] == before[lo + i];
      } else {
        assert ShapeOf(events[lo + |a| + (i - |a|)]) == b[i - |a|];
      }
    }
  }

  lemma RecordedSpan(inner: seq<Row>, events: seq<Row>, index: nat, own: Shape, rows: seq<Shape>)
    requires Recorded(inner, index + 1, rows) && |events| == |inner| && index < |events| && ShapeOf(events[index]) == own
    requires forall i :: index < i < |events| ==> events[i] == inner[i]
    ensures Recorded(events, index, [own] + rows)
  {
    forall i | 0 <= i < |[own] + rows| ensures ShapeOf(events[index + i]) == ([own] + rows)[i] {
      if i > 0 { assert ShapeOf(inner[index + 1 + (i - 1)]) == rows[i - 1]; }
    }
  }

  /** How many spans that is: one for every span reached before an exception leaves the block around it. */
  function Reached(p: Program): nat {
    match p
    case Done => 0
    case Raise => 0
    case Work(next) => Reached(next)
    case Span(_, body, next) => 1 + Reached(body) + if Raises(body) then 0 else Reached(next)
    case Try(body, next) => Reached(body) + Reached(next)
  }

  // ---- What a finished recording says ---------------------------------------------------------------

  /** Total wall time of the children of `p` among the rows lo..n. */
  function ChildTime(events: seq<Row>, lo: nat, n: nat, p: Option<nat>): real
    requires lo <= n <= |events| && forall i :: lo <= i < n ==> events[i].end.Some?
  {
    if n == lo then 0.0
    else ChildTime(events, lo, n - 1, p) + if events[n - 1].parent == p then events[n - 1].Wall() else 0.0
  }

  /** Where the last of those children ended, or t when there is none. */
  function LastEnd(events: seq<Row>, lo: nat, n: nat, p: Option<nat>, t: real): real
    requires lo <= n <= |events| && forall i :: lo <= i < n ==> events[i].end.Some?
  {
    if n == lo then t
    else if events[n - 1].parent == p then events[n - 1].end.value
    else LastEnd(events, lo, n - 1, p, t)
  }

  lemma {:induction false} LastEndMeaning(events: seq<Row>, lo: nat, n: nat, p: Option<nat>, t: real)
    requires lo <= n <= |events| && forall i :: lo <= i < n ==> events[i].end.Some?
    ensures LastEnd(events, lo, n, p, t) == t
            || exists i :: lo <= i < n && events[i].parent == p && LastEnd(events, lo, n, p, t) == events[i].end.value
    decreases n
  {
    if n > lo && events[n - 1].parent != p { LastEndMeaning(events, lo, n - 1, p, t); }
  }

  lemma {:induction false} ChildrenFit(events: seq<Row>, lo: nat, n: nat, p: Option<nat>, t0: real, t1: real)
    requires lo <= n <= |events| && t0 <= t1
    requires forall i :: lo <= i < n ==> events[i].end.Some?
    requires forall i :: lo <= i < n && events[i].parent == p ==> t0 <= events[i].start <= events[i].end.value <= t1
    requires forall i, j :: lo <= i < j < n && events[i].parent == p && events[j].parent == p ==> Before(events[i], events[j])
    ensures ChildTime(events, lo, n, p) <= LastEnd(events, lo, n, p, t0) - t0
    ensures LastEnd(events, lo, n, p, t0) <= t1
    decreases n
  {
    if n > lo {
      ChildrenFit(events, lo, n - 1, p, t0, t1);
      LastEndMeaning(events, lo, n - 1, p, t0);
    }
  }

  /** Self time is never negative: the children of a row take no more wall time than the row. */
  lemma ChildrenWithinParent(events: seq<Row>, top: Option<nat>, t0: real, t1: real, p: nat)
    requires Laminar(events, 0, |events|, top, t0, t1) && p < |events|
    ensures forall i :: 0 <= i < |events| ==> events[i].end.Some?
    ensures ChildTime(events, 0, |events|, Some(p)) <= events[p].Wall()
  {
    forall i | 0 <= i < |events| ensures events[i].end.Some? { assert RowOk(events, 0, i, top, t0, t1); }
    var r := events[p];
    assert RowOk(events, 0, p, top, t0, t1);
    forall i | 0 <= i < |events| && events[i].parent == Some(p)
      ensures r.start <= events[i].start <= events[i].end.value <= r.end.value
    {
      assert RowOk(events, 0, i, top, t0, t1);
    }
    forall i, j | 0 <= i < j < |events| && events[i].parent == Some(p) && events[j].parent == Some(p)
      ensures Before(events[i], events[j])
    {
      assert PairOk(events[i], events[j]);
    }
    ChildrenFit(events, 0, |events|, Some(p), r.start, r.end.value);
  }

  /** The outermost spans take no more than the time the recording took. */
  lemma RootsWithinRecording(events: seq<Row>, t0: real, t1: real)
    requires Laminar(events, 0, |events|, None, t0, t1)
    ensures forall i :: 0 <= i < |events| ==> events[i].end.Some?
    ensures ChildTime(events, 0, |events|, None) <= t1 - t0
  {
    forall i | 0 <= i < |events|
      ensures events[i].end.Some? && t0 <= events[i].start <= events[i].end.value <= t1
    {
      assert RowOk(events, 0, i, None, t0, t1);
    }
    forall i, j | 0 <= i < j < |events| && events[i].parent == None && events[j].parent == None
      ensures Before(events[i], events[j])
    {
      assert PairOk(events[i], events[j]);
    }
    ChildrenFit(events, 0, |events|, None, t0, t1);
  }
}
