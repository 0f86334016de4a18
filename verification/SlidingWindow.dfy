/** Counting recent calls. Times are integers (microseconds); a window is half-open or closed at its far end. */
module SlidingWindow {

  datatype Window = Window(length: int, closed: bool) {
    predicate Holds(t: int, now: int) {
      if closed then now - t <= length else now - t < length
    }
  }

  /** The calls of a history that a limiter still counts at time now, in order. */
  function Recent(history: seq<int>, now: int, w: Window): seq<int> {
    if |history| == 0 then []
    else
      var rest := Recent(history[..|history| - 1], now, w);
      if w.Holds(history[|history| - 1], now) then rest + [history[|history| - 1]] else rest
  }

  /** The calls of a history that fall into the window ending at instant T. */
  function Span(history: seq<int>, T: int, w: Window): seq<int> {
    if |history| == 0 then []
    else
      var rest := Span(history[..|history| - 1], T, w);
      var t := history[|history| - 1];
      if t <= T && w.Holds(t, T) then rest + [t] else rest
  }

  ghost predicate Chronological(history: seq<int>, clock: int) {
    && (forall i, j :: 0 <= i < j < |history| ==> history[i] <= history[j])
    && (forall i :: 0 <= i < |history| ==> history[i] <= clock)
  }

  /** Every call of the history was accepted with fewer than cap calls in its window before it. */
  ghost predicate Admitted(history: seq<int>, w: Window, cap: int) {
    forall i :: 0 <= i < |history| ==> |Recent(history[..i], history[i], w)| < cap
  }

  /** From time `from` on, a pruned list decides exactly as the full history does. */
  ghost predicate Agrees(rows: seq<int>, history: seq<int>, from: int, w: Window) {
    forall now :: from <= now ==> Recent(rows, now, w) == Recent(history, now, w)
  }

  /** The places of the calls that lie at most, or less than, a window's length before an instant. */
  ghost function Within(history: seq<int>, now: int, length: int, closed: bool): set<int> {
    set i | 0 <= i < |history| && (now - history[i] < length || (closed && now - history[i] == length))
  }

  /** The places of the calls inside the window that ends at an instant. */
  ghost function Inside(history: seq<int>, T: int, length: int, closed: bool): set<int> {
    set i | 0 <= i < |history| && history[i] <= T && (T - history[i] < length || (closed && T - history[i] == length))
  }

  /** What a limiter counts is the number of calls within its window, call by call. */
  lemma {:induction false} RecentCounts(history: seq<int>, now: int, w: Window)
    ensures |Recent(history, now, w)| == |Within(history, now, w.length, w.closed)|
  {
    if |history| > 0 {
      var n := |history| - 1;
      var rest := history[..n];
      RecentCounts(rest, now, w);
      var before := Within(rest, now, w.length, w.closed);
      assert Within(history, now, w.length, w.closed) == if w.Holds(history[n], now) then before + {n} else before;
    }
  }

  lemma {:induction false} SpanCounts(history: seq<int>, T: int, w: Window)
    ensures |Span(history, T, w)| == |Inside(history, T, w.length, w.closed)|
  {
    if |history| > 0 {
      var n := |history| - 1;
      var rest := history[..n];
      SpanCounts(rest, T, w);
      var before := Inside(rest, T, w.length, w.closed);
      assert Inside(history, T, w.length, w.closed) ==
             if history[n] <= T && w.Holds(history[n], T) then before + {n} else before;
    }
  }

  lemma RecentSnoc(history: seq<int>, t: int, now: int, w: Window)
    ensures Recent(history + [t], now, w) ==
            if w.Holds(t, now) then Recent(history, now, w) + [t] else Recent(history, now, w)
  {
    assert (history + [t])[..|history|] == history;
  }

  /** What was pruned at an earlier time would be pruned now as well. */
  lemma {:induction false} PruneTwice(history: seq<int>, earlier: int, now: int, w: Window)
    requires earlier <= now
    ensures Recent(Recent(history, earlier, w), now, w) == Recent(history, now, w)
  {
    if |history| > 0 {
      var rest, t := history[..|history| - 1], history[|history| - 1];
      PruneTwice(rest, earlier, now, w);
      if w.Holds(t, earlier) {
        RecentSnoc(Recent(rest, earlier, w), t, now, w);
      }
    }
  }

  lemma AgreesAfterPruning(rows: seq<int>, history: seq<int>, from: int, now: int, w: Window)
    requires Agrees(rows, history, from, w) && from <= now
    ensures Agrees(Recent(rows, now, w), history, now, w)
  {
    forall later | now <= later ensures Recent(Recent(rows, now, w), later, w) == Recent(history, later, w) {
      PruneTwice(rows, now, later, w);
    }
  }

  lemma AgreesAfterAccepting(rows: seq<int>, history: seq<int>, now: int, w: Window)
    requires Agrees(rows, history, now, w)
    ensures Agrees(rows + [now], history + [now], now, w)
  {
    forall later | now <= later ensures Recent(rows + [now], later, w) == Recent(history + [now], later, w) {
      RecentSnoc(rows, now, later, w);
      RecentSnoc(history, now, later, w);
    }
  }

  lemma AdmittedSnoc(history: seq<int>, now: int, w: Window, cap: int)
    requires Admitted(history, w, cap) && |Recent(history, now, w)| < cap
    ensures Admitted(history + [now], w, cap)
  {
    var h := history + [now];
    forall i | 0 <= i < |h| ensures |Recent(h[..i], h[i], w)| < cap {
      assert h[..i] == history[..i];
      assert history[..|history|] == history;
    }
  }

  lemma {:induction false} SpanWithinRecent(history: seq<int>, x: int, T: int, w: Window)
    requires x <= T && forall i :: 0 <= i < |history| ==> history[i] <= x
    ensures |Span(history, T, w)| <= |Recent(history, x, w)|
  {
    if |history| > 0 {
      SpanWithinRecent(history[..|history| - 1], x, T, w);
    }
  }

  /** No window of the limiter's length, wherever it is laid over the run, holds more than cap accepted calls. */
  lemma {:induction false} NoWindowOverfull(history: seq<int>, clock: int, w: Window, cap: int, T: int)
    requires Chronological(history, clock) && Admitted(history, w, cap) && 0 <= cap
    ensures |Span(history, T, w)| <= cap
  {
    if |history| > 0 {
      var rest, t := history[..|history| - 1], history[|history| - 1];
      assert Admitted(rest, w, cap) by {
        forall i | 0 <= i < |rest| ensures |Recent(rest[..i], rest[i], w)| < cap {
          assert rest[..i] == history[..i];
        }
      }
      NoWindowOverfull(rest, clock, w, cap, T);
      if t <= T && w.Holds(t, T) {
        SpanWithinRecent(rest, t, T, w);
        assert rest == history[..|history| - 1];
      }
    }
  }

  lemma {:induction false} RecentOfFresh(rows: seq<int>, now: int, w: Window)
    requires forall i :: 0 <= i < |rows| ==> w.Holds(rows[i], now)
    ensures Recent(rows, now, w) == rows
  {
    if |rows| > 0 {
      RecentOfFresh(rows[..|rows| - 1], now, w);
    }
  }

  /** A stale call at the front does not count, so popping it changes no decision. */
  lemma {:induction false} PopStale(rows: seq<int>, now: int, w: Window)
    requires |rows| > 0 && !w.Holds(rows[0], now)
    ensures Recent(rows[1..], now, w) == Recent(rows, now, w)
  {
    if |rows| > 1 {
      PopStale(rows[..|rows| - 1], now, w);
      assert rows[..|rows| - 1][1..] == rows[1..][..|rows| - 2];
    } else {
      assert rows[1..] == [];
    }
  }
}
