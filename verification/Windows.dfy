/**
 Time logs and sliding windows. The second half is the heart of both guardrail bounds:
 an admission gate that counts past records, where the admitted work is recorded only
 later, by any of a fixed number of permit holders.
 */
module Windows {

  /** How many entries are strictly later than `cutoff`. */
  function CountAfter(log: seq<int>, cutoff: int): (n: nat)
    ensures n <= |log|
  {
    if log == [] then 0 else
    var n := |log| - 1;
    CountAfter(log[..n], cutoff) + if cutoff < log[n] then 1 else 0
  }

  /** The entries of `log` strictly later than `cutoff`: what the source's pruning loop keeps. */
  function After(log: seq<int>, cutoff: int): (kept: seq<int>)
    ensures |kept| == CountAfter(log, cutoff)
  {
    if log == [] then [] else
    var n := |log| - 1;
    var before := After(log[..n], cutoff);
    if cutoff < log[n] then before + [log[n]] else before
  }

  /** How many entries lie in the half-open window (lo, hi]. */
  function CountIn(log: seq<int>, lo: int, hi: int): nat {
    if log == [] then 0 else
    var n := |log| - 1;
    CountIn(log[..n], lo, hi) + if lo < log[n] <= hi then 1 else 0
  }

  /** How many entries lie in the window of length `span` that ends at `t`, (t - span, t]. */
  function InWindow(log: seq<int>, span: int, t: int): nat {
    CountIn(log, t - span, t)
  }

  /** No entry is earlier than the one before it. */
  ghost predicate Sorted(log: seq<int>) {
    |log| < 2 || (var n := |log| - 1; Sorted(log[..n]) && log[n - 1] <= log[n])
  }

  /** No entry is later than the clock. */
  ghost predicate UpTo(log: seq<int>, clock: int) {
    log == [] || (var n := |log| - 1; UpTo(log[..n], clock) && log[n] <= clock)
  }

  lemma {:induction false} SortedAt(log: seq<int>, i: nat, j: nat)
    requires Sorted(log) && i < j < |log|
    ensures log[i] <= log[j]
  {
    var n := |log| - 1;
    if j < n {
      SortedAt(log[..n], i, j);
    } else if i < n - 1 {
      SortedAt(log[..n], i, n - 1);
    }
  }

  lemma {:induction false} UpToAt(log: seq<int>, clock: int, i: nat)
    requires UpTo(log, clock) && i < |log|
    ensures log[i] <= clock
  {
    if i < |log| - 1 {
      UpToAt(log[..|log| - 1], clock, i);
    }
  }

  lemma {:induction false} UpToLater(log: seq<int>, clock: int, later: int)
    requires UpTo(log, clock) && clock <= later
    ensures UpTo(log, later)
  {
    if log != [] {
      UpToLater(log[..|log| - 1], clock, later);
    }
  }

  /** In a sorted log the last entry is the latest. */
  lemma {:induction false} LastIsLatest(log: seq<int>, clock: int)
    requires Sorted(log) && (log == [] || log[|log| - 1] <= clock)
    ensures UpTo(log, clock)
  {
    if log != [] {
      LastIsLatest(log[..|log| - 1], clock);
    }
  }

  lemma Append(log: seq<int>, x: int, lo: int, hi: int)
    ensures CountAfter(log + [x], lo) == CountAfter(log, lo) + if lo < x then 1 else 0
    ensures CountIn(log + [x], lo, hi) == CountIn(log, lo, hi) + if lo < x <= hi then 1 else 0
  {
    assert (log + [x])[..|log|] == log;
  }

  lemma {:induction false} InIsAfter(log: seq<int>, lo: int, hi: int)
    ensures CountIn(log, lo, hi) <= CountAfter(log, lo)
  {
    if log != [] {
      InIsAfter(log[..|log| - 1], lo, hi);
    }
  }

  lemma AppendUpTo(log: seq<int>, clock: int)
    requires UpTo(log, clock)
    ensures UpTo(log + [clock], clock)
  {
    assert (log + [clock])[..|log|] == log;
  }

  lemma AppendSorted(log: seq<int>, clock: int)
    requires Sorted(log) && UpTo(log, clock)
    ensures Sorted(log + [clock]) && UpTo(log + [clock], clock)
  {
    AppendUpTo(log, clock);
    assert (log + [clock])[..|log|] == log;
  }

  lemma {:induction false} AfterMonotone(log: seq<int>, early: int, late: int)
    requires early <= late
    ensures CountAfter(log, late) <= CountAfter(log, early)
  {
    if log != [] {
      AfterMonotone(log[..|log| - 1], early, late);
    }
  }

  lemma {:induction false} NoneAfter(log: seq<int>, clock: int)
    requires UpTo(log, clock)
    ensures CountAfter(log, clock) == 0 && After(log, clock) == []
  {
    if log != [] {
      NoneAfter(log[..|log| - 1], clock);
    }
  }

  // ---- pruned histories ----

  /** `kept` is the end of the complete log `log`, and everything missing from it is at or before `horizon`. */
  ghost predicate SuffixKept(kept: seq<int>, log: seq<int>, horizon: int) {
    if kept == [] then UpTo(log, horizon) else
    var m, n := |kept| - 1, |log| - 1;
    log != [] && kept[m] == log[n] && SuffixKept(kept[..m], log[..n], horizon)
  }

  /** What this means, entry by entry. */
  lemma {:induction false} SuffixMeans(kept: seq<int>, log: seq<int>, horizon: int)
    requires SuffixKept(kept, log, horizon)
    ensures |kept| <= |log|
    ensures forall i :: 0 <= i < |kept| ==> kept[i] == log[|log| - |kept| + i]
    ensures forall i :: 0 <= i < |log| - |kept| ==> log[i] <= horizon
  {
    if kept == [] {
      forall i | 0 <= i < |log|
        ensures log[i] <= horizon
      {
        UpToAt(log, horizon, i);
      }
    } else {
      SuffixMeans(kept[..|kept| - 1], log[..|log| - 1], horizon);
    }
  }

  lemma {:induction false} SuffixLater(kept: seq<int>, log: seq<int>, horizon: int, later: int)
    requires SuffixKept(kept, log, horizon) && horizon <= later
    ensures SuffixKept(kept, log, later)
  {
    if kept == [] {
      UpToLater(log, horizon, later);
    } else {
      SuffixLater(kept[..|kept| - 1], log[..|log| - 1], horizon, later);
    }
  }

  /** Pruning a kept suffix at a later cutoff gives what pruning the complete log would give. */
  lemma {:induction false} PruneSuffix(kept: seq<int>, log: seq<int>, horizon: int, cutoff: int)
    requires SuffixKept(kept, log, horizon) && horizon <= cutoff
    ensures After(kept, cutoff) == After(log, cutoff)
  {
    if kept == [] {
      UpToLater(log, horizon, cutoff);
      NoneAfter(log, cutoff);
    } else {
      PruneSuffix(kept[..|kept| - 1], log[..|log| - 1], horizon, cutoff);
    }
  }

  /** A kept suffix with the last entry of the log is a suffix of the whole log. */
  lemma SuffixWithLast(kept: seq<int>, log: seq<int>, horizon: int)
    requires log != [] && SuffixKept(kept, log[..|log| - 1], horizon)
    ensures SuffixKept(kept + [log[|log| - 1]], log, horizon)
  {
    assert (kept + [log[|log| - 1]])[..|kept|] == kept;
  }

  /** Pruning a sorted log keeps a suffix of it. */
  lemma {:induction false} AfterIsSuffix(log: seq<int>, cutoff: int)
    requires Sorted(log)
    ensures SuffixKept(After(log, cutoff), log, cutoff)
  {
    if log != [] {
      var n := |log| - 1;
      if cutoff < log[n] {
        AfterIsSuffix(log[..n], cutoff);
        SuffixWithLast(After(log[..n], cutoff), log, cutoff);
      } else {
        LastIsLatest(log, cutoff);
        NoneAfter(log, cutoff);
      }
    }
  }

  /** Appending the same entry to a kept suffix and to the log keeps it a suffix. */
  lemma ExtendSuffix(kept: seq<int>, log: seq<int>, horizon: int, entry: int)
    requires SuffixKept(kept, log, horizon)
    ensures SuffixKept(kept + [entry], log + [entry], horizon)
  {
    assert (log + [entry])[..|log|] == log;
    SuffixWithLast(kept, log + [entry], horizon);
  }

  /** So does pruning it, as long as the log is sorted. */
  lemma PrunedIsSuffix(kept: seq<int>, log: seq<int>, horizon: int, cutoff: int)
    requires Sorted(log) && SuffixKept(kept, log, horizon) && horizon <= cutoff
    ensures After(kept, cutoff) == After(log, cutoff) && SuffixKept(After(kept, cutoff), log, cutoff)
  {
    PruneSuffix(kept, log, horizon, cutoff);
    AfterIsSuffix(log, cutoff);
  }

  // ---- the admission gate ----

  /**
   A gate admits when fewer than `limit` records are younger than `span`; admitted work is
   recorded later, and at most `permits` pieces of it are in flight. While a window (a, a + span]
   is still open its records and the work in flight share the allowance; once the clock has
   passed it, its count is final.
   */
  ghost predicate Gated(log: seq<int>, clock: int, inFlight: nat, span: int, limit: int, permits: nat) {
    && UpTo(log, clock)
    && inFlight <= permits
    && (forall a :: clock <= a + span ==> CountAfter(log, a) + inFlight <= limit - 1 + permits)
    && (forall t :: InWindow(log, span, t) <= limit - 1 + permits)
  }

  lemma GateOpens(clock: int, span: int, limit: int, permits: nat)
    requires 1 <= limit
    ensures Gated([], clock, 0, span, limit, permits)
  {
  }

  lemma GateTick(log: seq<int>, clock: int, later: int, inFlight: nat, span: int, limit: int, permits: nat)
    requires Gated(log, clock, inFlight, span, limit, permits) && clock <= later
    ensures Gated(log, later, inFlight, span, limit, permits)
  {
    UpToLater(log, clock, later);
  }

  lemma GateAdmit(log: seq<int>, clock: int, inFlight: nat, span: int, limit: int, permits: nat)
    requires Gated(log, clock, inFlight, span, limit, permits)
    requires CountAfter(log, clock - span) < limit
    requires inFlight + 1 <= permits
    ensures Gated(log, clock, inFlight + 1, span, limit, permits)
  {
    forall a | clock <= a + span
      ensures CountAfter(log, a) + inFlight + 1 <= limit - 1 + permits
    {
      AfterMonotone(log, clock - span, a);
    }
  }

  lemma GateRecord(log: seq<int>, clock: int, inFlight: nat, span: int, limit: int, permits: nat)
    requires Gated(log, clock, inFlight, span, limit, permits) && 1 <= inFlight
    ensures Gated(log + [clock], clock, inFlight - 1, span, limit, permits)
  {
    AppendUpTo(log, clock);
    forall a | clock <= a + span
      ensures CountAfter(log + [clock], a) + inFlight - 1 <= limit - 1 + permits
    {
      Append(log, clock, a, a + span);
    }
    forall t
      ensures InWindow(log + [clock], span, t) <= limit - 1 + permits
    {
      Append(log, clock, t - span, t);
      InIsAfter(log, t - span, t);
      assert clock <= (t - span) + span ==> CountAfter(log, t - span) + inFlight <= limit - 1 + permits;
      assert InWindow(log, span, t) <= limit - 1 + permits;
    }
  }

  lemma GateAbandon(log: seq<int>, clock: int, inFlight: nat, fewer: nat, span: int, limit: int, permits: nat)
    requires Gated(log, clock, inFlight, span, limit, permits) && fewer <= inFlight
    ensures Gated(log, clock, fewer, span, limit, permits)
  {
  }

  /** Any one step of the work in flight: it is recorded, admitted while the window has room, or neither. */
  lemma GateStep(log: seq<int>, clock: int, before: nat, after: nat, recorded: bool, span: int, limit: int,
                 permits: nat)
    requires Gated(log, clock, before, span, limit, permits) && after <= permits
    requires if recorded then after == before - 1 else after <= before + 1
    requires before < after ==> CountAfter(log, clock - span) < limit
    ensures Gated(if recorded then log + [clock] else log, clock, after, span, limit, permits)
  {
    if recorded {
      GateRecord(log, clock, before, span, limit, permits);
    } else if before < after {
      GateAdmit(log, clock, before, span, limit, permits);
    } else {
      GateAbandon(log, clock, before, after, span, limit, permits);
    }
  }

  /** When every window holds at most one record, consecutive records are a whole span apart. */
  lemma SpacedApart(log: seq<int>, span: int, i: nat, j: nat)
    requires Sorted(log) && i < j < |log| && 0 < span
    requires InWindow(log, span, log[j]) <= 1
    ensures log[i] + span <= log[j]
  {
    SortedAt(log, i, j);
    if log[j] < log[i] + span {
      CountAtLeastTwo(log, log[j] - span, log[j], i, j);
    }
  }

  lemma {:induction false} CountAtLeastTwo(log: seq<int>, lo: int, hi: int, i: nat, j: nat)
    requires i < j < |log| && lo < log[i] <= hi && lo < log[j] <= hi
    ensures 2 <= CountIn(log, lo, hi)
  {
    if j < |log| - 1 {
      CountAtLeastTwo(log[..|log| - 1], lo, hi, i, j);
    } else {
      CountAtLeastOne(log[..|log| - 1], lo, hi, i);
    }
  }

  lemma {:induction false} CountAtLeastOne(log: seq<int>, lo: int, hi: int, i: nat)
    requires i < |log| && lo < log[i] <= hi
    ensures 1 <= CountIn(log, lo, hi)
  {
    if i < |log| - 1 {
      CountAtLeastOne(log[..|log| - 1], lo, hi, i);
    }
  }
}
