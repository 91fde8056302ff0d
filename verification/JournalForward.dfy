/**
 Forwarding the system journal to the log store.  Lines go out in batches; the cursor file is
 written after the store has acknowledged a batch, so a restart repeats lines and skips none.

 A push or a write may fail before or after taking effect, and the process may die there.
 */
module JournalForward {
  import opened Options

  /** What the forwarder needs of one journal entry; its cursor stands for its position. */
  datatype Entry = Entry(timestamped: bool, hasCursor: bool)

  datatype Event = Arrive | Tick | Append(entry: Entry) | Broken | Cancel

  const BATCH := 128

  // What the store has received, in order of arrival.

  function Frontier(log: seq<nat>): nat {
    if log == [] then 0
    else
      var f := Frontier(log[..|log| - 1]);
      if log[|log| - 1] == f then f + 1 else f
  }

  /** Every arrival repeats an earlier one or is the next in line. */
  predicate Gapless(log: seq<nat>) {
    log == [] || (Gapless(log[..|log| - 1]) && log[|log| - 1] <= Frontier(log[..|log| - 1]))
  }

  /** First arrivals only. */
  function Distinct(log: seq<nat>): seq<nat> {
    if log == [] then []
    else
      var d := Distinct(log[..|log| - 1]);
      if log[|log| - 1] in log[..|log| - 1] then d else d + [log[|log| - 1]]
  }

  function Upto(n: nat): seq<nat> {
    seq(n, i => i)
  }

  function Range(from: nat, end: nat): seq<nat>
    requires from <= end
  {
    seq(end - from, i requires 0 <= i < end - from => from + i)
  }

  lemma {:induction false} GaplessMembers(log: seq<nat>)
    requires Gapless(log)
    ensures forall k: nat :: k in log <==> k < Frontier(log)
  {
    if log != [] {
      GaplessMembers(log[..|log| - 1]);
      assert log == log[..|log| - 1] + [log[|log| - 1]];
    }
  }

  /** With repeats removed, what arrived is an unbroken prefix of the journal, in its order. */
  lemma {:induction false} DistinctIsPrefix(log: seq<nat>)
    requires Gapless(log)
    ensures Distinct(log) == Upto(Frontier(log))
  {
    if log != [] {
      var rest := log[..|log| - 1];
      DistinctIsPrefix(rest);
      GaplessMembers(rest);
      assert Upto(Frontier(rest) + 1) == Upto(Frontier(rest)) + [Frontier(rest)];
    }
  }

  /** A batch that starts no further than the frontier leaves no gap. */
  lemma {:induction false} BatchKeepsGapless(log: seq<nat>, from: nat, end: nat)
    requires Gapless(log) && from <= end && from <= Frontier(log)
    ensures Gapless(log + Range(from, end))
    ensures Frontier(log + Range(from, end)) == (if end > Frontier(log) then end else Frontier(log))
    decreases end
  {
    hide Gapless, Frontier;
    if from == end {
      assert log + Range(from, end) == log;
    } else {
      BatchKeepsGapless(log, from, end - 1);
      assert log + Range(from, end) == (log + Range(from, end - 1)) + [end - 1];
      OneMore(log + Range(from, end - 1), end - 1);
    }
  }

  lemma OneMore(log: seq<nat>, k: nat)
    requires Gapless(log) && k <= Frontier(log)
    ensures Gapless(log + [k]) && Frontier(log + [k]) == (if k == Frontier(log) then k + 1 else Frontier(log))
  {
    assert (log + [k])[..|log|] == log;
  }

  function Next(cursor: Option<nat>): nat {
    if cursor.Some? then cursor.value + 1 else 0
  }

  class Forwarder {
    var journal: seq<Entry>
    var cursor: Option<nat>
    var received: seq<nat>
    ghost var acknowledged: nat
    var up: bool
    var faults: nat

    /** The cursor never runs ahead of what was acknowledged, nor that of what arrived. */
    ghost predicate Inv()
      reads this
    {
      Gapless(received) && Next(cursor) <= acknowledged <= Frontier(received) <= |journal|
    }

    constructor (journal: seq<Entry>)
      ensures Inv() && this.journal == journal && cursor == None && received == []
    {
      this.journal, cursor, received, acknowledged, up, faults := journal, None, [], 0, true, 0;
    }

    twostate predicate Calm()
      reads this
    {
      old(up) && faults == old(faults)
    }

    twostate predicate Worsening()
      reads this
    {
      old(faults) <= faults && (up ==> old(up)) && (Calm() ==> up)
    }

    method Attempt() returns (effect: bool, ok: bool)
      modifies `up, `faults
      ensures Worsening()
      ensures ok ==> effect
      ensures Calm() ==> ok
    {
      effect, ok := up, up;
      if up {
        if * {
          faults, ok := faults + 1, false;
          if * { effect := false; }
          if * { up := false; }
        }
      }
    }

    method Push(from: nat, end: nat) returns (ok: bool)
      requires Inv() && from <= acknowledged && from <= end <= |journal|
      modifies `received, `acknowledged, `up, `faults
      ensures Inv() && Worsening()
      ensures acknowledged == (if ok && end > old(acknowledged) then end else old(acknowledged))
      ensures received == old(received) || received == old(received) + Range(from, end)
      ensures Calm() ==> ok
    {
      BatchKeepsGapless(received, from, end);
      var effect;
      effect, ok := Attempt();
      if effect { received := received + Range(from, end); }
      if ok && end > acknowledged { acknowledged := end; }
    }

    method Checkpoint(position: nat) returns (ok: bool)
      requires Inv() && position < acknowledged
      modifies `cursor, `up, `faults
      ensures Inv() && Worsening()
      ensures cursor == old(cursor) || cursor == Some(position)
      ensures ok ==> cursor == Some(position)
      ensures Calm() ==> ok
    {
      var effect;
      effect, ok := Attempt();
      if effect { cursor := Some(position); }
    }

    /** Push the batch, then checkpoint its last line. */
    method Flush(from: nat, end: nat) returns (ok: bool)
      requires Inv() && from == Next(cursor) <= end <= |journal|
      modifies `received, `acknowledged, `cursor, `up, `faults
      ensures Inv() && Worsening()
      ensures Next(cursor) == from || (from < end && Next(cursor) == end)
      ensures from == end ==> ok && cursor == old(cursor) && received == old(received)
      ensures ok ==> Next(cursor) == end
      ensures Calm() ==> ok
    {
      if from == end { return true; }
      ok := Push(from, end);
      if !ok { return; }
      ok := Checkpoint(end - 1);
    }

    /** The next line, if there is one: refused if it is bad, flushed with its batch if that is full. */
    method Arrived(next0: nat) returns (ok: bool, next: nat)
      requires Inv() && Next(cursor) <= next0 <= |journal| && next0 - Next(cursor) < BATCH
      modifies `received, `acknowledged, `cursor, `up, `faults
      ensures Inv() && Worsening() && next0 <= next <= next0 + 1
      ensures next > next0 ==> next <= |journal| && journal[next0].timestamped && journal[next0].hasCursor
      ensures Stepped(Fate(journal, Next(old(cursor)), next0, true), Arrive, Fate(journal, Next(cursor), next, ok))
      ensures ok || Calm() ==>
                Fate(journal, Next(cursor), next, ok) == One(Fate(journal, Next(old(cursor)), next0, true), Arrive)
      ensures One(Fate(journal, Next(old(cursor)), next0, true), Arrive).kept == Next(old(cursor)) ==>
                cursor == old(cursor) && received == old(received)
    {
      hide Gapless, Frontier;
      next := next0;
      if next == |journal| { return true, next; }
      if !journal[next].timestamped || !journal[next].hasCursor { return false, next; }
      next := next + 1;
      ok := true;
      if next - Next(cursor) == BATCH { ok := Flush(Next(cursor), next); }
    }

    /** One turn of the loop. */
    method Turn(e: Event, next0: nat) returns (ok: bool, next: nat)
      requires Inv() && Next(cursor) <= next0 <= |journal| && next0 - Next(cursor) < BATCH
      modifies this
      ensures Inv() && Worsening() && old(journal) <= journal && next0 <= next <= next0 + 1
      ensures next > next0 ==> next <= |journal| && journal[next0].timestamped && journal[next0].hasCursor
      ensures Stepped(Fate(old(journal), Next(old(cursor)), next0, true), e, Fate(journal, Next(cursor), next, ok))
      ensures ok || Calm() ==>
                Fate(journal, Next(cursor), next, ok) == One(Fate(old(journal), Next(old(cursor)), next0, true), e)
      ensures One(Fate(old(journal), Next(old(cursor)), next0, true), e).kept == Next(old(cursor)) ==>
                cursor == old(cursor) && received == old(received)
    {
      hide Gapless, Frontier;
      ok, next := true, next0;
      match e
      case Append(entry) => journal := journal + [entry];
      case Cancel => ok := false;
      case Tick => ok := Flush(Next(cursor), next);
      case Broken =>
        var flushed := Flush(Next(cursor), next);
        ok := false;
      case Arrive => ok, next := Arrived(next);
    }

    /**
     One stream: the batch holds the lines from just after the cursor up to `next`, at most BATCH
     of them.  The first line without a timestamp or cursor ends it, and so does any failure.
     Undisturbed it ends as Calmly says.
     */
    method Stream(schedule: seq<Event>) returns (ok: bool, next: nat)
      requires Inv()
      modifies this
      ensures Inv() && Worsening() && old(journal) <= journal
      ensures Next(old(cursor)) <= Next(cursor) <= next <= |journal| && next - Next(cursor) <= BATCH
      ensures forall k | Next(old(cursor)) <= k < Next(cursor) :: journal[k].timestamped && journal[k].hasCursor
      ensures ok || Calm() ==>
                Fate(journal, Next(cursor), next, ok) == Calmly(Start(old(journal), Next(old(cursor))), schedule)
      // disturbed it gets no further, and sends nothing it would not have sent
      ensures Next(cursor) <= Calmly(Start(old(journal), Next(old(cursor))), schedule).kept
      ensures Calmly(Start(old(journal), Next(old(cursor))), schedule).kept == Next(old(cursor)) ==>
                cursor == old(cursor) && received == old(received)
      ensures ok && schedule != [] && schedule[|schedule| - 1] == Tick ==> next == Next(cursor)
      ensures Calm() && !ok ==> Poisoned(journal, next) || Broken in schedule || Cancel in schedule
      ensures (forall e | e in schedule :: e == Arrive)
              && Bad(old(journal), Next(old(cursor)), Next(old(cursor)) + BATCH) ==>
                cursor == old(cursor) && received == old(received)
    {
      hide Gapless, Frontier, Calmly, Poisoned, Bad, One;
      ghost var start := Start(journal, Next(cursor));
      next := Next(cursor);
      ok := true;
      CalmlyNone(start);
      Why(start, schedule);
      if forall e | e in schedule :: e == Arrive { OnlyArrivals(start, schedule); }
      for i := 0 to |schedule|
        invariant Inv() && Worsening() && old(journal) <= journal && ok
        invariant Next(old(cursor)) <= Next(cursor) <= next <= |journal| && next - Next(cursor) < BATCH
        invariant forall k | Next(old(cursor)) <= k < next :: journal[k].timestamped && journal[k].hasCursor
        invariant Fate(journal, Next(cursor), next, true) == Calmly(start, schedule[..i])
        invariant Next(cursor) == Next(old(cursor)) ==> cursor == old(cursor) && received == old(received)
      {
        CalmlyNext(start, schedule, i);
        Grows(start, schedule, i);
        Grows(start, schedule, i + 1);
        ok, next := Turn(schedule[i], next);
        if !ok { return; }
      }
      assert schedule[..|schedule|] == schedule;
      if schedule != [] && schedule[|schedule| - 1] == Tick { LastTick(start, schedule); }
    }

    /** Read the cursor, ask for everything after it, and stream. */
    method Follow(schedule: seq<Event>) returns (ok: bool)
      requires Inv()
      modifies this
      ensures Inv() && Worsening() && old(journal) <= journal && Next(old(cursor)) <= Next(cursor)
      ensures forall k | Next(old(cursor)) <= k < Next(cursor) :: journal[k].timestamped && journal[k].hasCursor
    {
      var effect;
      effect, ok := Attempt();
      if !ok { return; }
      var next;
      ok, next := Stream(schedule);
    }

    /** Any number of streams, retries and process restarts. */
    method Run(schedules: seq<seq<Event>>)
      requires Inv()
      modifies this
      ensures Inv() && old(journal) <= journal && Next(old(cursor)) <= Next(cursor)
      ensures Distinct(received) == Upto(Frontier(received))
      ensures forall k: nat | k < Next(cursor) :: k in received
      ensures forall k | Next(old(cursor)) <= k < Next(cursor) :: journal[k].timestamped && journal[k].hasCursor
    {
      for i := 0 to |schedules|
        invariant Inv() && old(journal) <= journal && Next(old(cursor)) <= Next(cursor)
        invariant forall k | Next(old(cursor)) <= k < Next(cursor) :: journal[k].timestamped && journal[k].hasCursor
      {
        up := true;
        var _ := Follow(schedules[i]);
      }
      DistinctIsPrefix(received);
      GaplessMembers(received);
    }
  }

  /** The line cannot be forwarded. */
  predicate Poisoned(journal: seq<Entry>, k: nat) {
    k < |journal| && !(journal[k].timestamped && journal[k].hasCursor)
  }

  // What a stream comes to when nothing fails.

  /**
   The journal so far, the first line not yet checkpointed, the first not yet read, and whether
   the stream goes on.
   */
  datatype Fate = Fate(journal: seq<Entry>, kept: nat, next: nat, going: bool)

  function One(f: Fate, e: Event): Fate {
    if !f.going then f
    else
      match e
      case Append(entry) => f.(journal := f.journal + [entry])
      case Cancel => f.(going := false)
      case Tick => f.(kept := f.next)
      case Broken => f.(kept := f.next, going := false)
      case Arrive =>
        if f.next >= |f.journal| then f
        else if Poisoned(f.journal, f.next) then f.(going := false)
        else f.(next := f.next + 1, kept := if f.next + 1 - f.kept == BATCH then f.next + 1 else f.kept)
  }

  function Calmly(f: Fate, schedule: seq<Event>): Fate {
    if schedule == [] then f else One(Calmly(f, schedule[..|schedule| - 1]), schedule[|schedule| - 1])
  }

  function Start(journal: seq<Entry>, from: nat): Fate {
    Fate(journal, from, from, true)
  }

  /** Progress is never taken back. */
  lemma {:induction false} Grows(f: Fate, schedule: seq<Event>, i: nat)
    requires i <= |schedule| && f.kept <= f.next
    ensures Calmly(f, schedule[..i]).kept <= Calmly(f, schedule).kept <= Calmly(f, schedule).next
    ensures Calmly(f, schedule[..i]).kept <= Calmly(f, schedule[..i]).next <= Calmly(f, schedule).next
    decreases |schedule|
  {
    if i == |schedule| {
      assert schedule[..i] == schedule;
      if i > 0 { Grows(f, schedule[..i - 1], i - 1); }
    } else {
      var rest := schedule[..|schedule| - 1];
      assert rest[..i] == schedule[..i];
      Grows(f, rest, i);
    }
  }

  lemma LastTick(f: Fate, schedule: seq<Event>)
    requires schedule != [] && schedule[|schedule| - 1] == Tick
    ensures Calmly(f, schedule).going ==> Calmly(f, schedule).kept == Calmly(f, schedule).next
  {
  }

  /** What one turn may do to a stream, disturbed or not: no more than it would undisturbed. */
  predicate Stepped(f: Fate, e: Event, g: Fate) {
    && f.kept <= g.kept <= g.next && (g.kept == f.kept || g.kept == g.next) && g.next - g.kept <= BATCH
    && g.kept <= One(f, e).kept && g.next <= One(f, e).next
    && (g.going ==> g.next - g.kept < BATCH)
  }

  /** What can end a stream. */
  lemma {:induction false} Why(f: Fate, schedule: seq<Event>)
    requires f.going
    ensures !Calmly(f, schedule).going ==>
              || Poisoned(Calmly(f, schedule).journal, Calmly(f, schedule).next)
              || Broken in schedule || Cancel in schedule
  {
    if schedule != [] {
      Why(f, schedule[..|schedule| - 1]);
      assert schedule == schedule[..|schedule| - 1] + [schedule[|schedule| - 1]];
    }
  }

  predicate Bad(journal: seq<Entry>, from: nat, end: nat) {
    exists k :: from <= k < end && Poisoned(journal, k)
  }

  lemma {:induction false} FirstBad(journal: seq<Entry>, from: nat, end: nat) returns (k: nat)
    requires Bad(journal, from, end)
    ensures from <= k < end && Poisoned(journal, k) && Clear(journal, from, k)
    decreases end
  {
    k := end - 1;
    if Bad(journal, from, end - 1) { k := FirstBad(journal, from, end - 1); }
  }

  /** Nothing but arrivals, with a bad line in the first batch: nothing is delivered. */
  lemma OnlyArrivals(f: Fate, schedule: seq<Event>)
    requires f.going && f.kept == f.next <= |f.journal| && forall e | e in schedule :: e == Arrive
    ensures Bad(f.journal, f.next, f.next + BATCH) ==> Calmly(f, schedule).kept == f.kept
  {
    var n := |schedule|;
    assert schedule == Arrivals(n) by {
      assert forall i | 0 <= i < n :: schedule[i] in schedule;
    }
    if Bad(f.journal, f.next, f.next + BATCH) {
      var k := FirstBad(f.journal, f.next, f.next + BATCH);
      if f.next + n > k { BadArrival(f.journal, f.next, k, n); } else { GoodArrivals(f, n); }
    }
  }

  lemma CalmlyNone(f: Fate)
    ensures Calmly(f, []) == f
  {
  }

  /** One event more; and once a stream has ended, the rest of the schedule does nothing. */
  lemma CalmlyNext(f: Fate, schedule: seq<Event>, i: nat)
    requires i < |schedule|
    ensures Calmly(f, schedule[..i + 1]) == One(Calmly(f, schedule[..i]), schedule[i])
    ensures !One(Calmly(f, schedule[..i]), schedule[i]).going ==>
              Calmly(f, schedule) == One(Calmly(f, schedule[..i]), schedule[i])
  {
    assert schedule[..i + 1][..i] == schedule[..i];
    if !Calmly(f, schedule[..i + 1]).going { Ended(f, schedule, i + 1); }
  }

  lemma {:induction false} Ended(f: Fate, schedule: seq<Event>, i: nat)
    requires i <= |schedule| && !Calmly(f, schedule[..i]).going
    ensures Calmly(f, schedule) == Calmly(f, schedule[..i])
    decreases |schedule|
  {
    if i == |schedule| {
      assert schedule[..i] == schedule;
    } else {
      var rest := schedule[..|schedule| - 1];
      assert rest[..i] == schedule[..i];
      Ended(f, rest, i);
    }
  }

  function Arrivals(k: nat): seq<Event> {
    seq(k, _ => Arrive)
  }

  function Min(a: nat, b: nat): nat {
    if a < b then a else b
  }

  /** No line between two positions is poisoned. */
  predicate Clear(journal: seq<Entry>, from: nat, end: nat) {
    forall k | from <= k < end :: !Poisoned(journal, k)
  }

  /** Good lines are read as they arrive, and delivered batch by batch. */
  lemma {:induction false} GoodArrivals(f: Fate, k: nat)
    requires f.going && f.kept == f.next <= |f.journal| && Clear(f.journal, f.next, f.next + k)
    ensures var g := Calmly(f, Arrivals(k));
            && g.going && g.journal == f.journal && g.next == Min(f.next + k, |f.journal|)
            && g.kept == f.kept + (g.next - f.kept) / BATCH * BATCH
  {
    if k > 0 {
      assert Clear(f.journal, f.next, f.next + (k - 1));
      GoodArrivals(f, k - 1);
      assert Arrivals(k)[..k - 1] == Arrivals(k - 1);
      var g := Calmly(f, Arrivals(k - 1));
      NextBatch(g.next - f.kept);
    }
  }

  lemma NextBatch(n: nat)
    ensures (n + 1 - n / BATCH * BATCH == BATCH) <==> (n + 1) / BATCH == n / BATCH + 1
    ensures (n + 1) / BATCH == n / BATCH || (n + 1) / BATCH == n / BATCH + 1
  {
  }

  /** With no bad line in the way, k arrivals and a tick deliver k lines, or all there are. */
  lemma ArrivalsThenTick(journal: seq<Entry>, from: nat, k: nat)
    requires from <= |journal| && Clear(journal, from, from + k)
    ensures Calmly(Fate(journal, from, from, true), Arrivals(k) + [Tick])
         == Fate(journal, Min(from + k, |journal|), Min(from + k, |journal|), true)
  {
    GoodArrivals(Fate(journal, from, from, true), k);
    assert (Arrivals(k) + [Tick])[..k] == Arrivals(k);
  }

  /** A bad line ends the stream; of the lines before it, whole batches have been delivered. */
  lemma BadArrival(journal: seq<Entry>, from: nat, bad: nat, k: nat)
    requires from <= bad && Poisoned(journal, bad) && Clear(journal, from, bad) && from + k > bad
    ensures Calmly(Fate(journal, from, from, true), Arrivals(k))
         == Fate(journal, from + (bad - from) / BATCH * BATCH, bad, false)
  {
    var m := bad - from;
    GoodArrivals(Fate(journal, from, from, true), m);
    assert Arrivals(k)[..m] == Arrivals(m);
    CalmlyNext(Fate(journal, from, from, true), Arrivals(k), m);
  }

  function Count(schedule: seq<Event>): nat {
    if schedule == [] then 0
    else Count(schedule[..|schedule| - 1]) + if schedule[|schedule| - 1] == Arrive then 1 else 0
  }

  /** A tick that finds the line read, before the bad one has arrived. */
  predicate TickBetween(schedule: seq<Event>, from: nat, bad: nat, n: nat, t: nat) {
    t < |schedule| && schedule[t] == Tick && n < from + Count(schedule[..t]) <= bad
  }

  /**
   The fewer than BATCH lines before a bad one: each is delivered if and only if a tick comes
   between it and the bad one.
   */
  lemma {:induction false} DeliveredBeforeBad(journal: seq<Entry>, from: nat, bad: nat, n: nat, schedule: seq<Event>)
    requires from <= n < bad < from + BATCH && Poisoned(journal, bad) && Clear(journal, from, bad)
    requires forall e | e in schedule :: e == Arrive || e == Tick
    ensures var g := Calmly(Fate(journal, from, from, true), schedule);
            && (g.going <==> from + Count(schedule) <= bad)
            && g.journal == journal && g.next == Min(from + Count(schedule), bad) && from <= g.kept <= g.next
            && (n < g.kept <==> exists t :: TickBetween(schedule, from, bad, n, t))
  {
    if schedule != [] {
      var m := |schedule| - 1;
      var rest := schedule[..m];
      assert forall e | e in rest :: e in schedule;
      DeliveredBeforeBad(journal, from, bad, n, rest);
      assert schedule[m] in schedule;
      Ticks(schedule, from, bad, n);
    }
  }

  lemma Ticks(schedule: seq<Event>, from: nat, bad: nat, n: nat)
    requires schedule != []
    ensures var m := |schedule| - 1;
            (exists t :: TickBetween(schedule, from, bad, n, t)) <==>
              || (exists t :: TickBetween(schedule[..m], from, bad, n, t))
              || (schedule[m] == Tick && n < from + Count(schedule[..m]) <= bad)
  {
    var m := |schedule| - 1;
    if t: nat :| TickBetween(schedule, from, bad, n, t) {
      if t < m {
        assert schedule[..m][..t] == schedule[..t];
        assert TickBetween(schedule[..m], from, bad, n, t);
      }
    }
    if t: nat :| TickBetween(schedule[..m], from, bad, n, t) {
      assert schedule[..m][..t] == schedule[..t];
      assert TickBetween(schedule, from, bad, n, t);
    }
    if schedule[m] == Tick && n < from + Count(schedule[..m]) <= bad {
      assert TickBetween(schedule, from, bad, n, m);
    }
  }

  /** No stream carries the cursor past a bad line. */
  lemma {:induction false} NeverPast(f: Fate, bad: nat, schedule: seq<Event>)
    requires f.kept <= f.next <= bad && Poisoned(f.journal, bad)
    ensures var g := Calmly(f, schedule); g.kept <= g.next <= bad && Poisoned(g.journal, bad)
  {
    if schedule != [] { NeverPast(f, bad, schedule[..|schedule| - 1]); }
  }

  /** A line can be delivered if and only if no line from the cursor up to it is bad. */
  lemma DeliverableIff(journal: seq<Entry>, from: nat, n: nat)
    requires from <= n < |journal|
    ensures (exists schedule :: n < Calmly(Fate(journal, from, from, true), schedule).kept) <==>
              Clear(journal, from, n + 1)
  {
    if Clear(journal, from, n + 1) {
      ArrivalsThenTick(journal, from, n + 1 - from);
    } else {
      var bad: nat :| from <= bad < n + 1 && Poisoned(journal, bad);
      forall schedule ensures !(n < Calmly(Fate(journal, from, from, true), schedule).kept) {
        NeverPast(Fate(journal, from, from, true), bad, schedule);
      }
    }
  }
}
