/** The in-memory ring of log lines of frontend/src-tauri/src/logs.rs and the cursor that polls it. */
module LogBuffers {
  const MAX_LINES: nat := 2000

  datatype Source = Engine | Gateway | Desktop | Frontend
  datatype Level = Error | Warn | Info | Debug
  datatype LogEntry = LogEntry(seqNo: nat, source: Source, level: Level, message: string)

  /** Lines are numbered from 1 in the order of their arrival. */
  ghost predicate Numbered(history: seq<LogEntry>) {
    forall i | 0 <= i < |history| :: history[i].seqNo == i + 1
  }

  /** How many of the lines ever appended are gone, to the ring's capacity or to a clear. */
  function Dropped(appended: nat, cleared: nat): (d: nat)
    requires cleared <= appended
    ensures d <= appended
  {
    if appended > MAX_LINES && cleared < appended - MAX_LINES then appended - MAX_LINES else cleared
  }

  /** The lines that a poll from cursor `after` returns. */
  function Unseen(history: seq<LogEntry>, cleared: nat, after: nat): seq<LogEntry>
    requires cleared <= |history|
  {
    var from := Dropped(|history|, cleared);
    if after >= |history| then [] else history[if from < after then after else from..]
  }

  class LogBuffer {
    var entries: seq<LogEntry>
    var nextSeq: nat
    /** Every line ever appended, and how many of them the last clear dropped. */
    ghost var history: seq<LogEntry>
    ghost var cleared: nat

    ghost predicate Valid()
      reads this
    {
      && Numbered(history) && nextSeq == |history| + 1 && cleared <= |history|
      && entries == history[Dropped(|history|, cleared)..]
    }

    constructor ()
      ensures Valid() && history == []
    {
      entries, nextSeq, history, cleared := [], 1, [], 0;
    }

    method Append(source: Source, level: Level, message: string)
      requires Valid()
      modifies this
      ensures Valid() && cleared == old(cleared)
      ensures history == old(history) + [LogEntry(old(nextSeq), source, level, message)]
      ensures |entries| <= MAX_LINES
    {
      var entry := LogEntry(nextSeq, source, level, message);
      nextSeq := nextSeq + 1;
      entries := entries + [entry];
      history := history + [entry];
      assert entries == history[|history| - |entries|..];
      while |entries| > MAX_LINES
        invariant history == old(history) + [entry] && nextSeq == |history| + 1 && cleared == old(cleared)
        invariant |entries| <= |history| && entries == history[|history| - |entries|..]
        invariant |history| - |entries| <= Dropped(|history|, cleared)
        invariant |entries| >= MAX_LINES || |history| - |entries| == cleared
      {
        entries := entries[1..];
      }
    }

    /** Every entry with a number above `after`, oldest first. */
    method Since(after: nat) returns (found: seq<LogEntry>)
      requires Valid()
      ensures found == Unseen(history, cleared, after)
    {
      found := [];
      for i := 0 to |entries|
        invariant found == FilterSince(entries[..i], after)
      {
        assert entries[..i + 1][..i] == entries[..i];
        if entries[i].seqNo > after {
          found := found + [entries[i]];
        }
      }
      assert entries[..|entries|] == entries;
      FilterIsSuffix(history, Dropped(|history|, cleared), after);
    }

    method Clear()
      requires Valid()
      modifies this
      ensures Valid() && history == old(history) && entries == [] && nextSeq == old(nextSeq)
      ensures cleared == |history|
    {
      entries := [];
      cleared := |history|;
    }
  }

  function FilterSince(entries: seq<LogEntry>, after: nat): seq<LogEntry> {
    if |entries| == 0 then []
    else
      var n := |entries| - 1;
      FilterSince(entries[..n], after) + if entries[n].seqNo > after then [entries[n]] else []
  }

  /** On numbered lines, filtering by number is cutting. */
  lemma FilterIsSuffix(history: seq<LogEntry>, from: nat, after: nat)
    requires Numbered(history) && from <= |history|
    ensures FilterSince(history[from..], after)
         == if after >= |history| then [] else history[if from < after then after else from..]
  {
    FilterUpTo(history, from, |history|, after);
    assert history[..|history|] == history;
  }

  lemma {:induction false} FilterUpTo(history: seq<LogEntry>, from: nat, end: nat, after: nat)
    requires Numbered(history) && from <= end <= |history|
    ensures FilterSince(history[from..end], after)
         == if after >= end then [] else history[if from < after then after else from..end]
    decreases end
  {
    hide FilterSince, Numbered;
    if from < end {
      var before, last := history[from..end - 1], history[end - 1];
      NumberOf(history, end - 1);
      FilterUpTo(history, from, end - 1, after);
      FilterLast(before, last, after);
      SliceGrows(history, from, end);
      if after < end - 1 {
        SliceGrows(history, if from < after then after else from, end);
      } else {
        SliceGrows(history, end - 1, end);
        assert history[end - 1..end - 1] == [];
      }
    } else {
      FilterNothing(history[from..end], after);
    }
  }

  lemma NumberOf(history: seq<LogEntry>, i: nat)
    requires Numbered(history) && i < |history|
    ensures history[i].seqNo == i + 1
  {
  }

  lemma FilterNothing(entries: seq<LogEntry>, after: nat)
    requires |entries| == 0
    ensures FilterSince(entries, after) == []
  {
  }

  lemma FilterLast(before: seq<LogEntry>, last: LogEntry, after: nat)
    ensures FilterSince(before + [last], after) == FilterSince(before, after) + if last.seqNo > after then [last] else []
  {
    assert (before + [last])[..|before|] == before;
  }

  lemma SliceGrows(history: seq<LogEntry>, from: nat, end: nat)
    requires from < end <= |history|
    ensures history[from..end] == history[from..end - 1] + [history[end - 1]]
  {
  }

  // ---------- Polling ----------

  const MAX_RENDERED: nat := 2000

  /** A poll in flight: the command has not been carried out yet, or its answer is on the way. */
  datatype Tick = Waiting(after: nat) | Answered(found: seq<LogEntry>)

  /** The buffer as its history, and one panel that polls it: its cursor, every line it was given, and the rows it still
      renders. A timer starts the ticks, whether or not an earlier one is still in flight. */
  datatype Session = Session(history: seq<LogEntry>, cleared: nat, cursor: nat, received: seq<LogEntry>, rows: seq<LogEntry>,
                             ticks: seq<Tick>)

  /** A tick starts, is carried out by the desktop shell, and is answered or fails; answers come in any order. */
  datatype Event =
    | Appended(source: Source, level: Level, message: string)
    | Cleared
    | RowsEmptied
    | Ticked
    | Served(i: nat)
    | Delivered(i: nat)
    | Failed(i: nat)

  const START: Session := Session([], 0, 0, [], [], [])

  function Newest(rows: seq<LogEntry>): seq<LogEntry> {
    if |rows| > MAX_RENDERED then rows[|rows| - MAX_RENDERED..] else rows
  }

  function Without(ticks: seq<Tick>, i: nat): seq<Tick>
    requires i < |ticks|
  {
    ticks[..i] + ticks[i + 1..]
  }

  predicate IsServed(s: Session, i: nat) {
    i < |s.ticks| && s.ticks[i].Answered?
  }

  /** An answer is appended, and the cursor moves to its last number, forwards or backwards. */
  function Deliver(s: Session, i: nat): Session
    requires IsServed(s, i)
  {
    var found := s.ticks[i].found;
    var rest := s.(ticks := Without(s.ticks, i));
    if found == [] then rest
    else rest.(received := s.received + found, rows := Newest(s.rows + found), cursor := found[|found| - 1].seqNo)
  }

  function Next(s: Session, ev: Event): Session
    requires s.cleared <= |s.history|
  {
    match ev
    case Appended(source, level, message) =>
      s.(history := s.history + [LogEntry(|s.history| + 1, source, level, message)])
    case Cleared => s.(cleared := |s.history|)
    case RowsEmptied => s.(rows := [])
    case Ticked => s.(ticks := s.ticks + [Waiting(s.cursor)])
    case Served(i) =>
      if i < |s.ticks| && s.ticks[i].Waiting?
      then s.(ticks := s.ticks[i := Answered(Unseen(s.history, s.cleared, s.ticks[i].after))])
      else s
    case Delivered(i) => if IsServed(s, i) then Deliver(s, i) else s
    case Failed(i) => if i < |s.ticks| then s.(ticks := Without(s.ticks, i)) else s
  }

  function Run(events: seq<Event>): (s: Session)
    ensures s.cleared <= |s.history|
  {
    if |events| == 0 then START else Next(Run(events[..|events| - 1]), events[|events| - 1])
  }

  // ---------- What holds in every run ----------

  ghost predicate IsLine(e: LogEntry, history: seq<LogEntry>) {
    1 <= e.seqNo <= |history| && e == history[e.seqNo - 1]
  }

  /** Lines of the history without a gap. */
  ghost predicate IsStretch(found: seq<LogEntry>, history: seq<LogEntry>) {
    |found| > 0 ==>
      var first := found[0].seqNo;
      1 <= first && first - 1 + |found| <= |history| && found == history[first - 1..first - 1 + |found|]
  }

  function LastNumber(received: seq<LogEntry>): nat {
    if |received| == 0 then 0 else received[|received| - 1].seqNo
  }

  ghost predicate TickIsRight(tick: Tick, history: seq<LogEntry>) {
    match tick
    case Waiting(after) => after <= |history|
    case Answered(found) => IsStretch(found, history)
  }

  /** Whatever is in flight: received lines are lines of the history, and the cursor is the number of the last one. */
  ghost predicate Coherent(s: Session) {
    && Numbered(s.history) && s.cleared <= |s.history|
    && s.cursor == LastNumber(s.received) <= |s.history|
    && (forall i | 0 <= i < |s.received| :: IsLine(s.received[i], s.history))
    && forall i | 0 <= i < |s.ticks| :: TickIsRight(s.ticks[i], s.history)
  }

  lemma UnseenIsStretch(history: seq<LogEntry>, cleared: nat, after: nat)
    requires Numbered(history) && cleared <= |history|
    ensures IsStretch(Unseen(history, cleared, after), history)
    ensures var found := Unseen(history, cleared, after); found != [] ==> found[0].seqNo > after
  {
    var dropped := Dropped(|history|, cleared);
    var start := if dropped < after then after else dropped;
    if after < |history| && start < |history| {
      assert history[start..][0] == history[start];
    }
  }

  lemma StretchLines(found: seq<LogEntry>, history: seq<LogEntry>, i: nat)
    requires Numbered(history) && IsStretch(found, history) && i < |found|
    ensures IsLine(found[i], history) && found[i].seqNo == found[0].seqNo + i
  {
    var first := found[0].seqNo;
    assert found[i] == history[first - 1 + i];
  }

  lemma AppendKeepsTick(tick: Tick, history: seq<LogEntry>, more: seq<LogEntry>)
    requires TickIsRight(tick, history)
    ensures TickIsRight(tick, history + more)
  {
    if tick.Answered? && tick.found != [] {
      var first := tick.found[0].seqNo;
      SliceOfFirst(history, more, first - 1, first - 1 + |tick.found|);
    }
  }

  lemma SliceOfFirst(history: seq<LogEntry>, more: seq<LogEntry>, from: nat, end: nat)
    requires from <= end <= |history|
    ensures (history + more)[from..end] == history[from..end]
  {
    var part := (history + more)[from..end];
    assert forall i | 0 <= i < |part| :: part[i] == history[from..end][i];
  }

  lemma DeliverKeepsCoherent(s: Session, i: nat)
    requires Coherent(s) && IsServed(s, i)
    ensures Coherent(Deliver(s, i))
  {
    hide IsStretch, IsLine;
    var found := s.ticks[i].found;
    assert TickIsRight(s.ticks[i], s.history);
    forall j | 0 <= j < |found| ensures IsLine(found[j], s.history) {
      StretchLines(found, s.history, j);
    }
    if found != [] {
      LineIsInside(found[|found| - 1], s.history);
    }
  }

  lemma LineIsInside(e: LogEntry, history: seq<LogEntry>)
    requires IsLine(e, history)
    ensures e.seqNo <= |history|
  {
  }

  lemma NextKeepsCoherent(s: Session, ev: Event)
    requires Coherent(s)
    ensures Coherent(Next(s, ev))
  {
    hide IsStretch, Unseen, Dropped;
    match ev
    case Appended(source, level, message) =>
      forall i | 0 <= i < |s.ticks| ensures TickIsRight(s.ticks[i], Next(s, ev).history) {
        AppendKeepsTick(s.ticks[i], s.history, [LogEntry(|s.history| + 1, source, level, message)]);
      }
    case Served(i) =>
      if i < |s.ticks| && s.ticks[i].Waiting? {
        UnseenIsStretch(s.history, s.cleared, s.ticks[i].after);
      }
    case Delivered(i) =>
      if IsServed(s, i) {
        DeliverKeepsCoherent(s, i);
      }
    case _ =>
  }

  lemma {:induction false} RunIsCoherent(events: seq<Event>)
    ensures Coherent(Run(events))
  {
    if |events| > 0 {
      RunIsCoherent(events[..|events| - 1]);
      NextKeepsCoherent(Run(events[..|events| - 1]), events[|events| - 1]);
    }
  }

  /** The rows are lines received last, and all of the last 2000 when `whole`. */
  ghost predicate RowsAre(s: Session, whole: bool) {
    && |s.rows| <= 2000 && |s.rows| <= |s.received| && s.rows == s.received[|s.received| - |s.rows|..]
    && (whole ==> |s.rows| == if |s.received| > 2000 then 2000 else |s.received|)
  }

  ghost predicate RowsAreCut(s: Session, whole: bool) {
    && |s.rows| <= MAX_RENDERED && |s.rows| <= |s.received| && s.rows == s.received[|s.received| - |s.rows|..]
    && (whole ==> s.rows == Newest(s.received))
  }

  lemma NextKeepsRows(s: Session, ev: Event, whole: bool)
    requires s.cleared <= |s.history| && RowsAreCut(s, whole)
    ensures RowsAreCut(Next(s, ev), whole && !ev.RowsEmptied?)
  {
    hide Newest, Unseen, Without;
    NewestIsShort(s.rows);
    if ev.Delivered? && IsServed(s, ev.i) {
      NewestOfMore(s.rows, s.received, s.ticks[ev.i].found);
      NewestIsShort(s.rows + s.ticks[ev.i].found);
    }
  }

  lemma NewestIs(rows: seq<LogEntry>)
    ensures |Newest(rows)| == if |rows| > 2000 then 2000 else |rows|
    ensures Newest(rows) == rows[|rows| - |Newest(rows)|..]
  {
  }

  lemma NewestIsShort(rows: seq<LogEntry>)
    ensures |Newest(rows)| <= MAX_RENDERED
  {
  }

  /** The panel renders the newest lines it was given, at most 2000 of them, and no fewer unless it was emptied. */
  lemma RowsAreNewest(events: seq<Event>)
    ensures RowsAre(Run(events), RowsEmptied !in events)
  {
    hide Newest, Run;
    RowsAreCutOf(events);
    NewestIs(Run(events).received);
  }

  lemma {:induction false} RowsAreCutOf(events: seq<Event>)
    ensures RowsAreCut(Run(events), RowsEmptied !in events)
  {
    hide RowsAreCut, Next;
    if |events| > 0 {
      var before, ev := events[..|events| - 1], events[|events| - 1];
      RowsAreCutOf(before);
      assert events == before + [ev];
      NextKeepsRows(Run(before), ev, RowsEmptied !in before);
    } else {
      NoRowsAtFirst();
    }
  }

  lemma NoRowsAtFirst()
    ensures RowsAreCut(START, true)
  {
  }

  lemma NewestOfMore(rows: seq<LogEntry>, received: seq<LogEntry>, found: seq<LogEntry>)
    requires |rows| <= |received| && rows == received[|received| - |rows|..]
    ensures var more, all := Newest(rows + found), received + found;
            && |more| <= |all| && more == all[|all| - |more|..] && (rows == Newest(received) ==> more == Newest(all))
  {
    var all := received + found;
    assert rows + found == all[|received| - |rows|..];
  }

  // ---------- In order, and none twice ----------

  ghost predicate Ascending(received: seq<LogEntry>) {
    forall i, j | 0 <= i < j < |received| :: received[i].seqNo < received[j].seqNo
  }

  /** The first line of the answer lies beyond the cursor that it meets. */
  predicate IsFresh(s: Session, ev: Event) {
    ev.Delivered? && IsServed(s, ev.i) && s.ticks[ev.i].found != [] ==> s.ticks[ev.i].found[0].seqNo > s.cursor
  }

  lemma {:induction false} LastIsGreatest(received: seq<LogEntry>, i: nat)
    requires Ascending(received) && i < |received|
    ensures received[i].seqNo <= LastNumber(received)
  {
    assert i < |received| - 1 ==> received[i].seqNo < received[|received| - 1].seqNo;
  }

  /** An answer keeps the order exactly when it is empty or starts beyond the current cursor. */
  lemma DeliveryKeepsOrderIff(s: Session, i: nat)
    requires Coherent(s) && Ascending(s.received) && IsServed(s, i)
    ensures Ascending(Deliver(s, i).received) <==> IsFresh(s, Delivered(i))
  {
    var found, received := s.ticks[i].found, Deliver(s, i).received;
    assert TickIsRight(s.ticks[i], s.history);
    if found != [] {
      var n := |s.received|;
      forall k | n <= k < |received| ensures received[k].seqNo == found[0].seqNo + k - n {
        StretchLines(found, s.history, k - n);
      }
      forall j | 0 <= j < n ensures received[j].seqNo <= s.cursor {
        LastIsGreatest(s.received, j);
      }
      if n > 0 {
        assert received[n - 1].seqNo == s.cursor && received[n] == found[0];
      }
    }
  }

  /** In every state of the run so far, the received lines are in order and none is there twice. */
  ghost predicate AlwaysInOrder(events: seq<Event>) {
    Ascending(Run(events).received) && (|events| > 0 ==> AlwaysInOrder(events[..|events| - 1]))
  }

  ghost predicate AllFresh(events: seq<Event>) {
    |events| > 0 ==>
      var n := |events| - 1;
      AllFresh(events[..n]) && IsFresh(Run(events[..n]), events[n])
  }

  /** A run keeps its lines in order exactly when every answer starts beyond the cursor that it meets. */
  lemma {:induction false} InOrderIffFresh(events: seq<Event>)
    ensures AlwaysInOrder(events) <==> AllFresh(events)
  {
    if |events| > 0 {
      var n := |events| - 1;
      var s, ev := Run(events[..n]), events[n];
      InOrderIffFresh(events[..n]);
      RunIsCoherent(events[..n]);
      assert AlwaysInOrder(events[..n]) ==> Ascending(s.received);
      if Ascending(s.received) && ev.Delivered? && IsServed(s, ev.i) {
        DeliveryKeepsOrderIff(s, ev.i);
      }
    }
  }

  /** Two ticks in flight from the same cursor bring the same line twice. */
  lemma OverlappingTicksDuplicate(source: Source, level: Level, message: string)
    ensures var asked := Next(Next(Next(START, Appended(source, level, message)), Ticked), Ticked);
            var served := Next(Next(asked, Served(0)), Served(1));
            var line := LogEntry(1, source, level, message);
            Next(Next(served, Delivered(0)), Delivered(0)).received == [line, line]
  {
    hide Unseen, Newest;
    var line := LogEntry(1, source, level, message);
    var asked := Next(Next(Next(START, Appended(source, level, message)), Ticked), Ticked);
    assert asked.history == [line] && asked.ticks == [Waiting(0), Waiting(0)];
    AllUnseen([line]);
    var served := Next(Next(asked, Served(0)), Served(1));
    assert served.ticks == [Answered([line]), Answered([line])];
    assert Without(served.ticks, 0) == [Answered([line])];
    assert Next(served, Delivered(0)).received == [line];
  }

  /** An answer that comes after a later one moves the cursor back. */
  lemma LateAnswerMovesCursorBack(source: Source, level: Level, message: string)
    ensures var append := Appended(source, level, message);
            var first := Next(Next(Next(START, append), Ticked), Served(0));
            var second := Next(Next(Next(first, append), Ticked), Served(1));
            Next(second, Delivered(1)).cursor == 2 && Next(Next(second, Delivered(1)), Delivered(0)).cursor == 1
  {
    hide Unseen, Newest;
    var append := Appended(source, level, message);
    var one, two := LogEntry(1, source, level, message), LogEntry(2, source, level, message);
    AllUnseen([one]);
    AllUnseen([one, two]);
    var asked := Next(Next(START, append), Ticked);
    assert asked.history == [one] && asked.ticks == [Waiting(0)];
    var first := Next(asked, Served(0));
    assert first.ticks == [Answered([one])];
    var again := Next(Next(first, append), Ticked);
    assert again.history == [one, two] && again.ticks == [Answered([one]), Waiting(0)];
    var second := Next(again, Served(1));
    assert second.ticks == [Answered([one]), Answered([one, two])];
    assert Without(second.ticks, 1) == [Answered([one])];
  }

  lemma AllUnseen(history: seq<LogEntry>)
    requires |history| <= MAX_LINES
    ensures Unseen(history, 0, 0) == history
  {
  }

  // ---------- One tick at a time ----------

  /** No tick starts while another is unanswered. */
  ghost predicate OneAtATime(events: seq<Event>) {
    |events| > 0 ==>
      var n := |events| - 1;
      OneAtATime(events[..n]) && (events[n].Ticked? ==> Run(events[..n]).ticks == [])
  }

  /** The one tick in flight knows the present cursor. */
  ghost predicate TickIsCurrent(s: Session) {
    && |s.ticks| <= 1
    && forall i | 0 <= i < |s.ticks| ::
         match s.ticks[i]
         case Waiting(after) => after == s.cursor
         case Answered(found) => found != [] ==> found[0].seqNo > s.cursor
  }

  lemma NextKeepsCurrent(s: Session, ev: Event)
    requires Coherent(s) && TickIsCurrent(s) && (ev.Ticked? ==> s.ticks == [])
    ensures TickIsCurrent(Next(s, ev)) && IsFresh(s, ev)
  {
    if ev.Served? && ev.i < |s.ticks| && s.ticks[ev.i].Waiting? {
      UnseenIsStretch(s.history, s.cleared, s.ticks[ev.i].after);
    }
  }

  lemma {:induction false} TicksStayCurrent(events: seq<Event>)
    requires OneAtATime(events)
    ensures TickIsCurrent(Run(events)) && AllFresh(events)
  {
    if |events| > 0 {
      var n := |events| - 1;
      TicksStayCurrent(events[..n]);
      RunIsCoherent(events[..n]);
      NextKeepsCurrent(Run(events[..n]), events[n]);
    }
  }

  /** Over every run in which no tick starts while another is unanswered, polling never repeats or reorders a line. */
  lemma PollingNeverDuplicates(events: seq<Event>)
    requires OneAtATime(events)
    ensures AlwaysInOrder(events)
  {
    TicksStayCurrent(events);
    InOrderIffFresh(events);
  }

  // ---------- Nothing missed ----------

  /** An answer brings every line since the cursor exactly when none of them has been dropped. */
  lemma PollIsCompleteIff(history: seq<LogEntry>, cleared: nat, after: nat)
    requires cleared <= |history| && after <= |history|
    ensures Unseen(history, cleared, after) == history[after..] <==> InTime(history, cleared, after)
  {
    if Unseen(history, cleared, after) == history[after..] {
      assert |Unseen(history, cleared, after)| == |history| - after;
    }
  }

  /** No line beyond the cursor has been dropped: at most 2000 are new, and no clear came between. */
  predicate InTime(history: seq<LogEntry>, cleared: nat, after: nat)
    requires cleared <= |history|
  {
    Dropped(|history|, cleared) <= after
  }

  predicate ServedInTime(s: Session, ev: Event)
    requires s.cleared <= |s.history|
  {
    ev.Served? && ev.i < |s.ticks| && s.ticks[ev.i].Waiting? ==> InTime(s.history, s.cleared, s.ticks[ev.i].after)
  }

  ghost predicate AllServedInTime(events: seq<Event>) {
    |events| > 0 ==>
      var n := |events| - 1;
      AllServedInTime(events[..n]) && ServedInTime(Run(events[..n]), events[n])
  }

  /** The panel was given the whole history up to its cursor, and an answer in flight continues it. */
  ghost predicate HoldsAll(s: Session) {
    && s.cursor <= |s.history| && s.received == s.history[..s.cursor]
    && forall i | 0 <= i < |s.ticks| && s.ticks[i].Answered? :: Continues(s.ticks[i].found, s.history, s.cursor)
  }

  ghost predicate Continues(found: seq<LogEntry>, history: seq<LogEntry>, cursor: nat) {
    cursor + |found| <= |history| && found == history[cursor..cursor + |found|]
  }

  lemma DeliverKeepsAll(s: Session, i: nat)
    requires Coherent(s) && TickIsCurrent(s) && HoldsAll(s) && IsServed(s, i)
    ensures HoldsAll(Deliver(s, i))
  {
    var found := s.ticks[i].found;
    assert Continues(found, s.history, s.cursor);
    if found != [] {
      var last := s.cursor + |found|;
      assert found[|found| - 1] == s.history[last - 1];
      assert s.history[..s.cursor] + s.history[s.cursor..last] == s.history[..last];
    }
  }

  lemma NextKeepsAll(s: Session, ev: Event)
    requires Coherent(s) && TickIsCurrent(s) && HoldsAll(s) && ServedInTime(s, ev)
    ensures HoldsAll(Next(s, ev))
  {
    match ev
    case Appended(source, level, message) =>
      var t := Next(s, ev);
      var more := [LogEntry(|s.history| + 1, source, level, message)];
      forall i | 0 <= i < |s.ticks| && s.ticks[i].Answered? ensures Continues(s.ticks[i].found, t.history, t.cursor) {
        var found := s.ticks[i].found;
        assert Continues(found, s.history, s.cursor);
        SliceOfFirst(s.history, more, s.cursor, s.cursor + |found|);
      }
      SliceOfFirst(s.history, more, 0, s.cursor);
    case Served(i) =>
      if i < |s.ticks| && s.ticks[i].Waiting? {
        PollIsCompleteIff(s.history, s.cleared, s.ticks[i].after);
      }
    case Delivered(i) =>
      if IsServed(s, i) {
        DeliverKeepsAll(s, i);
      }
    case _ =>
  }

  /** One tick at a time, each served in time: the panel was given the whole history up to its cursor. */
  lemma {:induction false} TimelyPollingMissesNothing(events: seq<Event>)
    requires OneAtATime(events) && AllServedInTime(events)
    ensures HoldsAll(Run(events))
  {
    hide HoldsAll, TickIsCurrent, Coherent, Next;
    if |events| > 0 {
      var n := |events| - 1;
      TimelyPollingMissesNothing(events[..n]);
      TicksStayCurrent(events[..n]);
      RunIsCoherent(events[..n]);
      NextKeepsAll(Run(events[..n]), events[n]);
    } else {
      NothingIsAll();
    }
  }

  lemma NothingIsAll()
    ensures HoldsAll(START)
  {
  }
}
