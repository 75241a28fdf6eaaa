/** What becomes of every event handed to one shard's writer, over whole runs of flushes and seals. */
module WriterRuns {
  import opened Format

  /** How a seal ended: committed, failed before the rename, or failed between the rename and the commit. */
  datatype Outcome = Committed | FailedEarly | FailedLate

  /**
   * The ring, the memtable, the WAL rows of the shard, the live blocks by hour, and the hour the open block
   * is named after; pushed records every event accepted so far.
   */
  datatype Writer = Writer(ring: seq<Event>, mem: seq<Event>, wal: seq<Event>, blocks: map<int, seq<Event>>,
                           openHour: int, pushed: seq<Event>)

  /** A flush says of each event in the ring whether its append entered the WAL; a failed one may have. */
  datatype Step =
    | Push(e: Event)
    | Flush(entered: seq<bool>)
    | FlushAndSeal(entered: seq<bool>, hour: int, outcome: Outcome)

  predicate Enabled(w: Writer, step: Step) {
    && (!step.Push? ==> |step.entered| == |w.ring|)
    && (step.FlushAndSeal? ==> w.mem + w.ring != [])
  }

  /** The events whose flag is set, in order. */
  function Chosen(events: seq<Event>, flags: seq<bool>): (r: seq<Event>)
    requires |flags| == |events|
    ensures |r| <= |events|
  {
    if events == [] then []
    else
      var n := |events| - 1;
      Chosen(events[..n], flags[..n]) + if flags[n] then [events[n]] else []
  }

  predicate AllSet(flags: seq<bool>) {
    forall i :: 0 <= i < |flags| ==> flags[i]
  }

  lemma {:induction false} ChosenAll(events: seq<Event>, flags: seq<bool>)
    requires |flags| == |events| && AllSet(flags)
    ensures Chosen(events, flags) == events
  {
    if events != [] {
      var n := |events| - 1;
      ChosenAll(events[..n], flags[..n]);
      assert events == events[..n] + [events[n]];
    }
  }

  lemma {:induction false} ChosenAppend(a: seq<Event>, b: seq<Event>, f: seq<bool>, g: seq<bool>)
    requires |f| == |a| && |g| == |b|
    ensures Chosen(a + b, f + g) == Chosen(a, f) + Chosen(b, g)
  {
    if b == [] {
      assert a + b == a && f + g == f;
    } else {
      var n := |b| - 1;
      ChosenAppend(a, b[..n], f, g[..n]);
      assert (a + b)[..|a| + n] == a + b[..n] && (f + g)[..|a| + n] == f + g[..n];
    }
  }

  /** The blocks after a seal: a committed one and any renamed file replace the block of the same hour. */
  function BlocksAfter(blocks: map<int, seq<Event>>, hour: int, rows: seq<Event>,
                       outcome: Outcome): map<int, seq<Event>> {
    match outcome
    case Committed => blocks[hour := rows]
    case FailedEarly => blocks
    case FailedLate => if hour in blocks then blocks[hour := rows] else blocks
  }

  /**
   * A flush moves the ring to WAL and memtable; a seal, whatever its outcome, starts a new memtable. A commit
   * empties the WAL, as it does for every shard but the last (see Keys.WALRangeExact).
   */
  function Next(w: Writer, step: Step): Writer
    requires Enabled(w, step)
  {
    match step
    case Push(e) => w.(ring := w.ring + [e], pushed := w.pushed + [e])
    case Flush(entered) => w.(ring := [], mem := w.mem + w.ring, wal := w.wal + Chosen(w.ring, entered))
    case FlushAndSeal(entered, hour, outcome) =>
      w.(ring := [], mem := [], wal := if outcome.Committed? then [] else w.wal + Chosen(w.ring, entered),
         blocks := BlocksAfter(w.blocks, w.openHour, w.mem + w.ring, outcome), openHour := hour)
  }

  /** A writer starts with an empty ring and memtable, on whatever blocks and WAL rows its shard already has. */
  ghost predicate IsRun(states: seq<Writer>, steps: seq<Step>) {
    && |states| == |steps| + 1
    && states[0].ring == [] && states[0].mem == [] && states[0].pushed == [] && BlocksFilled(states[0])
    && (forall i :: 0 <= i < |steps| ==> Enabled(states[i], steps[i]) && states[i + 1] == Next(states[i], steps[i]))
  }

  // ----- sums over blocks -----

  ghost function RowsOf(blocks: map<int, seq<Event>>, hours: set<int>): multiset<Event>
    requires hours <= blocks.Keys
  {
    if exists k :: k in hours then
      var k :| k in hours;
      RowsOf(blocks, hours - {k}) + multiset(blocks[k])
    else multiset{}
  }

  ghost function Rows(blocks: map<int, seq<Event>>): multiset<Event> {
    RowsOf(blocks, blocks.Keys)
  }

  lemma {:induction false} RowsWithout(blocks: map<int, seq<Event>>, hours: set<int>, k: int)
    requires hours <= blocks.Keys && k in hours
    ensures RowsOf(blocks, hours) == RowsOf(blocks, hours - {k}) + multiset(blocks[k])
    decreases hours
  {
    var j :| j in hours && RowsOf(blocks, hours) == RowsOf(blocks, hours - {j}) + multiset(blocks[j]);
    if j != k {
      RowsWithout(blocks, hours - {j}, k);
      RowsWithout(blocks, hours - {k}, j);
      assert hours - {j} - {k} == hours - {k} - {j};
    }
  }

  lemma {:induction false} RowsFrame(blocks: map<int, seq<Event>>, blocks': map<int, seq<Event>>, hours: set<int>)
    requires hours <= blocks.Keys && hours <= blocks'.Keys && forall h :: h in hours ==> blocks[h] == blocks'[h]
    ensures RowsOf(blocks, hours) == RowsOf(blocks', hours)
    decreases hours
  {
    if k :| k in hours {
      RowsWithout(blocks, hours, k);
      RowsWithout(blocks', hours, k);
      RowsFrame(blocks, blocks', hours - {k});
    }
  }

  lemma RowsUpdate(blocks: map<int, seq<Event>>, k: int, rows: seq<Event>)
    ensures Rows(blocks[k := rows]) == RowsOf(blocks, blocks.Keys - {k}) + multiset(rows)
    ensures Rows(blocks) ==
        RowsOf(blocks, blocks.Keys - {k}) + (if k in blocks then multiset(blocks[k]) else multiset{})
  {
    var blocks' := blocks[k := rows];
    RowsWithout(blocks', blocks'.Keys, k);
    assert blocks'.Keys - {k} == blocks.Keys - {k};
    RowsFrame(blocks', blocks, blocks.Keys - {k});
    if k in blocks { RowsWithout(blocks, blocks.Keys, k); } else { assert blocks.Keys - {k} == blocks.Keys; }
  }

  // ----- conservation -----

  ghost function Held(w: Writer): multiset<Event> {
    multiset(w.ring) + multiset(w.mem) + Rows(w.blocks)
  }

  /** Every row of the blocks at the start and every pushed event is in ring, memtable or live blocks, as often. */
  ghost predicate Conserved(start: Writer, w: Writer) {
    Rows(start.blocks) + multiset(w.pushed) == Held(w)
  }

  /** The step seals into an hour that has no block yet, and the seal commits; or it does not seal. */
  predicate Safe(w: Writer, step: Step) {
    step.FlushAndSeal? ==> step.outcome.Committed? && w.openHour !in w.blocks
  }

  predicate BlocksFilled(w: Writer) {
    forall h :: h in w.blocks ==> w.blocks[h] != []
  }

  lemma SealHeld(w: Writer, step: Step)
    requires BlocksFilled(w) && Enabled(w, step) && step.FlushAndSeal?
    ensures var w' := Next(w, step);
      && BlocksFilled(w')
      && (Safe(w, step) ==> Held(w') == Held(w))
      && (!Safe(w, step) ==> Held(w') <= Held(w) && |Held(w')| < |Held(w)|)
  {
    hide RowsOf, Chosen;
    var rows := w.mem + w.ring;
    RowsUpdate(w.blocks, w.openHour, rows);
    assert multiset(rows) == multiset(w.mem) + multiset(w.ring);
    assert |multiset(rows)| == |rows| > 0;
    if w.openHour in w.blocks { assert |multiset(w.blocks[w.openHour])| == |w.blocks[w.openHour]| > 0; }
  }

  lemma StepHeld(w: Writer, step: Step)
    requires BlocksFilled(w) && Enabled(w, step)
    ensures var w' := Next(w, step);
      && BlocksFilled(w')
      && (Safe(w, step) ==> forall start :: Conserved(start, w) ==> Conserved(start, w'))
      && (|w'.pushed| - |Held(w')| >= |w.pushed| - |Held(w)|)
      && (!Safe(w, step) ==> |w'.pushed| - |Held(w')| > |w.pushed| - |Held(w)|)
  {
    hide RowsOf, Chosen;
    match step
    case Push(e) =>
      var w' := Next(w, step);
      assert multiset(w'.ring) == multiset(w.ring) + multiset{e};
      assert multiset(w'.pushed) == multiset(w.pushed) + multiset{e};
      assert Held(w') == Held(w) + multiset{e};
      forall start | Conserved(start, w) ensures Conserved(start, w') {
        assert Rows(start.blocks) + multiset(w'.pushed) == Held(w) + multiset{e};
      }
    case Flush(_) => assert multiset(w.mem + w.ring) == multiset(w.mem) + multiset(w.ring);
    case FlushAndSeal(_, _, _) => SealHeld(w, step);
  }

  ghost predicate AllSafe(states: seq<Writer>, steps: seq<Step>, n: nat)
    requires n <= |steps| < |states|
  {
    forall i :: 0 <= i < n ==> Safe(states[i], steps[i])
  }

  lemma {:induction false} RunHeld(states: seq<Writer>, steps: seq<Step>, n: nat)
    requires IsRun(states, steps) && n <= |steps|
    ensures BlocksFilled(states[n])
    ensures AllSafe(states, steps, n) ==> Conserved(states[0], states[n])
    ensures |Rows(states[0].blocks)| + |states[n].pushed| >= |Held(states[n])|
    ensures !AllSafe(states, steps, n) ==> |Rows(states[0].blocks)| + |states[n].pushed| > |Held(states[n])|
  {
    hide Next, Enabled, RowsOf;
    if n > 0 {
      RunHeld(states, steps, n - 1);
      StepHeld(states[n - 1], steps[n - 1]);
    }
  }

  /**
   * Write conservation, exactly: over every run, on whatever blocks it starts, all their rows and all pushed
   * events are in ring, memtable or live blocks if and only if every seal so far committed and went into an hour
   * that had no block. A second seal of the same hour, also after a restart, or a failed seal, loses rows, and no
   * later step brings them back.
   */
  lemma ConservedIffSealsFresh(states: seq<Writer>, steps: seq<Step>, n: nat)
    requires IsRun(states, steps) && n <= |steps|
    ensures Conserved(states[0], states[n]) <==> AllSafe(states, steps, n)
  {
    hide Next, Enabled, RowsOf;
    RunHeld(states, steps, n);
    assert |multiset(states[n].pushed)| == |states[n].pushed|;
  }

  // ----- the WAL against the memtable -----

  predicate AnySeal(steps: seq<Step>, n: nat)
    requires n <= |steps|
  {
    exists i :: 0 <= i < n && steps[i].FlushAndSeal?
  }

  ghost predicate LastSeal(steps: seq<Step>, n: nat, i: nat)
    requires i < n <= |steps|
  {
    steps[i].FlushAndSeal? && forall j :: i < j < n ==> !steps[j].FlushAndSeal?
  }

  /** The last seal, if there was one, committed. */
  ghost predicate LastSealCommitted(steps: seq<Step>, n: nat)
    requires n <= |steps|
  {
    forall i :: 0 <= i < n && LastSeal(steps, n, i) ==> steps[i].outcome.Committed?
  }

  /** The last seal committed, or there was none and the WAL was empty at the start. */
  ghost predicate Settled(states: seq<Writer>, steps: seq<Step>, n: nat)
    requires n <= |steps| < |states|
  {
    LastSealCommitted(steps, n) && (states[0].wal == [] || AnySeal(steps, n))
  }

  /** Every append so far entered the WAL. */
  ghost predicate AllEntered(steps: seq<Step>, n: nat)
    requires n <= |steps|
  {
    forall i :: 0 <= i < n && !steps[i].Push? ==> AllSet(steps[i].entered)
  }

  /** Of each memtable row, whether its append entered: the flags of the flushes since the last seal, in order. */
  function MemFlags(steps: seq<Step>, n: nat): seq<bool>
    requires n <= |steps|
  {
    if n == 0 then []
    else
      match steps[n - 1]
      case Push(_) => MemFlags(steps, n - 1)
      case Flush(entered) => MemFlags(steps, n - 1) + entered
      case FlushAndSeal(_, _, _) => []
  }

  /** What the WAL held when the memtable was begun: at the start, or after the last seal. */
  function Older(states: seq<Writer>, steps: seq<Step>, n: nat): seq<Event>
    requires n <= |steps| < |states|
  {
    if n == 0 || steps[n - 1].FlushAndSeal? then states[n].wal else Older(states, steps, n - 1)
  }

  /** In every run the WAL is what it held when the memtable was begun, then the memtable's rows that entered. */
  lemma {:induction false} WalEndsInMemtable(states: seq<Writer>, steps: seq<Step>, n: nat)
    requires IsRun(states, steps) && n <= |steps|
    ensures |MemFlags(steps, n)| == |states[n].mem|
    ensures states[n].wal == Older(states, steps, n) + Chosen(states[n].mem, MemFlags(steps, n))
  {
    hide RowsOf;
    if n > 0 {
      WalEndsInMemtable(states, steps, n - 1);
      if steps[n - 1].Flush? {
        var w, flags := states[n - 1], MemFlags(steps, n - 1);
        ChosenAppend(w.mem, w.ring, flags, steps[n - 1].entered);
        assert states[n].wal == Older(states, steps, n - 1) +
            (Chosen(w.mem, flags) + Chosen(w.ring, steps[n - 1].entered));
      }
    }
  }

  /** The memtable's rows are missing from the WAL exactly where an append did not enter. */
  lemma MissingFromWal(states: seq<Writer>, steps: seq<Step>, n: nat)
    requires IsRun(states, steps) && n <= |steps|
    ensures states[n].wal == Older(states, steps, n) + states[n].mem <==> AllSet(MemFlags(steps, n))
  {
    hide RowsOf, Next, Enabled;
    WalEndsInMemtable(states, steps, n);
    var mem, flags := states[n].mem, MemFlags(steps, n);
    if AllSet(flags) { ChosenAll(mem, flags); } else { ChosenLess(mem, flags); }
  }

  lemma {:induction false} FlagsAllSet(steps: seq<Step>, n: nat)
    requires n <= |steps| && AllEntered(steps, n)
    ensures AllSet(MemFlags(steps, n))
  {
    if n > 0 { FlagsAllSet(steps, n - 1); }
  }

  /** Nothing older is left once the last seal committed; with every append entered, also only then. */
  lemma {:induction false} OlderSettled(states: seq<Writer>, steps: seq<Step>, n: nat)
    requires IsRun(states, steps) && n <= |steps|
    ensures Settled(states, steps, n) ==> Older(states, steps, n) == []
    ensures AllEntered(steps, n) && Older(states, steps, n) == [] ==> Settled(states, steps, n)
  {
    hide RowsOf, Settled, Chosen;
    if n == 0 {
      NoSteps(states, steps);
    } else if steps[n - 1].FlushAndSeal? {
      SealSettles(states, steps, n);
      if AllEntered(steps, n) {
        FlagsAllSet(steps, n - 1);
        MissingFromWal(states, steps, n - 1);
        ChosenAll(states[n - 1].ring, steps[n - 1].entered);
        assert |states[n - 1].mem + states[n - 1].ring| > 0;
      }
    } else {
      OlderSettled(states, steps, n - 1);
      SameSeals(states, steps, n);
    }
  }

  lemma NoSteps(states: seq<Writer>, steps: seq<Step>)
    requires |steps| < |states|
    ensures Settled(states, steps, 0) <==> states[0].wal == []
  {}

  lemma SealSettles(states: seq<Writer>, steps: seq<Step>, n: nat)
    requires 0 < n <= |steps| < |states| && steps[n - 1].FlushAndSeal?
    ensures Settled(states, steps, n) <==> steps[n - 1].outcome.Committed?
  {
    assert LastSealCommitted(steps, n) <==> steps[n - 1].outcome.Committed?;
    assert AnySeal(steps, n);
  }

  lemma SameSeals(states: seq<Writer>, steps: seq<Step>, n: nat)
    requires 0 < n <= |steps| < |states| && !steps[n - 1].FlushAndSeal?
    ensures Settled(states, steps, n) <==> Settled(states, steps, n - 1)
  {
    assert AnySeal(steps, n) <==> AnySeal(steps, n - 1);
    if LastSealCommitted(steps, n) {
      forall i: nat | i < n - 1 && LastSeal(steps, n - 1, i) ensures steps[i].outcome.Committed? {
        assert LastSeal(steps, n, i);
      }
    }
    if LastSealCommitted(steps, n - 1) {
      forall i: nat | i < n && LastSeal(steps, n, i) ensures steps[i].outcome.Committed? {
        assert LastSeal(steps, n - 1, i);
      }
    }
  }

  /**
   * If no append failed, the memtable rows are at every point a suffix of the shard's WAL rows, and all of them
   * exactly when the last seal committed, or, without a seal so far, the WAL started empty.
   */
  lemma MemtableIsWalSuffix(states: seq<Writer>, steps: seq<Step>, n: nat)
    requires IsRun(states, steps) && n <= |steps| && AllEntered(steps, n)
    ensures |states[n].mem| <= |states[n].wal| && states[n].wal[|states[n].wal| - |states[n].mem|..] == states[n].mem
    ensures states[n].wal == states[n].mem <==> Settled(states, steps, n)
  {
    hide Next, Enabled, RowsOf, Settled;
    FlagsAllSet(steps, n);
    MissingFromWal(states, steps, n);
    OlderSettled(states, steps, n);
  }

  // ----- accounting -----

  /** How many appends did not enter. */
  function Missing(flags: seq<bool>): nat {
    if flags == [] then 0 else Missing(flags[..|flags| - 1]) + if flags[|flags| - 1] then 0 else 1
  }

  lemma {:induction false} MissingNone(flags: seq<bool>)
    ensures Missing(flags) == 0 <==> AllSet(flags)
  {
    if flags != [] { MissingNone(flags[..|flags| - 1]); }
  }

  /** The rows of the block a seal into this hour would replace. */
  function Replaced(w: Writer): seq<Event> {
    if w.openHour in w.blocks then w.blocks[w.openHour] else []
  }

  /**
   * The rows a seal drops. A commit drops the WAL rows older than the memtable and the block it replaces; a
   * failed one drops the rows that are in no WAL, or, if its file took the place of a live block's, that block.
   */
  ghost function Dropped(w: Writer, outcome: Outcome, older: seq<Event>, kept: seq<Event>): multiset<Event> {
    match outcome
    case Committed => multiset(older) + multiset(Replaced(w))
    case FailedEarly => multiset(w.mem) + multiset(w.ring) - multiset(kept)
    case FailedLate =>
      if w.openHour in w.blocks then multiset(Replaced(w)) else multiset(w.mem) + multiset(w.ring) - multiset(kept)
  }

  /** The rows a seal leaves both in the WAL and in a block. */
  ghost function Doubled(w: Writer, outcome: Outcome, kept: seq<Event>): multiset<Event> {
    if outcome.FailedLate? && w.openHour in w.blocks then multiset(kept) else multiset{}
  }

  /** Of the rows a seal is given, those whose append entered the WAL. */
  ghost function Kept(states: seq<Writer>, steps: seq<Step>, i: nat): seq<Event>
    requires IsRun(states, steps) && i < |steps| && steps[i].FlushAndSeal?
  {
    WalEndsInMemtable(states, steps, i);
    Chosen(states[i].mem + states[i].ring, MemFlags(steps, i) + steps[i].entered)
  }

  ghost function DroppedAt(states: seq<Writer>, steps: seq<Step>, i: nat): multiset<Event>
    requires IsRun(states, steps) && i < |steps|
  {
    if steps[i].FlushAndSeal? then
      Dropped(states[i], steps[i].outcome, Older(states, steps, i), Kept(states, steps, i))
    else multiset{}
  }

  ghost function DoubledAt(states: seq<Writer>, steps: seq<Step>, i: nat): multiset<Event>
    requires IsRun(states, steps) && i < |steps|
  {
    if steps[i].FlushAndSeal? then Doubled(states[i], steps[i].outcome, Kept(states, steps, i)) else multiset{}
  }

  ghost function AllDropped(states: seq<Writer>, steps: seq<Step>, n: nat): multiset<Event>
    requires IsRun(states, steps) && n <= |steps|
  {
    if n == 0 then multiset{} else AllDropped(states, steps, n - 1) + DroppedAt(states, steps, n - 1)
  }

  ghost function AllDoubled(states: seq<Writer>, steps: seq<Step>, n: nat): multiset<Event>
    requires IsRun(states, steps) && n <= |steps|
  {
    if n == 0 then multiset{} else AllDoubled(states, steps, n - 1) + DoubledAt(states, steps, n - 1)
  }

  /** Where rows can be: ring, memtable, WAL rows older than the memtable, live blocks. */
  ghost function Places(w: Writer, older: seq<Event>): multiset<Event> {
    multiset(w.ring) + multiset(w.mem) + multiset(older) + Rows(w.blocks)
  }

  ghost function Somewhere(states: seq<Writer>, steps: seq<Step>, n: nat): multiset<Event>
    requires n <= |steps| < |states|
  {
    Places(states[n], Older(states, steps, n))
  }

  /** The rows the writer found and those handed to it since. */
  ghost function Given(start: Writer, w: Writer): multiset<Event> {
    multiset(start.wal) + Rows(start.blocks) + multiset(w.pushed)
  }

  lemma {:induction false} ChosenWithin(events: seq<Event>, flags: seq<bool>)
    requires |flags| == |events|
    ensures multiset(Chosen(events, flags)) <= multiset(events)
  {
    if events != [] {
      var n := |events| - 1;
      ChosenWithin(events[..n], flags[..n]);
      assert events == events[..n] + [events[n]];
    }
  }

  /** One seal. */
  lemma SealAccount(w: Writer, step: Step, older: seq<Event>, flags: seq<bool>)
    requires Enabled(w, step) && step.FlushAndSeal?
    requires |flags| == |w.mem| && w.wal == older + Chosen(w.mem, flags)
    ensures var w', kept := Next(w, step), Chosen(w.mem + w.ring, flags + step.entered);
      Places(w', w'.wal) + Dropped(w, step.outcome, older, kept) == Places(w, older) + Doubled(w, step.outcome, kept)
  {
    hide RowsOf, Chosen;
    var rows := w.mem + w.ring;
    var kept := Chosen(rows, flags + step.entered);
    ChosenAppend(w.mem, w.ring, flags, step.entered);
    ChosenWithin(rows, flags + step.entered);
    RowsUpdate(w.blocks, w.openHour, rows);
    assert w.wal + Chosen(w.ring, step.entered) == older + kept;
    assert multiset(rows) == multiset(w.mem) + multiset(w.ring);
  }

  /**
   * Accounting, without exception: in every run, what is somewhere and what the seals dropped is what the writer
   * found, what was pushed, and what the seals left in two places.
   */
  lemma {:induction false} EveryRowAccounted(states: seq<Writer>, steps: seq<Step>, n: nat)
    requires IsRun(states, steps) && n <= |steps|
    ensures Somewhere(states, steps, n) + AllDropped(states, steps, n) ==
        Given(states[0], states[n]) + AllDoubled(states, steps, n)
  {
    hide RowsOf, Next, Somewhere, Given, DroppedAt, DoubledAt;
    if n == 0 {
      NothingYet(states, steps);
    } else {
      EveryRowAccounted(states, steps, n - 1);
      var added := StepAccounted(states, steps, n);
      SumStep(Somewhere(states, steps, n - 1), AllDropped(states, steps, n - 1), Given(states[0], states[n - 1]),
        AllDoubled(states, steps, n - 1), Somewhere(states, steps, n), DroppedAt(states, steps, n - 1),
        Given(states[0], states[n]), DoubledAt(states, steps, n - 1), added);
    }
  }

  lemma NothingYet(states: seq<Writer>, steps: seq<Step>)
    requires IsRun(states, steps)
    ensures Somewhere(states, steps, 0) == Given(states[0], states[0])
  {
    hide RowsOf;
  }

  lemma SumStep(rest: multiset<Event>, gone: multiset<Event>, given: multiset<Event>, twice: multiset<Event>,
                rest': multiset<Event>, out: multiset<Event>, given': multiset<Event>, copied: multiset<Event>,
                added: multiset<Event>)
    requires rest + gone == given + twice && rest' + out == rest + added + copied && given' == given + added
    ensures rest' + (gone + out) == given' + (twice + copied)
  {
    calc {
      rest' + (gone + out);
      (rest' + out) + gone;
      (rest + gone) + (added + copied);
      given' + (twice + copied);
    }
  }

  /** One step: added holds the event if it pushes one. */
  lemma StepAccounted(states: seq<Writer>, steps: seq<Step>, n: nat) returns (added: multiset<Event>)
    requires IsRun(states, steps) && 0 < n <= |steps|
    ensures Given(states[0], states[n]) == Given(states[0], states[n - 1]) + added
    ensures Somewhere(states, steps, n) + DroppedAt(states, steps, n - 1) ==
        Somewhere(states, steps, n - 1) + added + DoubledAt(states, steps, n - 1)
  {
    hide RowsOf, Chosen, Dropped, Doubled, Places, Given;
    var w, step := states[n - 1], steps[n - 1];
    if step.FlushAndSeal? {
      added := multiset{};
      WalEndsInMemtable(states, steps, n - 1);
      SealAccount(w, step, Older(states, steps, n - 1), MemFlags(steps, n - 1));
      assert Given(states[0], states[n]) == Given(states[0], w) by { SamePushed(states[0], w, states[n]); }
    } else {
      added := FlushAccount(states[0], w, step, Older(states, steps, n - 1));
    }
  }

  lemma SamePushed(start: Writer, w: Writer, w': Writer)
    requires w.pushed == w'.pushed
    ensures Given(start, w) == Given(start, w')
  {}

  lemma FlushAccount(start: Writer, w: Writer, step: Step, older: seq<Event>) returns (added: multiset<Event>)
    requires Enabled(w, step) && !step.FlushAndSeal?
    ensures Given(start, Next(w, step)) == Given(start, w) + added
    ensures Places(Next(w, step), older) == Places(w, older) + added
  {
    hide RowsOf, Chosen;
    match step
    case Push(e) =>
      added := multiset{e};
      assert multiset(w.ring + [e]) == multiset(w.ring) + multiset{e};
      assert multiset(w.pushed + [e]) == multiset(w.pushed) + multiset{e};
    case Flush(_) =>
      added := multiset{};
      assert multiset(w.mem + w.ring) == multiset(w.mem) + multiset(w.ring);
  }

  /** Every seal so far went into an hour without a block. */
  ghost predicate FreshHours(states: seq<Writer>, steps: seq<Step>, n: nat)
    requires n <= |steps| < |states|
  {
    forall i :: 0 <= i < n && steps[i].FlushAndSeal? ==> states[i].openHour !in states[i].blocks
  }

  /** The seal found nothing older than its memtable and committed, or failed with all its rows in the WAL. */
  predicate DropsNothing(states: seq<Writer>, steps: seq<Step>, i: nat)
    requires i < |steps| < |states|
  {
    steps[i].FlushAndSeal? ==>
      if steps[i].outcome.Committed? then Older(states, steps, i) == []
      else AllSet(MemFlags(steps, i)) && AllSet(steps[i].entered)
  }

  lemma SealDropsNothing(states: seq<Writer>, steps: seq<Step>, i: nat)
    requires IsRun(states, steps) && i < |steps|
    requires steps[i].FlushAndSeal? ==> states[i].openHour !in states[i].blocks
    ensures DroppedAt(states, steps, i) == multiset{} <==> DropsNothing(states, steps, i)
    ensures DoubledAt(states, steps, i) == multiset{}
  {
    hide RowsOf, Chosen, Next;
    if steps[i].FlushAndSeal? {
      WalEndsInMemtable(states, steps, i);
      var w, step := states[i], steps[i];
      var rows, flags := w.mem + w.ring, MemFlags(steps, i) + step.entered;
      assert multiset(rows) == multiset(w.mem) + multiset(w.ring);
      assert AllSet(flags) <==> AllSet(MemFlags(steps, i)) && AllSet(step.entered) by {
        if AllSet(flags) { assert flags[..|w.mem|] == MemFlags(steps, i) && flags[|w.mem|..] == step.entered; }
      }
      ChosenWithin(rows, flags);
      if AllSet(flags) { ChosenAll(rows, flags); } else { ChosenLess(rows, flags); }
      assert |multiset(rows)| == |rows| && |multiset(Chosen(rows, flags))| == |Chosen(rows, flags)|;
      assert |multiset(Older(states, steps, i))| == |Older(states, steps, i)|;
    }
  }

  lemma {:induction false} NothingDropped(states: seq<Writer>, steps: seq<Step>, n: nat)
    requires IsRun(states, steps) && n <= |steps| && FreshHours(states, steps, n)
    ensures AllDoubled(states, steps, n) == multiset{}
    ensures AllDropped(states, steps, n) == multiset{} <==>
        forall i :: 0 <= i < n ==> DropsNothing(states, steps, i)
  {
    hide RowsOf, DroppedAt, DoubledAt, Next, Enabled, DropsNothing;
    if n > 0 {
      NothingDropped(states, steps, n - 1);
      SealDropsNothing(states, steps, n - 1);
    }
  }

  lemma SumLeft(rest: multiset<Event>, gone: multiset<Event>, whole: multiset<Event>)
    requires rest + gone == whole
    ensures rest <= whole && (rest == whole <==> gone == multiset{})
  {
    assert |whole| == |rest| + |gone|;
  }

  /**
   * With every seal into an hour without a block, every row is still somewhere exactly when each committed seal
   * found nothing in the WAL but its memtable, and each failed one had all its rows in the WAL.
   */
  lemma AllSomewhere(states: seq<Writer>, steps: seq<Step>, n: nat)
    requires IsRun(states, steps) && n <= |steps| && FreshHours(states, steps, n)
    ensures Somewhere(states, steps, n) == Given(states[0], states[n]) <==>
        forall i :: 0 <= i < n ==> DropsNothing(states, steps, i)
    ensures Somewhere(states, steps, n) <= Given(states[0], states[n])
  {
    hide RowsOf, Chosen, DropsNothing, Next, Older, AllDropped, AllDoubled, Somewhere, Given, FreshHours;
    EveryRowAccounted(states, steps, n);
    NothingDropped(states, steps, n);
    SumLeft(Somewhere(states, steps, n), AllDropped(states, steps, n), Given(states[0], states[n]));
  }

  /** What a power failure at this point leaves, and what waits in the ring. */
  ghost function Durable(w: Writer): multiset<Event> {
    multiset(w.ring) + multiset(w.wal) + Rows(w.blocks)
  }

  /** Each committed seal found the WAL holding its memtable and nothing else. */
  ghost predicate ExactCommits(states: seq<Writer>, steps: seq<Step>, n: nat)
    requires n <= |steps| < |states|
  {
    forall i :: 0 <= i < n && steps[i].FlushAndSeal? && steps[i].outcome.Committed? ==> states[i].wal == states[i].mem
  }

  /**
   * Durable conservation, exactly: with every append entered and every seal into an hour without a block, WAL,
   * blocks and ring hold all the rows the writer found and all pushed ones if and only if each committed seal
   * found the WAL equal to its memtable; otherwise they hold strictly less. A seal that failed, and a WAL left by
   * an earlier writer, make the next committed seal drop rows that are in no block.
   */
  lemma DurableIffCommitsExact(states: seq<Writer>, steps: seq<Step>, n: nat)
    requires IsRun(states, steps) && n <= |steps| && AllEntered(steps, n) && FreshHours(states, steps, n)
    ensures Durable(states[n]) == Given(states[0], states[n]) <==> ExactCommits(states, steps, n)
    ensures !ExactCommits(states, steps, n) ==> Durable(states[n]) < Given(states[0], states[n])
  {
    hide RowsOf, Chosen, Next, Enabled, Given, Older, MemFlags;
    AllSomewhere(states, steps, n);
    FlagsAllSet(steps, n);
    MissingFromWal(states, steps, n);
    assert Durable(states[n]) == Somewhere(states, steps, n);
    forall i: nat | i < n && steps[i].FlushAndSeal?
      ensures DropsNothing(states, steps, i) <==> (steps[i].outcome.Committed? ==> states[i].wal == states[i].mem)
    {
      FlagsAllSet(steps, i);
      MissingFromWal(states, steps, i);
    }
    assert ExactCommits(states, steps, n) <==> forall i :: 0 <= i < n ==> DropsNothing(states, steps, i);
  }

  /** A writer that finds a row in its WAL: its first committed seal drops that row, which no block holds. */
  lemma RestartLosesWal(a: Event, b: Event) returns (states: seq<Writer>, steps: seq<Step>)
    ensures IsRun(states, steps) && states[0] == Writer([], [], [a], map[], 0, [])
    ensures steps == [Push(b), FlushAndSeal([true], 0, Committed)]
    ensures Durable(states[2]) < Given(states[0], states[2])
  {
    hide RowsOf;
    steps := [Push(b), FlushAndSeal([true], 0, Committed)];
    var w0 := Writer([], [], [a], map[], 0, []);
    var w1 := Next(w0, steps[0]);
    states := [w0, w1, Next(w1, steps[1])];
    assert states[1].wal != states[1].mem && !ExactCommits(states, steps, 2);
    DurableIffCommitsExact(states, steps, 2);
  }

  /** A failed seal, then a committed one: the rows of the first are in no block and no WAL, nor anywhere else. */
  lemma FailedSealLosesRows(a: Event, b: Event) returns (states: seq<Writer>, steps: seq<Step>)
    ensures IsRun(states, steps) && states[0] == Writer([], [], [], map[], 0, [])
    ensures steps == [Push(a), FlushAndSeal([true], 0, FailedEarly), Push(b), FlushAndSeal([true], 0, Committed)]
    ensures Durable(states[4]) < Given(states[0], states[4]) && states[4].ring == states[4].mem == []
  {
    hide RowsOf;
    steps := [Push(a), FlushAndSeal([true], 0, FailedEarly), Push(b), FlushAndSeal([true], 0, Committed)];
    var w0 := Writer([], [], [], map[], 0, []);
    var w1 := Next(w0, steps[0]);
    var w2 := Next(w1, steps[1]);
    var w3 := Next(w2, steps[2]);
    states := [w0, w1, w2, w3, Next(w3, steps[3])];
    assert w2.wal == [a];
    assert states[3].wal != states[3].mem && !ExactCommits(states, steps, 4);
    DurableIffCommitsExact(states, steps, 4);
  }

  lemma {:induction false} ChosenLess(events: seq<Event>, flags: seq<bool>)
    requires |flags| == |events| && !AllSet(flags)
    ensures |Chosen(events, flags)| < |events|
  {
    var n := |events| - 1;
    if flags[n] { ChosenLess(events[..n], flags[..n]); }
  }

  /**
   * A writer restarted within the hour of a block it sealed before: its next committed seal drops that block's
   * rows.
   */
  lemma RestartInHourLoses(w: Writer, e: Event) returns (states: seq<Writer>, steps: seq<Step>)
    requires w.ring == [] && w.mem == [] && w.pushed == [] && BlocksFilled(w) && w.openHour in w.blocks
    ensures IsRun(states, steps) && states[0] == w && !Conserved(w, states[|steps|])
    ensures steps == [Push(e), FlushAndSeal([true], w.openHour, Committed)]
  {
    hide RowsOf;
    steps := [Push(e), FlushAndSeal([true], w.openHour, Committed)];
    var w1 := Next(w, steps[0]);
    var w2 := Next(w1, steps[1]);
    states := [w, w1, w2];
    assert !Safe(states[1], steps[1]);
    ConservedIffSealsFresh(states, steps, 2);
  }

  /** The size-triggered case: two committed seals in one hour drop the first block's rows. */
  lemma TwoSealsInOneHourLose(e: Event, e': Event) returns (states: seq<Writer>, steps: seq<Step>)
    ensures IsRun(states, steps) && states[0].blocks == map[] && !Conserved(states[0], states[|steps|])
    ensures forall i :: 0 <= i < |steps| && steps[i].FlushAndSeal? ==> steps[i].outcome.Committed?
  {
    var w0 := Writer([], [], [], map[], 0, []);
    steps := [Push(e), FlushAndSeal([true], 0, Committed), Push(e'), FlushAndSeal([true], 0, Committed)];
    var w1 := Next(w0, steps[0]);
    var w2 := Next(w1, steps[1]);
    var w3 := Next(w2, steps[2]);
    var w4 := Next(w3, steps[3]);
    states := [w0, w1, w2, w3, w4];
    assert w3.openHour in w3.blocks && !Safe(states[3], steps[3]);
    ConservedIffSealsFresh(states, steps, 4);
  }
}
