/** Where the rows of the WAL go while writers, seals, sweeps, flushes and crashes of the whole store interleave. */
module RowRuns {
  import opened Bytes
  import opened Results
  import opened Keys
  import opened Storage
  import opened Meta
  import opened Format
  import opened Sealer
  import L = Lifecycle
  import opened LifecycleInv

  /** A WAL row of a shard. */
  datatype Row = Row(shard: ShardID, sn: uint64)

  /** A memtable row, with its number if its entry entered the log. */
  datatype Slot = Slot(event: Event, sn: Option<uint64>)

  /** An append that has not returned; its entry is first in version pos of the store. */
  datatype Pending = Pending(sn: uint64, pos: nat)

  /** A deciding batch that entered the log: which seal it ends, and the WAL keys it deleted. */
  datatype Cut = Cut(seal: nat, keys: set<Bytes>)

  /**
   * The store and the shard writers. written has the event of every entry that ever entered the log, acked the
   * rows whose append succeeded; carried has the memtable each seal was begun with, job the number of a shard's
   * last seal, and cuts, for each version of the store, the deciding batches in its past.
   */
  datatype State = State(world: L.State, written: map<Row, Event>, acked: set<Row>, pending: map<ShardID, Pending>,
                         mem: map<ShardID, seq<Slot>>, carried: seq<seq<Slot>>, job: map<ShardID, nat>,
                         cuts: seq<seq<Cut>>)

  /** Appends fail with or without their entry in the log; kept is the version a crash brings back. */
  datatype Step =
    | World(step: L.Step)
    | Write(shard: ShardID, sn: uint64, event: Event)
    | Ack(shard: ShardID)
    | FailLogged(shard: ShardID)
    | FailUnlogged(shard: ShardID, event: Event)
    | Begin(plan: Plan)
    | Crash(after: Durable, kept: nat)

  function Mem(st: State, s: ShardID): seq<Slot> {
    if s in st.mem then st.mem[s] else []
  }

  function Events(slots: seq<Slot>): seq<Event> {
    seq(|slots|, i requires 0 <= i < |slots| => slots[i].event)
  }

  function Entry(marshal: Event -> Bytes, s: ShardID, sn: uint64, e: Event): L.Step {
    L.WalWrite(Wal(s, sn), Some(marshal(e)))
  }

  /** A shard's one writer does not append while it seals, and uses no number twice; a seal takes its memtable. */
  ghost predicate Enabled(env: L.Env, st: State, step: Step) {
    var w := st.world;
    match step
    case World(s) => L.Enabled(env, w, s) && !s.SealBegin? && !s.Crash? && (s.WalWrite? ==> s.key.Seq?)
    case Write(s, sn, _) => w.d.Valid() && s !in w.seals && s !in st.pending && Row(s, sn) !in st.written
    case Ack(s) => s in st.pending && Row(s, st.pending[s].sn) in st.written && st.pending[s].pos <= w.d.synced
    case FailLogged(s) => s in st.pending && Row(s, st.pending[s].sn) in st.written
    case FailUnlogged(s, _) => s !in st.pending && s !in w.seals
    case Begin(p) =>
      && L.Enabled(env, w, L.SealBegin(p)) && p.req.shard !in st.pending
      && multiset(p.rows) == multiset(Events(Mem(st, p.req.shard)))
    case Crash(r, kept) => CrashesTo(w.d, r) && w.d.synced <= kept < |w.d.log| && r.log == [w.d.log[kept]]
  }

  function CutsAt(cuts: seq<seq<Cut>>, i: int): seq<Cut> {
    if 0 <= i < |cuts| then cuts[i] else []
  }

  function Last(cuts: seq<seq<Cut>>): seq<Cut> {
    CutsAt(cuts, |cuts| - 1)
  }

  function WalKeysOf(m: Store, s: ShardID): set<Bytes> {
    RangeKeys(m, WALKeyStart(s), WALKeyEnd(s))
  }

  ghost function CutsAfter(env: L.Env, st: State, step: L.Step): seq<seq<Cut>>
    requires L.Enabled(env, st.world, step)
  {
    var d := st.world.d;
    if step.SealStep? && step.sealOp.Decide? then
      var j := if step.shard in st.job then st.job[step.shard] else 0;
      st.cuts + [Last(st.cuts) + [Cut(j, WalKeysOf(d.Current(), step.shard))]]
    else if |L.Next(env, st.world, step).d.log| > |d.log| then st.cuts + [Last(st.cuts)]
    else st.cuts
  }

  /** The append returns: its event goes to the memtable, also when it failed. */
  function Returned(st: State, s: ShardID): State
    requires s in st.pending && Row(s, st.pending[s].sn) in st.written
  {
    var sn := st.pending[s].sn;
    st.(pending := st.pending - {s}, mem := st.mem[s := Mem(st, s) + [Slot(st.written[Row(s, sn)], Some(sn))]])
  }

  ghost function Next(env: L.Env, marshal: Event -> Bytes, st: State, step: Step): State
    requires Enabled(env, st, step)
  {
    match step
    case World(s) => st.(world := L.Next(env, st.world, s), cuts := CutsAfter(env, st, s))
    case Write(s, sn, e) =>
      st.(world := L.Next(env, st.world, Entry(marshal, s, sn, e)), written := st.written[Row(s, sn) := e],
          pending := st.pending[s := Pending(sn, |st.world.d.log|)], cuts := st.cuts + [Last(st.cuts)])
    case Ack(s) => Returned(st, s).(acked := st.acked + {Row(s, st.pending[s].sn)})
    case FailLogged(s) => Returned(st, s)
    case FailUnlogged(s, e) => st.(mem := st.mem[s := Mem(st, s) + [Slot(e, None)]])
    case Begin(p) =>
      st.(world := L.Next(env, st.world, L.SealBegin(p)), carried := st.carried + [Mem(st, p.req.shard)],
          mem := st.mem[p.req.shard := []], job := st.job[p.req.shard := |st.world.plans|])
    case Crash(r, kept) =>
      st.(world := L.Next(env, st.world, L.Crash(r)), pending := map[], mem := map[], cuts := [CutsAt(st.cuts, kept)])
  }

  ghost predicate Init(st: State) {
    && L.Init(st.world) && st.written == map[] && st.acked == {} && st.pending == map[] && st.mem == map[]
    && st.carried == [] && st.job == map[] && st.cuts == [[]]
  }

  ghost predicate IsRun(env: L.Env, marshal: Event -> Bytes, states: seq<State>, steps: seq<Step>) {
    && |states| == |steps| + 1
    && Init(states[0])
    && (forall i :: 0 <= i < |steps| ==>
          Enabled(env, states[i], steps[i]) && states[i + 1] == Next(env, marshal, states[i], steps[i]))
  }

  // ----- memtables -----

  function Key(row: Row): Bytes {
    WALKey(row.shard, row.sn)
  }

  /** The WAL keys of the rows that entered the log. */
  function KeysOf(s: ShardID, slots: seq<Slot>): set<Bytes> {
    set slot | slot in slots && slot.sn.Some? :: WALKey(s, slot.sn.value)
  }

  function CountLogged(slots: seq<Slot>): nat {
    if slots == [] then 0
    else CountLogged(slots[..|slots| - 1]) + if slots[|slots| - 1].sn.Some? then 1 else 0
  }

  lemma KeyInjective(a: Row, b: Row)
    ensures Key(a) == Key(b) ==> a == b
  {
    EncodeInjective(Wal(a.shard, a.sn), Wal(b.shard, b.sn));
  }

  /** The rows' events are those written under their numbers, each number once. */
  ghost predicate SlotsOk(written: map<Row, Event>, s: ShardID, slots: seq<Slot>) {
    && |KeysOf(s, slots)| == CountLogged(slots)
    && forall slot :: slot in slots && slot.sn.Some? ==>
        Row(s, slot.sn.value) in written && written[Row(s, slot.sn.value)] == slot.event
  }

  lemma KeysAdded(s: ShardID, slots: seq<Slot>, slot: Slot)
    ensures KeysOf(s, slots + [slot]) ==
        KeysOf(s, slots) + if slot.sn.Some? then {WALKey(s, slot.sn.value)} else {}
  {
    hide WALKey;
    assert forall x :: x in slots + [slot] <==> x in slots || x == slot;
  }

  lemma SlotAdded(written: map<Row, Event>, s: ShardID, slots: seq<Slot>, slot: Slot)
    requires SlotsOk(written, s, slots)
    requires slot.sn.Some? ==>
      && WALKey(s, slot.sn.value) !in KeysOf(s, slots)
      && Row(s, slot.sn.value) in written && written[Row(s, slot.sn.value)] == slot.event
    ensures SlotsOk(written, s, slots + [slot])
  {
    hide WALKey, KeysOf;
    KeysAdded(s, slots, slot);
    assert (slots + [slot])[..|slots|] == slots;
  }

  ghost predicate Grows<K, V>(m: map<K, V>, m': map<K, V>) {
    forall k :: k in m ==> k in m' && m'[k] == m[k]
  }

  /** A number not yet written is not in any memtable. */
  lemma FreshKey(written: map<Row, Event>, s: ShardID, slots: seq<Slot>, row: Row)
    requires SlotsOk(written, s, slots) && row !in written
    ensures Key(row) !in KeysOf(s, slots)
  {
    hide WALKey, CountLogged;
    forall slot | slot in slots && slot.sn.Some? ensures WALKey(s, slot.sn.value) != Key(row) {
      KeyInjective(Row(s, slot.sn.value), row);
    }
  }

  // ----- the invariant of one recoverable version -----

  /** The block has metadata, or has expired since. */
  ghost predicate BlockThere(env: L.Env, now: nat, m: Store, p: Plan) {
    BlockKey(p.Id()) in m || L.ExpOf(env, p.Id()) <= now
  }

  /** The batch deleted at least the rows its seal carries, all of its shard, and none of them is in the log. */
  ghost predicate CutOk(env: L.Env, now: nat, plans: seq<Plan>, carried: seq<seq<Slot>>, written: map<Row, Event>,
                        m: Store, c: Cut) {
    && c.seal < |plans| && c.seal < |carried| && BlockThere(env, now, m, plans[c.seal])
    && (plans[c.seal].req.shard < 0xFFFF ==> KeysOf(plans[c.seal].req.shard, carried[c.seal]) <= c.keys)
    && (forall row :: Key(row) in c.keys ==>
          row.shard == plans[c.seal].req.shard < 0xFFFF && row in written && Key(row) !in m)
  }

  /** The log's entries are the events written. */
  ghost predicate Values(marshal: Event -> Bytes, written: map<Row, Event>, m: Store) {
    forall row :: Key(row) in m ==> row in written && m[Key(row)] == marshal(written[row])
  }

  ghost predicate DroppedIn(cs: seq<Cut>, row: Row) {
    exists c :: c in cs && Key(row) in c.keys
  }

  ghost predicate VersionRows(env: L.Env, marshal: Event -> Bytes, st: State, m: Store, cs: seq<Cut>) {
    && Values(marshal, st.written, m)
    && (forall c :: c in cs ==> CutOk(env, st.world.now, st.world.plans, st.carried, st.written, m, c))
    && (forall row :: row in st.acked ==> row in st.written && (Key(row) in m || DroppedIn(cs, row)))
  }

  // ----- the invariant of the writers -----

  ghost predicate Logged(m: Store, s: ShardID, slots: seq<Slot>) {
    KeysOf(s, slots) <= m.Keys
  }

  ghost predicate PendingOk(st: State, s: ShardID, p: Pending) {
    && s !in st.world.seals && p.pos < |st.world.d.log|
    && Row(s, p.sn) in st.written && WALKey(s, p.sn) !in KeysOf(s, Mem(st, s))
    && forall i :: st.world.d.synced <= i < |st.world.d.log| && p.pos <= i ==> WALKey(s, p.sn) in st.world.d.log[i]
  }

  ghost predicate JobOk(st: State, s: ShardID, job: L.Job)
    requires st.world.d.Valid()
  {
    && Mem(st, s) == [] && s in st.job && st.job[s] < |st.world.plans| && st.job[s] < |st.carried|
    && st.world.plans[st.job[s]] == job.plan && job.plan.req.shard == s
    && (!job.pc.Deciding? ==> Logged(st.world.d.Current(), s, st.carried[st.job[s]]))
  }

  ghost predicate ShardOk(st: State, s: ShardID)
    requires st.world.d.Valid()
  {
    && SlotsOk(st.written, s, Mem(st, s)) && Logged(st.world.d.Current(), s, Mem(st, s))
    && (s in st.pending ==> PendingOk(st, s, st.pending[s]))
    && (s in st.world.seals ==> JobOk(st, s, st.world.seals[s]))
  }

  ghost predicate CarriedOk(st: State) {
    && |st.carried| == |st.world.plans|
    && forall j :: 0 <= j < |st.carried| ==>
        && multiset(Events(st.carried[j])) == multiset(st.world.plans[j].rows)
        && SlotsOk(st.written, st.world.plans[j].req.shard, st.carried[j])
  }

  ghost predicate VersionsOk(env: L.Env, marshal: Event -> Bytes, st: State) {
    && |st.cuts| == |st.world.d.log|
    && forall i :: st.world.d.synced <= i < |st.world.d.log| ==>
        VersionRows(env, marshal, st, st.world.d.log[i], st.cuts[i])
  }

  ghost predicate ShardsOk(st: State)
    requires st.world.d.Valid()
  {
    forall s: ShardID :: ShardOk(st, s)
  }

  ghost predicate RowsInv(env: L.Env, marshal: Event -> Bytes, st: State) {
    st.world.d.Valid() && VersionsOk(env, marshal, st) && ShardsOk(st) && CarriedOk(st)
  }

  // ----- versions that stay -----

  /** The records of a state only grow from st to st'. */
  ghost predicate Extends(st: State, st': State) {
    && st.world.now <= st'.world.now && Grows(st.written, st'.written) && st.acked == st'.acked
    && st.world.plans <= st'.world.plans && st.carried <= st'.carried
  }

  lemma VersionGrows(env: L.Env, marshal: Event -> Bytes, st: State, st': State, m: Store, cs: seq<Cut>)
    requires VersionRows(env, marshal, st, m, cs) && Extends(st, st')
    ensures VersionRows(env, marshal, st', m, cs)
  {
    hide Key, KeysOf, BlockKey, Plan.Id, L.ExpOf;
    forall c | c in cs ensures CutOk(env, st'.world.now, st'.world.plans, st'.carried, st'.written, m, c) {
      assert CutOk(env, st.world.now, st.world.plans, st.carried, st.written, m, c);
      assert st'.world.plans[c.seal] == st.world.plans[c.seal] && st'.carried[c.seal] == st.carried[c.seal];
    }
  }

  /** No version is new. */
  lemma VersionsGrow(env: L.Env, marshal: Event -> Bytes, st: State, st': State)
    requires VersionsOk(env, marshal, st) && Extends(st, st')
    requires st'.world.d.log == st.world.d.log && st'.cuts == st.cuts && st.world.d.synced <= st'.world.d.synced
    ensures VersionsOk(env, marshal, st')
  {
    hide VersionRows, Extends;
    forall i | st'.world.d.synced <= i < |st'.world.d.log|
      ensures VersionRows(env, marshal, st', st'.world.d.log[i], st'.cuts[i])
    {
      VersionGrows(env, marshal, st, st', st.world.d.log[i], st.cuts[i]);
    }
  }

  /** One version is new. */
  lemma VersionAdded(env: L.Env, marshal: Event -> Bytes, st: State, st': State, m: Store, cs: seq<Cut>)
    requires VersionsOk(env, marshal, st) && Extends(st, st') && st'.world.d.synced == st.world.d.synced
    requires st'.world.d.log == st.world.d.log + [m] && st'.cuts == st.cuts + [cs]
    requires VersionRows(env, marshal, st', m, cs)
    ensures VersionsOk(env, marshal, st')
  {
    hide VersionRows, Extends;
    forall i | st'.world.d.synced <= i < |st'.world.d.log|
      ensures VersionRows(env, marshal, st', st'.world.d.log[i], st'.cuts[i])
    {
      if i < |st.world.d.log| { VersionGrows(env, marshal, st, st', st.world.d.log[i], st.cuts[i]); }
    }
  }

  /** The version the disk shows now. */
  lemma CurrentRows(env: L.Env, marshal: Event -> Bytes, st: State)
    requires RowsInv(env, marshal, st)
    ensures VersionRows(env, marshal, st, st.world.d.Current(), Last(st.cuts))
  {
    hide VersionRows, ShardOk;
  }

  // ----- commits that leave the log alone -----

  ghost predicate SameRows(m: Store, m': Store) {
    forall row :: (Key(row) in m <==> Key(row) in m') && (Key(row) in m ==> m[Key(row)] == m'[Key(row)])
  }

  ghost predicate BlocksStay(env: L.Env, now: nat, m: Store, m': Store) {
    forall id :: BlockKey(id) in m && L.ExpOf(env, id) > now ==> BlockKey(id) in m'
  }

  lemma SameVersion(env: L.Env, marshal: Event -> Bytes, st: State, m: Store, m': Store, cs: seq<Cut>)
    requires VersionRows(env, marshal, st, m, cs) && SameRows(m, m') && BlocksStay(env, st.world.now, m, m')
    ensures VersionRows(env, marshal, st, m', cs)
  {
    hide Key, KeysOf, BlockKey, Plan.Id, L.ExpOf;
    forall c | c in cs ensures CutOk(env, st.world.now, st.world.plans, st.carried, st.written, m', c) {
      assert CutOk(env, st.world.now, st.world.plans, st.carried, st.written, m, c);
    }
  }

  /** A shard's part depends on its own entries of the current version and on what is recorded about it. */
  lemma ShardStays(st: State, st': State, s: ShardID)
    requires st.world.d.Valid() && st'.world.d.Valid() && ShardOk(st, s)
    requires Grows(st.written, st'.written) && Mem(st', s) == Mem(st, s)
    requires st.world.plans <= st'.world.plans && st.carried <= st'.carried
    requires s in st'.pending ==>
      && s in st.pending && st'.pending[s] == st.pending[s]
      && (st'.world.d.log == st.world.d.log || st'.world.d.log == st.world.d.log + [st'.world.d.Current()])
      && st.world.d.synced <= st'.world.d.synced
    requires s in st'.world.seals ==>
      && s in st.world.seals && st'.world.seals[s].plan == st.world.seals[s].plan
      && (st.world.seals[s].pc.Deciding? ==> st'.world.seals[s].pc.Deciding?)
      && s in st.job && s in st'.job && st'.job[s] == st.job[s]
    requires s in st.pending ==> s !in st'.world.seals
    requires forall sn: uint64 :: WALKey(s, sn) in st.world.d.Current() ==> WALKey(s, sn) in st'.world.d.Current()
    ensures ShardOk(st', s)
  {
    hide WALKey, CountLogged;
    var m, m' := st.world.d.Current(), st'.world.d.Current();
    forall slots: seq<Slot> | Logged(m, s, slots) ensures Logged(m', s, slots) {
      forall k | k in KeysOf(s, slots) ensures k in m' {
        var slot :| slot in slots && slot.sn.Some? && k == WALKey(s, slot.sn.value);
      }
    }
  }

  lemma CarriedStays(st: State, st': State)
    requires CarriedOk(st) && st'.carried == st.carried && st'.world.plans == st.world.plans
    requires Grows(st.written, st'.written)
    ensures CarriedOk(st')
  {
    hide KeysOf, CountLogged, Events;
  }

  /** The jobs under way are some of those there were, none of them back from its deciding batch. */
  ghost predicate JobsStay(seals: map<ShardID, L.Job>, seals': map<ShardID, L.Job>) {
    forall s :: s in seals' ==>
      s in seals && seals'[s].plan == seals[s].plan && (seals[s].pc.Deciding? ==> seals'[s].pc.Deciding?)
  }

  lemma QuietWorld(env: L.Env, marshal: Event -> Bytes, st: State, w': L.State)
    requires RowsInv(env, marshal, st)
    requires w'.d.Valid() && w'.d.log == st.world.d.log && st.world.d.synced <= w'.d.synced
    requires w'.plans == st.world.plans && st.world.now <= w'.now && JobsStay(st.world.seals, w'.seals)
    ensures RowsInv(env, marshal, st.(world := w'))
  {
    hide VersionRows, SlotsOk, KeysOf, WALKey;
    var st' := st.(world := w');
    VersionsGrow(env, marshal, st, st');
    CarriedStays(st, st');
    forall s: ShardID ensures ShardOk(st', s) {
      assert ShardOk(st, s);
      ShardStays(st, st', s);
    }
  }

  lemma CommitWorld(env: L.Env, marshal: Event -> Bytes, st: State, w': L.State, m': Store)
    requires RowsInv(env, marshal, st)
    requires w'.d.Valid() && w'.d.log == st.world.d.log + [m'] && st.world.d.synced == w'.d.synced
    requires SameRows(st.world.d.Current(), m') && BlocksStay(env, st.world.now, st.world.d.Current(), m')
    requires w'.plans == st.world.plans && st.world.now == w'.now && JobsStay(st.world.seals, w'.seals)
    ensures RowsInv(env, marshal, st.(world := w', cuts := st.cuts + [Last(st.cuts)]))
  {
    hide VersionRows, SlotsOk, KeysOf, WALKey, BlocksStay, CutsAt;
    var st' := st.(world := w', cuts := st.cuts + [Last(st.cuts)]);
    CurrentRows(env, marshal, st);
    SameVersion(env, marshal, st, st.world.d.Current(), m', Last(st.cuts));
    VersionGrows(env, marshal, st, st', m', Last(st.cuts));
    VersionAdded(env, marshal, st, st', m', Last(st.cuts));
    CarriedStays(st, st');
    forall s: ShardID ensures ShardOk(st', s) {
      assert ShardOk(st, s);
      forall sn: uint64 | WALKey(s, sn) in st.world.d.Current() ensures WALKey(s, sn) in m' {
        assert Key(Row(s, sn)) in m';
      }
      ShardStays(st, st', s);
    }
  }

  lemma CounterCommit(env: L.Env, now: nat, m: Store, k: Key, v: Option<Bytes>)
    requires k.Seq?
    ensures var m' := Apply(m, L.WalBatch(k, v)); SameRows(m, m') && BlocksStay(env, now, m, m')
  {
    hide L.ExpOf;
    assert L.WalBatch(k, v)[..0] == [];
    forall row: Row ensures Key(row) != Encode(k) { EncodeInjective(Wal(row.shard, row.sn), k); }
    forall id ensures BlockKey(id) != Encode(k) { EncodeInjective(Block(id), k); }
  }

  lemma IndexCommit(env: L.Env, now: nat, m: Store, p: Plan, chunk: seq<uint64>)
    ensures var m' := Apply(m, IdxBatch(p.req.eventType, chunk, p.Id())); SameRows(m, m') && BlocksStay(env, now, m, m')
  {
    hide Plan.Id, L.ExpOf, Apply, IdxBatch;
    IndexEffect(m, p, chunk);
    IdxBatchEffect(m, p.req.eventType, chunk, p.Id());
    forall row: Row, h: uint64 ensures Key(row) != IdxKey(p.req.eventType, h, p.Id()) {
      EncodeInjective(Wal(row.shard, row.sn), Idx(p.req.eventType, h, p.Id()));
    }
  }

  lemma DeleteCommit(env: L.Env, now: nat, m: Store, hour: uint64, id: BlockID)
    requires L.ExpOf(env, id) <= now
    ensures var m' := Apply(m, DeleteBlockAndExpiry(hour, id)); SameRows(m, m') && BlocksStay(env, now, m, m')
  {
    hide Apply, L.ExpOf;
    DeleteEffect(m, hour, id);
    DeleteBatchEffect(m, hour, id);
    forall row: Row ensures Key(row) != BlockKey(id) && Key(row) != ExpiryKey(hour, id) {
      EncodeInjective(Wal(row.shard, row.sn), Block(id));
      EncodeInjective(Wal(row.shard, row.sn), Expiry(hour, id));
    }
  }

  // ----- the deciding batch -----

  /** The deciding batch drops its own shard's entries, except for the last shard, and no other's. */
  lemma DecideRows(m: Store, p: Plan, row: Row)
    ensures var m' := Apply(m, SealBatch(p.req.shard, p.Id(), p.meta, p.Expiry()));
      && (Key(row) in m' <==> Key(row) in m && Key(row) !in WalKeysOf(m, p.req.shard))
      && (Key(row) in m' ==> m'[Key(row)] == m[Key(row)])
    ensures Key(row) in WalKeysOf(m, p.req.shard) <==>
      Key(row) in m && row.shard == p.req.shard && row.shard < 0xFFFF
  {
    hide Apply, Plan.Id, Plan.Expiry, EncodeBlockMeta;
    SealBatchEffect(m, p.req.shard, p.Id(), p.meta, p.Expiry());
    EncodeInjective(Wal(row.shard, row.sn), Block(p.Id()));
    EncodeInjective(Wal(row.shard, row.sn), Expiry(p.Expiry(), p.Id()));
    WALRangeOfEntry(p.req.shard, row.shard, row.sn);
  }

  /** The rows a seal carries are among those its batch deletes. */
  lemma CarriedDropped(m: Store, p: Plan, slots: seq<Slot>)
    requires Logged(m, p.req.shard, slots) && p.req.shard < 0xFFFF
    ensures KeysOf(p.req.shard, slots) <= WalKeysOf(m, p.req.shard)
  {
    hide WALKey, WalKeysOf;
    forall k | k in KeysOf(p.req.shard, slots) ensures k in WalKeysOf(m, p.req.shard) {
      var slot :| slot in slots && slot.sn.Some? && k == WALKey(p.req.shard, slot.sn.value);
      DecideRows(m, p, Row(p.req.shard, slot.sn.value));
    }
  }

  lemma OldCut(env: L.Env, st: State, p: Plan, m: Store, c: Cut)
    requires CutOk(env, st.world.now, st.world.plans, st.carried, st.written, m, c)
    ensures CutOk(env, st.world.now, st.world.plans, st.carried, st.written,
        Apply(m, SealBatch(p.req.shard, p.Id(), p.meta, p.Expiry())), c)
  {
    hide Apply, SealBatch, Plan.Id, Plan.Expiry, BlockKey, Key, KeysOf, WalKeysOf, L.ExpOf, EncodeBlockMeta;
    DecideEffect(m, p);
    forall row | Key(row) in c.keys ensures Key(row) !in m ==>
        Key(row) !in Apply(m, SealBatch(p.req.shard, p.Id(), p.meta, p.Expiry()))
    {
      DecideRows(m, p, row);
    }
  }

  lemma NewCut(env: L.Env, marshal: Event -> Bytes, st: State, j: nat, m: Store)
    requires j < |st.world.plans| && j < |st.carried| && Values(marshal, st.written, m)
    requires Logged(m, st.world.plans[j].req.shard, st.carried[j])
    ensures var p := st.world.plans[j];
      CutOk(env, st.world.now, st.world.plans, st.carried, st.written,
          Apply(m, SealBatch(p.req.shard, p.Id(), p.meta, p.Expiry())), Cut(j, WalKeysOf(m, p.req.shard)))
  {
    hide Apply, SealBatch, Plan.Id, Plan.Expiry, BlockKey, Key, KeysOf, WalKeysOf, L.ExpOf, EncodeBlockMeta, Logged;
    var p := st.world.plans[j];
    DecideEffect(m, p);
    if p.req.shard < 0xFFFF { CarriedDropped(m, p, st.carried[j]); }
    forall row | Key(row) in WalKeysOf(m, p.req.shard)
      ensures row.shard == p.req.shard < 0xFFFF && row in st.written
      ensures Key(row) !in Apply(m, SealBatch(p.req.shard, p.Id(), p.meta, p.Expiry()))
    {
      DecideRows(m, p, row);
    }
  }

  /** The version the deciding batch of seal number j makes. */
  lemma DecideVersionRows(env: L.Env, marshal: Event -> Bytes, st: State, j: nat, m: Store, cs: seq<Cut>)
    requires VersionRows(env, marshal, st, m, cs) && j < |st.world.plans| && j < |st.carried|
    requires Logged(m, st.world.plans[j].req.shard, st.carried[j])
    ensures var p := st.world.plans[j];
      VersionRows(env, marshal, st, Apply(m, SealBatch(p.req.shard, p.Id(), p.meta, p.Expiry())),
          cs + [Cut(j, WalKeysOf(m, p.req.shard))])
  {
    hide Apply, SealBatch, Plan.Id, Plan.Expiry, Key, CutOk, WalKeysOf, EncodeBlockMeta, Logged;
    var p := st.world.plans[j];
    var m', cut := Apply(m, SealBatch(p.req.shard, p.Id(), p.meta, p.Expiry())), Cut(j, WalKeysOf(m, p.req.shard));
    var cs' := cs + [cut];
    NewCut(env, marshal, st, j, m);
    forall c | c in cs' ensures CutOk(env, st.world.now, st.world.plans, st.carried, st.written, m', c) {
      if c in cs { OldCut(env, st, p, m, c); }
    }
    forall row ensures Key(row) in m' ==> Key(row) in m && m'[Key(row)] == m[Key(row)] { DecideRows(m, p, row); }
    forall row | row in st.acked ensures Key(row) in m' || DroppedIn(cs', row) {
      DecideRows(m, p, row);
      if Key(row) in m {
        if Key(row) !in m' { assert cut in cs'; }
      } else {
        var c :| c in cs && Key(row) in c.keys;
        assert c in cs';
      }
    }
  }

  lemma DecideWorld(env: L.Env, marshal: Event -> Bytes, st: State, s: ShardID)
    requires RowsInv(env, marshal, st) && s in st.world.seals
    requires L.SealEnabled(st.world.d, st.world.seals[s], L.Decide)
    ensures s in st.job
    ensures RowsInv(env, marshal, st.(world := L.SealNext(st.world, s, L.Decide),
        cuts := st.cuts + [Last(st.cuts) + [Cut(st.job[s], WalKeysOf(st.world.d.Current(), s))]]))
  {
    hide VersionRows, SlotsOk, KeysOf, WALKey, Apply, SealBatch, WalKeysOf, Plan.Id, Plan.Expiry, L.IndexChunks, CutsAt;
    var w := st.world;
    assert ShardOk(st, s);
    var j, p, m := st.job[s], w.seals[s].plan, w.d.Current();
    var m' := Apply(m, SealBatch(p.req.shard, p.Id(), p.meta, p.Expiry()));
    var cs' := Last(st.cuts) + [Cut(j, WalKeysOf(m, s))];
    var st' := st.(world := L.SealNext(w, s, L.Decide), cuts := st.cuts + [cs']);
    CurrentRows(env, marshal, st);
    DecideVersionRows(env, marshal, st, j, m, Last(st.cuts));
    VersionGrows(env, marshal, st, st', m', cs');
    VersionAdded(env, marshal, st, st', m', cs');
    CarriedStays(st, st');
    forall t: ShardID ensures ShardOk(st', t) {
      assert ShardOk(st, t);
      if t == s { OwnShard(st, st', s); } else {
        forall sn: uint64 | WALKey(t, sn) in m ensures WALKey(t, sn) in m' { DecideRows(m, p, Row(t, sn)); }
        ShardStays(st, st', t);
      }
    }
  }

  /** A shard whose seal is decided has an empty memtable and nothing pending. */
  lemma OwnShard(st: State, st': State, s: ShardID)
    requires st.world.d.Valid() && st'.world.d.Valid() && ShardOk(st, s) && s in st.world.seals && s in st'.world.seals
    requires st' == st.(world := st'.world, cuts := st'.cuts) && st'.world.plans == st.world.plans
    requires st'.world.seals[s].plan == st.world.seals[s].plan && st'.world.seals[s].pc.Deciding?
    ensures ShardOk(st', s)
  {
    hide WALKey;
    assert KeysOf(s, []) == {};
  }

  // ----- steps of the store -----

  lemma SealWorld(env: L.Env, marshal: Event -> Bytes, st: State, s: ShardID, op: L.SealOp)
    requires RowsInv(env, marshal, st) && s in st.world.seals && L.SealEnabled(st.world.d, st.world.seals[s], op)
    requires !op.Decide?
    ensures var w' := L.SealNext(st.world, s, op);
      RowsInv(env, marshal, st.(world := w', cuts := if op.Index? then st.cuts + [Last(st.cuts)] else st.cuts))
  {
    hide VersionsOk, ShardsOk, CarriedOk, Apply, IdxBatch, Plan.Id, Plan.Expiry, L.IndexChunks, SameRows, BlocksStay;
    var w, w' := st.world, L.SealNext(st.world, s, op);
    assert JobsStay(w.seals, w'.seals);
    if op.Index? {
      var p := w.seals[s].plan;
      var chunk := L.IndexChunks(p)[w.seals[s].pc.chunk];
      IndexCommit(env, w.now, w.d.Current(), p, chunk);
      CommitWorld(env, marshal, st, w', Apply(w.d.Current(), IdxBatch(p.req.eventType, chunk, p.Id())));
    } else {
      QuietWorld(env, marshal, st, w');
      assert st.(world := w', cuts := st.cuts) == st.(world := w');
    }
  }

  /** A step of the reaper or the janitor, to a world that differs otherwise only in the sweepers. */
  lemma SweepWorld(env: L.Env, marshal: Event -> Bytes, st: State, w: L.Sweep, op: L.SweepOp, w': L.State)
    requires RowsInv(env, marshal, st) && SweepInv(env, st.world.now, w) && L.SweepEnabled(st.world.d, w, op)
    requires w' == st.world.(d := L.SweepDisk(st.world.d, w, op), reaper := w'.reaper, janitor := w'.janitor)
    ensures RowsInv(env, marshal,
        st.(world := w', cuts := if op.DeleteKeys? then st.cuts + [Last(st.cuts)] else st.cuts))
  {
    hide VersionsOk, ShardsOk, CarriedOk, Apply, DeleteBlockAndExpiry, SameRows, BlocksStay, L.ExpOf;
    var d := st.world.d;
    if op.DeleteKeys? {
      var e := w.entries[0];
      assert e in w.entries;
      DeleteCommit(env, st.world.now, d.Current(), e.hour, e.id);
      CommitWorld(env, marshal, st, w', Apply(d.Current(), DeleteBlockAndExpiry(e.hour, e.id)));
    } else {
      QuietWorld(env, marshal, st, w');
      assert st.(world := w', cuts := st.cuts) == st.(world := w');
    }
  }

  lemma WorldKeepsRows(env: L.Env, marshal: Event -> Bytes, st: State, step: L.Step)
    requires Inv(env, st.world) && RowsInv(env, marshal, st) && Enabled(env, st, World(step))
    ensures RowsInv(env, marshal, Next(env, marshal, st, World(step)))
  {
    hide VersionsOk, ShardsOk, CarriedOk, VersionsInv, JobsInv, SweepInv, L.SealEnabled, L.SweepEnabled, L.SweepAfter,
         Apply, L.WalBatch, SameRows, BlocksStay, Last, WalKeysOf, L.SealPcAfter;
    var w, st' := st.world, Next(env, marshal, st, World(step));
    var w' := st'.world;
    match step
    case Tick(_) => QuietWorld(env, marshal, st, w');
    case Flush(_) => QuietWorld(env, marshal, st, w');
    case WalWrite(k, v) =>
      CounterCommit(env, w.now, w.d.Current(), k, v);
      CommitWorld(env, marshal, st, w', Apply(w.d.Current(), L.WalBatch(k, v)));
    case SealStep(s, op) =>
      if op.Decide? { DecideWorld(env, marshal, st, s); } else { SealWorld(env, marshal, st, s, op); }
    case ReaperStep(op) => SweepWorld(env, marshal, st, w.reaper, op, w');
    case JanitorStep(op) => SweepWorld(env, marshal, st, w.janitor, op, w');
  }

  // ----- steps of the writers -----

  lemma WriteEntry(m: Store, row: Row, v: Bytes)
    ensures var m' := Apply(m, L.WalBatch(Wal(row.shard, row.sn), Some(v)));
      && m' == m[Key(row) := v]
      && (forall id :: BlockKey(id) in m ==> BlockKey(id) in m')
  {
    hide WALKey;
    assert L.WalBatch(Wal(row.shard, row.sn), Some(v))[..0] == [];
  }

  lemma WriteVersion(env: L.Env, marshal: Event -> Bytes, st: State, st': State, row: Row, e: Event, m: Store,
                     cs: seq<Cut>)
    requires VersionRows(env, marshal, st, m, cs) && row !in st.written
    requires Extends(st, st') && st'.written == st.written[row := e]
    ensures VersionRows(env, marshal, st', m[Key(row) := marshal(e)], cs)
  {
    hide Key, KeysOf, BlockKey, Plan.Id, L.ExpOf;
    var m' := m[Key(row) := marshal(e)];
    forall other ensures Key(other) == Key(row) ==> other == row { KeyInjective(other, row); }
    forall c | c in cs ensures CutOk(env, st'.world.now, st'.world.plans, st'.carried, st'.written, m', c) {
      assert CutOk(env, st.world.now, st.world.plans, st.carried, st.written, m, c);
      assert st'.world.plans[c.seal] == st.world.plans[c.seal] && st'.carried[c.seal] == st.carried[c.seal];
      assert BlockKey(st.world.plans[c.seal].Id()) in m ==> BlockKey(st.world.plans[c.seal].Id()) in m';
    }
  }

  lemma WriteKeepsRows(env: L.Env, marshal: Event -> Bytes, st: State, s: ShardID, sn: uint64, e: Event)
    requires RowsInv(env, marshal, st) && Enabled(env, st, Write(s, sn, e))
    ensures RowsInv(env, marshal, Next(env, marshal, st, Write(s, sn, e)))
  {
    hide VersionRows, SlotsOk, KeysOf, WALKey, Apply, L.WalBatch, Key, CutsAt;
    var row, m := Row(s, sn), st.world.d.Current();
    var st' := Next(env, marshal, st, Write(s, sn, e));
    var m' := Apply(m, L.WalBatch(Wal(s, sn), Some(marshal(e))));
    WriteEntry(m, row, marshal(e));
    assert Key(row) == WALKey(s, sn) by { KeyIs(row); }
    CurrentRows(env, marshal, st);
    WriteVersion(env, marshal, st, st', row, e, m, Last(st.cuts));
    VersionAdded(env, marshal, st, st', m', Last(st.cuts));
    CarriedStays(st, st');
    forall t: ShardID ensures ShardOk(st', t) {
      assert ShardOk(st, t);
      if t == s {
        FreshKey(st.written, s, Mem(st, s), row);
        ShardStays(st, st'.(pending := st.pending), s);
        PendingStarts(st, st', s);
      } else {
        ShardStays(st, st', t);
      }
    }
  }

  lemma KeyIs(row: Row)
    ensures Key(row) == WALKey(row.shard, row.sn)
  {}

  lemma PendingStarts(st: State, st': State, s: ShardID)
    requires st'.world.d.Valid() && ShardOk(st'.(pending := st.pending), s) && s in st'.pending
    requires PendingOk(st', s, st'.pending[s])
    ensures ShardOk(st', s)
  {
    hide SlotsOk, KeysOf, Logged;
    assert Mem(st', s) == Mem(st'.(pending := st.pending), s);
  }

  /** The memtable of one shard gets one more row. */
  lemma MemGrows(env: L.Env, marshal: Event -> Bytes, st: State, st': State, s: ShardID, slot: Slot)
    requires RowsInv(env, marshal, st) && s !in st.world.seals && s !in st'.pending
    requires st' == st.(pending := st'.pending, mem := st.mem[s := Mem(st, s) + [slot]], acked := st'.acked)
    requires forall t :: t in st'.pending ==> t in st.pending && st'.pending[t] == st.pending[t]
    requires slot.sn.Some? ==>
      && WALKey(s, slot.sn.value) !in KeysOf(s, Mem(st, s)) && WALKey(s, slot.sn.value) in st.world.d.Current()
      && Row(s, slot.sn.value) in st.written && st.written[Row(s, slot.sn.value)] == slot.event
    ensures ShardsOk(st') && CarriedOk(st')
  {
    hide SlotsOk, KeysOf, WALKey, VersionsOk;
    CarriedStays(st, st');
    forall t: ShardID ensures ShardOk(st', t) {
      assert ShardOk(st, t);
      if t == s {
        SlotAdded(st.written, s, Mem(st, s), slot);
        KeysAdded(s, Mem(st, s), slot);
      } else {
        ShardStays(st, st', t);
      }
    }
  }

  lemma ReturnKeeps(env: L.Env, marshal: Event -> Bytes, st: State, st': State, s: ShardID)
    requires RowsInv(env, marshal, st) && s in st.pending && Row(s, st.pending[s].sn) in st.written
    requires st' == Returned(st, s).(acked := st'.acked)
    ensures ShardsOk(st') && CarriedOk(st')
  {
    hide SlotsOk, KeysOf, WALKey, VersionsOk, CarriedOk;
    assert ShardOk(st, s);
    assert WALKey(s, st.pending[s].sn) in st.world.d.log[|st.world.d.log| - 1];
    MemGrows(env, marshal, st, st', s, Slot(st.written[Row(s, st.pending[s].sn)], Some(st.pending[s].sn)));
  }

  lemma AckKeepsRows(env: L.Env, marshal: Event -> Bytes, st: State, s: ShardID)
    requires RowsInv(env, marshal, st) && Enabled(env, st, Ack(s))
    ensures RowsInv(env, marshal, Next(env, marshal, st, Ack(s)))
  {
    hide CarriedOk, SlotsOk, KeysOf, WALKey, CutOk, Values, Logged;
    var st' := Next(env, marshal, st, Ack(s));
    ReturnKeeps(env, marshal, st, st', s);
    assert ShardOk(st, s);
    forall i | st.world.d.synced <= i < |st.world.d.log|
      ensures VersionRows(env, marshal, st', st.world.d.log[i], st.cuts[i])
    {
      assert VersionRows(env, marshal, st, st.world.d.log[i], st.cuts[i]);
      assert WALKey(s, st.pending[s].sn) in st.world.d.log[i];
    }
  }

  lemma FailKeepsRows(env: L.Env, marshal: Event -> Bytes, st: State, step: Step)
    requires RowsInv(env, marshal, st) && Enabled(env, st, step) && (step.FailLogged? || step.FailUnlogged?)
    ensures RowsInv(env, marshal, Next(env, marshal, st, step))
  {
    hide VersionRows, SlotsOk, KeysOf, WALKey, CarriedOk, ShardOk;
    var st' := Next(env, marshal, st, step);
    VersionsGrow(env, marshal, st, st');
    match step
    case FailLogged(s) => ReturnKeeps(env, marshal, st, st', s);
    case FailUnlogged(s, e) => MemGrows(env, marshal, st, st', s, Slot(e, None));
  }

  lemma BeginKeepsRows(env: L.Env, marshal: Event -> Bytes, st: State, p: Plan)
    requires RowsInv(env, marshal, st) && Enabled(env, st, Begin(p))
    ensures RowsInv(env, marshal, Next(env, marshal, st, Begin(p)))
  {
    hide VersionRows, SlotsOk, KeysOf, WALKey, L.WellPlanned, Events;
    var st' := Next(env, marshal, st, Begin(p));
    VersionsGrow(env, marshal, st, st');
    forall t: ShardID ensures ShardOk(st', t) {
      assert ShardOk(st, t);
      if t == p.req.shard { BeginShard(st, st', p); } else { ShardStays(st, st', t); }
    }
    assert ShardOk(st, p.req.shard);
  }

  lemma BeginShard(st: State, st': State, p: Plan)
    requires st.world.d.Valid() && ShardOk(st, p.req.shard) && p.req.shard !in st.pending
    requires |st.carried| == |st.world.plans| && st'.world.d == st.world.d && st'.written == st.written
    requires st'.pending == st.pending && Mem(st', p.req.shard) == []
    requires st'.carried == st.carried + [Mem(st, p.req.shard)] && st'.world.plans == st.world.plans + [p]
    requires p.req.shard in st'.job && st'.job[p.req.shard] == |st.world.plans|
    requires p.req.shard in st'.world.seals && st'.world.seals[p.req.shard] == L.Job(p, L.Start)
    ensures ShardOk(st', p.req.shard)
  {
    hide WALKey;
    assert KeysOf(p.req.shard, []) == {};
  }

  lemma CrashKeepsRows(env: L.Env, marshal: Event -> Bytes, st: State, r: Durable, kept: nat)
    requires RowsInv(env, marshal, st) && Enabled(env, st, Crash(r, kept))
    ensures RowsInv(env, marshal, Next(env, marshal, st, Crash(r, kept)))
  {
    hide VersionRows, WALKey, ShardsOk, CrashesTo;
    var st' := Next(env, marshal, st, Crash(r, kept));
    assert r.Valid() by { CrashValid(st.world.d, r); }
    CarriedStays(st, st');
    VersionGrows(env, marshal, st, st', st.world.d.log[kept], st.cuts[kept]);
    assert st'.cuts == [st.cuts[kept]];
    assert ShardsOk(st') by { EmptyShards(st'); }
  }

  lemma CrashValid(d: Durable, r: Durable)
    requires CrashesTo(d, r)
    ensures r.Valid() && r.synced == 0
  {}

  lemma EmptyShards(st: State)
    requires st.world.d.Valid() && st.mem == map[] && st.pending == map[] && st.world.seals == map[]
    ensures ShardsOk(st)
  {
    hide WALKey;
    forall s: ShardID ensures ShardOk(st, s) { assert KeysOf(s, []) == {}; }
  }

  // ----- every run -----

  lemma InitRows(env: L.Env, marshal: Event -> Bytes, st: State)
    requires Init(st)
    ensures RowsInv(env, marshal, st)
  {
    hide WALKey, ShardsOk;
    EmptyShards(st);
  }

  lemma StepKeepsRows(env: L.Env, marshal: Event -> Bytes, st: State, step: Step)
    requires Inv(env, st.world) && RowsInv(env, marshal, st) && Enabled(env, st, step)
    ensures RowsInv(env, marshal, Next(env, marshal, st, step))
  {
    hide Inv, RowsInv, Enabled, Next;
    match step
    case World(s) => WorldKeepsRows(env, marshal, st, s);
    case Write(s, sn, e) => WriteKeepsRows(env, marshal, st, s, sn, e);
    case Ack(s) => AckKeepsRows(env, marshal, st, s);
    case FailLogged(_) => FailKeepsRows(env, marshal, st, step);
    case FailUnlogged(_, _) => FailKeepsRows(env, marshal, st, step);
    case Begin(p) => BeginKeepsRows(env, marshal, st, p);
    case Crash(r, kept) => CrashKeepsRows(env, marshal, st, r, kept);
  }

  lemma StepKeepsWorld(env: L.Env, marshal: Event -> Bytes, st: State, step: Step)
    requires Inv(env, st.world) && Enabled(env, st, step) && env.retention < 0x8000_0000_0000_0000
    ensures Inv(env, Next(env, marshal, st, step).world)
  {
    hide Inv, L.Next, L.WellPlanned, CrashesTo, L.SealEnabled, L.SweepEnabled, Events;
    match step
    case World(s) => StepKeeps(env, st.world, s);
    case Write(s, sn, e) => StepKeeps(env, st.world, Entry(marshal, s, sn, e));
    case Begin(p) => StepKeeps(env, st.world, L.SealBegin(p));
    case Crash(r, _) => StepKeeps(env, st.world, L.Crash(r));
    case Ack(_) =>
    case FailLogged(_) =>
    case FailUnlogged(_, _) =>
  }

  lemma {:induction false} RowsReachable(env: L.Env, marshal: Event -> Bytes, states: seq<State>, steps: seq<Step>,
                                         n: nat)
    requires IsRun(env, marshal, states, steps) && n <= |steps| && env.retention < 0x8000_0000_0000_0000
    ensures Inv(env, states[n].world) && RowsInv(env, marshal, states[n])
  {
    hide Inv, RowsInv, Enabled, Next;
    if n == 0 {
      InitInv(env, states[0].world);
      InitRows(env, marshal, states[0]);
    } else {
      RowsReachable(env, marshal, states, steps, n - 1);
      StepKeepsRows(env, marshal, states[n - 1], steps[n - 1]);
      StepKeepsWorld(env, marshal, states[n - 1], steps[n - 1]);
    }
  }

  // ----- what becomes of a row -----

  /**
   * However writers and seals of all shards, sweeps, flushes and crashes interleave: in every version that a crash
   * can bring back, a row whose append was acknowledged is in its shard's WAL with its value, or else a deciding
   * batch of that shard in this version's past deleted it; never both.
   */
  lemma RowInLogOrCut(env: L.Env, marshal: Event -> Bytes, states: seq<State>, steps: seq<Step>, n: nat, row: Row,
                      i: nat)
    requires IsRun(env, marshal, states, steps) && n <= |steps| && env.retention < 0x8000_0000_0000_0000
    requires row in states[n].acked && states[n].world.d.synced <= i < |states[n].world.d.log|
    ensures row in states[n].written && |states[n].cuts| == |states[n].world.d.log|
    ensures var (m, cs) := (states[n].world.d.log[i], states[n].cuts[i]);
      && (Key(row) in m <==> !DroppedIn(cs, row))
      && (Key(row) in m ==> m[Key(row)] == marshal(states[n].written[row]))
  {
    hide Enabled, Next, Key, Inv, ShardsOk, CarriedOk, BlockThere, KeysOf;
    RowsReachable(env, marshal, states, steps, n);
    var st := states[n];
    assert VersionRows(env, marshal, st, st.world.d.log[i], st.cuts[i]);
  }

  lemma {:induction false} CountBound(slots: seq<Slot>)
    ensures CountLogged(slots) <= |slots|
    ensures CountLogged(slots) == |slots| <==> forall slot :: slot in slots ==> slot.sn.Some?
  {
    if slots != [] {
      var n := |slots| - 1;
      CountBound(slots[..n]);
      assert slots == slots[..n] + [slots[n]];
    }
  }

  lemma SubsetBySize<T>(a: set<T>, b: set<T>)
    requires a <= b
    ensures b <= a <==> |b| <= |a|
  {
    assert b == a + (b - a) && |b| == |a| + |b - a|;
  }

  /** The deciding batches of the shard among these, and the rows their seals carry. */
  ghost predicate OfShard(st: State, s: ShardID, c: Cut) {
    c.seal < |st.world.plans| && c.seal < |st.carried| && st.world.plans[c.seal].req.shard == s
  }

  /**
   * Every entry that a seal of the shard dropped from the WAL is a row of that very seal if and only if no committed
   * seal of the shard carried fewer logged rows than its batch found in the log. A seal carries at most as many as
   * its block has rows, and as many exactly if none of their appends failed to enter the log.
   */
  lemma DroppedRowsCarriedIff(env: L.Env, marshal: Event -> Bytes, states: seq<State>, steps: seq<Step>, n: nat,
                              s: ShardID, i: nat)
    requires IsRun(env, marshal, states, steps) && n <= |steps| && env.retention < 0x8000_0000_0000_0000
    requires s < 0xFFFF && states[n].world.d.synced <= i < |states[n].world.d.log|
    ensures |states[n].cuts| == |states[n].world.d.log|
    ensures var (st, cs) := (states[n], states[n].cuts[i]);
      && ((forall c :: c in cs && OfShard(st, s, c) ==> c.keys <= KeysOf(s, st.carried[c.seal])) <==>
          (forall c :: c in cs && OfShard(st, s, c) ==> |c.keys| <= CountLogged(st.carried[c.seal])))
      && (forall c :: c in cs && OfShard(st, s, c) ==>
            && CountLogged(st.carried[c.seal]) <= |st.world.plans[c.seal].rows|
            && (CountLogged(st.carried[c.seal]) == |st.world.plans[c.seal].rows| <==>
                forall slot :: slot in st.carried[c.seal] ==> slot.sn.Some?))
  {
    hide Enabled, Next, Key, KeysOf, CountLogged, Inv, ShardsOk, Events;
    RowsReachable(env, marshal, states, steps, n);
    var st, cs := states[n], states[n].cuts[i];
    assert VersionRows(env, marshal, st, st.world.d.log[i], cs);
    forall c | c in cs && OfShard(st, s, c)
      ensures c.keys <= KeysOf(s, st.carried[c.seal]) <==> |c.keys| <= CountLogged(st.carried[c.seal])
      ensures |st.carried[c.seal]| == |st.world.plans[c.seal].rows|
    {
      assert CutOk(env, st.world.now, st.world.plans, st.carried, st.written, st.world.d.log[i], c);
      SubsetBySize(KeysOf(s, st.carried[c.seal]), c.keys);
      SlotsAsRows(st, c.seal);
    }
    forall c | c in cs && OfShard(st, s, c) ensures CountLogged(st.carried[c.seal]) <= |st.carried[c.seal]|
      ensures CountLogged(st.carried[c.seal]) == |st.carried[c.seal]| <==>
          forall slot :: slot in st.carried[c.seal] ==> slot.sn.Some?
    {
      CountBound(st.carried[c.seal]);
    }
  }

  lemma SlotsAsRows(st: State, j: nat)
    requires CarriedOk(st) && j < |st.carried|
    ensures |st.carried[j]| == |st.world.plans[j].rows|
    ensures forall slot :: slot in st.carried[j] ==> slot.event in st.world.plans[j].rows
  {
    hide SlotsOk;
    var rows, events := st.world.plans[j].rows, Events(st.carried[j]);
    assert |multiset(rows)| == |rows| && |multiset(events)| == |events|;
    forall slot | slot in st.carried[j] ensures slot.event in rows {
      var k :| 0 <= k < |st.carried[j]| && st.carried[j][k] == slot;
      assert events[k] in multiset(events);
      assert slot.event in multiset(rows);
    }
  }

  /** The seal's block is there with its metadata and file, or it expired, or its hour was sealed again. */
  ghost predicate InBlock(env: L.Env, w: L.State, m: Store, p: Plan, e: Event) {
    && e in p.rows
    && (L.ExpOf(env, p.Id()) <= w.now || BlockKey(p.Id()) in m)
    && (L.ExpOf(env, p.Id()) > w.now && Once(w.plans, p) ==>
          w.d.HasDurable(BlockPath(TIER_HOT, p.Id()), p.file))
  }

  /**
   * So, where no committed seal of the shard carried fewer logged rows than its log had, an acknowledged row that is
   * no longer in the WAL is a row of the seal that dropped it, and in that seal's block file until the block
   * expires or its hour is sealed again.
   */
  lemma RowInLogOrBlock(env: L.Env, marshal: Event -> Bytes, states: seq<State>, steps: seq<Step>, n: nat, row: Row,
                        i: nat) returns (c: Cut)
    requires IsRun(env, marshal, states, steps) && n <= |steps| && env.retention < 0x8000_0000_0000_0000
    requires row in states[n].acked && states[n].world.d.synced <= i < |states[n].world.d.log|
    requires Key(row) !in states[n].world.d.log[i] && row in states[n].written && i < |states[n].cuts|
    requires forall x :: x in states[n].cuts[i] && OfShard(states[n], row.shard, x) ==>
      |x.keys| <= CountLogged(states[n].carried[x.seal])
    ensures c in states[n].cuts[i] && Key(row) in c.keys && OfShard(states[n], row.shard, c)
    ensures InBlock(env, states[n].world, states[n].world.d.log[i], states[n].world.plans[c.seal],
        states[n].written[row])
  {
    hide Enabled, Next, Key, KeysOf, CountLogged, Inv, ShardsOk, BlockKey, Plan.Id, L.ExpOf, Once, Events, InBlock;
    RowsReachable(env, marshal, states, steps, n);
    var st, m := states[n], states[n].world.d.log[i];
    assert VersionRows(env, marshal, st, m, st.cuts[i]);
    c :| c in st.cuts[i] && Key(row) in c.keys;
    assert CutOk(env, st.world.now, st.world.plans, st.carried, st.written, m, c);
    var p := st.world.plans[c.seal];
    SubsetBySize(KeysOf(row.shard, st.carried[c.seal]), c.keys);
    CarriedRow(st, c.seal, row);
    assert InBlock(env, st.world, m, p, st.written[row]) by { BlockOfCut(env, st, m, i, p, st.written[row]); }
  }

  /** A logged row that a seal carries is a row of its block, with the event written. */
  lemma CarriedRow(st: State, j: nat, row: Row)
    requires CarriedOk(st) && j < |st.carried| && st.world.plans[j].req.shard == row.shard
    requires Key(row) in KeysOf(row.shard, st.carried[j])
    ensures row in st.written && st.written[row] in st.world.plans[j].rows
  {
    hide WALKey, CountLogged, Events;
    var slot :| slot in st.carried[j] && slot.sn.Some? && WALKey(row.shard, slot.sn.value) == Key(row);
    KeyInjective(Row(row.shard, slot.sn.value), row);
    assert SlotsOk(st.written, row.shard, st.carried[j]);
    SlotsAsRows(st, j);
  }

  lemma BlockOfCut(env: L.Env, st: State, m: Store, i: nat, p: Plan, e: Event)
    requires Inv(env, st.world) && st.world.d.synced <= i < |st.world.d.log| && m == st.world.d.log[i]
    requires BlockThere(env, st.world.now, m, p) && e in p.rows
    ensures InBlock(env, st.world, m, p, e)
  {
    hide JobsInv, SweepInv, Once, BlockKey, Plan.Id, L.ExpOf, Paired, FromPlans, Whole, Backed;
    assert VersionInv(env, st.world.plans, st.world.now, st.world.d.files, m);
    if L.ExpOf(env, p.Id()) > st.world.now && Once(st.world.plans, p) {
      assert Contents(env, st.world.now, st.world.d.files, p);
    }
  }
}
