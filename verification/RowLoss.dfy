/** An acknowledged row that is really lost: a run of the store and its writers after which nothing holds it. */
module RowLoss {
  import opened Bytes
  import opened Results
  import opened Keys
  import opened Storage
  import opened Format
  import opened Sealer
  import L = Lifecycle
  import RR = RowRuns
  import opened SealRuns

  /** The run has come to this state. */
  ghost predicate Tracks(env: L.Env, marshal: Event -> Bytes, rs: seq<RR.State>, ts: seq<RR.Step>, st: RR.State) {
    RR.IsRun(env, marshal, rs, ts) && rs[|ts|] == st
  }

  lemma Step(env: L.Env, marshal: Event -> Bytes, rs: seq<RR.State>, ts: seq<RR.Step>, st: RR.State, step: RR.Step)
    returns (rs': seq<RR.State>, ts': seq<RR.Step>)
    requires Tracks(env, marshal, rs, ts, st) && RR.Enabled(env, st, step)
    ensures Tracks(env, marshal, rs', ts', RR.Next(env, marshal, st, step))
  {
    hide RR.Enabled, RR.Next, RR.Init;
    rs', ts' := rs + [RR.Next(env, marshal, st, step)], ts + [step];
  }

  /** The store with nothing under way. */
  function Idle(d: Durable, plans: seq<Plan>): L.State {
    L.State(d, 0, map[], L.Resting, L.Resting, plans)
  }

  function Appended(d: Durable, s: ShardID, sn: uint64, v: Bytes): Durable
    requires d.Valid()
  {
    Durable(d.files, d.log + [Apply(d.Current(), L.WalBatch(Wal(s, sn), Some(v)))], |d.log|)
  }

  /** An append that succeeds. */
  function AfterAppend(marshal: Event -> Bytes, st: RR.State, s: ShardID, sn: uint64, e: Event): RR.State
    requires st.world.d.Valid()
  {
    st.(world := st.world.(d := Appended(st.world.d, s, sn, marshal(e))), written := st.written[RR.Row(s, sn) := e],
        acked := st.acked + {RR.Row(s, sn)}, mem := st.mem[s := RR.Mem(st, s) + [RR.Slot(e, Some(sn))]],
        cuts := st.cuts + [RR.Last(st.cuts)])
  }

  lemma Append(env: L.Env, marshal: Event -> Bytes, rs: seq<RR.State>, ts: seq<RR.Step>, st: RR.State, s: ShardID,
               sn: uint64, e: Event)
    returns (rs': seq<RR.State>, ts': seq<RR.Step>)
    requires Tracks(env, marshal, rs, ts, st) && st.world == Idle(st.world.d, st.world.plans) && st.world.d.Valid()
    requires s !in st.pending && RR.Row(s, sn) !in st.written
    ensures Tracks(env, marshal, rs', ts', AfterAppend(marshal, st, s, sn, e))
  {
    hide Tracks, Apply, L.WalBatch;
    rs', ts' := Step(env, marshal, rs, ts, st, RR.Write(s, sn, e));
    var st1 := RR.Next(env, marshal, st, RR.Write(s, sn, e));
    var flush := RR.World(L.Flush(|st.world.d.log|));
    rs', ts' := Step(env, marshal, rs', ts', st1, flush);
    var st2 := RR.Next(env, marshal, st1, flush);
    rs', ts' := Step(env, marshal, rs', ts', st2, RR.Ack(s));
    assert st1.pending - {s} == st.pending;
    assert RR.Next(env, marshal, st2, RR.Ack(s)) == AfterAppend(marshal, st, s, sn, e);
  }

  /** The same for the store alone. */
  lemma AppendStore(env: L.Env, plans: seq<Plan>, states: seq<L.State>, steps: seq<L.Step>, d: Durable, s: ShardID,
                    sn: uint64, v: Bytes)
    returns (states': seq<L.State>, steps': seq<L.Step>)
    requires Quiet(env, plans, states, steps, d)
    ensures Quiet(env, plans, states', steps', Appended(d, s, sn, v))
  {
    hide L.IsRun, Apply, L.WalBatch;
    RunLength(env, states, steps);
    var write, flush := L.WalWrite(Wal(s, sn), Some(v)), L.Flush(|d.log|);
    Extend(env, states, steps, write);
    states', steps' := states + [L.Next(env, states[|steps|], write)], steps + [write];
    Extend(env, states', steps', flush);
    states', steps' := states' + [L.Next(env, states'[|steps'|], flush)], steps' + [flush];
  }

  /** A server that stops after its last commit was synced, with no file. */
  function AfterCrash(d: Durable): Durable
    requires d.Valid()
  {
    Durable(map[], [d.Current()], 0)
  }

  lemma CrashStore(env: L.Env, plans: seq<Plan>, states: seq<L.State>, steps: seq<L.Step>, d: Durable)
    returns (states': seq<L.State>, steps': seq<L.Step>)
    requires Quiet(env, plans, states, steps, d) && d.files == map[]
    ensures CrashesTo(d, AfterCrash(d)) && Quiet(env, plans, states', steps', AfterCrash(d))
  {
    hide L.IsRun;
    RunLength(env, states, steps);
    var crash := L.Crash(AfterCrash(d));
    Extend(env, states, steps, crash);
    states', steps' := states + [L.Next(env, states[|steps|], crash)], steps + [crash];
  }

  /** The rows' machine follows the steps of a seal. */
  lemma {:induction false} Follow(env: L.Env, marshal: Event -> Bytes, rs: seq<RR.State>, ts: seq<RR.Step>,
                                  st: RR.State, states: seq<L.State>, steps: seq<L.Step>, k: nat)
    returns (rs': seq<RR.State>, ts': seq<RR.Step>, st': RR.State)
    requires L.IsRun(env, states, steps) && k <= |steps| && Tracks(env, marshal, rs, ts, st) && st.world == states[k]
    requires forall i :: k <= i < |steps| ==> steps[i].SealStep? || steps[i].Flush?
    ensures Tracks(env, marshal, rs', ts', st') && st'.world == states[|steps|] && st'.acked == st.acked
    decreases |steps| - k
  {
    hide Tracks, L.Enabled, L.Next, L.Init, RR.CutsAfter;
    if k == |steps| {
      rs', ts', st' := rs, ts, st;
    } else {
      var step := RR.World(steps[k]);
      rs', ts' := Step(env, marshal, rs, ts, st, step);
      rs', ts', st' := Follow(env, marshal, rs', ts', RR.Next(env, marshal, st, step), states, steps, k + 1);
    }
  }

  lemma NewWriters(env: L.Env, marshal: Event -> Bytes) returns (rs: seq<RR.State>, ts: seq<RR.Step>, st: RR.State)
    ensures Tracks(env, marshal, rs, ts, st)
    ensures st == RR.State(Idle(Durable(map[], [map[]], 0), []), map[], {}, map[], map[], [], map[], [[]])
  {
    st := RR.State(Idle(Durable(map[], [map[]], 0), []), map[], {}, map[], map[], [], map[], [[]]);
    rs, ts := [st], [];
  }

  /** The writer appends a, the server crashes, the new writer appends b; both appends succeed. */
  lemma TwoWriters(env: L.Env, marshal: Event -> Bytes, s: ShardID, a: Event, b: Event)
    returns (rs: seq<RR.State>, ts: seq<RR.Step>, st: RR.State, states: seq<L.State>, steps: seq<L.Step>)
    ensures Tracks(env, marshal, rs, ts, st) && st.world == Idle(st.world.d, [])
    ensures Quiet(env, [], states, steps, st.world.d)
    ensures RR.Row(s, 0) in st.acked && RR.Row(s, 0) in st.written && st.written[RR.Row(s, 0)] == a
    ensures st.pending == map[] && RR.Mem(st, s) == [RR.Slot(b, Some(1))]
  {
    hide Tracks, Quiet, Apply, L.WalBatch;
    rs, ts, st := NewWriters(env, marshal);
    states, steps := NewServer(env);
    states, steps := AppendStore(env, [], states, steps, st.world.d, s, 0, marshal(a));
    rs, ts := Append(env, marshal, rs, ts, st, s, 0, a);
    st := AfterAppend(marshal, st, s, 0, a);
    var d := st.world.d;
    states, steps := CrashStore(env, [], states, steps, d);
    var crash := RR.Crash(AfterCrash(d), |d.log| - 1);
    rs, ts := Step(env, marshal, rs, ts, st, crash);
    st := RR.Next(env, marshal, st, crash);
    states, steps := AppendStore(env, [], states, steps, st.world.d, s, 1, marshal(b));
    rs, ts := Append(env, marshal, rs, ts, st, s, 1, b);
    st := AfterAppend(marshal, st, s, 1, b);
  }

  /**
   * For any shard but the last, any two events and any seal of just the second: there is a run in which both appends
   * are acknowledged, a crash comes between them, and the seal commits without a failure; at its end the first row is
   * in no version of the log, and the only block ever begun does not hold it.
   */
  lemma RestartLosesAckedRow(env: L.Env, marshal: Event -> Bytes, p: Plan, a: Event, b: Event)
    returns (rs: seq<RR.State>, ts: seq<RR.Step>)
    requires L.WellPlanned(env, p) && p.rows == [b] && a != b && p.req.shard < 0xFFFF
    ensures |rs| == |ts| + 1 && RR.IsRun(env, marshal, rs, ts)
    ensures var st := rs[|ts|]; var row := RR.Row(p.req.shard, 0);
      && row in st.acked && st.world.d.Valid() && st.world.plans == [p] && a !in p.rows
      && (forall i :: st.world.d.synced <= i < |st.world.d.log| ==> RR.Key(row) !in st.world.d.log[i])
  {
    hide Quiet, Mid, L.WellPlanned, RR.IsRun, L.IsRun, WALKey, BlockKey, InPlace, Apply, L.WalBatch, RR.CutsAfter;
    var s := p.req.shard;
    var st, states, steps;
    rs, ts, st, states, steps := TwoWriters(env, marshal, s, a, b);
    assert RR.Events(RR.Mem(st, s)) == [b];
    rs, ts := Step(env, marshal, rs, ts, st, RR.Begin(p));
    var s1, t1 := Begun(env, [], p, states, steps, st.world.d);
    st := RR.Next(env, marshal, st, RR.Begin(p));
    var s2, t2, d2 := SealThrough(env, [], p, s1, t1, st.world.d);
    assert L.IsRun(env, s2, t2) && s2[|t2|] == Idle(d2, [p]) by { QuietEnd(env, p, s2, t2, d2); }
    assert s2[|t1|] == st.world by { MidEnd(env, p, s1, t1, st.world.d, s2); }
    rs, ts, st := Follow(env, marshal, rs, ts, st, s2, t2, |t1|);
    RunEnd(env, marshal, rs, ts);
  }

  lemma QuietEnd(env: L.Env, p: Plan, states: seq<L.State>, steps: seq<L.Step>, d: Durable)
    requires Quiet(env, [] + [p], states, steps, d)
    ensures |states| == |steps| + 1 && L.IsRun(env, states, steps) && states[|steps|] == Idle(d, [p])
  {
    assert [] + [p] == [p];
  }

  lemma MidEnd(env: L.Env, p: Plan, states: seq<L.State>, steps: seq<L.Step>, d: Durable, states': seq<L.State>)
    requires Mid(env, [], p, states, steps, d, L.Start) && states <= states'
    ensures |steps| < |states'| && states'[|steps|] ==
      L.State(d, 0, map[p.req.shard := L.Job(p, L.Start)], L.Resting, L.Resting, [p])
  {
    assert [] + [p] == [p];
  }

  lemma RunEnd(env: L.Env, marshal: Event -> Bytes, rs: seq<RR.State>, ts: seq<RR.Step>)
    requires RR.IsRun(env, marshal, rs, ts)
    ensures |rs| == |ts| + 1
  {}
}
