/** The loopback router: the maps of the server that the reconciler and the HTTP handlers share.

    Every method body is one section run under the server's mutex.  Processes die without taking it, so a
    tick may find a speaker alive and then dead; the clock may advance at any read.  Whether a process can
    be started is not the router's choice.  Maps are walked in an order that the code does not choose. */
module Routers {
  import opened Options
  import opened Stores
  import opened PipeWire
  import opened Lanes

  /** Result of looking up a speaker's PipeWire node. */
  datatype Lookup = LookupFailed | NotFound | Found

  function NameFor(snap: Snapshot, mac: Mac): Option<string> {
    match NodeFor(snap.nodes, mac)
    case None => None
    case Some(n) => Some(n.name)
  }

  ghost predicate Stalled(links: seq<Link>, id: int) {
    exists l :: l in links && l.input == id && l.state != "active"
  }

  ghost predicate Suspect(snap: Snapshot, mac: Mac) {
    var n := NodeFor(snap.nodes, mac);
    n.Some? && n.value.id != 0 && Stalled(snap.links, n.value.id)
  }

  /** The watchdog suspects a speaker if the last node listed for it is not 0 and some link into that node is in
      another state than "active". */
  lemma SuspectExactly(snap: Snapshot, mac: Mac)
    ensures Suspect(snap, mac) <==>
              exists k, l :: && 0 <= k < |snap.nodes| && snap.nodes[k].mac == mac && snap.nodes[k].id != 0
                             && (forall i :: k < i < |snap.nodes| ==> snap.nodes[i].mac != mac)
                             && l in snap.links && l.input == snap.nodes[k].id && l.state != "active"
  {
    NodeForExactly(snap.nodes, mac);
  }

  /** The two maps that a tick builds from the snapshot. */
  method IndexNodes(nodes: seq<Node>) returns (current: map<Mac, string>, ids: map<Mac, int>)
    ensures current.Keys == ids.Keys
    ensures forall m :: m in current <==> NodeFor(nodes, m).Some?
    ensures forall m :: m in current ==>
                          current[m] == NodeFor(nodes, m).value.name && ids[m] == NodeFor(nodes, m).value.id
  {
    current, ids := map[], map[];
    for i := 0 to |nodes|
      invariant current.Keys == ids.Keys
      invariant forall m :: m in current <==> NodeFor(nodes[..i], m).Some?
      invariant forall m :: m in current ==> current[m] == NodeFor(nodes[..i], m).value.name
                                             && ids[m] == NodeFor(nodes[..i], m).value.id
    {
      assert nodes[..i + 1][..i] == nodes[..i];
      current := current[nodes[i].mac := nodes[i].name];
      ids := ids[nodes[i].mac := nodes[i].id];
    }
    assert nodes[..|nodes|] == nodes;
  }

  /** The first non-active link state into each node. */
  method NonActive(links: seq<Link>) returns (bad: map<int, string>)
    ensures forall id :: id in bad <==> Stalled(links, id)
    ensures forall id :: id in bad ==> bad[id] != "active"
  {
    bad := map[];
    for i := 0 to |links|
      invariant forall id :: id in bad <==> Stalled(links[..i], id)
      invariant forall id :: id in bad ==> bad[id] != "active"
    {
      assert links[..i + 1] == links[..i] + [links[i]];
      if links[i].state != "active" && links[i].input !in bad {
        bad := bad[links[i].input := links[i].state];
      }
      assert forall id :: Stalled(links[..i + 1], id) <==>
                            Stalled(links[..i], id) || (links[i].input == id && links[i].state != "active");
    }
    assert links[..|links|] == links;
  }

  lemma {:induction false} LegalOrdered(l: Lane, ops: seq<Op>)
    requires Legal(l, ops)
    ensures forall op :: op in ops ==> Ordered(op)
  {
    if ops != [] {
      LegalOrdered(l, ops[..|ops| - 1]);
    }
  }

  lemma RunSnoc(l: Lane, ops: seq<Op>, op: Op)
    ensures Run(l, ops + [op]) == Step(Run(l, ops), op)
    ensures Legal(l, ops + [op]) <==> Legal(l, ops) && Allowed(Run(l, ops), op)
  {
    assert (ops + [op])[..|ops|] == ops;
  }

  lemma Associates(a: seq<Op>, b: seq<Op>, c: seq<Op>)
    ensures a + b + c == a + (b + c)
  {
  }

  ghost predicate IsReconcile(log: seq<Op>, node: string) {
    var acts := Actions(log);
    |acts| == 1 && acts[0].Reconcile? && acts[0].node == node
  }

  ghost predicate IsWatch(log: seq<Op>, node: string, suspect: bool) {
    var acts := Actions(log);
    |acts| == 1 && acts[0].Watch? && acts[0].node == node && acts[0].suspect == suspect
  }

  ghost function Put(log: Mac -> seq<Op>, mac: Mac, one: seq<Op>): (more: Mac -> seq<Op>)
    ensures more(mac) == one && forall m :: m != mac ==> more(m) == log(m)
  {
    m => if m == mac then one else log(m)
  }

  lemma OneAction(deaths: seq<Op>, op: Op)
    requires Actions(deaths) == [] && !Dying(op)
    ensures Actions(deaths + [op]) == [op]
  {
    assert (deaths + [op])[..|deaths|] == deaths;
  }

  ghost function TickOf(present: bool, started: seq<Op>, watched: seq<Op>): seq<Op> {
    if present then [Register] + started + watched else [Gone]
  }

  lemma Joined(t: seq<Op>, present: bool, started: seq<Op>, watched: seq<Op>)
    requires !present ==> started == [] && watched == []
    ensures t + (if present then [Register] else []) + (if present then [] else [Gone]) + started + watched
         == t + TickOf(present, started, watched)
  {
  }

  lemma TickLog(started: seq<Op>, watched: seq<Op>, node: string, suspect: bool)
    requires IsReconcile(started, node) && IsWatch(watched, node, suspect)
    ensures TickActions(Actions(TickOf(true, started, watched)), Some(node), suspect)
  {
    var a, b := Actions(started), Actions(watched);
    OneAction([], Register);
    ActionsAppend([Register], started);
    ActionsAppend([Register] + started, watched);
    assert a == [a[0]] && b == [b[0]];
    assert Actions(TickOf(true, started, watched)) == [Register, a[0], b[0]];
  }

  /** What a tick means for a lane: no entry if the MAC is absent; if present it is known and, if it is
      named and could be started, has an entry bound to the snapshot's node that the tick's start loop did not
      see dead. */
  ghost predicate Reconciled(before: Lane, after: Lane, mac: Mac, snap: Snapshot, log: seq<Op>)
    requires TickActions(Actions(log), NameFor(snap, mac), Suspect(snap, mac))
  {
    match NameFor(snap, mac)
    case None => after.entry.None? && forall i :: !Alive(after, i)
    case Some(name) =>
      && after.known == Some(true)
      && (name != "" && Actions(log)[1].ok && Actions(log)[2].ok ==>
            BoundAtLook(before, log, after, name))
  }

  lemma Converged(before: Lane, mac: Mac, snap: Snapshot, log: seq<Op>)
    requires Inv(before) && TickActions(Actions(log), NameFor(snap, mac), Suspect(snap, mac))
    ensures Reconciled(before, Run(before, log), mac, snap, log)
  {
    TickConverges(before, log, NameFor(snap, mac), Suspect(snap, mac));
  }

  /** A delay change of an untracked speaker leaves it untracked; if the speaker was tracked and its loopback
      could be started, the entry is for the same node and its process is a new one with the new delay. */
  predicate Respawned(before: Option<Entry>, after: Option<Entry>, procs: seq<Proc>, op: Op)
    requires op.SetDelay?
  {
    && (before.None? ==> after.None?)
    && (before.Some? && op.ok ==>
          && after.Some? && after.value.node == before.value.node && after.value.startedAt == op.now
          && after.value.pid < |procs|
          && procs[after.value.pid] == Proc(before.value.node, op.ms, false, false, false))
  }

  lemma DelayOutcome(l: Lane, op: Op)
    requires op.SetDelay?
    ensures Respawned(l.entry, Step(l, op).entry, Step(l, op).procs, op)
  {
    DelayExactly(l, op.ms, op.now, op.ok);
    if l.entry.Some? && op.ok {
      SpawnedProcess(l, op);
    }
  }

  class Router {
    var speakers: map<Mac, Entry>
    var delays: map<Mac, int>
    var volumes: map<Mac, int>
    var mutes: map<Mac, bool>
    var known: map<Mac, bool>
    var watchdogRestarts: map<Mac, int>

    /** The paused flag, and the ticks that are past their pause check. */
    var gate: Gate

    /** A debounced save is scheduled; the one-slot push channel holds a token. */
    var saveTimer: bool
    var pushSlot: bool
    const satellite: bool

    /** The operating system: processes by the MAC they were spawned for, and the clock. */
    var procs: map<Mac, seq<Proc>>
    var clock: int

    /** What was loaded at start-up, and everything that happened to each lane since. */
    ghost const loaded: Settings
    ghost var trace: Mac -> seq<Op>

    ghost function Origin(mac: Mac): Lane {
      Lane(OPEN, None, [], Get(loaded.delays, mac), Get(loaded.volumes, mac), Get(loaded.mutes, mac),
           Get(loaded.known, mac), None)
    }

    ghost function LaneOf(mac: Mac): Lane
      reads `gate, `speakers, `procs, `delays, `volumes, `mutes, `known, `watchdogRestarts
    {
      Lane(gate, Get(speakers, mac), GetOr(procs, mac, []), Get(delays, mac), Get(volumes, mac), Get(mutes, mac),
           Get(known, mac), Get(watchdogRestarts, mac))
    }

    /** Every lane is what its history says: the class refines the lane machine. */
    ghost predicate Traced(mac: Mac)
      reads `gate, `speakers, `procs, `delays, `volumes, `mutes, `known, `watchdogRestarts, `trace
    {
      LaneOf(mac) == Run(Origin(mac), trace(mac)) && Legal(Origin(mac), trace(mac))
    }

    ghost predicate Valid()
      reads `gate, `speakers, `procs, `delays, `volumes, `mutes, `known, `watchdogRestarts, `trace
    {
      forall m :: Traced(m)
    }

    /** What the lane machine guarantees of every reachable state. */
    lemma Reachable(mac: Mac)
      requires Valid()
      ensures Inv(LaneOf(mac))
    {
      assert Traced(mac);
      Conservation(Origin(mac), trace(mac));
    }

    /** In any stretch of a speaker's history without a connect, forget or manual restart, its watchdog
        restarts are 30 seconds apart each, and each hit a loopback that was 5 seconds old. */
    lemma RestartRate(mac: Mac, i: nat, j: nat)
      requires Valid() && i <= j <= |trace(mac)|
      requires forall op :: op in trace(mac)[i..j] ==> !ClearsCooldown(op)
      ensures var fs := Fired(Run(Origin(mac), trace(mac)[..i]), trace(mac)[i..j]); Ripe(fs) && Spaced(fs)
    {
      assert Traced(mac);
      LegalOrdered(Origin(mac), trace(mac));
      assert forall op :: op in trace(mac)[i..j] ==> op in trace(mac);
      WatchdogRate(Run(Origin(mac), trace(mac)[..i]), trace(mac)[i..j]);
    }

    /** In every history, each look of the watchdog at a speaker whose link is not active restarts its loopback, if
        a process can be started, unless it has none, its process was seen dead, it is younger than 5 seconds,
        or the watchdog has restarted it in the last 30 seconds with no connect, forget or manual restart
        since. */
    lemma ZombieRestarted(mac: Mac, k: nat)
      requires Valid() && k < |trace(mac)| && trace(mac)[k].Watch? && trace(mac)[k].suspect && trace(mac)[k].ok
      ensures var states, ops := Path(Origin(mac), trace(mac)), trace(mac);
              || |states[k + 1].procs| > |states[k].procs|
              || states[k].entry.None?
              || ReapedAt(states[k], states[k].entry.value.pid)
              || (exists j, at :: 0 <= j < k && SpawnedAt(states, ops, j, states[k].entry.value.pid, at)
                                  && ops[k].graceAt - at < 5_000_000_000)
              || (exists j: nat, at :: RestartRecorded(states, ops, k, j, at)
                                       && ops[k].cooldownAt - at < 30_000_000_000)
    {
      assert Traced(mac);
      LegalPath(Origin(mac), trace(mac));
      WatchdogMustFire(Path(Origin(mac), trace(mac)), trace(mac), k);
    }

    /** In any stretch of a speaker's history that starts settled and holds nothing but ticks on snapshots whose
        links are all active and whose sink keeps its name, and deaths of old processes: nothing is spawned or
        killed, and entry and settings stay. */
    lemma QuietStretch(mac: Mac, name: string, i: nat, j: nat)
      requires Valid() && i <= j <= |trace(mac)| && Settled(Run(Origin(mac), trace(mac)[..i]), name)
      requires forall op :: op in trace(mac)[i..j] ==>
                 QuietOp(op, name) || OldDeath(Run(Origin(mac), trace(mac)[..i]), op)
      ensures var l, m := Run(Origin(mac), trace(mac)[..i]), Run(Origin(mac), trace(mac)[..j]);
              Aged(l.(gate := m.gate), m) && Settled(m, name)
    {
      QuietForever(Run(Origin(mac), trace(mac)[..i]), name, trace(mac)[i..j]);
      RunSlice(Origin(mac), trace(mac), i, j);
    }

    /** If a speaker's history holds a tick of one instant whose spawns succeed, and after some steps at the gate
        the same tick again, the second changes nothing. */
    lemma RepeatedTick(mac: Mac, i: nat, j: nat, name: string, suspect: bool, now: int, ok1: bool, ok2: bool)
      requires Valid() && i + 3 <= j <= |trace(mac)| - 3
      requires trace(mac)[i..i + 3] == InstantTick(name, suspect, now, true, true)
      requires forall op :: op in trace(mac)[i + 3..j] ==> AtGate(op)
      requires trace(mac)[j..j + 3] == InstantTick(name, suspect, now, ok1, ok2)
      ensures Run(Origin(mac), trace(mac)[..j + 3]) == Run(Origin(mac), trace(mac)[..j])
    {
      var o, t := Origin(mac), trace(mac);
      Conservation(o, t[..i]);
      RunSlice(o, t, i, i + 3);
      RunSlice(o, t, i + 3, j);
      RunSlice(o, t, j, j + 3);
      TickIdempotent(Run(o, t[..i]), name, suspect, now, t[i + 3..j], ok1, ok2);
    }

    /** In every history, between a pause at step p and the next unpause: a process of this speaker is spawned
        if and only if a delay change hits it while tracked or a tick whose check preceded the pause fires,
        and whatever is alive was spawned since the pause. */
    lemma SpawnedWhilePaused(mac: Mac, p: nat, k: nat)
      requires Valid() && p < k < |trace(mac)|
      requires trace(mac)[p].Pause? && forall j :: p < j < k ==> !trace(mac)[j].Unpause?
      ensures var states, op := Path(Origin(mac), trace(mac)), trace(mac)[k];
              && states[|trace(mac)|] == LaneOf(mac)
              && (|states[k + 1].procs| > |states[k].procs| <==>
                    || DelaySpawns(states[k], op)
                    || exists t :: TickSpawns(states[k], op, t) && CheckedBefore(states, trace(mac), p, t))
              && forall i :: Alive(states[k], i) ==> |states[p].procs| <= i
    {
      assert Traced(mac);
      PathEnds(Origin(mac), trace(mac));
      LegalPath(Origin(mac), trace(mac));
      AfterPause(Path(Origin(mac), trace(mac)), trace(mac), p, k);
    }

    predicate SpeakerDead(mac: Mac): (dead: bool)
      reads this
      ensures dead == Dead(LaneOf(mac))
    {
      mac !in speakers ||
      (var ps := GetOr(procs, mac, []); speakers[mac].pid < |ps| && ps[speakers[mac].pid].reaped)
    }

    constructor (file: Option<Settings>, satellite: bool, now: int)
      ensures Valid()
      ensures gate == OPEN && !saveTimer && !pushSlot && speakers == map[]
      ensures forall m :: trace(m) == [] && LaneOf(m) == Origin(m)
      ensures loaded == if file.Some? then file.value else NO_SETTINGS
    {
      var st := if file.Some? then file.value else NO_SETTINGS;
      speakers, watchdogRestarts, procs := map[], map[], map[];
      delays, volumes, mutes, known := st.delays, st.volumes, st.mutes, st.known;
      gate, saveTimer, pushSlot, clock := OPEN, false, false, now;
      this.satellite := satellite;
      loaded := st;
      trace := m => [];
      new;
      assert forall m :: Traced(m);
    }

    // ------------------------------------------------------------ primitives

    ghost method Record(mac: Mac, op: Op)
      modifies `trace
      ensures forall m :: trace(m) == if m == mac then old(trace(m)) + [op] else old(trace(m))
    {
      var t := trace;
      trace := m => if m == mac then t(m) + [op] else t(m);
    }

    ghost function LastOp(mac: Mac): Op
      requires trace(mac) != []
      reads `trace
    {
      trace(mac)[|trace(mac)| - 1]
    }

    /** One lane took one step, the last in its history. */
    twostate lemma Stepped(mac: Mac)
      requires old(Valid())
      requires trace(mac) != [] && trace(mac) == old(trace(mac)) + [LastOp(mac)]
      requires Allowed(old(LaneOf(mac)), LastOp(mac))
      requires LaneOf(mac) == Step(old(LaneOf(mac)), LastOp(mac))
      requires forall m :: m != mac ==> LaneOf(m) == old(LaneOf(m)) && trace(m) == old(trace(m))
      ensures Valid()
    {
      forall m ensures Traced(m) {
        assert old(Traced(m));
        RunSnoc(Origin(m), old(trace(m)), LastOp(mac));
      }
    }

    ghost method RecordAll(log: Mac -> seq<Op>)
      modifies `trace
      ensures forall m :: trace(m) == old(trace(m)) + log(m)
    {
      var t := trace;
      trace := m => t(m) + log(m);
    }

    /** Lanes took at most one step each and the history says so. */
    twostate lemma SteppedAll(log: Mac -> seq<Op>)
      requires old(Valid())
      requires forall m :: trace(m) == old(trace(m)) + log(m)
      requires forall m :: |log(m)| <= 1 && (log(m) == [] ==> LaneOf(m) == old(LaneOf(m)))
      requires forall m :: |log(m)| == 1 ==>
                 Allowed(old(LaneOf(m)), log(m)[0]) && LaneOf(m) == Step(old(LaneOf(m)), log(m)[0])
      ensures Valid()
    {
      forall m ensures Traced(m) {
        assert old(Traced(m));
        if log(m) != [] {
          assert log(m) == [log(m)[0]];
          RunSnoc(Origin(m), old(trace(m)), log(m)[0]);
        } else {
          assert old(trace(m)) + [] == old(trace(m));
        }
      }
    }

    method Elapse()
      modifies `clock
      ensures clock >= old(clock)
    {
      var d: int := *;
      if d > 0 {
        clock := clock + d;
      }
    }

    method SetExited(mac: Mac, pid: nat)
      requires Valid()
      modifies `procs, `trace
      ensures Valid() && LaneOf(mac) == Step(old(LaneOf(mac)), Exit(pid))
      ensures forall m :: trace(m) == if m == mac then old(trace(m)) + [Exit(pid)] else old(trace(m))
      ensures forall m :: m != mac ==> LaneOf(m) == old(LaneOf(m))
    {
      var ps := GetOr(procs, mac, []);
      if pid < |ps| {
        procs := procs[mac := ps[pid := ps[pid].(exited := true)]];
      }
      Record(mac, Exit(pid));
      Stepped(mac);
    }

    method CloseDead(mac: Mac, pid: nat)
      requires Valid()
      modifies `procs, `trace
      ensures Valid() && LaneOf(mac) == Step(old(LaneOf(mac)), Reap(pid))
      ensures forall m :: trace(m) == if m == mac then old(trace(m)) + [Reap(pid)] else old(trace(m))
      ensures forall m :: m != mac ==> LaneOf(m) == old(LaneOf(m))
    {
      var ps := GetOr(procs, mac, []);
      if pid < |ps| && ps[pid].exited {
        procs := procs[mac := ps[pid := ps[pid].(reaped := true)]];
      }
      Record(mac, Reap(pid));
      Stepped(mac);
    }

    method MaybeExit(mac: Mac) returns (ghost log: seq<Op>)
      requires Valid()
      modifies `procs, `trace
      ensures Valid() && Actions(log) == []
      ensures forall m :: trace(m) == if m == mac then old(trace(m)) + log else old(trace(m))
      ensures forall m :: m != mac ==> LaneOf(m) == old(LaneOf(m))
    {
      log := [];
      var dies: bool := *;
      if dies && mac in speakers {
        var pid := speakers[mac].pid;
        SetExited(mac, pid);
        log := [Exit(pid)];
      }
    }

    method MaybeClose(mac: Mac) returns (ghost log: seq<Op>)
      requires Valid()
      modifies `procs, `trace
      ensures Valid() && Actions(log) == []
      ensures forall m :: trace(m) == if m == mac then old(trace(m)) + log else old(trace(m))
      ensures forall m :: m != mac ==> LaneOf(m) == old(LaneOf(m))
    {
      log := [];
      var noticed: bool := *;
      if noticed && mac in speakers {
        var pid := speakers[mac].pid;
        CloseDead(mac, pid);
        log := [Reap(pid)];
      }
    }

    /** The tracked process of a speaker may die, and its death may be noticed, before it is looked at. */
    method Meanwhile(mac: Mac) returns (ghost log: seq<Op>)
      requires Valid()
      modifies `procs, `trace, `clock
      ensures Valid() && clock >= old(clock)
      ensures Actions(log) == []
      ensures forall m :: trace(m) == if m == mac then old(trace(m)) + log else old(trace(m))
      ensures forall m :: m != mac ==> LaneOf(m) == old(LaneOf(m))
    {
      Elapse();
      ghost var before := trace(mac);
      ghost var exits := MaybeExit(mac);
      ghost var closes := MaybeClose(mac);
      log := exits + closes;
      ActionsAppend(exits, closes);
      Associates(before, exits, closes);
    }

    /** `startLoopback`: whether the process starts is not up to the router. */
    method StartLoopback(mac: Mac, node: string) returns (ok: bool)
      modifies `speakers, `procs, `clock
      ensures clock >= old(clock)
      ensures LaneOf(mac) == Start(old(LaneOf(mac)), node, clock, ok)
      ensures ok ==> Get(speakers, mac) == Some(Entry(node, |GetOr(old(procs), mac, [])|, clock))
      ensures GetOr(procs, mac, []) == GetOr(old(procs), mac, [])
                + (if ok then [Proc(node, GetOr(delays, mac, 0), false, false, false)] else [])
      ensures forall m :: m != mac ==> LaneOf(m) == old(LaneOf(m))
    {
      Elapse();
      ok := *;
      if !ok {
        return;
      }
      var ps := GetOr(procs, mac, []);
      procs := procs[mac := ps + [Proc(node, GetOr(delays, mac, 0), false, false, false)]];
      speakers := speakers[mac := Entry(node, |ps|, clock)];
    }

    /** `stopLoopback`. */
    method StopLoopback(mac: Mac)
      modifies `speakers, `procs
      ensures speakers == old(speakers) - {mac}
      ensures LaneOf(mac) == Stop(old(LaneOf(mac)))
      ensures forall m :: m != mac ==> LaneOf(m) == old(LaneOf(m))
    {
      if mac !in speakers {
        return;
      }
      KillTracked(mac);
      speakers := speakers - {mac};
    }

    method KillTracked(mac: Mac)
      modifies `procs
      ensures LaneOf(mac) == KillEntry(old(LaneOf(mac)))
      ensures forall m :: m != mac ==> LaneOf(m) == old(LaneOf(m))
    {
      if mac in speakers {
        procs := procs[mac := KillAt(GetOr(procs, mac, []), speakers[mac].pid)];
      }
    }

    // -------------------------------------------------------------- the tick

    /** The next tick's name is not in use. */
    lemma TicketsFresh()
      requires Valid()
      ensures gate.checks !in gate.inFlight
    {
      assert Traced("");
      TicketsOld(Origin(""), trace(""));
      assert LaneOf("").gate == gate;
    }

    /** The first lock section of `tickRouter`: the tick's name, unless the router is paused. */
    method PauseCheck() returns (tick: Option<nat>)
      requires Valid()
      modifies `gate, `trace
      ensures Valid()
      ensures if old(gate).paused then tick == None && gate == old(gate)
              else && tick.Some? && tick.value !in old(gate).inFlight
                   && gate == old(gate).(checks := gate.checks, inFlight := old(gate).inFlight + {tick.value})
      ensures forall m :: trace(m) == old(trace(m)) + [Check] && LaneOf(m) == Step(old(LaneOf(m)), Check)
    {
      tick := None;
      TicketsFresh();
      if !gate.paused {
        tick := Some(gate.checks);
        gate := gate.(checks := gate.checks + 1, inFlight := gate.inFlight + {gate.checks});
      }
      ghost var log: Mac -> seq<Op> := m => [Check];
      RecordAll(log);
      SteppedAll(log);
    }

    /** The snapshot failed: the tick ends without touching anything. */
    method AbandonTick(tick: nat)
      requires Valid() && tick in gate.inFlight
      modifies `gate, `trace
      ensures Valid() && tick !in gate.inFlight
      ensures forall m :: trace(m) == old(trace(m)) + [Abandon(tick)]
    {
      gate := gate.(inFlight := gate.inFlight - {tick});
      ghost var log: Mac -> seq<Op> := m => [Abandon(tick)];
      RecordAll(log);
      SteppedAll(log);
    }

    /** The tick takes the lock again. */
    method BeginTick(tick: nat)
      requires Valid() && tick in gate.inFlight
      modifies `gate, `trace
      ensures Valid() && gate == old(gate).(inFlight := old(gate).inFlight - {tick}, tick := Some(tick))
      ensures forall m :: trace(m) == old(trace(m)) + [Begin(tick)] && LaneOf(m) == Step(old(LaneOf(m)), Begin(tick))
    {
      gate := gate.(inFlight := gate.inFlight - {tick}, tick := Some(tick));
      ghost var log: Mac -> seq<Op> := m => [Begin(tick)];
      RecordAll(log);
      SteppedAll(log);
    }

    method RegisterOne(mac: Mac) returns (isNew: bool)
      requires Valid()
      modifies `known, `trace
      ensures Valid() && isNew == !GetOr(old(known), mac, false)
      ensures forall m :: trace(m) == if m == mac then old(trace(m)) + [Register] else old(trace(m))
      ensures forall m :: m != mac ==> Get(known, m) == Get(old(known), m)
    {
      isNew := !GetOr(known, mac, false);
      if isNew {
        known := known[mac := true];
      }
      Record(mac, Register);
      Stepped(mac);
    }

    method RegisterSeen(current: map<Mac, string>) returns (needsSave: bool)
      requires Valid()
      modifies `known, `trace
      ensures Valid()
      ensures needsSave <==> exists m :: m in current && GetOr(old(known), m, false) == false
      ensures forall m :: trace(m) == old(trace(m)) + (if m in current then [Register] else [])
    {
      needsSave := false;
      ghost var newcomer := "";
      var todo := current.Keys;
      while todo != {}
        invariant todo <= current.Keys && Valid()
        invariant needsSave ==> newcomer in current && !GetOr(old(known), newcomer, false)
        invariant needsSave || forall m :: m in current.Keys - todo ==> GetOr(old(known), m, false)
        invariant forall m :: m in todo ==> Get(known, m) == Get(old(known), m)
        invariant forall m :: trace(m) == old(trace(m)) + (if m in current.Keys - todo then [Register] else [])
      {
        var mac :| mac in todo;
        assert GetOr(known, mac, false) == GetOr(old(known), mac, false);
        var isNew := RegisterOne(mac);
        if isNew {
          needsSave := true;
          newcomer := mac;
        }
        todo := todo - {mac};
      }
    }

    method StopOne(mac: Mac)
      requires Valid()
      modifies `speakers, `procs, `trace
      ensures Valid() && speakers == old(speakers) - {mac}
      ensures forall m :: trace(m) == if m == mac then old(trace(m)) + [Gone] else old(trace(m))
    {
      StopLoopback(mac);
      Record(mac, Gone);
      Stepped(mac);
    }

    method StopGone(current: map<Mac, string>)
      requires Valid()
      modifies `speakers, `procs, `trace
      ensures Valid()
      ensures forall m :: trace(m) == old(trace(m)) + (if m in current then [] else [Gone])
    {
      ghost var tracked := speakers.Keys;
      var todo := speakers.Keys;
      while todo != {}
        invariant todo <= speakers.Keys <= tracked && Valid()
        invariant forall m :: trace(m) == old(trace(m)) + (if m in tracked - todo && m !in current then [Gone] else [])
      {
        var mac :| mac in todo;
        if mac !in current {
          StopOne(mac);
        }
        todo := todo - {mac};
      }
      GoneAnyway(m => m !in tracked && m !in current);
    }

    /** An absent MAC without an entry needs no visit. */
    ghost method GoneAnyway(which: Mac -> bool)
      requires Valid()
      requires forall m :: which(m) ==> m !in speakers
      modifies `trace
      ensures Valid()
      ensures forall m :: trace(m) == old(trace(m)) + (if which(m) then [Gone] else [])
    {
      ghost var log: Mac -> seq<Op> := m => if which(m) then [Gone] else [];
      RecordAll(log);
      SteppedAll(log);
    }

    /** Starts, restarts or leaves alone the loopback of one sink. */
    method ReconcileEntry(mac: Mac, node: string) returns (ghost op: Op)
      requires Inv(LaneOf(mac))
      modifies `speakers, `procs, `clock
      ensures op.Reconcile? && op.node == node && LaneOf(mac) == Step(old(LaneOf(mac)), op)
      ensures old(clock) <= op.now <= clock
      ensures forall m :: m != mac ==> LaneOf(m) == old(LaneOf(m))
    {
      var ok := true;
      if node != "" {
        if SpeakerDead(mac) {
          ok := StartLoopback(mac, node);
        } else if speakers[mac].node != node {
          StopLoopback(mac);
          ok := StartLoopback(mac, node);
        }
      }
      op := Reconcile(node, clock, ok);
    }

    method ReconcileNow(mac: Mac, node: string) returns (ghost op: Op)
      requires Valid() && gate.tick.Some?
      modifies `speakers, `procs, `trace, `clock
      ensures Valid() && clock >= old(clock)
      ensures forall m :: trace(m) == if m == mac then old(trace(m)) + [op] else old(trace(m))
      ensures op.Reconcile? && op.node == node
    {
      Reachable(mac);
      op := ReconcileEntry(mac, node);
      Record(mac, op);
      Stepped(mac);
    }

    method ReconcileOne(mac: Mac, node: string) returns (ghost log: seq<Op>)
      requires Valid() && gate.tick.Some?
      modifies `speakers, `procs, `trace, `clock
      ensures Valid() && clock >= old(clock)
      ensures forall m :: trace(m) == if m == mac then old(trace(m)) + log else old(trace(m))
      ensures IsReconcile(log, node)
    {
      ghost var deaths := Meanwhile(mac);
      ghost var op := ReconcileNow(mac, node);
      OneAction(deaths, op);
      log := deaths + [op];
    }

    method StartNamed(current: map<Mac, string>) returns (ghost log: Mac -> seq<Op>)
      requires Valid() && gate.tick.Some?
      modifies `speakers, `procs, `trace, `clock
      ensures Valid() && clock >= old(clock)
      ensures forall m :: trace(m) == old(trace(m)) + log(m)
      ensures forall m :: if m !in current then log(m) == []
                          else IsReconcile(log(m), current[m])
    {
      log := m => [];
      var todo := current.Keys;
      while todo != {}
        invariant todo <= current.Keys && Valid() && clock >= old(clock)
        invariant forall m :: trace(m) == old(trace(m)) + log(m)
        invariant forall m :: if m !in current.Keys - todo then log(m) == []
                              else IsReconcile(log(m), current[m])
      {
        var mac :| mac in todo;
        ghost var one := ReconcileOne(mac, current[mac]);
        log := Put(log, mac, one);
        todo := todo - {mac};
      }
    }

    /** Records the restart, then stops and starts the loopback. */
    method Refire(mac: Mac, node: string) returns (markAt: int, startAt: int, ok: bool)
      modifies `speakers, `procs, `watchdogRestarts, `clock
      ensures old(clock) <= markAt <= startAt <= clock
      ensures LaneOf(mac) == Start(Stop(old(LaneOf(mac)).(restartedAt := Some(markAt))), node, startAt, ok)
      ensures forall m :: m != mac ==> LaneOf(m) == old(LaneOf(m))
    {
      Elapse();
      markAt := clock;
      watchdogRestarts := watchdogRestarts[mac := markAt];
      StopLoopback(mac);
      ok := StartLoopback(mac, node);
      startAt := clock;
    }

    /** The zombie watchdog on one present speaker. */
    method WatchEntry(mac: Mac, node: string, id: int, bad: map<int, string>) returns (ghost op: Op)
      requires Inv(LaneOf(mac))
      modifies `speakers, `procs, `watchdogRestarts, `clock
      ensures op.Watch? && op.node == node && op.suspect == (id != 0 && id in bad)
      ensures old(clock) <= op.graceAt <= op.cooldownAt <= op.markAt <= op.startAt <= clock
      ensures LaneOf(mac) == Step(old(LaneOf(mac)), op)
      ensures forall m :: m != mac ==> LaneOf(m) == old(LaneOf(m))
    {
      Elapse();
      var graceAt := clock;
      var cooldownAt, markAt, startAt, ok := graceAt, graceAt, graceAt, true;
      if !SpeakerDead(mac) && graceAt - speakers[mac].startedAt >= GRACE && id != 0 {
        Elapse();
        cooldownAt := clock;
        markAt, startAt := cooldownAt, cooldownAt;
        if (mac in watchdogRestarts ==> cooldownAt - watchdogRestarts[mac] >= COOLDOWN) && id in bad {
          markAt, startAt, ok := Refire(mac, node);
        }
      }
      op := Watch(node, id != 0 && id in bad, graceAt, cooldownAt, markAt, startAt, ok);
    }

    method WatchNow(mac: Mac, node: string, id: int, bad: map<int, string>) returns (ghost op: Op)
      requires Valid() && gate.tick.Some?
      modifies `speakers, `procs, `watchdogRestarts, `trace, `clock
      ensures Valid() && clock >= old(clock)
      ensures forall m :: trace(m) == if m == mac then old(trace(m)) + [op] else old(trace(m))
      ensures op.Watch? && op.node == node && op.suspect == (id != 0 && id in bad)
    {
      Reachable(mac);
      op := WatchEntry(mac, node, id, bad);
      Record(mac, op);
      Stepped(mac);
    }

    method WatchOne(mac: Mac, node: string, id: int, bad: map<int, string>) returns (ghost log: seq<Op>)
      requires Valid() && gate.tick.Some?
      modifies `speakers, `procs, `watchdogRestarts, `trace, `clock
      ensures Valid() && clock >= old(clock)
      ensures forall m :: trace(m) == if m == mac then old(trace(m)) + log else old(trace(m))
      ensures IsWatch(log, node, id != 0 && id in bad)
    {
      ghost var deaths := Meanwhile(mac);
      ghost var op := WatchNow(mac, node, id, bad);
      OneAction(deaths, op);
      log := deaths + [op];
    }

    method WatchAll(current: map<Mac, string>, ids: map<Mac, int>, bad: map<int, string>)
      returns (ghost log: Mac -> seq<Op>)
      requires Valid() && gate.tick.Some? && current.Keys == ids.Keys
      modifies `speakers, `procs, `watchdogRestarts, `trace, `clock
      ensures Valid() && clock >= old(clock)
      ensures forall m :: trace(m) == old(trace(m)) + log(m)
      ensures forall m :: if m in current then IsWatch(log(m), current[m], ids[m] != 0 && ids[m] in bad)
                          else log(m) == []
    {
      log := m => [];
      var todo := current.Keys;
      while todo != {}
        invariant todo <= current.Keys && Valid() && clock >= old(clock)
        invariant forall m :: trace(m) == old(trace(m)) + log(m)
        invariant forall m :: if m in current.Keys - todo
                              then IsWatch(log(m), current[m], ids[m] != 0 && ids[m] in bad)
                              else log(m) == []
      {
        var mac :| mac in todo;
        assert old(trace(mac)) + [] == trace(mac);
        ghost var one := WatchOne(mac, current[mac], ids[mac], bad);
        log := Put(log, mac, one);
        todo := todo - {mac};
      }
    }

    method Watchdog(current: map<Mac, string>, ids: map<Mac, int>, links: seq<Link>)
      returns (ghost log: Mac -> seq<Op>)
      requires Valid() && gate.tick.Some? && current.Keys == ids.Keys
      modifies `speakers, `procs, `watchdogRestarts, `trace, `clock
      ensures Valid() && clock >= old(clock)
      ensures forall m :: trace(m) == old(trace(m)) + log(m)
      ensures forall m :: if m in current then IsWatch(log(m), current[m], ids[m] != 0 && Stalled(links, ids[m]))
                          else log(m) == []
    {
      if |links| > 0 {
        var bad := NonActive(links);
        log := WatchAll(current, ids, bad);
      } else {
        log := WatchNothing(current);
      }
    }

    /** No link, no suspect: the watchdog leaves every lane as it is. */
    ghost method WatchNothing(current: map<Mac, string>) returns (log: Mac -> seq<Op>)
      requires Valid() && gate.tick.Some?
      modifies `trace
      ensures Valid()
      ensures forall m :: trace(m) == old(trace(m)) + log(m)
      ensures forall m :: if m in current then IsWatch(log(m), current[m], false) else log(m) == []
    {
      var now := clock;
      log := m => if m in current then [Watch(current[m], false, now, now, now, now, true)] else [];
      RecordAll(log);
      SteppedAll(log);
      forall m | m in current ensures IsWatch(log(m), current[m], false) {
        OneAction([], log(m)[0]);
      }
    }

    /** The four walks of a tick over the maps built from the snapshot. */
    method WalkMaps(current: map<Mac, string>, ids: map<Mac, int>, links: seq<Link>)
      returns (needsSave: bool, ghost log: Mac -> seq<Op>)
      requires Valid() && gate.tick.Some? && current.Keys == ids.Keys
      modifies `speakers, `procs, `known, `watchdogRestarts, `trace, `clock
      ensures Valid() && clock >= old(clock)
      ensures needsSave <==> exists m :: m in current && GetOr(old(known), m, false) == false
      ensures forall m :: trace(m) == old(trace(m)) + log(m)
      ensures forall m :: if m in current
                          then TickActions(Actions(log(m)), Some(current[m]), ids[m] != 0 && Stalled(links, ids[m]))
                          else log(m) == [Gone]
    {
      needsSave := RegisterSeen(current);
      StopGone(current);
      ghost var started := StartNamed(current);
      ghost var watched := Watchdog(current, ids, links);
      log := m => TickOf(m in current, started(m), watched(m));
      forall m ensures trace(m) == old(trace(m)) + log(m) {
        Joined(old(trace(m)), m in current, started(m), watched(m));
      }
      forall m | m in current
        ensures TickActions(Actions(log(m)), Some(current[m]), ids[m] != 0 && Stalled(links, ids[m]))
      {
        TickLog(started(m), watched(m), current[m], ids[m] != 0 && Stalled(links, ids[m]));
      }
    }

    method WalkSnapshot(snap: Snapshot) returns (needsSave: bool, ghost log: Mac -> seq<Op>)
      requires Valid() && gate.tick.Some?
      modifies `speakers, `procs, `known, `watchdogRestarts, `trace, `clock
      ensures Valid() && clock >= old(clock)
      ensures needsSave <==> exists m :: NameFor(snap, m).Some? && GetOr(old(known), m, false) == false
      ensures forall m :: trace(m) == old(trace(m)) + log(m)
      ensures forall m :: TickActions(Actions(log(m)), NameFor(snap, m), Suspect(snap, m))
    {
      var current, ids := IndexNodes(snap.nodes);
      needsSave, log := WalkMaps(current, ids, snap.links);
      assert forall m :: m in current <==> NameFor(snap, m).Some?;
      forall m ensures TickActions(Actions(log(m)), NameFor(snap, m), Suspect(snap, m)) {
        if m !in current {
          OneAction([], Gone);
        }
      }
    }

    /** What the locked part of a tick does; `log` tells what happened to each lane, whatever order the maps
        were walked in. */
    method ApplySnapshot(snap: Snapshot) returns (ghost log: Mac -> seq<Op>)
      requires Valid() && gate.tick.Some?
      modifies `speakers, `procs, `known, `watchdogRestarts, `saveTimer, `trace, `clock
      ensures Valid() && clock >= old(clock)
      ensures forall m :: trace(m) == old(trace(m)) + log(m)
      ensures forall m :: LaneOf(m) == Run(old(LaneOf(m)), log(m))
      ensures forall m :: TickActions(Actions(log(m)), NameFor(snap, m), Suspect(snap, m))
      ensures saveTimer <==> old(saveTimer)
                             || exists m :: NameFor(snap, m).Some? && GetOr(old(known), m, false) == false
      ensures forall m :: Reconciled(old(LaneOf(m)), LaneOf(m), m, snap, log(m))
    {
      forall m ensures Inv(LaneOf(m)) {
        Reachable(m);
      }
      var needsSave;
      needsSave, log := WalkSnapshot(snap);
      if needsSave {
        saveTimer := true;
      }
      forall m
        ensures LaneOf(m) == Run(old(LaneOf(m)), log(m))
        ensures Reconciled(old(LaneOf(m)), LaneOf(m), m, snap, log(m))
      {
        Continues(m);
        assert trace(m)[|old(trace(m))|..] == log(m);
        Converged(old(LaneOf(m)), m, snap, log(m));
      }
    }

    /** The locked part of `tickRouter`, for a tick that passed its pause check in an earlier lock section: it
        runs whatever the paused flag now says. */
    method TickApply(tick: nat, snap: Snapshot) returns (ghost log: Mac -> seq<Op>)
      requires Valid() && tick in gate.inFlight
      modifies `gate, `speakers, `procs, `known, `watchdogRestarts, `saveTimer, `trace, `clock
      ensures Valid() && clock >= old(clock)
      ensures gate == old(gate).(inFlight := old(gate).inFlight - {tick}, tick := Some(tick))
      ensures forall m :: trace(m) == old(trace(m)) + [Begin(tick)] + log(m)
      ensures forall m :: LaneOf(m) == Run(Step(old(LaneOf(m)), Begin(tick)), log(m))
      ensures forall m :: TickActions(Actions(log(m)), NameFor(snap, m), Suspect(snap, m))
      ensures saveTimer <==> old(saveTimer)
                             || exists m :: NameFor(snap, m).Some? && GetOr(old(known), m, false) == false
      ensures forall m :: Reconciled(Step(old(LaneOf(m)), Begin(tick)), LaneOf(m), m, snap, log(m))
    {
      BeginTick(tick);
      log := ApplySnapshot(snap);
    }

    /** A lane ran through what its history gained. */
    twostate lemma Continues(mac: Mac)
      requires old(Valid()) && Valid() && old(trace(mac)) <= trace(mac)
      ensures LaneOf(mac) == Run(old(LaneOf(mac)), trace(mac)[|old(trace(mac))|..])
    {
      assert old(Traced(mac)) && Traced(mac);
      var t := old(trace(mac));
      RunAppend(Origin(mac), t, trace(mac)[|t|..]);
      assert trace(mac) == t + trace(mac)[|t|..];
    }

    // ------------------------------------------------------------- handlers

    /** The locked part of `handleConnect`, once the Bluetooth connection stands. */
    method Connected(mac: Mac)
      requires Valid()
      modifies `speakers, `watchdogRestarts, `trace
      ensures Valid() && LaneOf(mac) == Step(old(LaneOf(mac)), Connect)
      ensures forall m :: trace(m) == if m == mac then old(trace(m)) + [Connect] else old(trace(m))
    {
      if SpeakerDead(mac) {
        speakers := speakers - {mac};
      }
      watchdogRestarts := watchdogRestarts - {mac};
      Record(mac, Connect);
      Stepped(mac);
    }

    method HandleDisconnect(mac: Mac)
      requires Valid()
      modifies `speakers, `procs, `trace
      ensures Valid() && LaneOf(mac) == Step(old(LaneOf(mac)), Disconnect)
      ensures forall m :: trace(m) == if m == mac then old(trace(m)) + [Disconnect] else old(trace(m))
    {
      StopLoopback(mac);
      Record(mac, Disconnect);
      Stepped(mac);
    }

    method SaveStateDebounced()
      modifies `saveTimer
      ensures saveTimer
    {
      saveTimer := true;
    }

    method TriggerSatellitePush()
      modifies `pushSlot
      ensures pushSlot == (old(pushSlot) || satellite)
    {
      if satellite && !pushSlot {
        pushSlot := true;
      }
    }

    /** What every handler does after a change. */
    method SaveAndPush()
      modifies `saveTimer, `pushSlot
      ensures saveTimer && (satellite ==> pushSlot)
    {
      SaveStateDebounced();
      TriggerSatellitePush();
    }

    method DropSettings(mac: Mac)
      modifies `known, `delays, `volumes, `mutes, `watchdogRestarts
      ensures LaneOf(mac) == old(LaneOf(mac)).(known := None, delay := None, volume := None, mute := None,
                                               restartedAt := None)
      ensures mac !in known && mac !in delays && mac !in volumes && mac !in mutes
      ensures forall m :: m != mac ==> LaneOf(m) == old(LaneOf(m))
    {
      known := known - {mac};
      delays := delays - {mac};
      volumes := volumes - {mac};
      mutes := mutes - {mac};
      watchdogRestarts := watchdogRestarts - {mac};
    }

    method ForgetLane(mac: Mac)
      modifies `speakers, `procs, `known, `delays, `volumes, `mutes, `watchdogRestarts
      ensures LaneOf(mac) == Step(old(LaneOf(mac)), Forget)
      ensures mac !in speakers && mac !in known && mac !in delays && mac !in volumes && mac !in mutes
      ensures forall m :: m != mac ==> LaneOf(m) == old(LaneOf(m))
    {
      StopLoopback(mac);
      DropSettings(mac);
    }

    method ForgetNow(mac: Mac)
      requires Valid()
      modifies `speakers, `procs, `known, `delays, `volumes, `mutes, `watchdogRestarts, `trace
      ensures Valid() && LaneOf(mac) == Step(old(LaneOf(mac)), Forget)
      ensures forall m :: trace(m) == if m == mac then old(trace(m)) + [Forget] else old(trace(m))
      ensures mac !in speakers && mac !in known && mac !in delays && mac !in volumes && mac !in mutes
    {
      ForgetLane(mac);
      Record(mac, Forget);
      Stepped(mac);
    }

    method HandleForget(mac: Mac)
      requires Valid()
      modifies `speakers, `procs, `known, `delays, `volumes, `mutes, `watchdogRestarts, `saveTimer, `pushSlot, `trace
      ensures Valid() && LaneOf(mac) == Step(old(LaneOf(mac)), Forget)
      ensures forall m :: trace(m) == if m == mac then old(trace(m)) + [Forget] else old(trace(m))
      ensures mac !in speakers && mac !in known && mac !in delays && mac !in volumes && mac !in mutes
      ensures saveTimer && (satellite ==> pushSlot)
    {
      ForgetNow(mac);
      SaveAndPush();
    }

    method StoreVolume(mac: Mac, level: int)
      requires Valid()
      modifies `volumes, `trace
      ensures Valid() && volumes == old(volumes)[mac := level]
      ensures forall m :: trace(m) == if m == mac then old(trace(m)) + [SetVolume(level)] else old(trace(m))
    {
      volumes := volumes[mac := level];
      Record(mac, SetVolume(level));
      Stepped(mac);
    }

    method StoreMute(mac: Mac, muted: bool)
      requires Valid()
      modifies `mutes, `trace
      ensures Valid() && mutes == old(mutes)[mac := muted]
      ensures forall m :: trace(m) == if m == mac then old(trace(m)) + [SetMute(muted)] else old(trace(m))
    {
      mutes := mutes[mac := muted];
      Record(mac, SetMute(muted));
      Stepped(mac);
    }

    method HandleVolume(mac: Mac, level: int, node: Lookup, applied: bool) returns (status: int)
      requires Valid()
      modifies `volumes, `saveTimer, `pushSlot, `trace
      ensures Valid()
      ensures status == if level < 0 || level > 100 then 400
                        else if node.LookupFailed? then 500
                        else if node.NotFound? then 404
                        else if !applied then 500 else 204
      ensures forall m :: trace(m) == if m == mac && status == 204 then old(trace(m)) + [SetVolume(level)]
                                      else old(trace(m))
      ensures status == 204 ==> Get(volumes, mac) == Some(level) && saveTimer && (satellite ==> pushSlot)
      ensures status != 204 ==> unchanged(this)
    {
      if level < 0 || level > 100 {
        return 400;
      }
      if node.LookupFailed? {
        return 500;
      }
      if node.NotFound? {
        return 404;
      }
      if !applied {
        return 500;
      }
      StoreVolume(mac, level);
      SaveAndPush();
      return 204;
    }

    method HandleMute(mac: Mac, muted: bool, node: Lookup, applied: bool) returns (status: int)
      requires Valid()
      modifies `mutes, `saveTimer, `pushSlot, `trace
      ensures Valid()
      ensures status == if node.LookupFailed? then 500
                        else if node.NotFound? then 404
                        else if !applied then 500 else 204
      ensures forall m :: trace(m) == if m == mac && status == 204 then old(trace(m)) + [SetMute(muted)]
                                      else old(trace(m))
      ensures status == 204 ==> Get(mutes, mac) == Some(muted) && saveTimer && (satellite ==> pushSlot)
      ensures status != 204 ==> unchanged(this)
    {
      if node.LookupFailed? {
        return 500;
      }
      if node.NotFound? {
        return 404;
      }
      if !applied {
        return 500;
      }
      StoreMute(mac, muted);
      SaveAndPush();
      return 204;
    }

    method DelayLane(mac: Mac, ms: int) returns (ghost op: Op)
      modifies `speakers, `procs, `delays, `clock
      ensures op.SetDelay? && op.ms == ms && LaneOf(mac) == Step(old(LaneOf(mac)), op)
      ensures old(clock) <= op.now <= clock
      ensures delays == old(delays)[mac := ms]
      ensures forall m :: m != mac ==> LaneOf(m) == old(LaneOf(m))
    {
      var ok := true;
      delays := delays[mac := ms];
      if mac in speakers {
        var node := speakers[mac].node;
        StopLoopback(mac);
        ok := StartLoopback(mac, node);
      }
      op := SetDelay(ms, clock, ok);
    }

    method DelayNow(mac: Mac, ms: int) returns (ghost op: Op)
      requires Valid()
      modifies `speakers, `procs, `delays, `trace, `clock
      ensures op.SetDelay? && op.ms == ms && LaneOf(mac) == Step(old(LaneOf(mac)), op)
      ensures Valid() && old(clock) <= op.now <= clock
      ensures forall m :: trace(m) == if m == mac then old(trace(m)) + [op] else old(trace(m))
      ensures delays == old(delays)[mac := ms]
      ensures Respawned(old(Get(speakers, mac)), Get(speakers, mac), GetOr(procs, mac, []), op)
    {
      ghost var l := LaneOf(mac);
      op := DelayLane(mac, ms);
      DelayOutcome(l, op);
      Record(mac, op);
      Stepped(mac);
    }

    /** A delay change respawns a tracked loopback at once, paused or not. */
    method HandleDelay(mac: Mac, ms: int) returns (status: int, ghost op: Op)
      requires Valid()
      modifies `speakers, `procs, `delays, `saveTimer, `pushSlot, `trace, `clock
      ensures Valid() && clock >= old(clock)
      ensures status == if ms < 0 || ms > 2000 then 400 else 204
      ensures op.SetDelay? && op.ms == ms
      ensures forall m :: trace(m) == if m == mac && status == 204 then old(trace(m)) + [op] else old(trace(m))
      ensures status == 204 ==> && LaneOf(mac) == Step(old(LaneOf(mac)), op)
                                && saveTimer && (satellite ==> pushSlot)
      ensures status == 204 ==>
                && delays == old(delays)[mac := ms]
                && Respawned(old(Get(speakers, mac)), Get(speakers, mac), GetOr(procs, mac, []), op)
      ensures status != 204 ==> unchanged(this)
    {
      op := SetDelay(ms, clock, true);
      if ms < 0 || ms > 2000 {
        return 400, op;
      }
      op := DelayNow(mac, ms);
      SaveAndPush();
      return 204, op;
    }

    /** `pauseAllLoopbacks`: kills every tracked process and keeps the entries. */
    method PauseAllLoopbacks()
      modifies `procs
      ensures forall m :: LaneOf(m) == KillEntry(old(LaneOf(m)))
    {
      var todo := speakers.Keys;
      while todo != {}
        invariant todo <= speakers.Keys
        invariant forall m :: LaneOf(m) == if m in speakers.Keys - todo then KillEntry(old(LaneOf(m)))
                                           else old(LaneOf(m))
      {
        var mac :| mac in todo;
        KillTracked(mac);
        todo := todo - {mac};
      }
      assert forall m :: m !in speakers ==> LaneOf(m).entry.None?;
    }

    /** `handlePause`, and the first lock section of `handleScan`, which also lists the tracked MACs. */
    method Pause() returns (active: set<Mac>)
      requires Valid()
      modifies `gate, `procs, `trace
      ensures Valid() && gate == old(gate).(paused := true, tick := None) && active == speakers.Keys
      ensures forall m :: trace(m) == old(trace(m)) + [Op.Pause] && LaneOf(m) == Step(old(LaneOf(m)), Op.Pause)
    {
      PauseAllLoopbacks();
      gate := gate.(paused := true, tick := None);
      active := speakers.Keys;
      ghost var log: Mac -> seq<Op> := m => [Op.Pause];
      RecordAll(log);
      SteppedAll(log);
    }

    /** `handleResume` before its tick, and the ways a scan unpauses. */
    method Unpause()
      requires Valid()
      modifies `gate, `trace
      ensures Valid() && gate == old(gate).(paused := false)
      ensures forall m :: trace(m) == old(trace(m)) + [Op.Unpause] && LaneOf(m) == Step(old(LaneOf(m)), Op.Unpause)
    {
      gate := gate.(paused := false);
      ghost var log: Mac -> seq<Op> := m => [Op.Unpause];
      RecordAll(log);
      SteppedAll(log);
    }

    method HandleRestart()
      requires Valid()
      modifies `procs, `watchdogRestarts, `trace
      ensures Valid() && watchdogRestarts == map[]
      ensures forall m :: trace(m) == old(trace(m)) + [Restart] && LaneOf(m) == Step(old(LaneOf(m)), Restart)
    {
      PauseAllLoopbacks();
      watchdogRestarts := map[];
      assert forall m :: LaneOf(m) == Step(old(LaneOf(m)), Restart);
      ghost var log: Mac -> seq<Op> := m => [Restart];
      RecordAll(log);
      SteppedAll(log);
    }

    /** `killAllLoopbacks`, when the router stops for good. */
    method KillAllLoopbacks()
      requires Valid()
      modifies `speakers, `procs, `trace
      ensures Valid() && speakers == map[]
      ensures forall m, i :: !Alive(LaneOf(m), i)
    {
      forall m ensures Inv(LaneOf(m)) {
        Reachable(m);
      }
      StopGone(map[]);
      forall m ensures LaneOf(m).entry.None? && forall i :: !Alive(LaneOf(m), i) {
        Continues(m);
        assert trace(m)[|old(trace(m))|..] == [Gone];
        OneAction([], Gone);
        TickConverges(old(LaneOf(m)), [Gone], None, false);
      }
      assert forall m :: m in speakers ==> LaneOf(m).entry.Some?;
    }

    /** The copy that `saveState` takes: the settings, and the speakers whose loopback is not seen dead. */
    method CopyState() returns (settings: Settings, connected: set<Mac>)
      ensures settings == Settings(delays, volumes, mutes, known)
      ensures forall m :: m in connected <==> !Dead(LaneOf(m))
    {
      settings := Settings(delays, volumes, mutes, known);
      connected := {};
      var todo := speakers.Keys;
      while todo != {}
        invariant todo <= speakers.Keys
        invariant forall m :: m in connected <==> m in speakers.Keys - todo && !Dead(LaneOf(m))
      {
        var mac :| mac in todo;
        if !SpeakerDead(mac) {
          connected := connected + {mac};
        }
        todo := todo - {mac};
      }
      assert forall m :: m !in speakers ==> LaneOf(m).entry.None?;
    }
  }
}
