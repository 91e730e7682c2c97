/** The loopback router seen from one speaker.

    Everything the router keeps is indexed by MAC, and so is every process it spawns.  A `Lane` is the
    slice of that state belonging to one MAC, together with the processes ever spawned for it; an `Op` is
    one thing that happens to a lane inside one lock section, or a process dying on its own.  Class
    `Routers.Router` holds the real maps and shows that each lane is always the result of running its ops. */
module Lanes {
  import opened Options

  const SECOND := 1_000_000_000
  const GRACE := 5 * SECOND
  const COOLDOWN := 30 * SECOND

  /** A pw-loopback process, with what it was spawned with.  `exited` is the kernel's view; `reaped` is
      the closed `dead` channel, the only sign of death that the code can see. */
  datatype Proc = Proc(node: string, delay: int, killed: bool, exited: bool, reaped: bool)

  /** An entry of the `speakers` map; `pid` indexes the lane's processes. */
  datatype Entry = Entry(node: string, pid: nat, startedAt: int)

  /** Pausing, which concerns all lanes alike: the flag, how many ticks passed their pause check so far, which
      of these have not been applied yet, and the one applied last since the last pause.  A tick is named by
      the number of checks that passed before its own. */
  datatype Gate = Gate(paused: bool, checks: nat, inFlight: set<nat>, tick: Option<nat>)

  const OPEN := Gate(false, 0, {}, None)

  datatype Lane = Lane(
    gate: Gate,
    entry: Option<Entry>,
    procs: seq<Proc>,
    delay: Option<int>,
    volume: Option<int>,
    mute: Option<bool>,
    known: Option<bool>,
    restartedAt: Option<int>)

  datatype Op =
    | Register
    | Gone
    | Reconcile(node: string, now: int, ok: bool)
    | Watch(node: string, suspect: bool, graceAt: int, cooldownAt: int, markAt: int, startAt: int, ok: bool)
    | Connect
    | Disconnect
    | Forget
    | SetDelay(ms: int, now: int, ok: bool)
    | SetVolume(level: int)
    | SetMute(muted: bool)
    | Pause
    | Unpause
    | Check
    | Begin(tick: nat)
    | Abandon(tick: nat)
    | Restart
    | Exit(pid: nat)
    | Reap(pid: nat)

  // ---------------------------------------------------------------- one step

  function DelayOf(l: Lane): int {
    if l.delay.Some? then l.delay.value else 0
  }

  function KillAt(procs: seq<Proc>, pid: nat): seq<Proc> {
    if pid < |procs| then procs[pid := procs[pid].(killed := true)] else procs
  }

  predicate Alive(l: Lane, pid: nat) {
    pid < |l.procs| && !l.procs[pid].killed && !l.procs[pid].exited
  }

  predicate ReapedAt(l: Lane, pid: nat) {
    pid < |l.procs| && l.procs[pid].reaped
  }

  /** `speakerDead`: no entry, or the entry's channel is closed. */
  predicate Dead(l: Lane) {
    l.entry.None? || ReapedAt(l, l.entry.value.pid)
  }

  /** `startLoopback`, where `ok` says whether the process could be started. */
  function Start(l: Lane, node: string, now: int, ok: bool): Lane {
    if !ok then l
    else l.(entry := Some(Entry(node, |l.procs|, now)),
            procs := l.procs + [Proc(node, DelayOf(l), false, false, false)])
  }

  /** `stopLoopback`. */
  function Stop(l: Lane): Lane {
    if l.entry.None? then l
    else l.(entry := None, procs := KillAt(l.procs, l.entry.value.pid))
  }

  function KillEntry(l: Lane): Lane {
    if l.entry.None? then l else l.(procs := KillAt(l.procs, l.entry.value.pid))
  }

  /** The watchdog's decision to restart a loopback; `suspect` is a non-active link into a non-zero node. */
  predicate Fires(l: Lane, op: Op) {
    && op.Watch?
    && op.suspect
    && !Dead(l)
    && op.graceAt - l.entry.value.startedAt >= GRACE
    && (l.restartedAt.Some? ==> op.cooldownAt - l.restartedAt.value >= COOLDOWN)
  }

  function GateStep(g: Gate, op: Op): Gate {
    match op
    case Pause => g.(paused := true, tick := None)
    case Unpause => g.(paused := false)
    case Check => if g.paused then g else g.(checks := g.checks + 1, inFlight := g.inFlight + {g.checks})
    case Begin(tick) => g.(inFlight := g.inFlight - {tick}, tick := Some(tick))
    case Abandon(tick) => g.(inFlight := g.inFlight - {tick})
    case _ => g
  }

  function Step(l: Lane, op: Op): Lane {
    match op
    case Register => if l.known == Some(true) then l else l.(known := Some(true))
    case Gone => Stop(l)
    case Reconcile(node, now, ok) =>
      if node == "" then l
      else if Dead(l) then Start(l, node, now, ok)
      else if l.entry.value.node != node then Start(Stop(l), node, now, ok)
      else l
    case Watch(node, _, _, _, markAt, startAt, ok) =>
      if Fires(l, op) then Start(Stop(l.(restartedAt := Some(markAt))), node, startAt, ok) else l
    case Connect => (if Dead(l) then l.(entry := None) else l).(restartedAt := None)
    case Disconnect => Stop(l)
    case Forget => Stop(l).(known := None, delay := None, volume := None, mute := None, restartedAt := None)
    case SetDelay(ms, now, ok) =>
      var changed := l.(delay := Some(ms));
      if l.entry.Some? then Start(Stop(changed), l.entry.value.node, now, ok) else changed
    case SetVolume(level) => l.(volume := Some(level))
    case SetMute(muted) => l.(mute := Some(muted))
    case Pause => KillEntry(l).(gate := GateStep(l.gate, op))
    case Restart => KillEntry(l).(restartedAt := None)
    case Exit(pid) =>
      if pid < |l.procs| then l.(procs := l.procs[pid := l.procs[pid].(exited := true)]) else l
    case Reap(pid) =>
      // cmd.Wait returns only once the process is gone
      if pid < |l.procs| && l.procs[pid].exited
      then l.(procs := l.procs[pid := l.procs[pid].(reaped := true)]) else l
    case _ => l.(gate := GateStep(l.gate, op))
  }

  function Run(l: Lane, ops: seq<Op>): Lane {
    if ops == [] then l else Step(Run(l, ops[..|ops| - 1]), ops[|ops| - 1])
  }

  /** The watchdog reads the clock for its cooldown test before it records the restart. */
  predicate Ordered(op: Op) {
    op.Watch? ==> op.graceAt <= op.cooldownAt <= op.markAt <= op.startAt
  }

  /** The router starts and watches speakers only in a tick, and applies a tick only after its pause check. */
  predicate Allowed(l: Lane, op: Op) {
    && Ordered(op)
    && (op.Begin? ==> op.tick in l.gate.inFlight)
    && (op.Reconcile? || op.Watch? ==> l.gate.tick.Some?)
  }

  predicate Legal(l: Lane, ops: seq<Op>) {
    ops == [] || (Legal(l, ops[..|ops| - 1]) && Allowed(Run(l, ops[..|ops| - 1]), ops[|ops| - 1]))
  }

  /** A lane as `loadState` leaves it: settings of any kind, but no process and no watchdog history. */
  predicate Initial(l: Lane) {
    l.gate == OPEN && l.entry.None? && l.procs == [] && l.restartedAt.None?
  }

  // ------------------------------------------- conservation and delay agreement

  /** No process is orphaned, the tracked one is the newest, and it carries the stored delay. */
  ghost predicate Inv(l: Lane) {
    && (forall i :: Alive(l, i) ==> l.entry.Some? && l.entry.value.pid == i)
    && (forall i :: 0 <= i < |l.procs| && l.procs[i].reaped ==> l.procs[i].exited)
    && (l.entry.Some? ==>
          && l.entry.value.pid == |l.procs| - 1
          && l.procs[l.entry.value.pid].node == l.entry.value.node
          && l.procs[l.entry.value.pid].delay == DelayOf(l))
  }

  lemma StopKeepsInv(l: Lane)
    requires Inv(l)
    ensures Inv(Stop(l)) && Stop(l).entry.None? && |Stop(l).procs| == |l.procs|
    ensures forall i :: !Alive(Stop(l), i)
  {
    forall i ensures !Alive(Stop(l), i) {
      if Alive(Stop(l), i) {
        assert Alive(l, i);
      }
    }
  }

  lemma StartKeepsInv(l: Lane, node: string, now: int, ok: bool)
    requires Inv(l) && forall i :: !Alive(l, i)
    ensures Inv(Start(l, node, now, ok))
  {
    var s := Start(l, node, now, ok);
    assert forall i: nat :: Alive(s, i) && i < |l.procs| ==> Alive(l, i);
  }

  lemma DeadMeansNoneAlive(l: Lane)
    requires Inv(l) && Dead(l)
    ensures forall i :: !Alive(l, i)
  {
  }

  lemma WatchKeepsInv(l: Lane, op: Op)
    requires Inv(l) && Fires(l, op)
    ensures Inv(Step(l, op))
  {
    var marked := l.(restartedAt := Some(op.markAt));
    assert Inv(marked) by { assert forall i :: Alive(marked, i) ==> Alive(l, i); }
    StopKeepsInv(marked);
    StartKeepsInv(Stop(marked), op.node, op.startAt, op.ok);
  }

  lemma SetDelayKeepsInv(l: Lane, op: Op)
    requires Inv(l) && op.SetDelay?
    ensures Inv(Step(l, op))
  {
    StopKeepsInv(l);
    var changed := Stop(l).(delay := Some(op.ms));
    assert Inv(changed) by { assert forall i :: Alive(changed, i) ==> Alive(Stop(l), i); }
    if l.entry.Some? {
      assert Stop(l.(delay := Some(op.ms))) == changed;
      assert forall i :: !Alive(changed, i) by { assert forall i :: Alive(changed, i) ==> Alive(Stop(l), i); }
      StartKeepsInv(changed, l.entry.value.node, op.now, op.ok);
    }
  }

  lemma ReconcileKeepsInv(l: Lane, op: Op)
    requires Inv(l) && op.Reconcile? && op.node != ""
    ensures Inv(Step(l, op))
  {
    if Dead(l) {
      DeadMeansNoneAlive(l);
      StartKeepsInv(l, op.node, op.now, op.ok);
    } else if l.entry.value.node != op.node {
      StopKeepsInv(l);
      StartKeepsInv(Stop(l), op.node, op.now, op.ok);
    }
  }

  predicate Starts(op: Op) {
    op.Reconcile? || op.Watch? || op.SetDelay?
  }

  /** An operation that starts nothing brings nothing to life. */
  lemma QuietKeepsInv(l: Lane, op: Op)
    requires Inv(l) && !Starts(op) && !op.Gone? && !op.Disconnect? && !op.Forget?
    ensures Inv(Step(l, op))
  {
    if op.Connect? && Dead(l) {
      DeadMeansNoneAlive(l);
    }
    assert forall i :: Alive(Step(l, op), i) ==> Alive(l, i);
  }

  lemma StepKeepsInv(l: Lane, op: Op)
    requires Inv(l)
    ensures Inv(Step(l, op))
  {
    match op
    case Reconcile(node, _, _) =>
      if node != "" {
        ReconcileKeepsInv(l, op);
      }
    case Watch(_, _, _, _, _, _, _) =>
      if Fires(l, op) {
        WatchKeepsInv(l, op);
      }
    case SetDelay(_, _, _) => SetDelayKeepsInv(l, op);
    case Gone => StopKeepsInv(l);
    case Disconnect => StopKeepsInv(l);
    case Forget =>
      StopKeepsInv(l);
      assert forall i :: Alive(Step(l, op), i) ==> Alive(Stop(l), i);
    case _ => QuietKeepsInv(l, op);
  }

  /** Over every run of ticks, handlers and deaths: at most one process per MAC is neither killed nor
      exited, it is the tracked one, and the tracked process was spawned with the delay now stored. */
  lemma {:induction false} Conservation(l: Lane, ops: seq<Op>)
    requires Initial(l)
    ensures Inv(Run(l, ops))
  {
    if ops != [] {
      Conservation(l, ops[..|ops| - 1]);
      StepKeepsInv(Run(l, ops[..|ops| - 1]), ops[|ops| - 1]);
    }
  }

  // --------------------------------------------------------------------- pausing

  /** A delay change that respawns the loopback of a tracked speaker. */
  predicate DelaySpawns(l: Lane, op: Op) {
    op.SetDelay? && op.ok && l.entry.Some?
  }

  /** A step of tick t that starts or restarts the loopback. */
  predicate TickSpawns(l: Lane, op: Op, t: nat) {
    && l.gate.tick == Some(t)
    && match op
       case Reconcile(node, _, ok) => ok && node != "" && (Dead(l) || l.entry.value.node != node)
       case Watch(_, _, _, _, _, _, ok) => ok && Fires(l, op)
       case _ => false
  }

  /** The states of a legal history. */
  ghost predicate IsPath(states: seq<Lane>, ops: seq<Op>) {
    && |states| == |ops| + 1
    && Initial(states[0])
    && forall i :: 0 <= i < |ops| ==> Allowed(states[i], ops[i]) && states[i + 1] == Step(states[i], ops[i])
  }

  function Path(l: Lane, ops: seq<Op>): (states: seq<Lane>)
    ensures |states| == |ops| + 1
  {
    if ops == [] then [l]
    else
      var front := Path(l, ops[..|ops| - 1]);
      front + [Step(front[|ops| - 1], ops[|ops| - 1])]
  }

  lemma {:induction false} PathEnds(l: Lane, ops: seq<Op>)
    ensures Path(l, ops)[|ops|] == Run(l, ops)
  {
    if ops != [] {
      PathEnds(l, ops[..|ops| - 1]);
    }
  }

  lemma {:induction false} LegalPath(l: Lane, ops: seq<Op>)
    requires Initial(l) && Legal(l, ops)
    ensures IsPath(Path(l, ops), ops)
  {
    if ops != [] {
      var front := ops[..|ops| - 1];
      LegalPath(l, front);
      PathEnds(l, front);
      assert forall i :: 0 <= i < |front| ==> ops[i] == front[i];
    }
  }

  lemma {:induction false} PathKeepsInv(states: seq<Lane>, ops: seq<Op>, k: nat)
    requires IsPath(states, ops) && k <= |ops|
    ensures Inv(states[k])
  {
    if k > 0 {
      PathKeepsInv(states, ops, k - 1);
      StepKeepsInv(states[k - 1], ops[k - 1]);
    }
  }

  /** Tick t passed its pause check at some step before p. */
  ghost predicate CheckedBefore(states: seq<Lane>, ops: seq<Op>, p: nat, t: nat)
    requires p <= |ops| < |states|
  {
    exists c :: 0 <= c < p && ops[c].Check? && !states[c].gate.paused && states[c].gate.checks == t
  }

  lemma StepGate(l: Lane, op: Op)
    ensures Step(l, op).gate == GateStep(l.gate, op)
  {
  }

  lemma {:induction false} TicketsOld(l: Lane, ops: seq<Op>)
    requires Initial(l)
    ensures forall t :: t in Run(l, ops).gate.inFlight ==> t < Run(l, ops).gate.checks
  {
    if ops != [] {
      TicketsOld(l, ops[..|ops| - 1]);
      StepGate(Run(l, ops[..|ops| - 1]), ops[|ops| - 1]);
    }
  }

  lemma {:induction false} InFlightChecked(states: seq<Lane>, ops: seq<Op>, k: nat)
    requires IsPath(states, ops) && k <= |ops|
    ensures forall t :: t in states[k].gate.inFlight ==> CheckedBefore(states, ops, k, t)
  {
    if k > 0 {
      InFlightChecked(states, ops, k - 1);
      StepGate(states[k - 1], ops[k - 1]);
      forall t | t in states[k].gate.inFlight ensures CheckedBefore(states, ops, k, t) {
        if t in states[k - 1].gate.inFlight {
          assert CheckedBefore(states, ops, k - 1, t);
        }
      }
    }
  }

  /** While paused no check passes: what is applied was in flight at the pause. */
  lemma {:induction false} GateClosed(states: seq<Lane>, ops: seq<Op>, p: nat, k: nat)
    requires IsPath(states, ops) && p < k <= |ops| && ops[p].Pause? && forall j :: p < j < k ==> !ops[j].Unpause?
    ensures var g, at := states[k].gate, states[p].gate;
            g.paused && g.inFlight <= at.inFlight && (g.tick.Some? ==> g.tick.value in at.inFlight)
  {
    StepGate(states[k - 1], ops[k - 1]);
    if p < k - 1 {
      GateClosed(states, ops, p, k - 1);
      assert Allowed(states[k - 1], ops[k - 1]);
    }
  }

  /** Every process before the n-th is dead. */
  ghost predicate DeadBelow(l: Lane, n: nat) {
    n <= |l.procs| && forall i :: Alive(l, i) ==> n <= i
  }

  lemma StepDeadBelow(l: Lane, op: Op, n: nat)
    requires DeadBelow(l, n)
    ensures DeadBelow(Step(l, op), n)
  {
    var m := Step(l, op);
    forall i: nat | Alive(m, i) ensures n <= i {
      if i < |l.procs| {
        assert Alive(l, i);
      }
    }
  }

  lemma PauseKills(l: Lane)
    requires Inv(l)
    ensures DeadBelow(Step(l, Pause), |l.procs|)
  {
    forall i ensures !Alive(Step(l, Pause), i) {
      if Alive(Step(l, Pause), i) {
        assert Alive(l, i);
      }
    }
  }

  /** Whatever is alive while paused was spawned since the pause. */
  lemma {:induction false} AliveSincePause(states: seq<Lane>, ops: seq<Op>, p: nat, k: nat)
    requires IsPath(states, ops) && p < k <= |ops| && ops[p].Pause?
    ensures DeadBelow(states[k], |states[p].procs|)
  {
    if p < k - 1 {
      AliveSincePause(states, ops, p, k - 1);
      StepDeadBelow(states[k - 1], ops[k - 1], |states[p].procs|);
    } else {
      PathKeepsInv(states, ops, p);
      PauseKills(states[p]);
    }
  }

  lemma SpawnsExactly(l: Lane, op: Op)
    requires Allowed(l, op)
    ensures |Step(l, op).procs| >= |l.procs|
    ensures |Step(l, op).procs| > |l.procs| <==> DelaySpawns(l, op) || exists t :: TickSpawns(l, op, t)
  {
    if l.gate.tick.Some? {
      assert TickSpawns(l, op, l.gate.tick.value) || !exists t :: TickSpawns(l, op, t);
    }
  }

  /** From a pause to the next unpause, in every run: a process is spawned if and only if a delay change hits
      a tracked speaker or a tick whose check preceded the pause fires one of its guards, and the process
      can be started; whatever is alive was spawned since the pause. */
  lemma AfterPause(states: seq<Lane>, ops: seq<Op>, p: nat, k: nat)
    requires IsPath(states, ops)
    requires p < k < |ops| && ops[p].Pause? && forall j :: p < j < k ==> !ops[j].Unpause?
    ensures |states[k + 1].procs| > |states[k].procs| <==>
              || DelaySpawns(states[k], ops[k])
              || exists t :: TickSpawns(states[k], ops[k], t) && CheckedBefore(states, ops, p, t)
    ensures forall i :: Alive(states[k], i) ==> |states[p].procs| <= i
  {
    SpawnsExactly(states[k], ops[k]);
    GateClosed(states, ops, p, k);
    InFlightChecked(states, ops, p);
    AliveSincePause(states, ops, p, k);
  }

  /** So nothing is alive until the next unpause if no tick was in flight and no delay is changed. */
  lemma {:induction false} PauseHolds(states: seq<Lane>, ops: seq<Op>, p: nat, k: nat)
    requires IsPath(states, ops) && p < k <= |ops| && states[p].gate.inFlight == {}
    requires ops[p].Pause? && forall j :: p < j < k ==> !ops[j].Unpause? && !ops[j].SetDelay?
    ensures |states[k].procs| == |states[p].procs| && forall i :: !Alive(states[k], i)
  {
    SpawnsExactly(states[k - 1], ops[k - 1]);
    if p < k - 1 {
      PauseHolds(states, ops, p, k - 1);
      GateClosed(states, ops, p, k - 1);
    }
    AliveSincePause(states, ops, p, k);
  }

  lemma Extend(states: seq<Lane>, ops: seq<Op>, op: Op) returns (next: Lane, more: seq<Lane>, taken: seq<Op>)
    requires IsPath(states, ops) && Allowed(states[|ops|], op)
    ensures next == Step(states[|ops|], op)
    ensures more == states + [next] && taken == ops + [op] && IsPath(more, taken)
  {
    next := Step(states[|ops|], op);
    more, taken := states + [next], ops + [op];
  }

  /** A tick that passed its pause check just before the pause starts a loopback after it. */
  lemma TickAfterPause(l: Lane, name: string, now: int) returns (states: seq<Lane>, ops: seq<Op>)
    requires Initial(l) && name != ""
    ensures IsPath(states, ops) && states[0] == l && |ops| == 5 && ops[..3] == [Check, Pause, Begin(0)]
    ensures states[5].gate.paused && Alive(states[5], 0)
  {
    var s := l;
    states, ops := [l], [];
    s, states, ops := Extend(states, ops, Check);
    s, states, ops := Extend(states, ops, Pause);
    s, states, ops := Extend(states, ops, Begin(0));
    s, states, ops := Extend(states, ops, Register);
    s, states, ops := Extend(states, ops, Reconcile(name, now, true));
  }

  // ----------------------------------------------------------------- empty names

  /** The watchdog restarts a live loopback for a sink that has no name yet. */
  predicate NamelessFire(l: Lane, op: Op) {
    Fires(l, op) && op.node == "" && op.ok
  }

  ghost predicate HasNameless(l: Lane) {
    exists i :: 0 <= i < |l.procs| && l.procs[i].node == ""
  }

  lemma NodesStay(l: Lane, op: Op)
    ensures |l.procs| <= |Step(l, op).procs| <= |l.procs| + 1
    ensures forall i :: 0 <= i < |l.procs| ==> Step(l, op).procs[i].node == l.procs[i].node
  {
  }

  lemma SpawnedNode(l: Lane, op: Op)
    requires |Step(l, op).procs| > |l.procs|
    ensures Step(l, op).procs[|l.procs|].node == if op.SetDelay? && l.entry.Some? then l.entry.value.node
                                                 else if op.Watch? || op.Reconcile? then op.node else ""
    ensures op.SetDelay? ==> l.entry.Some?
    ensures op.Watch? || op.SetDelay? || (op.Reconcile? && op.node != "")
  {
  }

  lemma NamelessStep(l: Lane, op: Op)
    requires Inv(l)
    ensures HasNameless(Step(l, op)) <==> HasNameless(l) || NamelessFire(l, op)
  {
    var m := Step(l, op);
    NodesStay(l, op);
    if |m.procs| > |l.procs| {
      SpawnedNode(l, op);
      assert op.SetDelay? ==> m.procs[|l.procs|].node == l.procs[l.entry.value.pid].node;
      assert m.procs[|l.procs|].node == "" ==> HasNameless(m);
    }
  }

  /** The start loop skips sinks without a name; the watchdog does not.  In every run, a loopback is ever
      spawned for the empty name if and only if the watchdog restarts one for a sink without a name. */
  lemma {:induction false} NamelessExactly(states: seq<Lane>, ops: seq<Op>, k: nat)
    requires IsPath(states, ops) && k <= |ops|
    ensures HasNameless(states[k]) <==> exists j :: 0 <= j < k && NamelessFire(states[j], ops[j])
  {
    if k > 0 {
      NamelessExactly(states, ops, k - 1);
      PathKeepsInv(states, ops, k - 1);
      NamelessStep(states[k - 1], ops[k - 1]);
    }
  }

  // ------------------------------------------------------------------ the tick

  predicate Dying(op: Op) {
    op.Exit? || op.Reap?
  }

  /** What the router did, without the deaths that happened in between. */
  function Actions(ops: seq<Op>): seq<Op> {
    if ops == [] then []
    else
      var rest := Actions(ops[..|ops| - 1]);
      if Dying(ops[|ops| - 1]) then rest else rest + [ops[|ops| - 1]]
  }

  /** What one tick does to the lane of a MAC that the snapshot binds to `node` (None: not present). */
  predicate TickActions(acts: seq<Op>, node: Option<string>, suspect: bool) {
    match node
    case None => acts == [Gone]
    case Some(name) =>
      && |acts| == 3
      && acts[0] == Register
      && acts[1].Reconcile? && acts[1].node == name
      && acts[2].Watch? && acts[2].node == name && acts[2].suspect == suspect
  }

  lemma {:induction false} RunAppend(l: Lane, a: seq<Op>, b: seq<Op>)
    ensures Run(l, a + b) == Run(Run(l, a), b)
  {
    if b == [] {
      assert a + b == a;
    } else {
      RunAppend(l, a, b[..|b| - 1]);
      assert (a + b)[..|a + b| - 1] == a + b[..|b| - 1];
    }
  }

  lemma RunSlice(l: Lane, ops: seq<Op>, i: nat, j: nat)
    requires i <= j <= |ops|
    ensures Run(l, ops[..j]) == Run(Run(l, ops[..i]), ops[i..j])
  {
    RunAppend(l, ops[..i], ops[i..j]);
    assert ops[..i] + ops[i..j] == ops[..j];
  }

  lemma {:induction false} ActionsAppend(a: seq<Op>, b: seq<Op>)
    ensures Actions(a + b) == Actions(a) + Actions(b)
  {
    if b == [] {
      assert a + b == a;
    } else {
      ActionsAppend(a, b[..|b| - 1]);
      assert (a + b)[..|a + b| - 1] == a + b[..|b| - 1];
    }
  }

  /** The lane differs only by processes that died meanwhile. */
  ghost predicate Aged(l: Lane, m: Lane) {
    && m == l.(procs := m.procs)
    && |m.procs| == |l.procs|
    && forall i :: 0 <= i < |l.procs| ==>
                     && m.procs[i] == l.procs[i].(exited := m.procs[i].exited, reaped := m.procs[i].reaped)
                     && (l.procs[i].exited ==> m.procs[i].exited)
                     && (l.procs[i].reaped ==> m.procs[i].reaped)
  }

  lemma DyingAges(l: Lane, m: Lane, op: Op)
    requires Aged(l, m) && Dying(op)
    ensures Aged(l, Step(m, op))
  {
  }

  /** Peels the last action off a log: everything after it is deaths. */
  lemma {:induction false} LastAction(l: Lane, ops: seq<Op>) returns (before: seq<Op>)
    requires Actions(ops) != []
    ensures before < ops && ops[|before|] == Actions(ops)[|Actions(ops)| - 1]
    ensures var acts := Actions(ops);
            && Actions(before) == acts[..|acts| - 1]
            && Aged(Step(Run(l, before), acts[|acts| - 1]), Run(l, ops))
  {
    var last := ops[|ops| - 1];
    if Dying(last) {
      before := LastAction(l, ops[..|ops| - 1]);
      var acts := Actions(ops);
      DyingAges(Step(Run(l, before), acts[|acts| - 1]), Run(l, ops[..|ops| - 1]), last);
    } else {
      before := ops[..|ops| - 1];
    }
  }

  lemma {:induction false} OnlyDeaths(l: Lane, ops: seq<Op>)
    requires Actions(ops) == []
    ensures Aged(l, Run(l, ops))
  {
    if ops != [] {
      OnlyDeaths(l, ops[..|ops| - 1]);
      DyingAges(l, Run(l, ops[..|ops| - 1]), ops[|ops| - 1]);
    }
  }

  lemma {:induction false} RunKeepsInv(l: Lane, ops: seq<Op>)
    requires Inv(l)
    ensures Inv(Run(l, ops))
  {
    if ops != [] {
      RunKeepsInv(l, ops[..|ops| - 1]);
      StepKeepsInv(Run(l, ops[..|ops| - 1]), ops[|ops| - 1]);
    }
  }

  /** Spawned since `l`, or tracked by `l` already and not seen dead then. */
  predicate NotSeenDead(l: Lane, e: Entry) {
    e.pid >= |l.procs| || (l.entry == Some(e) && !ReapedAt(l, e.pid))
  }

  predicate Bound(l: Lane, m: Lane, name: string) {
    m.known == Some(true) && m.entry.Some? && m.entry.value.node == name && NotSeenDead(l, m.entry.value)
  }

  /** Bound, by an entry that was not seen dead when the start loop looked at the speaker. */
  ghost predicate BoundAtLook(l: Lane, log: seq<Op>, m: Lane, name: string) {
    exists n :: 0 <= n < |log| && log[n].Reconcile? && Bound(Run(l, log[..n]), m, name)
  }

  lemma ReconcileConverges(look: Lane, op: Op)
    requires Inv(look) && look.known == Some(true) && op.Reconcile?
    ensures var m := Step(look, op);
            m.known == Some(true) && |m.procs| >= |look.procs| && (op.node != "" && op.ok ==> Bound(look, m, op.node))
  {
  }

  lemma WatchConverges(look: Lane, before: Lane, op: Op)
    requires Inv(before) && op.Watch? && before.known == Some(true) && |before.procs| >= |look.procs|
    ensures var m := Step(before, op);
            m.known == Some(true) && (op.ok && Bound(look, before, op.node) ==> Bound(look, m, op.node))
  {
  }

  lemma TickGone(l: Lane, log: seq<Op>)
    requires Inv(l) && Actions(log) == [Gone]
    ensures Run(l, log).entry.None? && forall i :: !Alive(Run(l, log), i)
  {
    var before := LastAction(l, log);
    RunKeepsInv(l, before);
    StopKeepsInv(Run(l, before));
    assert forall i :: Alive(Run(l, log), i) ==> Alive(Stop(Run(l, before)), i);
  }

  /** The three looks of a tick at a present speaker, from the log. */
  lemma TickLooks(l: Lane, log: seq<Op>) returns (look: seq<Op>, watch: seq<Op>)
    requires |Actions(log)| == 3 && Actions(log)[0] == Register
    ensures look < log && log[|look|] == Actions(log)[1]
    ensures Run(l, look).known == Some(true)
    ensures Aged(Step(Run(l, look), Actions(log)[1]), Run(l, watch))
    ensures Aged(Step(Run(l, watch), Actions(log)[2]), Run(l, log))
  {
    watch := LastAction(l, log);
    look := LastAction(l, watch);
    var start := LastAction(l, look);
    assert log[..|look|] == look && log[|look|] == watch[|look|];
  }

  /** One tick, whatever dies while it runs, drives the lane to what the snapshot says. */
  lemma TickConverges(l: Lane, log: seq<Op>, node: Option<string>, suspect: bool)
    requires Inv(l)
    requires TickActions(Actions(log), node, suspect)
    ensures var m := Run(l, log);
            match node
            case None => m.entry.None? && forall i :: !Alive(m, i)
            case Some(name) =>
              && m.known == Some(true)
              && (name != "" && Actions(log)[1].ok && Actions(log)[2].ok ==> BoundAtLook(l, log, m, name))
  {
    if node.None? {
      TickGone(l, log);
    } else {
      var look, watch := TickLooks(l, log);
      RunKeepsInv(l, look);
      RunKeepsInv(l, watch);
      ReconcileConverges(Run(l, look), Actions(log)[1]);
      WatchConverges(Run(l, look), Run(l, watch), Actions(log)[2]);
      assert log[..|look|] == look;
    }
  }

  /** A whole tick in one instant in which nothing dies. */
  function InstantTick(name: string, suspect: bool, now: int, okStart: bool, okWatch: bool): seq<Op> {
    [Register, Reconcile(name, now, okStart), Watch(name, suspect, now, now, now, now, okWatch)]
  }

  lemma RunThree(l: Lane, a: Op, b: Op, c: Op)
    ensures Run(l, [a, b, c]) == Step(Step(Step(l, a), b), c)
  {
    assert [a, b, c][..2] == [a, b];
    assert [a, b][..1] == [a];
    assert [a][..0] == [];
    assert Run(l, [a]) == Step(l, a);
    assert Run(l, [a, b]) == Step(Step(l, a), b);
  }

  /** Checks, begins and abandoned ticks, and the end of a pause. */
  predicate AtGate(op: Op) {
    op.Check? || op.Begin? || op.Abandon? || op.Unpause?
  }

  lemma {:induction false} GateOnly(l: Lane, ops: seq<Op>)
    requires forall op :: op in ops ==> AtGate(op)
    ensures Run(l, ops) == l.(gate := Run(l, ops).gate)
  {
    if ops != [] {
      GateOnly(l, ops[..|ops| - 1]);
      assert ops[|ops| - 1] in ops;
    }
  }

  /** A tick whose spawns succeed is a fixed point at its own instant: repeated on the same snapshot, at
      the same time and with nothing dying, after its own check and begin, it changes nothing at all, whether
      or not spawns would work; nor does a tick for which the MAC is absent. */
  lemma TickIdempotent(l: Lane, name: string, suspect: bool, now: int, gates: seq<Op>, ok1: bool, ok2: bool)
    requires Inv(l) && forall op :: op in gates ==> AtGate(op)
    ensures var m := Run(Run(l, InstantTick(name, suspect, now, true, true)), gates);
            Run(m, InstantTick(name, suspect, now, ok1, ok2)) == m
    ensures var m := Run(Step(l, Gone), gates); Step(m, Gone) == m
  {
    RunThree(l, Register, Reconcile(name, now, true), Watch(name, suspect, now, now, now, now, true));
    var first := Run(l, InstantTick(name, suspect, now, true, true));
    GateOnly(first, gates);
    TickRepeated(l, name, suspect, now, Run(first, gates).gate, ok1, ok2);
    RunThree(Run(first, gates), Register, Reconcile(name, now, ok1), Watch(name, suspect, now, now, now, now, ok2));
    GateOnly(Step(l, Gone), gates);
  }

  lemma TickRepeated(l: Lane, name: string, suspect: bool, now: int, g: Gate, ok1: bool, ok2: bool)
    requires Inv(l)
    ensures var looked := Step(Step(l, Register), Reconcile(name, now, true));
            var m := Step(looked, Watch(name, suspect, now, now, now, now, true)).(gate := g);
            && Step(m, Register) == m == Step(m, Reconcile(name, now, ok1))
            && Step(m, Watch(name, suspect, now, now, now, now, ok2)) == m
  {
  }

  predicate Settled(l: Lane, name: string) {
    && name != ""
    && l.known == Some(true)
    && !Dead(l)
    && l.entry.value.node == name
  }

  /** What ticks do to a speaker that the snapshot binds to `name` and whose links are all active, including
      what happens at the gate between them. */
  predicate QuietOp(op: Op, name: string) {
    || AtGate(op)
    || op.Register?
    || (op.Reconcile? && op.node == name)
    || (op.Watch? && op.node == name && !op.suspect)
  }

  /** The death of a process that is no longer tracked. */
  predicate OldDeath(l: Lane, op: Op) {
    Dying(op) && l.entry.Some? && op.pid != l.entry.value.pid
  }

  lemma QuietStep(l: Lane, op: Op, name: string)
    requires Settled(l, name) && (QuietOp(op, name) || OldDeath(l, op))
    ensures Aged(l.(gate := Step(l, op).gate), Step(l, op)) && Settled(Step(l, op), name)
  {
  }

  lemma AgedTwice(l: Lane, m: Lane, n: Lane)
    requires Aged(l.(gate := m.gate), m) && Aged(m.(gate := n.gate), n)
    ensures Aged(l.(gate := n.gate), n)
  {
  }

  /** Once settled, no history of ticks on snapshots whose links are all active and whose sink keeps its name
      ever spawns or kills again, at whatever times, however their checks and begins interleave, as long as
      the tracked process does not die: entry and settings stay, and old processes only die. */
  lemma {:induction false} QuietForever(l: Lane, name: string, ops: seq<Op>)
    requires Settled(l, name)
    requires forall op :: op in ops ==> QuietOp(op, name) || OldDeath(l, op)
    ensures Aged(l.(gate := Run(l, ops).gate), Run(l, ops)) && Settled(Run(l, ops), name)
  {
    if ops != [] {
      var m := Run(l, ops[..|ops| - 1]);
      QuietForever(l, name, ops[..|ops| - 1]);
      assert ops[|ops| - 1] in ops;
      QuietStep(m, ops[|ops| - 1], name);
      AgedTwice(l, m, Run(l, ops));
    }
  }

  lemma {:induction false} ActionOrDeath(log: seq<Op>, op: Op)
    requires op in log
    ensures Dying(op) || op in Actions(log)
  {
    if op != log[|log| - 1] {
      var k :| 0 <= k < |log| && log[k] == op;
      assert log[..|log| - 1][k] == op;
      ActionOrDeath(log[..|log| - 1], op);
    }
  }

  /** A tick's log on such a snapshot consists of such operations, and deaths. */
  lemma TickIsQuiet(log: seq<Op>, name: string)
    requires TickActions(Actions(log), Some(name), false)
    ensures forall op :: op in log ==> QuietOp(op, name) || Dying(op)
  {
    forall op | op in log ensures QuietOp(op, name) || Dying(op) {
      ActionOrDeath(log, op);
    }
  }

  /** The first tick settles: with the lemma above, at most one tick of a quiet run acts. */
  lemma TickSettles(l: Lane, tick: seq<Op>, name: string)
    requires Inv(l) && name != "" && TickActions(tick, Some(name), false) && tick[1].ok
    ensures Settled(Run(l, tick), name)
  {
    assert tick == [tick[0], tick[1], tick[2]];
    RunThree(l, tick[0], tick[1], tick[2]);
  }

  // ------------------------------------------------------- what each step comes to

  /** The tracked process of `l` has been killed, and no other process has changed. */
  ghost predicate KilledOnly(l: Lane, procs: seq<Proc>) {
    && |procs| == |l.procs|
    && forall i :: 0 <= i < |procs| ==>
         procs[i] == if l.entry.Some? && i == l.entry.value.pid then l.procs[i].(killed := true) else l.procs[i]
  }

  /** The watchdog restarts a loopback if and only if a link of its sink is not active, its process was not
      seen dead, it was started 5 seconds ago or earlier, and no restart was recorded in the last 30 seconds:
      then the old process is killed and the restart recorded, whether or not a new one can be started. */
  lemma WatchdogExactly(l: Lane, op: Op)
    requires op.Watch?
    ensures var m := Step(l, op);
            var fires := && op.suspect && l.entry.Some? && !ReapedAt(l, l.entry.value.pid)
                         && op.graceAt - l.entry.value.startedAt >= 5_000_000_000
                         && (l.restartedAt.None? || op.cooldownAt - l.restartedAt.value >= 30_000_000_000);
            && (|m.procs| > |l.procs| <==> fires && op.ok)
            && (fires ==> m.restartedAt == Some(op.markAt) && KilledOnly(l, m.procs[..|l.procs|]))
            && (!fires ==> m == l)
  {
    if Fires(l, op) {
      assert Step(l, op).procs[..|l.procs|] == Stop(l).procs;
    }
  }

  /** The start loop starts a loopback if and only if the sink is named and its speaker has no entry, was seen
      dead, or is bound to another node, whose process it then kills; else it leaves everything. */
  lemma ReconcileExactly(l: Lane, op: Op)
    requires op.Reconcile?
    ensures var m := Step(l, op);
            var dead := l.entry.None? || ReapedAt(l, l.entry.value.pid);
            var moved := !dead && l.entry.value.node != op.node;
            && (|m.procs| > |l.procs| <==> op.ok && op.node != "" && (dead || moved))
            && (op.node == "" || !(dead || moved) ==> m == l)
            && (op.node != "" && dead ==> m.procs[..|l.procs|] == l.procs)
            && (op.node != "" && moved ==> KilledOnly(l, m.procs[..|l.procs|]))
  {
    var m := Step(l, op);
    if op.node != "" && !Dead(l) && l.entry.value.node != op.node {
      assert m.procs[..|l.procs|] == Stop(l).procs;
    }
  }

  /** Whatever spawns a process gives it the node asked for and the delay now stored, and makes it the entry,
      started at the instant of the spawn. */
  lemma SpawnedProcess(l: Lane, op: Op)
    requires |Step(l, op).procs| > |l.procs|
    ensures var m := Step(l, op);
            && |m.procs| == |l.procs| + 1 && m.entry.Some? && m.entry.value.pid == |l.procs|
            && m.procs[|l.procs|] == Proc(m.entry.value.node, if m.delay.Some? then m.delay.value else 0,
                                          false, false, false)
            && match op
               case Reconcile(node, now, _) => m.entry.value.node == node && m.entry.value.startedAt == now
               case Watch(node, _, _, _, _, startAt, _) =>
                 m.entry.value.node == node && m.entry.value.startedAt == startAt
               case SetDelay(ms, now, _) =>
                 && l.entry.Some? && m.entry.value.node == l.entry.value.node
                 && m.entry.value.startedAt == now && m.delay == Some(ms)
               case _ => false
  {
  }

  /** A delay change stores the delay, and restarts the loopback of a tracked speaker and no other. */
  lemma DelayExactly(l: Lane, ms: int, now: int, ok: bool)
    ensures var m := Step(l, SetDelay(ms, now, ok));
            && m.delay == Some(ms)
            && (|m.procs| > |l.procs| <==> ok && l.entry.Some?)
            && KilledOnly(l, m.procs[..|l.procs|])
            && m == l.(delay := Some(ms), entry := m.entry, procs := m.procs)
  {
    var m := Step(l, SetDelay(ms, now, ok));
    assert m.procs[..|l.procs|] == Stop(l).procs;
  }

  /** Leaving stops the loopback and forgets nothing else; forgetting also drops every setting and the
      cooldown; pausing and a manual restart kill and keep the entry, and a manual restart clears the
      cooldown. */
  lemma StopsExactly(l: Lane, op: Op)
    requires op.Gone? || op.Disconnect? || op.Forget? || op.Pause? || op.Restart?
    ensures KilledOnly(l, Step(l, op).procs)
    ensures var m := Step(l, op);
            match op
            case Forget => m == Lane(l.gate, None, m.procs, None, None, None, None, None)
            case Pause => m == l.(procs := m.procs, gate := m.gate) && m.gate.paused
            case Restart => m == l.(procs := m.procs, restartedAt := None)
            case _ => m == l.(procs := m.procs, entry := None)
  {
  }

  /** Connecting clears the cooldown and a dead entry, and touches neither a live one nor any process. */
  lemma ConnectExactly(l: Lane)
    ensures var m := Step(l, Connect);
            && m.restartedAt == None && m == l.(restartedAt := None, entry := m.entry)
            && (m.entry.Some? <==> l.entry.Some? && !ReapedAt(l, l.entry.value.pid))
            && (m.entry.Some? ==> m.entry == l.entry)
  {
  }

  /** A process exits on its own, and its channel closes only once it has; nothing else changes. */
  lemma DeathExactly(l: Lane, op: Op)
    requires Dying(op)
    ensures var m := Step(l, op);
            && m == l.(procs := m.procs) && |m.procs| == |l.procs|
            && forall i :: 0 <= i < |l.procs| ==>
                 m.procs[i] == if i != op.pid then l.procs[i]
                               else if op.Exit? then l.procs[i].(exited := true)
                               else l.procs[i].(reaped := l.procs[i].reaped || l.procs[i].exited)
  {
  }

  /** The cooldown was recorded by a watchdog restart, and nothing has cleared it since. */
  ghost predicate RestartRecorded(states: seq<Lane>, ops: seq<Op>, k: nat, j: nat, at: int)
    requires k <= |ops| < |states|
  {
    && j < k && ops[j].Watch? && ops[j].markAt == at
    && states[j].entry.Some? && |states[j].procs| <= |states[j + 1].procs|
    && KilledOnly(states[j], states[j + 1].procs[..|states[j].procs|])
    && forall i :: j < i < k ==> !ClearsCooldown(ops[i])
  }

  /** The process was spawned by this step, at this instant. */
  predicate SpawnedAt(states: seq<Lane>, ops: seq<Op>, j: nat, pid: nat, at: int)
    requires j < |ops| && |states| == |ops| + 1
  {
    && |states[j].procs| == pid < |states[j + 1].procs|
    && ((ops[j].Reconcile? && ops[j].now == at) || (ops[j].Watch? && ops[j].startAt == at)
        || (ops[j].SetDelay? && ops[j].now == at))
  }

  lemma CooldownStep(l: Lane, op: Op)
    ensures Step(l, op).restartedAt.Some? && !(op.Watch? && Fires(l, op)) ==>
              Step(l, op).restartedAt == l.restartedAt && !ClearsCooldown(op)
  {
  }

  lemma {:induction false} CooldownTraced(states: seq<Lane>, ops: seq<Op>, k: nat) returns (j: nat)
    requires IsPath(states, ops) && k <= |ops| && states[k].restartedAt.Some?
    ensures j < |ops| && RestartRecorded(states, ops, k, j, states[k].restartedAt.value)
  {
    var l, op := states[k - 1], ops[k - 1];
    if op.Watch? && Fires(l, op) {
      WatchdogExactly(l, op);
      j := k - 1;
    } else {
      CooldownStep(l, op);
      j := CooldownTraced(states, ops, k - 1);
    }
  }

  lemma EntryStep(l: Lane, op: Op)
    requires Step(l, op).entry.Some? && |Step(l, op).procs| <= |l.procs|
    ensures Step(l, op).entry == l.entry
  {
  }

  lemma {:induction false} EntryTraced(states: seq<Lane>, ops: seq<Op>, k: nat) returns (j: nat)
    requires IsPath(states, ops) && k <= |ops| && states[k].entry.Some?
    ensures j < k && SpawnedAt(states, ops, j, states[k].entry.value.pid, states[k].entry.value.startedAt)
  {
    var l, op := states[k - 1], ops[k - 1];
    if |states[k].procs| > |l.procs| {
      SpawnedProcess(l, op);
      j := k - 1;
    } else {
      EntryStep(l, op);
      j := EntryTraced(states, ops, k - 1);
    }
  }

  /** When the watchdog must act, in every history: each look at a speaker whose link is not active restarts its
      loopback (if a process can be started), unless it has none, its process was seen dead, it was spawned
      less than 5 seconds before, or the watchdog itself has restarted it in the last 30 seconds with no
      connect, forget or manual restart since. */
  lemma WatchdogMustFire(states: seq<Lane>, ops: seq<Op>, k: nat)
    requires IsPath(states, ops) && k < |ops| && ops[k].Watch? && ops[k].suspect && ops[k].ok
    ensures || |states[k + 1].procs| > |states[k].procs|
            || states[k].entry.None?
            || ReapedAt(states[k], states[k].entry.value.pid)
            || (exists j, at :: 0 <= j < k && SpawnedAt(states, ops, j, states[k].entry.value.pid, at)
                                && ops[k].graceAt - at < 5_000_000_000)
            || (exists j: nat, at :: RestartRecorded(states, ops, k, j, at)
                                     && ops[k].cooldownAt - at < 30_000_000_000)
  {
    WatchdogExactly(states[k], ops[k]);
    if states[k].entry.Some? {
      var j := EntryTraced(states, ops, k);
    }
    if states[k].restartedAt.Some? {
      var j := CooldownTraced(states, ops, k);
    }
  }

  // ------------------------------------------------------- a run with no sink name

  function AfterTick(l: Lane, name: string, suspect: bool, now: int): Lane {
    var begun := Step(Step(l, Check), Begin(l.gate.checks));
    Step(Step(Step(begun, Register), Reconcile(name, now, true)), Watch(name, suspect, now, now, now, now, true))
  }

  /** A whole tick: its check, its begin and what it does to a present speaker. */
  lemma TickOnce(states: seq<Lane>, ops: seq<Op>, name: string, suspect: bool, now: int)
    returns (more: seq<Lane>, taken: seq<Op>)
    requires IsPath(states, ops) && !states[|ops|].gate.paused
    ensures IsPath(more, taken) && states <= more
    ensures taken == ops + [Check, Begin(states[|ops|].gate.checks)] + InstantTick(name, suspect, now, true, true)
    ensures more[|taken|] == AfterTick(states[|ops|], name, suspect, now)
  {
    var s, t := states[|ops|], states[|ops|].gate.checks;
    s, more, taken := Extend(states, ops, Check);
    s, more, taken := Extend(more, taken, Begin(t));
    s, more, taken := Extend(more, taken, Register);
    s, more, taken := Extend(more, taken, Reconcile(name, now, true));
    s, more, taken := Extend(more, taken, Watch(name, suspect, now, now, now, now, true));
  }

  lemma NamelessAfter(l: Lane, name: string, now: int)
    requires Initial(l) && name != ""
    ensures var first := AfterTick(l, name, false, now);
            var m := AfterTick(first, "", true, now + GRACE);
            && first.gate == Gate(false, 1, {}, Some(0))
            && m.entry.Some? && m.entry.value.node == "" && Alive(m, m.entry.value.pid)
  {
  }

  /** Two ticks: the first starts a loopback; at the second, past the grace period, the sink has lost its name
      and a link into it is not active, and the watchdog restarts the loopback for the empty name. */
  lemma NamelessRestart(l: Lane, name: string, now: int) returns (states: seq<Lane>, ops: seq<Op>)
    requires Initial(l) && name != ""
    ensures IsPath(states, ops) && states[0] == l
    ensures ops == [Check, Begin(0)] + InstantTick(name, false, now, true, true)
                   + [Check, Begin(1)] + InstantTick("", true, now + GRACE, true, true)
    ensures TickActions(InstantTick(name, false, now, true, true), Some(name), false)
    ensures TickActions(InstantTick("", true, now + GRACE, true, true), Some(""), true)
    ensures var m := states[|ops|]; m.entry.Some? && m.entry.value.node == "" && Alive(m, m.entry.value.pid)
  {
    NamelessAfter(l, name, now);
    states, ops := TickOnce([l], [], name, false, now);
    states, ops := TickOnce(states, ops, "", true, now + GRACE);
  }

  // ------------------------------------------------------------------ watchdog

  /** A watchdog restart: when it was recorded and how old the loopback was. */
  datatype Fire = Fire(at: int, age: int)

  function Fired(l: Lane, ops: seq<Op>): seq<Fire> {
    if ops == [] then []
    else
      var front, last := ops[..|ops| - 1], ops[|ops| - 1];
      Fired(l, front) + FireOf(Run(l, front), last)
  }

  predicate ClearsCooldown(op: Op) {
    op.Connect? || op.Forget? || op.Restart?
  }

  ghost predicate Spaced(fs: seq<Fire>) {
    forall i, j :: 0 <= i < j < |fs| ==> fs[j].at - fs[i].at >= COOLDOWN * (j - i)
  }

  lemma SpacedExtend(fs: seq<Fire>, f: Fire)
    requires Spaced(fs)
    requires fs != [] ==> f.at - fs[|fs| - 1].at >= COOLDOWN
    ensures Spaced(fs + [f])
  {
    var n := |fs|;
    var gs := fs + [f];
    forall i, j | 0 <= i < j < |gs| ensures gs[j].at - gs[i].at >= COOLDOWN * (j - i) {
      if j == n && i < n - 1 {
        assert fs[n - 1].at - fs[i].at >= COOLDOWN * (n - 1 - i);
      }
    }
  }

  ghost predicate Ripe(fs: seq<Fire>) {
    forall i :: 0 <= i < |fs| ==> fs[i].age >= GRACE
  }

  function FireOf(before: Lane, op: Op): seq<Fire> {
    if Fires(before, op) then [Fire(op.markAt, op.graceAt - before.entry.value.startedAt)] else []
  }

  ghost predicate Tracks(fs: seq<Fire>, restartedAt: Option<int>, initially: Option<int>) {
    && Ripe(fs)
    && Spaced(fs)
    && restartedAt == if fs == [] then initially else Some(fs[|fs| - 1].at)
  }

  lemma WatchdogStep(before: Lane, op: Op, fs: seq<Fire>, initially: Option<int>)
    requires Ordered(op) && !ClearsCooldown(op)
    requires Tracks(fs, before.restartedAt, initially)
    ensures Tracks(fs + FireOf(before, op), Step(before, op).restartedAt, initially)
  {
    if Fires(before, op) {
      SpacedExtend(fs, FireOf(before, op)[0]);
    } else {
      assert fs + FireOf(before, op) == fs;
    }
  }

  /** n watchdog restarts of one MAC, in any stretch of a run without a connect, forget or manual restart,
      span at least 30(n-1) seconds, and each of them hits a loopback that is at least 5 seconds old. */
  lemma {:induction false} WatchdogRate(l: Lane, ops: seq<Op>)
    requires forall op :: op in ops ==> Ordered(op) && !ClearsCooldown(op)
    ensures Tracks(Fired(l, ops), Run(l, ops).restartedAt, l.restartedAt)
  {
    if ops != [] {
      var front, last := ops[..|ops| - 1], ops[|ops| - 1];
      assert forall op :: op in front ==> op in ops;
      assert last in ops;
      WatchdogRate(l, front);
      WatchdogStep(Run(l, front), last, Fired(l, front), l.restartedAt);
    }
  }
}
