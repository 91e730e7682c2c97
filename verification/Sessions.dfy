/** Satellite sessions on the master: who owns a node's record, and what becomes of each RTP sink id.

    A connection's handler prepares the registration, provisions a sink, commits, reads messages, sets the
    node offline and queues the sink's removal, each in its own step; handlers of other connections run in
    between, and so do the goroutines that perform the queued removals.  A rejected connection takes no
    further step.  The controller tracks one process per sink id; the real one uses the port as the id. */
module Sessions {
  import opened Options
  import opened Records
  import opened Registries

  datatype Phase = Registering | Provisioned | Live | Offlined | Ended

  /** `rtp` is the sink id held by the handler, 0 if none, and `proc` the process started for it. */
  datatype Session = Session(id: string, rtp: nat, proc: nat, phase: Phase)

  /** The controller's tracked process per id, the processes ever started, and how often each id was handed
      out, queued for removal because an offline record remembered it, is queued now, and was removed. */
  datatype Ledger = Ledger(
    sinks: map<nat, nat>, started: nat,
    handedOut: multiset<nat>, stale: multiset<nat>, pending: multiset<nat>, ran: multiset<nat>)

  datatype State = State(sessions: seq<Session>, nodes: map<string, Rec>, ledger: Ledger)

  datatype Action =
    | Open(id: string)
    | Provision(sid: nat, rtp: nat)            // 0: no address, or AddRTPSink failed
    | CommitSession(sid: nat, name: string, addr: string)
    | Deliver(sid: nat, msg: Msg)
    | GoOffline(sid: nat)                      // acknowledgement failed, or the read loop ended
    | QueueRemoval(sid: nat)
    | RunRemoval(rtp: nat)

  const START := State([], map[], Ledger(map[], 0, multiset{}, multiset{}, multiset{}, multiset{}))

  ghost predicate Init(s: State) {
    s == START
  }

  predicate InPhase(s: State, sid: nat, phase: Phase) {
    sid < |s.sessions| && s.sessions[sid].phase == phase
  }

  predicate Enabled(s: State, a: Action) {
    match a
    case Open(_) => true
    case Provision(sid, _) => InPhase(s, sid, Registering)
    case CommitSession(sid, _, _) => InPhase(s, sid, Provisioned)
    case Deliver(sid, _) => InPhase(s, sid, Live)
    case GoOffline(sid) => InPhase(s, sid, Live)
    case QueueRemoval(sid) => InPhase(s, sid, Offlined)
    case RunRemoval(rtp) => rtp in s.ledger.pending
  }

  /** `AddRTPSink` for this id, if it succeeded: the process tracked before, if any, is killed. */
  function HandOut(l: Ledger, rtp: nat): Ledger {
    if rtp == 0 then l
    else l.(sinks := l.sinks[rtp := l.started], started := l.started + 1, handedOut := l.handedOut + multiset{rtp})
  }

  function QueueOwn(l: Ledger, rtp: nat): Ledger {
    if rtp == 0 then l else l.(pending := l.pending + multiset{rtp})
  }

  function QueueStale(l: Ledger, rtp: int): Ledger {
    if rtp <= 0 then l else l.(pending := l.pending + multiset{rtp}, stale := l.stale + multiset{rtp})
  }

  /** `RemoveRTPSink`. */
  function RunOne(l: Ledger, rtp: nat): Ledger {
    l.(pending := l.pending - multiset{rtp}, ran := l.ran + multiset{rtp}, sinks := l.sinks - {rtp})
  }

  /** The sink id that a new connection of this id finds remembered. */
  function StaleId(nodes: map<string, Rec>, id: string): int {
    if id in nodes then nodes[id].rtp else 0
  }

  function Next(s: State, a: Action): State
    requires Enabled(s, a)
  {
    match a
    case Open(id) =>
      if id in s.nodes && s.nodes[id].online then s
      else State(s.sessions + [Session(id, 0, 0, Registering)],
                 Apply(s.nodes, Prepare(id)),
                 QueueStale(s.ledger, StaleId(s.nodes, id)))
    case Provision(sid, rtp) =>
      s.(sessions := s.sessions[sid := s.sessions[sid].(rtp := rtp, proc := s.ledger.started, phase := Provisioned)],
         ledger := HandOut(s.ledger, rtp))
    case CommitSession(sid, name, addr) =>
      var c := s.sessions[sid];
      s.(sessions := s.sessions[sid := c.(phase := Live)],
         nodes := Apply(s.nodes, Commit(c.id, name, addr, c.rtp, sid)))
    case Deliver(sid, msg) => s.(nodes := Apply(s.nodes, Message(s.sessions[sid].id, msg)))
    case GoOffline(sid) =>
      s.(sessions := s.sessions[sid := s.sessions[sid].(phase := Offlined)],
         nodes := Apply(s.nodes, SetOffline(s.sessions[sid].id)))
    case QueueRemoval(sid) =>
      s.(sessions := s.sessions[sid := s.sessions[sid].(phase := Ended)],
         ledger := QueueOwn(s.ledger, s.sessions[sid].rtp))
    case RunRemoval(rtp) => s.(ledger := RunOne(s.ledger, rtp))
  }

  ghost predicate IsRun(states: seq<State>, actions: seq<Action>) {
    Follows(states, actions) && Init(states[0])
  }

  ghost predicate Follows(states: seq<State>, actions: seq<Action>) {
    && |states| == |actions| + 1
    && forall i :: 0 <= i < |actions| ==>
         Enabled(states[i], actions[i]) && states[i + 1] == Next(states[i], actions[i])
  }

  // --------------------------------------------------------- session ownership

  predicate Preparing(c: Session) {
    c.phase.Registering? || c.phase.Provisioned?
  }

  predicate Active(c: Session) {
    Preparing(c) || c.phase.Live?
  }

  predicate PreparingOf(s: State, sid: nat, id: string) {
    sid < |s.sessions| && Preparing(s.sessions[sid]) && s.sessions[sid].id == id
  }

  predicate LiveOf(s: State, sid: nat, id: string) {
    InPhase(s, sid, Live) && s.sessions[sid].id == id
  }

  predicate ActiveOf(s: State, sid: nat, id: string) {
    PreparingOf(s, sid, id) || LiveOf(s, sid, id)
  }

  /** Two registrations of the id are both between prepare and commit. */
  ghost predicate InterleavedOf(s: State, id: string) {
    exists i: nat, j: nat :: i != j && PreparingOf(s, i, id) && PreparingOf(s, j, id)
  }

  ghost predicate Interleaved(s: State) {
    exists id :: InterleavedOf(s, id)
  }

  ghost predicate OneActive(s: State, id: string) {
    forall i: nat, j: nat :: ActiveOf(s, i, id) && ActiveOf(s, j, id) ==> i == j
  }

  /** The record of the id names its live session if it is online, and holds no devices if it is offline. */
  ghost predicate Owned(s: State, id: string) {
    && (forall i: nat :: LiveOf(s, i, id) ==>
          && id in s.nodes && s.nodes[id].online
          && s.nodes[id].session == Some(i) && s.nodes[id].rtp == s.sessions[i].rtp)
    && (id in s.nodes && s.nodes[id].online ==>
          s.nodes[id].session.Some? && LiveOf(s, s.nodes[id].session.value, id))
    && (id in s.nodes && !s.nodes[id].online ==> s.nodes[id].devices == [])
  }

  lemma ActiveBefore(s: State, a: Action, i: nat, id: string)
    requires Enabled(s, a) && ActiveOf(Next(s, a), i, id)
    ensures ActiveOf(s, i, id) || (a == Open(id) && i == |s.sessions| && !(id in s.nodes && s.nodes[id].online))
    ensures LiveOf(s, i, id) ==> LiveOf(Next(s, a), i, id)
  {
  }

  lemma NextOneActive(s: State, a: Action, id: string)
    requires OneActive(s, id) && Owned(s, id) && Enabled(s, a) && !InterleavedOf(Next(s, a), id)
    ensures OneActive(Next(s, a), id)
  {
    var t := Next(s, a);
    forall i: nat, j: nat | ActiveOf(t, i, id) && ActiveOf(t, j, id) ensures i == j {
      ActiveBefore(s, a, i, id);
      ActiveBefore(s, a, j, id);
      assert PreparingOf(t, i, id) && PreparingOf(t, j, id) ==> i == j;
    }
  }

  lemma NextOwned(s: State, a: Action, id: string)
    requires OneActive(s, id) && Owned(s, id) && Enabled(s, a)
    ensures Owned(Next(s, a), id)
  {
    var t := Next(s, a);
    forall i: nat | LiveOf(t, i, id)
      ensures id in t.nodes && t.nodes[id].online
              && t.nodes[id].session == Some(i) && t.nodes[id].rtp == t.sessions[i].rtp
    {
      ActiveBefore(s, a, i, id);
      OthersStay(s, a, i, id);
    }
  }

  /** Only the one active session of the id touches its record. */
  lemma OthersStay(s: State, a: Action, i: nat, id: string)
    requires OneActive(s, id) && Enabled(s, a) && ActiveOf(s, i, id)
    ensures a.CommitSession? && s.sessions[a.sid].id == id ==> a.sid == i
    ensures a.GoOffline? && s.sessions[a.sid].id == id ==> a.sid == i
  {
    if a.CommitSession? || a.GoOffline? {
      assert s.sessions[a.sid].id == id ==> ActiveOf(s, a.sid, id);
    }
  }

  lemma {:induction false} AlwaysOwned(states: seq<State>, actions: seq<Action>, i: nat, id: string)
    requires IsRun(states, actions) && i < |states|
    requires forall k :: 0 <= k <= i ==> !InterleavedOf(states[k], id)
    ensures OneActive(states[i], id) && Owned(states[i], id)
  {
    if i > 0 {
      AlwaysOwned(states, actions, i - 1, id);
      NextOneActive(states[i - 1], actions[i - 1], id);
      NextOwned(states[i - 1], actions[i - 1], id);
    }
  }

  /** The cached devices or the expected number of a record changed. */
  predicate CacheChanged(s: State, t: State, id: string) {
    && id in s.nodes && id in t.nodes
    && (s.nodes[id].devices != t.nodes[id].devices || s.nodes[id].nextSeq != t.nodes[id].nextSeq)
  }

  /** The action is a message of the session that the record names, or registers or ends that very id. */
  predicate ConcernsOwner(s: State, a: Action, id: string)
    requires Enabled(s, a)
  {
    match a
    case Deliver(sid, _) =>
      s.sessions[sid].id == id && id in s.nodes && s.nodes[id].online && s.nodes[id].session == Some(sid)
    case Open(newcomer) => newcomer == id
    case CommitSession(sid, _, _) => s.sessions[sid].id == id
    case GoOffline(sid) => s.sessions[sid].id == id
    case _ => false
  }

  /** If registrations of the id have not interleaved between prepare and commit so far, whatever those of
      other ids did: at most one of its sessions lies between prepare and set-offline, its record names the live
      one if online and holds no devices if offline, and no other node's message touches the record's cache. */
  lemma SessionOwnership(states: seq<State>, actions: seq<Action>, i: nat, id: string)
    requires IsRun(states, actions) && i < |actions|
    requires forall k :: 0 <= k <= i ==> !InterleavedOf(states[k], id)
    ensures OneActive(states[i], id) && Owned(states[i], id)
    ensures CacheChanged(states[i], states[i + 1], id) ==> ConcernsOwner(states[i], actions[i], id)
  {
    AlwaysOwned(states, actions, i, id);
    assert states[i + 1] == Next(states[i], actions[i]);
  }

  /** Up to any moment there were never two active sessions of the id, if and only if no two of its
      registrations interleaved. */
  lemma OneActiveExactly(states: seq<State>, actions: seq<Action>, i: nat, id: string)
    requires IsRun(states, actions) && i < |states|
    ensures (forall k :: 0 <= k <= i ==> OneActive(states[k], id))
       <==> (forall k :: 0 <= k <= i ==> !InterleavedOf(states[k], id))
  {
    if forall k :: 0 <= k <= i ==> !InterleavedOf(states[k], id) {
      forall k | 0 <= k <= i ensures OneActive(states[k], id) {
        AlwaysOwned(states, actions, k, id);
      }
    } else {
      var k :| 0 <= k <= i && InterleavedOf(states[k], id);
      TwoPreparing(states[k], id);
    }
  }

  lemma TwoPreparing(s: State, id: string)
    requires InterleavedOf(s, id)
    ensures !OneActive(s, id)
  {
    var i: nat, j: nat :| i != j && PreparingOf(s, i, id) && PreparingOf(s, j, id);
    assert ActiveOf(s, i, id) && ActiveOf(s, j, id);
  }

  // ------------------------------------------------------------ two live sessions

  ghost predicate TwoLive(s: State, id: string) {
    exists a: nat, b: nat :: a != b && LiveOf(s, a, id) && LiveOf(s, b, id)
  }

  predicate Commits(states: seq<State>, actions: seq<Action>, m: nat, sid: nat, id: string)
    requires m < |actions| < |states|
  {
    actions[m].CommitSession? && actions[m].sid == sid && sid < |states[m].sessions| && states[m].sessions[sid].id == id
  }

  /** Between steps m and n the session does not go offline. */
  ghost predicate StaysOn(actions: seq<Action>, m: nat, n: nat, sid: nat)
    requires n <= |actions|
  {
    forall g :: m < g < n ==> actions[g] != GoOffline(sid)
  }

  /** A connection of the same id was accepted before session b commits at step m, and commits itself at
      step n, before b goes offline. */
  ghost predicate Overtakes(states: seq<State>, actions: seq<Action>, id: string, m: nat, n: nat)
    requires m < |actions| && n < |actions| < |states|
  {
    && m < n
    && exists a: nat, b: nat ::
         && a < |states[m].sessions| && Commits(states, actions, m, b, id)
         && Commits(states, actions, n, a, id) && StaysOn(actions, m, n, b)
  }

  lemma {:induction false} LiveUntil(states: seq<State>, actions: seq<Action>, m: nat, n: nat, b: nat, id: string)
    requires IsRun(states, actions) && m < n < |states|
    requires Commits(states, actions, m, b, id) && StaysOn(actions, m, n, b)
    ensures LiveOf(states[n], b, id)
  {
    assert Enabled(states[n - 1], actions[n - 1]) && states[n] == Next(states[n - 1], actions[n - 1]);
    if m < n - 1 {
      LiveUntil(states, actions, m, n - 1, b, id);
    }
  }

  lemma OvertakingIsTwoLive(states: seq<State>, actions: seq<Action>, id: string, m: nat, n: nat)
    requires IsRun(states, actions) && m < n < |actions| && Overtakes(states, actions, id, m, n)
    ensures TwoLive(states[n + 1], id)
  {
    var a: nat, b: nat :|
      && a < |states[m].sessions| && Commits(states, actions, m, b, id)
      && Commits(states, actions, n, a, id) && StaysOn(actions, m, n, b);
    LiveUntil(states, actions, m, n, b, id);
    assert Enabled(states[n], actions[n]) && states[n + 1] == Next(states[n], actions[n]);
    assert LiveOf(states[n + 1], a, id) && LiveOf(states[n + 1], b, id);
  }

  /** The live session committed at step m, when every registration now under way was accepted already. */
  ghost predicate Ahead(states: seq<State>, actions: seq<Action>, k: nat, b: nat, id: string, m: nat)
    requires k <= |actions| < |states|
  {
    && m < k && Commits(states, actions, m, b, id) && StaysOn(actions, m, k, b)
    && forall a: nat :: PreparingOf(states[k], a, id) ==> a < |states[m].sessions|
  }

  ghost predicate LiveRecorded(s: State, id: string) {
    forall b: nat :: LiveOf(s, b, id) ==> id in s.nodes && s.nodes[id].online
  }

  lemma NewlyLive(s: State, a: Action, b: nat, id: string)
    requires Enabled(s, a) && LiveOf(Next(s, a), b, id)
    ensures LiveOf(s, b, id) ==> a != GoOffline(b)
    ensures !LiveOf(s, b, id) ==> a.CommitSession? && a.sid == b && PreparingOf(s, b, id)
  {
  }

  lemma NextLiveRecorded(s: State, a: Action, id: string)
    requires LiveRecorded(s, id) && !TwoLive(s, id) && Enabled(s, a)
    ensures LiveRecorded(Next(s, a), id)
  {
    var t := Next(s, a);
    if a.GoOffline? && s.sessions[a.sid].id == id {
      assert LiveOf(s, a.sid, id);
    }
    forall b: nat | LiveOf(t, b, id) ensures id in t.nodes && t.nodes[id].online {
      NewlyLive(s, a, b, id);
      assert forall c: nat :: LiveOf(s, b, id) && LiveOf(s, c, id) ==> b == c;
    }
  }

  /** While a session of the id is live and recorded, no new connection of it is accepted. */
  lemma NoneAccepted(s: State, a: Action, b: nat, id: string, c: nat)
    requires LiveRecorded(s, id) && LiveOf(s, b, id) && Enabled(s, a) && PreparingOf(Next(s, a), c, id)
    ensures PreparingOf(s, c, id)
  {
  }

  lemma {:induction false} LiveIsAhead(states: seq<State>, actions: seq<Action>, k: nat, b: nat, id: string)
    returns (m: nat)
    requires IsRun(states, actions) && k < |states| && LiveOf(states[k], b, id)
    requires forall j :: 0 <= j < k ==> LiveRecorded(states[j], id)
    ensures Ahead(states, actions, k, b, id, m)
  {
    var s, a := states[k - 1], actions[k - 1];
    assert Enabled(s, a) && states[k] == Next(s, a);
    NewlyLive(s, a, b, id);
    if LiveOf(s, b, id) {
      m := LiveIsAhead(states, actions, k - 1, b, id);
      forall c: nat | PreparingOf(states[k], c, id) ensures c < |states[m].sessions| {
        NoneAccepted(s, a, b, id, c);
      }
    } else {
      m := k - 1;
    }
  }

  lemma {:induction false} RecordedUntilTwo(states: seq<State>, actions: seq<Action>, k: nat, id: string)
    requires IsRun(states, actions) && k < |states|
    requires forall j :: 0 <= j < k ==> !TwoLive(states[j], id)
    ensures LiveRecorded(states[k], id)
  {
    if k > 0 {
      RecordedUntilTwo(states, actions, k - 1, id);
      NextLiveRecorded(states[k - 1], actions[k - 1], id);
    }
  }

  /** The first time two sessions are live, one has just overtaken the other. */
  lemma FirstTwoLive(states: seq<State>, actions: seq<Action>, k: nat, id: string) returns (m: nat)
    requires IsRun(states, actions) && 0 < k < |states| && TwoLive(states[k], id)
    requires forall j :: 0 <= j < k ==> !TwoLive(states[j], id)
    ensures m < k && Overtakes(states, actions, id, m, k - 1)
  {
    forall j | 0 <= j < k ensures LiveRecorded(states[j], id) {
      RecordedUntilTwo(states, actions, j, id);
    }
    var s, a := states[k - 1], actions[k - 1];
    var x: nat, y: nat :| x != y && LiveOf(states[k], x, id) && LiveOf(states[k], y, id);
    assert states[k] == Next(s, a) && !TwoLive(s, id);
    NewlyLive(s, a, x, id);
    NewlyLive(s, a, y, id);
    var b, c := if LiveOf(s, x, id) then x else y, if LiveOf(s, x, id) then y else x;
    m := LiveIsAhead(states, actions, k - 1, b, id);
    assert PreparingOf(s, c, id) && Commits(states, actions, k - 1, c, id);
  }

  /** Two sessions of one id are ever live together if and only if one was accepted before the other
      committed, and committed after it but before that other went offline. */
  lemma {:induction false} TwoLiveExactly(states: seq<State>, actions: seq<Action>, i: nat, id: string)
    requires IsRun(states, actions) && i < |states|
    ensures (exists k :: 0 <= k <= i && TwoLive(states[k], id))
       <==> (exists m: nat, n: nat :: m < n < i && Overtakes(states, actions, id, m, n))
  {
    if m: nat, n: nat :| m < n < i && Overtakes(states, actions, id, m, n) {
      OvertakingIsTwoLive(states, actions, id, m, n);
    }
    if i > 0 {
      TwoLiveExactly(states, actions, i - 1, id);
      if TwoLive(states[i], id) && forall k :: 0 <= k < i ==> !TwoLive(states[k], id) {
        var m := FirstTwoLive(states, actions, i, id);
        assert Overtakes(states, actions, id, m, i - 1);
      }
    }
  }

  lemma Extend(states: seq<State>, actions: seq<Action>, a: Action)
    returns (next: State, more: seq<State>, taken: seq<Action>)
    requires Follows(states, actions) && Enabled(states[|actions|], a)
    ensures next == Next(states[|actions|], a)
    ensures more == states + [next] && taken == actions + [a] && Follows(more, taken)
  {
    next := Next(states[|actions|], a);
    more, taken := states + [next], actions + [a];
  }

  /** Two connections of one name that both prepare before either commits are both accepted, and both go
      live: the duplicate-name guard needs registrations not to interleave. */
  lemma InterleavedRegistrations(id: string) returns (states: seq<State>, actions: seq<Action>)
    ensures IsRun(states, actions)
    ensures InPhase(states[|actions|], 0, Live) && InPhase(states[|actions|], 1, Live)
    ensures states[|actions|].sessions[0].id == id == states[|actions|].sessions[1].id
  {
    var s := START;
    states, actions := [s], [];
    s, states, actions := Extend(states, actions, Open(id));
    s, states, actions := Extend(states, actions, Open(id));
    s, states, actions := Extend(states, actions, Provision(0, 0));
    s, states, actions := Extend(states, actions, Provision(1, 0));
    s, states, actions := Extend(states, actions, CommitSession(0, "", ""));
    s, states, actions := Extend(states, actions, CommitSession(1, "", ""));
  }

  // ---------------------------------------------------------- RTP conservation

  /** Sessions that were handed this id, and have (not) ended. */
  function Holders(sessions: seq<Session>, rtp: nat, ended: bool): nat {
    if sessions == [] then 0
    else Holders(sessions[..|sessions| - 1], rtp, ended) + Counts(sessions[|sessions| - 1], rtp, ended)
  }

  function Counts(c: Session, rtp: nat, ended: bool): nat {
    if c.rtp == rtp && c.phase.Ended? == ended then 1 else 0
  }

  lemma {:induction false} HoldersUpdate(sessions: seq<Session>, sid: nat, c: Session, rtp: nat, ended: bool)
    requires sid < |sessions|
    ensures Holders(sessions[sid := c], rtp, ended)
         == Holders(sessions, rtp, ended) - Counts(sessions[sid], rtp, ended) + Counts(c, rtp, ended)
  {
    var front := sessions[..|sessions| - 1];
    if sid < |sessions| - 1 {
      HoldersUpdate(front, sid, c, rtp, ended);
      assert sessions[sid := c][..|sessions| - 1] == front[sid := c];
    } else {
      assert sessions[sid := c][..|sessions| - 1] == front;
    }
  }

  lemma HoldersAppend(sessions: seq<Session>, c: Session, rtp: nat, ended: bool)
    ensures Holders(sessions + [c], rtp, ended) == Holders(sessions, rtp, ended) + Counts(c, rtp, ended)
  {
    assert (sessions + [c])[..|sessions|] == sessions;
  }

  /** Every hand-out of the id belongs to one session, and every removal queued for it is that of an ended
      session or of what an offline record remembered. */
  predicate Conserved(sessions: seq<Session>, l: Ledger, rtp: nat) {
    && l.handedOut[rtp] == Holders(sessions, rtp, false) + Holders(sessions, rtp, true)
    && l.pending[rtp] + l.ran[rtp] == l.stale[rtp] + Holders(sessions, rtp, true)
  }

  ghost predicate Unprovisioned(s: State) {
    forall i :: 0 <= i < |s.sessions| && s.sessions[i].phase.Registering? ==> s.sessions[i].rtp == 0
  }

  lemma NextUnprovisioned(s: State, a: Action)
    requires Unprovisioned(s) && Enabled(s, a)
    ensures Unprovisioned(Next(s, a))
  {
  }

  lemma ReplaceConserves(sessions: seq<Session>, l: Ledger, rtp: nat, sid: nat, c: Session, m: Ledger)
    requires Conserved(sessions, l, rtp) && sid < |sessions| && l.stale == m.stale && l.ran == m.ran
    requires !sessions[sid].phase.Ended?
    requires m.handedOut[rtp] == l.handedOut[rtp] + (if c.rtp == rtp != sessions[sid].rtp then 1 else 0)
    requires m.pending[rtp] == l.pending[rtp] + (if c.rtp == rtp && c.phase.Ended? then 1 else 0)
    requires c.rtp == sessions[sid].rtp || sessions[sid].rtp == 0 != rtp
    ensures Conserved(sessions[sid := c], m, rtp)
  {
    HoldersUpdate(sessions, sid, c, rtp, false);
    HoldersUpdate(sessions, sid, c, rtp, true);
  }

  lemma OpenConserves(s: State, id: string, rtp: nat)
    requires Conserved(s.sessions, s.ledger, rtp) && rtp != 0
    ensures Conserved(Next(s, Open(id)).sessions, Next(s, Open(id)).ledger, rtp)
  {
    HoldersAppend(s.sessions, Session(id, 0, 0, Registering), rtp, false);
    HoldersAppend(s.sessions, Session(id, 0, 0, Registering), rtp, true);
  }

  lemma SessionConserves(s: State, a: Action, rtp: nat)
    requires Conserved(s.sessions, s.ledger, rtp) && Unprovisioned(s) && Enabled(s, a) && rtp != 0
    requires a.Provision? || a.CommitSession? || a.GoOffline? || a.QueueRemoval?
    ensures Conserved(Next(s, a).sessions, Next(s, a).ledger, rtp)
  {
    var t := Next(s, a);
    assert t.sessions == s.sessions[a.sid := t.sessions[a.sid]];
    ReplaceConserves(s.sessions, s.ledger, rtp, a.sid, t.sessions[a.sid], t.ledger);
  }

  lemma NextConserved(s: State, a: Action, rtp: nat)
    requires Conserved(s.sessions, s.ledger, rtp) && Unprovisioned(s) && Enabled(s, a) && rtp != 0
    ensures Conserved(Next(s, a).sessions, Next(s, a).ledger, rtp)
  {
    match a
    case Open(id) => OpenConserves(s, id, rtp);
    case Deliver(_, _) =>
    case RunRemoval(_) =>
    case _ => SessionConserves(s, a, rtp);
  }

  lemma {:induction false} AlwaysUnprovisioned(states: seq<State>, actions: seq<Action>, i: nat)
    requires IsRun(states, actions) && i < |states|
    ensures Unprovisioned(states[i])
  {
    if i > 0 {
      AlwaysUnprovisioned(states, actions, i - 1);
      NextUnprovisioned(states[i - 1], actions[i - 1]);
    }
  }

  lemma {:induction false} AlwaysConserved(states: seq<State>, actions: seq<Action>, i: nat, rtp: nat)
    requires IsRun(states, actions) && i < |states| && rtp != 0
    ensures Conserved(states[i].sessions, states[i].ledger, rtp)
  {
    if i > 0 {
      AlwaysConserved(states, actions, i - 1, rtp);
      AlwaysUnprovisioned(states, actions, i - 1);
      NextConserved(states[i - 1], actions[i - 1], rtp);
    }
  }

  /** Counted, on every exit path and whatever interleaves: each time a sink id is handed out, one session
      holds it until that session ends, and then one removal of it is queued. */
  lemma SinksConserved(states: seq<State>, actions: seq<Action>, i: nat, rtp: nat)
    requires IsRun(states, actions) && i < |states| && rtp != 0
    ensures Conserved(states[i].sessions, states[i].ledger, rtp)
    ensures var l := states[i].ledger;
            l.handedOut[rtp] + l.stale[rtp] == Holders(states[i].sessions, rtp, false) + l.pending[rtp] + l.ran[rtp]
  {
    AlwaysConserved(states, actions, i, rtp);
  }

  // ------------------------------------------------------------- who loses a sink

  /** The process started for the session is the one tracked under its id. */
  predicate HasSink(s: State, sid: nat) {
    && sid < |s.sessions| && s.sessions[sid].rtp in s.ledger.sinks
    && s.ledger.sinks[s.sessions[sid].rtp] == s.sessions[sid].proc
  }

  predicate TakesSink(a: Action, rtp: nat) {
    a == RunRemoval(rtp) || (a.Provision? && a.rtp == rtp)
  }

  ghost predicate TakenSince(actions: seq<Action>, p: nat, i: nat, rtp: nat)
    requires i <= |actions|
  {
    exists k :: p < k < i && TakesSink(actions[k], rtp)
  }

  /** After its provision at step p, a session keeps its id and process, and more processes may follow. */
  predicate Holds(s: State, sid: nat, rtp: nat, proc: nat) {
    && sid < |s.sessions| && !s.sessions[sid].phase.Registering?
    && s.sessions[sid].rtp == rtp && s.sessions[sid].proc == proc && proc < s.ledger.started
  }

  lemma NextSink(s: State, a: Action, sid: nat, rtp: nat, proc: nat)
    requires Holds(s, sid, rtp, proc) && Enabled(s, a) && rtp != 0
    ensures Holds(Next(s, a), sid, rtp, proc)
    ensures HasSink(Next(s, a), sid) <==> HasSink(s, sid) && !TakesSink(a, rtp)
  {
  }

  lemma ProvisionGives(s: State, sid: nat, rtp: nat)
    requires Enabled(s, Provision(sid, rtp)) && rtp != 0
    ensures Holds(Next(s, Provision(sid, rtp)), sid, rtp, s.ledger.started)
    ensures HasSink(Next(s, Provision(sid, rtp)), sid)
  {
  }

  lemma TakenStep(actions: seq<Action>, p: nat, i: nat, rtp: nat)
    requires p < i < |actions|
    ensures TakenSince(actions, p, i + 1, rtp) <==> TakenSince(actions, p, i, rtp) || TakesSink(actions[i], rtp)
    ensures !TakenSince(actions, p, p + 1, rtp)
  {
  }

  lemma {:induction false} SinkLostSince(
      states: seq<State>, actions: seq<Action>, i: nat, sid: nat, rtp: nat, p: nat)
    requires IsRun(states, actions) && p < i < |states| && rtp != 0 && actions[p] == Provision(sid, rtp)
    ensures Holds(states[i], sid, rtp, states[p].ledger.started)
    ensures !HasSink(states[i], sid) <==> TakenSince(actions, p, i, rtp)
  {
    if p < i - 1 {
      SinkLostSince(states, actions, i - 1, sid, rtp, p);
      TakenStep(actions, p, i - 1, rtp);
      NextSink(states[i - 1], actions[i - 1], sid, rtp, states[p].ledger.started);
    } else {
      ProvisionGives(states[p], sid, rtp);
    }
  }

  lemma {:induction false} ProvisionOf(states: seq<State>, actions: seq<Action>, i: nat, sid: nat) returns (p: nat)
    requires IsRun(states, actions) && i < |states| && sid < |states[i].sessions| && states[i].sessions[sid].rtp != 0
    ensures p < i && actions[p] == Provision(sid, states[i].sessions[sid].rtp)
  {
    var s, a := states[i - 1], actions[i - 1];
    assert Enabled(s, a) && states[i] == Next(s, a);
    if a.Provision? && a.sid == sid {
      p := i - 1;
    } else {
      p := ProvisionOf(states, actions, i - 1, sid);
    }
  }

  /** A session, live or not, has lost its sink if and only if since its own provision a removal of its id
      has run or the id was provisioned again, by whatever handler. */
  lemma SinkLostExactly(states: seq<State>, actions: seq<Action>, i: nat, sid: nat) returns (p: nat)
    requires IsRun(states, actions) && i < |states| && sid < |states[i].sessions| && states[i].sessions[sid].rtp != 0
    ensures p < i && actions[p] == Provision(sid, states[i].sessions[sid].rtp)
    ensures !HasSink(states[i], sid) <==> TakenSince(actions, p, i, states[i].sessions[sid].rtp)
  {
    p := ProvisionOf(states, actions, i, sid);
    SinkLostSince(states, actions, i, sid, states[i].sessions[sid].rtp, p);
  }

  /** The step queues a removal of this id. */
  predicate Queues(s: State, a: Action, rtp: nat)
    requires Enabled(s, a)
  {
    Next(s, a).ledger.pending[rtp] > s.ledger.pending[rtp]
  }

  lemma NextDrained(s: State, a: Action, sid: nat, rtp: nat, proc: nat)
    requires Holds(s, sid, rtp, proc) && Enabled(s, a) && rtp != 0 && HasSink(s, sid) && rtp !in s.ledger.pending
    requires !Queues(s, a, rtp) && !(a.Provision? && a.rtp == rtp)
    ensures HasSink(Next(s, a), sid) && rtp !in Next(s, a).ledger.pending
  {
    NextSink(s, a, sid, rtp, proc);
  }

  /** What a session needs to be safe: no removal of its id was waiting when it was provisioned, none was
      queued since, and nobody else was given the id. */
  lemma {:induction false} DrainedIsSafe(states: seq<State>, actions: seq<Action>, i: nat, sid: nat, rtp: nat, p: nat)
    requires IsRun(states, actions) && p < i < |states| && rtp != 0 && actions[p] == Provision(sid, rtp)
    requires rtp !in states[p].ledger.pending
    requires forall k :: p < k < i ==>
               !Queues(states[k], actions[k], rtp) && !(actions[k].Provision? && actions[k].rtp == rtp)
    ensures rtp !in states[i].ledger.pending && HasSink(states[i], sid)
  {
    if p == i - 1 {
      SinkLostSince(states, actions, i, sid, rtp, p);
      assert states[i] == Next(states[p], actions[p]);
    } else {
      DrainedIsSafe(states, actions, i - 1, sid, rtp, p);
      SinkLostSince(states, actions, i - 1, sid, rtp, p);
      NextDrained(states[i - 1], actions[i - 1], sid, rtp, states[p].ledger.started);
    }
  }

  /** Three steps of one undisturbed connection: accepted, provisioned, committed. */
  lemma Register(states: seq<State>, actions: seq<Action>, id: string, port: nat)
    returns (next: State, more: seq<State>, taken: seq<Action>)
    requires IsRun(states, actions) && port != 0
    requires var s := states[|actions|]; id !in s.nodes || !s.nodes[id].online
    requires forall s :: s in states ==> !Interleaved(s)
    requires forall c :: c in states[|actions|].sessions ==> !Preparing(c)
    ensures IsRun(more, taken) && next == more[|taken|] && states <= more && actions <= taken
    ensures |taken| == |actions| + 3 && taken[|actions|] == Open(id)
    ensures forall s :: s in more ==> !Interleaved(s)
    ensures var s := states[|actions|];
            next == State(s.sessions + [Session(id, port, s.ledger.started, Live)],
                          s.nodes[id := Committed("", "", port, |s.sessions|)],
                          HandOut(QueueStale(s.ledger, StaleId(s.nodes, id)), port))
  {
    var s, sid := states[|actions|], |states[|actions|].sessions|;
    next, more, taken := Extend(states, actions, Open(id));
    next, more, taken := Extend(more, taken, Provision(sid, port));
    next, more, taken := Extend(more, taken, CommitSession(sid, "", ""));
    assert next.sessions == s.sessions + [Session(id, port, s.ledger.started, Live)];
    assert next.nodes == s.nodes[id := Committed("", "", port, sid)];
  }

  lemma OneSession(id: string, port: nat) returns (s: State, states: seq<State>, actions: seq<Action>)
    requires port != 0
    ensures IsRun(states, actions) && forall s :: s in states ==> !Interleaved(s)
    ensures s == states[|actions|]
    ensures s == State([Session(id, port, 0, Ended)], map[id := Offline(Committed("", "", port, 0))],
                       Ledger(map[port := 0], 1, multiset{port}, multiset{}, multiset{port}, multiset{}))
  {
    s, states, actions := Register([START], [], id, port);
    s, states, actions := Extend(states, actions, GoOffline(0));
    s, states, actions := Extend(states, actions, QueueRemoval(0));
  }

  /** The real controller hands the port out again: a satellite that reconnects can lose its new sink to the
      removal that its own handler queued for the old one, with no other session left. */
  lemma ReconnectLosesSink(id: string, port: nat) returns (s: State, states: seq<State>, actions: seq<Action>)
    requires port != 0
    ensures IsRun(states, actions) && s == states[|actions|] && forall s :: s in states ==> !Interleaved(s)
    ensures InPhase(s, 1, Live) && s.sessions[1].rtp == port && !HasSink(s, 1) && s.sessions[0].phase.Ended?
    ensures s.ledger.pending == multiset{} && s.ledger.stale == multiset{port}
  {
    s, states, actions := OneSession(id, port);
    s, states, actions := Extend(states, actions, RunRemoval(port));
    s, states, actions := Register(states, actions, id, port);
    s, states, actions := Extend(states, actions, RunRemoval(port));
  }

  /** A second satellite takes the sink of the first over, before any removal has run. */
  lemma SecondSatelliteTakesSink(id: string, other: string, port: nat)
    returns (s: State, states: seq<State>, actions: seq<Action>)
    requires port != 0 && id != other
    ensures IsRun(states, actions) && s == states[|actions|] && forall s :: s in states ==> !Interleaved(s)
    ensures InPhase(s, 0, Live) && InPhase(s, 1, Live) && !HasSink(s, 0) && HasSink(s, 1)
    ensures s.ledger.pending == multiset{} == s.ledger.ran
  {
    s, states, actions := Register([START], [], id, port);
    s, states, actions := Register(states, actions, other, port);
  }

  // --------------------------------------------------- a controller with fresh ids

  /** A controller that never hands an id out twice. */
  ghost predicate FreshIds(states: seq<State>, actions: seq<Action>)
    requires |states| == |actions| + 1
  {
    forall i :: 0 <= i < |actions| && actions[i].Provision? ==> actions[i].rtp !in states[i].ledger.handedOut
  }

  predicate HolderOf(s: State, sid: nat, id: string, rtp: int) {
    && sid < |s.sessions| && s.sessions[sid].id == id && s.sessions[sid].rtp == rtp
    && !s.sessions[sid].phase.Registering?
  }

  /** What the record remembers was handed to some session of its id, and if the record is offline, to one that
      is active no more. */
  ghost predicate Backed(s: State, id: string) {
    id in s.nodes && s.nodes[id].rtp != 0 ==> exists sid: nat :: HolderOf(s, sid, id, s.nodes[id].rtp)
  }

  ghost predicate Remembers(s: State, id: string) {
    id in s.nodes && s.nodes[id].rtp != 0 && !s.nodes[id].online ==>
      exists sid: nat :: HolderOf(s, sid, id, s.nodes[id].rtp) && !Active(s.sessions[sid])
  }

  /** Only ids that were handed out are held or queued, and no two sessions hold the same. */
  ghost predicate DistinctIds(s: State) {
    && (forall x :: x in s.ledger.pending ==> x in s.ledger.handedOut) && 0 !in s.ledger.handedOut
    && (forall i :: 0 <= i < |s.sessions| && s.sessions[i].rtp != 0 ==> s.sessions[i].rtp in s.ledger.handedOut)
    && (forall i, j :: 0 <= i < j < |s.sessions| && s.sessions[i].rtp != 0 ==>
          s.sessions[i].rtp != s.sessions[j].rtp)
  }

  /** No removal of the session's id waits, and it has its sink. */
  predicate Safe(s: State, i: nat) {
    i < |s.sessions| && s.sessions[i].rtp != 0 && s.sessions[i].rtp !in s.ledger.pending && HasSink(s, i)
  }

  ghost predicate Unharmed(s: State, id: string) {
    forall i: nat :: ActiveOf(s, i, id) && s.sessions[i].rtp != 0 ==> Safe(s, i)
  }

  lemma HolderStays(s: State, a: Action, sid: nat, id: string, rtp: int)
    requires HolderOf(s, sid, id, rtp) && Enabled(s, a)
    ensures HolderOf(Next(s, a), sid, id, rtp)
    ensures !Active(s.sessions[sid]) ==> !Active(Next(s, a).sessions[sid])
  {
  }

  lemma NextBacked(s: State, a: Action, id: string)
    requires Backed(s, id) && Enabled(s, a)
    ensures Backed(Next(s, a), id)
  {
    var t := Next(s, a);
    if id in t.nodes && t.nodes[id].rtp != 0 {
      if a.CommitSession? && s.sessions[a.sid].id == id {
        assert HolderOf(t, a.sid, id, t.nodes[id].rtp);
      } else {
        var sid: nat :| HolderOf(s, sid, id, s.nodes[id].rtp);
        HolderStays(s, a, sid, id, s.nodes[id].rtp);
      }
    }
  }

  lemma NextRemembers(s: State, a: Action, id: string)
    requires Owned(s, id) && Remembers(s, id) && Enabled(s, a)
    ensures Remembers(Next(s, a), id)
  {
    var t := Next(s, a);
    if id in t.nodes && t.nodes[id].rtp != 0 && !t.nodes[id].online {
      if a.GoOffline? && s.sessions[a.sid].id == id {
        assert LiveOf(s, a.sid, id);
        assert HolderOf(t, a.sid, id, t.nodes[id].rtp);
      } else {
        var sid: nat :| HolderOf(s, sid, id, s.nodes[id].rtp) && !Active(s.sessions[sid]);
        HolderStays(s, a, sid, id, s.nodes[id].rtp);
      }
    }
  }

  lemma OpenDistinct(s: State, id: string)
    requires DistinctIds(s) && Backed(s, id)
    ensures DistinctIds(Next(s, Open(id)))
  {
    if id in s.nodes && s.nodes[id].rtp != 0 {
      var sid: nat :| HolderOf(s, sid, id, s.nodes[id].rtp);
    }
  }

  lemma ProvisionDistinct(s: State, sid: nat, rtp: nat)
    requires DistinctIds(s) && Unprovisioned(s) && Enabled(s, Provision(sid, rtp)) && rtp !in s.ledger.handedOut
    ensures DistinctIds(Next(s, Provision(sid, rtp)))
  {
    assert s.sessions[sid].rtp == 0;
  }

  lemma QueueDistinct(s: State, sid: nat)
    requires DistinctIds(s) && Enabled(s, QueueRemoval(sid))
    ensures DistinctIds(Next(s, QueueRemoval(sid)))
  {
    assert s.sessions[sid].rtp != 0 ==> s.sessions[sid].rtp in s.ledger.handedOut;
  }

  lemma NextDistinctIds(s: State, a: Action)
    requires DistinctIds(s) && Unprovisioned(s) && Enabled(s, a)
    requires a.Open? ==> Backed(s, a.id)
    requires a.Provision? ==> a.rtp !in s.ledger.handedOut
    ensures DistinctIds(Next(s, a))
  {
    match a
    case Open(id) => OpenDistinct(s, id);
    case Provision(sid, rtp) => ProvisionDistinct(s, sid, rtp);
    case QueueRemoval(sid) => QueueDistinct(s, sid);
    case _ =>
  }

  /** A new connection queues the id of no other active session: what a record remembers is held by a session
      of the same id, and if the record is offline by one that is active no more. */
  lemma OpenHarmless(s: State, i: nat, id: string, newcomer: string)
    requires DistinctIds(s) && Backed(s, newcomer) && Remembers(s, id)
    requires ActiveOf(s, i, id) && Safe(s, i)
    ensures Safe(Next(s, Open(newcomer)), i)
  {
    if newcomer in s.nodes && !s.nodes[newcomer].online && s.nodes[newcomer].rtp != 0 {
      if newcomer == id {
        var sid: nat :| HolderOf(s, sid, id, s.nodes[id].rtp) && !Active(s.sessions[sid]);
        assert sid != i;
      } else {
        var sid: nat :| HolderOf(s, sid, newcomer, s.nodes[newcomer].rtp);
        assert sid != i;
      }
    }
  }

  lemma StaysSafe(s: State, a: Action, i: nat, id: string)
    requires DistinctIds(s) && Remembers(s, id) && Enabled(s, a)
    requires ActiveOf(s, i, id) && Safe(s, i) && ActiveOf(Next(s, a), i, id)
    requires a.Open? ==> Backed(s, a.id)
    requires a.Provision? ==> a.rtp !in s.ledger.handedOut && a.sid != i
    ensures Safe(Next(s, a), i)
  {
    match a
    case Open(newcomer) => OpenHarmless(s, i, id, newcomer);
    case QueueRemoval(sid) => assert i != sid;
    case _ =>
  }

  lemma NextUnharmed(s: State, a: Action, id: string)
    requires DistinctIds(s) && Unprovisioned(s) && Unharmed(s, id) && Remembers(s, id) && Enabled(s, a)
    requires a.Open? ==> Backed(s, a.id)
    requires a.Provision? ==> a.rtp !in s.ledger.handedOut
    ensures Unharmed(Next(s, a), id)
  {
    var t := Next(s, a);
    forall i: nat | ActiveOf(t, i, id) && t.sessions[i].rtp != 0 ensures Safe(t, i) {
      ActiveBefore(s, a, i, id);
      if !(a.Provision? && a.sid == i) {
        StaysSafe(s, a, i, id);
      }
    }
  }

  lemma {:induction false} AlwaysBacked(states: seq<State>, actions: seq<Action>, i: nat, id: string)
    requires IsRun(states, actions) && i < |states|
    ensures Backed(states[i], id)
  {
    if i > 0 {
      AlwaysBacked(states, actions, i - 1, id);
      NextBacked(states[i - 1], actions[i - 1], id);
    }
  }

  lemma {:induction false} AlwaysDistinct(states: seq<State>, actions: seq<Action>, i: nat)
    requires IsRun(states, actions) && FreshIds(states, actions) && i < |states|
    ensures DistinctIds(states[i])
  {
    if i > 0 {
      AlwaysDistinct(states, actions, i - 1);
      AlwaysUnprovisioned(states, actions, i - 1);
      if actions[i - 1].Open? {
        AlwaysBacked(states, actions, i - 1, actions[i - 1].id);
      }
      NextDistinctIds(states[i - 1], actions[i - 1]);
    }
  }

  /** With fresh ids, and if registrations of this id do not interleave, no session of the id loses its sink or
      has a removal waiting for it before it has been set offline, whatever the sessions of other ids do. */
  lemma {:induction false} RemovalsAreSafe(states: seq<State>, actions: seq<Action>, i: nat, id: string)
    requires IsRun(states, actions) && FreshIds(states, actions) && i < |states|
    requires forall k :: 0 <= k <= i ==> !InterleavedOf(states[k], id)
    ensures Unharmed(states[i], id) && Remembers(states[i], id)
  {
    if i > 0 {
      var a := actions[i - 1];
      RemovalsAreSafe(states, actions, i - 1, id);
      AlwaysOwned(states, actions, i - 1, id);
      AlwaysDistinct(states, actions, i - 1);
      AlwaysUnprovisioned(states, actions, i - 1);
      if a.Open? {
        AlwaysBacked(states, actions, i - 1, a.id);
      }
      NextRemembers(states[i - 1], a, id);
      NextUnharmed(states[i - 1], a, id);
    }
  }

  // ------------------------------------------------------ one handler, start to end

  function Deliveries(sid: nat, msgs: seq<Msg>): seq<Action> {
    if msgs == [] then [] else Deliveries(sid, msgs[..|msgs| - 1]) + [Deliver(sid, msgs[|msgs| - 1])]
  }

  /** The steps of an accepted connection's handler. */
  function Handler(sid: nat, id: string, name: string, addr: string, rtp: nat, msgs: seq<Msg>): seq<Action> {
    [Open(id), Provision(sid, rtp), CommitSession(sid, name, addr)] + Deliveries(sid, msgs)
    + [GoOffline(sid), QueueRemoval(sid)]
  }

  lemma DeliverOne(t: State, sid: nat, msgs: seq<Msg>, v: State)
    requires msgs != [] && InPhase(t, sid, Live) && t.sessions[sid].id in t.nodes
    requires var id := t.sessions[sid].id;
             v == t.(nodes := t.nodes[id := ReceiveAll(t.nodes[id], msgs[..|msgs| - 1])])
    ensures var id := t.sessions[sid].id;
            && Enabled(v, Deliver(sid, msgs[|msgs| - 1]))
            && Next(v, Deliver(sid, msgs[|msgs| - 1])) == t.(nodes := t.nodes[id := ReceiveAll(t.nodes[id], msgs)])
  {
    var id, last := t.sessions[sid].id, msgs[|msgs| - 1];
    SetTwice(t.nodes, id, ReceiveAll(t.nodes[id], msgs[..|msgs| - 1]), ReceiveAll(t.nodes[id], msgs));
    assert Apply(v.nodes, Message(id, last)) == v.nodes[id := Receive(v.nodes[id], last)];
  }

  lemma SetTwice(m: map<string, Rec>, id: string, a: Rec, b: Rec)
    ensures m[id := a][id := b] == m[id := b]
  {
  }

  lemma {:induction false} DeliverAll(states: seq<State>, actions: seq<Action>, sid: nat, msgs: seq<Msg>)
    returns (more: seq<State>, taken: seq<Action>)
    requires Follows(states, actions)
    requires var t := states[|actions|]; InPhase(t, sid, Live) && t.sessions[sid].id in t.nodes
    ensures Follows(more, taken) && states <= more && taken == actions + Deliveries(sid, msgs)
    ensures var t := states[|actions|];
            var id := t.sessions[sid].id;
            more[|taken|] == t.(nodes := t.nodes[id := ReceiveAll(t.nodes[id], msgs)])
  {
    var t := states[|actions|];
    if msgs == [] {
      more, taken := states, actions;
      assert t.nodes[t.sessions[sid].id := t.nodes[t.sessions[sid].id]] == t.nodes;
    } else {
      more, taken := DeliverAll(states, actions, sid, msgs[..|msgs| - 1]);
      DeliverOne(t, sid, msgs, more[|taken|]);
      var next;
      next, more, taken := Extend(more, taken, Deliver(sid, msgs[|msgs| - 1]));
    }
  }

  lemma HandlerBegins(states: seq<State>, actions: seq<Action>, id: string, name: string, addr: string, rtp: nat)
    returns (more: seq<State>, taken: seq<Action>)
    requires Follows(states, actions)
    requires var s := states[|actions|]; id !in s.nodes || !s.nodes[id].online
    ensures Follows(more, taken) && states <= more
    ensures var s := states[|actions|];
            && taken == actions
                 + [Open(id), Provision(|s.sessions|, rtp), CommitSession(|s.sessions|, name, addr)]
            && more[|taken|] == State(s.sessions + [Session(id, rtp, s.ledger.started, Live)],
                                      s.nodes[id := Committed(name, addr, rtp, |s.sessions|)],
                                      HandOut(QueueStale(s.ledger, StaleId(s.nodes, id)), rtp))
  {
    var s, sid := states[|actions|], |states[|actions|].sessions|;
    var next;
    next, more, taken := Extend(states, actions, Open(id));
    next, more, taken := Extend(more, taken, Provision(sid, rtp));
    next, more, taken := Extend(more, taken, CommitSession(sid, name, addr));
    assert next.sessions == s.sessions + [Session(id, rtp, s.ledger.started, Live)];
    assert next.nodes == s.nodes[id := Committed(name, addr, rtp, sid)];
  }

  /** Where the handler's steps lead: the record has run through the messages and is offline, the id of a stale
      session and its own are queued for removal. */
  lemma HandlerEnds(s: State, id: string, name: string, addr: string, rtp: nat, msgs: seq<Msg>)
    returns (states: seq<State>)
    requires id !in s.nodes || !s.nodes[id].online
    ensures Follows(states, Handler(|s.sessions|, id, name, addr, rtp, msgs)) && states[0] == s
    ensures var t := states[|states| - 1];
            && t.nodes == s.nodes[id := Offline(ReceiveAll(Committed(name, addr, rtp, |s.sessions|), msgs))]
            && t.ledger == QueueOwn(HandOut(QueueStale(s.ledger, StaleId(s.nodes, id)), rtp), rtp)
  {
    var sid := |s.sessions|;
    var t, steps;
    states, steps := HandlerBegins([s], [], id, name, addr, rtp);
    var live := states[|steps|];
    states, steps := DeliverAll(states, steps, sid, msgs);
    SetTwice(s.nodes, id, live.nodes[id], ReceiveAll(live.nodes[id], msgs));
    t, states, steps := Extend(states, steps, GoOffline(sid));
    t, states, steps := Extend(states, steps, QueueRemoval(sid));
    SetTwice(s.nodes, id, ReceiveAll(live.nodes[id], msgs), Offline(ReceiveAll(live.nodes[id], msgs)));
    assert steps == Handler(sid, id, name, addr, rtp, msgs);
  }

  /** The ids that a handler queues: exactly that of a stale session, and its own at its end. */
  lemma HandlerQueues(s: State, id: string, name: string, addr: string, rtp: nat, msgs: seq<Msg>, removals: seq<int>)
    returns (states: seq<State>)
    requires id !in s.nodes || !s.nodes[id].online
    requires var stale := StaleId(s.nodes, id);
             removals == (if stale != 0 then [stale] else []) + (if rtp != 0 then [rtp as int] else [])
    ensures Follows(states, Handler(|s.sessions|, id, name, addr, rtp, msgs)) && states[0] == s
    ensures var t := states[|states| - 1];
            && t.nodes == s.nodes[id := Offline(ReceiveAll(Committed(name, addr, rtp, |s.sessions|), msgs))]
            && forall x: nat :: x != 0 ==> t.ledger.pending[x] == s.ledger.pending[x] + multiset(removals)[x]
    ensures forall x: nat :: x != 0 ==>
              multiset(removals)[x] == (if id in s.nodes && s.nodes[id].rtp == x then 1 else 0)
                                       + (if rtp == x then 1 else 0)
  {
    states := HandlerEnds(s, id, name, addr, rtp, msgs);
    var a, b := if StaleId(s.nodes, id) != 0 then [StaleId(s.nodes, id)] else [], if rtp != 0 then [rtp as int] else [];
    assert multiset(removals) == multiset(a) + multiset(b);
  }

  /** The handler's calls on the registry: what it returns is whether the connection was accepted, the ids it
      queued for removal, and how many syncs it asked for. */
  method ServeConnection(
      r: NodeRegistry, id: string, name: string, addr: string, session: nat, rtp: nat, heard: seq<Msg>)
    returns (accepted: bool, removals: seq<int>, syncs: nat)
    requires r.Valid()
    modifies r.Repr
    ensures r.Valid() && fresh(r.Repr - old(r.Repr))
    ensures accepted <==> id !in old(r.View()) || !old(r.View())[id].online
    ensures !accepted ==> r.View() == old(r.View()) && removals == [] && syncs == 0
    ensures accepted ==> r.View() == old(r.View())[id := Offline(
                           ReceiveAll(Committed(name, addr, rtp, session), heard))]
    ensures accepted ==> syncs == Asked(Committed(name, addr, rtp, session), heard)
    ensures accepted ==>
              var stale := StaleId(old(r.View()), id);
              removals == (if stale != 0 then [stale] else []) + (if rtp != 0 then [rtp as int] else [])
  {
    removals, syncs := [], 0;
    ghost var v := r.View();
    var stale;
    stale, accepted := r.PrepareRegistration(id);
    if !accepted {
      return;
    }
    if stale != 0 {
      removals := [stale];
    }
    syncs := RunSession(r, id, name, addr, session, rtp, heard);
    if rtp != 0 {
      removals := removals + [rtp];
    }
    PreparedOverwritten(v, id, Offline(ReceiveAll(Committed(name, addr, rtp, session), heard)));
  }

  lemma Rejected(s: State, id: string)
    requires id in s.nodes && s.nodes[id].online
    ensures Follows([s, s], [Open(id)])
  {
  }

  /** `handleSatelliteConn` after the register message, undisturbed by other handlers.  It takes the steps of the
      machine: `s` stands for the sessions so far, `states` for those at each step.  Without an address, or if
      AddRTPSink failed, it has no sink; a failed acknowledgement ends it before its first message. */
  method HandleSatelliteConn(
      r: NodeRegistry, id: string, name: string, addr: string, session: nat,
      reachable: bool, sink: Option<nat>, ackSent: bool, msgs: seq<Msg>, ghost s: State)
    returns (accepted: bool, removals: seq<int>, syncs: nat, ghost states: seq<State>)
    requires r.Valid() && s.nodes == r.View() && session == |s.sessions|
    modifies r.Repr
    ensures r.Valid() && fresh(r.Repr - old(r.Repr))
    ensures states != [] && states[0] == s && r.View() == states[|states| - 1].nodes
    ensures accepted <==> id !in s.nodes || !s.nodes[id].online
    ensures !accepted ==> removals == [] && syncs == 0 && states == [s, s] && Follows(states, [Open(id)])
    ensures accepted ==>
              var rtp, heard := if reachable && sink.Some? then sink.value else 0, if ackSent then msgs else [];
              && Follows(states, Handler(session, id, name, addr, rtp, heard))
              && syncs == |Gaps(Committed(name, addr, rtp, session), heard)|
    ensures forall x: nat :: x != 0 ==>
              states[|states| - 1].ledger.pending[x] == s.ledger.pending[x] + multiset(removals)[x]
    ensures accepted ==> forall x: nat :: x != 0 ==>
              multiset(removals)[x] == (if id in s.nodes && s.nodes[id].rtp == x then 1 else 0)
                                       + (if reachable && sink == Some(x) then 1 else 0)
  {
    states := [s, s];
    var rtp := if reachable && sink.Some? then sink.value else 0;
    var heard := if ackSent then msgs else [];
    accepted, removals, syncs := ServeConnection(r, id, name, addr, session, rtp, heard);
    if accepted {
      states := HandlerQueues(s, id, name, addr, rtp, heard, removals);
      AskedExactly(Committed(name, addr, rtp, session), heard);
    } else {
      Rejected(s, id);
    }
  }

  lemma PreparedOverwritten(v: map<string, Rec>, id: string, last: Rec)
    ensures Apply(v, Prepare(id))[id := last] == v[id := last]
  {
  }

  /** From commit to set-offline. */
  method RunSession(
      r: NodeRegistry, id: string, name: string, addr: string, session: nat, rtp: int, got: seq<Msg>)
    returns (syncs: nat)
    requires r.Valid()
    modifies r.Repr
    ensures r.Valid() && fresh(r.Repr - old(r.Repr))
    ensures r.View() == old(r.View())[id := Offline(ReceiveAll(Committed(name, addr, rtp, session), got))]
    ensures syncs == Asked(Committed(name, addr, rtp, session), got)
  {
    ghost var v, first := r.View(), Committed(name, addr, rtp, session);
    r.Commit(id, name, addr, rtp, session);
    syncs := ReadLoop(r, id, got);
    r.SetOffline(id);
    Overwritten(v, id, first, ReceiveAll(first, got));
  }

  lemma Overwritten(v: map<string, Rec>, id: string, a: Rec, b: Rec)
    ensures var w := v[id := a][id := b]; w[id := Offline(w[id])] == v[id := Offline(b)]
  {
  }

  function Asked(r: Rec, msgs: seq<Msg>): nat {
    if msgs == [] then 0
    else Asked(r, msgs[..|msgs| - 1])
         + (if AsksSync(ReceiveAll(r, msgs[..|msgs| - 1]), msgs[|msgs| - 1]) then 1 else 0)
  }

  /** The messages at which a sync is asked for: events that do not carry the number expected then. */
  ghost function Gaps(r: Rec, msgs: seq<Msg>): set<nat> {
    set k: nat | k < |msgs| && msgs[k].Event? && ReceiveAll(r, msgs[..k]).nextSeq != -1
                 && msgs[k].number != ReceiveAll(r, msgs[..k]).nextSeq
  }

  /** One sync is asked for at each of them. */
  lemma {:induction false} AskedExactly(r: Rec, msgs: seq<Msg>)
    ensures Asked(r, msgs) == |Gaps(r, msgs)|
  {
    if msgs != [] {
      var last := |msgs| - 1;
      AskedExactly(r, msgs[..last]);
      forall k: nat | k < last ensures k in Gaps(r, msgs) <==> k in Gaps(r, msgs[..last]) {
        assert msgs[..last][..k] == msgs[..k] && msgs[..last][k] == msgs[k];
      }
      assert Gaps(r, msgs) == Gaps(r, msgs[..last]) + (if last in Gaps(r, msgs) then {last} else {});
    }
  }

  method ReadOne(r: NodeRegistry, id: string, msg: Msg) returns (gap: bool)
    requires r.Valid() && id in r.View()
    modifies r.Repr
    ensures r.Valid() && fresh(r.Repr - old(r.Repr))
    ensures r.View() == old(r.View())[id := Receive(old(r.View())[id], msg)]
    ensures gap == AsksSync(old(r.View())[id], msg)
  {
    gap := r.Perform(Message(id, msg));
  }

  /** `satelliteReadLoop`: the record runs through the messages, no other record changes. */
  method ReadLoop(r: NodeRegistry, id: string, msgs: seq<Msg>) returns (syncs: nat)
    requires r.Valid() && id in r.View()
    modifies r.Repr
    ensures r.Valid() && fresh(r.Repr - old(r.Repr))
    ensures r.View() == old(r.View())[id := ReceiveAll(old(r.View())[id], msgs)]
    ensures syncs == Asked(old(r.View())[id], msgs)
  {
    syncs := 0;
    ghost var start := r.View();
    for k := 0 to |msgs|
      invariant r.Valid() && fresh(r.Repr - old(r.Repr))
      invariant r.View() == start[id := ReceiveAll(start[id], msgs[..k])]
      invariant syncs == Asked(start[id], msgs[..k])
    {
      assert msgs[..k + 1][..k] == msgs[..k];
      var gap := ReadOne(r, id, msgs[k]);
      if gap {
        syncs := syncs + 1;
      }
    }
    assert msgs[..|msgs|] == msgs;
  }
}
