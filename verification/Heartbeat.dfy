/** The master's heartbeat on one satellite connection, with sends that take no time.

    Time passes only when the heartbeat goroutine has nothing to do: a ready channel or an expired timer is
    served before the clock moves on.  The ticker channel and the pong channel hold one element each. */
module Heartbeat {
  datatype Config = Config(interval: int, pongTimeout: int)

  /** Waiting for the ticker, or for the pong of a ping until a deadline. */
  datatype Phase = Waiting | Awaiting(deadline: int)

  datatype State = State(
    now: int,
    nextTick: int,       // when the ticker fires next
    tick: bool,          // the ticker channel
    phase: Phase,
    slot: bool,          // the pong channel
    asked: nat,          // pings the satellite has not answered yet
    pongs: nat,          // pongs on their way
    cut: bool)           // the connection was closed

  datatype Action =
    | Pass(d: int)
    | Tick
    | Ping               // the goroutine takes a tick and sends a ping
    | Answer             // the satellite sends the pong of a ping
    | Stray              // the satellite sends a pong that answers no ping
    | Arrive             // the read loop puts a pong into the channel, or drops it
    | Accept             // the goroutine takes the pong
    | Timeout

  predicate Fits(c: Config) {
    c.interval > 0 && c.pongTimeout > 0
  }

  ghost predicate Init(c: Config, s: State) {
    && Fits(c) && s.nextTick == s.now + c.interval && !s.tick && s.phase.Waiting? && !s.slot
    && s.asked == 0 && s.pongs == 0 && !s.cut
  }

  /** The goroutine, the ticker or the watchdog timer could act now. */
  predicate Urgent(s: State) {
    !s.cut && (s.now >= s.nextTick
               || (s.phase.Waiting? && s.tick)
               || (s.phase.Awaiting? && (s.slot || s.now >= s.phase.deadline)))
  }

  predicate Enabled(s: State, a: Action) {
    match a
    case Pass(d) => d > 0 && !Urgent(s)
                    && (!s.cut ==> s.now + d <= s.nextTick
                                   && (s.phase.Awaiting? ==> s.now + d <= s.phase.deadline))
    case Tick => !s.cut && s.now >= s.nextTick
    case Ping => !s.cut && s.phase.Waiting? && s.tick
    case Answer => s.asked > 0
    case Stray => true
    case Arrive => s.pongs > 0
    case Accept => !s.cut && s.phase.Awaiting? && s.slot
    case Timeout => !s.cut && s.phase.Awaiting? && s.now >= s.phase.deadline
  }

  function Next(c: Config, s: State, a: Action): State
    requires Enabled(s, a)
  {
    match a
    case Pass(d) => s.(now := s.now + d)
    case Tick => s.(tick := true, nextTick := s.nextTick + c.interval)
    case Ping => s.(tick := false, phase := Awaiting(s.now + c.pongTimeout), asked := s.asked + 1)
    case Answer => s.(asked := s.asked - 1, pongs := s.pongs + 1)
    case Stray => s.(pongs := s.pongs + 1)
    case Arrive => s.(pongs := s.pongs - 1, slot := true)
    case Accept => s.(slot := false, phase := Waiting)
    case Timeout => s.(cut := true)
  }

  ghost predicate IsRun(c: Config, states: seq<State>, actions: seq<Action>) {
    && |states| == |actions| + 1
    && Init(c, states[0])
    && forall i :: 0 <= i < |actions| ==>
         Enabled(states[i], actions[i]) && states[i + 1] == Next(c, states[i], actions[i])
  }

  // -------------------------------------------------------------------- deadline

  /** The goroutine's clock: ticks are never overdue, and neither is a watchdog timer. */
  predicate OnTime(c: Config, s: State) {
    && Fits(c)
    && (!s.cut ==> s.now <= s.nextTick <= s.now + c.interval
                   && (s.phase.Awaiting? ==> s.now <= s.phase.deadline <= s.now + c.pongTimeout))
  }

  lemma {:induction false} AlwaysOnTime(c: Config, states: seq<State>, actions: seq<Action>, i: nat)
    requires IsRun(c, states, actions) && i < |states|
    ensures OnTime(c, states[i])
  {
    if i > 0 {
      AlwaysOnTime(c, states, actions, i - 1);
      assert states[i] == Next(c, states[i - 1], actions[i - 1]);
    }
  }

  /** The instant of the next ping. */
  function NextPing(s: State): int {
    if s.tick then s.now else s.nextTick
  }

  /** The instant of the ping after that: a tick that is due while another waits may be dropped. */
  function PingAfterNext(c: Config, s: State): int {
    if s.tick && s.now < s.nextTick then s.nextTick else s.nextTick + c.interval
  }

  /** When the connection is cut at the latest if no pong arrives from now on: a pong in the slot answers
      one more ping. */
  function LatestCut(c: Config, s: State): int {
    match s.phase
    case Awaiting(deadline) => if s.slot then NextPing(s) + c.pongTimeout else deadline
    case Waiting => (if s.slot then PingAfterNext(c, s) else NextPing(s)) + c.pongTimeout
  }

  /** Silence never moves the latest cut back. */
  lemma CutDoesNotRecede(c: Config, s: State, a: Action)
    requires OnTime(c, s) && !s.cut && Enabled(s, a) && !a.Arrive?
    ensures var t := Next(c, s, a); t.cut || LatestCut(c, t) <= LatestCut(c, s)
  {
  }

  lemma CutAhead(c: Config, s: State)
    requires OnTime(c, s) && !s.cut
    ensures s.now <= LatestCut(c, s) <= s.now + 2 * c.interval + c.pongTimeout
  {
  }

  lemma {:induction false} SilenceCounts(c: Config, states: seq<State>, actions: seq<Action>, p: nat, i: nat)
    requires IsRun(c, states, actions) && p <= i < |states|
    requires forall k :: p <= k < i ==> !actions[k].Arrive?
    ensures states[i].cut || LatestCut(c, states[i]) <= states[p].now + 2 * c.interval + c.pongTimeout
  {
    AlwaysOnTime(c, states, actions, p);
    if i == p {
      if !states[p].cut {
        CutAhead(c, states[p]);
      }
    } else {
      SilenceCounts(c, states, actions, p, i - 1);
      AlwaysOnTime(c, states, actions, i - 1);
      assert states[i] == Next(c, states[i - 1], actions[i - 1]);
      if !states[i - 1].cut {
        CutDoesNotRecede(c, states[i - 1], actions[i - 1]);
      }
    }
  }

  /** A satellite from which no pong arrives after step p has been cut off once the clock is past
      2 intervals and a pong timeout from then. */
  lemma Deadline(c: Config, states: seq<State>, actions: seq<Action>, p: nat, i: nat)
    requires IsRun(c, states, actions) && p <= i < |states|
    requires forall k :: p <= k < i ==> !actions[k].Arrive?
    requires states[i].now > states[p].now + 2 * c.interval + c.pongTimeout
    ensures states[i].cut
  {
    SilenceCounts(c, states, actions, p, i);
    AlwaysOnTime(c, states, actions, i);
    if !states[i].cut {
      CutAhead(c, states[i]);
    }
  }

  // ----------------------------------------------------- who answers in time stays

  lemma AwaitingStep(c: Config, s: State, a: Action)
    requires Enabled(s, a) && Next(c, s, a).phase.Awaiting? && !Next(c, s, a).cut && !a.Ping?
    ensures s.phase == Next(c, s, a).phase && !s.cut
    ensures s.slot ==> Next(c, s, a).slot && Next(c, s, a).now == s.now
    ensures a.Arrive? ==> Next(c, s, a).slot && Next(c, s, a).now == s.now
  {
  }

  /** The watchdog runs since a ping; a pong that arrived since then is in the slot, and of this instant. */
  lemma {:induction false} AwaitingSince(c: Config, states: seq<State>, actions: seq<Action>, i: nat) returns (p: nat)
    requires IsRun(c, states, actions) && i < |states| && states[i].phase.Awaiting? && !states[i].cut
    ensures p < i && actions[p].Ping? && states[i].phase.deadline == states[p].now + c.pongTimeout
    ensures forall q :: p < q < i && actions[q].Arrive? ==> states[i].slot && states[q].now == states[i].now
  {
    var s, a := states[i - 1], actions[i - 1];
    assert Enabled(s, a) && states[i] == Next(c, s, a);
    if a.Ping? {
      p := i - 1;
    } else {
      AwaitingStep(c, s, a);
      p := AwaitingSince(c, states, actions, i - 1);
    }
  }

  lemma {:induction false} CutByTimeout(c: Config, states: seq<State>, actions: seq<Action>, i: nat) returns (t: nat)
    requires IsRun(c, states, actions) && i < |states| && states[i].cut
    ensures t < i && actions[t].Timeout? && !states[t].cut && states[t].phase.Awaiting?
            && states[t].now >= states[t].phase.deadline
  {
    var s, a := states[i - 1], actions[i - 1];
    assert Enabled(s, a) && states[i] == Next(c, s, a);
    if a.Timeout? {
      t := i - 1;
    } else {
      t := CutByTimeout(c, states, actions, i - 1);
    }
  }

  /** A connection is cut only for a ping that was not answered in time: the pong timeout had passed since that
      ping, and every pong that arrived in between came when it had passed, or later. */
  lemma CutOnlyIfLate(c: Config, states: seq<State>, actions: seq<Action>, i: nat) returns (p: nat, t: nat)
    requires IsRun(c, states, actions) && i < |states| && states[i].cut
    ensures p < t < i && actions[p].Ping? && actions[t].Timeout?
    ensures states[t].now >= states[p].now + c.pongTimeout
    ensures forall q :: p < q < t && actions[q].Arrive? ==> states[q].now >= states[p].now + c.pongTimeout
  {
    t := CutByTimeout(c, states, actions, i);
    p := AwaitingSince(c, states, actions, t);
  }

  // ------------------------------------------------------------------ ping times

  function Ticks(actions: seq<Action>, i: nat): nat
    requires i <= |actions|
  {
    if i == 0 then 0 else Ticks(actions, i - 1) + (if actions[i - 1].Tick? then 1 else 0)
  }

  function Pings(actions: seq<Action>, i: nat): nat
    requires i <= |actions|
  {
    if i == 0 then 0 else Pings(actions, i - 1) + (if actions[i - 1].Ping? then 1 else 0)
  }

  lemma OneMore(n: int, interval: int)
    ensures (n + 1) * interval == n * interval + interval
  {
  }

  lemma {:induction false} TickerKept(c: Config, states: seq<State>, actions: seq<Action>, i: nat)
    requires IsRun(c, states, actions) && i < |states|
    ensures states[i].nextTick == states[0].now + (Ticks(actions, i) + 1) * c.interval
    ensures Pings(actions, i) + (if states[i].tick then 1 else 0) <= Ticks(actions, i)
  {
    if i > 0 {
      TickerKept(c, states, actions, i - 1);
      OneMore(Ticks(actions, i - 1) + 1, c.interval);
      assert Enabled(states[i - 1], actions[i - 1]) && states[i] == Next(c, states[i - 1], actions[i - 1]);
    }
  }

  /** The ticker fires every interval, neither earlier nor later, and each ping takes one tick. */
  lemma PingTimes(c: Config, states: seq<State>, actions: seq<Action>, i: nat)
    requires IsRun(c, states, actions) && i < |actions|
    ensures actions[i].Tick? ==> states[i].now == states[0].now + (Ticks(actions, i) + 1) * c.interval
    ensures Pings(actions, i) <= Ticks(actions, i)
  {
    TickerKept(c, states, actions, i);
    AlwaysOnTime(c, states, actions, i);
    assert Enabled(states[i], actions[i]);
  }

  // ------------------------------------------------------------------ attribution

  function Outstanding(s: State): nat {
    s.asked + s.pongs + (if s.slot then 1 else 0)
  }

  /** If the satellite answers each ping once and sends no other pong, exactly the current ping is
      outstanding, so the slot is empty whenever a ping is sent: no pong is credited to a later ping. */
  lemma {:induction false} PongsMatchPings(c: Config, states: seq<State>, actions: seq<Action>, i: nat)
    requires IsRun(c, states, actions) && i < |states|
    requires forall a :: a in actions ==> !a.Stray?
    ensures Outstanding(states[i]) == if states[i].phase.Awaiting? then 1 else 0
    ensures i < |actions| && actions[i].Ping? ==> !states[i].slot && states[i].pongs == 0 && states[i].asked == 0
  {
    if i > 0 {
      PongsMatchPings(c, states, actions, i - 1);
      assert actions[i - 1] in actions;
      assert states[i] == Next(c, states[i - 1], actions[i - 1]);
    }
  }
}
