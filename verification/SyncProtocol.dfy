/** One session of the master-satellite sync protocol, as a state machine.

    On the satellite, handlers change settings and then trigger the one-slot push channel; the event
    forwarder and the read loop both push full lists, and each takes its snapshot before it gets to write.
    The link is in order.  The master runs the rules of module `Records`. */
module SyncProtocol {
  import opened Options
  import opened Stores
  import opened Records
  import opened Listings

  const HUB_BUFFER := 64

  /** A hub message; only Bluetooth events are `map[string]string` with one of the two forwarded types. */
  datatype HubMsg = HubMsg(stringMap: bool, mac: Mac, kind: string)

  /** A goroutine that pushes: it has begun a push, or holds a snapshot not yet written. */
  datatype Pusher = Idle | Begun | Holding(items: seq<Device>)

  datatype State = State(
    settings: Settings,
    handlers: nat,      // handlers between their change and their trigger
    slot: bool,         // the push channel
    buffer: seq<HubMsg>,
    number: nat,        // the forwarder's next number
    started: bool,      // the forwarder runs, i.e. the initial push was written
    forwarder: Pusher,
    reader: Pusher,
    syncs: nat,         // request_sync messages on their way to the satellite
    link: seq<Msg>,     // messages on their way to the master
    rec: Rec,
    received: seq<Msg>)

  datatype Who = Forwarder | Reader

  datatype Action =
    | Change(settings: Settings)
    | Trigger
    | Nudge                        // a loopback started or stopped
    | Learn(mac: Mac)              // a tick registers a speaker, without a trigger
    | Broadcast(msg: HubMsg)
    | ForwardEvent
    | TakeSlot
    | TakeSync
    | SyncTimer
    | AnswerPing
    | Snap(who: Who, peers: seq<Peer>, playing: set<Mac>, mixer: Mixer)
    | Write(who: Who)
    | Deliver

  /** A session begins right after `commit`; the reader's goroutine owes the initial push. */
  ghost predicate Init(s: State) {
    && s.number == 0 && !s.started
    && s.forwarder == Idle && s.reader == Begun && s.syncs == 0
    && s.link == [] && s.received == []
    && s.rec.online && s.rec.devices == [] && s.rec.nextSeq == 0
  }

  function Of(s: State, who: Who): Pusher {
    if who.Forwarder? then s.forwarder else s.reader
  }

  function With(s: State, who: Who, p: Pusher): State {
    if who.Forwarder? then s.(forwarder := p) else s.(reader := p)
  }

  predicate Enabled(s: State, a: Action) {
    match a
    case Trigger => s.handlers > 0
    case ForwardEvent => s.started && s.forwarder.Idle? && s.buffer != []
    case TakeSlot => s.started && s.forwarder.Idle? && s.slot
    case TakeSync => s.started && s.reader.Idle? && s.syncs > 0
    case AnswerPing => s.started && s.reader.Idle?
    case Snap(who, _, _, _) => Of(s, who).Begun?
    case Write(who) => Of(s, who).Holding?
    case Deliver => s.link != []
    case _ => true
  }

  predicate Forwards(m: HubMsg) {
    m.stringMap && (m.kind == "connected" || m.kind == "disconnected")
  }

  function Next(s: State, a: Action): State
    requires Enabled(s, a)
  {
    match a
    case Change(settings) => s.(settings := settings, handlers := s.handlers + 1)
    case Trigger => s.(handlers := s.handlers - 1, slot := true)
    case Nudge => s.(slot := true)
    case Learn(mac) => s.(settings := s.settings.(known := s.settings.known[mac := true]))
    case Broadcast(msg) => if |s.buffer| < HUB_BUFFER then s.(buffer := s.buffer + [msg]) else s
    case ForwardEvent =>
      var m, rest := s.buffer[0], s.buffer[1..];
      if !Forwards(m) then s.(buffer := rest)
      else s.(buffer := rest, link := s.link + [Event(m.mac, m.kind, s.number)], number := s.number + 1)
    case TakeSlot => s.(slot := false, forwarder := Begun)
    case TakeSync => s.(syncs := s.syncs - 1, reader := Begun)
    case SyncTimer => s.(syncs := s.syncs + 1)
    case AnswerPing => s.(link := s.link + [Pong])
    case Snap(who, peers, playing, mixer) =>
      With(s, who, Holding(PushList(peers, s.settings, playing, mixer)))
    case Write(who) =>
      With(s, who, Idle).(link := s.link + [Devices(Of(s, who).items)], started := true)
    case Deliver =>
      s.(link := s.link[1..],
         rec := Receive(s.rec, s.link[0]),
         received := s.received + [s.link[0]],
         syncs := if AsksSync(s.rec, s.link[0]) then s.syncs + 1 else s.syncs)
  }

  /** The states of a run, or nothing if an action was not enabled. */
  ghost predicate IsRun(states: seq<State>, actions: seq<Action>) {
    && |states| == |actions| + 1
    && Init(states[0])
    && forall i :: 0 <= i < |actions| ==>
         Enabled(states[i], actions[i]) && states[i + 1] == Next(states[i], actions[i])
  }

  // ---------------------------------------------- the cache replays what arrived

  /** Events on the link carry the numbers from `first` up to, not including, `end`. */
  predicate Numbered(link: seq<Msg>, first: nat, end: nat) {
    if link == [] then first == end
    else if link[0].Event? then link[0].number == first && Numbered(link[1..], first + 1, end)
    else Numbered(link[1..], first, end)
  }

  lemma {:induction false} NumberedAppend(link: seq<Msg>, first: nat, end: nat, m: Msg)
    requires Numbered(link, first, end)
    requires m.Event? ==> m.number == end
    ensures Numbered(link + [m], first, if m.Event? then end + 1 else end)
  {
    if link != [] {
      assert (link + [m])[1..] == link[1..] + [m];
      NumberedAppend(link[1..], if link[0].Event? then first + 1 else first, end, m);
    }
  }

  /** The expected number is "any" or that of the oldest undelivered event, and the device list is the
      replay of what was received. */
  ghost predicate InStep(s: State) {
    && (exists oldest: nat :: Numbered(s.link, oldest, s.number) && (s.rec.nextSeq == -1 || s.rec.nextSeq == oldest))
    && s.rec.devices == Replay(s.received)
  }

  lemma DeliverInStep(s: State)
    requires InStep(s) && s.link != []
    ensures !AsksSync(s.rec, s.link[0]) && InStep(Next(s, Deliver))
  {
    var oldest: nat :| Numbered(s.link, oldest, s.number) && (s.rec.nextSeq == -1 || s.rec.nextSeq == oldest);
    var t := Next(s, Deliver);
    assert t.received[..|s.received|] == s.received;
    assert Numbered(t.link, if s.link[0].Event? then oldest + 1 else oldest, t.number);
  }

  lemma NextInStep(s: State, a: Action)
    requires InStep(s) && Enabled(s, a)
    ensures InStep(Next(s, a))
  {
    var t := Next(s, a);
    if a.Deliver? {
      DeliverInStep(s);
    } else {
      var oldest: nat :| Numbered(s.link, oldest, s.number) && (s.rec.nextSeq == -1 || s.rec.nextSeq == oldest);
      if t.link != s.link {
        NumberedAppend(s.link, oldest, s.number, t.link[|s.link|]);
        assert t.link == s.link + [t.link[|s.link|]];
      }
      assert Numbered(t.link, oldest, t.number);
    }
  }

  lemma {:induction false} AlwaysInStep(states: seq<State>, actions: seq<Action>, i: nat)
    requires IsRun(states, actions) && i < |states|
    ensures InStep(states[i])
  {
    if i == 0 {
      assert Numbered(states[0].link, 0, states[0].number);
    } else {
      AlwaysInStep(states, actions, i - 1);
      NextInStep(states[i - 1], actions[i - 1]);
    }
  }

  /** At every moment of a session, under any interleaving of the two pushers, the node's device list is
      the last received push with every later delta applied in order. */
  lemma CacheIsReplay(states: seq<State>, actions: seq<Action>, i: nat)
    requires IsRun(states, actions) && i < |states|
    ensures states[i].rec.devices == Replay(states[i].received)
  {
    AlwaysInStep(states, actions, i);
  }

  /** The gap branch is unreachable: no message ever makes the master ask for a sync, although the hub
      may have dropped events. */
  lemma GapUnreachable(states: seq<State>, actions: seq<Action>, i: nat)
    requires IsRun(states, actions) && i < |actions| && actions[i].Deliver?
    ensures !AsksSync(states[i].rec, states[i].link[0])
  {
    AlwaysInStep(states, actions, i);
    DeliverInStep(states[i]);
  }

  // ------------------------------------------------- no settings change is lost

  function LastPush(link: seq<Msg>, otherwise: seq<Device>): seq<Device> {
    if link == [] then otherwise
    else if link[|link| - 1].Devices? then link[|link| - 1].items
    else LastPush(link[..|link| - 1], otherwise)
  }

  /** The list the cache will be built on once the link is drained. */
  function Latest(s: State): seq<Device> {
    LastPush(s.link, s.rec.devices)
  }

  /** The step at which this goroutine last took a snapshot. */
  function SnapOf(actions: seq<Action>, i: nat, who: Who): Option<nat>
    requires i <= |actions|
  {
    if i == 0 then None
    else if actions[i - 1].Snap? && actions[i - 1].who == who then Some(i - 1) else SnapOf(actions, i - 1, who)
  }

  /** The snapshot of the push that was written last. */
  function LastWritten(actions: seq<Action>, i: nat): Option<nat>
    requires i <= |actions|
  {
    if i == 0 then None
    else if actions[i - 1].Write? then SnapOf(actions, i - 1, actions[i - 1].who) else LastWritten(actions, i - 1)
  }

  predicate IsSnap(actions: seq<Action>, i: nat, j: nat)
    requires i <= |actions|
  {
    j < i && actions[j].Snap?
  }

  /** The list pushed with the snapshot of step j. */
  function PushAt(states: seq<State>, actions: seq<Action>, j: nat): seq<Device>
    requires j < |actions| < |states| && actions[j].Snap?
  {
    PushList(actions[j].peers, states[j].settings, actions[j].playing, actions[j].mixer)
  }

  /** Two lists that differ in connected flags only. */
  ghost predicate Alike(a: seq<Device>, b: seq<Device>) {
    && |a| == |b|
    && forall n :: 0 <= n < |a| ==> a[n] == b[n].(connected := a[n].connected)
  }

  lemma {:induction false} MarkAlike(items: seq<Device>, mac: Mac, connected: bool)
    ensures Alike(Mark(items, mac, connected), items)
  {
    forall n | 0 <= n < |items|
      ensures Mark(items, mac, connected)[n] == items[n].(connected := Mark(items, mac, connected)[n].connected)
    {
      MarkExact(items, mac, connected, n);
    }
  }

  lemma {:induction false} LastPushTail(link: seq<Msg>, otherwise: seq<Device>)
    requires link != []
    ensures LastPush(link, otherwise)
         == LastPush(link[1..], if link[0].Devices? then link[0].items else otherwise)
  {
    if |link| > 1 && !link[|link| - 1].Devices? {
      LastPushTail(link[..|link| - 1], otherwise);
      assert link[1..][..|link| - 2] == link[..|link| - 1][1..];
    }
  }

  lemma LastPushAppend(link: seq<Msg>, m: Msg, otherwise: seq<Device>)
    ensures LastPush(link + [m], otherwise) == if m.Devices? then m.items else LastPush(link, otherwise)
  {
    assert (link + [m])[..|link|] == link;
  }

  lemma {:induction false} LastPushAlike(link: seq<Msg>, a: seq<Device>, b: seq<Device>)
    requires Alike(b, a)
    ensures Alike(LastPush(link, b), LastPush(link, a))
  {
    if link != [] && !link[|link| - 1].Devices? {
      LastPushAlike(link[..|link| - 1], a, b);
    }
  }

  lemma DeliverAlike(s: State)
    requires s.link != []
    ensures Alike(Latest(Next(s, Deliver)), Latest(s))
  {
    var m, t := s.link[0], Next(s, Deliver);
    LastPushTail(s.link, s.rec.devices);
    if m.Event? {
      MarkAlike(s.rec.devices, m.mac, m.event == "connected");
      LastPushAlike(t.link, s.rec.devices, t.rec.devices);
    }
  }

  lemma AlikeSelf(items: seq<Device>)
    ensures Alike(items, items)
  {
  }

  lemma SameLatest(s: State, a: Action)
    requires Enabled(s, a) && !a.Deliver? && !a.ForwardEvent? && !a.AnswerPing? && !a.Write?
    ensures Latest(Next(s, a)) == Latest(s)
  {
  }

  lemma ForwardLatest(s: State)
    requires Enabled(s, ForwardEvent)
    ensures Latest(Next(s, ForwardEvent)) == Latest(s)
  {
    var m := s.buffer[0];
    LastPushAppend(s.link, Event(m.mac, m.kind, s.number), s.rec.devices);
  }

  /** Every other step but a write leaves what the cache will be built on, up to connected flags. */
  lemma NextAlike(s: State, a: Action)
    requires Enabled(s, a)
    ensures if a.Write? then Latest(Next(s, a)) == Of(s, a.who).items else Alike(Latest(Next(s, a)), Latest(s))
  {
    AlikeSelf(Latest(s));
    match a
    case Deliver => DeliverAlike(s);
    case ForwardEvent => ForwardLatest(s);
    case AnswerPing => LastPushAppend(s.link, Pong, s.rec.devices);
    case Write(who) => LastPushAppend(s.link, Devices(Of(s, who).items), s.rec.devices);
    case _ => SameLatest(s, a);
  }

  lemma HeldStep(s: State, a: Action, who: Who)
    requires Enabled(s, a) && Of(Next(s, a), who).Holding?
    ensures if a.Snap? && a.who == who
            then Of(Next(s, a), who).items == PushList(a.peers, s.settings, a.playing, a.mixer)
            else Of(Next(s, a), who) == Of(s, who)
  {
  }

  lemma {:induction false} HeldTraced(states: seq<State>, actions: seq<Action>, i: nat, who: Who)
    requires IsRun(states, actions) && i < |states| && Of(states[i], who).Holding?
    ensures var j := SnapOf(actions, i, who);
            j.Some? && IsSnap(actions, i, j.value) && Of(states[i], who).items == PushAt(states, actions, j.value)
  {
    if i > 0 {
      var s, a := states[i - 1], actions[i - 1];
      HeldStep(s, a, who);
      if !(a.Snap? && a.who == who) {
        HeldTraced(states, actions, i - 1, who);
      }
    }
  }

  /** Whatever overlaps, what the cache will be built on is the push written last. */
  lemma {:induction false} LatestTraced(states: seq<State>, actions: seq<Action>, i: nat)
    requires IsRun(states, actions) && i < |states|
    ensures match LastWritten(actions, i)
            case Some(j) => IsSnap(actions, i, j) && Alike(Latest(states[i]), PushAt(states, actions, j))
            case None => Latest(states[i]) == []
  {
    if i > 0 {
      LatestTraced(states, actions, i - 1);
      var s, a := states[i - 1], actions[i - 1];
      assert Enabled(s, a) && states[i] == Next(s, a);
      NextAlike(s, a);
      if a.Write? {
        HeldTraced(states, actions, i - 1, a.who);
      }
    }
  }

  /** The settings of a pushed device have not changed since the push; a volume that was not stored then
      was not stored since, or is the one that the mixer had. */
  predicate Kept(d: Device, was: Settings, now: Settings) {
    && Knows(now, d.mac)
    && GetOr(was.delays, d.mac, 0) == GetOr(now.delays, d.mac, 0)
    && GetOr(was.mutes, d.mac, false) == GetOr(now.mutes, d.mac, false)
    && (d.mac in now.volumes ==> GetOr(was.volumes, d.mac, d.volume) == now.volumes[d.mac])
  }

  ghost predicate AllKept(items: seq<Device>, was: Settings, now: Settings) {
    forall n :: 0 <= n < |items| ==> Kept(items[n], was, now)
  }

  predicate Quiescent(s: State) {
    s.handlers == 0 && !s.slot && s.forwarder.Idle? && s.link == []
  }

  lemma AlikeCarries(a: seq<Device>, b: seq<Device>, was: Settings, now: Settings)
    requires Alike(a, b) && AllCarry(b, was)
    ensures AllCarry(a, now) <==> AllKept(b, was, now)
  {
    forall n | 0 <= n < |b| ensures Carries(a[n], now) <==> Kept(b[n], was, now) {
      assert Carries(b[n], was);
    }
  }

  /** Whatever overlaps: once the link is drained, every cached device carries the settings now stored if
      and only if the push written last took its snapshot when the settings of the devices it lists were
      the present ones. */
  lemma CacheCurrent(states: seq<State>, actions: seq<Action>, i: nat)
    requires IsRun(states, actions) && i < |states| && states[i].link == []
    ensures var j := LastWritten(actions, i);
            && (j.Some? ==> IsSnap(actions, i, j.value))
            && (AllCarry(states[i].rec.devices, states[i].settings) <==>
                  j.Some? ==> AllKept(PushAt(states, actions, j.value), states[j.value].settings, states[i].settings))
  {
    LatestTraced(states, actions, i);
    var j := LastWritten(actions, i);
    if j.Some? {
      var a := actions[j.value];
      PushCarries(a.peers, states[j.value].settings, a.playing, a.mixer);
      AlikeCarries(states[i].rec.devices, PushAt(states, actions, j.value), states[j.value].settings,
                   states[i].settings);
    }
  }

  // --------------------------------------------- writes in the order of snapshots

  /** Something will still cause a push that takes its snapshot later. */
  predicate Owed(s: State) {
    s.handlers > 0 || s.slot || s.forwarder.Begun?
  }

  predicate Overlap(s: State) {
    s.forwarder.Holding? && s.reader.Holding?
  }

  /** No push is written after one with a later snapshot. */
  ghost predicate InSnapOrder(actions: seq<Action>, i: nat)
    requires i <= |actions|
  {
    forall m, n :: 0 <= m <= n <= i && LastWritten(actions, m).Some? && LastWritten(actions, n).Some? ==>
      LastWritten(actions, m).value <= LastWritten(actions, n).value
  }

  /** Each change, and each start or stop of a loopback, is followed by a snapshot of the forwarder, or one is
      still to come. */
  lemma {:induction false} ChangeSnapped(states: seq<State>, actions: seq<Action>, i: nat, c: nat) returns (j: nat)
    requires IsRun(states, actions) && c < i < |states| && !Owed(states[i])
    requires actions[c].Change? || actions[c].Nudge?
    ensures c < j < i && actions[j].Snap? && actions[j].who.Forwarder?
  {
    var s, a := states[i - 1], actions[i - 1];
    assert Enabled(s, a) && states[i] == Next(s, a);
    if a.Snap? && a.who.Forwarder? {
      j := i - 1;
    } else {
      j := ChangeSnapped(states, actions, i - 1, c);
    }
  }

  /** A snapshot of the forwarder is still held, or a push at least as new was written. */
  lemma {:induction false} SnapWritten(states: seq<State>, actions: seq<Action>, i: nat, j: nat) returns (w: nat)
    requires IsRun(states, actions) && j < i < |states| && actions[j].Snap? && actions[j].who.Forwarder?
    ensures if states[i].forwarder.Holding? && SnapOf(actions, i, Forwarder) == Some(j) then true
            else w <= i && LastWritten(actions, w).Some? && LastWritten(actions, w).value >= j
  {
    w := 0;
    var s, a := states[i - 1], actions[i - 1];
    assert Enabled(s, a) && states[i] == Next(s, a);
    if j < i - 1 {
      w := SnapWritten(states, actions, i - 1, j);
      if s.forwarder.Holding? && SnapOf(actions, i - 1, Forwarder) == Some(j) && a == Write(Forwarder) {
        w := i;
      }
    }
  }

  /** Without a change the devices of a list keep their settings: only new speakers become known. */
  lemma {:induction false} KeptWithoutChange(
      states: seq<State>, actions: seq<Action>, j: nat, i: nat, items: seq<Device>)
    requires IsRun(states, actions) && j <= i < |states| && AllCarry(items, states[j].settings)
    requires forall c :: j <= c < i ==> !actions[c].Change?
    ensures AllCarry(items, states[i].settings)
  {
    if j < i {
      KeptWithoutChange(states, actions, j, i - 1, items);
      assert states[i] == Next(states[i - 1], actions[i - 1]);
      forall n | 0 <= n < |items| ensures Carries(items[n], states[i].settings) {
        assert Carries(items[n], states[i - 1].settings);
      }
    }
  }

  /** If pushes are written in the order of their snapshots, overlapping or not, then whenever all handlers
      have finished, the slot is empty, the forwarder idle and the link drained, every cached device is
      known to the satellite and carries its stored delay and mute, and its volume where one is stored. */
  lemma NoChangeLostInOrder(states: seq<State>, actions: seq<Action>, i: nat)
    requires IsRun(states, actions) && i < |states| && Quiescent(states[i]) && InSnapOrder(actions, i)
    ensures AllCarry(states[i].rec.devices, states[i].settings)
  {
    LatestTraced(states, actions, i);
    var last := LastWritten(actions, i);
    if last.Some? {
      var j, a := last.value, actions[last.value];
      forall c | 0 <= c < i && actions[c].Change? ensures c < j {
        var f := ChangeSnapped(states, actions, i, c);
        var w := SnapWritten(states, actions, i, f);
      }
      PushCarries(a.peers, states[j].settings, a.playing, a.mixer);
      KeptWithoutChange(states, actions, j, i, PushAt(states, actions, j));
      AlikeCarries(states[i].rec.devices, PushAt(states, actions, j), states[i].settings, states[i].settings);
    }
  }

  /** A push is not written while another snapshot is held. */
  lemma WriteAlone(s: State, a: Action, who: Who)
    requires !Overlap(s) && Enabled(s, a) && Of(Next(s, a), who).Holding? && !(a.Snap? && a.who == who)
    ensures Of(s, who).Holding? && !a.Write?
  {
  }

  /** Without overlap, whoever holds a snapshot holds a newer one than was written. */
  lemma {:induction false} HeldIsNewer(states: seq<State>, actions: seq<Action>, i: nat, who: Who)
    requires IsRun(states, actions) && i < |states| && Of(states[i], who).Holding?
    requires forall s :: s in states ==> !Overlap(s)
    ensures SnapOf(actions, i, who).Some?
    ensures LastWritten(actions, i).Some? ==> LastWritten(actions, i).value < SnapOf(actions, i, who).value
  {
    if i > 0 {
      var a := actions[i - 1];
      assert states[i - 1] in states;
      if a.Snap? && a.who == who {
        LatestTraced(states, actions, i - 1);
      } else {
        WriteAlone(states[i - 1], a, who);
        HeldIsNewer(states, actions, i - 1, who);
      }
    }
  }

  lemma {:induction false} NoOverlapInOrder(states: seq<State>, actions: seq<Action>, i: nat)
    requires IsRun(states, actions) && i < |states|
    requires forall s :: s in states ==> !Overlap(s)
    ensures InSnapOrder(actions, i)
  {
    if i > 0 {
      NoOverlapInOrder(states, actions, i - 1);
      var a := actions[i - 1];
      if a.Write? {
        assert Enabled(states[i - 1], a);
        HeldIsNewer(states, actions, i - 1, a.who);
        forall m | 0 <= m < i && LastWritten(actions, m).Some?
          ensures LastWritten(actions, m).value <= LastWritten(actions, i).value
        {
          WrittenStays(states, actions, m, i - 1);
        }
      }
    }
  }

  lemma {:induction false} WrittenStays(states: seq<State>, actions: seq<Action>, m: nat, i: nat)
    requires IsRun(states, actions) && m <= i < |states| && LastWritten(actions, m).Some?
    ensures LastWritten(actions, i).Some?
  {
    if m < i {
      WrittenStays(states, actions, m, i - 1);
      if actions[i - 1].Write? {
        assert Enabled(states[i - 1], actions[i - 1]);
        HeldTraced(states, actions, i - 1, actions[i - 1].who);
      }
    }
  }

  /** In particular if no two pushes overlap between snapshot and write. */
  lemma NoChangeLost(states: seq<State>, actions: seq<Action>, i: nat)
    requires IsRun(states, actions) && i < |states| && Quiescent(states[i])
    requires forall s :: s in states ==> !Overlap(s)
    ensures AllCarry(states[i].rec.devices, states[i].settings)
  {
    NoOverlapInOrder(states, actions, i);
    NoChangeLostInOrder(states, actions, i);
  }

  // ------------------------------------------------ why the order of writes matters

  /** A run so far, by its last state. */
  lemma Extend(states: seq<State>, actions: seq<Action>, a: Action)
    returns (next: State, more: seq<State>, taken: seq<Action>)
    requires IsRun(states, actions) && Enabled(states[|actions|], a)
    ensures next == Next(states[|actions|], a)
    ensures more == states + [next] && taken == actions + [a] && IsRun(more, taken)
  {
    next := Next(states[|actions|], a);
    more, taken := states + [next], actions + [a];
  }

  lemma ListedAlone(p: Peer, s: Settings, playing: set<Mac>, fallback: Mac -> int)
    requires Knows(s, p.mac) && p.mac in s.volumes
    ensures OnePass([p], s, playing, fallback) == [Describe(p, s, playing, s.volumes[p.mac])]
  {
    assert [p][..0] == [];
    assert OnePass([p][..0], s, playing, fallback) == [];
  }

  const BEFORE := Settings(map[], map["m" := 50], map[], map["m" := true])
  const AFTER := BEFORE.(delays := map["m" := 5])
  const PEER := Peer("m", "", true, true)
  const NO_MIXER := Mixer(None, map[])
  const STALE := [Describe(PEER, BEFORE, {}, 50)]
  const CURRENT := [Describe(PEER, AFTER, {}, 50)]

  lemma InitialPush(rec: Rec) returns (states: seq<State>, actions: seq<Action>)
    requires rec.online && rec.devices == [] && rec.nextSeq == 0
    ensures IsRun(states, actions)
    ensures states[|actions|] == State(BEFORE, 0, false, [], 0, true, Idle, Idle, 0,
                                       [], Pushed(rec, STALE), [Devices(STALE)])
  {
    ListedAlone(PEER, BEFORE, {}, mac => 0);
    var s := State(BEFORE, 0, false, [], 0, false, Idle, Begun, 0, [], rec, []);
    states, actions := [s], [];
    s, states, actions := Extend(states, actions, Snap(Reader, [PEER], {}, NO_MIXER));
    s, states, actions := Extend(states, actions, Write(Reader));
    s, states, actions := Extend(states, actions, Deliver);
  }

  /** The reader holds its answer to a sync request. */
  lemma AnswerHeld(rec: Rec) returns (states: seq<State>, actions: seq<Action>)
    requires rec.online && rec.devices == [] && rec.nextSeq == 0
    ensures IsRun(states, actions)
    ensures states[|actions|] == State(BEFORE, 0, false, [], 0, true, Idle, Holding(STALE), 0,
                                       [], Pushed(rec, STALE), [Devices(STALE)])
  {
    ListedAlone(PEER, BEFORE, {}, mac => 0);
    states, actions := InitialPush(rec);
    var s := states[|actions|];
    s, states, actions := Extend(states, actions, SyncTimer);
    s, states, actions := Extend(states, actions, TakeSync);
    s, states, actions := Extend(states, actions, Snap(Reader, [PEER], {}, NO_MIXER));
  }

  /** A delay change, its trigger and the forwarder overtake that answer. */
  lemma PushesOverlap(rec: Rec) returns (states: seq<State>, actions: seq<Action>)
    requires rec.online && rec.devices == [] && rec.nextSeq == 0
    ensures IsRun(states, actions)
    ensures states[|actions|] == State(AFTER, 0, false, [], 0, true, Holding(CURRENT), Holding(STALE), 0,
                                       [], Pushed(rec, STALE), [Devices(STALE)])
  {
    ListedAlone(PEER, AFTER, {}, mac => 0);
    states, actions := AnswerHeld(rec);
    var s := states[|actions|];
    s, states, actions := Extend(states, actions, Action.Change(AFTER));
    s, states, actions := Extend(states, actions, Trigger);
    s, states, actions := Extend(states, actions, TakeSlot);
    s, states, actions := Extend(states, actions, Snap(Forwarder, [PEER], {}, NO_MIXER));
  }

  /** A sync answer that took its snapshot before a delay change can be written after the push that the
      change triggered: the session comes to rest with the old delay in the master's cache. */
  lemma OverlapLosesAChange(rec: Rec) returns (states: seq<State>, actions: seq<Action>)
    requires rec.online && rec.devices == [] && rec.nextSeq == 0
    ensures IsRun(states, actions) && exists i :: 0 <= i < |states| && Overlap(states[i])
    ensures Quiescent(states[|actions|]) && states[|actions|].reader.Idle? && states[|actions|].syncs == 0
    ensures !AllCarry(states[|actions|].rec.devices, states[|actions|].settings)
  {
    states, actions := PushesOverlap(rec);
    var s, k := states[|actions|], |actions|;
    s, states, actions := Extend(states, actions, Write(Forwarder));
    s, states, actions := Extend(states, actions, Write(Reader));
    s, states, actions := Extend(states, actions, Deliver);
    s, states, actions := Extend(states, actions, Deliver);
    assert Overlap(states[k]);
    assert s.rec.devices == STALE && !Carries(STALE[0], AFTER);
  }

  // ---------------------------------------------------- nothing is lost on the way

  /** What entered the hub buffer, what the forwarder took out of it, and what was written to the link. */
  function Entered(states: seq<State>, actions: seq<Action>, i: nat): seq<HubMsg>
    requires i <= |actions| < |states|
  {
    if i == 0 then []
    else Entered(states, actions, i - 1)
         + (if actions[i - 1].Broadcast? && |states[i - 1].buffer| < 64 then [actions[i - 1].msg] else [])
  }

  function Took(states: seq<State>, actions: seq<Action>, i: nat): seq<HubMsg>
    requires i <= |actions| < |states|
  {
    if i == 0 then []
    else Took(states, actions, i - 1)
         + (if actions[i - 1].ForwardEvent? && states[i - 1].buffer != [] then [states[i - 1].buffer[0]] else [])
  }

  lemma BufferStep(s: State, a: Action)
    requires Enabled(s, a)
    ensures match a
            case ForwardEvent => s.buffer == [s.buffer[0]] + Next(s, a).buffer
            case Broadcast(msg) => Next(s, a).buffer == s.buffer + (if |s.buffer| < 64 then [msg] else [])
            case _ => Next(s, a).buffer == s.buffer
  {
  }

  lemma Associates<T>(a: seq<T>, b: seq<T>, c: seq<T>)
    ensures a + b + c == a + (b + c) && a + [] == a
  {
  }

  /** The buffer loses nothing: what entered it was taken, in order, or is still there. */
  lemma {:induction false} BufferKept(states: seq<State>, actions: seq<Action>, i: nat)
    requires IsRun(states, actions) && i < |states|
    ensures Took(states, actions, i) + states[i].buffer == states[0].buffer + Entered(states, actions, i)
  {
    if i > 0 {
      BufferKept(states, actions, i - 1);
      var s, a, t := states[i - 1], actions[i - 1], states[i];
      BufferStep(s, a);
      var took, entered := Took(states, actions, i - 1), Entered(states, actions, i - 1);
      assert took + [] == took && states[0].buffer + (entered + []) == states[0].buffer + entered;
      match a {
        case ForwardEvent => Associates(took, [s.buffer[0]], t.buffer);
        case Broadcast(msg) =>
          var put := if |s.buffer| < 64 then [msg] else [];
          Associates(took, s.buffer, put);
          Associates(states[0].buffer, entered, put);
        case _ =>
      }
    }
  }

  /** The positions of the Bluetooth events among hub messages. */
  ghost predicate Selects(msgs: seq<HubMsg>, at: seq<nat>) {
    && (forall a, b :: 0 <= a < b < |at| ==> at[a] < at[b])
    && (forall n :: 0 <= n < |at| ==> at[n] < |msgs|)
    && (forall k: nat :: k < |msgs| ==>
          (k in at <==> msgs[k].stringMap && (msgs[k].kind == "connected" || msgs[k].kind == "disconnected")))
  }

  function EventsOf(msgs: seq<Msg>): seq<Msg> {
    if msgs == [] then []
    else EventsOf(msgs[..|msgs| - 1]) + (if msgs[|msgs| - 1].Event? then [msgs[|msgs| - 1]] else [])
  }

  lemma EventsAppend(msgs: seq<Msg>, m: Msg)
    ensures EventsOf(msgs + [m]) == EventsOf(msgs) + (if m.Event? then [m] else [])
  {
    assert (msgs + [m])[..|msgs|] == msgs;
  }

  /** These events say what the selected messages say, numbered from 0. */
  predicate Numbers(events: seq<Msg>, msgs: seq<HubMsg>, at: seq<nat>) {
    && |events| == |at|
    && forall n :: 0 <= n < |at| ==> at[n] < |msgs| && events[n] == Event(msgs[at[n]].mac, msgs[at[n]].kind, n)
  }

  ghost predicate Forwarded(events: seq<Msg>, msgs: seq<HubMsg>, at: seq<nat>) {
    Selects(msgs, at) && Numbers(events, msgs, at)
  }

  lemma ForwardedStep(events: seq<Msg>, msgs: seq<HubMsg>, at: seq<nat>, m: HubMsg)
    requires Forwarded(events, msgs, at)
    ensures if m.stringMap && (m.kind == "connected" || m.kind == "disconnected")
            then Forwarded(events + [Event(m.mac, m.kind, |at|)], msgs + [m], at + [|msgs|])
            else Forwarded(events, msgs + [m], at)
  {
    var all, more := msgs + [m], if Forwards(m) then at + [|msgs|] else at;
    forall k: nat | k < |all|
      ensures k in more <==> all[k].stringMap && (all[k].kind == "connected" || all[k].kind == "disconnected")
    {
      assert k < |msgs| ==> all[k] == msgs[k] && (k in more <==> k in at);
    }
  }

  /** The link loses, repeats and reorders nothing: a step writes at most one message to its end, and what was
      received and what is on its way are together what was written. */
  lemma WireStep(s: State, a: Action)
    requires Enabled(s, a)
    ensures var before, after := s.received + s.link, Next(s, a).received + Next(s, a).link;
            match a
            case ForwardEvent =>
              var m := s.buffer[0];
              after == before + (if m.stringMap && (m.kind == "connected" || m.kind == "disconnected")
                                 then [Event(m.mac, m.kind, s.number)] else [])
            case Write(who) => after == before + [Devices(Of(s, who).items)]
            case AnswerPing => after == before + [Pong]
            case _ => after == before
  {
    if a.Deliver? {
      assert s.link == [s.link[0]] + s.link[1..];
    }
  }

  lemma NumberStep(s: State, a: Action)
    requires Enabled(s, a)
    ensures Next(s, a).number == s.number + (if a.ForwardEvent? && Forwards(s.buffer[0]) then 1 else 0)
  {
  }

  lemma EventsStep(s: State, a: Action)
    requires Enabled(s, a)
    ensures EventsOf(Next(s, a).received + Next(s, a).link)
         == EventsOf(s.received + s.link)
            + (if a.ForwardEvent? && Forwards(s.buffer[0])
               then [Event(s.buffer[0].mac, s.buffer[0].kind, s.number)] else [])
  {
    var wire := s.received + s.link;
    WireStep(s, a);
    match a {
      case ForwardEvent => EventsAppend(wire, Event(s.buffer[0].mac, s.buffer[0].kind, s.number));
      case Write(who) => EventsAppend(wire, Devices(Of(s, who).items));
      case AnswerPing => EventsAppend(wire, Pong);
      case _ =>
    }
    assert wire + [] == wire;
  }

  lemma {:induction false} EventsWired(states: seq<State>, actions: seq<Action>, i: nat) returns (at: seq<nat>)
    requires IsRun(states, actions) && i < |states|
    ensures states[i].number == |at|
    ensures Forwarded(EventsOf(states[i].received + states[i].link), Took(states, actions, i), at)
  {
    at := [];
    if i > 0 {
      at := EventsWired(states, actions, i - 1);
      var s, a := states[i - 1], actions[i - 1];
      EventsStep(s, a);
      NumberStep(s, a);
      if a.ForwardEvent? {
        var took := Took(states, actions, i - 1);
        ForwardedStep(EventsOf(s.received + s.link), took, at, s.buffer[0]);
        at := if Forwards(s.buffer[0]) then at + [|took|] else at;
      }
    }
  }

  /** Every Bluetooth event that entered the buffer and was taken from it, connected or disconnected, has been
      received once the link is drained, and nothing else has: in order, each once, numbered from 0. */
  lemma EventsReceived(states: seq<State>, actions: seq<Action>, i: nat) returns (at: seq<nat>)
    requires IsRun(states, actions) && i < |states| && states[i].link == []
    ensures Forwarded(EventsOf(states[i].received), Took(states, actions, i), at)
    ensures Took(states, actions, i) <= states[0].buffer + Entered(states, actions, i)
  {
    at := EventsWired(states, actions, i);
    BufferKept(states, actions, i);
    assert states[i].received + [] == states[i].received;
  }

  /** This step writes a push that the reader snapped after step k. */
  predicate Answers(actions: seq<Action>, w: nat, k: nat)
    requires w < |actions|
  {
    actions[w] == Write(Reader) && SnapOf(actions, w, Reader).Some? && SnapOf(actions, w, Reader).value > k
  }

  lemma ReaderStep(s: State, a: Action)
    requires Enabled(s, a)
    ensures s.reader.Begun? ==> Next(s, a).reader.Begun? || (a.Snap? && a.who.Reader?)
    ensures s.reader.Holding? ==> Next(s, a).reader.Holding? || a == Write(Reader)
    ensures a.Snap? && a.who.Reader? ==> Next(s, a).reader.Holding?
    ensures a.TakeSync? ==> Next(s, a).reader.Begun?
  {
  }

  /** A sync request that the satellite took is answered: its reader begins a push, holds it, or has written
      one with a later snapshot. */
  lemma {:induction false} SyncAnswered(states: seq<State>, actions: seq<Action>, i: nat, k: nat)
    requires IsRun(states, actions) && k < i < |states| && actions[k].TakeSync?
    ensures || states[i].reader.Begun?
            || (states[i].reader.Holding? && SnapOf(actions, i, Reader).Some? && SnapOf(actions, i, Reader).value > k)
            || exists w :: k < w < i && Answers(actions, w, k)
  {
    ReaderStep(states[i - 1], actions[i - 1]);
    if k < i - 1 {
      SyncAnswered(states, actions, i - 1, k);
      var snap := SnapOf(actions, i - 1, Reader);
      if states[i - 1].reader.Holding? && actions[i - 1] == Write(Reader) && snap.Some? && snap.value > k {
        assert Answers(actions, i - 1, k);
      }
    }
  }

  function Timers(actions: seq<Action>, i: nat): nat
    requires i <= |actions|
  {
    if i == 0 then 0 else Timers(actions, i - 1) + (if actions[i - 1].SyncTimer? then 1 else 0)
  }

  function Answered(actions: seq<Action>, i: nat): nat
    requires i <= |actions|
  {
    if i == 0 then 0 else Answered(actions, i - 1) + (if actions[i - 1].TakeSync? then 1 else 0)
  }

  lemma SyncsStep(s: State, a: Action)
    requires Enabled(s, a)
    ensures Next(s, a).syncs == s.syncs + (if a.SyncTimer? then 1 else 0) - (if a.TakeSync? then 1 else 0)
                                + (if a.Deliver? && AsksSync(s.rec, s.link[0]) then 1 else 0)
  {
  }

  /** Every sync request comes from the timer, since no delta ever asks for one, and each is taken once. */
  lemma {:induction false} SyncsCounted(states: seq<State>, actions: seq<Action>, i: nat)
    requires IsRun(states, actions) && i < |states|
    ensures Answered(actions, i) + states[i].syncs == states[0].syncs + Timers(actions, i)
  {
    if i > 0 {
      SyncsCounted(states, actions, i - 1);
      SyncsStep(states[i - 1], actions[i - 1]);
      if actions[i - 1].Deliver? {
        GapUnreachable(states, actions, i - 1);
      }
    }
  }

  // ------------------------------------------------------------- the forwarder

  /** The event branch of `satEventForwarder` over everything it takes from the hub: exactly the Bluetooth
      events, connected or disconnected, in order, numbered from 0 without holes. */
  method ForwardEvents(inbox: seq<HubMsg>) returns (out: seq<Msg>, ghost at: seq<nat>)
    ensures Forwarded(out, inbox, at) && Numbered(out, 0, |out|)
  {
    out, at := [], [];
    var number := 0;
    assert Numbered(out, 0, 0);
    for k := 0 to |inbox|
      invariant number == |out| && Forwarded(out, inbox[..k], at)
      invariant Numbered(out, 0, number)
    {
      var m := inbox[k];
      assert inbox[..k + 1] == inbox[..k] + [m];
      ForwardedStep(out, inbox[..k], at, m);
      if !m.stringMap || (m.kind != "connected" && m.kind != "disconnected") {
        continue;
      }
      NumberedAppend(out, 0, number, Event(m.mac, m.kind, number));
      out := out + [Event(m.mac, m.kind, number)];
      at := at + [k];
      number := number + 1;
    }
    assert inbox[..|inbox|] == inbox;
  }
}
