/** What the master keeps of one satellite, and how each message changes it: the rules that the registry
    implements in place and that the sync protocol runs on. */
module Records {
  import opened Options
  import opened Stores

  datatype Device = Device(
    mac: Mac, name: string, connected: bool, paired: bool,
    delay: int, volume: int, muted: bool, playing: bool)

  /** `nextSeq` is the number expected of the next delta, or -1 to accept any. */
  datatype Rec = Rec(
    name: string, addr: string, online: bool, rtp: int, session: Option<nat>,
    devices: seq<Device>, nextSeq: int)

  datatype Msg =
    | Pong
    | Devices(items: seq<Device>)
    | Event(mac: Mac, event: string, number: int)
    | Other

  // ------------------------------------------------------------------- rules

  /** Sets the connected flag of the first device with this MAC. */
  function Mark(devices: seq<Device>, mac: Mac, connected: bool): (marked: seq<Device>)
    ensures |marked| == |devices|
  {
    if devices == [] then []
    else if devices[0].mac == mac then [devices[0].(connected := connected)] + devices[1..]
    else [devices[0]] + Mark(devices[1..], mac, connected)
  }

  function Committed(name: string, addr: string, rtp: int, session: nat): Rec {
    Rec(name, addr, true, rtp, Some(session), [], 0)
  }

  function Offline(r: Rec): Rec {
    r.(online := false, devices := [])
  }

  function Pushed(r: Rec, items: seq<Device>): Rec {
    r.(devices := items, nextSeq := -1)
  }

  predicate IsGap(r: Rec, number: int) {
    r.nextSeq != -1 && number != r.nextSeq
  }

  function Delta(r: Rec, mac: Mac, event: string, number: int): Rec {
    if IsGap(r, number) then r
    else r.(devices := Mark(r.devices, mac, event == "connected"), nextSeq := number + 1)
  }

  /** One message of the satellite's read loop. */
  function Receive(r: Rec, m: Msg): Rec {
    match m
    case Devices(items) => Pushed(r, items)
    case Event(mac, event, number) => Delta(r, mac, event, number)
    case _ => r
  }

  predicate AsksSync(r: Rec, m: Msg) {
    m.Event? && IsGap(r, m.number)
  }

  function ReceiveAll(r: Rec, msgs: seq<Msg>): Rec {
    if msgs == [] then r else Receive(ReceiveAll(r, msgs[..|msgs| - 1]), msgs[|msgs| - 1])
  }

  /** The device list that a push and the deltas after it describe, numbers aside. */
  function Replay(msgs: seq<Msg>): seq<Device> {
    if msgs == [] then []
    else
      var before, m := Replay(msgs[..|msgs| - 1]), msgs[|msgs| - 1];
      match m
      case Devices(items) => items
      case Event(mac, event, _) => Mark(before, mac, event == "connected")
      case _ => before
  }

  ghost predicate IsFirst(devices: seq<Device>, mac: Mac, i: nat)
    requires i < |devices|
  {
    devices[i].mac == mac && forall j :: 0 <= j < i ==> devices[j].mac != mac
  }

  /** `Mark` sets the flag of the first device of the MAC and changes nothing else. */
  lemma {:induction false} MarkExact(devices: seq<Device>, mac: Mac, connected: bool, i: nat)
    requires i < |devices|
    ensures Mark(devices, mac, connected)[i]
         == if IsFirst(devices, mac, i) then devices[i].(connected := connected) else devices[i]
  {
    if devices[0].mac != mac && i > 0 {
      var rest := devices[1..];
      MarkExact(rest, mac, connected, i - 1);
      if IsFirst(rest, mac, i - 1) {
        forall j | 0 <= j < i ensures devices[j].mac != mac {
          assert j > 0 ==> devices[j] == rest[j - 1];
        }
      }
      assert IsFirst(devices, mac, i) ==> forall j :: 0 <= j < i - 1 ==> rest[j] == devices[j + 1];
    }
  }

  /** A delta is applied if any number is accepted or its own is the expected one: the first device of the MAC
      gets the flag that the event names, nothing else of the list changes, and the next number is expected.
      Otherwise it changes nothing and asks for a sync. */
  lemma DeltaExactly(r: Rec, mac: Mac, event: string, number: int)
    ensures var m := Receive(r, Event(mac, event, number));
            var fits := r.nextSeq == -1 || r.nextSeq == number;
            && (AsksSync(r, Event(mac, event, number)) <==> !fits)
            && (!fits ==> m == r)
            && (fits ==>
                  && m == r.(devices := m.devices, nextSeq := number + 1) && |m.devices| == |r.devices|
                  && forall i :: 0 <= i < |r.devices| ==>
                       m.devices[i] == if r.devices[i].mac == mac
                                          && (forall j :: 0 <= j < i ==> r.devices[j].mac != mac)
                                       then r.devices[i].(connected := event == "connected") else r.devices[i])
  {
    var marked := Mark(r.devices, mac, event == "connected");
    forall i | 0 <= i < |r.devices|
      ensures marked[i] == if r.devices[i].mac == mac && (forall j :: 0 <= j < i ==> r.devices[j].mac != mac)
                           then r.devices[i].(connected := event == "connected") else r.devices[i]
    {
      MarkExact(r.devices, mac, event == "connected", i);
    }
  }

  /** A push replaces the list, and after it a delta of any number is applied, even to a record that had been
      frozen by a loss. */
  lemma PushReopens(r: Rec, items: seq<Device>, mac: Mac, event: string, number: int)
    ensures Receive(r, Devices(items)).devices == items
    ensures !AsksSync(Receive(r, Devices(items)), Event(mac, event, number))
    ensures Receive(Receive(r, Devices(items)), Event(mac, event, number)).nextSeq == number + 1
  {
    DeltaExactly(Receive(r, Devices(items)), mac, event, number);
  }

  // ---------------------------------------------------------------- lost deltas

  /** A delta as the satellite saw it, before numbering. */
  datatype Change = Change(mac: Mac, event: string)

  /** Deltas numbered from `number` on, of which only the kept ones arrive, in order. */
  function Arrive(r: Rec, sent: seq<Change>, keep: seq<bool>, number: nat): (Rec, seq<bool>)
    requires |keep| == |sent|
    decreases |sent|
  {
    if sent == [] then (r, [])
    else if !keep[0] then Arrive(r, sent[1..], keep[1..], number + 1)
    else
      var m := Event(sent[0].mac, sent[0].event, number);
      var (last, syncs) := Arrive(Receive(r, m), sent[1..], keep[1..], number + 1);
      (last, [AsksSync(r, m)] + syncs)
  }

  function FirstLoss(keep: seq<bool>): (i: nat)
    ensures i <= |keep|
    ensures forall j :: 0 <= j < i ==> keep[j]
    ensures i < |keep| ==> !keep[i]
  {
    if keep == [] || !keep[0] then 0 else 1 + FirstLoss(keep[1..])
  }

  function Count(keep: seq<bool>): nat {
    if keep == [] then 0 else (if keep[0] then 1 else 0) + Count(keep[1..])
  }

  function Repeat(b: bool, n: nat): seq<bool> {
    if n == 0 then [] else [b] + Repeat(b, n - 1)
  }

  function MarkAll(devices: seq<Device>, sent: seq<Change>): seq<Device>
    decreases |sent|
  {
    if sent == [] then devices else MarkAll(Mark(devices, sent[0].mac, sent[0].event == "connected"), sent[1..])
  }

  /** Behind its expected number, the record stays frozen and every arrival asks for a sync. */
  lemma {:induction false} Frozen(r: Rec, sent: seq<Change>, keep: seq<bool>, number: nat)
    requires |keep| == |sent| && 0 <= r.nextSeq < number
    ensures Arrive(r, sent, keep, number).0 == r
    ensures Arrive(r, sent, keep, number).1 == Repeat(true, Count(keep))
  {
    if sent != [] {
      Frozen(r, sent[1..], keep[1..], number + 1);
    }
  }

  lemma {:induction false} AppliedBeforeLoss(r: Rec, sent: seq<Change>, keep: seq<bool>, number: nat)
    requires |keep| == |sent| && r.nextSeq == number
    ensures Arrive(r, sent, keep, number).0
         == r.(devices := MarkAll(r.devices, sent[..FirstLoss(keep)]), nextSeq := number + FirstLoss(keep))
    decreases |sent|
  {
    var p := FirstLoss(keep);
    if sent == [] {
      assert sent[..p] == [];
    } else if keep[0] {
      AppliedBeforeLoss(Receive(r, Event(sent[0].mac, sent[0].event, number)), sent[1..], keep[1..], number + 1);
      assert sent[..p][1..] == sent[1..][..p - 1];
    } else {
      Frozen(r, sent[1..], keep[1..], number + 1);
      assert sent[..p] == [];
    }
  }

  lemma {:induction false} SyncsAfterLoss(r: Rec, sent: seq<Change>, keep: seq<bool>, number: nat)
    requires |keep| == |sent| && r.nextSeq == number
    ensures Arrive(r, sent, keep, number).1
         == Repeat(false, FirstLoss(keep)) + Repeat(true, Count(keep[FirstLoss(keep)..]))
    decreases |sent|
  {
    var p := FirstLoss(keep);
    if sent == [] {
      assert keep[p..] == [];
    } else if keep[0] {
      SyncsAfterLoss(Receive(r, Event(sent[0].mac, sent[0].event, number)), sent[1..], keep[1..], number + 1);
      assert keep[1..][p - 1..] == keep[p..];
      Associate(false, Repeat(false, p - 1), Repeat(true, Count(keep[p..])));
    } else {
      Frozen(r, sent[1..], keep[1..], number + 1);
      assert keep[p..] == keep && [] + Repeat(true, Count(keep)) == Repeat(true, Count(keep));
    }
  }

  /** Once a delta has been accepted after a push, no delta is applied past a missing one: exactly those
      before the first loss are, and each one that arrives after it asks for a sync. */
  lemma NoDeltaPastALoss(r: Rec, sent: seq<Change>, keep: seq<bool>, number: nat)
    requires |keep| == |sent| && r.nextSeq == number
    ensures Arrive(r, sent, keep, number).0
         == r.(devices := MarkAll(r.devices, sent[..FirstLoss(keep)]), nextSeq := number + FirstLoss(keep))
    ensures Arrive(r, sent, keep, number).1
         == Repeat(false, FirstLoss(keep)) + Repeat(true, Count(keep[FirstLoss(keep)..]))
  {
    AppliedBeforeLoss(r, sent, keep, number);
    SyncsAfterLoss(r, sent, keep, number);
  }

  lemma Associate(b: bool, u: seq<bool>, v: seq<bool>)
    ensures [b] + (u + v) == ([b] + u) + v
  {
  }

  /** Losses right after a push, before any delta is accepted, go unnoticed: the record takes over at the
      first delta that arrives, whatever its number. */
  lemma {:induction false} BlindAfterPush(r: Rec, sent: seq<Change>, keep: seq<bool>, number: nat, q: nat)
    requires |keep| == |sent| && r.nextSeq == -1
    requires q < |keep| && keep[q] && forall j :: 0 <= j < q ==> !keep[j]
    ensures Arrive(r, sent, keep, number)
         == Arrive(r.(nextSeq := number + q), sent[q..], keep[q..], number + q)
  {
    if q > 0 {
      BlindAfterPush(r, sent[1..], keep[1..], number + 1, q - 1);
      assert sent[1..][q - 1..] == sent[q..] && keep[1..][q - 1..] == keep[q..];
      Skip(r, sent, keep, number);
    } else {
      assert sent[0..] == sent && keep[0..] == keep;
    }
  }

  lemma Skip(r: Rec, sent: seq<Change>, keep: seq<bool>, number: nat)
    requires |keep| == |sent| && sent != [] && !keep[0]
    ensures Arrive(r, sent, keep, number) == Arrive(r, sent[1..], keep[1..], number + 1)
  {
  }

  /** Some delta is lost, a later one arrives, and an earlier one had been accepted. */
  ghost predicate Visible(keep: seq<bool>, armed: bool) {
    exists i, j :: 0 <= i < j < |keep| && !keep[i] && keep[j] && (armed || exists h :: 0 <= h < i && keep[h])
  }

  lemma VisibleTail(keep: seq<bool>, armed: bool)
    requires keep != []
    ensures Visible(keep, armed)
       <==> if keep[0] then Visible(keep[1..], true)
            else if armed then true in keep[1..] else Visible(keep[1..], false)
  {
    var rest := keep[1..];
    if Visible(keep, armed) {
      var i, j :| 0 <= i < j < |keep| && !keep[i] && keep[j] && (armed || exists h :: 0 <= h < i && keep[h]);
      assert rest[j - 1];
      if i > 0 {
        assert !rest[i - 1];
        if !keep[0] && !armed {
          var h :| 0 <= h < i && keep[h];
          assert rest[h - 1];
        }
      }
    }
    if keep[0] && Visible(rest, true) {
      var i, j :| 0 <= i < j < |rest| && !rest[i] && rest[j];
      assert !keep[i + 1] && keep[j + 1];
    }
    if !keep[0] && armed && true in rest {
      var j :| 0 <= j < |rest| && rest[j];
      assert !keep[0] && keep[j + 1];
    }
    if !keep[0] && !armed && Visible(rest, false) {
      var i, j :| 0 <= i < j < |rest| && !rest[i] && rest[j] && exists h :: 0 <= h < i && rest[h];
      var h :| 0 <= h < i && rest[h];
      assert !keep[i + 1] && keep[j + 1] && keep[h + 1];
    }
  }

  lemma {:induction false} CountPositive(keep: seq<bool>)
    ensures Count(keep) > 0 <==> true in keep
  {
    if keep != [] {
      CountPositive(keep[1..]);
      assert keep == [keep[0]] + keep[1..];
    }
  }

  /** A loss makes the master ask for a sync exactly when a delta still arrives after it and one was
      accepted before it, after the push or (`nextSeq` known) already at the start. */
  lemma {:induction false} LossNoticed(r: Rec, sent: seq<Change>, keep: seq<bool>, number: nat)
    requires |keep| == |sent| && (r.nextSeq == -1 || r.nextSeq == number)
    ensures true in Arrive(r, sent, keep, number).1 <==> Visible(keep, r.nextSeq == number)
    decreases |sent|
  {
    if sent != [] {
      VisibleTail(keep, r.nextSeq == number);
      if keep[0] {
        LossNoticed(Receive(r, Event(sent[0].mac, sent[0].event, number)), sent[1..], keep[1..], number + 1);
      } else if r.nextSeq == number {
        Frozen(r, sent[1..], keep[1..], number + 1);
        CountPositive(keep[1..]);
        if Count(keep[1..]) > 0 {
          assert Arrive(r, sent, keep, number).1[0];
        }
      } else {
        LossNoticed(r, sent[1..], keep[1..], number + 1);
      }
    }
  }
}
