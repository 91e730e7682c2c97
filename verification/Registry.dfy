/** The master's registry of satellites: records updated in place, device arrays whose elements are
    updated in place, and readers that get copies. */
module Registries {
  import opened Options
  import opened Stores
  import opened Records

  class NodeInfo {
    var id: string
    var name: string
    var addr: string
    var online: bool
    var rtp: int
    var session: Option<nat>
    var devices: array?<Device>
    var nextSeq: int

    constructor (id: string)
      ensures this.id == id && devices == null && Value() == BLANK
    {
      this.id, name, addr, online, rtp, session, devices, nextSeq := id, "", "", false, 0, None, null, 0;
    }

    /** What `commit` writes into a record. */
    method Begin(id: string, name: string, addr: string, rtp: int, session: nat)
      modifies this
      ensures Value() == Committed(name, addr, rtp, session) && this.id == id && devices == null
      ensures this.name == name && this.addr == addr && online && this.rtp == rtp && this.session == Some(session)
      ensures nextSeq == 0
    {
      this.id := id;
      this.name := name;
      this.addr := addr;
      online := true;
      this.rtp := rtp;
      this.session := Some(session);
      nextSeq := 0;
      devices := null;
    }

    /** What `setDevices` writes into a record. */
    method Adopt(pushed: array<Device>)
      modifies this
      ensures Value() == Pushed(old(Value()), pushed[..]) && id == old(id) && devices == pushed && nextSeq == -1
    {
      devices := pushed;
      nextSeq := -1;
    }

    /** The body of `applyDeltaEvent` on one record. */
    method Accept(mac: Mac, event: string, number: int) returns (gap: bool)
      modifies this, devices
      ensures Value() == Delta(old(Value()), mac, event, number)
      ensures gap == IsGap(old(Value()), number)
      ensures id == old(id) && devices == old(devices)
    {
      if nextSeq != -1 && number != nextSeq {
        return true;
      }
      if nextSeq != -1 {
        nextSeq := nextSeq + 1;
      } else {
        nextSeq := number + 1;
      }
      gap := false;
      if devices != null {
        MarkInPlace(devices, mac, event == "connected");
      }
    }

    ghost function Value(): Rec
      reads this, devices
    {
      Rec(name, addr, online, rtp, session, if devices == null then [] else devices[..], nextSeq)
    }
  }

  /** A record before its first commit. */
  const BLANK := Rec("", "", false, 0, None, [], 0)

  /** What happens to the registry: one constructor for each of its mutating methods. */
  datatype Change =
    | Prepare(id: string)
    | Commit(id: string, name: string, addr: string, rtp: int, session: nat)
    | SetOffline(id: string)
    | Message(id: string, msg: Msg)

  function Prepared(r: Rec): Rec {
    if r.online then r else r.(devices := [], rtp := 0)
  }

  function Apply(view: map<string, Rec>, c: Change): map<string, Rec> {
    match c
    case Prepare(id) => if id in view then view[id := Prepared(view[id])] else view
    case Commit(id, name, addr, rtp, session) => view[id := Committed(name, addr, rtp, session)]
    case SetOffline(id) => if id in view then view[id := Offline(view[id])] else view
    case Message(id, msg) => if id in view then view[id := Receive(view[id], msg)] else view
  }

  function ApplyAll(view: map<string, Rec>, cs: seq<Change>): map<string, Rec> {
    if cs == [] then view else Apply(ApplyAll(view, cs[..|cs| - 1]), cs[|cs| - 1])
  }

  /** The change makes the master ask for a sync. */
  predicate Asks(view: map<string, Rec>, c: Change) {
    c.Message? && c.id in view && AsksSync(view[c.id], c.msg)
  }

  function SyncsOf(view: map<string, Rec>, cs: seq<Change>): seq<bool> {
    if cs == [] then []
    else SyncsOf(view, cs[..|cs| - 1]) + [Asks(ApplyAll(view, cs[..|cs| - 1]), cs[|cs| - 1])]
  }

  class NodeRegistry {
    var nodes: map<string, NodeInfo>
    ghost var Repr: set<object>

    ghost predicate Owns(id: string)
      reads this, Repr
      requires id in nodes && nodes[id] in Repr
    {
      && nodes[id].id == id
      && (nodes[id].devices != null ==> nodes[id].devices in Repr)
    }

    ghost predicate Valid()
      reads this, Repr
    {
      && this in Repr
      && (forall id :: id in nodes ==> nodes[id] in Repr && Owns(id))
      && (forall a, b :: a in nodes && b in nodes && a != b ==>
            && nodes[a] != nodes[b]
            && (nodes[a].devices != null ==> nodes[a].devices != nodes[b].devices))
    }

    ghost function View(): map<string, Rec>
      requires Valid()
      reads this, Repr
    {
      map id | id in nodes :: nodes[id].Value()
    }

    /** Only the record of this id has changed. */
    twostate lemma Rewritten(id: string)
      requires old(Valid()) && Valid() && nodes == old(nodes) && id in nodes
      requires forall a :: a in nodes && a != id ==> nodes[a].Value() == old(nodes[a].Value())
      ensures View() == old(View())[id := nodes[id].Value()]
    {
    }

    constructor ()
      ensures Valid() && fresh(Repr) && View() == map[]
    {
      nodes := map[];
      Repr := {this};
    }

    /** Returns the RTP id that a stale session left behind, and whether the connection is acceptable. */
    method PrepareRegistration(id: string) returns (stale: int, accept: bool)
      requires Valid()
      modifies Repr
      ensures Valid() && Repr == old(Repr) && View() == Apply(old(View()), Prepare(id))
      ensures accept <==> id !in old(View()) || !old(View())[id].online
      ensures stale == if accept && id in old(View()) then old(View())[id].rtp else 0
      ensures accept && id in View() ==> View()[id].rtp == 0 && View()[id].devices == [] && !View()[id].online
    {
      if id !in nodes {
        return 0, true;
      }
      var n := nodes[id];
      if n.online {
        assert View() == View()[id := View()[id]];
        return 0, false;
      }
      stale := n.rtp;
      n.online := false;
      n.devices := null;
      n.rtp := 0;
      accept := true;
    }

    method Commit(id: string, name: string, addr: string, rtp: int, session: nat)
      requires Valid()
      modifies Repr
      ensures Valid() && fresh(Repr - old(Repr))
      ensures View() == old(View())[id := Committed(name, addr, rtp, session)]
    {
      EnsurePresent(id);
      Overwrite(id, name, addr, rtp, session);
    }

    method EnsurePresent(id: string)
      requires Valid()
      modifies Repr
      ensures Valid() && fresh(Repr - old(Repr)) && id in nodes
      ensures View() == if id in old(View()) then old(View()) else old(View())[id := BLANK]
    {
      if id !in nodes {
        var n := new NodeInfo(id);
        Insert(id, n);
      }
    }

    method Overwrite(id: string, name: string, addr: string, rtp: int, session: nat)
      requires Valid() && id in nodes
      modifies Repr
      ensures Valid() && Repr == old(Repr)
      ensures View() == old(View())[id := Committed(name, addr, rtp, session)]
    {
      nodes[id].Begin(id, name, addr, rtp, session);
      assert Owns(id);
      Rewritten(id);
    }

    method Insert(id: string, n: NodeInfo)
      requires Valid() && id !in nodes && n !in Repr && n.id == id && n.devices == null
      modifies `nodes, `Repr
      ensures Valid() && Repr == old(Repr) + {n} && id in nodes
      ensures View() == old(View())[id := n.Value()]
    {
      nodes := nodes[id := n];
      Repr := Repr + {n};
    }

    method SetOffline(id: string)
      requires Valid()
      modifies Repr
      ensures Valid() && Repr == old(Repr) && View() == Apply(old(View()), Change.SetOffline(id))
    {
      if id in nodes {
        var n := nodes[id];
        n.online := false;
        n.devices := null;
      }
    }

    /** Takes the caller's array over; the caller gives it up. */
    method SetDevices(id: string, devices: array<Device>)
      requires Valid() && devices !in Repr
      modifies Repr
      ensures Valid() && Repr <= old(Repr) + {devices}
      ensures View() == if id in old(View()) then old(View())[id := Pushed(old(View())[id], devices[..])]
                        else old(View())
    {
      if id in nodes {
        TakeOver(devices);
        Store(id, devices);
      }
    }

    ghost method TakeOver(devices: array<Device>)
      requires Valid() && devices !in Repr
      modifies `Repr
      ensures Valid() && Repr == old(Repr) + {devices} && View() == old(View())
      ensures forall a :: a in nodes ==> nodes[a].devices != devices
    {
      Repr := Repr + {devices};
    }

    method Store(id: string, devices: array<Device>)
      requires Valid() && id in nodes && devices in Repr
      requires forall a :: a in nodes ==> nodes[a].devices != devices
      modifies nodes[id]
      ensures Valid() && View() == old(View())[id := Pushed(old(View())[id], devices[..])]
    {
      nodes[id].Adopt(devices);
      assert Owns(id);
      Rewritten(id);
    }

    method ApplyDeltaEvent(id: string, mac: Mac, event: string, number: int) returns (gap: bool)
      requires Valid()
      modifies Repr
      ensures Valid() && Repr == old(Repr)
      ensures View() == Apply(old(View()), Message(id, Event(mac, event, number)))
      ensures gap <==> id in old(View()) && AsksSync(old(View())[id], Event(mac, event, number))
    {
      if id !in nodes {
        return false;
      }
      var n := nodes[id];
      gap := n.Accept(mac, event, number);
      Rewritten(id);
    }

    /** A copy of one record for a reader outside the lock. */
    method CopyOf(n: NodeInfo) returns (copy: NodeInfo)
      requires Valid() && n in nodes.Values
      ensures fresh(copy) && copy.id == n.id && copy.Value() == n.Value()
      ensures Detached(copy)
    {
      copy := new NodeInfo(n.id);
      copy.name := n.name;
      copy.addr := n.addr;
      copy.online := n.online;
      copy.rtp := n.rtp;
      copy.session := n.session;
      copy.nextSeq := n.nextSeq;
      copy.devices := n.devices;
      if n.devices != null && n.devices.Length > 0 {
        var live := n.devices;
        var own := new Device[live.Length](i requires 0 <= i < live.Length reads live => live[i]);
        copy.devices := own;
        assert own[..] == live[..];
      }
    }

    /** Nothing the registry may still write to is reachable from a record: an empty array may be
        shared, for it has no element to write. */
    ghost predicate Detached(n: NodeInfo)
      reads this, n
    {
      n !in Repr && (n.devices != null && n.devices.Length > 0 ==> n.devices !in Repr)
    }

    method GetNode(id: string) returns (copy: NodeInfo?)
      requires Valid()
      ensures copy == null <==> id !in View()
      ensures copy != null ==> fresh(copy) && copy.id == id && copy.Value() == View()[id] && Detached(copy)
    {
      if id !in nodes {
        return null;
      }
      copy := CopyOf(nodes[id]);
    }

    /** Copies of all records, in the order in which the map happens to be walked. */
    method List() returns (copies: seq<NodeInfo>, ghost order: seq<string>)
      requires Valid()
      ensures |copies| == |order| && (forall id :: id in order <==> id in View())
      ensures forall i, j :: 0 <= i < j < |order| ==> order[i] != order[j]
      ensures forall i :: 0 <= i < |copies| ==>
                && order[i] in View() && copies[i].id == order[i] && copies[i].Value() == View()[order[i]]
                && fresh(copies[i]) && Detached(copies[i])
    {
      copies, order := [], [];
      var todo := nodes.Keys;
      while todo != {}
        invariant todo <= nodes.Keys && |copies| == |order|
        invariant forall id :: id in order <==> id in nodes.Keys - todo
        invariant forall i, j :: 0 <= i < j < |order| ==> order[i] != order[j]
        invariant forall i :: 0 <= i < |copies| ==>
                    && order[i] in nodes && copies[i].id == order[i]
                    && copies[i].Value() == nodes[order[i]].Value()
                    && fresh(copies[i]) && Detached(copies[i])
      {
        var id :| id in todo;
        assert id !in order;
        var copy := CopyOf(nodes[id]);
        copies, order := copies + [copy], order + [id];
        todo := todo - {id};
      }
    }

    /** One change, as the server makes it; a push arrives in an array decoded for it alone. */
    method Perform(c: Change) returns (gap: bool)
      requires Valid()
      modifies Repr
      ensures Valid() && fresh(Repr - old(Repr)) && View() == Apply(old(View()), c)
      ensures gap == Asks(old(View()), c)
    {
      gap := false;
      match c {
        case Prepare(id) =>
          var stale, accept := PrepareRegistration(id);
        case Commit(id, name, addr, rtp, session) =>
          Commit(id, name, addr, rtp, session);
        case SetOffline(id) =>
          SetOffline(id);
        case Message(id, Devices(items)) =>
          var decoded := new Device[|items|](i requires 0 <= i < |items| => items[i]);
          assert decoded[..] == items;
          SetDevices(id, decoded);
        case Message(id, Event(mac, event, number)) =>
          gap := ApplyDeltaEvent(id, mac, event, number);
        case Message(id, msg) =>
          assert id in View() ==> View() == View()[id := View()[id]];
      }
    }
  }

  /** Runs any changes; `syncs` tells which of them made the master ask for a sync. */
  method PerformAll(r: NodeRegistry, cs: seq<Change>) returns (syncs: seq<bool>)
    requires r.Valid()
    modifies r.Repr
    ensures r.Valid() && fresh(r.Repr - old(r.Repr))
    ensures r.View() == ApplyAll(old(r.View()), cs)
    ensures syncs == SyncsOf(old(r.View()), cs)
  {
    syncs := [];
    for i := 0 to |cs|
      invariant r.Valid() && fresh(r.Repr - old(r.Repr))
      invariant r.View() == ApplyAll(old(r.View()), cs[..i])
      invariant syncs == SyncsOf(old(r.View()), cs[..i])
    {
      var gap := r.Perform(cs[i]);
      syncs := syncs + [gap];
      assert cs[..i + 1][..i] == cs[..i];
    }
    assert cs[..|cs|] == cs;
  }

  /** Read isolation: the record that `getNode` returned never changes, whatever the registry does next. */
  method GetThenChange(r: NodeRegistry, id: string, cs: seq<Change>) returns (copy: NodeInfo?)
    requires r.Valid()
    modifies r.Repr
    ensures r.Valid() && r.View() == ApplyAll(old(r.View()), cs)
    ensures copy == null <==> id !in old(r.View())
    ensures copy != null ==> copy.id == id && copy.Value() == old(r.View())[id]
  {
    copy := r.GetNode(id);
    label taken:
    var syncs := PerformAll(r, cs);
    assert copy != null && copy.devices != null ==> copy.devices[..] == old@taken(copy.devices[..]);
  }

  /** Read isolation: neither does any record of the list that `list` returned. */
  method ListThenChange(r: NodeRegistry, cs: seq<Change>) returns (copies: seq<NodeInfo>, ghost order: seq<string>)
    requires r.Valid()
    modifies r.Repr
    ensures r.Valid() && r.View() == ApplyAll(old(r.View()), cs)
    ensures |copies| == |order| && (forall x :: x in order <==> x in old(r.View()))
    ensures forall i, j :: 0 <= i < j < |order| ==> order[i] != order[j]
    ensures forall i :: 0 <= i < |copies| ==>
              && order[i] in old(r.View()) && copies[i].id == order[i]
              && copies[i].Value() == old(r.View())[order[i]]
  {
    copies, order := r.List();
    label taken:
    var syncs := PerformAll(r, cs);
    forall i | 0 <= i < |copies| ensures copies[i].Value() == old@taken(copies[i].Value()) {
      assert copies[i].devices != null ==> copies[i].devices[..] == old@taken(copies[i].devices[..]);
    }
  }

  /** The loop of `applyDeltaEvent` over the live device array. */
  method MarkInPlace(devices: array<Device>, mac: Mac, connected: bool)
    modifies devices
    ensures devices[..] == Mark(old(devices[..]), mac, connected)
  {
    ghost var was := devices[..];
    for i := 0 to devices.Length
      invariant devices[..] == was
      invariant forall j :: 0 <= j < i ==> was[j].mac != mac
    {
      if devices[i].mac == mac {
        devices[i] := devices[i].(connected := connected);
        forall j | 0 <= j < |was| ensures devices[j] == Mark(was, mac, connected)[j] {
          MarkExact(was, mac, connected, j);
        }
        return;
      }
    }
    forall j | 0 <= j < |was| ensures devices[j] == Mark(was, mac, connected)[j] {
      MarkExact(was, mac, connected, j);
    }
  }
}
