/** The two device listings of a node: GET /devices and the satellite's push.  Both collect the known
    devices under the lock, remember which volumes are unresolved, and patch those afterwards. */
module Listings {
  import opened Options
  import opened Stores
  import opened PipeWire
  import opened Records

  /** A device as the Bluetooth manager lists it. */
  datatype Peer = Peer(mac: Mac, name: string, connected: bool, paired: bool)

  /** The controller's answers after the lock was released: the nodes, if they could be listed, and the
      volumes of those nodes whose volume could be read. */
  datatype Mixer = Mixer(nodes: Option<seq<Node>>, levels: map<int, int>)

  function Describe(p: Peer, s: Settings, playing: set<Mac>, volume: int): Device {
    Device(p.mac, p.name, p.connected, p.paired,
           GetOr(s.delays, p.mac, 0), volume, GetOr(s.mutes, p.mac, false), p.mac in playing)
  }

  /** The volume PipeWire has for a speaker, or -1. */
  function MixerVolume(nodes: seq<Node>, levels: map<int, int>, mac: Mac): int {
    var n := NodeFor(nodes, mac);
    if n.Some? && n.value.id in levels && levels[n.value.id] >= 0 then levels[n.value.id] else -1
  }

  /** One pass: every known device in order, with its stored volume or else what `fallback` says. */
  function OnePass(peers: seq<Peer>, s: Settings, playing: set<Mac>, fallback: Mac -> int): seq<Device> {
    if peers == [] then []
    else
      var front, p := OnePass(peers[..|peers| - 1], s, playing, fallback), peers[|peers| - 1];
      if !Knows(s, p.mac) then front
      else front + [Describe(p, s, playing, if p.mac in s.volumes then s.volumes[p.mac] else fallback(p.mac))]
  }

  function LocalList(peers: seq<Peer>, s: Settings, playing: set<Mac>, mixer: Mixer): seq<Device> {
    var nodes := if mixer.nodes.Some? then mixer.nodes.value else [];
    OnePass(peers, s, playing, mac => MixerVolume(nodes, mixer.levels, mac))
  }

  function PushList(peers: seq<Peer>, s: Settings, playing: set<Mac>, mixer: Mixer): seq<Device> {
    if mixer.nodes.Some?
    then OnePass(peers, s, playing, mac => MixerVolume(mixer.nodes.value, mixer.levels, mac))
    else OnePass(peers, s, playing, mac => 0)
  }

  // ------------------------------------------------------------- the two phases

  /** Phase one: `pending` are the indices whose volume is unresolved and still holds the map's zero. */
  method Collect(peers: seq<Peer>, s: Settings, playing: set<Mac>) returns (items: seq<Device>, pending: seq<nat>)
    ensures items == OnePass(peers, s, playing, mac => 0)
    ensures forall i :: i in pending <==> 0 <= i < |items| && items[i].mac !in s.volumes
    ensures forall a, b :: 0 <= a < b < |pending| ==> pending[a] < pending[b]
  {
    items, pending := [], [];
    ghost var zero: Mac -> int := mac => 0;
    for k := 0 to |peers|
      invariant items == OnePass(peers[..k], s, playing, zero)
      invariant forall i :: i in pending <==> 0 <= i < |items| && items[i].mac !in s.volumes
      invariant forall a, b :: 0 <= a < b < |pending| ==> pending[a] < pending[b]
    {
      assert peers[..k + 1][..k] == peers[..k];
      var p := peers[k];
      if Knows(s, p.mac) {
        if p.mac !in s.volumes {
          assert forall a :: 0 <= a < |pending| ==> pending[a] in pending;
          pending := pending + [|items|];
        }
        items := items + [Describe(p, s, playing, GetOr(s.volumes, p.mac, 0))];
      }
    }
    assert peers[..|peers|] == peers;
  }

  /** Phase two: patches the pending indices, in place. */
  method Resolve(items: array<Device>, pending: seq<nat>, nodes: seq<Node>, levels: map<int, int>)
    requires forall i :: i in pending ==> i < items.Length
    requires forall a, b :: 0 <= a < b < |pending| ==> pending[a] < pending[b]
    modifies items
    ensures forall i :: 0 <= i < items.Length ==>
              items[i] == if i in pending then old(items[i]).(volume := MixerVolume(nodes, levels, old(items[i]).mac))
                          else old(items[i])
  {
    var ids := NodesByMac(nodes);
    for k := 0 to |pending|
      invariant forall i :: 0 <= i < items.Length ==>
                  items[i] == if i in pending[..k]
                              then old(items[i]).(volume := MixerVolume(nodes, levels, old(items[i]).mac))
                              else old(items[i])
    {
      var idx := pending[k];
      assert idx in pending;
      assert idx !in pending[..k];
      assert pending[..k + 1] == pending[..k] + [idx];
      var mac := items[idx].mac;
      if mac in ids && ids[mac] in levels && levels[ids[mac]] >= 0 {
        items[idx] := items[idx].(volume := levels[ids[mac]]);
      } else {
        items[idx] := items[idx].(volume := -1);
      }
    }
    assert pending[..|pending|] == pending;
  }

  /** Patching the unresolved volumes is choosing them in the first place. */
  lemma {:induction false} Patched(peers: seq<Peer>, s: Settings, playing: set<Mac>, fallback: Mac -> int)
    ensures var raw, full := OnePass(peers, s, playing, mac => 0), OnePass(peers, s, playing, fallback);
            && |raw| == |full|
            && forall i :: 0 <= i < |raw| ==>
                 full[i] == if raw[i].mac in s.volumes then raw[i] else raw[i].(volume := fallback(raw[i].mac))
  {
    if peers != [] {
      Patched(peers[..|peers| - 1], s, playing, fallback);
    }
  }

  /** `handleGetDevices`, for the node's own devices. */
  method GetDevices(peers: seq<Peer>, s: Settings, playing: set<Mac>, mixer: Mixer) returns (out: seq<Device>)
    ensures out == LocalList(peers, s, playing, mixer)
  {
    var pending;
    out, pending := Collect(peers, s, playing);
    var nodes := if mixer.nodes.Some? then mixer.nodes.value else [];
    ghost var fallback: Mac -> int := mac => MixerVolume(nodes, mixer.levels, mac);
    Patched(peers, s, playing, fallback);
    if |pending| > 0 {
      out := Patch(out, pending, nodes, mixer.levels);
    }
    assert out == OnePass(peers, s, playing, fallback);
  }

  method Patch(raw: seq<Device>, pending: seq<nat>, nodes: seq<Node>, levels: map<int, int>)
    returns (out: seq<Device>)
    requires forall i :: i in pending ==> i < |raw|
    requires forall a, b :: 0 <= a < b < |pending| ==> pending[a] < pending[b]
    ensures |out| == |raw|
    ensures forall i :: 0 <= i < |raw| ==>
              out[i] == if i in pending then raw[i].(volume := MixerVolume(nodes, levels, raw[i].mac)) else raw[i]
  {
    var items := new Device[|raw|](i requires 0 <= i < |raw| => raw[i]);
    Resolve(items, pending, nodes, levels);
    out := items[..];
  }

  /** `satSendDevices`, up to the write. */
  method SendDevices(peers: seq<Peer>, s: Settings, playing: set<Mac>, mixer: Mixer) returns (items: seq<Device>)
    ensures items == PushList(peers, s, playing, mixer)
  {
    var pending;
    items, pending := Collect(peers, s, playing);
    if |pending| > 0 {
      if mixer.nodes.Some? {
        ghost var fallback: Mac -> int := mac => MixerVolume(mixer.nodes.value, mixer.levels, mac);
        Patched(peers, s, playing, fallback);
        items := Patch(items, pending, mixer.nodes.value, mixer.levels);
        assert items == OnePass(peers, s, playing, fallback);
      }
    } else if mixer.nodes.Some? {
      ghost var fallback: Mac -> int := mac => MixerVolume(mixer.nodes.value, mixer.levels, mac);
      Patched(peers, s, playing, fallback);
      assert items == OnePass(peers, s, playing, fallback);
    }
  }

  // -------------------------------------------------------- what is listed, and how

  /** The positions of the known devices, in order. */
  ghost predicate KnownAt(peers: seq<Peer>, s: Settings, at: seq<nat>) {
    && (forall a, b :: 0 <= a < b < |at| ==> at[a] < at[b])
    && (forall n :: 0 <= n < |at| ==> at[n] < |peers|)
    && (forall k: nat :: k < |peers| ==>
          (k in at <==> peers[k].mac in s.known && s.known[peers[k].mac]))
  }

  /** The device says of the peer what the manager and the settings say. */
  predicate Describes(d: Device, p: Peer, s: Settings, playing: set<Mac>) {
    && d.mac == p.mac && d.name == p.name && d.connected == p.connected && d.paired == p.paired
    && d.delay == (if p.mac in s.delays then s.delays[p.mac] else 0)
    && d.muted == (p.mac in s.mutes && s.mutes[p.mac])
    && (d.playing <==> p.mac in playing)
    && (p.mac in s.volumes ==> d.volume == s.volumes[p.mac])
  }

  lemma KnownAtStep(peers: seq<Peer>, s: Settings, at: seq<nat>)
    requires peers != [] && KnownAt(peers[..|peers| - 1], s, at)
    ensures var p := peers[|peers| - 1];
            KnownAt(peers, s, if p.mac in s.known && s.known[p.mac] then at + [|peers| - 1] else at)
  {
    var last := |peers| - 1;
    var more := if peers[last].mac in s.known && s.known[peers[last].mac] then at + [last] else at;
    forall k: nat | k < |peers|
      ensures k in more <==> peers[k].mac in s.known && s.known[peers[k].mac]
    {
      if k < last {
        assert peers[..last][k] == peers[k];
        assert k in more <==> k in at;
      } else {
        assert k !in at;
      }
    }
  }

  ghost predicate Lists(
      items: seq<Device>, peers: seq<Peer>, at: seq<nat>, s: Settings, playing: set<Mac>, fallback: Mac -> int) {
    && |items| == |at|
    && forall n :: 0 <= n < |at| ==>
         && at[n] < |peers| && Describes(items[n], peers[at[n]], s, playing)
         && (items[n].mac !in s.volumes ==> items[n].volume == fallback(items[n].mac))
  }

  lemma {:induction false} OnePassExactly(peers: seq<Peer>, s: Settings, playing: set<Mac>, fallback: Mac -> int)
    returns (at: seq<nat>)
    ensures KnownAt(peers, s, at)
    ensures Lists(OnePass(peers, s, playing, fallback), peers, at, s, playing, fallback)
  {
    at := [];
    if peers != [] {
      var p := peers[|peers| - 1];
      var front := OnePassExactly(peers[..|peers| - 1], s, playing, fallback);
      KnownAtStep(peers, s, front);
      ListsStep(peers, front, s, playing, fallback);
      at := if p.mac in s.known && s.known[p.mac] then front + [|peers| - 1] else front;
    }
  }

  lemma ListsMore(
      items: seq<Device>, peers: seq<Peer>, at: seq<nat>, s: Settings, playing: set<Mac>, fallback: Mac -> int,
      d: Device)
    requires peers != [] && Lists(items, peers[..|peers| - 1], at, s, playing, fallback)
    ensures Lists(items, peers, at, s, playing, fallback)
    ensures Describes(d, peers[|peers| - 1], s, playing) && (d.mac !in s.volumes ==> d.volume == fallback(d.mac)) ==>
              Lists(items + [d], peers, at + [|peers| - 1], s, playing, fallback)
  {
  }

  lemma ListsStep(peers: seq<Peer>, at: seq<nat>, s: Settings, playing: set<Mac>, fallback: Mac -> int)
    requires peers != []
    requires Lists(OnePass(peers[..|peers| - 1], s, playing, fallback), peers[..|peers| - 1], at, s, playing, fallback)
    ensures var p := peers[|peers| - 1];
            Lists(OnePass(peers, s, playing, fallback), peers,
                  if p.mac in s.known && s.known[p.mac] then at + [|peers| - 1] else at, s, playing, fallback)
  {
    var front, p := OnePass(peers[..|peers| - 1], s, playing, fallback), peers[|peers| - 1];
    var d := Describe(p, s, playing, if p.mac in s.volumes then s.volumes[p.mac] else fallback(p.mac));
    ListsMore(front, peers, at, s, playing, fallback, d);
  }

  /** A volume read from the mixer: that of the last node listed for the speaker, if it was read and is not
      negative, else -1. */
  lemma MixerVolumeExactly(nodes: seq<Node>, levels: map<int, int>, mac: Mac)
    ensures MixerVolume(nodes, levels, mac) != -1 ==>
              exists k :: 0 <= k < |nodes| && nodes[k].mac == mac
                          && (forall i :: k < i < |nodes| ==> nodes[i].mac != mac)
                          && nodes[k].id in levels && MixerVolume(nodes, levels, mac) == levels[nodes[k].id] >= 0
    ensures forall k :: 0 <= k < |nodes| && nodes[k].mac == mac
                        && (forall i :: k < i < |nodes| ==> nodes[i].mac != mac)
                        && nodes[k].id in levels && levels[nodes[k].id] >= 0 ==>
              MixerVolume(nodes, levels, mac) == levels[nodes[k].id]
  {
    NodeForExactly(nodes, mac);
  }

  /** GET /devices lists exactly the known devices, in order, with what manager and settings say of them, and
      the mixer's volume where none is stored. */
  lemma LocalExactly(peers: seq<Peer>, s: Settings, playing: set<Mac>, mixer: Mixer) returns (at: seq<nat>)
    ensures KnownAt(peers, s, at)
    ensures var items := LocalList(peers, s, playing, mixer);
            && |items| == |at|
            && forall n :: 0 <= n < |at| ==>
                 && Describes(items[n], peers[at[n]], s, playing)
                 && (items[n].mac !in s.volumes ==>
                       items[n].volume == if mixer.nodes.None? then -1
                                          else MixerVolume(mixer.nodes.value, mixer.levels, items[n].mac))
  {
    var nodes := if mixer.nodes.Some? then mixer.nodes.value else [];
    at := OnePassExactly(peers, s, playing, mac => MixerVolume(nodes, mixer.levels, mac));
  }

  /** So does the push, but for volume 0 where the nodes could not be listed. */
  lemma PushExactly(peers: seq<Peer>, s: Settings, playing: set<Mac>, mixer: Mixer) returns (at: seq<nat>)
    ensures KnownAt(peers, s, at)
    ensures var items := PushList(peers, s, playing, mixer);
            && |items| == |at|
            && forall n :: 0 <= n < |at| ==>
                 && Describes(items[n], peers[at[n]], s, playing)
                 && (items[n].mac !in s.volumes ==>
                       items[n].volume == if mixer.nodes.None? then 0
                                          else MixerVolume(mixer.nodes.value, mixer.levels, items[n].mac))
  {
    if mixer.nodes.Some? {
      at := OnePassExactly(peers, s, playing, mac => MixerVolume(mixer.nodes.value, mixer.levels, mac));
    } else {
      at := OnePassExactly(peers, s, playing, mac => 0);
    }
  }

  // ----------------------------------------------------------- what lists say

  /** A listed device carries the settings stored for it. */
  ghost predicate Carries(d: Device, s: Settings) {
    && Knows(s, d.mac)
    && d.delay == GetOr(s.delays, d.mac, 0)
    && d.muted == GetOr(s.mutes, d.mac, false)
    && (d.mac in s.volumes ==> d.volume == s.volumes[d.mac])
  }

  ghost predicate AllCarry(items: seq<Device>, s: Settings) {
    forall i :: 0 <= i < |items| ==> Carries(items[i], s)
  }

  lemma {:induction false} OnePassCarries(peers: seq<Peer>, s: Settings, playing: set<Mac>, fallback: Mac -> int)
    ensures AllCarry(OnePass(peers, s, playing, fallback), s)
  {
    if peers != [] {
      OnePassCarries(peers[..|peers| - 1], s, playing, fallback);
    }
  }

  lemma PushCarries(peers: seq<Peer>, s: Settings, playing: set<Mac>, mixer: Mixer)
    ensures AllCarry(PushList(peers, s, playing, mixer), s)
  {
    if mixer.nodes.Some? {
      OnePassCarries(peers, s, playing, mac => MixerVolume(mixer.nodes.value, mixer.levels, mac));
    } else {
      OnePassCarries(peers, s, playing, mac => 0);
    }
  }

  lemma {:induction false} ListedMacs(peers: seq<Peer>, s: Settings, playing: set<Mac>, fallback: Mac -> int, mac: Mac)
    ensures (exists d :: d in OnePass(peers, s, playing, fallback) && d.mac == mac)
       <==> (Knows(s, mac) && exists p :: p in peers && p.mac == mac)
  {
    if peers != [] {
      var front, last := peers[..|peers| - 1], peers[|peers| - 1];
      assert peers == front + [last];
      ListedMacs(front, s, playing, fallback, mac);
      var items := OnePass(peers, s, playing, fallback);
      if Knows(s, last.mac) {
        assert items[|items| - 1].mac == last.mac;
        assert forall d :: d in OnePass(front, s, playing, fallback) ==> d in items;
      }
    }
  }

  /** The two listings agree exactly if the nodes could be listed or every known device that is listed has
      a stored volume: otherwise the push says 0 where GET /devices says -1. */
  lemma ListingsAgree(peers: seq<Peer>, s: Settings, playing: set<Mac>, mixer: Mixer)
    ensures LocalList(peers, s, playing, mixer) == PushList(peers, s, playing, mixer)
       <==> (mixer.nodes.Some? || forall p :: p in peers && Knows(s, p.mac) ==> p.mac in s.volumes)
  {
    var here := LocalList(peers, s, playing, mixer);
    var there := PushList(peers, s, playing, mixer);
    var nodes := if mixer.nodes.Some? then mixer.nodes.value else [];
    Patched(peers, s, playing, mac => MixerVolume(nodes, mixer.levels, mac));
    if mixer.nodes.Some? {
      Patched(peers, s, playing, mac => MixerVolume(mixer.nodes.value, mixer.levels, mac));
      assert here == there;
    } else if p :| p in peers && Knows(s, p.mac) && p.mac !in s.volumes {
      ListedMacs(peers, s, playing, mac => 0, p.mac);
      Patched(peers, s, playing, mac => 0);
      var i :| 0 <= i < |there| && there[i].mac == p.mac;
      assert here[i].volume == -1 && there[i].volume == 0;
    } else {
      forall i | 0 <= i < |there| ensures here[i] == there[i] {
        ListedMacs(peers, s, playing, mac => 0, there[i].mac);
      }
    }
  }

  /** A known speaker without a stored volume, while the nodes cannot be listed: -1 here, 0 there. */
  lemma ListingsDiffer(p: Peer, s: Settings, playing: set<Mac>, levels: map<int, int>)
    requires Knows(s, p.mac) && p.mac !in s.volumes
    ensures LocalList([p], s, playing, Mixer(None, levels)) != PushList([p], s, playing, Mixer(None, levels))
  {
    ListingsAgree([p], s, playing, Mixer(None, levels));
    assert p in [p];
  }
}
