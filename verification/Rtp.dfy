/** The RTP part of the audio controller: which pw-cli processes it tracks.

    A started process is briefly held by the call that started it before it is tracked, and by the call
    that untracks it before it is killed; other calls run in between. */
module RtpController {
  import opened Options

  class Controller {
    var sinks: map<int, nat>
    var source: Option<nat>

    /** The operating system, and the processes held in a local variable of a running call. */
    var started: nat
    var killed: set<nat>
    var held: set<nat>

    ghost predicate Accounted(p: nat)
      reads this
    {
      p in killed || p in held || source == Some(p) || exists port :: port in sinks && sinks[port] == p
    }

    /** Every process ever started is tracked, held by a running call, or killed; never tracked twice. */
    ghost predicate Valid()
      reads this
    {
      && (forall p: nat :: p < started ==> Accounted(p))
      && held !! killed
      && (forall p :: p in held || p in killed ==> p < started)
      && (forall port :: port in sinks ==> sinks[port] < started)
      && (source.Some? ==> source.value < started)
      && (forall a, b :: a in sinks && b in sinks && a != b ==> sinks[a] != sinks[b])
      && (forall port :: port in sinks ==> source != Some(sinks[port]))
      && (forall port :: port in sinks ==> sinks[port] !in held && sinks[port] !in killed)
      && (source.Some? ==> source.value !in held && source.value !in killed)
    }

    constructor ()
      ensures Valid() && sinks == map[] && source == None && started == 0 && held == {} && killed == {}
    {
      sinks, source, started, killed, held := map[], None, 0, {}, {};
    }

    /** `spawnRTPSink` and `spawnRTPSource`: a process whose module does not load is killed at once. */
    method Spawn(starts: bool, loads: bool) returns (p: Option<nat>)
      requires Valid()
      modifies `started, `killed, `held
      ensures Valid()
      ensures p == if starts && loads then Some(old(started)) else None
      ensures started == old(started) + (if starts then 1 else 0)
      ensures held == old(held) + (if p.Some? then {p.value} else {})
      ensures killed == old(killed) + (if starts && !loads then {old(started)} else {})
    {
      if !starts {
        return None;
      }
      var pid := started;
      started := started + 1;
      if !loads {
        killed := killed + {pid};
        forall q: nat | q < started ensures Accounted(q) {
          if q < old(started) {
            assert old(Accounted(q)) && sinks == old(sinks);
          }
        }
        return None;
      }
      held := held + {pid};
      forall q: nat | q < started ensures Accounted(q) {
        if q < old(started) {
          assert old(Accounted(q)) && sinks == old(sinks);
        }
      }
      return Some(pid);
    }

    /** The locked part of `AddRTPSink`. */
    method Track(port: int, p: nat)
      requires Valid() && p in held
      modifies `sinks, `killed, `held
      ensures Valid()
      ensures sinks == old(sinks)[port := p] && held == old(held) - {p}
      ensures killed == old(killed) + (if port in old(sinks) then {old(sinks)[port]} else {})
    {
      if port in sinks {
        killed := killed + {sinks[port]};
      }
      sinks := sinks[port := p];
      held := held - {p};
      forall q: nat | q < started ensures Accounted(q) {
        assert old(Accounted(q));
        assert sinks[port] == p;
        assert forall a :: a in old(sinks) && a != port ==> sinks[a] == old(sinks)[a];
      }
    }

    /** Returns the id under which the sink can be removed: the port. */
    method AddRTPSink(port: int, starts: bool, loads: bool) returns (id: Option<int>)
      requires Valid()
      modifies this
      ensures Valid() && held == old(held) && source == old(source)
      ensures id == if starts && loads then Some(port) else None
      ensures sinks == if starts && loads then old(sinks)[port := old(started)] else old(sinks)
      ensures killed == old(killed) + (if starts && !loads then {old(started)} else {})
                        + (if starts && loads && port in old(sinks) then {old(sinks)[port]} else {})
    {
      var p := Spawn(starts, loads);
      if p.None? {
        return None;
      }
      Track(port, p.value);
      return Some(port);
    }

    /** The locked part of `RemoveRTPSink`. */
    method Untrack(id: int) returns (p: Option<nat>)
      requires Valid()
      modifies `sinks, `held
      ensures Valid()
      ensures p == Get(old(sinks), id) && sinks == old(sinks) - {id}
      ensures held == old(held) + (if p.Some? then {p.value} else {})
    {
      if id !in sinks {
        return None;
      }
      var pid := sinks[id];
      sinks := sinks - {id};
      held := held + {pid};
      forall q: nat | q < started ensures Accounted(q) {
        assert old(Accounted(q));
        assert forall a :: a in old(sinks) && a != id ==> sinks[a] == old(sinks)[a];
      }
      return Some(pid);
    }

    method RemoveRTPSink(id: int)
      requires Valid()
      modifies this
      ensures Valid() && sinks == old(sinks) - {id} && source == old(source) && started == old(started)
      ensures killed == old(killed) + (if id in old(sinks) then {old(sinks)[id]} else {})
      ensures held == old(held) - (if id in old(sinks) then {old(sinks)[id]} else {})
    {
      var p := Untrack(id);
      label untracked:
      if p.Some? {
        killed := killed + {p.value};
        held := held - {p.value};
      }
      forall q: nat | q < started ensures Accounted(q) {
        assert old@untracked(Accounted(q)) && sinks == old@untracked(sinks);
      }
    }

    /** Kills the old source before it starts a new one: one source process at most is ever alive. */
    method ReloadRTPSource(starts: bool, loads: bool) returns (ok: bool)
      requires Valid()
      modifies this
      ensures Valid() && sinks == old(sinks) && held == old(held)
      ensures ok == (starts && loads)
      ensures source == if ok then Some(old(started)) else None
      ensures killed == old(killed) + (if old(source).Some? then {old(source).value} else {})
                        + (if starts && !loads then {old(started)} else {})
    {
      if source.Some? {
        killed := killed + {source.value};
      }
      source := None;
      forall q: nat | q < started ensures Accounted(q) {
        if q < old(started) {
          assert old(Accounted(q)) && sinks == old(sinks);
        }
      }
      var p := Spawn(starts, loads);
      label spawned:
      if p.None? {
        return false;
      }
      source := p;
      held := held - {p.value};
      forall q: nat | q < started ensures Accounted(q) {
        assert old@spawned(Accounted(q)) && sinks == old@spawned(sinks);
      }
      return true;
    }
  }

  /** A call on the controller with what the operating system answers. */
  datatype Call =
    | Add(port: int, starts: bool, loads: bool)
    | Remove(id: int)
    | Reload(starts: bool, loads: bool)

  /** Between calls, every sink process ever started is the one tracked for its port or has been killed:
      in any run, whatever fails. */
  method Serve(calls: seq<Call>) returns (c: Controller)
    ensures c.Valid() && c.held == {}
    ensures forall p: nat :: p < c.started ==> c.Accounted(p)
  {
    c := new Controller();
    for k := 0 to |calls|
      invariant fresh(c) && c.Valid() && c.held == {}
    {
      match calls[k] {
        case Add(port, starts, loads) => var id := c.AddRTPSink(port, starts, loads);
        case Remove(id) => c.RemoveRTPSink(id);
        case Reload(starts, loads) => var ok := c.ReloadRTPSource(starts, loads);
      }
    }
  }
}
