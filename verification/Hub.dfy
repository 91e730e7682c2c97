/** The event hub: subscribers with bounded channels, filled without blocking.

    A broadcast copies the subscriber list under the lock and sends after releasing it, one subscriber at a
    time, so that the sends of several broadcasts interleave, and interleave with subscribing and
    cancelling.  The history of the hub is the broadcasts in the order in which they copied the list. */
module Hubs {
  import opened Options

  ghost predicate Ascending(at: seq<nat>) {
    forall i, j :: 0 <= i < j < |at| ==> at[i] < at[j]
  }

  ghost predicate Distinct<T>(xs: seq<T>) {
    forall i, j :: 0 <= i < j < |xs| ==> xs[i] != xs[j]
  }

  /** Exactly the positions from low to high, in some order. */
  ghost predicate Covers(at: seq<nat>, low: nat, high: nat) {
    Distinct(at) && forall j: nat :: j in at <==> low <= j < high
  }

  ghost predicate Consecutive(at: seq<nat>, low: nat, high: nat) {
    |at| == high - low && forall i :: 0 <= i < |at| ==> at[i] == low + i
  }

  lemma SomeCovered(at: seq<nat>, low: nat, high: nat)
    requires Covers(at, low, high) && at != []
    ensures low < high
  {
    assert at[0] in at;
  }

  /** In ascending order they are consecutive. */
  lemma {:induction false} AscendingCovers(at: seq<nat>, low: nat, high: nat)
    requires low <= high && Covers(at, low, high) && Ascending(at)
    ensures Consecutive(at, low, high)
  {
    if low < high {
      assert high - 1 in at;
      var front := at[..|at| - 1];
      assert at[|at| - 1] == high - 1 by {
        var i :| 0 <= i < |at| && at[i] == high - 1;
        assert at[|at| - 1] in at;
      }
      forall j: nat ensures j in front <==> low <= j < high - 1 {
        if j in at && j < high - 1 {
          var i :| 0 <= i < |at| && at[i] == j;
          assert front[i] == j;
        }
      }
      AscendingCovers(front, low, high - 1);
    } else {
      if at != [] {
        SomeCovered(at, low, high);
      }
    }
  }

  function Picked<T>(log: seq<T>, at: seq<nat>): seq<T>
    requires forall j :: j in at ==> j < |log|
  {
    seq(|at|, i requires 0 <= i < |at| => assert at[i] in at; log[at[i]])
  }

  function Remove(xs: seq<nat>, i: nat): (rest: seq<nat>)
    requires i < |xs|
    ensures forall j :: j in rest ==> j in xs
  {
    xs[..i] + xs[i + 1..]
  }

  lemma RemoveCovers(at: seq<nat>, i: nat, low: nat, high: nat)
    requires low < high && Covers(at, low, high) && i < |at| && at[i] == high - 1
    ensures Covers(Remove(at, i), low, high - 1)
  {
    var rest := Remove(at, i);
    forall j: nat ensures j in rest <==> low <= j < high - 1 {
      if j in at && j != high - 1 {
        var k :| 0 <= k < |at| && at[k] == j;
        assert rest[if k < i then k else k - 1] == j;
      }
      if j in rest {
        var k :| 0 <= k < |rest| && rest[k] == j;
        assert at[if k < i then k else k + 1] == j;
      }
    }
  }

  lemma PickedRemove<T>(log: seq<T>, at: seq<nat>, i: nat)
    requires i < |at| && forall j :: j in at ==> j < |log|
    ensures multiset(Picked(log, at)) == multiset(Picked(log, Remove(at, i))) + multiset{Picked(log, at)[i]}
  {
    var all, rest := Picked(log, at), Remove(at, i);
    assert all == all[..i] + [all[i]] + all[i + 1..];
    assert Picked(log, rest) == all[..i] + all[i + 1..];
  }

  lemma LastOfSlice<T>(log: seq<T>, low: nat, high: nat)
    requires low < high <= |log|
    ensures multiset(log[low..high]) == multiset(log[low..high - 1]) + multiset{log[high - 1]}
  {
    assert log[low..high] == log[low..high - 1] + [log[high - 1]];
  }

  /** In any order they pick every message once. */
  lemma {:induction false} CoversAll<T>(log: seq<T>, at: seq<nat>, low: nat, high: nat)
    requires low <= high <= |log| && Covers(at, low, high)
    ensures multiset(Picked(log, at)) == multiset(log[low..high])
  {
    if low < high {
      assert high - 1 in at;
      var i :| 0 <= i < |at| && at[i] == high - 1;
      RemoveCovers(at, i, low, high);
      CoversAll(log, Remove(at, i), low, high - 1);
      PickedRemove(log, at, i);
      assert Picked(log, at)[i] == log[high - 1];
      LastOfSlice(log, low, high);
    } else {
      if at != [] {
        SomeCovered(at, low, high);
      }
    }
  }

  /** A non-blocking send into a channel of the given capacity. */
  function Filled<T>(ch: seq<T>, x: T, cap: nat): seq<T> {
    if |ch| < cap then ch + [x] else ch
  }

  /** What became of the broadcasts for one subscriber, from the one numbered `since` on: until which one it
      was subscribed, what it was given and which broadcasts these were, which found the channel full, and
      which have yet to reach it. */
  datatype Book<T> = Book(
    since: nat, until: Option<nat>, given: seq<T>, at: seq<nat>, drops: set<nat>, owed: set<nat>)

  function End<T>(b: Book<T>, log: seq<T>): nat {
    if b.until.Some? then b.until.value else |log|
  }

  /** Each broadcast copied while it was subscribed was given to it, or dropped, or will still be offered:
      one of these, and once. */
  ghost predicate Balanced<T>(b: Book<T>, log: seq<T>) {
    && b.since <= End(b, log) <= |log|
    && |b.at| == |b.given| && (forall i :: 0 <= i < |b.at| ==> b.at[i] < |log| && b.given[i] == log[b.at[i]])
    && Distinct(b.at)
    && (forall j: nat :: b.since <= j < End(b, log) <==> j in b.at || j in b.drops || j in b.owed)
    && (forall j :: j in b.at ==> j !in b.drops && j !in b.owed)
    && b.drops !! b.owed
  }

  /** The channel holds the end of what was given. */
  ghost predicate Accounts<T>(cap: nat, ch: seq<T>, b: Book<T>, log: seq<T>) {
    |ch| <= cap && |ch| <= |b.given| && ch == b.given[|b.given| - |ch|..] && Balanced(b, log)
  }

  /** Broadcast n copied the list with this subscriber on it. */
  function Owe<T>(b: Book<T>, n: nat): Book<T> {
    b.(owed := b.owed + {n})
  }

  /** Broadcast n reached the subscriber and found room or not. */
  function Offered<T>(b: Book<T>, n: nat, x: T, room: bool): Book<T> {
    var c := b.(owed := b.owed - {n});
    if room then c.(given := b.given + [x], at := b.at + [n]) else c.(drops := b.drops + {n})
  }

  lemma OfferedBalances<T>(b: Book<T>, n: nat, room: bool, log: seq<T>)
    requires Balanced(b, log) && n in b.owed && n < |log|
    ensures Balanced(Offered(b, n, log[n], room), log)
  {
    var c := Offered(b, n, log[n], room);
    assert forall j: nat :: j in c.at <==> j in b.at || (room && j == n);
  }

  lemma OfferedAccounts<T>(cap: nat, ch: seq<T>, b: Book<T>, n: nat, log: seq<T>)
    requires Accounts(cap, ch, b, log) && n in b.owed && n < |log|
    ensures Accounts(cap, Filled(ch, log[n], cap), Offered(b, n, log[n], |ch| < cap), log)
  {
    OfferedBalances(b, n, |ch| < cap, log);
    var k := |b.given| - |ch|;
    assert (b.given + [log[n]])[k..] == b.given[k..] + [log[n]];
  }

  lemma LoggedAccounts<T>(cap: nat, ch: seq<T>, b: Book<T>, x: T, log: seq<T>)
    requires Accounts(cap, ch, b, log)
    ensures Accounts(cap, ch, if b.until.None? then Owe(b, |log|) else b, log + [x])
  {
  }

  class Sub<T> {
    const cap: nat
    var ch: seq<T>
    ghost var book: Book<T>

    constructor (cap: nat, ghost since: nat)
      ensures this.cap == cap && ch == [] && book == Book(since, None, [], [], {}, {})
    {
      this.cap, ch, book := cap, [], Book(since, None, [], [], {}, {});
    }

    /** The non-blocking send of broadcast n. */
    method Offer(x: T, ghost n: nat, ghost log: seq<T>)
      requires Accounts(cap, ch, book, log) && n in book.owed && n < |log| && log[n] == x
      modifies this
      ensures Accounts(cap, ch, book, log)
      ensures ch == Filled(old(ch), x, cap) && book == Offered(old(book), n, x, |old(ch)| < cap)
    {
      OfferedAccounts(cap, ch, book, n, log);
      book := Offered(book, n, x, |ch| < cap);
      if |ch| < cap {
        ch := ch + [x];
      }
    }

    method Receive(ghost log: seq<T>) returns (x: T)
      requires ch != [] && Accounts(cap, ch, book, log)
      modifies `ch
      ensures x == old(ch)[0] && ch == old(ch)[1..]
      ensures Accounts(cap, ch, book, log)
    {
      x := ch[0];
      ch := ch[1..];
    }
  }

  /** Once nothing is on its way to it, a subscriber whose channel was never full was given exactly the
      broadcasts of its time, each once, though perhaps not in the order of the history. */
  lemma NothingDropped<T>(b: Book<T>, log: seq<T>)
    requires Balanced(b, log) && b.owed == {} && b.drops == {}
    ensures multiset(b.given) == multiset(log[b.since..End(b, log)])
  {
    assert Covers(b.at, b.since, End(b, log));
    CoversAll(log, b.at, b.since, End(b, log));
    assert b.given == Picked(log, b.at);
  }

  /** What it was given is the history of its time, position by position, if and only if nothing was dropped
      and no broadcast reached it after one that copied the list later. */
  lemma GivenInOrder<T>(b: Book<T>, log: seq<T>)
    requires Balanced(b, log) && b.owed == {}
    ensures Consecutive(b.at, b.since, End(b, log)) <==> b.drops == {} && Ascending(b.at)
    ensures Consecutive(b.at, b.since, End(b, log)) ==> b.given == log[b.since..End(b, log)]
  {
    if b.drops == {} && Ascending(b.at) {
      AscendingCovers(b.at, b.since, End(b, log));
    }
    assert forall j :: j in b.drops ==> b.since <= j < End(b, log);
    if Consecutive(b.at, b.since, End(b, log)) {
      forall j: nat | b.since <= j < End(b, log) ensures j in b.at {
        assert b.at[j - b.since] == j;
      }
    }
  }

  /** A broadcast that overlaps no other keeps the order. */
  lemma InOrderStays<T>(b: Book<T>, log: seq<T>, x: T, room: bool)
    requires Balanced(b, log) && Ascending(b.at)
    ensures Ascending(Offered(Owe(b, |log|), |log|, x, room).at)
  {
  }

  /** A broadcast that has copied the list, with the subscribers it has yet to offer its message. */
  datatype Sending<T> = Sending(msg: T, rest: seq<Sub<T>>)

  /** These are the broadcasts that have yet to reach the subscriber. */
  ghost predicate Owing<T>(owed: set<nat>, sendings: seq<Sending<T>>, s: Sub<T>) {
    forall n: nat :: n in owed <==> n < |sendings| && s in sendings[n].rest
  }

  lemma OwingCopied<T>(owed: set<nat>, sendings: seq<Sending<T>>, s: Sub<T>, added: Sending<T>)
    requires Owing(owed, sendings, s)
    ensures Owing(if s in added.rest then owed + {|sendings|} else owed, sendings + [added], s)
  {
  }

  lemma OwingSent<T>(owed: set<nat>, sendings: seq<Sending<T>>, s: Sub<T>, n: nat)
    requires Owing(owed, sendings, s) && n < |sendings| && sendings[n].rest != [] && Distinct(sendings[n].rest)
    ensures var rest := sendings[n].rest;
            Owing(if s == rest[0] then owed - {n} else owed, sendings[n := sendings[n].(rest := rest[1..])], s)
  {
    var rest := sendings[n].rest;
    assert s in rest[1..] <==> s in rest && s != rest[0];
  }

  /** No broadcast is under way. */
  predicate Quiet<T>(sendings: seq<Sending<T>>) {
    forall n :: 0 <= n < |sendings| ==> sendings[n].rest == []
  }

  class Hub<T> {
    var subs: seq<Sub<T>>

    /** The broadcasts in the order in which they copied the list. */
    var sendings: seq<Sending<T>>
    ghost var log: seq<T>

    /** Everyone who ever subscribed. */
    ghost var all: set<Sub<T>>

    ghost predicate Valid()
      reads this, all
    {
      && Distinct(subs)
      && (forall s :: s in subs ==> s in all)
      && (forall s :: s in all ==> (s in subs <==> s.book.until.None?))
      && (forall s :: s in all ==> Accounts(s.cap, s.ch, s.book, log) && Owing(s.book.owed, sendings, s))
      && |sendings| == |log| && (forall n :: 0 <= n < |log| ==> sendings[n].msg == log[n])
      && (forall n :: 0 <= n < |sendings| ==>
            Distinct(sendings[n].rest) && forall s :: s in sendings[n].rest ==> s in all)
    }

    /** No broadcast is under way, and everyone got broadcasts in the order of the history only. */
    ghost predicate Orderly()
      reads this, all
    {
      Valid() && Quiet(sendings) && forall s :: s in all ==> Ascending(s.book.at)
    }

    /** Then whoever dropped nothing holds the history of its time, in order. */
    lemma HistoryInOrder(sub: Sub<T>)
      requires Orderly() && sub in all && sub.book.drops == {}
      ensures sub.book.given == log[sub.book.since..End(sub.book, log)]
    {
      assert Accounts(sub.cap, sub.ch, sub.book, log) && Owing(sub.book.owed, sendings, sub);
      assert sub.book.owed == {};
      GivenInOrder(sub.book, log);
    }

    constructor ()
      ensures Valid() && subs == [] && sendings == [] && log == [] && all == {}
    {
      subs, sendings, log, all := [], [], [], {};
    }

    method Subscribe(cap: nat) returns (sub: Sub<T>)
      requires Valid()
      modifies `subs, `all
      ensures Valid() && fresh(sub) && sub.cap == cap && sub.ch == []
      ensures sub.book == Book(|log|, None, [], [], {}, {})
      ensures subs == old(subs) + [sub] && all == old(all) + {sub}
    {
      sub := new Sub(cap, |log|);
      assert forall n :: 0 <= n < |sendings| ==> sub !in sendings[n].rest;
      assert Owing({}, sendings, sub);
      subs := subs + [sub];
      all := all + {sub};
    }

    /** The cancel function: swap with the last, then shrink; a second call finds nothing.  What is on its
        way may still reach the subscriber. */
    method Cancel(sub: Sub<T>)
      requires Valid()
      modifies `subs, sub`book
      ensures Valid()
      ensures forall s :: s in subs <==> s in old(subs) && s != sub
      ensures |subs| == |old(subs)| - (if sub in old(subs) then 1 else 0)
      ensures sub.book == if sub in old(subs) then old(sub.book).(until := Some(|log|)) else old(sub.book)
    {
      for i := 0 to |subs|
        invariant subs == old(subs) && sub.book == old(sub.book) && Valid()
        invariant sub !in subs[..i]
      {
        if subs[i] == sub {
          RemoveAt(i, sub);
          return;
        }
      }
    }

    method RemoveAt(i: nat, sub: Sub<T>)
      requires Valid() && i < |subs| && subs[i] == sub
      modifies `subs, sub`book
      ensures Valid()
      ensures forall s :: s in subs <==> s in old(subs) && s != sub
      ensures |subs| == |old(subs)| - 1
      ensures sub.book == old(sub.book).(until := Some(|log|))
    {
      ghost var was := subs;
      sub.book := sub.book.(until := Some(|log|));
      subs := subs[i := subs[|subs| - 1]];
      subs := subs[..|subs| - 1];
      Swapped(was, subs, i);
    }

    /** The lock section of `broadcast`. */
    method Copy(x: T)
      requires Valid()
      modifies `sendings, `log, all`book
      ensures Valid()
      ensures sendings == old(sendings) + [Sending(x, subs)] && log == old(log) + [x]
      ensures forall s :: s in all ==> s.book == if s in subs then Owe(old(s.book), |old(log)|) else old(s.book)
    {
      ghost var n := |log|;
      forall s | s in all
        ensures Owing(if s in subs then s.book.owed + {n} else s.book.owed, sendings + [Sending(x, subs)], s)
        ensures Accounts(s.cap, s.ch, if s in subs then Owe(s.book, n) else s.book, log + [x])
      {
        OwingCopied(s.book.owed, sendings, s, Sending(x, subs));
        LoggedAccounts(s.cap, s.ch, s.book, x, log);
      }
      sendings := sendings + [Sending(x, subs)];
      log := log + [x];
      forall s | s in subs {
        s.book := Owe(s.book, n);
      }
    }

    /** One send of broadcast n, to the next subscriber on its list. */
    method Send(n: nat)
      requires Valid() && n < |sendings| && sendings[n].rest != []
      modifies `sendings, sendings[n].rest[0]
      ensures Valid()
      ensures sendings == old(sendings)[n := old(sendings)[n].(rest := old(sendings)[n].rest[1..])]
      ensures var sub := old(sendings)[n].rest[0];
              && sub.ch == Filled(old(sub.ch), log[n], sub.cap)
              && sub.book == Offered(old(sub.book), n, log[n], |old(sub.ch)| < sub.cap)
    {
      var sub, rest := sendings[n].rest[0], sendings[n].rest[1..];
      forall s | s in all
        ensures Owing(if s == sub then s.book.owed - {n} else s.book.owed, sendings[n := sendings[n].(rest := rest)], s)
      {
        OwingSent(s.book.owed, sendings, s, n);
      }
      assert Owing(sub.book.owed, sendings, sub) && n in sub.book.owed;
      sub.Offer(sendings[n].msg, n, log);
      sendings := sendings[n := sendings[n].(rest := rest)];
    }

    /** The sends of broadcast n, if nothing else happens meanwhile. */
    method SendAll(n: nat)
      requires Valid() && n < |sendings|
      modifies `sendings, sendings[n].rest
      ensures Valid()
      ensures sendings == old(sendings)[n := old(sendings)[n].(rest := [])]
      ensures forall s :: s in old(sendings)[n].rest ==>
                && s.ch == Filled(old(s.ch), log[n], s.cap)
                && s.book == Offered(old(s.book), n, log[n], |old(s.ch)| < s.cap)
    {
      while sendings[n].rest != []
        invariant Valid() && n < |sendings| && sendings == old(sendings)[n := Sending(log[n], sendings[n].rest)]
        invariant forall s :: s in sendings[n].rest ==> s in old(sendings)[n].rest && unchanged(s)
        invariant forall s :: s in old(sendings)[n].rest && s !in sendings[n].rest ==>
                    && s.ch == Filled(old(s.ch), log[n], s.cap)
                    && s.book == Offered(old(s.book), n, log[n], |old(s.ch)| < s.cap)
        decreases |sendings[n].rest|
      {
        ghost var rest := sendings[n].rest;
        assert rest[0] in rest;
        Send(n);
        assert forall s :: s in sendings[n].rest <==> s in rest && s != rest[0];
      }
    }

    /** A broadcast that no other overlaps: everyone on the list is offered the message once, and whoever had got
        the history in order still has. */
    method Broadcast(x: T)
      requires Valid() && Quiet(sendings)
      modifies `sendings, `log, all
      ensures Valid() && Quiet(sendings) && log == old(log) + [x]
      ensures forall s :: s in subs ==>
                && s.ch == Filled(old(s.ch), x, s.cap)
                && s.book == Offered(Owe(old(s.book), |old(log)|), |old(log)|, x, |old(s.ch)| < s.cap)
                && (Ascending(old(s.book).at) ==> Ascending(s.book.at))
      ensures forall s :: s in all && s !in subs ==> unchanged(s)
    {
      forall s | s in subs && Ascending(s.book.at)
        ensures Ascending(Offered(Owe(s.book, |log|), |log|, x, |s.ch| < s.cap).at)
      {
        InOrderStays(s.book, log, x, |s.ch| < s.cap);
      }
      Copy(x);
      SendAll(|sendings| - 1);
    }
  }

  datatype Call<T> = Enter(cap: nat) | Leave(k: nat) | Tell(msg: T)

  method Answer<T>(hub: Hub<T>, call: Call<T>)
    requires hub.Orderly()
    modifies hub, hub.all
    ensures hub.Orderly() && fresh(hub.all - old(hub.all))
  {
    match call {
      case Enter(cap) => var sub := hub.Subscribe(cap);
      case Leave(k) =>
        if k < |hub.subs| {
          hub.Cancel(hub.subs[k]);
        }
      case Tell(msg) => hub.Broadcast(msg);
    }
  }

  /** In a hub whose broadcasts never overlap, whatever is subscribed, cancelled and broadcast, a subscriber
      that dropped nothing holds the history of its time, in order. */
  method Serve<T>(calls: seq<Call<T>>) returns (hub: Hub<T>)
    ensures hub.Orderly()
    ensures forall s :: s in hub.all && s.book.drops == {} ==>
              s.book.given == hub.log[s.book.since..End(s.book, hub.log)]
  {
    hub := new Hub();
    for k := 0 to |calls|
      invariant hub.Orderly() && fresh(hub) && fresh(hub.all)
    {
      Answer(hub, calls[k]);
    }
    forall s | s in hub.all && s.book.drops == {}
      ensures s.book.given == hub.log[s.book.since..End(s.book, hub.log)]
    {
      hub.HistoryInOrder(s);
    }
  }

  /** The second subscriber joins after the first broadcast has copied the list and before the second. */
  method Join<T>(hub: Hub<T>, early: Sub<T>, second: T) returns (late: Sub<T>)
    requires hub.Valid() && hub.subs == [early] && hub.all == {early} && |hub.log| == 1
    modifies hub, early
    ensures hub.Valid() && fresh(late) && hub.log == old(hub.log) + [second]
    ensures hub.sendings == old(hub.sendings) + [Sending(second, [early, late])]
    ensures early.ch == old(early.ch) && early.book == Owe(old(early.book), 1)
    ensures late.cap == 2 && late.ch == [] && late.book == Owe(Book(1, None, [], [], {}, {}), 1)
  {
    late := hub.Subscribe(2);
    assert hub.subs == [early, late] && early in hub.subs && late in hub.subs;
    hub.Copy(second);
  }

  /** Both broadcasts have copied the list, and none has sent. */
  method CopyBoth<T>(first: T, second: T) returns (hub: Hub<T>, early: Sub<T>, late: Sub<T>)
    ensures fresh(hub) && fresh(early) && fresh(late) && early != late && hub.Valid()
    ensures hub.log == [first, second] && |hub.sendings| == 2
    ensures hub.sendings[0].rest == [early] && hub.sendings[1].rest == [early, late]
    ensures early.cap == late.cap == 2 && early.ch == late.ch == []
    ensures early.book.at == [] && early.book.drops == late.book.drops == {}
  {
    hub := new Hub();
    early := hub.Subscribe(2);
    assert early in hub.subs;
    hub.Copy(first);
    late := Join(hub, early, second);
  }

  /** The first broadcast has copied the list, and the second is done. */
  method SendSecond<T>(first: T, second: T) returns (hub: Hub<T>, early: Sub<T>, late: Sub<T>)
    ensures fresh(hub) && fresh(early) && fresh(late) && early != late && hub.Valid()
    ensures hub.log == [first, second] && |hub.sendings| == 2
    ensures hub.sendings[0].rest == [early] && hub.sendings[1].rest == []
    ensures early.cap == 2 && early.ch == [second] && early.book.at == [1] && early.book.drops == {}
    ensures late.ch == [second] && late.book.drops == {}
  {
    hub, early, late := CopyBoth(first, second);
    assert early in hub.sendings[1].rest && late in hub.sendings[1].rest;
    hub.SendAll(1);
  }

  /** Two broadcasts that overlap: the first sends after the second is done.  Nothing is dropped, but the
      subscribers disagree on the order: one got the first broadcast last, the other never got it. */
  method Overtake<T>(first: T, second: T) returns (hub: Hub<T>, early: Sub<T>, late: Sub<T>)
    ensures hub.Valid() && hub.log == [first, second] && Quiet(hub.sendings)
    ensures early.ch == [second, first] && early.book.drops == {} && !Ascending(early.book.at)
    ensures late.ch == [second] && late.book.drops == {}
  {
    hub, early, late := SendSecond(first, second);
    hub.Send(0);
    assert early.book.at == [1, 0];
  }

  /** The last element moved into place i and the sequence shrunk: exactly xs[i] is gone. */
  lemma Swapped<T>(xs: seq<T>, ys: seq<T>, i: nat)
    requires Distinct(xs) && i < |xs| && ys == xs[i := xs[|xs| - 1]][..|xs| - 1]
    ensures Distinct(ys) && forall x :: x in ys <==> x in xs && x != xs[i]
  {
    forall x ensures x in ys <==> x in xs && x != xs[i] {
      if k :| 0 <= k < |xs| && xs[k] == x && x != xs[i] {
        assert k == |xs| - 1 || ys[k] == x;
        assert i < |xs| - 1 ==> ys[i] == xs[|xs| - 1];
      }
    }
  }
}
