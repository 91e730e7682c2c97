/** Debounced persistence: handlers change the settings under the lock and schedule a save; a save copies
    the settings under the lock and writes the file afterwards, so that saves may overlap. */
module Persistence {
  import opened Options
  import opened Stores

  datatype File = File(settings: Settings, connected: set<Mac>)

  datatype State = State(
    memory: Settings,
    alive: set<Mac>,        // speakers whose loopback is not seen dead
    calls: nat,             // handlers between their change and saveStateDebounced
    timer: bool,
    begun: nat,             // saves that have not copied yet
    copies: seq<File>,      // copies not yet written
    file: Option<File>,
    changed: bool)          // the settings were changed since start-up

  datatype Action =
    | Modify(memory: Settings)
    | Loopbacks(alive: set<Mac>)
    | Schedule
    | Fire
    | Copy
    | Write(k: nat, ok: bool)

  ghost predicate Init(s: State) {
    s.calls == 0 && !s.timer && s.begun == 0 && s.copies == [] && !s.changed
  }

  predicate Enabled(s: State, a: Action) {
    match a
    case Schedule => s.calls > 0
    case Fire => s.timer
    case Copy => s.begun > 0
    case Write(k, _) => k < |s.copies|
    case _ => true
  }

  function Without<T>(xs: seq<T>, k: nat): seq<T> {
    if k < |xs| then xs[..k] + xs[k + 1..] else xs
  }

  function Next(s: State, a: Action): State
    requires Enabled(s, a)
  {
    match a
    case Modify(memory) => s.(memory := memory, calls := s.calls + 1, changed := true)
    case Loopbacks(alive) => s.(alive := alive)
    case Schedule => s.(calls := s.calls - 1, timer := true)
    case Fire => s.(timer := false, begun := s.begun + 1)
    case Copy => s.(begun := s.begun - 1, copies := s.copies + [File(s.memory, s.alive)])
    case Write(k, ok) =>
      s.(copies := Without(s.copies, k), file := if ok then Some(s.copies[k]) else s.file)
  }

  ghost predicate IsRun(states: seq<State>, actions: seq<Action>) {
    && |states| == |actions| + 1
    && Init(states[0])
    && forall i :: 0 <= i < |actions| ==>
         Enabled(states[i], actions[i]) && states[i + 1] == Next(states[i], actions[i])
  }

  // --------------------------------------------------------- which copy is where

  /** The steps at which the copies now waiting to be written were taken. */
  function Pending(actions: seq<Action>, i: nat): seq<nat>
    requires i <= |actions|
  {
    if i == 0 then []
    else
      var before := Pending(actions, i - 1);
      match actions[i - 1]
      case Copy => before + [i - 1]
      case Write(k, _) => Without(before, k)
      case _ => before
  }

  /** Step w writes the copy taken at step j. */
  predicate Writes(actions: seq<Action>, w: nat, j: nat)
    requires w < |actions|
  {
    actions[w].Write? && actions[w].k < |Pending(actions, w)| && Pending(actions, w)[actions[w].k] == j
  }

  /** The step of the copy that the last successful write wrote. */
  function Landed(actions: seq<Action>, i: nat): Option<nat>
    requires i <= |actions|
  {
    if i == 0 then None
    else if actions[i - 1].Write? && actions[i - 1].ok && actions[i - 1].k < |Pending(actions, i - 1)|
    then Some(Pending(actions, i - 1)[actions[i - 1].k])
    else Landed(actions, i - 1)
  }

  function NewestCopy(actions: seq<Action>, i: nat): Option<nat>
    requires i <= |actions|
  {
    if i == 0 then None else if actions[i - 1].Copy? then Some(i - 1) else NewestCopy(actions, i - 1)
  }

  /** What a save copied at step j. */
  function CopyAt(states: seq<State>, j: nat): File
    requires j < |states|
  {
    File(states[j].memory, states[j].alive)
  }

  ghost predicate IsCopy(actions: seq<Action>, i: nat, j: nat)
    requires i <= |actions|
  {
    j < i && actions[j].Copy?
  }

  /** These copies were taken at these steps, all before step i. */
  ghost predicate TakenAt(states: seq<State>, actions: seq<Action>, i: nat, copies: seq<File>, at: seq<nat>)
    requires i <= |actions| < |states|
  {
    && |copies| == |at|
    && forall n :: 0 <= n < |at| ==> IsCopy(actions, i, at[n]) && copies[n] == CopyAt(states, at[n])
  }

  lemma TakenAtStep(states: seq<State>, actions: seq<Action>, i: nat, copies: seq<File>, at: seq<nat>)
    requires i < |actions| < |states| && TakenAt(states, actions, i, copies, at)
    ensures TakenAt(states, actions, i + 1, copies, at)
    ensures actions[i].Copy? ==> TakenAt(states, actions, i + 1, copies + [CopyAt(states, i)], at + [i])
  {
  }

  lemma TakenWithout(states: seq<State>, actions: seq<Action>, i: nat, copies: seq<File>, at: seq<nat>, k: nat)
    requires i <= |actions| < |states| && TakenAt(states, actions, i, copies, at)
    ensures TakenAt(states, actions, i, Without(copies, k), Without(at, k))
  {
  }

  /** The waiting copies are what memory and the live loopbacks were at these steps. */
  lemma {:induction false} CopiesTraced(states: seq<State>, actions: seq<Action>, i: nat)
    requires IsRun(states, actions) && i < |states|
    ensures TakenAt(states, actions, i, states[i].copies, Pending(actions, i))
  {
    if i > 0 {
      CopiesTraced(states, actions, i - 1);
      var s, a := states[i - 1], actions[i - 1];
      assert Enabled(s, a) && states[i] == Next(s, a);
      TakenAtStep(states, actions, i - 1, s.copies, Pending(actions, i - 1));
      if a.Write? {
        TakenWithout(states, actions, i, s.copies, Pending(actions, i - 1), a.k);
      }
    }
  }

  lemma WriteFits(states: seq<State>, actions: seq<Action>, i: nat)
    requires IsRun(states, actions) && i < |actions|
    ensures actions[i].Write? ==> actions[i].k < |Pending(actions, i)|
  {
    CopiesTraced(states, actions, i);
    assert Enabled(states[i], actions[i]);
  }

  /** So is the file, once a write has succeeded. */
  lemma {:induction false} FileTraced(states: seq<State>, actions: seq<Action>, i: nat)
    requires IsRun(states, actions) && i < |states|
    ensures match Landed(actions, i)
            case Some(j) => IsCopy(actions, i, j) && states[i].file == Some(CopyAt(states, j))
            case None => states[i].file == states[0].file
  {
    if i > 0 {
      FileTraced(states, actions, i - 1);
      CopiesTraced(states, actions, i - 1);
      assert Enabled(states[i - 1], actions[i - 1]) && states[i] == Next(states[i - 1], actions[i - 1]);
    }
  }

  // ------------------------------------------------------------------ durability

  /** A save that will copy later is still to come. */
  predicate Owed(s: State) {
    s.calls > 0 || s.timer || s.begun > 0
  }

  predicate AtRest(s: State) {
    !Owed(s) && s.copies == []
  }

  ghost predicate FileHolds(s: State, settings: Settings) {
    s.file.Some? && s.file.value.settings == settings
  }

  /** Unless a save is owed, the newest copy was taken of the settings now in memory. */
  lemma {:induction false} NewestIsCurrent(states: seq<State>, actions: seq<Action>, i: nat)
    requires IsRun(states, actions) && i < |states| && states[i].changed && !Owed(states[i])
    ensures var j := NewestCopy(actions, i);
            j.Some? && IsCopy(actions, i, j.value) && states[j.value].memory == states[i].memory
  {
    assert i > 0;
    assert states[i] == Next(states[i - 1], actions[i - 1]);
    if !actions[i - 1].Copy? {
      NewestIsCurrent(states, actions, i - 1);
    }
  }

  /** Whatever overlaps and fails: at rest after a change, the file holds the settings in memory if and only
      if the copy written last has the settings of the newest copy; if no write ever succeeded, the
      start-up file takes that copy's place. */
  lemma DurableExactly(states: seq<State>, actions: seq<Action>, i: nat)
    requires IsRun(states, actions) && i < |states| && AtRest(states[i]) && states[i].changed
    ensures var newest, landed := NewestCopy(actions, i), Landed(actions, i);
            && newest.Some? && newest.value < i
            && (landed.Some? ==> landed.value < i)
            && (FileHolds(states[i], states[i].memory) <==>
                  if landed.Some? then states[landed.value].memory == states[newest.value].memory
                  else FileHolds(states[0], states[newest.value].memory))
  {
    NewestIsCurrent(states, actions, i);
    FileTraced(states, actions, i);
  }

  /** The saves are written in the order of their copies: each write takes the oldest waiting copy. */
  predicate InCopyOrder(actions: seq<Action>) {
    forall a :: a in actions && a.Write? ==> a.k == 0
  }

  /** In copy order, the newest copy is the last one waiting, or it is the one that landed. */
  predicate NewestLast(newest: Option<nat>, waiting: seq<nat>, landed: Option<nat>) {
    if waiting == [] then landed == newest else newest == Some(waiting[|waiting| - 1])
  }

  lemma NewestStep(actions: seq<Action>, i: nat)
    requires i < |actions| && NewestLast(NewestCopy(actions, i), Pending(actions, i), Landed(actions, i))
    requires actions[i].Write? ==> actions[i].ok && actions[i].k == 0 < |Pending(actions, i)|
    ensures NewestLast(NewestCopy(actions, i + 1), Pending(actions, i + 1), Landed(actions, i + 1))
  {
    if actions[i].Write? {
      assert Without(Pending(actions, i), 0) == Pending(actions, i)[1..];
    }
  }

  lemma {:induction false} NewestLands(states: seq<State>, actions: seq<Action>, i: nat)
    requires IsRun(states, actions) && i < |states|
    requires InCopyOrder(actions) && forall a :: a in actions && a.Write? ==> a.ok
    ensures NewestLast(NewestCopy(actions, i), Pending(actions, i), Landed(actions, i))
  {
    if i > 0 {
      NewestLands(states, actions, i - 1);
      WriteFits(states, actions, i - 1);
      assert actions[i - 1] in actions;
      NewestStep(actions, i - 1);
    }
  }

  /** Saves may overlap: if they are written in the order of their copies and succeed, then after any change
      the file holds the settings in memory whenever no handler, timer or save is under way. */
  lemma DurableInOrder(states: seq<State>, actions: seq<Action>, i: nat)
    requires IsRun(states, actions) && i < |states| && AtRest(states[i]) && states[i].changed
    requires InCopyOrder(actions) && forall a :: a in actions && a.Write? ==> a.ok
    ensures FileHolds(states[i], states[i].memory)
  {
    DurableExactly(states, actions, i);
    NewestLands(states, actions, i);
    FileTraced(states, actions, i);
    CopiesTraced(states, actions, i);
  }

  /** In particular if no two saves are between copy and write at once. */
  lemma DurableAtRest(states: seq<State>, actions: seq<Action>, i: nat)
    requires IsRun(states, actions) && i < |states| && AtRest(states[i]) && states[i].changed
    requires forall s :: s in states ==> |s.copies| <= 1
    requires forall a :: a in actions && a.Write? ==> a.ok
    ensures FileHolds(states[i], states[i].memory)
  {
    forall a | a in actions && a.Write? ensures a.k == 0 {
      var n :| 0 <= n < |actions| && actions[n] == a;
      assert Enabled(states[n], actions[n]) && states[n] in states;
    }
    DurableInOrder(states, actions, i);
  }

  /** Never a mixture: whatever overlaps and fails, the file is exactly what memory and the live loopbacks
      were at one save's copy, or the one found at start-up as long as no write has succeeded. */
  lemma FileIsOneCopy(states: seq<State>, actions: seq<Action>, i: nat)
    requires IsRun(states, actions) && i < |states|
    ensures if exists w :: 0 <= w < i && actions[w].Write? && actions[w].ok
            then exists j :: IsCopy(actions, i, j) && states[i].file == Some(CopyAt(states, j))
            else states[i].file == states[0].file
  {
    FileTraced(states, actions, i);
    if w :| 0 <= w < i && actions[w].Write? && actions[w].ok {
      WriteFits(states, actions, w);
      LandedAfter(actions, i, w);
    } else if Landed(actions, i).Some? {
      var w := LandedBy(actions, i);
    }
  }

  lemma {:induction false} LandedBy(actions: seq<Action>, i: nat) returns (w: nat)
    requires i <= |actions| && Landed(actions, i).Some?
    ensures w < i && actions[w].Write? && actions[w].ok
  {
    if actions[i - 1].Write? && actions[i - 1].ok {
      w := i - 1;
    } else {
      w := LandedBy(actions, i - 1);
    }
  }

  lemma {:induction false} LandedAfter(actions: seq<Action>, i: nat, w: nat)
    requires w < i <= |actions| && actions[w].Write? && actions[w].ok && actions[w].k < |Pending(actions, w)|
    ensures Landed(actions, i).Some?
  {
    if w < i - 1 {
      LandedAfter(actions, i - 1, w);
    }
  }

  // ------------------------------------------------------------------- progress

  /** A save copied after step m, and its copy is waiting or its write was made. */
  ghost predicate CopiedSince(actions: seq<Action>, i: nat, m: nat)
    requires i <= |actions|
  {
    exists j :: m < j && IsCopy(actions, i, j)
                && (j in Pending(actions, i) || exists w :: j < w < i && Writes(actions, w, j))
  }

  lemma WithoutKeeps(xs: seq<nat>, k: nat, x: nat)
    requires x in xs
    ensures x in Without(xs, k) || (k < |xs| && xs[k] == x)
  {
    var n :| 0 <= n < |xs| && xs[n] == x;
    if k < |xs| && n != k {
      assert Without(xs, k)[if n < k then n else n - 1] == x;
    }
  }

  lemma PendingKeeps(actions: seq<Action>, i: nat, j: nat)
    requires i < |actions| && j in Pending(actions, i)
    ensures j in Pending(actions, i + 1) || Writes(actions, i, j)
  {
    if actions[i].Write? {
      WithoutKeeps(Pending(actions, i), actions[i].k, j);
    }
  }

  lemma {:induction false} CopyWaitsOrIsWritten(states: seq<State>, actions: seq<Action>, i: nat, j: nat)
    requires IsRun(states, actions) && i < |states| && IsCopy(actions, i, j)
    ensures j in Pending(actions, i) || exists w :: j < w < i && Writes(actions, w, j)
  {
    if j < i - 1 {
      CopyWaitsOrIsWritten(states, actions, i - 1, j);
      if j in Pending(actions, i - 1) {
        PendingKeeps(actions, i - 1, j);
      }
    } else {
      assert Pending(actions, i)[|Pending(actions, i)| - 1] == j;
    }
  }

  lemma {:induction false} OwedOrCopied(states: seq<State>, actions: seq<Action>, i: nat, m: nat) returns (j: nat)
    requires IsRun(states, actions) && m < i < |states| && actions[m].Modify?
    ensures Owed(states[i]) || (m < j && IsCopy(actions, i, j))
  {
    j := 0;
    assert states[i] == Next(states[i - 1], actions[i - 1]);
    if m < i - 1 {
      j := OwedOrCopied(states, actions, i - 1, m);
      if Owed(states[i - 1]) && actions[i - 1].Copy? {
        j := i - 1;
      }
    }
  }

  /** Every single change leads to a write of a copy taken after it, or that copy is waiting, or a save
      that will copy later is still to come; if that write succeeds, the file is that copy. */
  lemma ChangesGetWritten(states: seq<State>, actions: seq<Action>, i: nat, m: nat)
    requires IsRun(states, actions) && m < i < |states| && actions[m].Modify?
    ensures Owed(states[i]) || CopiedSince(actions, i, m)
    ensures forall w: nat, j: nat :: w < i && Writes(actions, w, j) && actions[w].ok ==>
              j < w && states[w + 1].file == Some(CopyAt(states, j))
  {
    var j := OwedOrCopied(states, actions, i, m);
    if !Owed(states[i]) {
      CopyWaitsOrIsWritten(states, actions, i, j);
    }
    forall w: nat, j: nat | w < i && Writes(actions, w, j) && actions[w].ok
      ensures j < w && states[w + 1].file == Some(CopyAt(states, j))
    {
      CopiesTraced(states, actions, w);
      assert states[w + 1] == Next(states[w], actions[w]);
    }
  }

  // --------------------------------------------------------------------- loading

  /** The decoded file: a missing field decodes to a nil map. */
  datatype Decoded = Decoded(
    delays: Option<map<Mac, int>>, volumes: Option<map<Mac, int>>, mutes: Option<map<Mac, bool>>,
    known: Option<map<Mac, bool>>, connected: Option<map<Mac, bool>>)

  function Encode(f: File): Decoded {
    Decoded(Some(f.settings.delays), Some(f.settings.volumes), Some(f.settings.mutes), Some(f.settings.known),
            Some(map m | m in f.connected :: true))
  }

  /** `loadState`: a nil map leaves the field as it was. */
  method LoadState(settings: Settings, connected: map<Mac, bool>, d: Option<Decoded>)
    returns (loaded: Settings, reconnect: map<Mac, bool>)
    ensures d.None? ==> loaded == settings && reconnect == connected
    ensures d.Some? ==>
              && loaded.delays == (if d.value.delays.Some? then d.value.delays.value else settings.delays)
              && loaded.volumes == (if d.value.volumes.Some? then d.value.volumes.value else settings.volumes)
              && loaded.mutes == (if d.value.mutes.Some? then d.value.mutes.value else settings.mutes)
              && loaded.known == (if d.value.known.Some? then d.value.known.value else settings.known)
              && reconnect == (if d.value.connected.Some? then d.value.connected.value else connected)
    ensures forall f :: d == Some(Encode(f)) ==> loaded == f.settings && reconnect.Keys == f.connected
  {
    loaded, reconnect := settings, connected;
    if d.None? {
      return;
    }
    if d.value.delays.Some? {
      loaded := loaded.(delays := d.value.delays.value);
    }
    if d.value.volumes.Some? {
      loaded := loaded.(volumes := d.value.volumes.value);
    }
    if d.value.mutes.Some? {
      loaded := loaded.(mutes := d.value.mutes.value);
    }
    if d.value.known.Some? {
      loaded := loaded.(known := d.value.known.value);
    }
    if d.value.connected.Some? {
      reconnect := d.value.connected.value;
    }
  }

  /** A restart from rest after a write: loading gives back exactly one save's copy, and these settings are
      the ones that were in memory if and only if they are those of the newest copy. */
  method RestartAtRest(ghost states: seq<State>, ghost actions: seq<Action>, i: nat, file: File)
    returns (loaded: Settings, reconnect: map<Mac, bool>)
    requires IsRun(states, actions) && i < |states| && AtRest(states[i]) && states[i].changed
    requires states[i].file == Some(file) && Landed(actions, i).Some?
    ensures var j, newest := Landed(actions, i).value, NewestCopy(actions, i);
            && IsCopy(actions, i, j) && states[j].memory == loaded && states[j].alive == reconnect.Keys
            && newest.Some? && IsCopy(actions, i, newest.value)
            && (loaded == states[i].memory <==> states[j].memory == states[newest.value].memory)
  {
    DurableExactly(states, actions, i);
    NewestIsCurrent(states, actions, i);
    FileTraced(states, actions, i);
    loaded, reconnect := LoadState(NO_SETTINGS, map[], Some(Encode(file)));
  }

  // ------------------------------------------------------------- overlapping saves

  lemma Extend(states: seq<State>, actions: seq<Action>, a: Action)
    returns (next: State, more: seq<State>, taken: seq<Action>)
    requires IsRun(states, actions) && Enabled(states[|actions|], a)
    ensures next == Next(states[|actions|], a)
    ensures more == states + [next] && taken == actions + [a] && IsRun(more, taken)
  {
    next := Next(states[|actions|], a);
    more, taken := states + [next], actions + [a];
  }

  /** One change, scheduled, fired and copied, but not written. */
  lemma OneCopy(before: Settings, first: Settings) returns (states: seq<State>, actions: seq<Action>)
    ensures IsRun(states, actions) && forall a :: a in actions ==> !a.Write?
    ensures states[|actions|] == State(first, {}, 0, false, 0, [File(first, {})], None, true)
  {
    var s := State(before, {}, 0, false, 0, [], None, false);
    states, actions := [s], [];
    s, states, actions := Extend(states, actions, Modify(first));
    s, states, actions := Extend(states, actions, Schedule);
    s, states, actions := Extend(states, actions, Fire);
    s, states, actions := Extend(states, actions, Copy);
  }

  /** Two changes: both saves have copied and neither has written. */
  lemma SavesOverlap(before: Settings, first: Settings, second: Settings)
    returns (states: seq<State>, actions: seq<Action>)
    ensures IsRun(states, actions) && forall a :: a in actions ==> !a.Write?
    ensures states[|actions|] == State(second, {}, 0, false, 0, [File(first, {}), File(second, {})], None, true)
  {
    states, actions := OneCopy(before, first);
    var s := states[|actions|];
    s, states, actions := Extend(states, actions, Modify(second));
    s, states, actions := Extend(states, actions, Schedule);
    s, states, actions := Extend(states, actions, Fire);
    s, states, actions := Extend(states, actions, Copy);
  }

  /** The write lock does not order overlapping saves by their copies: the older copy can land last, and
      then the file at rest is not what memory holds, for any two different settings. */
  lemma OverlapLosesAChange(before: Settings, first: Settings, second: Settings)
    returns (states: seq<State>, actions: seq<Action>)
    ensures IsRun(states, actions) && AtRest(states[|actions|]) && states[|actions|].changed
    ensures states[|actions|].memory == second && states[|actions|].file == Some(File(first, {}))
    ensures forall a :: a in actions && a.Write? ==> a.ok
  {
    states, actions := SavesOverlap(before, first, second);
    var s := states[|actions|];
    s, states, actions := Extend(states, actions, Write(1, true));
    assert s.copies == [File(first, {})];
    s, states, actions := Extend(states, actions, Write(0, true));
  }
}
