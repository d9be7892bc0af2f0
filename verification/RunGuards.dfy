/** Mutual exclusion of runs: src/engine/run_guard.cpp. A releaser owns a slot of the map of
    active runs and can only be moved; the map is guarded by a mutex, the releaser's own
    flag is not, so the two are updated in separate steps. */
module RunGuards {
  import opened Text

  datatype Phase =
    | Held           // acquired_ is set and its run is in the map
    | Erased         // release() has erased its run; acquired_ is about to be cleared
    | Free           // acquired_ is clear

  datatype Releaser = Releaser(runId: string, phase: Phase)

  /** All threads together: the shared map, the releasers alive, and the threads between
      the two halves of try_reserve. */
  datatype World = World(active: map<string, bool>, live: map<nat, Releaser>, reserving: map<nat, string>)

  const NOTHING := World(map[], map[], map[])

  /** The smallest steps other threads can come between. `left` is what a moved-from
      run id holds afterwards, which the language does not fix. */
  datatype Action =
    | TryAcquire(thread: nat, runId: string)
    | Construct(thread: nat, slot: nat)
    | MoveConstruct(slot: nat, source: nat, left: string)
    | Erase(slot: nat)
    | Clear(slot: nat)
    | MoveIn(slot: nat, source: nat, left: string)
    | Drop(slot: nat)

  /** `try_acquire` returns true. */
  predicate Available(active: map<string, bool>, runId: string)
  {
    runId == "" || !(runId in active && active[runId])
  }

  function Acquired(active: map<string, bool>, runId: string): map<string, bool>
  {
    if runId == "" then active else active[runId := true]
  }

  function Released(active: map<string, bool>, runId: string): map<string, bool>
  {
    if runId == "" then active else active - {runId}
  }

  predicate Settled(w: World, slot: nat)
  {
    slot in w.live && w.live[slot].phase != Erased
  }

  /** The run and the flag move; the source is left free. */
  function Moved(live: map<nat, Releaser>, slot: nat, source: nat, left: string): map<nat, Releaser>
    requires source in live
  {
    live[slot := live[source]][source := Releaser(left, Free)]
  }

  predicate Enabled(w: World, a: Action)
  {
    match a
    case TryAcquire(thread, runId) => thread !in w.reserving
    case Construct(thread, slot) => thread in w.reserving && slot !in w.live
    case MoveConstruct(slot, source, _) => slot !in w.live && Settled(w, source)
    case Erase(slot) => slot in w.live && w.live[slot].phase == Held
    case Clear(slot) => slot in w.live && w.live[slot].phase == Erased
    case MoveIn(slot, source, _) => slot != source && Settled(w, source) && slot in w.live && w.live[slot].phase == Free
    case Drop(slot) => slot in w.live && w.live[slot].phase == Free
  }

  function Step(w: World, a: Action): World
  {
    if !Enabled(w, a) then w
    else
      match a
      case TryAcquire(thread, runId) =>
        if Available(w.active, runId)
        then w.(active := Acquired(w.active, runId), reserving := w.reserving[thread := runId]) else w
      case Construct(thread, slot) =>
        w.(live := w.live[slot := Releaser(w.reserving[thread], Held)], reserving := w.reserving - {thread})
      case MoveConstruct(slot, source, left) => w.(live := Moved(w.live, slot, source, left))
      case Erase(slot) =>
        var r := w.live[slot];
        w.(active := Released(w.active, r.runId), live := w.live[slot := r.(phase := Erased)])
      case Clear(slot) => w.(live := w.live[slot := w.live[slot].(phase := Free)])
      case MoveIn(slot, source, left) => w.(live := Moved(w.live, slot, source, left))
      case Drop(slot) => w.(live := w.live - {slot})
  }

  function Run(w: World, actions: seq<Action>): World
  {
    if actions == [] then w else Step(Run(w, actions[..|actions| - 1]), actions[|actions| - 1])
  }

  // ---- mutual exclusion -------------------------------------------------------------------------

  datatype Owner = Slot(slot: nat) | Thread(thread: nat)

  predicate Owns(w: World, o: Owner, runId: string)
  {
    match o
    case Slot(slot) => slot in w.live && w.live[slot] == Releaser(runId, Held)
    case Thread(thread) => thread in w.reserving && w.reserving[thread] == runId
  }

  /** The map is what its owners hold, and no run has two owners. */
  ghost predicate Exclusive(w: World)
  {
    && (forall id :: id in w.active ==> w.active[id] && id != "" && exists o :: Owns(w, o, id))
    && (forall o, id :: Owns(w, o, id) && id != "" ==> id in w.active)
    && (forall o, p, id :: Owns(w, o, id) && Owns(w, p, id) && id != "" ==> o == p)
  }

  lemma AcquireKeeps(w: World, thread: nat, runId: string)
    requires Exclusive(w) && thread !in w.reserving
    ensures Exclusive(Step(w, TryAcquire(thread, runId)))
  {
    var w' := Step(w, TryAcquire(thread, runId));
    if Available(w.active, runId) {
      assert Owns(w', Thread(thread), runId);
      assert forall o, id :: Owns(w', o, id) <==> Owns(w, o, id) || (o == Thread(thread) && id == runId);
      forall id | id in w'.active ensures w'.active[id] && id != "" && exists o :: Owns(w', o, id) {
        if id != runId {
          var o :| Owns(w, o, id);
          assert Owns(w', o, id);
        }
      }
    }
  }

  lemma ConstructKeeps(w: World, thread: nat, slot: nat)
    requires Exclusive(w) && thread in w.reserving && slot !in w.live
    ensures Exclusive(Step(w, Construct(thread, slot)))
  {
    var w' := Step(w, Construct(thread, slot));
    var runId := w.reserving[thread];
    assert Owns(w, Thread(thread), runId) && Owns(w', Slot(slot), runId);
    assert forall o, id :: Owns(w', o, id) <==>
      (Owns(w, o, id) && o != Thread(thread)) || (o == Slot(slot) && id == runId);
    forall id | id in w'.active ensures w'.active[id] && id != "" && exists o :: Owns(w', o, id) {
      var o :| Owns(w, o, id);
      if o != Thread(thread) { assert Owns(w', o, id); }
    }
  }

  /** Moving hands over whatever the source owned. */
  lemma MoveKeeps(w: World, slot: nat, source: nat, left: string)
    requires Exclusive(w) && source in w.live && slot != source
    requires slot in w.live ==> w.live[slot].phase == Free
    ensures Exclusive(w.(live := Moved(w.live, slot, source, left)))
  {
    var w' := w.(live := Moved(w.live, slot, source, left));
    assert forall o, id :: Owns(w', o, id) <==>
      if o == Slot(slot) then Owns(w, Slot(source), id) else o != Slot(source) && Owns(w, o, id);
    forall id | id in w'.active ensures w'.active[id] && id != "" && exists o :: Owns(w', o, id) {
      var o :| Owns(w, o, id);
      assert Owns(w', if o == Slot(source) then Slot(slot) else o, id);
    }
  }

  lemma EraseKeeps(w: World, slot: nat)
    requires Exclusive(w) && slot in w.live && w.live[slot].phase == Held
    ensures Exclusive(Step(w, Erase(slot)))
  {
    var w' := Step(w, Erase(slot));
    var runId := w.live[slot].runId;
    assert Owns(w, Slot(slot), runId);
    assert forall o, id :: Owns(w', o, id) <==> Owns(w, o, id) && o != Slot(slot);
    forall id | id in w'.active ensures w'.active[id] && id != "" && exists o :: Owns(w', o, id) {
      var o :| Owns(w, o, id);
      assert Owns(w', o, id);
    }
  }

  lemma QuietKeeps(w: World, a: Action)
    requires Exclusive(w) && Enabled(w, a) && (a.Clear? || a.Drop?)
    ensures Exclusive(Step(w, a))
  {
    var w' := Step(w, a);
    assert forall o, id :: Owns(w', o, id) <==> Owns(w, o, id);
    forall id | id in w'.active ensures w'.active[id] && id != "" && exists o :: Owns(w', o, id) {
      var o :| Owns(w, o, id);
      assert Owns(w', o, id);
    }
  }

  lemma StepKeeps(w: World, a: Action)
    requires Exclusive(w)
    ensures Exclusive(Step(w, a))
  {
    hide Exclusive;
    if Enabled(w, a) {
      match a {
        case TryAcquire(thread, runId) => AcquireKeeps(w, thread, runId);
        case Construct(thread, slot) => ConstructKeeps(w, thread, slot);
        case MoveConstruct(slot, source, left) => MoveKeeps(w, slot, source, left);
        case Erase(slot) => EraseKeeps(w, slot);
        case MoveIn(slot, source, left) => MoveKeeps(w, slot, source, left);
        case Clear(_) => QuietKeeps(w, a);
        case Drop(_) => QuietKeeps(w, a);
      }
    }
  }

  /** Whatever the interleaving. */
  lemma {:induction false} EveryInterleavingIsExclusive(actions: seq<Action>)
    ensures Exclusive(Run(NOTHING, actions))
  {
    hide Step;
    if actions != [] {
      EveryInterleavingIsExclusive(actions[..|actions| - 1]);
      StepKeeps(Run(NOTHING, actions[..|actions| - 1]), actions[|actions| - 1]);
    }
  }

  /** No thread is inside try_reserve or a release. */
  ghost predicate Quiescent(w: World)
  {
    w.reserving == map[] && forall slot :: slot in w.live ==> w.live[slot].phase != Erased
  }

  ghost predicate AcquiredBy(w: World, slot: nat, runId: string)
  {
    slot in w.live && w.live[slot].phase != Free && w.live[slot].runId == runId
  }

  /** Between operations the map holds exactly the non-empty run ids of live acquired
      releasers, and no two of these have the same run id. */
  lemma ActiveRunsAreTheAcquired(actions: seq<Action>)
    requires Quiescent(Run(NOTHING, actions))
    ensures var w := Run(NOTHING, actions);
            && (forall id :: id in w.active <==> id != "" && exists slot :: AcquiredBy(w, slot, id))
            && (forall a, b, id :: AcquiredBy(w, a, id) && AcquiredBy(w, b, id) && id != "" ==> a == b)
  {
    hide Run;
    EveryInterleavingIsExclusive(actions);
    var w := Run(NOTHING, actions);
    forall slot, id ensures AcquiredBy(w, slot, id) <==> Owns(w, Slot(slot), id) {}
    forall id | id in w.active ensures exists slot :: AcquiredBy(w, slot, id) {
      var o :| Owns(w, o, id);
      assert AcquiredBy(w, o.slot, id);
    }
    forall a, b, id | AcquiredBy(w, a, id) && AcquiredBy(w, b, id) && id != "" ensures a == b {
      assert Owns(w, Slot(a), id) && Owns(w, Slot(b), id);
    }
  }

  /** In any reachable state a run id can be reserved exactly when it is empty or nobody
      owns it. */
  lemma ReservedWhenUnowned(actions: seq<Action>, runId: string)
    ensures var w := Run(NOTHING, actions);
            Available(w.active, runId) <==> runId == "" || forall o :: !Owns(w, o, runId)
  {
    hide Run;
    EveryInterleavingIsExclusive(actions);
  }

  /** Between erasing and clearing, a run can have a second acquired releaser: the flag
      alone does not exclude. */
  lemma FlagLagsBehindTheMap(run: string)
    requires run != ""
    ensures var w := Run(NOTHING, [TryAcquire(0, run), Construct(0, 0), Erase(0), TryAcquire(1, run), Construct(1, 1)]);
            AcquiredBy(w, 0, run) && AcquiredBy(w, 1, run)
  {
    var a := [TryAcquire(0, run), Construct(0, 0), Erase(0), TryAcquire(1, run), Construct(1, 1)];
    Onward(NOTHING, a, 0);
    Onward(NOTHING, a, 1);
    Onward(NOTHING, a, 2);
    Onward(NOTHING, a, 3);
    Onward(NOTHING, a, 4);
    assert a[..0] == [] && a[..5] == a;
    var w1 := World(map[run := true], map[], map[0 := run]);
    assert Run(NOTHING, a[..1]) == w1;
    var w2 := w1.(live := map[0 := Releaser(run, Held)], reserving := map[]);
    assert Run(NOTHING, a[..2]) == w2;
    var w3 := w2.(active := map[], live := map[0 := Releaser(run, Erased)]);
    assert Run(NOTHING, a[..3]) == w3;
    assert Run(NOTHING, a[..4]) == w3.(active := map[run := true], reserving := map[1 := run]);
  }

  lemma Onward(w: World, actions: seq<Action>, k: nat)
    requires k < |actions|
    ensures Run(w, actions[..k + 1]) == Step(Run(w, actions[..k]), actions[k])
  {
    hide Step;
    assert actions[..k + 1][..k] == actions[..k];
  }

  // ---- the classes ----------------------------------------------------------------------------------

  class RunGuard {
    var activeRuns: map<string, bool>

    constructor ()
      ensures activeRuns == map[]
    {
      activeRuns := map[];
    }

    method TryAcquire(runId: string) returns (ok: bool)
      modifies this
      ensures ok <==> Available(old(activeRuns), runId)
      ensures activeRuns == if ok then Acquired(old(activeRuns), runId) else old(activeRuns)
    {
      if runId == "" {
        return true;
      }
      if runId in activeRuns && activeRuns[runId] {
        return false;
      }
      activeRuns := activeRuns[runId := true];
      ok := true;
    }

    method Release(runId: string)
      modifies this
      ensures activeRuns == Released(old(activeRuns), runId)
    {
      if runId == "" {
        return;
      }
      activeRuns := activeRuns - {runId};
    }

    method TryReserve(runId: string) returns (r: Option<GuardReleaser>)
      modifies this
      ensures r.Some? <==> Available(old(activeRuns), runId)
      ensures activeRuns == if r.Some? then Acquired(old(activeRuns), runId) else old(activeRuns)
      ensures r.Some? ==> fresh(r.value) && r.value.guard == this && r.value.View() == Releaser(runId, Held)
    {
      var ok := TryAcquire(runId);
      if !ok {
        return None;
      }
      var releaser := new GuardReleaser(this, runId);
      r := Some(releaser);
    }
  }

  class GuardReleaser {
    const guard: RunGuard
    var runId: string
    var acquired: bool

    constructor (guard: RunGuard, runId: string)
      ensures this.guard == guard && View() == Releaser(runId, Held)
    {
      this.guard, this.runId, acquired := guard, runId, true;
    }

    ghost function View(): Releaser
      reads this
    {
      Releaser(runId, if acquired then Held else Free)
    }

    /** The move constructor. */
    constructor Move(other: GuardReleaser, left: string)
      modifies other
      ensures guard == other.guard && View() == old(other.View()) && other.View() == Releaser(left, Free)
    {
      guard, runId, acquired := other.guard, other.runId, other.acquired;
      new;
      other.runId := left;
      other.acquired := false;
    }

    method ReleaseIfAcquired()
      modifies this, guard
      ensures guard.activeRuns == if old(acquired) then Released(old(guard.activeRuns), runId)
              else old(guard.activeRuns)
      ensures View() == Releaser(old(runId), Free)
    {
      if acquired {
        guard.Release(runId);
        acquired := false;
      }
    }

    /** The move assignment: what this releaser held is released first, and assigning to
        itself changes nothing. */
    method Assign(other: GuardReleaser, left: string)
      requires other.guard == guard
      modifies this, other, guard
      ensures this == other ==> View() == old(View()) && guard.activeRuns == old(guard.activeRuns)
      ensures this != other ==> View() == old(other.View()) && other.View() == Releaser(left, Free)
      ensures this != other ==>
                guard.activeRuns == if old(acquired) then Released(old(guard.activeRuns), old(runId))
                  else old(guard.activeRuns)
    {
      if this != other {
        ReleaseIfAcquired();
        runId := other.runId;
        other.runId := left;
        acquired := other.acquired;
        other.acquired := false;
      }
    }
  }

  /** Erasing, clearing and moving in, one after another, is what Assign does. */
  lemma AssignInSteps(w: World, slot: nat, source: nat, left: string)
    requires Settled(w, slot) && Settled(w, source) && slot != source
    ensures var held := w.live[slot].phase == Held;
            var released := if held then Step(Step(w, Erase(slot)), Clear(slot)) else w;
            Step(released, MoveIn(slot, source, left))
            == World(if held then Released(w.active, w.live[slot].runId) else w.active,
                     Moved(w.live, slot, source, left), w.reserving)
  {
    var r := w.live[slot];
    if r.phase == Held {
      var released := Step(Step(w, Erase(slot)), Clear(slot));
      assert released.live == w.live[slot := r.(phase := Free)];
      assert Moved(released.live, slot, source, left) == Moved(w.live, slot, source, left);
      assert released == World(Released(w.active, r.runId), w.live[slot := r.(phase := Free)], w.reserving);
    } else {
      assert w.(live := Moved(w.live, slot, source, left))
             == World(w.active, Moved(w.live, slot, source, left), w.reserving);
    }
  }
}
