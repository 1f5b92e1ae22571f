/** The shared backend environment of sfcclient.c: a reference count under a mutex. Each step is one locked section of
    some thread, so the runs are all interleavings of any number of threads. */
module Connection {
  import opened CText

  /** A release function: that of the backend loaded as number `gen`, or cmciRelease. */
  datatype Release = Own(gen: nat) | Wrapper

  datatype Released = Released(client: nat, gen: nat, fn: Option<Release>)

  /** ccCount, ccEnv and ccRelease; the release slot of the loaded backend's function table; the number of loads so far;
      the clients not yet released, each with the load it came from; the failed connects that still have to undo their
      count; those that have none to undo; and the clients released. */
  datatype State = State(count: nat, env: Option<nat>, release: Option<Release>, slot: Release, loads: nat,
                         live: map<nat, nat>, undone: nat, lost: nat, log: seq<Released>)

  datatype Step =
    | Connect(client: nat, loads: bool, ok: bool)
    | UndoConnect
    | UndoLost
    | ReleaseClient(client: nat)

  const INITIAL := State(0, None, None, Wrapper, 0, map[], 0, 0, [])

  /** NewCIMCEnv when there are no users; a freshly loaded function table holds the backend's own release. */
  function Loaded(s: State, loads: bool): State {
    if s.count > 0 then s
    else if loads then s.(env := Some(s.loads), slot := Own(s.loads), loads := s.loads + 1)
    else s.(env := None)
  }

  /** cmciConnect2 up to the unlock. */
  function Connected(s: State, client: nat, loads: bool, ok: bool): State {
    var t := Loaded(s, loads);
    if t.env.None? then t.(lost := t.lost + 1)
    else if !ok then t.(count := t.count + 1, undone := t.undone + 1)
    else t.(count := t.count + 1, release := if t.release.None? then Some(t.slot) else t.release, slot := Wrapper,
            live := t.live[client := t.env.value])
  }

  /** cmciRelease without a client. */
  function Dropped(s: State): State {
    if s.count == 0 then s
    else if s.count == 1 then s.(count := 0, env := None, release := None)
    else s.(count := s.count - 1)
  }

  /** A new client is none that exists, and a client is released while it lives. */
  predicate Enabled(s: State, step: Step) {
    match step
    case Connect(c, _, _) => c !in s.live && forall i :: 0 <= i < |s.log| ==> s.log[i].client != c
    case UndoConnect => s.undone > 0
    case UndoLost => s.lost > 0
    case ReleaseClient(c) => c in s.live
  }

  function Next(s: State, step: Step): State
    requires Enabled(s, step)
  {
    match step
    case Connect(c, loads, ok) => Connected(s, c, loads, ok)
    case UndoConnect => Dropped(s.(undone := s.undone - 1))
    case UndoLost => Dropped(s.(lost := s.lost - 1))
    case ReleaseClient(c) => Dropped(s.(log := s.log + [Released(c, s.live[c], s.release)], live := s.live - {c}))
  }

  /** The count is that of the live clients and of the failed connects not yet undone; the environment is loaded exactly
      while there are any. */
  predicate Counted(s: State) {
    s.count == |s.live| + s.undone && (s.env.Some? <==> s.count > 0)
  }

  /** Clients live in the environment that is loaded, ccRelease is its own release while there is one, and its slot has
      been replaced only then. */
  predicate OwnRelease(s: State) {
    && (forall c :: c in s.live ==> s.env == Some(s.live[c]) && s.release == Some(Own(s.live[c])))
    && (s.env.Some? ==> s.release == None || s.release == Some(Own(s.env.value)))
    && (s.env.Some? ==> s.slot == if s.release.None? then Own(s.env.value) else Wrapper)
    && (s.env.None? ==> s.release.None?)
    && (forall i :: 0 <= i < |s.log| ==> s.log[i].fn == Some(Own(s.log[i].gen)))
  }

  /** No client is released twice. */
  predicate ReleasedOnce(s: State) {
    && (forall i, j :: 0 <= i < j < |s.log| ==> s.log[i].client != s.log[j].client)
    && (forall i :: 0 <= i < |s.log| ==> s.log[i].client !in s.live)
  }

  predicate Safe(s: State) { Counted(s) && OwnRelease(s) && ReleasedOnce(s) }

  /** A failed load is cleaned up while others use the environment: their count is taken. */
  predicate Stray(s: State, step: Step) { step.UndoLost? && s.count > 0 }

  lemma LiveMore(m: map<nat, nat>, c: nat, g: nat)
    requires c !in m
    ensures |m[c := g]| == |m| + 1
  {
  }

  lemma LiveLess(m: map<nat, nat>, c: nat)
    requires c in m
    ensures |m - {c}| == |m| - 1
  {
    assert (m - {c}).Keys == m.Keys - {c};
  }

  lemma ConnectSafe(s: State, c: nat, loads: bool, ok: bool)
    requires Safe(s) && Enabled(s, Connect(c, loads, ok))
    ensures Safe(Connected(s, c, loads, ok))
  {
    LiveMore(s.live, c, 0);
  }

  /** A client lives after its connect exactly if there was an environment, loaded now or before, and the backend connected;
      a connect that fails has taken a count exactly if there was one. No other client is affected. */
  lemma ConnectOutcome(s: State, c: nat, loads: bool, ok: bool)
    requires Safe(s) && Enabled(s, Connect(c, loads, ok))
    ensures var t := Next(s, Connect(c, loads, ok)); var there := s.count > 0 || loads;
            && (c in t.live <==> there && ok)
            && (forall x :: x != c ==> (x in t.live <==> x in s.live) && (x in s.live ==> t.live[x] == s.live[x]))
            && t.undone == s.undone + (if there && !ok then 1 else 0)
            && t.lost == s.lost + (if there then 0 else 1)
            && t.count == s.count + (if there then 1 else 0)
            && t.loads == s.loads + (if s.count == 0 && loads then 1 else 0) && t.log == s.log
  {
  }

  lemma ReleaseSafe(s: State, c: nat)
    requires Safe(s) && c in s.live
    ensures Safe(Next(s, ReleaseClient(c)))
  {
    LiveLess(s.live, c);
  }

  /** Every step keeps the state safe, except the stray one, which never does. */
  lemma StepSafe(s: State, step: Step)
    requires Safe(s) && Enabled(s, step)
    ensures Safe(Next(s, step)) <==> !Stray(s, step)
  {
    match step
    case Connect(c, loads, ok) => ConnectSafe(s, c, loads, ok);
    case UndoConnect =>
    case UndoLost =>
    case ReleaseClient(c) => ReleaseSafe(s, c);
  }

  // ----- runs -----

  predicate IsRun(s: State, steps: List<Step>)
    decreases steps
  {
    steps.Cons? ==> Enabled(s, steps.head) && IsRun(Next(s, steps.head), steps.tail)
  }

  predicate AlwaysSafe(s: State, steps: List<Step>)
    requires IsRun(s, steps)
    decreases steps
  {
    Safe(s) && (steps.Cons? ==> AlwaysSafe(Next(s, steps.head), steps.tail))
  }

  /** No failed load is cleaned up while the environment is in use. */
  predicate NoStray(s: State, steps: List<Step>)
    requires IsRun(s, steps)
    decreases steps
  {
    steps.Cons? ==> !Stray(s, steps.head) && NoStray(Next(s, steps.head), steps.tail)
  }

  lemma {:induction false} SafeUnlessStray(s: State, steps: List<Step>)
    requires Safe(s) && IsRun(s, steps)
    ensures AlwaysSafe(s, steps) <==> NoStray(s, steps)
    decreases steps
  {
    if steps.Cons? {
      StepSafe(s, steps.head);
      if !Stray(s, steps.head) { SafeUnlessStray(Next(s, steps.head), steps.tail); }
    }
  }

  /** Exactly in the runs without a stray step every state is safe. */
  lemma RunsSafe(steps: List<Step>)
    requires IsRun(INITIAL, steps)
    ensures AlwaysSafe(INITIAL, steps) <==> NoStray(INITIAL, steps)
  {
    SafeUnlessStray(INITIAL, steps);
  }

  predicate EveryLoadSucceeds(steps: List<Step>) {
    steps.Cons? ==> (steps.head.Connect? ==> steps.head.loads) && EveryLoadSucceeds(steps.tail)
  }

  lemma {:induction false} NothingLost(s: State, steps: List<Step>)
    requires Safe(s) && s.lost == 0 && IsRun(s, steps) && EveryLoadSucceeds(steps)
    ensures AlwaysSafe(s, steps)
    decreases steps
  {
    if steps.Cons? {
      StepSafe(s, steps.head);
      NothingLost(Next(s, steps.head), steps.tail);
    }
  }

  /** If no load fails, no environment is unloaded under a live client, in any interleaving. */
  lemma SafeIfLoadsSucceed(steps: List<Step>)
    requires IsRun(INITIAL, steps) && EveryLoadSucceeds(steps)
    ensures AlwaysSafe(INITIAL, steps)
  {
    NothingLost(INITIAL, steps);
  }

  /** After one thread has failed to load and a second one has loaded and connected. */
  const MIXED := State(1, Some(0), Some(Own(0)), Wrapper, 1, map[1 := 0], 0, 1, [])

  const FAILED := State(0, None, None, Wrapper, 0, map[], 0, 1, [])

  lemma MixedReached()
    ensures Connected(INITIAL, 0, false, true) == FAILED && Connected(FAILED, 1, true, true) == MIXED
  {
  }

  lemma MixedRun()
    ensures var steps := Cons(Connect(0, false, true), Cons(Connect(1, true, true), Nil));
            IsRun(INITIAL, steps) && NoStray(INITIAL, steps)
  {
    hide Connected, Stray;
    MixedReached();
    assert Next(INITIAL, Connect(0, false, true)) == FAILED;
    assert IsRun(MIXED, Nil) && NoStray(MIXED, Nil);
    var last := Cons(Connect(1, true, true), Nil);
    assert Next(FAILED, Connect(1, true, true)) == MIXED;
    assert IsRun(FAILED, last);
    NotStray(FAILED, Connect(1, true, true));
    NotStray(INITIAL, Connect(0, false, true));
    assert NoStray(FAILED, last);
  }

  lemma NotStray(s: State, step: Step)
    requires step.Connect?
    ensures !Stray(s, step)
  {
  }

  /** There, the clean-up of the first thread leaves a live client without an environment. */
  lemma StrayCleanup()
    ensures Enabled(MIXED, UndoLost) && Stray(MIXED, UndoLost)
    ensures var s := Next(MIXED, UndoLost); !Safe(s) && s.env.None? && 1 in s.live
  {
    var s := Next(MIXED, UndoLost);
    assert 1 in s.live && s.env.None?;
    assert !OwnRelease(s);
  }

  // ----- the code -----

  /** A loaded backend; its function table is shared by the clients. */
  class Environment {
    const gen: nat
    var slot: Release

    constructor (gen: nat)
      ensures this.gen == gen && slot == Own(gen)
    {
      this.gen, this.slot := gen, Own(gen);
    }
  }

  class ConnectionControl {
    var ccCount: nat
    var ccEnv: Environment?
    var ccRelease: Option<Release>
    /** How often a backend was loaded. */
    var loaded: nat
    /** The parts of the state that no variable holds. */
    ghost var rest: State

    ghost function Model(): State
      reads this, ccEnv
    {
      rest.(count := ccCount, env := if ccEnv == null then None else Some(ccEnv.gen), release := ccRelease,
            loads := loaded, slot := if ccEnv == null then rest.slot else ccEnv.slot)
    }

    constructor ()
      ensures Model() == INITIAL
    {
      ccCount, ccEnv, ccRelease, loaded, rest := 0, null, None, 0, INITIAL;
    }

    /** cmciConnect2 between lock and unlock: whether the backend loads and whether it connects is up to it. */
    method ConnectLocked(client: nat, loads: bool, ok: bool) returns (connected: bool)
      modifies this, ccEnv
      ensures Model() == Connected(old(Model()), client, loads, ok)
      ensures connected <==> ok && ccEnv != null
    {
      ghost var s := Model();
      ghost var t := Loaded(s, loads);
      if ccCount == 0 {
        if loads {
          ccEnv := new Environment(loaded);
          loaded := loaded + 1;
        } else {
          ccEnv := null;
        }
      }
      connected := false;
      if ccEnv == null {
        rest := t.(lost := t.lost + 1);
      } else {
        ccCount := ccCount + 1;
        if ok {
          if ccRelease.None? { ccRelease := Some(ccEnv.slot); }
          ccEnv.slot := Wrapper;
          rest := t.(live := t.live[client := ccEnv.gen]);
          connected := true;
        } else {
          rest := t.(undone := t.undone + 1);
        }
      }
    }

    /** cmciRelease: call the release function of a client, if there is one, and give up one count. */
    method Release(client: Option<nat>, ghost lost: bool)
      requires match client case Some(c) => c in Model().live case None => if lost then Model().lost > 0 else Model().undone > 0
      modifies this
      ensures Model() == Next(old(Model()), match client case Some(c) => ReleaseClient(c) case None => if lost then UndoLost else UndoConnect)
    {
      ghost var s := Model();
      if client.Some? {
        rest := rest.(log := rest.log + [Released(client.value, rest.live[client.value], ccRelease)], live := rest.live - {client.value});
      } else if lost {
        rest := rest.(lost := rest.lost - 1);
      } else {
        rest := rest.(undone := rest.undone - 1);
      }
      if ccCount > 0 {
        ccCount := ccCount - 1;
        if ccCount == 0 {
          rest := rest.(slot := Model().slot);
          ccEnv := null;
          ccRelease := None;
        }
      }
    }
  }
}
