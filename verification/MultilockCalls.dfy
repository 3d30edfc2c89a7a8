/** What the calls of multilock.go have done when they return, over every interleaving: Lock holds
    its keys, Unlock has put their tokens back, Clean has removed what was free. */
module MultilockCalls {
  import opened MultilockKeys
  import opened MultilockProgress
  import opened MultilockProtocol
  import opened MultilockSafety
  import opened Options

  /** The states that some actions lead through. */
  ghost predicate Trace(states: seq<State>, acts: seq<Action>) {
    |states| == |acts| + 1 && Init(states[0]) && forall i :: 0 <= i < |acts| ==> StepAt(states, acts, i)
  }

  ghost predicate StepAt(states: seq<State>, acts: seq<Action>, i: nat)
    requires i < |acts| && |states| == |acts| + 1
  {
    Enabled(states[i], acts[i]) && states[i + 1] == Apply(states[i], acts[i])
  }

  /** The clients take no second lock while they hold one, and unlock only what they hold. */
  ghost predicate DisciplinedTrace(states: seq<State>, acts: seq<Action>) {
    Trace(states, acts) && forall i :: 0 <= i < |acts| ==> Disciplined(states[i], acts[i])
  }

  predicate IsCallBy(a: Action, t: nat) {
    a.t == t && (a.CallLock? || a.CallUnlock? || a.CallClean?)
  }

  /** Goroutine t makes call k and no other one before time n. */
  ghost predicate OnlyCall(acts: seq<Action>, t: nat, k: nat, n: nat) {
    k < n <= |acts| && IsCallBy(acts[k], t) && forall i :: k < i < n ==> !IsCallBy(acts[i], t)
  }

  lemma {:induction false} TraceInv(states: seq<State>, acts: seq<Action>, n: nat)
    requires Trace(states, acts) && n < |states|
    ensures Inv(states[n])
  {
    if n == 0 {
      InitInv(states[0]);
    } else {
      TraceInv(states, acts, n - 1);
      assert StepAt(states, acts, n - 1);
      StepKeepsInv(states[n - 1], acts[n - 1]);
    }
  }

  lemma {:induction false} TraceDiscipline(states: seq<State>, acts: seq<Action>, n: nat)
    requires DisciplinedTrace(states, acts) && n < |states|
    ensures Inv(states[n]) && Discipline(states[n])
  {
    TraceInv(states, acts, n);
    if n > 0 {
      TraceDiscipline(states, acts, n - 1);
      assert StepAt(states, acts, n - 1);
      StepKeepsDiscipline(states[n - 1], acts[n - 1]);
    }
  }

  // ------------------------------------------------------ steps of others

  lemma OtherThread(s: State, a: Action, t: nat)
    requires Enabled(s, a) && t < |s.threads| && a.t != t
    ensures t < |Apply(s, a).threads| && Apply(s, a).threads[t] == s.threads[t]
  {
  }

  /** The next statement is one that changes o. */
  predicate Touches(pc: Pc, o: nat) {
    match pc
    case LockEnter(o') => o' == o
    case Receive(o', _, _) => o' == o
    case LockExit(o') => o' == o
    case UnlockEnter(o') => o' == o
    case Release(o', _) => o' == o
    case UnlockExit(o') => o' == o
    case _ => false
  }

  lemma Untouched(s: State, a: Action, o: nat)
    requires Enabled(s, a) && o < |s.objs| && !(a.Step? && Touches(s.threads[a.t], o))
    ensures o < |Apply(s, a).objs| && Apply(s, a).objs[o] == s.objs[o]
  {
  }

  /** A Lock value that t holds or is inside of is changed by t only. */
  lemma OwnedByOne(s: State, a: Action, t: nat, o: nat)
    requires Enabled(s, a) && a.t != t && o < |s.objs| && ObjectOk(s, o) && ThreadOk(s, a.t) && UnlockerOk(s, a.t)
    requires s.objs[o].use == HeldBy(t) || s.objs[o].use == Inside(t)
    ensures o < |Apply(s, a).objs| && Apply(s, a).objs[o] == s.objs[o]
  {
    assert !(a.Step? && Touches(s.threads[a.t], o));
    Untouched(s, a, o);
  }

  // ---------------------------------------------------------------- Lock

  /** t is in a Lock call of o, or holds o. */
  predicate Locking(s: State, t: nat, o: nat) {
    t < |s.threads| && o < |s.objs| &&
    match s.threads[t]
    case LockEnter(o') => o' == o
    case Fetch(o', _) => o' == o
    case Receive(o', _, _) => o' == o
    case LockExit(o') => o' == o
    case Idle => s.objs[o].use == HeldBy(t)
    case _ => false
  }

  lemma LockingKept(s: State, a: Action, t: nat, o: nat)
    requires Enabled(s, a) && Disciplined(s, a) && !IsCallBy(a, t) && Locking(s, t, o)
    requires ThreadOk(s, a.t) && UnlockerOk(s, a.t) && ObjectOk(s, o)
    ensures Locking(Apply(s, a), t, o)
  {
    if a.t != t {
      OtherThread(s, a, t);
      if s.objs[o].use == HeldBy(t) {
        OwnedByOne(s, a, t, o);
      }
    }
  }

  /** Key i of o is held through the channel that is registered for it. */
  ghost predicate KeyHeldBy(s: State, o: nat, i: nat) {
    exists c: nat :: Holds(s, o, i, c) && c < |s.channels| && !s.channels[c].token && !s.channels[c].closed
                     && i < |s.objs[o].keys| && s.objs[o].keys[i] in s.registry && s.registry[s.objs[o].keys[i]] == c
  }

  lemma HeldKeys(s: State, o: nat, i: nat)
    requires Inv(s) && o < |s.objs| && s.objs[o].use.HeldBy? && i < |s.objs[o].keys|
    ensures KeyHeldBy(s, o, i)
  {
    assert ObjectOk(s, o);
    assert HoldingOk(s, o, i);
    var c := s.objs[o].chans[i];
    assert ChannelOk(s, c);
    assert Holds(s, o, i, c);
  }

  lemma {:induction false} LockingUntil(states: seq<State>, acts: seq<Action>, t: nat, o: nat, k: nat, n: nat)
    requires DisciplinedTrace(states, acts) && OnlyCall(acts, t, k, n) && acts[k] == CallLock(t, o)
    ensures Locking(states[n], t, o)
    decreases n
  {
    assert StepAt(states, acts, n - 1);
    if n > k + 1 {
      var s, a := states[n - 1], acts[n - 1];
      LockingUntil(states, acts, t, o, k, n - 1);
      TraceDiscipline(states, acts, n - 1);
      assert ThreadOk(s, a.t) && UnlockerOk(s, a.t) && ObjectOk(s, o);
      LockingKept(s, a, t, o);
    }
  }

  /** When a goroutine that has called Lock on o is idle again, and until it makes another call, it
      holds o, and o holds every one of its keys. */
  lemma LockReturnsHolding(states: seq<State>, acts: seq<Action>, t: nat, o: nat, k: nat, n: nat)
    requires DisciplinedTrace(states, acts) && OnlyCall(acts, t, k, n) && acts[k] == CallLock(t, o)
    requires t < |states[n].threads| && states[n].threads[t] == Idle
    ensures var s := states[n];
      o < |s.objs| && s.objs[o].use == HeldBy(t) && forall i :: 0 <= i < |s.objs[o].keys| ==> KeyHeldBy(s, o, i)
  {
    LockingUntil(states, acts, t, o, k, n);
    TraceInv(states, acts, n);
    forall i | 0 <= i < |states[n].objs[o].keys| ensures KeyHeldBy(states[n], o, i) {
      HeldKeys(states[n], o, i);
    }
  }

  // -------------------------------------------------------------- Unlock

  /** t is in an Unlock call of o that had taken the given channels, or is done with it. */
  predicate Unlocking(s: State, t: nat, o: nat, chans: seq<nat>) {
    t < |s.threads| && o < |s.objs| &&
    match s.threads[t]
    case UnlockEnter(o') => o' == o && s.objs[o].use == HeldBy(t) && s.objs[o].chans == chans
    case Release(o', i) => o' == o && i <= |chans| && s.objs[o].chans == chans
    case CleanEnter(r) => r == ToUnlock(o)
    case Sweep(r, _, _) => r == ToUnlock(o)
    case Close(r, _, _, _) => r == ToUnlock(o)
    case Delete(r, _) => r == ToUnlock(o)
    case UnlockExit(o') => o' == o
    case Idle => s.objs[o].use != HeldBy(t)
    case _ => false
  }

  lemma UnlockingKept(s: State, a: Action, t: nat, o: nat, chans: seq<nat>)
    requires Enabled(s, a) && Disciplined(s, a) && !IsCallBy(a, t) && Unlocking(s, t, o, chans)
    requires ThreadOk(s, a.t) && ThreadOk(s, t) && UnlockerOk(s, a.t) && ObjectOk(s, o)
    ensures Unlocking(Apply(s, a), t, o, chans)
  {
    if a.t == t {
      UnlockingOwn(s, a, t, o, chans);
    } else {
      OtherThread(s, a, t);
      if s.threads[t] == Idle {
        UseByOther(s, a, t, o);
      } else {
        OwnedByOne(s, a, t, o);
      }
    }
  }

  lemma UnlockingOwn(s: State, a: Action, t: nat, o: nat, chans: seq<nat>)
    requires Enabled(s, a) && a.t == t && !IsCallBy(a, t) && Unlocking(s, t, o, chans) && ThreadOk(s, t)
    ensures Unlocking(Apply(s, a), t, o, chans)
  {
  }

  lemma UseByOther(s: State, a: Action, t: nat, o: nat)
    requires Enabled(s, a) && a.t != t && o < |s.objs| && s.objs[o].use != HeldBy(t)
    ensures o < |Apply(s, a).objs| && Apply(s, a).objs[o].use != HeldBy(t)
  {
  }

  /** The number of tokens that the call has put back so far. */
  function PutBack(s: State, t: nat, chans: seq<nat>): nat
    requires t < |s.threads|
  {
    if s.threads[t].UnlockEnter? then 0
    else if s.threads[t].Release? then s.threads[t].i
    else |chans|
  }

  /** The token is in the channel. */
  predicate TokenIn(s: State, c: nat) {
    c < |s.channels| && s.channels[c].token
  }

  lemma PutBackStep(s: State, a: Action, t: nat, o: nat, chans: seq<nat>)
    requires Enabled(s, a) && Disciplined(s, a) && !IsCallBy(a, t) && Unlocking(s, t, o, chans)
    requires ThreadOk(s, a.t) && ThreadOk(s, t) && UnlockerOk(s, a.t) && ObjectOk(s, o)
    requires t < |Apply(s, a).threads|
    ensures forall j :: PutBack(s, t, chans) <= j < PutBack(Apply(s, a), t, chans) && j < |chans| ==> TokenIn(Apply(s, a), chans[j])
  {
    if a.t != t {
      OtherThread(s, a, t);
    }
  }

  predicate IsFree(s: State, o: nat) {
    o < |s.objs| && s.objs[o].use == Free && s.objs[o].chans == [] && !s.objs[o].lockFull && !s.objs[o].unlockFull
  }

  lemma FreeOnReturn(s: State, a: Action, t: nat, o: nat, chans: seq<nat>)
    requires Enabled(s, a) && Disciplined(s, a) && !IsCallBy(a, t) && Unlocking(s, t, o, chans)
    requires ThreadOk(s, a.t) && ThreadOk(s, t) && ObjectOk(s, o)
    requires t < |Apply(s, a).threads| && Apply(s, a).threads[t] == Idle && s.threads[t] != Idle
    ensures IsFree(Apply(s, a), o)
  {
    if a.t != t {
      OtherThread(s, a, t);
    }
  }

  /** At some time after k and up to n, the token was in the channel. */
  ghost predicate Returned(states: seq<State>, k: nat, n: nat, c: nat)
    requires n < |states|
  {
    exists m :: k < m <= n && TokenIn(states[m], c)
  }

  ghost predicate Freed(states: seq<State>, k: nat, n: nat, o: nat)
    requires n < |states|
  {
    exists m :: k < m <= n && IsFree(states[m], o)
  }

  lemma {:induction false} UnlockingUntil(states: seq<State>, acts: seq<Action>, t: nat, o: nat, k: nat, n: nat, chans: seq<nat>)
    requires DisciplinedTrace(states, acts) && OnlyCall(acts, t, k, n) && acts[k] == CallUnlock(t, o)
    requires o < |states[k].objs| && chans == states[k].objs[o].chans
    ensures Unlocking(states[n], t, o, chans)
    ensures forall j :: 0 <= j < PutBack(states[n], t, chans) && j < |chans| ==> Returned(states, k, n, chans[j])
    ensures states[n].threads[t] == Idle ==> Freed(states, k, n, o)
    decreases n
  {
    var s, a := states[n - 1], acts[n - 1];
    assert StepAt(states, acts, n - 1);
    if n > k + 1 {
      UnlockingUntil(states, acts, t, o, k, n - 1, chans);
      TraceDiscipline(states, acts, n - 1);
      assert ThreadOk(s, a.t) && ThreadOk(s, t) && UnlockerOk(s, a.t) && ObjectOk(s, o);
      UnlockingKept(s, a, t, o, chans);
      PutBackStep(s, a, t, o, chans);
      forall j | 0 <= j < PutBack(states[n], t, chans) && j < |chans| ensures Returned(states, k, n, chans[j]) {
        if j < PutBack(s, t, chans) {
          var m :| k < m <= n - 1 && TokenIn(states[m], chans[j]);
          assert TokenIn(states[m], chans[j]);
        } else {
          assert TokenIn(states[n], chans[j]);
        }
      }
      if states[n].threads[t] == Idle {
        if s.threads[t] == Idle {
          var m :| k < m <= n - 1 && IsFree(states[m], o);
          assert IsFree(states[m], o);
        } else {
          FreeOnReturn(s, a, t, o, chans);
          assert IsFree(states[n], o);
        }
      }
    }
  }

  /** When a goroutine that has called Unlock on o is idle again, it does not hold o; since the call
      there was a time when o was free and empty, and for every channel that o had taken a time when
      its token was back. */
  lemma UnlockReturnsTokens(states: seq<State>, acts: seq<Action>, t: nat, o: nat, k: nat, n: nat)
    requires DisciplinedTrace(states, acts) && OnlyCall(acts, t, k, n) && acts[k] == CallUnlock(t, o)
    requires t < |states[n].threads| && states[n].threads[t] == Idle
    ensures o < |states[n].objs| && states[n].objs[o].use != HeldBy(t) && Freed(states, k, n, o)
    ensures o < |states[k].objs| && forall c :: c in states[k].objs[o].chans ==> Returned(states, k, n, c)
  {
    assert StepAt(states, acts, k);
    var chans := states[k].objs[o].chans;
    UnlockingUntil(states, acts, t, o, k, n, chans);
  }

  // --------------------------------------------------------------- Clean

  /** The token of the key's channel is with a Lock value. */
  ghost predicate KeyTaken(s: State, key: Key) {
    key in s.registry && TokenWithLock(s, s.registry[key])
  }

  /** t is in a Clean call that has not passed over the key. */
  predicate Cleaning(s: State, t: nat, key: Key) {
    t < |s.threads| &&
    match s.threads[t]
    case CleanEnter(r) => r == ToCaller
    case Sweep(r, todo, dead) => r == ToCaller && (key in todo || key in dead)
    case Close(r, k, todo, dead) => r == ToCaller && (key == k || key in todo || key in dead)
    case Delete(r, dead) => r == ToCaller && key in dead
    case _ => false
  }

  lemma CleaningKept(s: State, a: Action, t: nat, key: Key)
    requires Enabled(s, a) && !IsCallBy(a, t) && Cleaning(s, t, key) && ThreadOk(s, t)
    requires key in s.registry && KeyOk(s, key) && ChannelOk(s, s.registry[key]) && !KeyTaken(s, key)
    requires key in Apply(s, a).registry
    ensures Cleaning(Apply(s, a), t, key)
  {
    if a.t != t {
      OtherThread(s, a, t);
    } else if a.Visit? {
      VisitedWhileFree(s, a, t, key);
    }
  }

  /** The sweep passes over a key only if a Lock value has its token. */
  lemma VisitedWhileFree(s: State, a: Action, t: nat, key: Key)
    requires Enabled(s, a) && a.Visit? && a.t == t && Cleaning(s, t, key) && ThreadOk(s, t)
    requires key in s.registry && KeyOk(s, key) && ChannelOk(s, s.registry[key]) && !KeyTaken(s, key)
    requires key in Apply(s, a).registry
    ensures Cleaning(Apply(s, a), t, key)
  {
  }

  /** The key was out of the registry at some time after k and up to n. */
  ghost predicate Removed(states: seq<State>, k: nat, n: nat, key: Key)
    requires n < |states|
  {
    exists m :: k < m <= n && key !in states[m].registry
  }

  lemma {:induction false} CleaningUntil(states: seq<State>, acts: seq<Action>, t: nat, key: Key, k: nat, n: nat)
    requires Trace(states, acts) && OnlyCall(acts, t, k, n) && acts[k] == CallClean(t)
    requires forall m :: k < m < n ==> !KeyTaken(states[m], key)
    ensures Removed(states, k, n, key) || Cleaning(states[n], t, key)
    decreases n
  {
    var s, a := states[n - 1], acts[n - 1];
    assert StepAt(states, acts, n - 1);
    if n > k + 1 && !Removed(states, k, n, key) {
      CleaningUntil(states, acts, t, key, k, n - 1);
      assert key in states[n - 1].registry && key in states[n].registry;
      TraceInv(states, acts, n - 1);
      assert ThreadOk(s, t) && KeyOk(s, key) && ChannelOk(s, s.registry[key]);
      CleaningKept(s, a, t, key);
    }
  }

  /** When a goroutine that has called Clean is idle again, every key whose token no Lock value had
      in the meantime has been out of the registry. */
  lemma CleanRemovesFree(states: seq<State>, acts: seq<Action>, t: nat, key: Key, k: nat, n: nat)
    requires Trace(states, acts) && OnlyCall(acts, t, k, n) && acts[k] == CallClean(t)
    requires forall m :: k < m < n ==> !KeyTaken(states[m], key)
    requires t < |states[n].threads| && states[n].threads[t] == Idle
    ensures Removed(states, k, n, key)
  {
    CleaningUntil(states, acts, t, key, k, n);
  }
}
