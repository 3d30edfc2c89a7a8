/** What every step of every goroutine keeps, and what follows from it. */
module MultilockSafety {
  import opened MultilockKeys
  import opened MultilockProtocol
  import opened Options

  predicate Sweeping(pc: Pc) {
    pc.Sweep? || pc.Close? || pc.Delete?
  }

  function Todo(pc: Pc): set<Key> {
    if pc.Sweep? || pc.Close? then pc.todo else {}
  }

  function Dead(pc: Pc): set<Key> {
    if Sweeping(pc) then pc.dead else {}
  }

  /** The Lock value that this goroutine is inside of. */
  function InsideOf(pc: Pc): Option<nat> {
    match pc
    case Fetch(o, _) => Some(o)
    case Receive(o, _, _) => Some(o)
    case LockExit(o) => Some(o)
    case Release(o, _) => Some(o)
    case UnlockExit(o) => Some(o)
    case CleanEnter(r) => if r.ToUnlock? then Some(r.obj) else None
    case Sweep(r, _, _) => if r.ToUnlock? then Some(r.obj) else None
    case Close(r, _, _, _) => if r.ToUnlock? then Some(r.obj) else None
    case Delete(r, _) => if r.ToUnlock? then Some(r.obj) else None
    case _ => None
  }

  /** The index from which lk.chans still lists taken tokens. */
  function HeldFrom(s: State, o: nat): nat
    requires o < |s.objs|
  {
    match s.objs[o].use
    case Inside(t) => if t < |s.threads| && s.threads[t].Release? then s.threads[t].i else 0
    case _ => 0
  }

  /** Object o has taken the token of channel c for its i-th key and not put it back. */
  predicate Holds(s: State, o: nat, i: nat, c: nat) {
    o < |s.objs| && HeldFrom(s, o) <= i < |s.objs[o].chans| && s.objs[o].chans[i] == c
  }

  ghost predicate ObjectOk(s: State, o: nat)
    requires o < |s.objs|
  {
    var obj := s.objs[o];
    && |obj.chans| <= |obj.keys|
    && match obj.use
       case Free => !obj.lockFull && !obj.unlockFull && obj.chans == []
       case Inside(t) => obj.lockFull && !obj.unlockFull && t < |s.threads| && InsideOf(s.threads[t]) == Some(o)
       case HeldBy(t) => obj.lockFull && obj.unlockFull && |obj.chans| == |obj.keys|
  }

  /** How far the goroutine inside obj has got with lk.chans. */
  predicate ProgressOk(obj: Object, pc: Pc) {
    match pc
    case Fetch(_, i) => i == |obj.chans| < |obj.keys|
    case Receive(_, i, _) => i == |obj.chans| < |obj.keys|
    case LockExit(_) => |obj.chans| == |obj.keys|
    case Release(_, i) => i <= |obj.chans| == |obj.keys|
    case _ => obj.chans == []
  }

  ghost predicate ThreadOk(s: State, t: nat)
    requires t < |s.threads|
  {
    var pc := s.threads[t];
    && (Sweeping(pc) <==> s.mutex == Some(t))
    && (pc.LockEnter? || pc.UnlockEnter? ==> pc.obj < |s.objs|)
    && (InsideOf(pc).Some? ==>
          var o := InsideOf(pc).value; o < |s.objs| && s.objs[o].use == Inside(t) && ProgressOk(s.objs[o], pc))
    && (pc.Receive? ==> pc.ch < |s.channels| && s.channels[pc.ch].key == s.objs[pc.obj].keys[pc.i])
    && (Sweeping(pc) ==> Todo(pc) <= s.registry.Keys && Dead(pc) <= s.registry.Keys && Todo(pc) !! Dead(pc))
    && (pc.Close? ==>
          && pc.key in s.registry && pc.key !in pc.todo && pc.key !in pc.dead
          && s.registry[pc.key] < |s.channels| && s.channels[s.registry[pc.key]].key == pc.key
          && s.channels[s.registry[pc.key]].taker == ByClean)
  }

  predicate MutexOk(s: State) {
    s.mutex.Some? ==> s.mutex.value < |s.threads|
  }

  ghost predicate KeyOk(s: State, k: Key)
    requires k in s.registry
  {
    && s.registry[k] < |s.channels|
    && s.channels[s.registry[k]].key == k
    && (s.channels[s.registry[k]].closed <==>
          s.mutex.Some? && s.mutex.value < |s.threads| && k in Dead(s.threads[s.mutex.value]))
  }

  /** The running Clean call has taken the token of key k and not closed its channel yet. */
  predicate ClosingKey(s: State, k: Key) {
    && s.mutex.Some? && s.mutex.value < |s.threads|
    && s.threads[s.mutex.value].Close? && s.threads[s.mutex.value].key == k
  }

  ghost predicate ChannelOk(s: State, c: nat)
    requires c < |s.channels|
  {
    var ch := s.channels[c];
    && (!ch.closed ==> ch.key in s.registry && s.registry[ch.key] == c)
    && (ch.closed ==> !ch.token && ch.taker == ByClean)
    && (!ch.closed ==> (ch.token <==> ch.taker == Nobody))
    && match ch.taker
       case Nobody => true
       case ByLock(o, i) => Holds(s, o, i, c)
       case ByClean => ch.closed || ClosingKey(s, ch.key)
  }

  ghost predicate HoldingOk(s: State, o: nat, i: nat)
    requires o < |s.objs| && HeldFrom(s, o) <= i < |s.objs[o].chans|
  {
    var c := s.objs[o].chans[i];
    && c < |s.channels|
    && s.channels[c].taker == ByLock(o, i)
    && i < |s.objs[o].keys| && s.channels[c].key == s.objs[o].keys[i]
  }

  /** A Clean call that will sweep the registry has not started its sweep. */
  ghost predicate SweepPending(s: State) {
    || (exists t :: 0 <= t < |s.threads| && BeforeSweep(s.threads[t]))
    || (exists o :: 0 <= o < |s.objs| && s.objs[o].use.HeldBy?)
  }

  predicate BeforeSweep(pc: Pc) {
    pc.LockEnter? || pc.Fetch? || pc.Receive? || pc.LockExit? || pc.Release? || pc.CleanEnter?
  }

  /** A free token sits in the registry only while some sweep is still to reach it. */
  ghost predicate TokenOk(s: State, k: Key)
    requires k in s.registry && KeyOk(s, k)
  {
    s.channels[s.registry[k]].token ==>
      || SweepPending(s)
      || (s.mutex.Some? && s.mutex.value < |s.threads| && k in Todo(s.threads[s.mutex.value]))
  }

  ghost predicate Inv(s: State) {
    && MutexOk(s)
    && (forall o :: 0 <= o < |s.objs| ==> StrictlySorted(s.objs[o].keys))
    && (forall o :: 0 <= o < |s.objs| ==> ObjectOk(s, o))
    && (forall t :: 0 <= t < |s.threads| ==> ThreadOk(s, t))
    && (forall k :: k in s.registry ==> KeyOk(s, k))
    && (forall c :: 0 <= c < |s.channels| ==> ChannelOk(s, c))
    && (forall o, i :: 0 <= o < |s.objs| && HeldFrom(s, o) <= i < |s.objs[o].chans| ==> HoldingOk(s, o, i))
    && (forall k :: k in s.registry ==> TokenOk(s, k))
  }

  lemma InitInv(s: State)
    requires Init(s)
    ensures Inv(s)
  {
  }

  /** s' keeps the invariant of every Lock value and goroutine of s, one by one. */
  ghost predicate KeptOwners(s: State, s': State) {
    && |s'.objs| == |s.objs| && |s'.threads| == |s.threads|
    && MutexOk(s')
    && (forall o :: 0 <= o < |s.objs| ==> s'.objs[o].keys == s.objs[o].keys)
    && (forall o :: 0 <= o < |s.objs| && ObjectOk(s, o) ==> ObjectOk(s', o))
    && (forall t :: 0 <= t < |s.threads| && ThreadOk(s, t) ==> ThreadOk(s', t))
  }

  /** The same for registered keys, channels and taken tokens. */
  ghost predicate KeptChannels(s: State, s': State) {
    && |s'.objs| == |s.objs|
    && (forall k :: k in s'.registry && (k in s.registry ==> KeyOk(s, k)) ==> KeyOk(s', k))
    && (forall c :: 0 <= c < |s'.channels| && (c < |s.channels| ==> ChannelReady(s, c)) ==> ChannelOk(s', c))
    && (forall o, i :: 0 <= o < |s.objs| && HeldFrom(s', o) <= i < |s'.objs[o].chans| && ObjectOk(s, o) &&
                       (HeldFrom(s, o) <= i < |s.objs[o].chans| ==> HoldingOk(s, o, i))
                       ==> HoldingOk(s', o, i))
  }

  ghost predicate Kept(s: State, s': State) {
    KeptOwners(s, s') && KeptChannels(s, s')
  }

  /** What a channel's own invariant leans on. */
  ghost predicate ChannelReady(s: State, c: nat)
    requires c < |s.channels|
  {
    && ChannelOk(s, c)
    && (s.channels[c].taker.ByLock? ==> ObjectOk(s, s.channels[c].taker.obj))
    && (s.channels[c].key in s.registry ==> KeyOk(s, s.channels[c].key))
  }

  lemma CallKeeps(s: State, t: nat, pc: Pc)
    requires t < |s.threads| && s.threads[t] == Idle && ThreadOk(s, t) && MutexOk(s)
    requires pc == CleanEnter(ToCaller) || ((pc.LockEnter? || pc.UnlockEnter?) && pc.obj < |s.objs|)
    ensures Kept(s, At(s, t, pc))
  {
  }

  lemma EnterLockKeepsOwners(s: State, t: nat, o: nat)
    requires CanEnterLock(s, t, o) && ThreadOk(s, t) && ObjectOk(s, o) && MutexOk(s)
    ensures KeptOwners(s, EnterLock(s, t, o))
  {
  }

  lemma EnterLockKeepsChannels(s: State, t: nat, o: nat)
    requires CanEnterLock(s, t, o) && ThreadOk(s, t) && ObjectOk(s, o) && MutexOk(s)
    ensures KeptChannels(s, EnterLock(s, t, o))
  {
  }

  lemma FetchOldKeeps(s: State, t: nat, o: nat, i: nat)
    requires CanFetch(s, t, o, i) && ThreadOk(s, t) && ObjectOk(s, o)
    requires s.objs[o].keys[i] in s.registry && KeyOk(s, s.objs[o].keys[i])
    ensures Kept(s, FetchChan(s, t, o, i))
  {
  }

  lemma FetchNewKeeps(s: State, t: nat, o: nat, i: nat)
    requires CanFetch(s, t, o, i) && ThreadOk(s, t) && ObjectOk(s, o)
    requires s.objs[o].keys[i] !in s.registry
    ensures Kept(s, FetchChan(s, t, o, i))
  {
  }

  lemma TakeKeepsOwners(s: State, t: nat, o: nat, i: nat, c: nat)
    requires CanReceive(s, t, o, i, c) && s.channels[c].token && ThreadOk(s, t) && ObjectOk(s, o) && ChannelOk(s, c)
    requires MutexOk(s)
    ensures KeptOwners(s, TakeToken(s, t, o, i, c))
  {
  }

  lemma TakeKeepsChannels(s: State, t: nat, o: nat, i: nat, c: nat)
    requires CanReceive(s, t, o, i, c) && s.channels[c].token && ThreadOk(s, t) && ObjectOk(s, o) && ChannelOk(s, c)
    requires MutexOk(s)
    ensures KeptChannels(s, TakeToken(s, t, o, i, c))
  {
  }

  lemma RetryKeeps(s: State, t: nat, o: nat, i: nat, c: nat)
    requires CanReceive(s, t, o, i, c) && ThreadOk(s, t) && ObjectOk(s, o) && MutexOk(s)
    ensures Kept(s, At(s, t, Fetch(o, i)))
  {
  }

  lemma ExitLockKeepsOwners(s: State, t: nat, o: nat)
    requires CanExitLock(s, t, o) && ThreadOk(s, t) && ObjectOk(s, o) && MutexOk(s)
    ensures KeptOwners(s, ExitLock(s, t, o))
  {
  }

  lemma ExitLockKeepsChannels(s: State, t: nat, o: nat)
    requires CanExitLock(s, t, o) && ThreadOk(s, t) && ObjectOk(s, o) && MutexOk(s)
    ensures KeptChannels(s, ExitLock(s, t, o))
  {
  }

  lemma EnterUnlockKeepsOwners(s: State, t: nat, o: nat)
    requires CanEnterUnlock(s, t, o) && ThreadOk(s, t) && ObjectOk(s, o) && MutexOk(s)
    ensures KeptOwners(s, EnterUnlock(s, t, o))
  {
  }

  lemma EnterUnlockKeepsChannels(s: State, t: nat, o: nat)
    requires CanEnterUnlock(s, t, o) && ThreadOk(s, t) && ObjectOk(s, o) && MutexOk(s)
    ensures KeptChannels(s, EnterUnlock(s, t, o))
  {
  }

  lemma PutKeepsOwners(s: State, t: nat, o: nat, i: nat)
    requires CanRelease(s, t, o, i) && i < |s.objs[o].chans| && ThreadOk(s, t) && ObjectOk(s, o) && MutexOk(s)
    requires HoldingOk(s, o, i)
    ensures KeptOwners(s, PutToken(s, t, o, i))
  {
  }

  lemma PutKeepsChannels(s: State, t: nat, o: nat, i: nat)
    requires CanRelease(s, t, o, i) && i < |s.objs[o].chans| && ThreadOk(s, t) && ObjectOk(s, o) && MutexOk(s)
    requires HoldingOk(s, o, i)
    ensures KeptChannels(s, PutToken(s, t, o, i))
  {
  }

  lemma EndReleaseKeepsOwners(s: State, t: nat, o: nat, i: nat)
    requires CanRelease(s, t, o, i) && i == |s.objs[o].chans| && ThreadOk(s, t) && ObjectOk(s, o) && MutexOk(s)
    ensures KeptOwners(s, ReleaseToken(s, t, o, i))
  {
  }

  lemma EndReleaseKeepsChannels(s: State, t: nat, o: nat, i: nat)
    requires CanRelease(s, t, o, i) && i == |s.objs[o].chans| && ThreadOk(s, t) && ObjectOk(s, o) && MutexOk(s)
    ensures KeptChannels(s, ReleaseToken(s, t, o, i))
  {
  }

  lemma ExitUnlockKeepsOwners(s: State, t: nat, o: nat)
    requires CanExitUnlock(s, t, o) && ThreadOk(s, t) && ObjectOk(s, o) && MutexOk(s)
    ensures KeptOwners(s, ExitUnlock(s, t, o))
  {
  }

  lemma ExitUnlockKeepsChannels(s: State, t: nat, o: nat)
    requires CanExitUnlock(s, t, o) && ThreadOk(s, t) && ObjectOk(s, o) && MutexOk(s)
    ensures KeptChannels(s, ExitUnlock(s, t, o))
  {
  }

  lemma EnterCleanKeeps(s: State, t: nat)
    requires CanEnterClean(s, t) && ThreadOk(s, t)
    ensures Kept(s, EnterClean(s, t))
  {
  }

  lemma StealKeepsOwners(s: State, t: nat, k: Key)
    requires CanVisit(s, t, k) && ThreadOk(s, t) && KeyOk(s, k) && ChannelOk(s, s.registry[k])
    requires s.channels[s.registry[k]].token
    ensures KeptOwners(s, StealToken(s, t, k))
  {
  }

  lemma StealKeepsChannels(s: State, t: nat, k: Key)
    requires CanVisit(s, t, k) && ThreadOk(s, t) && KeyOk(s, k) && ChannelOk(s, s.registry[k])
    requires s.channels[s.registry[k]].token
    ensures KeptChannels(s, StealToken(s, t, k))
  {
  }

  lemma SkipKeeps(s: State, t: nat, k: Key)
    requires CanVisit(s, t, k) && ThreadOk(s, t)
    ensures Kept(s, SkipKey(s, t, k))
  {
  }

  lemma CloseKeepsOwners(s: State, t: nat)
    requires CanClose(s, t) && ThreadOk(s, t) && ChannelOk(s, s.registry[s.threads[t].key])
    ensures KeptOwners(s, CloseChan(s, t))
  {
  }

  lemma CloseKeepsChannels(s: State, t: nat)
    requires CanClose(s, t) && ThreadOk(s, t) && ChannelOk(s, s.registry[s.threads[t].key])
    ensures KeptChannels(s, CloseChan(s, t))
  {
  }

  lemma EndSweepKeeps(s: State, t: nat)
    requires CanEndSweep(s, t) && ThreadOk(s, t)
    ensures Kept(s, EndSweep(s, t))
  {
  }

  lemma DeleteKeeps(s: State, t: nat, k: Key)
    requires CanDelete(s, t, k) && ThreadOk(s, t)
    ensures Kept(s, DeleteKey(s, t, k))
  {
  }

  lemma LeaveCleanKeeps(s: State, t: nat)
    requires CanLeaveClean(s, t) && ThreadOk(s, t)
    ensures Kept(s, LeaveClean(s, t))
  {
  }

  /** Only the first statement of a sweep ends its being pending. */
  lemma PendingKept(s: State, a: Action)
    requires Enabled(s, a) && SweepPending(s) && !(a.Step? && s.threads[a.t].CleanEnter?)
    requires ThreadOk(s, a.t)
    ensures SweepPending(Apply(s, a))
  {
    var s' := Apply(s, a);
    if o :| 0 <= o < |s.objs| && s.objs[o].use.HeldBy? {
      assert s'.objs[o].use.HeldBy? || BeforeSweep(s'.threads[a.t]);
    } else {
      var t :| 0 <= t < |s.threads| && BeforeSweep(s.threads[t]);
      if t != a.t {
        assert BeforeSweep(s'.threads[t]);
      } else if s.threads[t].LockExit? {
        assert s'.objs[s.threads[t].obj].use.HeldBy?;
      } else {
        assert BeforeSweep(s'.threads[t]);
      }
    }
  }

  lemma TokenKept(s: State, a: Action, k: Key)
    requires Enabled(s, a) && ThreadOk(s, a.t) && MutexOk(s)
    requires k in Apply(s, a).registry && KeyOk(Apply(s, a), k)
    requires k in s.registry ==> KeyOk(s, k) && TokenOk(s, k)
    ensures TokenOk(Apply(s, a), k)
  {
    var s' := Apply(s, a);
    if BeforeSweep(s'.threads[a.t]) {
      assert SweepPending(s');
    } else if !(a.Step? && s.threads[a.t].CleanEnter?) && SweepPending(s) {
      PendingKept(s, a);
    }
  }

  lemma KeptInv(s: State, a: Action)
    requires Inv(s) && Enabled(s, a) && Kept(s, Apply(s, a))
    ensures Inv(Apply(s, a))
  {
    var s' := Apply(s, a);
    forall c | 0 <= c < |s'.channels| ensures ChannelOk(s', c) {
      if c < |s.channels| {
        assert ChannelOk(s, c);
        assert ChannelReady(s, c);
      }
    }
    forall o, i | 0 <= o < |s'.objs| && HeldFrom(s', o) <= i < |s'.objs[o].chans| ensures HoldingOk(s', o, i) {
      assert ObjectOk(s, o);
      assert HeldFrom(s, o) <= i < |s.objs[o].chans| ==> HoldingOk(s, o, i);
    }
    forall k | k in s'.registry ensures KeyOk(s', k) && TokenOk(s', k) {
      assert k in s.registry ==> KeyOk(s, k) && TokenOk(s, k);
      assert ThreadOk(s, a.t);
      TokenKept(s, a, k);
    }
  }

  lemma LockStepKept(s: State, t: nat)
    requires Inv(s) && CanStep(s, t)
    requires s.threads[t].LockEnter? || s.threads[t].Fetch? || s.threads[t].Receive? || s.threads[t].LockExit?
    ensures Kept(s, DoStep(s, t))
  {
    assert ThreadOk(s, t);
    var o := s.threads[t].obj;
    assert ObjectOk(s, o);
    match s.threads[t]
    case LockEnter(_) =>
      EnterLockKeepsOwners(s, t, o);
      EnterLockKeepsChannels(s, t, o);
    case Fetch(_, i) =>
      var k := s.objs[o].keys[i];
      if k in s.registry {
        assert KeyOk(s, k);
        FetchOldKeeps(s, t, o, i);
      } else {
        FetchNewKeeps(s, t, o, i);
      }
    case Receive(_, i, c) =>
      assert ChannelOk(s, c);
      if s.channels[c].token {
        TakeKeepsOwners(s, t, o, i, c);
        TakeKeepsChannels(s, t, o, i, c);
      } else {
        RetryKeeps(s, t, o, i, c);
      }
    case LockExit(_) =>
      ExitLockKeepsOwners(s, t, o);
      ExitLockKeepsChannels(s, t, o);
  }

  lemma UnlockStepKept(s: State, t: nat)
    requires Inv(s) && CanStep(s, t)
    requires s.threads[t].UnlockEnter? || s.threads[t].Release? || s.threads[t].UnlockExit?
    ensures Kept(s, DoStep(s, t))
  {
    assert ThreadOk(s, t);
    var o := s.threads[t].obj;
    assert ObjectOk(s, o);
    match s.threads[t]
    case UnlockEnter(_) =>
      EnterUnlockKeepsOwners(s, t, o);
      EnterUnlockKeepsChannels(s, t, o);
    case Release(_, i) =>
      if i < |s.objs[o].chans| {
        assert HoldingOk(s, o, i);
        PutKeepsOwners(s, t, o, i);
        PutKeepsChannels(s, t, o, i);
      } else {
        EndReleaseKeepsOwners(s, t, o, i);
        EndReleaseKeepsChannels(s, t, o, i);
      }
    case UnlockExit(_) =>
      ExitUnlockKeepsOwners(s, t, o);
      ExitUnlockKeepsChannels(s, t, o);
  }

  lemma CleanStepKept(s: State, t: nat)
    requires Inv(s) && CanStep(s, t) && (s.threads[t].CleanEnter? || Sweeping(s.threads[t]))
    ensures Kept(s, DoStep(s, t))
  {
    assert ThreadOk(s, t);
    match s.threads[t]
    case CleanEnter(_) => EnterCleanKeeps(s, t);
    case Sweep(_, _, _) => EndSweepKeeps(s, t);
    case Close(_, k, _, _) =>
      assert ChannelOk(s, s.registry[k]);
      CloseKeepsOwners(s, t);
      CloseKeepsChannels(s, t);
    case Delete(_, _) => LeaveCleanKeeps(s, t);
  }

  lemma VisitKept(s: State, t: nat, k: Key)
    requires Inv(s) && (CanVisit(s, t, k) || CanDelete(s, t, k))
    ensures Kept(s, Apply(s, Visit(t, k)))
  {
    assert ThreadOk(s, t);
    if CanVisit(s, t, k) {
      assert KeyOk(s, k);
      assert ChannelOk(s, s.registry[k]);
      if s.channels[s.registry[k]].token {
        StealKeepsOwners(s, t, k);
        StealKeepsChannels(s, t, k);
      } else {
        SkipKeeps(s, t, k);
      }
    } else {
      DeleteKeeps(s, t, k);
    }
  }

  /** Every step of every goroutine, in every order, keeps the invariant. */
  lemma StepKeepsInv(s: State, a: Action)
    requires Inv(s) && Enabled(s, a)
    ensures Inv(Apply(s, a))
  {
    assert ThreadOk(s, a.t);
    match a {
      case CallLock(t, o) => CallKeeps(s, t, LockEnter(o));
      case CallUnlock(t, o) => CallKeeps(s, t, UnlockEnter(o));
      case CallClean(t) => CallKeeps(s, t, CleanEnter(ToCaller));
      case Visit(t, k) => VisitKept(s, t, k);
      case Step(t) =>
        var pc := s.threads[t];
        if pc.CleanEnter? || Sweeping(pc) {
          CleanStepKept(s, t);
        } else if pc.UnlockEnter? || pc.Release? || pc.UnlockExit? {
          UnlockStepKept(s, t);
        } else {
          LockStepKept(s, t);
        }
    }
    KeptInv(s, a);
  }

  lemma {:induction false} RunKeepsInv(s: State, run: seq<Action>)
    requires Inv(s) && ValidRun(s, run)
    ensures Inv(After(s, run))
    decreases |run|
  {
    if run != [] {
      StepKeepsInv(s, run[0]);
      RunKeepsInv(Apply(s, run[0]), run[1..]);
    }
  }

  // ------------------------------------------------------ main results

  /** Some interleaving of some goroutines over some Lock values leads to s. */
  ghost predicate Reachable(s: State) {
    exists init, run :: Init(init) && ValidRun(init, run) && s == After(init, run)
  }

  lemma ReachableInv(s: State)
    requires Reachable(s)
    ensures Inv(s)
  {
    var init, run :| Init(init) && ValidRun(init, run) && s == After(init, run);
    InitInv(init);
    RunKeepsInv(init, run);
  }

  /** The token of channel c is with some Lock value. */
  ghost predicate TokenWithLock(s: State, c: nat) {
    exists o, i :: Holds(s, o, i, c)
  }

  /** Over every interleaving, no two Lock values hold the same key. */
  lemma MutualExclusion(s: State, o1: nat, i1: nat, c1: nat, o2: nat, i2: nat, c2: nat)
    requires Reachable(s) && Holds(s, o1, i1, c1) && Holds(s, o2, i2, c2) && o1 != o2
    ensures i1 < |s.objs[o1].keys| && i2 < |s.objs[o2].keys| && s.objs[o1].keys[i1] != s.objs[o2].keys[i2]
  {
    ReachableInv(s);
    assert HoldingOk(s, o1, i1) && HoldingOk(s, o2, i2);
    assert ChannelOk(s, c1) && ChannelOk(s, c2);
  }

  /** When Lock returns, every key of the list is held, and stays held until Unlock starts. */
  lemma LockedMeansHeld(s: State, o: nat, i: nat)
    requires Reachable(s) && o < |s.objs| && s.objs[o].unlockFull && i < |s.objs[o].keys|
    ensures exists c: nat :: Holds(s, o, i, c) && c < |s.channels| && !s.channels[c].token && !s.channels[c].closed
                             && s.channels[c].key == s.objs[o].keys[i]
                             && s.objs[o].keys[i] in s.registry && s.registry[s.objs[o].keys[i]] == c
  {
    ReachableInv(s);
    assert ObjectOk(s, o);
    assert HoldingOk(s, o, i);
    var c := s.objs[o].chans[i];
    assert ChannelOk(s, c);
    assert Holds(s, o, i, c);
  }

  /** A registered channel is open unless the running sweep has closed it, and has exactly one
      token, which is in it, with a Lock value, or just taken by the sweep. An unregistered
      channel is closed, empty and held by nobody. */
  lemma TokenConservation(s: State, c: nat)
    requires Reachable(s) && c < |s.channels|
    ensures var ch := s.channels[c];
      var registered := ch.key in s.registry && s.registry[ch.key] == c;
      && MutexOk(s)
      && (registered && ch.closed ==> s.mutex.Some? && ch.key in Dead(s.threads[s.mutex.value]))
      && (registered && !ch.closed ==>
            && (ch.token || TokenWithLock(s, c) || ClosingKey(s, ch.key))
            && !(ch.token && TokenWithLock(s, c))
            && !(ch.token && ClosingKey(s, ch.key))
            && !(TokenWithLock(s, c) && ClosingKey(s, ch.key)))
      && (!registered || ch.closed ==> ch.closed && !ch.token && !TokenWithLock(s, c))
  {
    ReachableInv(s);
    assert ChannelOk(s, c);
    if TokenWithLock(s, c) {
      var o, i :| Holds(s, o, i, c);
      assert HoldingOk(s, o, i);
    }
    if s.channels[c].key in s.registry {
      assert KeyOk(s, s.channels[c].key);
    }
    if ClosingKey(s, s.channels[c].key) {
      assert ThreadOk(s, s.mutex.value);
    }
  }

  /** No statement of any goroutine sends on a closed or full channel, or closes one twice:
      the sends and receives that end Lock and Unlock never block. */
  lemma SendsNeverFail(s: State, t: nat)
    requires Inv(s) && t < |s.threads|
    ensures var pc := s.threads[t];
      pc.Release? || pc.Close? || pc.LockExit? || pc.UnlockExit? ==> CanStep(s, t)
  {
    assert ThreadOk(s, t);
    var pc := s.threads[t];
    if pc.Close? {
      assert KeyOk(s, pc.key);
    } else if InsideOf(pc).Some? {
      assert ObjectOk(s, InsideOf(pc).value);
      if pc.Release? && pc.i < |s.objs[pc.obj].chans| {
        assert HoldingOk(s, pc.obj, pc.i);
        assert ChannelOk(s, s.objs[pc.obj].chans[pc.i]);
      }
    }
  }

  /** No call is in progress and nothing is locked. */
  ghost predicate Quiescent(s: State) {
    && (forall t :: 0 <= t < |s.threads| ==> s.threads[t] == Idle)
    && (forall o :: 0 <= o < |s.objs| ==> !s.objs[o].use.HeldBy?)
  }

  /** Whatever the order of concurrent Unlocks, the registry is empty when all is quiet. */
  lemma RegistryReclaimed(s: State)
    requires Inv(s) && Quiescent(s)
    ensures s.registry == map[] && s.mutex == None
    ensures forall o :: 0 <= o < |s.objs| ==> !s.objs[o].lockFull && !s.objs[o].unlockFull
  {
    forall o | 0 <= o < |s.objs| ensures !s.objs[o].lockFull && !s.objs[o].unlockFull && s.objs[o].chans == [] {
      assert ObjectOk(s, o);
    }
    assert s.mutex.Some? ==> ThreadOk(s, s.mutex.value);
    forall k: Key ensures k !in s.registry {
      assert k in s.registry ==> KeyOk(s, k) && TokenOk(s, k) && ChannelOk(s, s.registry[k]);
    }
  }
}
