/** Deadlock freedom of multilock.go, and more: once no new Lock call starts,
    every run of the pending calls is finite and can only stop when every call
    has returned, nothing is locked and the registry is empty. */
module MultilockProgress {
  import opened MultilockKeys
  import opened MultilockProtocol
  import opened MultilockSafety
  import opened Options
  import opened Totals

  /** A goroutine takes no second Lock while it holds one, and unlocks only what it holds. */
  ghost predicate Disciplined(s: State, a: Action) {
    && (a.CallLock? ==> forall o :: 0 <= o < |s.objs| ==> s.objs[o].use != HeldBy(a.t))
    && (a.CallUnlock? ==> a.obj < |s.objs| && s.objs[a.obj].use == HeldBy(a.t))
  }

  /** The statements of pending calls, and the Unlock calls of what is locked. */
  ghost predicate Draining(s: State, a: Action) {
    Enabled(s, a) && Disciplined(s, a) && !a.CallLock? && !a.CallClean?
  }

  predicate PlainClean(pc: Pc) {
    (pc.CleanEnter? || Sweeping(pc)) && pc.ret.ToCaller?
  }

  ghost predicate HolderOk(s: State, o: nat)
    requires o < |s.objs|
  {
    s.objs[o].use.HeldBy? ==>
      var t := s.objs[o].use.thread;
      t < |s.threads| && (s.threads[t].Idle? || s.threads[t] == UnlockEnter(o) || PlainClean(s.threads[t]))
  }

  ghost predicate UnlockerOk(s: State, t: nat)
    requires t < |s.threads|
  {
    s.threads[t].UnlockEnter? ==>
      s.threads[t].obj < |s.objs| && s.objs[s.threads[t].obj].use == HeldBy(t)
  }

  ghost predicate Discipline(s: State) {
    && (forall o :: 0 <= o < |s.objs| ==> HolderOk(s, o))
    && (forall t :: 0 <= t < |s.threads| ==> UnlockerOk(s, t))
    && (forall o1, o2 :: 0 <= o1 < |s.objs| && 0 <= o2 < |s.objs| && s.objs[o1].use.HeldBy? && o1 != o2 ==>
          s.objs[o1].use != s.objs[o2].use)
  }

  lemma HolderKept(s: State, a: Action, o: nat)
    requires Enabled(s, a) && ThreadOk(s, a.t) && UnlockerOk(s, a.t) && o < |s.objs| && ObjectOk(s, o) && HolderOk(s, o)
    requires s.objs[o].use == HeldBy(a.t) ==> !a.CallLock? && (a.CallUnlock? ==> a.obj == o)
    ensures HolderOk(Apply(s, a), o)
  {
  }

  lemma UnlockerKept(s: State, a: Action, t: nat)
    requires Enabled(s, a) && ThreadOk(s, a.t) && UnlockerOk(s, a.t) && t < |s.threads| && UnlockerOk(s, t)
    requires s.threads[t].UnlockEnter? ==> ObjectOk(s, s.threads[t].obj)
    requires a.CallUnlock? ==> s.objs[a.obj].use == HeldBy(a.t)
    ensures UnlockerOk(Apply(s, a), t)
  {
  }

  lemma HoldersKept(s: State, a: Action, o: nat)
    requires Enabled(s, a) && o < |s.objs| && HolderOk(s, o) && ThreadOk(s, a.t) && Apply(s, a).objs[o].use.HeldBy?
    ensures || Apply(s, a).objs[o].use == s.objs[o].use
            || (Apply(s, a).objs[o].use == HeldBy(a.t) && s.threads[a.t] == LockExit(o))
  {
  }

  lemma StepKeepsDiscipline(s: State, a: Action)
    requires Inv(s) && Discipline(s) && Enabled(s, a) && Disciplined(s, a)
    ensures Discipline(Apply(s, a))
  {
    var s' := Apply(s, a);
    assert ThreadOk(s, a.t) && UnlockerOk(s, a.t);
    forall o | 0 <= o < |s.objs| ensures HolderOk(s', o) {
      assert HolderOk(s, o) && ObjectOk(s, o);
      HolderKept(s, a, o);
    }
    forall t | 0 <= t < |s.threads| ensures UnlockerOk(s', t) {
      assert UnlockerOk(s, t);
      if s.threads[t].UnlockEnter? {
        assert ObjectOk(s, s.threads[t].obj);
      }
      UnlockerKept(s, a, t);
    }
    forall o1, o2 | 0 <= o1 < |s.objs| && 0 <= o2 < |s.objs| && s'.objs[o1].use.HeldBy? && o1 != o2
      ensures s'.objs[o1].use != s'.objs[o2].use
    {
      assert HolderOk(s, o1) && HolderOk(s, o2);
      HoldersKept(s, a, o1);
      if s'.objs[o2].use.HeldBy? {
        HoldersKept(s, a, o2);
      }
    }
    StepShape(s, a);
  }

  lemma StepShape(s: State, a: Action)
    requires Enabled(s, a)
    ensures |Apply(s, a).objs| == |s.objs| && |Apply(s, a).threads| == |s.threads|
  {
  }

  // ------------------------------------------------- deadlock freedom

  /** The goroutine is at a receive that finds neither a token nor a closed channel. */
  predicate Starved(s: State, t: nat) {
    && t < |s.threads| && s.threads[t].Receive?
    && s.threads[t].obj < |s.objs| && s.threads[t].i < |s.objs[s.threads[t].obj].keys|
    && s.threads[t].ch < |s.channels|
    && !s.channels[s.threads[t].ch].token && !s.channels[s.threads[t].ch].closed
  }

  function WaitsFor(s: State, t: nat): Key
    requires Starved(s, t)
  {
    s.objs[s.threads[t].obj].keys[s.threads[t].i]
  }

  /** What keeps a starved goroutine waiting: a locked Lock value, or one whose own call, if
      it is still taking tokens, has passed the awaited key. */
  predicate Ahead(s: State, k: Key, o: nat) {
    o < |s.objs| &&
    match s.objs[o].use
    case Free => false
    case HeldBy(_) => true
    case Inside(u) => u < |s.threads| && InsideOf(s.threads[u]) == Some(o) && PastKey(s.objs[o], s.threads[u], k)
  }

  predicate PastKey(obj: Object, pc: Pc, k: Key) {
    pc.Fetch? || pc.Receive? ==> pc.i < |obj.keys| && Less(k, obj.keys[pc.i])
  }

  lemma BlockedByLater(s: State, t: nat) returns (o: nat)
    requires Inv(s) && Starved(s, t) && s.mutex.None?
    ensures Ahead(s, WaitsFor(s, t), o)
  {
    assert ThreadOk(s, t);
    var c := s.threads[t].ch;
    assert ChannelOk(s, c);
    var i := s.channels[c].taker.index;
    o := s.channels[c].taker.obj;
    assert ObjectOk(s, o);
    assert HoldingOk(s, o, i);
    if s.objs[o].use.Inside? {
      assert ThreadOk(s, s.objs[o].use.thread);
    }
  }

  /** A goroutine other than a starved one, or one waiting for a busy Lock value, can step. */
  lemma CanStepUnlessBlocked(s: State, t: nat) returns (a: Action)
    requires Inv(s) && Discipline(s) && t < |s.threads| && !s.threads[t].Idle?
    requires s.mutex.None? || s.mutex == Some(t)
    requires !Starved(s, t)
    requires s.threads[t].LockEnter? ==> CanStep(s, t)
    ensures Draining(s, a)
  {
    a := Step(t);
    SendsNeverFail(s, t);
    assert ThreadOk(s, t) && UnlockerOk(s, t);
    var pc := s.threads[t];
    if pc.Sweep? && pc.todo != {} {
      var k :| k in pc.todo;
      assert KeyOk(s, k);
      a := Visit(t, k);
    } else if pc.Delete? && pc.dead != {} {
      var k :| k in pc.dead;
      a := Visit(t, k);
    } else if pc.UnlockEnter? {
      assert ObjectOk(s, pc.obj);
    }
  }

  lemma HolderCanAct(s: State, o: nat) returns (a: Action)
    requires Inv(s) && Discipline(s) && s.mutex.None? && o < |s.objs| && s.objs[o].use.HeldBy?
    ensures Draining(s, a)
  {
    assert HolderOk(s, o);
    var t := s.objs[o].use.thread;
    if s.threads[t].Idle? {
      a := CallUnlock(t, o);
    } else {
      a := CanStepUnlessBlocked(s, t);
    }
  }

  /** The starved goroutine that waits for the greatest key waits for someone who can act. */
  lemma SomeoneAhead(s: State, t0: nat) returns (a: Action)
    requires Inv(s) && Discipline(s) && s.mutex.None? && Starved(s, t0)
    ensures Draining(s, a)
  {
    var waited := set t | 0 <= t < |s.threads| && Starved(s, t) :: WaitsFor(s, t);
    assert WaitsFor(s, t0) in waited;
    var m := GreatestKey(waited);
    var t :| 0 <= t < |s.threads| && Starved(s, t) && WaitsFor(s, t) == m;
    var o := BlockedByLater(s, t);
    if s.objs[o].use.HeldBy? {
      a := HolderCanAct(s, o);
    } else {
      var u := s.objs[o].use.thread;
      assert ThreadOk(s, u);
      assert Starved(s, u) ==> WaitsFor(s, u) in waited;
      a := CanStepUnlessBlocked(s, u);
    }
  }

  /** Deadlock freedom: while a call is in progress or something is locked, some goroutine can
      take a step of its call or unlock what it holds. */
  lemma Progress(s: State) returns (a: Action)
    requires Inv(s) && Discipline(s) && !Quiescent(s)
    ensures Draining(s, a)
  {
    if s.mutex.Some? {
      assert ThreadOk(s, s.mutex.value);
      a := CanStepUnlessBlocked(s, s.mutex.value);
    } else if t :| 0 <= t < |s.threads| && Starved(s, t) {
      a := SomeoneAhead(s, t);
    } else if o :| 0 <= o < |s.objs| && s.objs[o].use.HeldBy? {
      a := HolderCanAct(s, o);
    } else {
      var t :| 0 <= t < |s.threads| && !s.threads[t].Idle?;
      assert ThreadOk(s, t);
      if s.threads[t].LockEnter? && !CanStep(s, t) {
        var o := s.threads[t].obj;
        assert ObjectOk(s, o);
        a := CanStepUnlessBlocked(s, s.objs[o].use.thread);
      } else {
        a := CanStepUnlessBlocked(s, t);
      }
    }
  }

  // -------------------------------------------------------------- rank

  /** Sweeps of this call that have not started. */
  function SweepsLeft(pc: Pc): nat {
    if BeforeSweep(pc) then 1 else 0
  }

  /** Statements left in the running sweep and after it. */
  function SweepWork(pc: Pc): nat {
    match pc
    case Sweep(_, todo, dead) => 3 * |todo| + |dead| + 4
    case Close(_, _, todo, dead) => 3 * |todo| + |dead| + 6
    case Delete(_, dead) => |dead| + 3
    case UnlockExit(_) => 1
    case _ => 0
  }

  /** Tokens still to take and to put back; `n` is the number of keys of the Lock value. */
  function CallWork(pc: Pc, n: nat): nat {
    match pc
    case Idle => 1
    case LockEnter(_) => 2 * n + 7
    case Fetch(_, i) => 2 * n + 6 - (if i <= n then i else n)
    case Receive(_, i, _) => 2 * n + 6 - (if i <= n then i else n)
    case LockExit(_) => n + 6
    case UnlockEnter(_) => 0
    case Release(_, i) => n + 3 - (if i <= n then i else n)
    case CleanEnter(_) => 2
    case _ => 0
  }

  /** Going back to getChan after a channel was closed under the receive. */
  function RetryWork(s: State, pc: Pc): nat {
    match pc
    case Fetch(_, _) => 1
    case Receive(_, _, c) => if c < |s.channels| && s.channels[c].closed then 2 else 0
    case _ => 0
  }

  function KeyCount(s: State, pc: Pc): nat {
    match pc
    case LockEnter(o) => Keys(s, o)
    case Fetch(o, _) => Keys(s, o)
    case Receive(o, _, _) => Keys(s, o)
    case LockExit(o) => Keys(s, o)
    case Release(o, _) => Keys(s, o)
    case _ => 0
  }

  function Keys(s: State, o: nat): nat {
    if o < |s.objs| then |s.objs[o].keys| else 0
  }

  function Locked(obj: Object, weight: nat): nat {
    if obj.use.HeldBy? then weight else 0
  }

  // The four components of the rank, as totals over goroutines and Lock values.

  function SweepsOf(s: State): seq<nat> {
    seq(|s.threads|, t requires 0 <= t < |s.threads| => SweepsLeft(s.threads[t]))
  }

  function LockedSweeps(s: State): seq<nat> {
    seq(|s.objs|, o requires 0 <= o < |s.objs| => Locked(s.objs[o], 1))
  }

  function SweepWorkOf(s: State): seq<nat> {
    seq(|s.threads|, t requires 0 <= t < |s.threads| => SweepWork(s.threads[t]))
  }

  function CallWorkOf(s: State): seq<nat> {
    seq(|s.threads|, t requires 0 <= t < |s.threads| => CallWork(s.threads[t], KeyCount(s, s.threads[t])))
  }

  function LockedWork(s: State): seq<nat> {
    seq(|s.objs|, o requires 0 <= o < |s.objs| => Locked(s.objs[o], |s.objs[o].keys| + 4))
  }

  function RetryWorkOf(s: State): seq<nat> {
    seq(|s.threads|, t requires 0 <= t < |s.threads| => RetryWork(s, s.threads[t]))
  }

  function Rank1(s: State): nat { Total(SweepsOf(s)) + Total(LockedSweeps(s)) }
  function Rank2(s: State): nat { Total(SweepWorkOf(s)) }
  function Rank3(s: State): nat { Total(CallWorkOf(s)) + Total(LockedWork(s)) }
  function Rank4(s: State): nat { Total(RetryWorkOf(s)) }

  predicate Lower(s': State, s: State) {
    || Rank1(s') < Rank1(s)
    || (Rank1(s') == Rank1(s) && Rank2(s') < Rank2(s))
    || (Rank1(s') == Rank1(s) && Rank2(s') == Rank2(s) && Rank3(s') < Rank3(s))
    || (Rank1(s') == Rank1(s) && Rank2(s') == Rank2(s) && Rank3(s') == Rank3(s) && Rank4(s') < Rank4(s))
  }

  /** s' moves goroutine t of s and leaves key lists alone. */
  ghost predicate Moves(s: State, s': State, t: nat) {
    && t < |s.threads| == |s'.threads| && |s'.objs| == |s.objs|
    && s'.threads == s.threads[t := s'.threads[t]]
    && (forall o :: 0 <= o < |s.objs| ==> s'.objs[o].keys == s.objs[o].keys)
  }

  lemma MoveTotals(s: State, s': State, t: nat)
    requires Moves(s, s', t)
    ensures Total(SweepsOf(s')) + SweepsLeft(s.threads[t]) == Total(SweepsOf(s)) + SweepsLeft(s'.threads[t])
    ensures Total(SweepWorkOf(s')) + SweepWork(s.threads[t]) == Total(SweepWorkOf(s)) + SweepWork(s'.threads[t])
    ensures Total(CallWorkOf(s')) + CallWork(s.threads[t], KeyCount(s, s.threads[t]))
         == Total(CallWorkOf(s)) + CallWork(s'.threads[t], KeyCount(s, s'.threads[t]))
  {
    var pc := s'.threads[t];
    assert SweepsOf(s') == SweepsOf(s)[t := SweepsLeft(pc)];
    assert SweepWorkOf(s') == SweepWorkOf(s)[t := SweepWork(pc)];
    assert CallWorkOf(s') == CallWorkOf(s)[t := CallWork(pc, KeyCount(s, pc))];
    TotalUpdate(SweepsOf(s), t, SweepsLeft(pc));
    TotalUpdate(SweepWorkOf(s), t, SweepWork(pc));
    TotalUpdate(CallWorkOf(s), t, CallWork(pc, KeyCount(s, pc)));
  }

  lemma SameLocked(s: State, s': State)
    requires |s'.objs| == |s.objs|
    requires forall o :: 0 <= o < |s.objs| ==>
      s'.objs[o].keys == s.objs[o].keys && (s'.objs[o].use.HeldBy? <==> s.objs[o].use.HeldBy?)
    ensures LockedSweeps(s') == LockedSweeps(s) && LockedWork(s') == LockedWork(s)
  {
  }

  lemma LockedTotals(s: State, s': State, o: nat)
    requires o < |s.objs| == |s'.objs| && s'.objs == s.objs[o := s'.objs[o]] && s'.objs[o].keys == s.objs[o].keys
    ensures Total(LockedSweeps(s')) + Locked(s.objs[o], 1) == Total(LockedSweeps(s)) + Locked(s'.objs[o], 1)
    ensures Total(LockedWork(s')) + Locked(s.objs[o], Keys(s, o) + 4)
         == Total(LockedWork(s)) + Locked(s'.objs[o], Keys(s, o) + 4)
  {
    assert LockedSweeps(s') == LockedSweeps(s)[o := Locked(s'.objs[o], 1)];
    assert LockedWork(s') == LockedWork(s)[o := Locked(s'.objs[o], Keys(s, o) + 4)];
    TotalUpdate(LockedSweeps(s), o, Locked(s'.objs[o], 1));
    TotalUpdate(LockedWork(s), o, Locked(s'.objs[o], Keys(s, o) + 4));
  }

  lemma RetryTotals(s: State, s': State, t: nat)
    requires Moves(s, s', t)
    requires |s.channels| <= |s'.channels|
    requires forall c :: 0 <= c < |s.channels| ==> s'.channels[c].closed == s.channels[c].closed
    requires forall u :: 0 <= u < |s.threads| && s.threads[u].Receive? ==> s.threads[u].ch < |s.channels|
    ensures Total(RetryWorkOf(s')) + RetryWork(s, s.threads[t]) == Total(RetryWorkOf(s)) + RetryWork(s', s'.threads[t])
  {
    assert RetryWorkOf(s') == RetryWorkOf(s)[t := RetryWork(s', s'.threads[t])];
    TotalUpdate(RetryWorkOf(s), t, RetryWork(s', s'.threads[t]));
  }

  lemma LockEndsLower(s: State, t: nat, o: nat)
    requires o < |s.objs| && ObjectOk(s, o)
    requires CanEnterLock(s, t, o) || (CanExitLock(s, t, o) && ThreadOk(s, t))
    ensures Lower(DoStep(s, t), s)
  {
    var s' := DoStep(s, t);
    MoveTotals(s, s', t);
    LockedTotals(s, s', o);
  }

  lemma FetchLowers(s: State, t: nat, o: nat, i: nat)
    requires Inv(s) && CanFetch(s, t, o, i)
    ensures Lower(FetchChan(s, t, o, i), s)
  {
    var s' := FetchChan(s, t, o, i);
    assert s.objs[o].keys[i] in s.registry ==> KeyOk(s, s.objs[o].keys[i]);
    MoveTotals(s, s', t);
    SameLocked(s, s');
    ReceiversOk(s);
    RetryTotals(s, s', t);
  }

  lemma ReceiveLowers(s: State, t: nat, o: nat, i: nat, c: nat)
    requires Inv(s) && CanReceive(s, t, o, i, c)
    ensures Lower(ReceiveToken(s, t, o, i, c), s)
  {
    var s' := ReceiveToken(s, t, o, i, c);
    assert ThreadOk(s, t);
    MoveTotals(s, s', t);
    SameLocked(s, s');
    ReceiversOk(s);
    RetryTotals(s, s', t);
  }

  lemma LockStepLowers(s: State, t: nat)
    requires Inv(s) && CanStep(s, t)
    requires s.threads[t].LockEnter? || s.threads[t].Fetch? || s.threads[t].Receive? || s.threads[t].LockExit?
    ensures Lower(DoStep(s, t), s)
  {
    var pc := s.threads[t];
    if pc.Fetch? {
      FetchLowers(s, t, pc.obj, pc.i);
    } else if pc.Receive? {
      ReceiveLowers(s, t, pc.obj, pc.i, pc.ch);
    } else {
      assert ThreadOk(s, t) && ObjectOk(s, pc.obj);
      LockEndsLower(s, t, pc.obj);
    }
  }

  lemma ReceiversOk(s: State)
    requires Inv(s)
    ensures forall u :: 0 <= u < |s.threads| && s.threads[u].Receive? ==> s.threads[u].ch < |s.channels|
  {
    forall u | 0 <= u < |s.threads| && s.threads[u].Receive? ensures s.threads[u].ch < |s.channels| {
      assert ThreadOk(s, u);
    }
  }

  lemma ReleaseLowers(s: State, t: nat, o: nat, i: nat)
    requires CanRelease(s, t, o, i) && ThreadOk(s, t) && ObjectOk(s, o)
    ensures Lower(ReleaseToken(s, t, o, i), s)
  {
    var s' := ReleaseToken(s, t, o, i);
    MoveTotals(s, s', t);
    SameLocked(s, s');
  }

  lemma UnlockEndsLower(s: State, t: nat, o: nat)
    requires o < |s.objs| && ObjectOk(s, o)
    requires CanEnterUnlock(s, t, o) || CanExitUnlock(s, t, o)
    ensures Lower(DoStep(s, t), s)
  {
    var s' := DoStep(s, t);
    MoveTotals(s, s', t);
    LockedTotals(s, s', o);
  }

  lemma UnlockStepLowers(s: State, t: nat)
    requires Inv(s) && CanStep(s, t)
    requires s.threads[t].UnlockEnter? || s.threads[t].Release? || s.threads[t].UnlockExit?
    ensures Lower(DoStep(s, t), s)
  {
    var pc := s.threads[t];
    assert ThreadOk(s, t) && ObjectOk(s, pc.obj);
    if pc.Release? {
      ReleaseLowers(s, t, pc.obj, pc.i);
    } else {
      UnlockEndsLower(s, t, pc.obj);
    }
  }

  lemma CleanStepLowers(s: State, t: nat)
    requires CanStep(s, t) && (s.threads[t].CleanEnter? || Sweeping(s.threads[t]))
    ensures Lower(DoStep(s, t), s)
  {
    var s' := DoStep(s, t);
    MoveTotals(s, s', t);
    SameLocked(s, s');
    if s.threads[t].Close? {
      assert |s'.threads[t].dead| <= |s.threads[t].dead| + 1;
    }
  }

  lemma VisitLowers(s: State, t: nat, k: Key)
    requires CanVisit(s, t, k) || CanDelete(s, t, k)
    ensures Lower(Apply(s, Visit(t, k)), s)
  {
    var s' := Apply(s, Visit(t, k));
    MoveTotals(s, s', t);
    SameLocked(s, s');
  }

  /** Every step that is not a new call to Lock or Clean lowers the rank. */
  lemma DrainingLowers(s: State, a: Action)
    requires Inv(s) && Draining(s, a)
    ensures Lower(Apply(s, a), s)
  {
    match a
    case Visit(t, k) => VisitLowers(s, t, k);
    case CallUnlock(t, o) =>
      MoveTotals(s, Apply(s, a), t);
      SameLocked(s, Apply(s, a));
    case Step(t) =>
      var pc := s.threads[t];
      if pc.CleanEnter? || Sweeping(pc) {
        CleanStepLowers(s, t);
      } else if pc.UnlockEnter? || pc.Release? || pc.UnlockExit? {
        UnlockStepLowers(s, t);
      } else {
        LockStepLowers(s, t);
      }
  }

  // ------------------------------------------------------ main results

  ghost predicate DisciplinedRun(s: State, run: seq<Action>)
    decreases |run|
  {
    run == [] || (Enabled(s, run[0]) && Disciplined(s, run[0]) && DisciplinedRun(Apply(s, run[0]), run[1..]))
  }

  lemma {:induction false} DisciplinedRunInv(s: State, run: seq<Action>)
    requires Inv(s) && Discipline(s) && DisciplinedRun(s, run)
    ensures ValidRun(s, run) && Inv(After(s, run)) && Discipline(After(s, run))
    decreases |run|
  {
    if run != [] {
      StepKeepsInv(s, run[0]);
      StepKeepsDiscipline(s, run[0]);
      DisciplinedRunInv(Apply(s, run[0]), run[1..]);
    }
  }

  /** No disciplined run from the start deadlocks: unless all is quiet, some goroutine can take
      the next step of its call or unlock what it holds. */
  lemma DeadlockFree(init: State, run: seq<Action>)
    requires Init(init) && DisciplinedRun(init, run)
    ensures ValidRun(init, run)
    ensures Quiescent(After(init, run)) || exists a :: Draining(After(init, run), a)
  {
    InitInv(init);
    DisciplinedRunInv(init, run);
    if !Quiescent(After(init, run)) {
      var a := Progress(After(init, run));
    }
  }

  ghost predicate DrainRun(s: State, run: seq<Action>)
    decreases |run|
  {
    run == [] || (Draining(s, run[0]) && DrainRun(Apply(s, run[0]), run[1..]))
  }

  ghost function DrainAfter(s: State, run: seq<Action>): State
    requires DrainRun(s, run)
    decreases |run|
  {
    if run == [] then s else DrainAfter(Apply(s, run[0]), run[1..])
  }

  /** From every disciplined state the pending calls can all finish, and then nothing is left:
      every goroutine is idle, every Lock value is free, and the registry is empty. */
  lemma {:induction false} CallsCanFinish(s: State) returns (run: seq<Action>)
    requires Inv(s) && Discipline(s)
    ensures DrainRun(s, run) && Quiescent(DrainAfter(s, run)) && DrainAfter(s, run).registry == map[]
    decreases Rank1(s), Rank2(s), Rank3(s), Rank4(s)
  {
    if Quiescent(s) {
      run := [];
      RegistryReclaimed(s);
    } else {
      var a := Progress(s);
      StepKeepsInv(s, a);
      StepKeepsDiscipline(s, a);
      DrainingLowers(s, a);
      var rest := CallsCanFinish(Apply(s, a));
      run := [a] + rest;
      assert run[1..] == rest;
    }
  }

  /** However the pending calls are scheduled, they do not run for ever: there is no infinite
      run without a new call to Lock or Clean. With Progress, every such run that is not
      abandoned ends with all calls returned. */
  lemma {:induction false} NoEndlessDrain(states: nat -> State, actions: nat -> Action)
    requires Inv(states(0)) && Discipline(states(0))
    requires forall n: nat :: Draining(states(n), actions(n)) && states(n + 1) == Apply(states(n), actions(n))
    ensures false
    decreases Rank1(states(0)), Rank2(states(0)), Rank3(states(0)), Rank4(states(0))
  {
    assert states(0 + 1) == Apply(states(0), actions(0));
    StepKeepsInv(states(0), actions(0));
    StepKeepsDiscipline(states(0), actions(0));
    DrainingLowers(states(0), actions(0));
    NoEndlessDrain((n: nat) => states(n + 1), (n: nat) => actions(n + 1));
  }
}
