/** async/multilock.go as a state machine over the steps of its goroutines.

    A channel of the registry is a cell that holds at most one token. A step is
    one channel operation, one iteration of a loop, or one critical section that
    touches nothing visible outside the registry mutex (getChan). Three fields
    are history variables that no step tests: Channel.key, Channel.taker and
    Object.use; `mutex` records, besides being full or empty, who filled it. */
module MultilockProtocol {
  import opened MultilockKeys
  import opened Options

  /** Who received the token that is missing from an open channel. */
  datatype Taker = Nobody | ByLock(obj: nat, index: nat) | ByClean

  datatype Channel = Channel(key: Key, token: bool, closed: bool, taker: Taker)

  /** Between calls, inside a Lock or Unlock call of one goroutine, or locked. */
  datatype Use = Free | Inside(thread: nat) | HeldBy(thread: nat)

  /** A Lock value: its two one-slot channels and the channels it has taken. */
  datatype Object = Object(keys: seq<Key>, lockFull: bool, unlockFull: bool, chans: seq<nat>, use: Use)

  /** Where a Clean call returns to: its Unlock call, or the caller of Clean. */
  datatype Return = ToUnlock(obj: nat) | ToCaller

  datatype Pc =
    | Idle
    | LockEnter(obj: nat)                                   // lk.lock <- 1
    | Fetch(obj: nat, i: nat)                               // getChan(lk.keys[i])
    | Receive(obj: nat, i: nat, ch: nat)                    // _, ok := <-ch
    | LockExit(obj: nat)                                    // lk.unlock <- 1
    | UnlockEnter(obj: nat)                                 // <-lk.unlock
    | Release(obj: nat, i: nat)                             // lk.chans[i] <- 1
    | CleanEnter(ret: Return)                               // locks.lock <- 1
    | Sweep(ret: Return, todo: set<Key>, dead: set<Key>)    // for key, ch := range locks.list
    | Close(ret: Return, key: Key, todo: set<Key>, dead: set<Key>) // close(ch)
    | Delete(ret: Return, dead: set<Key>)                   // delete(locks.list, del), then <-locks.lock
    | UnlockExit(obj: nat)                                  // <-lk.lock

  datatype State = State(
    objs: seq<Object>,
    threads: seq<Pc>,
    channels: seq<Channel>,
    registry: map<Key, nat>,
    mutex: Option<nat>)

  datatype Action =
    | CallLock(t: nat, obj: nat)
    | CallUnlock(t: nat, obj: nat)
    | CallClean(t: nat)
    | Step(t: nat)              // the next statement of goroutine t
    | Visit(t: nat, key: Key)   // Clean's range loop, or its delete loop, reaches key

  function At(s: State, t: nat, pc: Pc): State
    requires t < |s.threads|
  {
    s.(threads := s.threads[t := pc])
  }

  function SetObject(s: State, o: nat, obj: Object): State
    requires o < |s.objs|
  {
    s.(objs := s.objs[o := obj])
  }

  function SetChannel(s: State, c: nat, ch: Channel): State
    requires c < |s.channels|
  {
    s.(channels := s.channels[c := ch])
  }

  /** The loop test of Lock: another key, or out of the loop. */
  function LockLoop(obj: Object, o: nat, i: nat): Pc {
    if i < |obj.keys| then Fetch(o, i) else LockExit(o)
  }

  // ---------------------------------------------------------------- Lock

  predicate CanEnterLock(s: State, t: nat, o: nat) {
    t < |s.threads| && o < |s.objs| && s.threads[t] == LockEnter(o) && !s.objs[o].lockFull
  }

  function EnterLock(s: State, t: nat, o: nat): State
    requires CanEnterLock(s, t, o)
  {
    var obj := s.objs[o].(lockFull := true, chans := [], use := Inside(t));
    At(SetObject(s, o, obj), t, LockLoop(obj, o, 0))
  }

  predicate CanFetch(s: State, t: nat, o: nat, i: nat) {
    t < |s.threads| && o < |s.objs| && s.threads[t] == Fetch(o, i) && i < |s.objs[o].keys| && s.mutex.None?
  }

  /** getChan: the registered channel, or a new one that holds its token. */
  function FetchChan(s: State, t: nat, o: nat, i: nat): State
    requires CanFetch(s, t, o, i)
  {
    var k := s.objs[o].keys[i];
    if k in s.registry then
      At(s, t, Receive(o, i, s.registry[k]))
    else
      var c := |s.channels|;
      At(s.(channels := s.channels + [Channel(k, true, false, Nobody)], registry := s.registry[k := c]),
         t, Receive(o, i, c))
  }

  predicate CanReceive(s: State, t: nat, o: nat, i: nat, c: nat) {
    && t < |s.threads| && o < |s.objs| && c < |s.channels|
    && s.threads[t] == Receive(o, i, c)
    && (s.channels[c].token || s.channels[c].closed)
  }

  /** A received token is kept; a closed channel sends the loop back to getChan. */
  function ReceiveToken(s: State, t: nat, o: nat, i: nat, c: nat): State
    requires CanReceive(s, t, o, i, c)
  {
    if s.channels[c].token then TakeToken(s, t, o, i, c) else At(s, t, Fetch(o, i))
  }

  function TakeToken(s: State, t: nat, o: nat, i: nat, c: nat): State
    requires t < |s.threads| && o < |s.objs| && c < |s.channels|
  {
    var obj := s.objs[o].(chans := s.objs[o].chans + [c]);
    var ch := s.channels[c].(token := false, taker := ByLock(o, i));
    At(SetObject(SetChannel(s, c, ch), o, obj), t, LockLoop(obj, o, i + 1))
  }

  predicate CanExitLock(s: State, t: nat, o: nat) {
    t < |s.threads| && o < |s.objs| && s.threads[t] == LockExit(o) && !s.objs[o].unlockFull
  }

  function ExitLock(s: State, t: nat, o: nat): State
    requires CanExitLock(s, t, o)
  {
    At(SetObject(s, o, s.objs[o].(unlockFull := true, use := HeldBy(t))), t, Idle)
  }

  // -------------------------------------------------------------- Unlock

  predicate CanEnterUnlock(s: State, t: nat, o: nat) {
    t < |s.threads| && o < |s.objs| && s.threads[t] == UnlockEnter(o) && s.objs[o].unlockFull
  }

  function EnterUnlock(s: State, t: nat, o: nat): State
    requires CanEnterUnlock(s, t, o)
  {
    At(SetObject(s, o, s.objs[o].(unlockFull := false, use := Inside(t))), t, Release(o, 0))
  }

  predicate CanRelease(s: State, t: nat, o: nat, i: nat) {
    && t < |s.threads| && o < |s.objs|
    && s.threads[t] == Release(o, i)
    && i <= |s.objs[o].chans|
    && (i < |s.objs[o].chans| ==>
          var c := s.objs[o].chans[i];
          c < |s.channels| && !s.channels[c].token && !s.channels[c].closed)
  }

  /** Puts one token back, or leaves the loop with lk.chans = nil. */
  function ReleaseToken(s: State, t: nat, o: nat, i: nat): State
    requires CanRelease(s, t, o, i)
  {
    if i < |s.objs[o].chans| then
      PutToken(s, t, o, i)
    else
      At(SetObject(s, o, s.objs[o].(chans := [])), t, CleanEnter(ToUnlock(o)))
  }

  function PutToken(s: State, t: nat, o: nat, i: nat): State
    requires CanRelease(s, t, o, i) && i < |s.objs[o].chans|
  {
    var c := s.objs[o].chans[i];
    At(SetChannel(s, c, s.channels[c].(token := true, taker := Nobody)), t, Release(o, i + 1))
  }

  predicate CanExitUnlock(s: State, t: nat, o: nat) {
    t < |s.threads| && o < |s.objs| && s.threads[t] == UnlockExit(o) && s.objs[o].lockFull
  }

  function ExitUnlock(s: State, t: nat, o: nat): State
    requires CanExitUnlock(s, t, o)
  {
    At(SetObject(s, o, s.objs[o].(lockFull := false, use := Free)), t, Idle)
  }

  // --------------------------------------------------------------- Clean

  predicate CanEnterClean(s: State, t: nat) {
    t < |s.threads| && s.threads[t].CleanEnter? && s.mutex.None?
  }

  function EnterClean(s: State, t: nat): State
    requires CanEnterClean(s, t)
  {
    At(s, t, Sweep(s.threads[t].ret, s.registry.Keys, {})).(mutex := Some(t))
  }

  predicate CanVisit(s: State, t: nat, k: Key) {
    && t < |s.threads| && s.threads[t].Sweep? && k in s.threads[t].todo
    && k in s.registry && s.registry[k] < |s.channels|
  }

  /** The select of Clean: take the token if there is one, else go on. */
  function VisitKey(s: State, t: nat, k: Key): State
    requires CanVisit(s, t, k)
  {
    var ch := s.channels[s.registry[k]];
    if ch.token || ch.closed then StealToken(s, t, k) else SkipKey(s, t, k)
  }

  function StealToken(s: State, t: nat, k: Key): State
    requires CanVisit(s, t, k)
  {
    var pc := s.threads[t];
    var c := s.registry[k];
    At(SetChannel(s, c, s.channels[c].(token := false, taker := ByClean)),
       t, Close(pc.ret, k, pc.todo - {k}, pc.dead))
  }

  function SkipKey(s: State, t: nat, k: Key): State
    requires CanVisit(s, t, k)
  {
    var pc := s.threads[t];
    At(s, t, Sweep(pc.ret, pc.todo - {k}, pc.dead))
  }

  predicate CanClose(s: State, t: nat) {
    && t < |s.threads| && s.threads[t].Close?
    && s.threads[t].key in s.registry && s.registry[s.threads[t].key] < |s.channels|
    && !s.channels[s.registry[s.threads[t].key]].closed
  }

  function CloseChan(s: State, t: nat): State
    requires CanClose(s, t)
  {
    var pc := s.threads[t];
    var c := s.registry[pc.key];
    At(SetChannel(s, c, s.channels[c].(closed := true)), t, Sweep(pc.ret, pc.todo, pc.dead + {pc.key}))
  }

  predicate CanEndSweep(s: State, t: nat) {
    t < |s.threads| && s.threads[t].Sweep? && s.threads[t].todo == {}
  }

  function EndSweep(s: State, t: nat): State
    requires CanEndSweep(s, t)
  {
    At(s, t, Delete(s.threads[t].ret, s.threads[t].dead))
  }

  predicate CanDelete(s: State, t: nat, k: Key) {
    t < |s.threads| && s.threads[t].Delete? && k in s.threads[t].dead
  }

  function DeleteKey(s: State, t: nat, k: Key): State
    requires CanDelete(s, t, k)
  {
    var pc := s.threads[t];
    At(s, t, Delete(pc.ret, pc.dead - {k})).(registry := s.registry - {k})
  }

  predicate CanLeaveClean(s: State, t: nat) {
    t < |s.threads| && s.threads[t].Delete? && s.threads[t].dead == {}
  }

  function LeaveClean(s: State, t: nat): State
    requires CanLeaveClean(s, t)
  {
    var ret := s.threads[t].ret;
    At(s, t, if ret.ToUnlock? then UnlockExit(ret.obj) else Idle).(mutex := None)
  }

  // ----------------------------------------------------------------- runs

  predicate CanStep(s: State, t: nat) {
    t < |s.threads| &&
    match s.threads[t]
    case Idle => false
    case LockEnter(o) => CanEnterLock(s, t, o)
    case Fetch(o, i) => CanFetch(s, t, o, i)
    case Receive(o, i, c) => CanReceive(s, t, o, i, c)
    case LockExit(o) => CanExitLock(s, t, o)
    case UnlockEnter(o) => CanEnterUnlock(s, t, o)
    case Release(o, i) => CanRelease(s, t, o, i)
    case CleanEnter(_) => CanEnterClean(s, t)
    case Sweep(_, _, _) => CanEndSweep(s, t)
    case Close(_, _, _, _) => CanClose(s, t)
    case Delete(_, _) => CanLeaveClean(s, t)
    case UnlockExit(o) => CanExitUnlock(s, t, o)
  }

  function DoStep(s: State, t: nat): State
    requires CanStep(s, t)
  {
    match s.threads[t]
    case LockEnter(o) => EnterLock(s, t, o)
    case Fetch(o, i) => FetchChan(s, t, o, i)
    case Receive(o, i, c) => ReceiveToken(s, t, o, i, c)
    case LockExit(o) => ExitLock(s, t, o)
    case UnlockEnter(o) => EnterUnlock(s, t, o)
    case Release(o, i) => ReleaseToken(s, t, o, i)
    case CleanEnter(_) => EnterClean(s, t)
    case Sweep(_, _, _) => EndSweep(s, t)
    case Close(_, _, _, _) => CloseChan(s, t)
    case Delete(_, _) => LeaveClean(s, t)
    case UnlockExit(o) => ExitUnlock(s, t, o)
  }

  predicate Enabled(s: State, a: Action) {
    a.t < |s.threads| &&
    match a
    case CallLock(t, o) => s.threads[t].Idle? && o < |s.objs|
    case CallUnlock(t, o) => s.threads[t].Idle? && o < |s.objs|
    case CallClean(t) => s.threads[t].Idle?
    case Step(t) => CanStep(s, t)
    case Visit(t, k) => CanVisit(s, t, k) || CanDelete(s, t, k)
  }

  function Apply(s: State, a: Action): State
    requires Enabled(s, a)
  {
    match a
    case CallLock(t, o) => At(s, t, LockEnter(o))
    case CallUnlock(t, o) => At(s, t, UnlockEnter(o))
    case CallClean(t) => At(s, t, CleanEnter(ToCaller))
    case Step(t) => DoStep(s, t)
    case Visit(t, k) => if CanVisit(s, t, k) then VisitKey(s, t, k) else DeleteKey(s, t, k)
  }

  /** Any number of goroutines and Lock values, no call in progress. */
  ghost predicate Init(s: State) {
    && (forall o :: 0 <= o < |s.objs| ==>
          StrictlySorted(s.objs[o].keys) && s.objs[o] == Object(s.objs[o].keys, false, false, [], Free))
    && (forall t :: 0 <= t < |s.threads| ==> s.threads[t] == Idle)
    && s.channels == [] && s.registry == map[] && s.mutex == None
  }

  ghost predicate ValidRun(s: State, run: seq<Action>)
    decreases |run|
  {
    run == [] || (Enabled(s, run[0]) && ValidRun(Apply(s, run[0]), run[1..]))
  }

  ghost function After(s: State, run: seq<Action>): State
    requires ValidRun(s, run)
    decreases |run|
  {
    if run == [] then s else After(Apply(s, run[0]), run[1..])
  }
}
