/** areDataColumnsAvailable of beacon-chain/blockchain/process_block.go, for one
    block root, beside the goroutines that save columns of any block and publish
    them on the storage's one feed (beacon-chain/db/filesystem/data_column.go). */
module DataColumnWaiting {
  import opened Totals

  type Column = nat
  type Root = nat

  /** The root that is waited for, the columns to custody, the number needed for reconstruction,
      and the number there are. */
  datatype Config = Config(root: Root, custody: set<Column>, threshold: nat, columns: nat)

  /** What a saver publishes: columns of one root. */
  datatype Event = Event(root: Root, indices: seq<Column>)

  /** What the loop over the indices of one event leaves. */
  datatype Outcome = Available | StillMissing(missing: set<Column>, count: nat)

  /** The loop over idents.Indices. */
  method ConsumeEvent(missing0: set<Column>, count0: nat, indices: seq<Column>, threshold: nat) returns (r: Outcome)
    ensures r == Consumed(missing0, count0, indices, threshold)
  {
    var missing: set<Column>, count: nat := missing0, count0;
    for k := 0 to |indices|
      invariant Consumed(missing0, count0, indices, threshold) == Consumed(missing, count, indices[k..], threshold)
    {
      var index := indices[k];
      assert indices[k..][1..] == indices[k + 1..];
      if index in missing {
        count := count + 1;
      }
      if count >= threshold {
        return Available;
      }
      missing := missing - {index};
      if missing == {} {
        return Available;
      }
    }
    return StillMissing(missing, count);
  }

  function Consumed(missing: set<Column>, count: nat, indices: seq<Column>, threshold: nat): Outcome {
    if indices == [] then StillMissing(missing, count)
    else
      var count' := if indices[0] in missing then count + 1 else count;
      var missing' := missing - {indices[0]};
      if count' >= threshold || missing' == {} then Available
      else Consumed(missing', count', indices[1..], threshold)
  }

  /** History: the columns counted after one event. */
  function CountedAfter(missing: set<Column>, counted: set<Column>, indices: seq<Column>): set<Column> {
    if indices == [] then counted
    else CountedAfter(missing - {indices[0]}, if indices[0] in missing then counted + {indices[0]} else counted, indices[1..])
  }

  datatype Lacking = TooManyColumns | Columns(missing: set<Column>)

  /** missingDataColumnIndices */
  method MissingDataColumns(stored: set<Column>, expected: set<Column>, columns: nat) returns (r: Lacking)
    ensures r == LackingOf(stored, expected, columns)
  {
    if |expected| == 0 {
      assert expected == {};
      return Columns({});
    }
    if |expected| > columns {
      return TooManyColumns;
    }
    var missing: set<Column> := {};
    var todo := expected;
    while todo != {}
      invariant todo <= expected
      invariant missing == expected - todo - stored
      decreases |todo|
    {
      var column :| column in todo;
      todo := todo - {column};
      if column !in stored {
        missing := missing + {column};
      }
    }
    return Columns(missing);
  }

  function LackingOf(stored: set<Column>, expected: set<Column>, columns: nat): Lacking {
    if expected != {} && |expected| > columns then TooManyColumns else Columns(expected - stored)
  }

  /** A goroutine in DataColumnStorage.Save: the cache is updated, the feed not yet. */
  datatype Saver = Idle | Publishing(event: Event)

  /** The waiting call. `counted` is a history variable: the columns behind `count`. */
  datatype Waiter =
    | Starting                                             // Subscribe
    | Subscribed                                           // Summary(root).Count()
    | Counted(count: nat, counted: set<Column>)            // missingDataColumnIndices
    | Waiting(missing: set<Column>, count: nat, counted: set<Column>)
    | Succeeded
    | Failed

  /** `stored` are the columns of the root that is waited for. */
  datatype State = State(stored: set<Column>, savers: seq<Saver>, feed: seq<Event>, waiter: Waiter)

  datatype Action =
    | Save(p: nat, event: Event)
    | Publish(p: nat)
    | Subscribe
    | Count
    | Check
    | Receive
    | Cancel

  predicate Listening(w: Waiter) {
    w.Subscribed? || w.Counted? || w.Waiting?
  }

  predicate Enabled(s: State, a: Action) {
    match a
    case Save(p, _) => p < |s.savers| && s.savers[p].Idle?
    case Publish(p) => p < |s.savers| && s.savers[p].Publishing? && (Listening(s.waiter) ==> |s.feed| < 1)
    case Subscribe => s.waiter.Starting?
    case Count => s.waiter.Subscribed?
    case Check => s.waiter.Counted?
    case Receive => s.waiter.Waiting? && s.feed != []
    case Cancel => s.waiter.Waiting?
  }

  function ToSet(indices: seq<Column>): set<Column> {
    set i | i in indices
  }

  function CountStep(cfg: Config, s: State): State {
    if |s.stored| >= cfg.threshold then s.(waiter := Succeeded) else s.(waiter := Counted(|s.stored|, s.stored))
  }

  function CheckStep(cfg: Config, s: State): State
    requires s.waiter.Counted?
  {
    match LackingOf(s.stored, cfg.custody, cfg.columns)
    case TooManyColumns => s.(waiter := Failed)
    case Columns(missing) =>
      s.(waiter := if missing == {} then Succeeded else Waiting(missing, s.waiter.count, s.waiter.counted))
  }

  function ReceiveStep(cfg: Config, s: State): State
    requires s.waiter.Waiting? && s.feed != []
  {
    var w := s.waiter;
    var rest := s.(feed := s.feed[1..]);
    var event := s.feed[0];
    if event.root != cfg.root then rest
    else match Consumed(w.missing, w.count, event.indices, cfg.threshold)
      case Available => rest.(waiter := Succeeded)
      case StillMissing(missing, count) =>
        rest.(waiter := Waiting(missing, count, CountedAfter(w.missing, w.counted, event.indices)))
  }

  function Apply(cfg: Config, s: State, a: Action): State
    requires Enabled(s, a)
  {
    match a
    case Save(p, event) =>
      s.(stored := if event.root == cfg.root then s.stored + ToSet(event.indices) else s.stored,
         savers := s.savers[p := Publishing(event)])
    case Publish(p) =>
      s.(savers := s.savers[p := Idle],
         feed := if Listening(s.waiter) then s.feed + [s.savers[p].event] else s.feed)
    case Subscribe => s.(waiter := Subscribed)
    case Count => CountStep(cfg, s)
    case Check => CheckStep(cfg, s)
    case Receive => ReceiveStep(cfg, s)
    case Cancel => s.(waiter := Failed)
  }

  /** Columns already stored or not, no save in progress, and a call that starts. */
  ghost predicate Init(s: State) {
    s.waiter.Starting? && s.feed == [] && forall p :: 0 <= p < |s.savers| ==> s.savers[p].Idle?
  }

  // ------------------------------------------------------------- invariant

  /** What makes the block available. */
  ghost predicate EnoughStored(cfg: Config, s: State) {
    |s.stored| >= cfg.threshold || cfg.custody <= s.stored
  }

  /** The event is about this column of the root that is waited for. */
  predicate Tells(cfg: Config, e: Event, c: Column) {
    e.root == cfg.root && c in e.indices
  }

  /** The event of a column is still to be published or to be received. */
  ghost predicate Announced(cfg: Config, s: State, c: Column) {
    || (exists p :: 0 <= p < |s.savers| && s.savers[p].Publishing? && Tells(cfg, s.savers[p].event, c))
    || (exists k :: 0 <= k < |s.feed| && Tells(cfg, s.feed[k], c))
  }

  ghost predicate WaiterOk(cfg: Config, s: State) {
    match s.waiter
    case Counted(count, counted) => count == |counted| && counted <= s.stored && count < cfg.threshold
    case Waiting(missing, count, counted) =>
      && count < cfg.threshold
      && CountOk(missing, count, counted, s.stored)
      && missing != {} && missing <= cfg.custody && cfg.custody - missing <= s.stored
      && forall c :: c in missing && c in s.stored ==> Announced(cfg, s, c)
    case Succeeded => EnoughStored(cfg, s)
    case _ => true
  }

  ghost predicate Inv(cfg: Config, s: State) {
    && (forall p, c :: 0 <= p < |s.savers| && s.savers[p].Publishing? && Tells(cfg, s.savers[p].event, c) ==> c in s.stored)
    && (forall k, c :: 0 <= k < |s.feed| && Tells(cfg, s.feed[k], c) ==> c in s.stored)
    && WaiterOk(cfg, s)
  }

  /** The counter stands for distinct stored columns that are not missing. */
  ghost predicate CountOk(missing: set<Column>, count: nat, counted: set<Column>, stored: set<Column>) {
    count == |counted| && counted <= stored && counted !! missing
  }

  /** The running counter counts distinct stored columns, each once, whatever the events. */
  lemma {:induction false} ConsumedSound(missing: set<Column>, count: nat, counted: set<Column>, indices: seq<Column>,
                                         threshold: nat, stored: set<Column>)
    requires CountOk(missing, count, counted, stored) && missing != {} && forall c :: c in indices ==> c in stored
    ensures match Consumed(missing, count, indices, threshold)
      case Available => |stored| >= threshold || missing <= stored
      case StillMissing(missing', count') =>
        && CountOk(missing', count', CountedAfter(missing, counted, indices), stored)
        && missing' != {} && (count < threshold ==> count' < threshold)
        && forall c :: c in missing' <==> c in missing && c !in indices
    decreases |indices|
  {
    if indices != [] {
      var c, rest := indices[0], indices[1..];
      assert forall d :: d in indices <==> d == c || d in rest;
      var counted' := if c in missing then counted + {c} else counted;
      assert CountOk(missing - {c}, |counted'|, counted', stored);
      SubsetSize(counted', stored);
      if |counted'| < threshold && missing - {c} != {} {
        ConsumedSound(missing - {c}, |counted'|, counted', rest, threshold, stored);
      }
    }
  }

  /** The missing columns that the indices name, each counted once. */
  function Told(missing: set<Column>, indices: seq<Column>): nat {
    if indices == [] then 0
    else (if indices[0] in missing then 1 else 0) + Told(missing - {indices[0]}, indices[1..])
  }

  function Left(missing: set<Column>, indices: seq<Column>): (left: set<Column>)
    ensures left <= missing
  {
    if indices == [] then missing else Left(missing - {indices[0]}, indices[1..])
  }

  lemma {:induction false} LeftIsRest(missing: set<Column>, indices: seq<Column>)
    ensures Left(missing, indices) == missing - ToSet(indices)
    decreases |indices|
  {
    if indices != [] {
      var c, rest := indices[0], indices[1..];
      assert indices == [c] + rest;
      LeftIsRest(missing - {c}, rest);
    }
  }

  lemma MeetSize(missing: set<Column>, c: Column, named: set<Column>)
    ensures |missing * ({c} + named)| == |(missing - {c}) * named| + if c in missing then 1 else 0
  {
    var told := (missing - {c}) * named;
    if c in missing {
      assert missing * ({c} + named) == told + {c};
    } else {
      assert missing * ({c} + named) == told;
    }
  }

  lemma {:induction false} ToldIsSize(missing: set<Column>, indices: seq<Column>)
    ensures Told(missing, indices) == |missing * ToSet(indices)|
    decreases |indices|
  {
    if indices == [] {
      assert missing * ToSet(indices) == {};
    } else {
      var c, rest := indices[0], indices[1..];
      assert indices == [c] + rest;
      assert ToSet(indices) == {c} + ToSet(rest);
      ToldIsSize(missing - {c}, rest);
      MeetSize(missing, c, ToSet(rest));
    }
  }

  lemma {:induction false} ConsumedInSteps(missing: set<Column>, count: nat, indices: seq<Column>, threshold: nat)
    ensures Consumed(missing, count, indices, threshold) ==
      if indices != [] && (count + Told(missing, indices) >= threshold || Left(missing, indices) == {}) then Available
      else StillMissing(Left(missing, indices), count + Told(missing, indices))
    decreases |indices|
  {
    if indices != [] {
      var c := indices[0];
      ConsumedInSteps(missing - {c}, if c in missing then count + 1 else count, indices[1..], threshold);
    }
  }

  /** Whatever the order and the repetitions in an event: it makes the block available exactly if
      it names a column, and its missing columns reach the threshold with those counted before or
      nothing is missing any more. */
  lemma ConsumedExactly(missing: set<Column>, count: nat, indices: seq<Column>, threshold: nat)
    ensures Consumed(missing, count, indices, threshold) ==
      if indices != [] && (count + |missing * ToSet(indices)| >= threshold || missing - ToSet(indices) == {}) then Available
      else StillMissing(missing - ToSet(indices), count + |missing * ToSet(indices)|)
  {
    ConsumedInSteps(missing, count, indices, threshold);
    ToldIsSize(missing, indices);
    LeftIsRest(missing, indices);
  }

  lemma SubsetSize<T>(a: set<T>, b: set<T>)
    requires a <= b
    ensures |a| <= |b|
  {
    assert b == a + (b - a);
  }

  lemma CheckKeeps(cfg: Config, s: State)
    requires Inv(cfg, s) && Enabled(s, Check)
    ensures WaiterOk(cfg, CheckStep(cfg, s))
  {
    assert forall c :: c in cfg.custody ==> c in cfg.custody - s.stored || c in s.stored;
  }

  lemma ReceiveKeeps(cfg: Config, s: State)
    requires Inv(cfg, s) && Enabled(s, Receive)
    ensures WaiterOk(cfg, ReceiveStep(cfg, s))
  {
    var w, event := s.waiter, s.feed[0];
    var s' := ReceiveStep(cfg, s);
    if event.root == cfg.root {
      assert forall c :: c in event.indices ==> Tells(cfg, s.feed[0], c);
      ConsumedSound(w.missing, w.count, w.counted, event.indices, cfg.threshold, s.stored);
    }
    if s'.waiter.Waiting? {
      forall c | c in s'.waiter.missing && c in s'.stored ensures Announced(cfg, s', c) {
        assert Announced(cfg, s, c);
        if k :| 0 <= k < |s.feed| && Tells(cfg, s.feed[k], c) {
          assert s'.feed[k - 1] == s.feed[k];
        }
      }
    }
  }

  lemma SaveKeeps(cfg: Config, s: State, p: nat, event: Event)
    requires Inv(cfg, s) && Enabled(s, Save(p, event))
    ensures WaiterOk(cfg, Apply(cfg, s, Save(p, event)))
  {
    var s' := Apply(cfg, s, Save(p, event));
    SubsetSize(s.stored, s'.stored);
    if s.waiter.Waiting? {
      forall c | c in s.waiter.missing && c in s'.stored ensures Announced(cfg, s', c) {
        if c in s.stored {
          assert Announced(cfg, s, c);
          if q :| 0 <= q < |s.savers| && s.savers[q].Publishing? && Tells(cfg, s.savers[q].event, c) {
            assert s'.savers[q] == s.savers[q];
          }
        } else {
          assert s'.savers[p].Publishing? && Tells(cfg, s'.savers[p].event, c);
        }
      }
    }
  }

  lemma PublishKeeps(cfg: Config, s: State, p: nat)
    requires Inv(cfg, s) && Enabled(s, Publish(p))
    ensures WaiterOk(cfg, Apply(cfg, s, Publish(p)))
  {
    var s' := Apply(cfg, s, Publish(p));
    if s.waiter.Waiting? {
      forall c | c in s.waiter.missing && c in s.stored ensures Announced(cfg, s', c) {
        assert Announced(cfg, s, c);
        if q :| 0 <= q < |s.savers| && s.savers[q].Publishing? && Tells(cfg, s.savers[q].event, c) {
          if q == p {
            assert Tells(cfg, s'.feed[|s.feed|], c);
          } else {
            assert s'.savers[q] == s.savers[q];
          }
        }
      }
    }
  }

  lemma StepKeepsInv(cfg: Config, s: State, a: Action)
    requires Inv(cfg, s) && Enabled(s, a)
    ensures Inv(cfg, Apply(cfg, s, a))
  {
    match a
    case Save(p, event) => SaveKeeps(cfg, s, p, event);
    case Publish(p) => PublishKeeps(cfg, s, p);
    case Receive => ReceiveKeeps(cfg, s);
    case Check => CheckKeeps(cfg, s);
    case _ =>
  }

  // ------------------------------------------------------ main results

  ghost predicate ValidRun(cfg: Config, s: State, run: seq<Action>)
    decreases |run|
  {
    run == [] || (Enabled(s, run[0]) && ValidRun(cfg, Apply(cfg, s, run[0]), run[1..]))
  }

  ghost function After(cfg: Config, s: State, run: seq<Action>): State
    requires ValidRun(cfg, s, run)
    decreases |run|
  {
    if run == [] then s else After(cfg, Apply(cfg, s, run[0]), run[1..])
  }

  lemma {:induction false} RunKeepsInv(cfg: Config, s: State, run: seq<Action>)
    requires Inv(cfg, s) && ValidRun(cfg, s, run)
    ensures Inv(cfg, After(cfg, s, run))
    decreases |run|
  {
    if run != [] {
      StepKeepsInv(cfg, s, run[0]);
      RunKeepsInv(cfg, Apply(cfg, s, run[0]), run[1..]);
    }
  }

  /** Under any interleaving of saves and duplicate events, success means that the
      reconstruction threshold or all custody columns are stored, the running counter never
      exceeds the number of distinct stored columns, and the event of every stored column that
      the call still misses is on its way. */
  lemma ColumnWaitingSound(cfg: Config, init: State, run: seq<Action>)
    requires Init(init) && ValidRun(cfg, init, run)
    ensures var s := After(cfg, init, run);
      && (s.waiter.Succeeded? ==> |s.stored| >= cfg.threshold || cfg.custody <= s.stored)
      && (s.waiter.Counted? || s.waiter.Waiting? ==> s.waiter.count <= |s.stored|)
      && (s.waiter.Waiting? ==> forall c :: c in s.waiter.missing && c in s.stored ==> Announced(cfg, s, c))
  {
    RunKeepsInv(cfg, init, run);
    var s := After(cfg, init, run);
    if s.waiter.Counted? || s.waiter.Waiting? {
      SubsetSize(s.waiter.counted, s.stored);
    }
  }

  lemma Prepend(cfg: Config, s: State, a: Action, rest: seq<Action>)
    requires Enabled(s, a) && ValidRun(cfg, Apply(cfg, s, a), rest)
    ensures ValidRun(cfg, s, [a] + rest) && After(cfg, s, [a] + rest) == After(cfg, Apply(cfg, s, a), rest)
  {
    assert ([a] + rest)[1..] == rest;
  }

  function PublishWorks(s: State): seq<nat> {
    seq(|s.savers|, p requires 0 <= p < |s.savers| => if s.savers[p].Publishing? then 1 else 0)
  }

  /** Statements left before the call waits for events. */
  function Phase(w: Waiter): nat {
    match w case Starting => 3 case Subscribed => 2 case Counted(_, _) => 1 case _ => 0
  }

  /** The columns saved so far lead to success: all custody columns, or as many as the threshold.
      Once the call has counted the stored columns, only those count that it missed and that are
      announced to it. */
  ghost predicate Suffices(cfg: Config, s: State) {
    || cfg.custody <= s.stored
    || match s.waiter
       case Starting => |s.stored| >= cfg.threshold
       case Subscribed => |s.stored| >= cfg.threshold
       case Waiting(missing, count, _) => count + |missing * s.stored| >= cfg.threshold
       case Succeeded => true
       case _ => false
  }

  lemma MeetSplits(missing: set<Column>, told: set<Column>, stored: set<Column>)
    requires told <= stored
    ensures |missing * stored| == |(missing - told) * stored| + |missing * told|
    ensures missing - told <= stored <==> missing <= stored
  {
    assert missing * stored == (missing - told) * stored + missing * told;
    assert (missing - told) * stored !! missing * told;
    assert forall c :: c in missing ==> c in missing - told || c in told;
  }

  lemma ConsumedKeepsReach(missing: set<Column>, count: nat, indices: seq<Column>, threshold: nat, stored: set<Column>)
    requires ToSet(indices) <= stored
    ensures match Consumed(missing, count, indices, threshold)
      case Available => count + |missing * stored| >= threshold || missing <= stored
      case StillMissing(missing', count') => count' + |missing' * stored| == count + |missing * stored|
  {
    ConsumedExactly(missing, count, indices, threshold);
    MeetSplits(missing, ToSet(indices), stored);
  }

  lemma ReceiveKeepsSuffices(cfg: Config, s: State)
    requires Inv(cfg, s) && Enabled(s, Receive)
    ensures Suffices(cfg, ReceiveStep(cfg, s)) <==> Suffices(cfg, s)
  {
    var w, event := s.waiter, s.feed[0];
    if event.root == cfg.root {
      assert ToSet(event.indices) <= s.stored by {
        assert forall c :: c in event.indices ==> Tells(cfg, s.feed[0], c);
      }
      ConsumedKeepsReach(w.missing, w.count, event.indices, cfg.threshold, s.stored);
      CustodyOrMissing(cfg, s);
    }
  }

  lemma CustodyOrMissing(cfg: Config, s: State)
    requires WaiterOk(cfg, s) && s.waiter.Waiting?
    ensures cfg.custody <= s.stored <==> s.waiter.missing <= s.stored
  {
    assert forall c :: c in cfg.custody ==> c in s.waiter.missing || c in cfg.custody - s.waiter.missing;
  }

  /** No statement of the call and no event on its way changes what the saved columns lead to. */
  lemma SufficesKept(cfg: Config, s: State, a: Action)
    requires Inv(cfg, s) && Enabled(s, a) && !a.Save? && !a.Cancel? && |cfg.custody| <= cfg.columns
    ensures Suffices(cfg, Apply(cfg, s, a)) <==> Suffices(cfg, s)
  {
    match a
    case Receive => ReceiveKeepsSuffices(cfg, s);
    case Check => CheckKeepsSuffices(cfg, s);
    case _ =>
  }

  lemma CheckKeepsSuffices(cfg: Config, s: State)
    requires WaiterOk(cfg, s) && s.waiter.Counted? && |cfg.custody| <= cfg.columns
    ensures Suffices(cfg, CheckStep(cfg, s)) <==> Suffices(cfg, s)
  {
    assert (cfg.custody - s.stored) * s.stored == {};
    assert forall c :: c in cfg.custody ==> c in cfg.custody - s.stored || c in s.stored;
  }

  predicate NoSave(run: seq<Action>) {
    forall a :: a in run ==> !a.Save?
  }

  /** Once the saved columns suffice, the call is not stuck wherever it is: its own statements
      and the events that are on their way lead it to success. */
  lemma {:induction false} ColumnsCanFinish(cfg: Config, s: State) returns (run: seq<Action>)
    requires Inv(cfg, s) && !s.waiter.Failed? && Suffices(cfg, s) && |cfg.custody| <= cfg.columns
    ensures ValidRun(cfg, s, run) && After(cfg, s, run).waiter.Succeeded? && Cancel !in run && NoSave(run)
    decreases Phase(s.waiter), Total(PublishWorks(s)), |s.feed|
  {
    if s.waiter.Succeeded? {
      run := [];
    } else {
      var a := NextForCall(cfg, s);
      StepKeepsInv(cfg, s, a);
      SufficesKept(cfg, s, a);
      NextLowers(cfg, s, a);
      var rest := ColumnsCanFinish(cfg, Apply(cfg, s, a));
      Prepend(cfg, s, a, rest);
      run := [a] + rest;
    }
  }

  lemma NextLowers(cfg: Config, s: State, a: Action)
    requires Enabled(s, a) && !a.Save? && !a.Cancel? && (a.Publish? ==> s.waiter.Waiting?)
    ensures var s' := Apply(cfg, s, a);
      || Phase(s'.waiter) < Phase(s.waiter)
      || (Phase(s'.waiter) == Phase(s.waiter) && Total(PublishWorks(s')) < Total(PublishWorks(s)))
      || (Phase(s'.waiter) == Phase(s.waiter) && Total(PublishWorks(s')) == Total(PublishWorks(s)) && |s'.feed| < |s.feed|)
  {
    var s' := Apply(cfg, s, a);
    if a.Publish? {
      TotalUpdate(PublishWorks(s), a.p, 0);
      assert PublishWorks(s') == PublishWorks(s)[a.p := 0];
    } else {
      assert PublishWorks(s') == PublishWorks(s);
    }
  }

  /** What brings a call on: its own next statement, or the event of a column that it misses. */
  lemma NextForCall(cfg: Config, s: State) returns (a: Action)
    requires Inv(cfg, s) && !s.waiter.Failed? && !s.waiter.Succeeded? && Suffices(cfg, s)
    ensures Enabled(s, a)
    ensures !a.Save? && !a.Cancel? && (a.Publish? ==> s.waiter.Waiting?)
  {
    if s.waiter.Waiting? && s.feed == [] {
      CustodyOrMissing(cfg, s);
      assert s.waiter.missing <= s.stored ==> s.waiter.missing * s.stored == s.waiter.missing;
      var c :| c in s.waiter.missing * s.stored;
      assert Announced(cfg, s, c);
      var p :| 0 <= p < |s.savers| && s.savers[p].Publishing? && Tells(cfg, s.savers[p].event, c);
      a := Publish(p);
    } else {
      a := match s.waiter case Starting => Subscribe case Subscribed => Count case Counted(_, _) => Check case _ => Receive;
    }
  }

  lemma {:induction false} SucceedsOnlyIf(cfg: Config, s: State, run: seq<Action>)
    requires Inv(cfg, s) && !s.waiter.Failed? && |cfg.custody| <= cfg.columns
    requires ValidRun(cfg, s, run) && NoSave(run) && After(cfg, s, run).waiter.Succeeded?
    ensures Suffices(cfg, s)
    decreases |run|
  {
    if run != [] {
      var s' := Apply(cfg, s, run[0]);
      StepKeepsInv(cfg, s, run[0]);
      if s'.waiter.Failed? {
        EndedStays(cfg, s', run[1..]);
      } else {
        SucceedsOnlyIf(cfg, s', run[1..]);
        SufficesKept(cfg, s, run[0]);
      }
    }
  }

  /** Without further saves, a call that has not failed can succeed exactly if what is saved
      suffices. */
  lemma SucceedsExactly(cfg: Config, s: State)
    requires Inv(cfg, s) && !s.waiter.Failed? && |cfg.custody| <= cfg.columns
    ensures Suffices(cfg, s) <==>
      exists run :: ValidRun(cfg, s, run) && NoSave(run) && After(cfg, s, run).waiter.Succeeded?
  {
    if Suffices(cfg, s) {
      var run := ColumnsCanFinish(cfg, s);
    }
    forall run | ValidRun(cfg, s, run) && NoSave(run) && After(cfg, s, run).waiter.Succeeded? ensures Suffices(cfg, s) {
      SucceedsOnlyIf(cfg, s, run);
    }
  }

  /** The threshold can be stored without the call succeeding, now or after any event on its way:
      a column outside the custody set, saved after the count, is never counted. */
  lemma UncountedColumn(root: Root)
    ensures var cfg := Config(root, {0}, 1, 128);
      var s := State({}, [Idle], [], Starting);
      var run := [Subscribe, Count, Save(0, Event(root, [1])), Check];
      && Init(s) && ValidRun(cfg, s, run)
      && |After(cfg, s, run).stored| >= cfg.threshold && !Suffices(cfg, After(cfg, s, run))
  {
    var cfg, s, save := Config(root, {0}, 1, 128), State({}, [Idle], [], Starting), Save(0, Event(root, [1]));
    var s1 := s.(waiter := Subscribed);
    var s2 := s.(waiter := Counted(0, {}));
    var s3 := State({1}, [Publishing(save.event)], [], Counted(0, {}));
    assert Apply(cfg, s2, save) == s3 by {
      assert ToSet([1]) == {1};
    }
    var s4 := s3.(waiter := Waiting({0}, 0, {}));
    assert Apply(cfg, s3, Check) == s4 by {
      assert {0} - {1} == {0};
    }
    assert !Suffices(cfg, s4) by {
      assert {0} * {1} == {};
      assert 0 in cfg.custody;
    }
    Prepend(cfg, s3, Check, []);
    Prepend(cfg, s2, save, [Check] + []);
    Prepend(cfg, s1, Count, [save] + ([Check] + []));
    Prepend(cfg, s, Subscribe, [Count] + ([save] + ([Check] + [])));
    assert [Subscribe] + ([Count] + ([save] + ([Check] + []))) == [Subscribe, Count, save, Check];
  }

  lemma Enumerate(columns: set<Column>) returns (indices: seq<Column>)
    ensures forall c :: c in indices <==> c in columns
  {
    if columns == {} {
      indices := [];
    } else {
      var c :| c in columns;
      var rest := Enumerate(columns - {c});
      indices := [c] + rest;
    }
  }

  /** Wherever a call is, the arrival of the custody columns leads it to success. */
  lemma ColumnsMakeAvailable(cfg: Config, s: State, p: nat) returns (run: seq<Action>)
    requires Inv(cfg, s) && !s.waiter.Failed? && |cfg.custody| <= cfg.columns
    requires p < |s.savers| && s.savers[p].Idle?
    ensures ValidRun(cfg, s, run) && After(cfg, s, run).waiter.Succeeded? && Cancel !in run
  {
    var indices := Enumerate(cfg.custody);
    var a := Save(p, Event(cfg.root, indices));
    StepKeepsInv(cfg, s, a);
    var rest := ColumnsCanFinish(cfg, Apply(cfg, s, a));
    run := [a] + rest;
    assert run[1..] == rest;
  }

  /** Over every run: a call fails exactly if it is cancelled, or if it comes to look for missing
      columns and there are more columns to custody than columns. */
  lemma {:induction false} FailsExactly(cfg: Config, s: State, run: seq<Action>)
    requires ValidRun(cfg, s, run) && !s.waiter.Failed?
    ensures After(cfg, s, run).waiter.Failed? <==> Cancel in run || (Check in run && |cfg.custody| > cfg.columns)
    decreases |run|
  {
    if run != [] {
      assert run == [run[0]] + run[1..];
      var s' := Apply(cfg, s, run[0]);
      if s'.waiter.Failed? || s'.waiter.Succeeded? {
        EndedStays(cfg, s', run[1..]);
      }
      if !s'.waiter.Failed? {
        FailsExactly(cfg, s', run[1..]);
      }
    }
  }

  lemma {:induction false} EndedStays(cfg: Config, s: State, run: seq<Action>)
    requires ValidRun(cfg, s, run) && (s.waiter.Failed? || s.waiter.Succeeded?)
    ensures After(cfg, s, run).waiter == s.waiter && Cancel !in run && Check !in run
    decreases |run|
  {
    if run != [] {
      EndedStays(cfg, Apply(cfg, s, run[0]), run[1..]);
    }
  }

  /** The call's own first statements: it succeeds at once if the threshold is stored or nothing
      to custody is missing, and otherwise comes to wait for exactly what is missing. */
  lemma FirstStatements(cfg: Config, s: State)
    requires s.waiter.Starting? && |cfg.custody| <= cfg.columns
    ensures ValidRun(cfg, s, [Subscribe, Count])
    ensures |s.stored| >= cfg.threshold ==> After(cfg, s, [Subscribe, Count]).waiter == Succeeded
    ensures |s.stored| < cfg.threshold ==>
      && ValidRun(cfg, s, [Subscribe, Count, Check])
      && After(cfg, s, [Subscribe, Count, Check]) ==
           s.(waiter := if cfg.custody <= s.stored then Succeeded
                        else Waiting(cfg.custody - s.stored, |s.stored|, s.stored))
  {
    var s1 := Apply(cfg, s, Subscribe);
    var s2 := Apply(cfg, s1, Count);
    Prepend(cfg, s1, Count, []);
    Prepend(cfg, s, Subscribe, [Count] + []);
    assert [Subscribe] + ([Count] + []) == [Subscribe, Count];
    if |s.stored| < cfg.threshold {
      Prepend(cfg, s2, Check, []);
      Prepend(cfg, s1, Count, [Check] + []);
      Prepend(cfg, s, Subscribe, [Count] + ([Check] + []));
      assert [Subscribe] + ([Count] + ([Check] + [])) == [Subscribe, Count, Check];
      assert forall c :: c in cfg.custody ==> c in cfg.custody - s.stored || c in s.stored;
    }
  }
}
