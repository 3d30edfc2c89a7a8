/** Blob availability as a protocol: goroutines that save a blob and announce its
    index (receive_blob.go), and at most one goroutine per block root that waits
    for the block's blobs (areBlobsAvailable in process_block.go; receive_block.go
    refuses to process a root that is already being processed). */
module BlobWaiting {
  import opened BlobNotifier
  import opened Options
  import opened Totals

  /** The limit on blobs per block, and which commitments of a block are non-empty. */
  datatype Config = Config(max: Root -> nat, commitments: Root -> seq<bool>)

  datatype Queue = Queue(root: Root, cap: nat, items: seq<nat>)

  datatype Producer =
    | Idle
    | Received(root: Root, idx: nat)          // blobStorage.Save(b)
    | Saved(root: Root, idx: nat)             // notifyIndex, up to bn.Unlock()
    | Sending(root: Root, idx: nat, ch: nat)  // c <- idx

  datatype Waiter =
    | Checking                            // missingBlobIndices
    | NeedChannel(missing: set<nat>)      // blobNotifiers.forRoot
    | Waiting(ch: nat, missing: set<nat>) // idx := <-nc
    | Cleanup                             // blobNotifiers.delete, return nil

  datatype State = State(
    disk: set<(Root, nat)>,
    reg: Registry,
    queues: seq<Queue>,
    producers: seq<Producer>,
    waiters: map<Root, Waiter>,
    available: set<Root>)                 // roots for which areBlobsAvailable has returned nil

  datatype Action =
    | Receive(p: nat, root: Root, idx: nat)
    | Save(p: nat)
    | SaveFails(p: nat)
    | Notify(p: nat)
    | Send(p: nat)
    | Begin(waiter: Root)
    | Check(waiter: Root)
    | Subscribe(waiter: Root)
    | Take(waiter: Root)
    | Finish(waiter: Root)
    | Abort(waiter: Root)                 // ctx.Done()

  function Stored(s: State, root: Root): set<nat> {
    set x | x in s.disk && x.0 == root :: x.1
  }

  predicate Committed(cfg: Config, root: Root, i: nat) {
    i < |cfg.commitments(root)| && cfg.commitments(root)[i]
  }

  function SetProducer(s: State, p: nat, pr: Producer): State
    requires p < |s.producers|
  {
    s.(producers := s.producers[p := pr])
  }

  /** Adds an empty channel if the registry has made one. */
  function WithQueue(cfg: Config, s: State, root: Root, reg: Registry): State {
    s.(reg := reg,
       queues := if reg.channels > s.reg.channels then s.queues + [Queue(root, cfg.max(root), [])] else s.queues)
  }

  // ------------------------------------------------------------- producers

  predicate CanNotify(cfg: Config, s: State, p: nat) {
    && p < |s.producers| && s.producers[p].Saved?
    && (s.producers[p].root in s.reg.seen ==> |s.reg.seen[s.producers[p].root]| == cfg.max(s.producers[p].root))
  }

  function NotifyStep(cfg: Config, s: State, p: nat): State
    requires CanNotify(cfg, s, p)
  {
    var pr := s.producers[p];
    var (reg, ch) := Notified(s.reg, pr.root, pr.idx, cfg.max(pr.root));
    if ch.None? then SetProducer(s, p, Idle)
    else SetProducer(WithQueue(cfg, s, pr.root, reg), p, Sending(pr.root, pr.idx, ch.value))
  }

  predicate CanSend(s: State, p: nat) {
    && p < |s.producers| && s.producers[p].Sending? && s.producers[p].ch < |s.queues|
    && |s.queues[s.producers[p].ch].items| < s.queues[s.producers[p].ch].cap
  }

  function SendStep(s: State, p: nat): State
    requires CanSend(s, p)
  {
    var pr := s.producers[p];
    var q := s.queues[pr.ch];
    SetProducer(s.(queues := s.queues[pr.ch := q.(items := q.items + [pr.idx])]), p, Idle)
  }

  // --------------------------------------------------------------- waiters

  function CheckStep(cfg: Config, s: State, root: Root): State
    requires root in s.waiters
  {
    match MissingOf(Stored(s, root), cfg.commitments(root), cfg.max(root))
    case TooManyBlobs => s.(waiters := s.waiters - {root})
    case Indices(missing) =>
      if missing == {} then s.(waiters := s.waiters - {root}, available := s.available + {root})
      else s.(waiters := s.waiters[root := NeedChannel(missing)])
  }

  function SubscribeStep(cfg: Config, s: State, root: Root): State
    requires root in s.waiters && s.waiters[root].NeedChannel?
  {
    var reg := WithChannel(s.reg, root);
    WithQueue(cfg, s, root, reg).(waiters := s.waiters[root := Waiting(reg.notifiers[root], s.waiters[root].missing)])
  }

  predicate CanTake(s: State, root: Root) {
    && root in s.waiters && s.waiters[root].Waiting?
    && s.waiters[root].ch < |s.queues| && s.queues[s.waiters[root].ch].items != []
  }

  function TakeStep(s: State, root: Root): State
    requires CanTake(s, root)
  {
    var w := s.waiters[root];
    var q := s.queues[w.ch];
    var missing := w.missing - {q.items[0]};
    s.(queues := s.queues[w.ch := q.(items := q.items[1..])],
       waiters := s.waiters[root := if missing != {} then Waiting(w.ch, missing) else Cleanup])
  }

  function FinishStep(s: State, root: Root): State
    requires root in s.waiters
  {
    s.(reg := Forgotten(s.reg, root), waiters := s.waiters - {root}, available := s.available + {root})
  }

  predicate Enabled(cfg: Config, s: State, a: Action) {
    match a
    case Receive(p, _, _) => p < |s.producers| && s.producers[p].Idle?
    case Save(p) => p < |s.producers| && s.producers[p].Received?
    case SaveFails(p) => p < |s.producers| && s.producers[p].Received?
    case Notify(p) => CanNotify(cfg, s, p)
    case Send(p) => CanSend(s, p)
    case Begin(root) => root !in s.waiters
    case Check(root) => root in s.waiters && s.waiters[root].Checking?
    case Subscribe(root) => root in s.waiters && s.waiters[root].NeedChannel?
    case Take(root) => CanTake(s, root)
    case Finish(root) => root in s.waiters && s.waiters[root].Cleanup?
    case Abort(root) => root in s.waiters && s.waiters[root].Waiting?
  }

  function Apply(cfg: Config, s: State, a: Action): State
    requires Enabled(cfg, s, a)
  {
    match a
    case Receive(p, root, idx) => SetProducer(s, p, Received(root, idx))
    case Save(p) =>
      SetProducer(s.(disk := s.disk + {(s.producers[p].root, s.producers[p].idx)}),
                  p, Saved(s.producers[p].root, s.producers[p].idx))
    case SaveFails(p) => SetProducer(s, p, Idle)
    case Notify(p) => NotifyStep(cfg, s, p)
    case Send(p) => SendStep(s, p)
    case Begin(root) => s.(waiters := s.waiters[root := Checking])
    case Check(root) => CheckStep(cfg, s, root)
    case Subscribe(root) => SubscribeStep(cfg, s, root)
    case Take(root) => TakeStep(s, root)
    case Finish(root) => FinishStep(s, root)
    case Abort(root) => s.(waiters := s.waiters - {root})
  }

  ghost predicate Init(s: State) {
    && s.reg == Registry(map[], map[], 0) && s.queues == [] && s.waiters == map[] && s.available == {}
    && forall p :: 0 <= p < |s.producers| ==> s.producers[p].Idle?
  }

  // ------------------------------------------------------------- invariant

  predicate Seen(s: State, root: Root, i: nat) {
    BlobNotifier.Seen(s.reg, root, i)
  }

  predicate Registered(s: State, root: Root, c: nat) {
    root in s.reg.notifiers && s.reg.notifiers[root] == c
  }

  ghost predicate Distinct(items: seq<nat>) {
    forall i, j :: 0 <= i < j < |items| ==> items[i] != items[j]
  }

  ghost predicate ItemOk(cfg: Config, s: State, root: Root, c: nat, i: nat) {
    i < cfg.max(root) && (root, i) in s.disk && (Registered(s, root, c) ==> Seen(s, root, i))
  }

  ghost predicate QueueOk(cfg: Config, s: State, c: nat)
    requires c < |s.queues|
  {
    var q := s.queues[c];
    && q.cap == cfg.max(q.root)
    && Distinct(q.items)
    && forall i :: i in q.items ==> ItemOk(cfg, s, q.root, c, i)
  }

  ghost predicate RootOk(cfg: Config, s: State, root: Root) {
    && (root in s.reg.notifiers ==>
          s.reg.notifiers[root] < |s.queues| && s.queues[s.reg.notifiers[root]].root == root)
    && (root in s.reg.seen ==> |s.reg.seen[root]| == cfg.max(root) && root in s.reg.notifiers)
    && (forall i: nat :: Seen(s, root, i) ==> (root, i) in s.disk)
  }

  ghost predicate ProducerOk(cfg: Config, s: State, p: nat)
    requires p < |s.producers|
  {
    match s.producers[p]
    case Idle => true
    case Received(_, _) => true
    case Saved(root, i) => (root, i) in s.disk
    case Sending(root, i, c) =>
      c < |s.queues| && s.queues[c].root == root && ItemOk(cfg, s, root, c, i) && i !in s.queues[c].items
  }

  ghost predicate PairOk(s: State, p: nat, q: nat)
    requires p < |s.producers| && q < |s.producers|
  {
    p != q && s.producers[p].Sending? && s.producers[q].Sending? && s.producers[p].ch == s.producers[q].ch ==>
      s.producers[p].idx != s.producers[q].idx
  }

  /** The index is in the channel of the root, or about to be sent on it. */
  ghost predicate InFlight(s: State, root: Root, i: nat) {
    && root in s.reg.notifiers && s.reg.notifiers[root] < |s.queues|
    && (|| i in s.queues[s.reg.notifiers[root]].items
        || exists p :: 0 <= p < |s.producers| && s.producers[p] == Sending(root, i, s.reg.notifiers[root]))
  }

  ghost predicate NotifyPending(s: State, root: Root, i: nat) {
    exists p :: 0 <= p < |s.producers| && s.producers[p] == Saved(root, i)
  }

  /** An awaited index is not saved yet, or its announcement is still to come. */
  ghost predicate Covered(s: State, root: Root, i: nat) {
    && ((root, i) !in s.disk || NotifyPending(s, root, i) || InFlight(s, root, i))
    && (Seen(s, root, i) ==> InFlight(s, root, i))
  }

  ghost predicate AllStored(cfg: Config, s: State, root: Root) {
    forall i: nat :: Committed(cfg, root, i) ==> (root, i) in s.disk
  }

  function MissingIn(w: Waiter): set<nat> {
    if w.NeedChannel? || w.Waiting? then w.missing else {}
  }

  ghost predicate WaiterOk(cfg: Config, s: State, root: Root)
    requires root in s.waiters
  {
    var w := s.waiters[root];
    && (w.Waiting? ==> Registered(s, root, w.ch))
    && (!w.Checking? ==> |cfg.commitments(root)| <= cfg.max(root))
    && (!w.Checking? ==> forall i: nat :: Committed(cfg, root, i) ==> i in MissingIn(w) || (root, i) in s.disk)
    && (forall i: nat :: i in MissingIn(w) ==> Committed(cfg, root, i) && Covered(s, root, i))
    && (w.NeedChannel? || w.Waiting? ==> w.missing != {})
  }

  ghost predicate Inv(cfg: Config, s: State) {
    && s.reg.channels == |s.queues|
    && (forall c :: 0 <= c < |s.queues| ==> QueueOk(cfg, s, c))
    && (forall root: Root :: RootOk(cfg, s, root))
    && (forall p :: 0 <= p < |s.producers| ==> ProducerOk(cfg, s, p))
    && (forall p, q :: 0 <= p < |s.producers| && 0 <= q < |s.producers| ==> PairOk(s, p, q))
    && (forall root :: root in s.waiters ==> WaiterOk(cfg, s, root))
    && (forall root :: root in s.available ==> AllStored(cfg, s, root) && |cfg.commitments(root)| <= cfg.max(root))
  }

  lemma InitInv(cfg: Config, s: State)
    requires Init(s)
    ensures Inv(cfg, s)
  {
  }

  // ------------------------------------------- what every step keeps

  /** The invariant of the producer that acts. */
  ghost predicate ActorOk(cfg: Config, s: State, a: Action)
    requires Enabled(cfg, s, a)
  {
    && s.reg.channels == |s.queues|
    && (a.Notify? || a.Send? ==> ProducerOk(cfg, s, a.p) && RootOk(cfg, s, s.producers[a.p].root))
    && (a.Notify? && s.producers[a.p].root in s.reg.notifiers ==>
          QueueOk(cfg, s, s.reg.notifiers[s.producers[a.p].root]))
    && (a.Take? ==> QueueOk(cfg, s, s.waiters[a.waiter].ch))
    && (a.Check? || a.Subscribe? || a.Take? || a.Finish? || a.Abort? ==>
          WaiterOk(cfg, s, a.waiter) && RootOk(cfg, s, a.waiter))
  }

  lemma ItemKept(cfg: Config, s: State, a: Action, root: Root, c: nat, i: nat)
    requires Enabled(cfg, s, a) && ActorOk(cfg, s, a) && RootOk(cfg, s, root)
    requires ItemOk(cfg, s, root, c, i) && c < |s.queues|
    ensures ItemOk(cfg, Apply(cfg, s, a), root, c, i)
  {
  }

  lemma QueueShape(cfg: Config, s: State, a: Action, c: nat)
    requires Enabled(cfg, s, a) && s.reg.channels == |s.queues| && c < |s.queues|
    ensures c < |Apply(cfg, s, a).queues| && Apply(cfg, s, a).queues[c] ==
      if a.Send? && s.producers[a.p].ch == c then s.queues[c].(items := s.queues[c].items + [s.producers[a.p].idx])
      else if a.Take? && s.waiters[a.waiter].ch == c then s.queues[c].(items := s.queues[c].items[1..])
      else s.queues[c]
  {
  }

  lemma QueueCount(cfg: Config, s: State, a: Action)
    requires Enabled(cfg, s, a) && s.reg.channels == |s.queues|
    ensures |s.queues| <= |Apply(cfg, s, a).queues| <= |s.queues| + 1
    ensures Apply(cfg, s, a).reg.channels == |Apply(cfg, s, a).queues|
    ensures |Apply(cfg, s, a).producers| == |s.producers|
  {
  }

  lemma NewQueue(cfg: Config, s: State, a: Action)
    requires Enabled(cfg, s, a) && s.reg.channels == |s.queues| && |Apply(cfg, s, a).queues| == |s.queues| + 1
    ensures var q := Apply(cfg, s, a).queues[|s.queues|]; q.items == [] && q.cap == cfg.max(q.root)
  {
  }

  lemma QueueKept(cfg: Config, s: State, a: Action, c: nat)
    requires Enabled(cfg, s, a) && ActorOk(cfg, s, a) && c < |Apply(cfg, s, a).queues|
    requires c < |s.queues| ==> QueueOk(cfg, s, c) && RootOk(cfg, s, s.queues[c].root)
    ensures QueueOk(cfg, Apply(cfg, s, a), c)
  {
    var s' := Apply(cfg, s, a);
    if c < |s.queues| {
      QueueShape(cfg, s, a, c);
      forall i | i in s'.queues[c].items ensures ItemOk(cfg, s', s.queues[c].root, c, i) {
        ItemKept(cfg, s, a, s.queues[c].root, c, i);
      }
    } else {
      QueueCount(cfg, s, a);
      NewQueue(cfg, s, a);
    }
  }

  lemma RootKept(cfg: Config, s: State, a: Action, root: Root)
    requires Enabled(cfg, s, a) && ActorOk(cfg, s, a) && RootOk(cfg, s, root)
    ensures RootOk(cfg, Apply(cfg, s, a), root)
  {
    forall i: nat | Seen(Apply(cfg, s, a), root, i) ensures (root, i) in Apply(cfg, s, a).disk {
      SeenShape(cfg, s, a, root, i);
    }
    if root in s.reg.notifiers {
      QueueShape(cfg, s, a, s.reg.notifiers[root]);
    }
  }

  /** An index becomes seen only when its own announcement is made. */
  lemma SeenShape(cfg: Config, s: State, a: Action, root: Root, i: nat)
    requires Enabled(cfg, s, a) && Seen(Apply(cfg, s, a), root, i)
    ensures Seen(s, root, i) || (a.Notify? && s.producers[a.p] == Saved(root, i))
    ensures s.disk <= Apply(cfg, s, a).disk
  {
  }

  lemma ProducerKept(cfg: Config, s: State, a: Action, p: nat)
    requires Enabled(cfg, s, a) && ActorOk(cfg, s, a) && p < |s.producers| && ProducerOk(cfg, s, p)
    requires s.producers[p].Sending? ==> RootOk(cfg, s, s.producers[p].root)
    requires a.Send? || a.Notify? ==> PairOk(s, p, a.p)
    ensures ProducerOk(cfg, Apply(cfg, s, a), p)
  {
    if s.producers[p].Sending? && a != Send(p) {
      SenderKept(cfg, s, a, p);
    }
  }

  lemma SenderKept(cfg: Config, s: State, a: Action, p: nat)
    requires Enabled(cfg, s, a) && ActorOk(cfg, s, a) && p < |s.producers| && ProducerOk(cfg, s, p)
    requires s.producers[p].Sending? && a != Send(p) && RootOk(cfg, s, s.producers[p].root)
    requires a.Send? ==> PairOk(s, p, a.p)
    ensures ProducerOk(cfg, Apply(cfg, s, a), p)
  {
    var pr := s.producers[p];
    SenderStays(cfg, s, a, p);
    QueueShape(cfg, s, a, pr.ch);
    ItemKept(cfg, s, a, pr.root, pr.ch, pr.idx);
  }

  lemma SenderStays(cfg: Config, s: State, a: Action, p: nat)
    requires Enabled(cfg, s, a) && p < |s.producers| && s.producers[p].Sending? && a != Send(p)
    ensures p < |Apply(cfg, s, a).producers| && Apply(cfg, s, a).producers[p] == s.producers[p]
  {
  }

  lemma PairKept(cfg: Config, s: State, a: Action, p: nat, q: nat)
    requires Enabled(cfg, s, a) && ActorOk(cfg, s, a) && p < |s.producers| && q < |s.producers|
    requires PairOk(s, p, q) && ProducerOk(cfg, s, p) && ProducerOk(cfg, s, q)
    ensures PairOk(Apply(cfg, s, a), p, q)
  {
  }

  /** The waiter of `root` takes index i off its channel. */
  predicate Takes(cfg: Config, s: State, a: Action, root: Root, i: nat)
    requires Enabled(cfg, s, a)
  {
    a == Take(root) && s.queues[s.waiters[root].ch].items[0] == i
  }

  lemma InFlightKept(cfg: Config, s: State, a: Action, root: Root, i: nat)
    requires Enabled(cfg, s, a) && ActorOk(cfg, s, a) && RootOk(cfg, s, root)
    requires InFlight(s, root, i) && !Takes(cfg, s, a, root, i) && a != Finish(root)
    ensures InFlight(Apply(cfg, s, a), root, i)
  {
    var s' := Apply(cfg, s, a);
    var c := s.reg.notifiers[root];
    assert s'.reg.notifiers[root] == c;
    QueueShape(cfg, s, a, c);
    if i in s.queues[c].items {
      assert i in s'.queues[c].items;
    } else {
      var p :| 0 <= p < |s.producers| && s.producers[p] == Sending(root, i, c);
      if a == Send(p) {
        assert i in s'.queues[c].items;
      } else {
        assert s'.producers[p] == Sending(root, i, c);
      }
    }
  }

  lemma CoveredKept(cfg: Config, s: State, a: Action, root: Root, i: nat)
    requires Enabled(cfg, s, a) && ActorOk(cfg, s, a) && RootOk(cfg, s, root)
    requires Covered(s, root, i) && i < cfg.max(root) && !Takes(cfg, s, a, root, i) && a != Finish(root)
    ensures Covered(Apply(cfg, s, a), root, i)
  {
    var s' := Apply(cfg, s, a);
    if InFlight(s, root, i) {
      InFlightKept(cfg, s, a, root, i);
    } else if a.Notify? && s.producers[a.p] == Saved(root, i) {
      assert s'.producers[a.p] == Sending(root, i, s'.reg.notifiers[root]);
      assert InFlight(s', root, i);
    } else if (root, i) !in s.disk {
      if a.Save? && s.producers[a.p] == Received(root, i) {
        assert s'.producers[a.p] == Saved(root, i);
      }
    } else {
      var p :| 0 <= p < |s.producers| && s.producers[p] == Saved(root, i);
      assert s'.producers[p] == Saved(root, i);
    }
  }

  lemma CheckKeepsWaiter(cfg: Config, s: State, root: Root)
    requires Enabled(cfg, s, Check(root)) && RootOk(cfg, s, root) && root in CheckStep(cfg, s, root).waiters
    ensures WaiterOk(cfg, CheckStep(cfg, s, root), root)
  {
    var s' := CheckStep(cfg, s, root);
    forall i: nat | Committed(cfg, root, i) ensures i in MissingIn(s'.waiters[root]) || (root, i) in s.disk {
      assert i in Stored(s, root) ==> (root, i) in s.disk;
    }
    forall i: nat | i in MissingIn(s'.waiters[root]) ensures Committed(cfg, root, i) && Covered(s', root, i) {
      assert (root, i) in s.disk ==> i in Stored(s, root);
    }
  }

  lemma WaiterKept(cfg: Config, s: State, a: Action, root: Root)
    requires Enabled(cfg, s, a) && ActorOk(cfg, s, a) && RootOk(cfg, s, root)
    requires root in Apply(cfg, s, a).waiters && (root in s.waiters ==> WaiterOk(cfg, s, root))
    ensures WaiterOk(cfg, Apply(cfg, s, a), root)
  {
    var s' := Apply(cfg, s, a);
    if a == Check(root) {
      CheckKeepsWaiter(cfg, s, root);
    } else if root in s.waiters {
      forall i: nat | i in MissingIn(s'.waiters[root]) ensures Committed(cfg, root, i) && Covered(s', root, i) {
        assert i in MissingIn(s.waiters[root]);
        CoveredKept(cfg, s, a, root, i);
      }
      if a.Take? && a.waiter == root {
        TakenIsStored(cfg, s, root);
      }
    }
  }

  lemma TakenIsStored(cfg: Config, s: State, root: Root)
    requires CanTake(s, root) && WaiterOk(cfg, s, root) && RootOk(cfg, s, root) && QueueOk(cfg, s, s.waiters[root].ch)
    ensures (root, s.queues[s.waiters[root].ch].items[0]) in s.disk
  {
    var c := s.waiters[root].ch;
    assert ItemOk(cfg, s, root, c, s.queues[c].items[0]);
  }

  lemma InvActor(cfg: Config, s: State, a: Action)
    requires Inv(cfg, s) && Enabled(cfg, s, a)
    ensures ActorOk(cfg, s, a)
  {
    if a.Notify? || a.Send? {
      assert ProducerOk(cfg, s, a.p) && RootOk(cfg, s, s.producers[a.p].root);
    }
  }

  /** Every step of every interleaving keeps the invariant. */
  lemma StepKeepsInv(cfg: Config, s: State, a: Action)
    requires Inv(cfg, s) && Enabled(cfg, s, a)
    ensures Inv(cfg, Apply(cfg, s, a))
  {
    var s' := Apply(cfg, s, a);
    InvActor(cfg, s, a);
    QueueCount(cfg, s, a);
    forall c | 0 <= c < |s'.queues| ensures QueueOk(cfg, s', c) {
      assert c < |s.queues| ==> QueueOk(cfg, s, c) && RootOk(cfg, s, s.queues[c].root);
      QueueKept(cfg, s, a, c);
    }
    forall root: Root ensures RootOk(cfg, s', root) {
      assert RootOk(cfg, s, root);
      RootKept(cfg, s, a, root);
    }
    forall p | 0 <= p < |s.producers| ensures ProducerOk(cfg, s', p) {
      assert ProducerOk(cfg, s, p);
      assert s.producers[p].Sending? ==> RootOk(cfg, s, s.producers[p].root);
      assert a.Send? || a.Notify? ==> PairOk(s, p, a.p);
      ProducerKept(cfg, s, a, p);
    }
    forall p, q | 0 <= p < |s.producers| && 0 <= q < |s.producers| ensures PairOk(s', p, q) {
      assert PairOk(s, p, q) && ProducerOk(cfg, s, p) && ProducerOk(cfg, s, q);
      PairKept(cfg, s, a, p, q);
    }
    WaitersKept(cfg, s, a);
  }

  lemma WaitersKept(cfg: Config, s: State, a: Action)
    requires Inv(cfg, s) && Enabled(cfg, s, a) && ActorOk(cfg, s, a)
    ensures forall root :: root in Apply(cfg, s, a).waiters ==> WaiterOk(cfg, Apply(cfg, s, a), root)
    ensures forall root :: root in Apply(cfg, s, a).available ==>
      AllStored(cfg, Apply(cfg, s, a), root) && |cfg.commitments(root)| <= cfg.max(root)
  {
    var s' := Apply(cfg, s, a);
    forall root | root in s'.waiters ensures WaiterOk(cfg, s', root) {
      assert RootOk(cfg, s, root);
      assert root in s.waiters ==> WaiterOk(cfg, s, root);
      WaiterKept(cfg, s, a, root);
    }
    forall root | root in s'.available ensures AllStored(cfg, s', root) && |cfg.commitments(root)| <= cfg.max(root) {
      AvailableKept(cfg, s, a, root);
    }
  }

  lemma NoneMissing(stored: set<nat>, commitments: seq<bool>, i: nat)
    requires i < |commitments| && commitments[i]
    requires LackingIndices(stored, commitments) == {}
    ensures i in stored
  {
    assert i in stored || i in LackingIndices(stored, commitments);
  }

  lemma AvailableKept(cfg: Config, s: State, a: Action, root: Root)
    requires Enabled(cfg, s, a) && ActorOk(cfg, s, a) && root in Apply(cfg, s, a).available
    requires root in s.available ==> AllStored(cfg, s, root)
    ensures AllStored(cfg, Apply(cfg, s, a), root)
  {
    forall i: nat | Committed(cfg, root, i) ensures (root, i) in Apply(cfg, s, a).disk {
      if root !in s.available && a.Check? {
        NoneMissing(Stored(s, root), cfg.commitments(root), i);
      }
    }
  }

  // ------------------------------------------------------ main results

  ghost predicate ValidRun(cfg: Config, s: State, run: seq<Action>)
    decreases |run|
  {
    run == [] || (Enabled(cfg, s, run[0]) && ValidRun(cfg, Apply(cfg, s, run[0]), run[1..]))
  }

  ghost function After(cfg: Config, s: State, run: seq<Action>): State
    requires ValidRun(cfg, s, run)
    decreases |run|
  {
    if run == [] then s else After(cfg, Apply(cfg, s, run[0]), run[1..])
  }

  lemma {:induction false} RunKeepsInv(cfg: Config, s: State, run: seq<Action>)
    requires Inv(cfg, s) && ValidRun(cfg, s, run)
    ensures Inv(cfg, After(cfg, s, run))
    decreases |run|
  {
    if run != [] {
      StepKeepsInv(cfg, s, run[0]);
      RunKeepsInv(cfg, Apply(cfg, s, run[0]), run[1..]);
    }
  }

  /** Over every run: a block is declared available only when every blob it commits to is on
      disk and it does not commit to too many, and each index that a waiter still misses is not saved yet, saved with its
      announcement pending, or already in the waiter's own channel. */
  lemma NoLostWakeup(cfg: Config, init: State, run: seq<Action>, root: Root)
    requires Init(init) && ValidRun(cfg, init, run)
    ensures var s := After(cfg, init, run);
      && (root in s.available ==> AllStored(cfg, s, root) && |cfg.commitments(root)| <= cfg.max(root))
      && (root in s.waiters && s.waiters[root].Waiting? ==>
            && Registered(s, root, s.waiters[root].ch)
            && forall i :: i in s.waiters[root].missing ==>
                 (root, i) !in s.disk || NotifyPending(s, root, i) || InFlight(s, root, i))
  {
    InitInv(cfg, init);
    RunKeepsInv(cfg, init, run);
    var s := After(cfg, init, run);
    if root in s.waiters {
      assert WaiterOk(cfg, s, root);
      forall i | i in MissingIn(s.waiters[root])
        ensures (root, i) !in s.disk || NotifyPending(s, root, i) || InFlight(s, root, i)
      {
        assert Covered(s, root, i);
      }
    }
  }

  /** The committed blobs of the root that are not on disk. */
  function Lacking(cfg: Config, s: State, root: Root): set<nat> {
    set i | 0 <= i < |cfg.commitments(root)| && cfg.commitments(root)[i] && (root, i) !in s.disk
  }

  /** A call ends exactly when it is aborted, when the last awaited blob has been announced, or
      when its first check finds too many commitments or nothing missing. */
  lemma HowCallsEnd(cfg: Config, s: State, a: Action, root: Root)
    requires Inv(cfg, s) && Enabled(cfg, s, a) && root in s.waiters
    ensures var s' := Apply(cfg, s, a);
      && (root !in s'.waiters <==>
            || a == Abort(root) || a == Finish(root)
            || (a == Check(root) && (|cfg.commitments(root)| > cfg.max(root) || Lacking(cfg, s, root) == {})))
      && (root !in s'.waiters && a != Abort(root) && |cfg.commitments(root)| <= cfg.max(root) ==> root in s'.available)
      && (a == Finish(root) ==> root !in s'.reg.notifiers && root !in s'.reg.seen)
  {
    StoredOrLacking(cfg, s, root);
  }

  lemma StoredOrLacking(cfg: Config, s: State, root: Root)
    ensures LackingIndices(Stored(s, root), cfg.commitments(root)) == Lacking(cfg, s, root)
  {
    forall i: nat ensures i in Stored(s, root) <==> (root, i) in s.disk {
      assert i in Stored(s, root) ==> exists x :: x in s.disk && x.0 == root && x.1 == i;
    }
  }

  /** Over every run: a call for a block without too many commitments goes on, or its block has
      been declared available, unless the call is aborted. */
  lemma {:induction false} CallsGoOn(cfg: Config, s: State, run: seq<Action>, root: Root)
    requires Inv(cfg, s) && ValidRun(cfg, s, run) && |cfg.commitments(root)| <= cfg.max(root)
    requires root in s.waiters || root in s.available || Begin(root) in run
    requires Abort(root) !in run
    ensures root in After(cfg, s, run).waiters || root in After(cfg, s, run).available
    decreases |run|
  {
    if run != [] {
      StepKeepsInv(cfg, s, run[0]);
      if root in s.waiters {
        HowCallsEnd(cfg, s, run[0], root);
      }
      assert run == [run[0]] + run[1..];
      CallsGoOn(cfg, Apply(cfg, s, run[0]), run[1..], root);
    }
  }

  lemma Prepend(cfg: Config, s: State, a: Action, rest: seq<Action>)
    requires Enabled(cfg, s, a) && ValidRun(cfg, Apply(cfg, s, a), rest)
    ensures ValidRun(cfg, s, [a] + rest) && After(cfg, s, [a] + rest) == After(cfg, Apply(cfg, s, a), rest)
  {
    assert ([a] + rest)[1..] == rest;
  }

  /** With blobs missing, a call comes to wait on its root's channel for exactly those. */
  lemma WaitsForMissing(cfg: Config, s: State, root: Root)
    requires Inv(cfg, s) && root in s.waiters && s.waiters[root].Checking?
    requires |cfg.commitments(root)| <= cfg.max(root) && Lacking(cfg, s, root) != {}
    ensures ValidRun(cfg, s, [Check(root), Subscribe(root)])
    ensures var s' := After(cfg, s, [Check(root), Subscribe(root)]);
      && root in s'.waiters && s'.waiters[root].Waiting? && s'.waiters[root].missing == Lacking(cfg, s, root)
      && Registered(s', root, s'.waiters[root].ch) && s'.disk == s.disk && s'.producers == s.producers
  {
    StoredOrLacking(cfg, s, root);
    var s1 := Apply(cfg, s, Check(root));
    Prepend(cfg, s1, Subscribe(root), []);
    Prepend(cfg, s, Check(root), [Subscribe(root)] + []);
    assert [Check(root)] + ([Subscribe(root)] + []) == [Check(root), Subscribe(root)];
  }

  lemma {:induction false} DistinctBelow(items: seq<nat>, max: nat)
    requires Distinct(items) && forall i :: i in items ==> i < max
    ensures |items| <= max
    decreases max
  {
    assert |items| > 0 ==> items[0] in items;
    if max == 0 {
    } else if max - 1 in items {
      var k :| 0 <= k < |items| && items[k] == max - 1;
      var rest := items[..k] + items[k + 1..];
      assert forall i :: i in rest ==> i in items && i != max - 1;
      DistinctBelow(rest, max - 1);
    } else {
      DistinctBelow(items, max - 1);
    }
  }

  /** The send of notifyIndex never blocks: its channel always has room. */
  lemma SendNeverBlocks(cfg: Config, s: State, p: nat)
    requires Inv(cfg, s) && p < |s.producers| && s.producers[p].Sending?
    ensures CanSend(s, p)
  {
    assert ProducerOk(cfg, s, p);
    var pr := s.producers[p];
    var q := s.queues[pr.ch];
    assert QueueOk(cfg, s, pr.ch);
    var all := q.items + [pr.idx];
    forall i | i in all ensures i < cfg.max(q.root) {
      assert i in q.items ==> ItemOk(cfg, s, q.root, pr.ch, i);
    }
    DistinctBelow(all, cfg.max(q.root));
  }

  // ---------------------------------------------------------- progress

  /** Statements left before this producer's announcement for `root` is in the channel. */
  function AnnounceWork(root: Root, pr: Producer): nat {
    if pr.Saved? && pr.root == root then 2 else if pr.Sending? && pr.root == root then 1 else 0
  }

  function AnnounceWorks(s: State, root: Root): seq<nat> {
    seq(|s.producers|, p requires 0 <= p < |s.producers| => AnnounceWork(root, s.producers[p]))
  }

  function Phase(w: Waiter): nat {
    match w case Checking => 3 case NeedChannel(_) => 2 case Waiting(_, _) => 1 case Cleanup => 0
  }

  lemma AnnounceLowers(cfg: Config, s: State, a: Action, root: Root)
    requires Enabled(cfg, s, a) && (a.Notify? || a.Send?) && s.producers[a.p].root == root
    ensures Total(AnnounceWorks(Apply(cfg, s, a), root)) < Total(AnnounceWorks(s, root))
    ensures Apply(cfg, s, a).waiters == s.waiters
  {
    var s' := Apply(cfg, s, a);
    assert AnnounceWorks(s', root) == AnnounceWorks(s, root)[a.p := AnnounceWork(root, s'.producers[a.p])];
    TotalUpdate(AnnounceWorks(s, root), a.p, AnnounceWork(root, s'.producers[a.p]));
  }

  /** What brings a waiter on: an announcement for its root, or its own next statement. */
  lemma NextForWaiter(cfg: Config, s: State, root: Root) returns (a: Action)
    requires Inv(cfg, s) && root in s.waiters && s.waiters[root].Waiting? && AllStored(cfg, s, root)
    ensures Enabled(cfg, s, a)
    ensures ((a.Notify? || a.Send?) && s.producers[a.p].root == root) || a == Take(root)
  {
    assert WaiterOk(cfg, s, root) && RootOk(cfg, s, root);
    var i :| i in s.waiters[root].missing;
    assert i in MissingIn(s.waiters[root]);
    assert Covered(s, root, i);
    if s.queues[s.reg.notifiers[root]].items != [] {
      a := Take(root);
    } else if InFlight(s, root, i) {
      var p :| 0 <= p < |s.producers| && s.producers[p] == Sending(root, i, s.reg.notifiers[root]);
      SendNeverBlocks(cfg, s, p);
      a := Send(p);
    } else {
      var p :| 0 <= p < |s.producers| && s.producers[p] == Saved(root, i);
      a := Notify(p);
    }
  }

  /** A step by which a call that is under way goes on. */
  predicate Onward(a: Action) {
    !a.Begin? && !a.Abort? && !a.SaveFails?
  }

  /** Once every committed blob is on disk, the waiter is not stuck: the pending announcements
      and its own statements lead it to declare the block available. */
  lemma {:induction false} WaiterCanFinish(cfg: Config, s: State, root: Root) returns (run: seq<Action>)
    requires Inv(cfg, s) && root in s.waiters && AllStored(cfg, s, root)
    requires |cfg.commitments(root)| <= cfg.max(root)
    ensures ValidRun(cfg, s, run) && root in After(cfg, s, run).available
    ensures forall a :: a in run ==> Onward(a)
    decreases Phase(s.waiters[root]), Total(AnnounceWorks(s, root)),
              if s.waiters[root].Waiting? && s.waiters[root].ch < |s.queues| then |s.queues[s.waiters[root].ch].items| else 0
  {
    var w := s.waiters[root];
    if w.Checking? || w.Cleanup? {
      run := [if w.Checking? then Check(root) else Finish(root)];
      if w.Checking? {
        NothingMissing(cfg, s, root);
      }
      assert root in Apply(cfg, s, run[0]).available;
      assert run[1..] == [];
    } else {
      var a := Subscribe(root);
      if w.Waiting? {
        a := NextForWaiter(cfg, s, root);
      }
      var s' := Apply(cfg, s, a);
      StepKeepsInv(cfg, s, a);
      if a.Notify? || a.Send? {
        AnnounceLowers(cfg, s, a, root);
      }
      assert AnnounceWorks(s', root) == AnnounceWorks(s, root) || a.Notify? || a.Send?;
      var rest := WaiterCanFinish(cfg, s', root);
      run := [a] + rest;
      assert run[1..] == rest;
    }
  }

  lemma NothingMissing(cfg: Config, s: State, root: Root)
    requires AllStored(cfg, s, root) && |cfg.commitments(root)| <= cfg.max(root)
    ensures MissingOf(Stored(s, root), cfg.commitments(root), cfg.max(root)) == Indices({})
  {
    forall j: nat | Committed(cfg, root, j) ensures j in Stored(s, root) {
      assert (root, j) in s.disk;
    }
  }

  lemma Announce(cfg: Config, s: State, p: nat) returns (run: seq<Action>, s': State)
    requires Inv(cfg, s) && p < |s.producers| && s.producers[p].Saved?
    ensures ValidRun(cfg, s, run) && s' == After(cfg, s, run) && Inv(cfg, s')
    ensures s'.disk == s.disk && s'.waiters == s.waiters
    ensures p < |s'.producers| && s'.producers[p].Idle?
    ensures forall a :: a in run ==> Onward(a)
  {
    assert RootOk(cfg, s, s.producers[p].root);
    s' := Apply(cfg, s, Notify(p));
    StepKeepsInv(cfg, s, Notify(p));
    run := [];
    if s'.producers[p].Sending? {
      SendNeverBlocks(cfg, s', p);
      StepKeepsInv(cfg, s', Send(p));
      Prepend(cfg, s', Send(p), run);
      run, s' := [Send(p)] + run, Apply(cfg, s', Send(p));
    }
    Prepend(cfg, s, Notify(p), run);
    run := [Notify(p)] + run;
  }

  /** An idle producer receives the blob, saves and announces it, and is idle again. */
  lemma Deliver(cfg: Config, s: State, p: nat, root: Root, i: nat) returns (run: seq<Action>, s': State)
    requires Inv(cfg, s) && p < |s.producers| && s.producers[p].Idle?
    ensures ValidRun(cfg, s, run) && s' == After(cfg, s, run) && Inv(cfg, s')
    ensures s'.disk == s.disk + {(root, i)} && s'.waiters == s.waiters
    ensures p < |s'.producers| && s'.producers[p].Idle?
    ensures forall a :: a in run ==> Onward(a)
  {
    var receive := Receive(p, root, i);
    var s1 := Apply(cfg, s, receive);
    StepKeepsInv(cfg, s, receive);
    var s2 := Apply(cfg, s1, Save(p));
    StepKeepsInv(cfg, s1, Save(p));
    run, s' := Announce(cfg, s2, p);
    Prepend(cfg, s1, Save(p), run);
    Prepend(cfg, s, receive, [Save(p)] + run);
    run := [receive] + ([Save(p)] + run);
  }

  lemma {:induction false} Concatenated(cfg: Config, s: State, run: seq<Action>, rest: seq<Action>)
    requires ValidRun(cfg, s, run) && ValidRun(cfg, After(cfg, s, run), rest)
    ensures ValidRun(cfg, s, run + rest) && After(cfg, s, run + rest) == After(cfg, After(cfg, s, run), rest)
    decreases |run|
  {
    if run == [] {
      assert run + rest == rest;
    } else {
      assert (run + rest)[1..] == run[1..] + rest;
      Concatenated(cfg, Apply(cfg, s, run[0]), run[1..], rest);
    }
  }

  /** Wherever a call is, the arrival of the blobs that are not on disk leads it to declare the
      block available. */
  lemma {:induction false} BlobsMakeAvailable(cfg: Config, s: State, root: Root, p: nat) returns (run: seq<Action>)
    requires Inv(cfg, s) && root in s.waiters && |cfg.commitments(root)| <= cfg.max(root)
    requires p < |s.producers| && s.producers[p].Idle?
    ensures ValidRun(cfg, s, run) && root in After(cfg, s, run).available
    ensures forall a :: a in run ==> Onward(a)
    decreases Lacking(cfg, s, root)
  {
    if Lacking(cfg, s, root) == {} {
      assert AllStored(cfg, s, root) by {
        assert forall i: nat :: Committed(cfg, root, i) ==> i in Lacking(cfg, s, root) || (root, i) in s.disk;
      }
      run := WaiterCanFinish(cfg, s, root);
    } else {
      var i :| i in Lacking(cfg, s, root);
      var first, s' := Deliver(cfg, s, p, root, i);
      assert i !in Lacking(cfg, s', root);
      var rest := BlobsMakeAvailable(cfg, s', root, p);
      Concatenated(cfg, s, first, rest);
      run := first + rest;
    }
  }
}
