/** One worker per key, a bounded failure count, and retries that end. */
module QueueRetries {
  import opened WorkQueues

  lemma PopCount(queue: seq<string>, k: string)
    requires queue != []
    ensures multiset(queue)[k] == multiset(queue[1..])[k] + if queue[0] == k then 1 else 0
  {
    assert queue == [queue[0]] + queue[1..];
  }

  // ---- keys keep to their kind ----

  lemma AddKeepsKind(q: Queue, kind: Kind, x: string)
    requires OnlyKind(q, kind) && KindOf(x) == kind
    ensures OnlyKind(q.Add(x), kind) && OnlyKind(q.AddAfter(x), kind)
  {
  }

  lemma DoneKeepsKind(q: Queue, kind: Kind, x: string)
    requires OnlyKind(q, kind)
    ensures OnlyKind(q.Done(x), kind)
  {
  }

  lemma FireKeepsKind(q: Queue, kind: Kind, x: string)
    requires OnlyKind(q, kind)
    ensures x in q.waiting ==> OnlyKind(q.Fire(x), kind)
    ensures OnlyKind(q.Merge(x), kind)
  {
    var less := q.(waiting := q.waiting - multiset{x});
    assert OnlyKind(less, kind);
    if x in q.waiting {
      AddKeepsKind(less, kind, x);
    }
  }

  lemma GetKeepsKind(q: Queue, kind: Kind)
    requires OnlyKind(q, kind) && q.queue != []
    ensures OnlyKind(q.Get(), kind) && KindOf(q.queue[0]) == kind
  {
  }

  lemma QueueKeepsKinds(c: Controller, kind: Kind, q: Queue)
    requires KindsOk(c) && OnlyKind(q, kind)
    ensures KindsOk(c.Put(kind, q)) && KindsOk(c.Put(kind, q).(adding := c.adding - {kind}))
  {
  }

  lemma MoveKeepsKinds(c: Controller, x: Worker, y: Worker)
    requires KindsOk(c) && x in c.workers && x.kind == y.kind && x.key == y.key
    ensures KindsOk(c.Move(x, y))
  {
    assert KindOf(x.key) == x.kind;
  }

  lemma GetStepKeepsKinds(c: Controller, kind: Kind)
    requires KindsOk(c) && c.idle.Of(kind) > 0 && c.Q(kind).queue != []
    ensures KindsOk(ApplyGet(c, kind))
  {
    GetKeepsKind(c.Q(kind), kind);
    QueueKeepsKinds(c, kind, c.Q(kind).Get());
  }

  lemma AddStepKeepsKinds(c: Controller, kind: Kind)
    requires KindsOk(c) && kind in c.adding
    ensures KindsOk(ApplyAdd(c, kind))
  {
    AddKeepsKind(c.Q(kind), kind, c.adding[kind]);
    QueueKeepsKinds(c, kind, c.Q(kind).Add(c.adding[kind]));
  }

  lemma RetryStepKeepsKinds(c: Controller, kind: Kind, key: string)
    requires KindsOk(c) && Deciding(kind, key) in c.workers
    ensures KindsOk(ApplyRetry(c, kind, key))
  {
    assert KindOf(Deciding(kind, key).key) == kind;
    AddKeepsKind(c.Q(kind), kind, key);
    QueueKeepsKinds(c, kind, c.Q(kind).AddAfter(key));
    MoveKeepsKinds(CountAndDelay(c, kind, key), Deciding(kind, key), Finishing(kind, key));
  }

  lemma FinishStepKeepsKinds(c: Controller, kind: Kind, key: string)
    requires KindsOk(c)
    ensures KindsOk(ApplyFinish(c, kind, key))
  {
    DoneKeepsKind(c.Q(kind), kind, key);
    QueueKeepsKinds(c, kind, c.Q(kind).Done(key));
  }

  lemma SyncedKeepsKinds(c: Controller, kind: Kind, key: string)
    requires KindsOk(c) && Syncing(kind, key) in c.workers
    ensures KindsOk(ApplyOk(c, kind, key)) && KindsOk(ApplyFailed(c, kind, key))
  {
    MoveKeepsKinds(c.(failures := c.failures - {key}), Syncing(kind, key), Finishing(kind, key));
    MoveKeepsKinds(c, Syncing(kind, key), Finishing(kind, key));
    MoveKeepsKinds(c, Syncing(kind, key), Deciding(kind, key));
  }

  lemma QueueStepKeepsKinds(c: Controller, a: Action)
    requires KindsOk(c) && Enabled(c, a) && (a.Fire? || a.Merge? || a.DoneDeleted?)
    ensures KindsOk(Apply(c, a))
  {
    var q, x := c.Q(a.kind), a.key;
    DoneKeepsKind(q, a.kind, x);
    FireKeepsKind(q, a.kind, x);
    QueueKeepsKinds(c, a.kind, q.Done(x));
    QueueKeepsKinds(c, a.kind, q.Merge(x));
    if x in q.waiting {
      QueueKeepsKinds(c, a.kind, q.Fire(x));
    }
  }

  lemma StepKeepsKinds(c: Controller, a: Action)
    requires KindsOk(c) && Enabled(c, a)
    ensures KindsOk(Apply(c, a))
  {
    match a
    case EnqueueRead(kind, key) =>
    case EnqueueAdd(kind) => AddStepKeepsKinds(c, kind);
    case ForgetDeleted(_) =>
    case Get(kind) => GetStepKeepsKinds(c, kind);
    case SyncOk(kind, key) => SyncedKeepsKinds(c, kind, key);
    case SyncFailed(kind, key) => SyncedKeepsKinds(c, kind, key);
    case Retry(kind, key) => RetryStepKeepsKinds(c, kind, key);
    case Finish(kind, key) => FinishStepKeepsKinds(c, kind, key);
    case _ => QueueStepKeepsKinds(c, a);
  }

  // ---- what a step does to one key ----

  function AddView(v: QueueView): QueueView {
    if v.dirty then v
    else if v.processing then v.(dirty := true)
    else v.(dirty := true, queued := v.queued + 1)
  }

  function DoneView(v: QueueView): QueueView {
    v.(processing := false, queued := if v.dirty then v.queued + 1 else v.queued)
  }

  /** The key that action `a` acts on. */
  function KeyOf(c: Controller, a: Action): string
    requires Enabled(c, a)
  {
    match a
    case EnqueueAdd(kind) => c.adding[kind]
    case Get(kind) => c.Q(kind).queue[0]
    case _ => a.key
  }

  /** The change that action `a` makes to the view of the key it acts on. */
  function ViewAfter(v: View, threshold: nat, a: Action): (r: View)
    requires PossibleOn(v, a)
  {
    match a
    case EnqueueRead(_, _) => if v.count == 0 then v.(adding := true) else v
    case EnqueueAdd(_) => v.(queue := AddView(v.queue), adding := false)
    case ForgetDeleted(_) => v.(count := 0)
    case DoneDeleted(_, _) => v.(queue := DoneView(v.queue))
    case Get(_) => v.(queue := QueueView(v.queue.queued - 1, false, true, v.queue.waiting), syncing := v.syncing + 1)
    case SyncOk(_, _) => v.(count := 0, syncing := v.syncing - 1, finishing := v.finishing + 1)
    case SyncFailed(_, _) =>
      if v.count < threshold then v.(syncing := v.syncing - 1, deciding := v.deciding + 1)
      else v.(syncing := v.syncing - 1, finishing := v.finishing + 1)
    case Retry(_, _) =>
      v.(count := v.count + 1, deciding := v.deciding - 1, finishing := v.finishing + 1,
         queue := v.queue.(waiting := v.queue.waiting + 1))
    case Finish(_, _) => v.(queue := DoneView(v.queue), finishing := v.finishing - 1)
    case Fire(_, _) => v.(queue := AddView(v.queue.(waiting := v.queue.waiting - 1)))
    case Merge(_, _) => if v.queue.waiting > 1 then v.(queue := v.queue.(waiting := v.queue.waiting - 1)) else v
  }

  predicate PossibleOn(v: View, a: Action) {
    && (a.EnqueueAdd? ==> v.adding)
    && (a.Get? ==> v.queue.queued > 0)
    && (a.Fire? ==> v.queue.waiting > 0)
    && (a.SyncOk? || a.SyncFailed? ==> v.syncing > 0)
    && (a.Retry? ==> v.deciding > 0)
    && (a.Finish? ==> v.finishing > 0)
  }

  lemma ViewOfAdd(q: Queue, x: string, k: string)
    ensures QueueViewOf(q.Add(x), k) == if x == k then AddView(QueueViewOf(q, k)) else QueueViewOf(q, k)
  {
  }

  lemma ViewOfDone(q: Queue, x: string, k: string)
    ensures QueueViewOf(q.Done(x), k) == if x == k then DoneView(QueueViewOf(q, k)) else QueueViewOf(q, k)
  {
  }

  lemma ViewOfGet(q: Queue, k: string)
    requires q.queue != []
    ensures var v, v' := QueueViewOf(q, k), QueueViewOf(q.Get(), k);
            if q.queue[0] == k then v.queued > 0 && v' == QueueView(v.queued - 1, false, true, v.waiting) else v' == v
  {
    PopCount(q.queue, k);
  }

  lemma ViewOfFire(q: Queue, x: string, k: string)
    requires x in q.waiting
    ensures var v := QueueViewOf(q, k);
            QueueViewOf(q.Fire(x), k) == if x == k then AddView(v.(waiting := v.waiting - 1)) else v
  {
    var less := q.(waiting := q.waiting - multiset{x});
    assert QueueViewOf(less, k) == QueueViewOf(q, k).(waiting := q.waiting[k] - if x == k then 1 else 0);
    ViewOfAdd(less, x, k);
  }

  lemma ViewOfQueueChange(c: Controller, kind: Kind, q: Queue, k: string)
    ensures ViewOf(c.Put(kind, q), k) ==
              if kind == KindOf(k) then ViewOf(c, k).(queue := QueueViewOf(q, k)) else ViewOf(c, k)
  {
  }

  lemma QueueStepsOnView(c: Controller, kind: Kind, key: string, k: string)
    requires KindOf(key) == kind
    ensures var v, q := ViewOf(c, k), c.Q(kind);
            && ViewOf(c.Put(kind, q.Done(key)), k) == (if key == k then v.(queue := DoneView(v.queue)) else v)
            && (key in q.waiting ==>
                  ViewOf(c.Put(kind, q.Fire(key)), k) ==
                    if key == k then v.(queue := AddView(v.queue.(waiting := v.queue.waiting - 1))) else v)
            && ViewOf(c.Put(kind, q.Merge(key)), k) ==
                 (if key == k && v.queue.waiting > 1 then v.(queue := v.queue.(waiting := v.queue.waiting - 1)) else v)
  {
    var q := c.Q(kind);
    ViewOfDone(q, key, k);
    ViewOfQueueChange(c, kind, q.Done(key), k);
    if key in q.waiting {
      ViewOfFire(q, key, k);
      ViewOfQueueChange(c, kind, q.Fire(key), k);
    }
    ViewOfQueueChange(c, kind, q.Merge(key), k);
  }

  lemma RetryOnView(c: Controller, kind: Kind, key: string, k: string)
    requires KindOf(key) == kind
    ensures var v := ViewOf(c, k);
            ViewOf(CountAndDelay(c, kind, key), k) ==
              if key == k then v.(count := v.count + 1, queue := v.queue.(waiting := v.queue.waiting + 1)) else v
  {
    ViewOfQueueChange(c, kind, c.Q(kind).AddAfter(key), k);
    assert QueueViewOf(c.Q(kind).AddAfter(key), k) ==
      QueueViewOf(c.Q(kind), k).(waiting := c.Q(kind).waiting[k] + if key == k then 1 else 0);
  }

  lemma GetOnView(c: Controller, kind: Kind, k: string)
    requires c.Q(kind).queue != [] && KindOf(c.Q(kind).queue[0]) == kind
    ensures var v, v' := ViewOf(c, k), ViewOf(c.Put(kind, c.Q(kind).Get()), k);
            if c.Q(kind).queue[0] == k then
              v.queue.queued > 0 && v' == v.(queue := QueueView(v.queue.queued - 1, false, true, v.queue.waiting))
            else v' == v
  {
    ViewOfGet(c.Q(kind), k);
    ViewOfQueueChange(c, kind, c.Q(kind).Get(), k);
  }

  lemma AddOnView(c: Controller, kind: Kind, k: string)
    requires KindsOk(c) && Enabled(c, EnqueueAdd(kind))
    ensures ViewOf(ApplyAdd(c, kind), k) ==
              if c.adding[kind] == k then ViewOf(c, k).(queue := AddView(ViewOf(c, k).queue), adding := false)
              else ViewOf(c, k)
  {
    ViewOfAdd(c.Q(kind), c.adding[kind], k);
    ViewOfQueueChange(c, kind, c.Q(kind).Add(c.adding[kind]), k);
  }

  lemma TakeOnView(c: Controller, idle: nat, kind: Kind, key: string, k: string)
    requires KindOf(key) == kind
    ensures ViewOf(c.Take(idle, kind, key), k) ==
              if key == k then ViewOf(c, k).(syncing := ViewOf(c, k).syncing + 1) else ViewOf(c, k)
  {
  }

  lemma GetStepOnView(c: Controller, kind: Kind, k: string)
    requires c.idle.Of(kind) > 0 && c.Q(kind).queue != [] && KindOf(c.Q(kind).queue[0]) == kind
    ensures var v := ViewOf(c, k);
            if c.Q(kind).queue[0] == k then
              && v.queue.queued > 0
              && ViewOf(ApplyGet(c, kind), k) ==
                   v.(queue := QueueView(v.queue.queued - 1, false, true, v.queue.waiting), syncing := v.syncing + 1)
            else ViewOf(ApplyGet(c, kind), k) == v
  {
    GetOnView(c, kind, k);
    TakeOnView(c.Put(kind, c.Q(kind).Get()), c.idle.Of(kind) - 1, kind, c.Q(kind).queue[0], k);
  }

  /** A worker goes on to `y`, with the key it has. */
  lemma MoveOnView(c: Controller, x: Worker, y: Worker, k: string)
    requires x in c.workers && x.key == y.key && x.kind == y.kind == KindOf(x.key)
    ensures var v := ViewOf(c, k);
            ViewOf(c.Move(x, y), k) ==
              if x.key == k then
                v.(syncing := v.syncing + (if y.Syncing? then 1 else 0) - (if x.Syncing? then 1 else 0),
                   deciding := v.deciding + (if y.Deciding? then 1 else 0) - (if x.Deciding? then 1 else 0),
                   finishing := v.finishing + (if y.Finishing? then 1 else 0) - (if x.Finishing? then 1 else 0))
              else v
  {
  }

  lemma OkStepOnView(c: Controller, kind: Kind, key: string, k: string)
    requires KindOf(key) == kind && Syncing(kind, key) in c.workers
    ensures var v := ViewOf(c, k);
            ViewOf(ApplyOk(c, kind, key), k) ==
              if key == k then v.(count := 0, syncing := v.syncing - 1, finishing := v.finishing + 1) else v
  {
    MoveOnView(c.(failures := c.failures - {key}), Syncing(kind, key), Finishing(kind, key), k);
  }

  lemma FailedStepOnView(c: Controller, kind: Kind, key: string, k: string)
    requires KindOf(key) == kind && Syncing(kind, key) in c.workers
    ensures var v := ViewOf(c, k);
            ViewOf(ApplyFailed(c, kind, key), k) ==
              if key != k then v
              else if v.count < c.thresholds.For(KindOf(k))
              then v.(syncing := v.syncing - 1, deciding := v.deciding + 1)
              else v.(syncing := v.syncing - 1, finishing := v.finishing + 1)
  {
    MoveOnView(c, Syncing(kind, key), Deciding(kind, key), k);
    MoveOnView(c, Syncing(kind, key), Finishing(kind, key), k);
  }

  lemma RetryStepOnView(c: Controller, kind: Kind, key: string, k: string)
    requires KindOf(key) == kind && Deciding(kind, key) in c.workers
    ensures var v := ViewOf(c, k);
            ViewOf(ApplyRetry(c, kind, key), k) ==
              if key == k then
                v.(count := v.count + 1, deciding := v.deciding - 1, finishing := v.finishing + 1,
                   queue := v.queue.(waiting := v.queue.waiting + 1))
              else v
  {
    RetryOnView(c, kind, key, k);
    MoveOnView(CountAndDelay(c, kind, key), Deciding(kind, key), Finishing(kind, key), k);
  }

  lemma FinishStepOnView(c: Controller, kind: Kind, key: string, k: string)
    requires KindOf(key) == kind && Finishing(kind, key) in c.workers
    ensures var v := ViewOf(c, k);
            ViewOf(ApplyFinish(c, kind, key), k) ==
              if key == k then v.(queue := DoneView(v.queue), finishing := v.finishing - 1) else v
  {
    ViewOfDone(c.Q(kind), key, k);
    ViewOfQueueChange(c, kind, c.Q(kind).Done(key), k);
  }

  lemma WorkerStepOnView(c: Controller, a: Action, k: string)
    requires KindsOk(c) && Enabled(c, a) && (a.SyncOk? || a.SyncFailed? || a.Retry? || a.Finish?)
    ensures KeyOf(c, a) == k ==> PossibleOn(ViewOf(c, k), a)
    ensures ViewOf(Apply(c, a), k) ==
              if KeyOf(c, a) == k then ViewAfter(ViewOf(c, k), c.thresholds.For(KindOf(k)), a) else ViewOf(c, k)
  {
    match a
    case SyncOk(kind, key) =>
      assert KindOf(Syncing(kind, key).key) == kind;
      OkStepOnView(c, kind, key, k);
    case SyncFailed(kind, key) =>
      assert KindOf(Syncing(kind, key).key) == kind;
      FailedStepOnView(c, kind, key, k);
    case Retry(kind, key) =>
      assert KindOf(Deciding(kind, key).key) == kind;
      RetryStepOnView(c, kind, key, k);
    case Finish(kind, key) =>
      assert KindOf(Finishing(kind, key).key) == kind;
      FinishStepOnView(c, kind, key, k);
  }

  lemma QueueStepOnView(c: Controller, a: Action, k: string)
    requires KindsOk(c) && Enabled(c, a) && (a.DoneDeleted? || a.Fire? || a.Merge?)
    ensures KeyOf(c, a) == k ==> PossibleOn(ViewOf(c, k), a)
    ensures ViewOf(Apply(c, a), k) ==
              if KeyOf(c, a) == k then ViewAfter(ViewOf(c, k), c.thresholds.For(KindOf(k)), a) else ViewOf(c, k)
  {
    assert KindOf(a.key) == a.kind by {
      assert OnlyKind(c.Q(a.kind), a.kind);
    }
    QueueStepsOnView(c, a.kind, a.key, k);
    match a
    case DoneDeleted(_, _) =>
    case Fire(_, _) =>
    case Merge(_, _) =>
  }

  lemma ReadOnView(c: Controller, kind: Kind, key: string, k: string)
    requires KindOf(key) == kind && kind !in c.adding
    ensures ViewOf(ApplyRead(c, kind, key), k) ==
              if key == k && c.NumRequeues(k) == 0 then ViewOf(c, k).(adding := true) else ViewOf(c, k)
  {
  }

  lemma ForgetOnView(c: Controller, key: string, k: string)
    ensures ViewOf(c.(failures := c.failures - {key}), k) ==
              if key == k then ViewOf(c, k).(count := 0) else ViewOf(c, k)
  {
  }

  lemma InformerStepOnView(c: Controller, a: Action, k: string)
    requires KindsOk(c) && Enabled(c, a) && (a.EnqueueRead? || a.EnqueueAdd? || a.ForgetDeleted?)
    ensures KeyOf(c, a) == k ==> PossibleOn(ViewOf(c, k), a)
    ensures ViewOf(Apply(c, a), k) ==
              if KeyOf(c, a) == k then ViewAfter(ViewOf(c, k), c.thresholds.For(KindOf(k)), a) else ViewOf(c, k)
  {
    match a
    case EnqueueAdd(kind) =>
      assert KindOf(c.adding[kind]) == kind;
      AddOnView(c, kind, k);
    case EnqueueRead(kind, key) => ReadOnView(c, kind, key, k);
    case ForgetDeleted(key) => ForgetOnView(c, key, k);
  }

  lemma TakeStepOnView(c: Controller, a: Action, k: string)
    requires KindsOk(c) && Enabled(c, a) && a.Get?
    ensures KeyOf(c, a) == k ==> PossibleOn(ViewOf(c, k), a)
    ensures ViewOf(Apply(c, a), k) ==
              if KeyOf(c, a) == k then ViewAfter(ViewOf(c, k), c.thresholds.For(KindOf(k)), a) else ViewOf(c, k)
  {
    GetKeepsKind(c.Q(a.kind), a.kind);
    GetStepOnView(c, a.kind, k);
  }

  /** A step changes what is known about `k` as `ViewAfter` says if it acts on `k`, and leaves it
      alone if it acts on any other key, of either queue: the limiter they share is harmless. */
  lemma StepOnView(c: Controller, a: Action, k: string)
    requires KindsOk(c) && Enabled(c, a)
    ensures KeyOf(c, a) == k ==> PossibleOn(ViewOf(c, k), a)
    ensures ViewOf(Apply(c, a), k) ==
              if KeyOf(c, a) == k then ViewAfter(ViewOf(c, k), c.thresholds.For(KindOf(k)), a) else ViewOf(c, k)
  {
    if a.SyncOk? || a.SyncFailed? || a.Retry? || a.Finish? {
      WorkerStepOnView(c, a, k);
    } else if a.DoneDeleted? || a.Fire? || a.Merge? {
      QueueStepOnView(c, a, k);
    } else if a.Get? {
      TakeStepOnView(c, a, k);
    } else {
      InformerStepOnView(c, a, k);
    }
  }

  // ---- one worker per key ----

  lemma ViewKeepsDiscipline(v: View, threshold: nat, a: Action)
    requires DisciplinedView(v) && PossibleOn(v, a)
    requires a.DoneDeleted? ==> !v.queue.dirty && !v.queue.processing
    ensures DisciplinedView(ViewAfter(v, threshold, a))
  {
  }

  lemma DoneViewHarmlessIff(v: View)
    requires DisciplinedView(v)
    ensures DisciplinedView(v.(queue := DoneView(v.queue))) <==> !v.queue.dirty && !v.queue.processing
  {
  }

  /** Every step keeps the discipline of every key, unless forgetWork's Done hits that key. */
  lemma StepKeepsDiscipline(c: Controller, a: Action, k: string)
    requires KindsOk(c) && Disciplined(c, k) && Enabled(c, a) && !Disturbs(c, a, k)
    ensures Disciplined(Apply(c, a), k)
  {
    StepOnView(c, a, k);
    if KeyOf(c, a) == k {
      ViewKeepsDiscipline(ViewOf(c, k), c.thresholds.For(KindOf(k)), a);
    }
  }

  /** forgetWork's Done is harmless for a deleted object exactly when its key is not tracked:
      a queued key would be queued twice, a key in process would be handed to a second worker. */
  lemma DoneHarmlessIff(c: Controller, k: string)
    requires Disciplined(c, k)
    ensures var q := c.Q(KindOf(k));
            Disciplined(Apply(c, DoneDeleted(KindOf(k), k)), k) <==> k !in q.dirty && k !in q.processing
  {
    QueueStepsOnView(c, KindOf(k), k, k);
    DoneViewHarmlessIff(ViewOf(c, k));
    assert Apply(c, DoneDeleted(KindOf(k), k)) == c.Put(KindOf(k), c.Q(KindOf(k)).Done(k));
  }

  predicate Undisturbed(c: Controller, acts: seq<Action>, k: string)
    requires CanRun(c, acts)
    decreases |acts|
  {
    acts == [] || (!Disturbs(c, acts[0], k) && Undisturbed(Apply(c, acts[0]), acts[1..], k))
  }

  lemma StartDisciplined(t: Thresholds, workers: nat, k: string)
    ensures KindsOk(Start(t, workers)) && Disciplined(Start(t, workers), k)
    ensures CountBounded(Start(t, workers), k)
  {
  }

  // ---- the failure count ----

  /** Failures counted, and about to be counted, are at most the threshold. */
  predicate CountBounded(c: Controller, k: string) {
    ViewOf(c, k).count + ViewOf(c, k).deciding <= c.thresholds.For(KindOf(k))
  }

  lemma ThresholdFixed(c: Controller, a: Action)
    requires Enabled(c, a)
    ensures Apply(c, a).thresholds == c.thresholds
  {
  }

  lemma ViewKeepsCount(v: View, threshold: nat, a: Action)
    requires DisciplinedView(v) && PossibleOn(v, a) && v.count + v.deciding <= threshold
    ensures ViewAfter(v, threshold, a).count + ViewAfter(v, threshold, a).deciding <= threshold
  {
  }

  lemma StepKeepsCount(c: Controller, a: Action, k: string)
    requires KindsOk(c) && Disciplined(c, k) && CountBounded(c, k) && Enabled(c, a)
    ensures CountBounded(Apply(c, a), k)
  {
    StepOnView(c, a, k);
    if KeyOf(c, a) == k {
      ViewKeepsCount(ViewOf(c, k), c.thresholds.For(KindOf(k)), a);
    }
    ThresholdFixed(c, a);
  }

  /** One worker per key and NumRequeues <= threshold, in every run in which forgetWork's Done
      never hits the key while it is tracked. */
  lemma {:induction false} OneWorkerAndBoundedCount(c: Controller, acts: seq<Action>, k: string)
    requires CanRun(c, acts) && Undisturbed(c, acts, k)
    requires KindsOk(c) && Disciplined(c, k) && CountBounded(c, k)
    ensures KindsOk(Run(c, acts)) && Disciplined(Run(c, acts), k) && CountBounded(Run(c, acts), k)
    decreases |acts|
  {
    if acts != [] {
      StepKeepsKinds(c, acts[0]);
      StepKeepsDiscipline(c, acts[0], k);
      StepKeepsCount(c, acts[0], k);
      OneWorkerAndBoundedCount(Apply(c, acts[0]), acts[1..], k);
    }
  }

  /** So it is in every run of a controller that has just started: at most one worker is at a key,
      a key is at most once in its queue, and its failure count never passes the threshold. */
  lemma OneWorkerInEveryRun(t: Thresholds, workers: nat, acts: seq<Action>, k: string)
    requires CanRun(Start(t, workers), acts) && Undisturbed(Start(t, workers), acts, k)
    ensures var c, kind := Run(Start(t, workers), acts), KindOf(k);
            && c.workers[Syncing(kind, k)] + c.workers[Deciding(kind, k)] + c.workers[Finishing(kind, k)] <= 1
            && multiset(c.Q(kind).queue)[k] <= 1
            && c.NumRequeues(k) <= t.For(kind)
  {
    StartDisciplined(t, workers, k);
    OneWorkerAndBoundedCount(Start(t, workers), acts, k);
    ThresholdStays(Start(t, workers), acts);
    assert Disciplined(Run(Start(t, workers), acts), k);
  }

  lemma {:induction false} ThresholdStays(c: Controller, acts: seq<Action>)
    requires CanRun(c, acts)
    ensures Run(c, acts).thresholds == c.thresholds
    decreases |acts|
  {
    if acts != [] {
      ThresholdFixed(c, acts[0]);
      ThresholdStays(Apply(c, acts[0]), acts[1..]);
    }
  }

  // ---- retries end ----

  /** Chances for another attempt at a key that are already in the system. */
  function Tokens(v: View): nat {
    v.queue.waiting + (if v.queue.dirty then 1 else 0) + (if v.adding then 1 else 0) + v.syncing
  }

  /** Retry budget left plus chances. */
  function Budget(c: Controller, k: string): int {
    c.thresholds.For(KindOf(k)) - c.NumRequeues(k) + Tokens(ViewOf(c, k))
  }

  predicate FailsOn(c: Controller, a: Action, k: string) {
    Enabled(c, a) && a.SyncFailed? && KeyOf(c, a) == k
  }

  predicate Forgets(c: Controller, a: Action, k: string) {
    Enabled(c, a) && (a.ForgetDeleted? || a.SyncOk?) && KeyOf(c, a) == k
  }

  lemma ViewLowersBudget(v: View, threshold: nat, a: Action)
    requires DisciplinedView(v) && PossibleOn(v, a) && v.count > 0 && !a.ForgetDeleted? && !a.SyncOk?
    ensures Tokens(ViewAfter(v, threshold, a)) - ViewAfter(v, threshold, a).count + (if a.SyncFailed? then 1 else 0)
            <= Tokens(v) - v.count
    ensures ViewAfter(v, threshold, a).count > 0
  {
  }

  /** With the count above zero and no Forget of `k`, a step never raises the budget, and a
      failed attempt at `k` lowers it. */
  lemma StepLowersBudget(c: Controller, a: Action, k: string)
    requires KindsOk(c) && Disciplined(c, k) && Enabled(c, a)
    requires c.NumRequeues(k) > 0 && !Forgets(c, a, k)
    ensures Budget(Apply(c, a), k) <= Budget(c, k) - if FailsOn(c, a, k) then 1 else 0
    ensures Apply(c, a).NumRequeues(k) > 0
  {
    StepOnView(c, a, k);
    if KeyOf(c, a) == k {
      ViewLowersBudget(ViewOf(c, k), c.thresholds.For(KindOf(k)), a);
    }
    ThresholdFixed(c, a);
    assert ViewOf(c, k).count == c.NumRequeues(k) && ViewOf(Apply(c, a), k).count == Apply(c, a).NumRequeues(k);
  }

  function Failures(c: Controller, acts: seq<Action>, k: string): nat
    requires CanRun(c, acts)
    decreases |acts|
  {
    if acts == [] then 0
    else (if FailsOn(c, acts[0], k) then 1 else 0) + Failures(Apply(c, acts[0]), acts[1..], k)
  }

  predicate NeverForgets(c: Controller, acts: seq<Action>, k: string)
    requires CanRun(c, acts)
    decreases |acts|
  {
    acts == [] || (!Forgets(c, acts[0], k) && NeverForgets(Apply(c, acts[0]), acts[1..], k))
  }

  /** Retries end: between two Forgets, from the first counted failure on, the number of failed
      attempts is bounded by the budget at that point, whatever informer events arrive. */
  lemma {:induction false} RetriesEnd(c: Controller, acts: seq<Action>, k: string)
    requires CanRun(c, acts) && Undisturbed(c, acts, k) && NeverForgets(c, acts, k)
    requires KindsOk(c) && Disciplined(c, k) && CountBounded(c, k) && c.NumRequeues(k) > 0
    ensures Failures(c, acts, k) + Budget(Run(c, acts), k) <= Budget(c, k)
    ensures 0 <= Budget(Run(c, acts), k)
    decreases |acts|
  {
    OneWorkerAndBoundedCount(c, acts, k);
    if acts != [] {
      StepKeepsKinds(c, acts[0]);
      StepKeepsDiscipline(c, acts[0], k);
      StepKeepsCount(c, acts[0], k);
      StepLowersBudget(c, acts[0], k);
      RetriesEnd(Apply(c, acts[0]), acts[1..], k);
    }
  }

  /** So it is in every run of a controller that has just started: `before` leads to a counted
      failure of `k`, and after it, until the next Forget, attempts at `k` fail a bounded number
      of times. */
  lemma RetriesEndInEveryRun(t: Thresholds, workers: nat, before: seq<Action>, after: seq<Action>, k: string)
    requires CanRun(Start(t, workers), before) && Undisturbed(Start(t, workers), before, k)
    requires var c := Run(Start(t, workers), before);
             c.NumRequeues(k) > 0 && CanRun(c, after) && Undisturbed(c, after, k) && NeverForgets(c, after, k)
    ensures var c := Run(Start(t, workers), before);
            Failures(c, after, k) <= t.For(KindOf(k)) - c.NumRequeues(k) + Tokens(ViewOf(c, k))
  {
    StartDisciplined(t, workers, k);
    OneWorkerAndBoundedCount(Start(t, workers), before, k);
    ThresholdStays(Start(t, workers), before);
    RetriesEnd(Run(Start(t, workers), before), after, k);
  }

  // ---- why forgetWork's Done matters ----

  const ONE := Thresholds(1, 1)

  /** A state with thresholds 1, nothing in the volume queue and the claim queue `q`. */
  function At(q: Queue, failures: map<string, nat>, idle: nat, workers: multiset<Worker>,
              adding: map<Kind, string>): Controller {
    Controller(ONE, q, EMPTY, failures, Pool(idle, 2), workers, adding)
  }

  ghost predicate Reaches(c: Controller, d: Controller) {
    exists acts :: CanRun(c, acts) && Run(c, acts) == d
  }

  lemma {:induction false} RunThen(c: Controller, acts: seq<Action>, a: Action)
    requires CanRun(c, acts) && Enabled(Run(c, acts), a)
    ensures CanRun(c, acts + [a]) && Run(c, acts + [a]) == Apply(Run(c, acts), a)
    decreases |acts|
  {
    if acts == [] {
      assert acts + [a] == [a] && [a][1..] == [];
    } else {
      RunThen(Apply(c, acts[0]), acts[1..], a);
      assert (acts + [a])[1..] == acts[1..] + [a];
    }
  }

  lemma Extend(c: Controller, d: Controller, a: Action)
    requires Reaches(c, d) && Enabled(d, a)
    ensures Reaches(c, Apply(d, a))
  {
    var acts :| CanRun(c, acts) && Run(c, acts) == d;
    RunThen(c, acts, a);
  }

  /** An informer event for a claim that the queue does not track, then a worker takes it. */
  lemma EventThenGet(k: string, idle: nat, workers: multiset<Worker>)
    requires KindOf(k) == Claims && idle > 0
    requires Reaches(Start(ONE, 2), At(EMPTY, map[], idle, workers, map[]))
    ensures Reaches(Start(ONE, 2), At(Queue([], {}, {k}, multiset{}), map[], idle - 1,
                                      workers + multiset{Syncing(Claims, k)}, map[]))
  {
    var c := At(EMPTY, map[], idle, workers, map[]);
    Extend(Start(ONE, 2), c, EnqueueRead(Claims, k));
    var c1 := At(EMPTY, map[], idle, workers, map[Claims := k]);
    assert Apply(c, EnqueueRead(Claims, k)) == c1;
    Extend(Start(ONE, 2), c1, EnqueueAdd(Claims));
    var c2 := At(Queue([k], {k}, {}, multiset{}), map[], idle, workers, map[]);
    assert Apply(c1, EnqueueAdd(Claims)) == c2;
    Extend(Start(ONE, 2), c2, Get(Claims));
    assert Apply(c2, Get(Claims)) ==
      At(Queue([], {}, {k}, multiset{}), map[], idle - 1, workers + multiset{Syncing(Claims, k)}, map[]);
  }

  /** forgetWork on a claim in process: the queue drops it while its worker goes on. */
  lemma ForgetInProcess(k: string, idle: nat, workers: multiset<Worker>)
    requires KindOf(k) == Claims
    requires Reaches(Start(ONE, 2), At(Queue([], {}, {k}, multiset{}), map[], idle, workers, map[]))
    ensures Reaches(Start(ONE, 2), At(EMPTY, map[], idle, workers, map[]))
  {
    var c := At(Queue([], {}, {k}, multiset{}), map[], idle, workers, map[]);
    Extend(Start(ONE, 2), c, ForgetDeleted(k));
    assert Apply(c, ForgetDeleted(k)) == c;
    Extend(Start(ONE, 2), c, DoneDeleted(Claims, k));
    assert Apply(c, DoneDeleted(Claims, k)) == At(EMPTY, map[], idle, workers, map[]);
  }

  /** Two workers whose syncs fail both read count 0, then both count a failure. */
  lemma BothCount(k: string, q: Queue)
    requires KindOf(k) == Claims
    requires Reaches(Start(ONE, 2), At(q, map[], 0, multiset{Syncing(Claims, k), Syncing(Claims, k)}, map[]))
    ensures exists c :: Reaches(Start(ONE, 2), c) && c.NumRequeues(k) == 2
  {
    var s, d := Syncing(Claims, k), Deciding(Claims, k);
    var c := At(q, map[], 0, multiset{s, s}, map[]);
    var c1 := At(q, map[], 0, multiset{s, d}, map[]);
    var c2 := At(q, map[], 0, multiset{d, d}, map[]);
    Extend(Start(ONE, 2), c, SyncFailed(Claims, k));
    assert Apply(c, SyncFailed(Claims, k)) == c1;
    Extend(Start(ONE, 2), c1, SyncFailed(Claims, k));
    assert Apply(c1, SyncFailed(Claims, k)) == c2;
    Extend(Start(ONE, 2), c2, Retry(Claims, k));
    var c3 := Apply(c2, Retry(Claims, k));
    assert c3.workers[d] == 1 && c3.NumRequeues(k) == 1;
    Extend(Start(ONE, 2), c3, Retry(Claims, k));
    assert Apply(c3, Retry(Claims, k)).NumRequeues(k) == 2;
  }

  /** With thresholds 1, a claim deleted and created again while its key is in process: two
      workers get the key, both read count 0, and the count ends above the threshold. */
  lemma DoneOfProcessingKeyBreaksBound()
    ensures exists c :: Reaches(Start(ONE, 2), c) && c.NumRequeues("ns/claim") == 2
  {
    var k := "ns/claim";
    assert k[2] == '/';
    assert Run(Start(ONE, 2), []) == Start(ONE, 2) == At(EMPTY, map[], 2, multiset{}, map[]);
    EventThenGet(k, 2, multiset{});
    ForgetInProcess(k, 1, multiset{} + multiset{Syncing(Claims, k)});
    EventThenGet(k, 1, multiset{} + multiset{Syncing(Claims, k)});
    var w := Syncing(Claims, k);
    assert multiset{} + multiset{w} + multiset{w} == multiset{w, w};
    BothCount(k, Queue([], {}, {k}, multiset{}));
  }
}
