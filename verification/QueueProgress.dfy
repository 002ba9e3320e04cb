/** What the queues and their workers get done: no worker and no key is lost, keys are taken in
    order, and what becomes of a key that has been synced. */
module QueueProgress {
  import opened WorkQueues
  import opened QueueRetries

  // ---- the workers ----

  /** Those of the workers that have a key of this kind. */
  ghost function OfKind(workers: multiset<Worker>, kind: Kind): (r: multiset<Worker>)
    ensures forall x :: r[x] == if x.kind == kind then workers[x] else 0
    decreases |workers|
  {
    if workers == multiset{} then multiset{}
    else
      var x :| x in workers;
      var rest := OfKind(workers - multiset{x}, kind);
      if x.kind == kind then rest + multiset{x} else rest
  }

  lemma AddRemove(workers: multiset<Worker>, x: Worker)
    ensures workers + multiset{x} - multiset{x} == workers
    ensures x in workers ==> workers - multiset{x} + multiset{x} == workers
  {
  }

  lemma OfKindAdd(workers: multiset<Worker>, x: Worker, kind: Kind)
    ensures |OfKind(workers + multiset{x}, kind)| == |OfKind(workers, kind)| + if x.kind == kind then 1 else 0
  {
    var more := if x.kind == kind then multiset{x} else multiset{};
    assert OfKind(workers + multiset{x}, kind) == OfKind(workers, kind) + more;
  }

  lemma OfKindRemove(workers: multiset<Worker>, x: Worker, kind: Kind)
    requires x in workers
    ensures |OfKind(workers - multiset{x}, kind)| == |OfKind(workers, kind)| - if x.kind == kind then 1 else 0
  {
    OfKindAdd(workers - multiset{x}, x, kind);
    AddRemove(workers, x);
  }

  /** The workers of a queue: idle, or with one of its keys. */
  ghost function WorkersOf(c: Controller, kind: Kind): nat {
    c.idle.Of(kind) + |OfKind(c.workers, kind)|
  }

  lemma MoveKeepsWorkers(c: Controller, x: Worker, y: Worker, kind: Kind)
    requires x in c.workers && x.kind == y.kind
    ensures |OfKind(c.Move(x, y).workers, kind)| == |OfKind(c.workers, kind)|
  {
    OfKindRemove(c.workers, x, kind);
    OfKindAdd(c.workers - multiset{x}, y, kind);
  }

  lemma TakeKeepsWorkers(c: Controller, k: Kind, kind: Kind)
    requires Enabled(c, Get(k))
    ensures WorkersOf(Apply(c, Get(k)), kind) == WorkersOf(c, kind)
  {
    OfKindAdd(c.workers, Syncing(k, c.Q(k).queue[0]), kind);
    assert Apply(c, Get(k)).workers == c.workers + multiset{Syncing(k, c.Q(k).queue[0])};
    assert Apply(c, Get(k)).idle == c.idle.With(k, c.idle.Of(k) - 1);
  }

  lemma FinishKeepsWorkers(c: Controller, k: Kind, key: string, kind: Kind)
    requires Enabled(c, Finish(k, key))
    ensures WorkersOf(Apply(c, Finish(k, key)), kind) == WorkersOf(c, kind)
  {
    OfKindRemove(c.workers, Finishing(k, key), kind);
    FinishedState(c, k, key, c.workers - multiset{Finishing(k, key)});
  }

  lemma OkKeepsWorkers(c: Controller, k: Kind, key: string, kind: Kind)
    requires Enabled(c, SyncOk(k, key))
    ensures WorkersOf(Apply(c, SyncOk(k, key)), kind) == WorkersOf(c, kind)
  {
    MoveKeepsWorkers(c, Syncing(k, key), Finishing(k, key), kind);
  }

  lemma FailureKeepsWorkers(c: Controller, k: Kind, key: string, kind: Kind)
    requires Enabled(c, SyncFailed(k, key))
    ensures WorkersOf(Apply(c, SyncFailed(k, key)), kind) == WorkersOf(c, kind)
  {
    if c.NumRequeues(key) < c.thresholds.For(k) {
      MoveKeepsWorkers(c, Syncing(k, key), Deciding(k, key), kind);
    } else {
      MoveKeepsWorkers(c, Syncing(k, key), Finishing(k, key), kind);
    }
  }

  lemma RetryKeepsWorkers(c: Controller, k: Kind, key: string, kind: Kind)
    requires Enabled(c, Retry(k, key))
    ensures WorkersOf(Apply(c, Retry(k, key)), kind) == WorkersOf(c, kind)
  {
    MoveKeepsWorkers(c, Deciding(k, key), Finishing(k, key), kind);
    assert Apply(c, Retry(k, key)).workers == c.Move(Deciding(k, key), Finishing(k, key)).workers;
    assert Apply(c, Retry(k, key)).idle == c.idle;
  }

  lemma StepKeepsWorkers(c: Controller, a: Action, kind: Kind)
    requires Enabled(c, a)
    ensures WorkersOf(Apply(c, a), kind) == WorkersOf(c, kind)
  {
    if a.Get? {
      TakeKeepsWorkers(c, a.kind, kind);
    } else if a.Finish? {
      FinishKeepsWorkers(c, a.kind, a.key, kind);
    } else if a.SyncOk? {
      OkKeepsWorkers(c, a.kind, a.key, kind);
    } else if a.SyncFailed? {
      FailureKeepsWorkers(c, a.kind, a.key, kind);
    } else if a.Retry? {
      RetryKeepsWorkers(c, a.kind, a.key, kind);
    } else {
      assert Apply(c, a).workers == c.workers && Apply(c, a).idle == c.idle;
    }
  }

  lemma {:induction false} RunKeepsWorkers(c: Controller, acts: seq<Action>, kind: Kind)
    requires CanRun(c, acts)
    ensures WorkersOf(Run(c, acts), kind) == WorkersOf(c, kind)
    decreases |acts|
  {
    if acts != [] {
      StepKeepsWorkers(c, acts[0], kind);
      RunKeepsWorkers(Apply(c, acts[0]), acts[1..], kind);
    }
  }

  /** No worker is lost, whatever happens: each of a queue's workers is idle or has one of its keys,
      and while it has keys and fewer are worked on than there are workers, the next can be taken. */
  lemma WorkersStay(t: Thresholds, workers: nat, acts: seq<Action>, kind: Kind)
    requires CanRun(Start(t, workers), acts)
    ensures var c := Run(Start(t, workers), acts);
            && (if kind == Claims then c.idle.claims else c.idle.volumes) + |OfKind(c.workers, kind)| == workers
            && (Enabled(c, Get(kind)) <==> |OfKind(c.workers, kind)| < workers && c.Q(kind).queue != [])
  {
    RunKeepsWorkers(Start(t, workers), acts, kind);
  }

  /** A worker that has a key can always go on, and gives it back in at most three steps. */
  lemma WorkerGoesOn(c: Controller, w: Worker)
    requires w in c.workers
    ensures var a := match w
                     case Syncing(kind, key) => SyncFailed(kind, key)
                     case Deciding(kind, key) => Retry(kind, key)
                     case Finishing(kind, key) => Finish(kind, key);
            && Enabled(c, a)
            && (w.Finishing? ==> Apply(c, a).workers == c.workers - multiset{w})
            && (w.Deciding? ==> Finishing(w.kind, w.key) in Apply(c, a).workers)
            && (w.Syncing? ==> Deciding(w.kind, w.key) in Apply(c, a).workers
                               || Finishing(w.kind, w.key) in Apply(c, a).workers)
  {
  }

  // ---- no key is lost ----

  /** A sync of this key is due: it is dirty, it waits for a delay to end, or a handler adds it. */
  predicate Owed(c: Controller, k: string) {
    var kind := KindOf(k);
    k in c.Q(kind).dirty || k in c.Q(kind).waiting || (kind in c.adding && c.adding[kind] == k)
  }

  predicate Takes(c: Controller, a: Action, k: string)
    requires Enabled(c, a)
  {
    a.Get? && c.Q(a.kind).queue[0] == k
  }

  predicate OwedView(v: View) {
    v.queue.dirty || v.queue.waiting > 0 || v.adding
  }

  lemma OwedIffView(c: Controller, k: string)
    ensures Owed(c, k) <==> OwedView(ViewOf(c, k))
  {
  }

  lemma OwedViewStays(v: View, threshold: nat, a: Action)
    requires PossibleOn(v, a) && OwedView(v) && !a.Get?
    ensures OwedView(ViewAfter(v, threshold, a))
  {
  }

  /** Only a worker that takes the key settles that. */
  lemma OwedStays(c: Controller, a: Action, k: string)
    requires KindsOk(c) && Enabled(c, a) && Owed(c, k) && !Takes(c, a, k)
    ensures Owed(Apply(c, a), k)
  {
    OwedIffView(c, k);
    OwedIffView(Apply(c, a), k);
    StepOnView(c, a, k);
    if KeyOf(c, a) == k {
      OwedViewStays(ViewOf(c, k), c.thresholds.For(KindOf(k)), a);
    }
  }

  predicate Taken(c: Controller, acts: seq<Action>, k: string)
    requires CanRun(c, acts)
    decreases |acts|
  {
    acts != [] && (Takes(c, acts[0], k) || Taken(Apply(c, acts[0]), acts[1..], k))
  }

  /** In every run: a key that is due is taken by a worker, or stays due. */
  lemma {:induction false} NoKeyIsLost(c: Controller, acts: seq<Action>, k: string)
    requires KindsOk(c) && CanRun(c, acts) && Owed(c, k)
    ensures Owed(Run(c, acts), k) || Taken(c, acts, k)
    decreases |acts|
  {
    if acts != [] && !Takes(c, acts[0], k) {
      StepKeepsKinds(c, acts[0]);
      OwedStays(c, acts[0], k);
      NoKeyIsLost(Apply(c, acts[0]), acts[1..], k);
    }
  }

  /** And in every undisturbed run of a controller there is a way on for it: the handler, the end
      of the delay, its place in the queue, or the worker that has it now. */
  lemma OwedCanGoOn(t: Thresholds, workers: nat, acts: seq<Action>, k: string)
    requires CanRun(Start(t, workers), acts) && Undisturbed(Start(t, workers), acts, k)
    requires Owed(Run(Start(t, workers), acts), k)
    ensures var c, kind := Run(Start(t, workers), acts), KindOf(k);
            || Enabled(c, Fire(kind, k))
            || (Enabled(c, EnqueueAdd(kind)) && c.adding[kind] == k)
            || k in c.Q(kind).queue
            || Syncing(kind, k) in c.workers || Deciding(kind, k) in c.workers || Finishing(kind, k) in c.workers
  {
    StartDisciplined(t, workers, k);
    OneWorkerAndBoundedCount(Start(t, workers), acts, k);
    HasWayOn(Run(Start(t, workers), acts), k);
  }

  lemma HasWayOn(c: Controller, k: string)
    requires Disciplined(c, k) && Owed(c, k)
    ensures var kind := KindOf(k);
            || Enabled(c, Fire(kind, k))
            || (Enabled(c, EnqueueAdd(kind)) && c.adding[kind] == k)
            || k in c.Q(kind).queue
            || Syncing(kind, k) in c.workers || Deciding(kind, k) in c.workers || Finishing(kind, k) in c.workers
  {
    var q := c.Q(KindOf(k)).queue;
    assert multiset(q)[k] > 0 ==> k in q;
  }

  // ---- the order ----

  function Gets(acts: seq<Action>, kind: Kind): nat {
    if acts == [] then 0 else (if acts[0] == Get(kind) then 1 else 0) + Gets(acts[1..], kind)
  }

  /** Keys leave the queue at its front, to a worker, and come in at its end. */
  lemma StepIsFifo(c: Controller, a: Action, kind: Kind)
    requires Enabled(c, a)
    ensures var q, q' := c.Q(kind).queue, Apply(c, a).Q(kind).queue;
            if a == Get(kind)
            then q != [] && q' == q[1..] && Apply(c, a).workers == c.workers + multiset{Syncing(kind, q[0])}
            else q' == q || q' == q + [KeyOf(c, a)]
  {
    if a == Get(kind) {
      TakesFirst(c, kind);
    } else if a.EnqueueAdd? || a.DoneDeleted? || a.Finish? || a.Fire? {
      AddsLast(c, a, kind);
    }
  }

  lemma TakesFirst(c: Controller, kind: Kind)
    requires Enabled(c, Get(kind))
    ensures var q, d := c.Q(kind).queue, Apply(c, Get(kind));
            q != [] && d.Q(kind).queue == q[1..] && d.workers == c.workers + multiset{Syncing(kind, q[0])}
  {
  }

  lemma AddsLast(c: Controller, a: Action, kind: Kind)
    requires Enabled(c, a) && (a.EnqueueAdd? || a.DoneDeleted? || a.Finish? || a.Fire?)
    ensures var q, q' := c.Q(kind).queue, Apply(c, a).Q(kind).queue; q' == q || q' == q + [KeyOf(c, a)]
  {
  }

  /** In every run: after some Gets, the queue is what it was, without the first keys, and with
      others behind them. No key overtakes another. */
  lemma {:induction false} FirstInFirstOut(c: Controller, acts: seq<Action>, kind: Kind) returns (added: seq<string>)
    requires CanRun(c, acts)
    ensures Gets(acts, kind) <= |c.Q(kind).queue + added|
    ensures Run(c, acts).Q(kind).queue == (c.Q(kind).queue + added)[Gets(acts, kind)..]
    decreases |acts|
  {
    added := [];
    if acts != [] {
      var rest := FirstInFirstOut(Apply(c, acts[0]), acts[1..], kind);
      StepIsFifo(c, acts[0], kind);
      var q, q' := c.Q(kind).queue, Apply(c, acts[0]).Q(kind).queue;
      added := if acts[0] == Get(kind) || q' == q then rest else [KeyOf(c, acts[0])] + rest;
      FifoNext(q, q', added, rest, Gets(acts[1..], kind));
    }
  }

  lemma FifoNext(q: seq<string>, q': seq<string>, added: seq<string>, rest: seq<string>, n: nat)
    requires n <= |q' + rest|
    ensures q != [] && q' == q[1..] && added == rest ==> (q' + rest)[n..] == (q + added)[n + 1..]
    ensures q' + rest == q + added ==> (q' + rest)[n..] == (q + added)[n..]
    ensures |added| == |rest| + 1 && added[1..] == rest && q' == q + [added[0]] ==> q' + rest == q + added
  {
  }

  // ---- what becomes of a key ----

  /** The worker has given the key back: it is idle, the key is not being processed, and is queued
      at the end if it has become dirty meanwhile. The failures and delays are as given. */
  ghost predicate GivenBack(c: Controller, d: Controller, kind: Kind, k: string, failures: map<string, nat>,
                            waiting: multiset<string>) {
    && d.idle == c.idle.With(kind, c.idle.Of(kind) + 1)
    && d.workers == c.workers - multiset{Syncing(kind, k)}
    && d.failures == failures
    && d.adding == c.adding
    && d.Q(kind) == Queue(if k in c.Q(kind).dirty then c.Q(kind).queue + [k] else c.Q(kind).queue,
                          c.Q(kind).dirty, c.Q(kind).processing - {k}, waiting)
    && (if kind == Claims then d.volumes == c.volumes else d.claims == c.claims)
  }

  lemma OneStep(c: Controller, a: Action)
    requires Enabled(c, a)
    ensures CanRun(c, [a]) && Run(c, [a]) == Apply(c, a)
  {
    assert [a][0] == a && [a][1..] == [];
  }

  lemma TwoSteps(c: Controller, a: Action, b: Action)
    requires Enabled(c, a) && Enabled(Apply(c, a), b)
    ensures CanRun(c, [a, b]) && Run(c, [a, b]) == Apply(Apply(c, a), b)
  {
    assert [a, b][0] == a && [a, b][1..] == [b];
    OneStep(Apply(c, a), b);
  }

  lemma ThenTwoSteps(c: Controller, a: Action, b: Action, e: Action)
    requires Enabled(c, a) && CanRun(Apply(c, a), [b, e])
    ensures CanRun(c, [a, b, e]) && Run(c, [a, b, e]) == Run(Apply(c, a), [b, e])
  {
    assert [a, b, e][0] == a && [a, b, e][1..] == [b, e];
  }

  lemma FinishedState(d: Controller, kind: Kind, k: string, rest: multiset<Worker>)
    requires Finishing(kind, k) in d.workers && d.workers - multiset{Finishing(kind, k)} == rest
    ensures var e := Apply(d, Finish(kind, k));
            && e.idle == d.idle.With(kind, d.idle.Of(kind) + 1) && e.workers == rest
            && e.failures == d.failures && e.adding == d.adding && e.Q(kind) == d.Q(kind).Done(k)
            && (if kind == Claims then e.volumes == d.volumes else e.claims == d.claims)
  {
  }

  /** The worker is about to give the key back: before, one failure may have been counted or all
      forgotten, and one more delay may wait. */
  ghost predicate ReadyToFinish(c: Controller, d: Controller, kind: Kind, k: string, waiting: multiset<string>) {
    && d.workers == c.workers - multiset{Syncing(kind, k)} + multiset{Finishing(kind, k)}
    && d.idle == c.idle && d.adding == c.adding
    && d.Q(kind) == c.Q(kind).(waiting := waiting)
    && (if kind == Claims then d.volumes == c.volumes else d.claims == c.claims)
  }

  lemma FinishGivesBack(c: Controller, d: Controller, kind: Kind, k: string, waiting: multiset<string>)
    requires ReadyToFinish(c, d, kind, k, waiting)
    ensures Enabled(d, Finish(kind, k)) && GivenBack(c, Apply(d, Finish(kind, k)), kind, k, d.failures, waiting)
  {
    AddRemove(c.workers - multiset{Syncing(kind, k)}, Finishing(kind, k));
    FinishedState(d, kind, k, c.workers - multiset{Syncing(kind, k)});
  }

  lemma RetryCounts(c: Controller, d: Controller, kind: Kind, k: string)
    requires d == c.(workers := c.workers - multiset{Syncing(kind, k)} + multiset{Deciding(kind, k)})
    ensures Enabled(d, Retry(kind, k))
    ensures ReadyToFinish(c, Apply(d, Retry(kind, k)), kind, k, c.Q(kind).waiting + multiset{k})
    ensures Apply(d, Retry(kind, k)).failures == c.failures[k := if k in c.failures then c.failures[k] + 1 else 1]
  {
    AddRemove(c.workers - multiset{Syncing(kind, k)}, Deciding(kind, k));
  }

  /** A sync that succeeds forgets the failures. */
  lemma SuccessForgets(c: Controller, kind: Kind, k: string)
    requires Syncing(kind, k) in c.workers
    ensures CanRun(c, [SyncOk(kind, k), Finish(kind, k)])
    ensures GivenBack(c, Run(c, [SyncOk(kind, k), Finish(kind, k)]), kind, k, c.failures - {k}, c.Q(kind).waiting)
  {
    FinishGivesBack(c, Apply(c, SyncOk(kind, k)), kind, k, c.Q(kind).waiting);
    TwoSteps(c, SyncOk(kind, k), Finish(kind, k));
  }

  /** One that fails below the threshold is counted, and the key is added again after a delay. */
  lemma FailureIsRetried(c: Controller, kind: Kind, k: string)
    requires Syncing(kind, k) in c.workers
    requires c.NumRequeues(k) < if kind == Claims then c.thresholds.provision else c.thresholds.deletion
    ensures var acts := [SyncFailed(kind, k), Retry(kind, k), Finish(kind, k)];
            CanRun(c, acts)
            && GivenBack(c, Run(c, acts), kind, k, c.failures[k := if k in c.failures then c.failures[k] + 1 else 1],
                         c.Q(kind).waiting + multiset{k})
  {
    var d := Apply(c, SyncFailed(kind, k));
    RetryCounts(c, d, kind, k);
    FinishGivesBack(c, Apply(d, Retry(kind, k)), kind, k, c.Q(kind).waiting + multiset{k});
    TwoSteps(d, Retry(kind, k), Finish(kind, k));
    ThenTwoSteps(c, SyncFailed(kind, k), Retry(kind, k), Finish(kind, k));
  }

  /** One that fails at the threshold is given up: no count, no delay. */
  lemma FailureIsGivenUp(c: Controller, kind: Kind, k: string)
    requires Syncing(kind, k) in c.workers
    requires c.NumRequeues(k) >= if kind == Claims then c.thresholds.provision else c.thresholds.deletion
    ensures CanRun(c, [SyncFailed(kind, k), Finish(kind, k)])
    ensures GivenBack(c, Run(c, [SyncFailed(kind, k), Finish(kind, k)]), kind, k, c.failures, c.Q(kind).waiting)
  {
    FinishGivesBack(c, Apply(c, SyncFailed(kind, k)), kind, k, c.Q(kind).waiting);
    TwoSteps(c, SyncFailed(kind, k), Finish(kind, k));
  }

  /** An event for an object without failures makes its key dirty, and queues it unless it is
      queued or being processed; an object that is being retried, or was given up, is left alone. */
  lemma EventAddsUnlessRetried(c: Controller, k: string)
    requires Enabled(c, EnqueueRead(KindOf(k), k))
    ensures k in c.failures && c.failures[k] > 0 ==> Apply(c, EnqueueRead(KindOf(k), k)) == c
    ensures k !in c.failures || c.failures[k] == 0 ==>
              var kind, acts := KindOf(k), [EnqueueRead(KindOf(k), k), EnqueueAdd(KindOf(k))];
              var q := c.Q(kind);
              CanRun(c, acts)
              && Run(c, acts) == c.Put(kind, q.(dirty := q.dirty + {k},
                                                queue := if k in q.dirty || k in q.processing then q.queue
                                                         else q.queue + [k]))
  {
    var kind := KindOf(k);
    if k !in c.failures || c.failures[k] == 0 {
      TwoSteps(c, EnqueueRead(kind, k), EnqueueAdd(kind));
      assert c.adding[kind := k] - {kind} == c.adding;
      assert k in c.Q(kind).dirty ==> c.Q(kind).dirty + {k} == c.Q(kind).dirty;
    }
  }

  /** Nothing but the queues themselves holds a step up: events and deletions come at any time, a sync
      ends either way, delays end and merge. */
  lemma AnythingMayHappen(c: Controller, k: string, kind: Kind)
    ensures KindOf(k) !in c.adding ==> Enabled(c, EnqueueRead(KindOf(k), k))
    ensures Enabled(c, ForgetDeleted(k)) && Enabled(c, DoneDeleted(KindOf(k), k))
    ensures kind in c.adding ==> Enabled(c, EnqueueAdd(kind))
    ensures Syncing(kind, k) in c.workers ==> Enabled(c, SyncOk(kind, k)) && Enabled(c, SyncFailed(kind, k))
    ensures k in c.Q(kind).waiting ==> Enabled(c, Fire(kind, k)) && Enabled(c, Merge(kind, k))
  {
  }

  /** forgetWork: the failures of the deleted object, and of no other, are forgotten, and its key is
      taken out of processing. */
  lemma DeletionForgets(c: Controller, k: string)
    ensures var kind := KindOf(k); var q := c.Q(kind);
            && CanRun(c, [ForgetDeleted(k), DoneDeleted(kind, k)])
            && Run(c, [ForgetDeleted(k), DoneDeleted(kind, k)]) ==
                 c.Put(kind, q.(processing := q.processing - {k},
                                queue := if k in q.dirty then q.queue + [k] else q.queue)).(
                   failures := c.failures - {k})
  {
    TwoSteps(c, ForgetDeleted(k), DoneDeleted(KindOf(k), k));
  }
}
