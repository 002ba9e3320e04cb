/** The provision controller's two rate-limited work queues, their shared failure counter, and
    the workers and informer handlers that use them. */
module WorkQueues {
  /** client-go's queue. `waiting` holds the delayed additions. */
  datatype Queue = Queue(queue: seq<string>, dirty: set<string>, processing: set<string>, waiting: multiset<string>) {

    function Add(k: string): Queue {
      if k in dirty then this
      else if k in processing then this.(dirty := dirty + {k})
      else this.(dirty := dirty + {k}, queue := queue + [k])
    }

    function Get(): Queue
      requires queue != []
    {
      Queue(queue[1..], dirty - {queue[0]}, processing + {queue[0]}, waiting)
    }

    function Done(k: string): Queue {
      this.(processing := processing - {k}, queue := if k in dirty then queue + [k] else queue)
    }

    function AddAfter(k: string): Queue {
      this.(waiting := waiting + multiset{k})
    }

    /** A delay is over. */
    function Fire(k: string): Queue
      requires k in waiting
    {
      this.(waiting := waiting - multiset{k}).Add(k)
    }

    /** The waiting loop keeps one entry per item. */
    function Merge(k: string): Queue {
      if waiting[k] > 1 then this.(waiting := waiting - multiset{k}) else this
    }
  }

  datatype Kind = Claims | Volumes

  /** A worker that has a key, between two queue operations. `Deciding` has read that the
      failure count is below the threshold. */
  datatype Worker =
    | Syncing(kind: Kind, key: string)
    | Deciding(kind: Kind, key: string)
    | Finishing(kind: Kind, key: string)

  /** failedProvisionThreshold and failedDeleteThreshold */
  datatype Thresholds = Thresholds(provision: nat, deletion: nat) {
    function For(kind: Kind): nat {
      if kind == Claims then provision else deletion
    }
  }

  /** The workers without a key: each serves one queue only. */
  datatype Pool = Pool(claims: nat, volumes: nat) {
    function Of(kind: Kind): nat {
      if kind == Claims then claims else volumes
    }

    function With(kind: Kind, n: nat): Pool {
      if kind == Claims then this.(claims := n) else this.(volumes := n)
    }
  }

  datatype Controller = Controller(
    thresholds: Thresholds,
    claims: Queue,
    volumes: Queue,
    failures: map<string, nat>,        // one limiter, shared by both queues
    idle: Pool,
    workers: multiset<Worker>,
    adding: map<Kind, string>)         // an informer handler that has read a zero count
  {
    function Q(kind: Kind): Queue {
      if kind == Claims then claims else volumes
    }

    function Put(kind: Kind, q: Queue): Controller {
      if kind == Claims then this.(claims := q) else this.(volumes := q)
    }

    function Move(x: Worker, y: Worker): Controller {
      this.(workers := workers - multiset{x} + multiset{y})
    }

    function Take(left: nat, kind: Kind, k: string): Controller {
      this.(idle := idle.With(kind, left), workers := workers + multiset{Syncing(kind, k)})
    }

    function NumRequeues(k: string): nat {
      if k in failures then failures[k] else 0
    }
  }

  datatype Action =
    | EnqueueRead(kind: Kind, key: string)
    | EnqueueAdd(kind: Kind)
    | ForgetDeleted(key: string)             // forgetWork, first call
    | DoneDeleted(kind: Kind, key: string)   // forgetWork, second call
    | Get(kind: Kind)
    | SyncOk(kind: Kind, key: string)
    | SyncFailed(kind: Kind, key: string)
    | Retry(kind: Kind, key: string)
    | Finish(kind: Kind, key: string)
    | Fire(kind: Kind, key: string)
    | Merge(kind: Kind, key: string)

  /** The queue a key belongs to. */
  function KindOf(k: string): Kind {
    if '/' in k then Claims else Volumes
  }

  /** cache.MetaNamespaceKeyFunc: claims live in a namespace, volumes do not. */
  function MetaKey(namespace: string, name: string): string {
    if namespace == "" then name else namespace + "/" + name
  }

  lemma KindOfMetaKey(namespace: string, name: string)
    requires '/' !in name
    ensures KindOf(MetaKey(namespace, name)) == if namespace == "" then Volumes else Claims
  {
    if namespace != "" {
      assert MetaKey(namespace, name)[|namespace|] == '/';
    }
  }

  predicate Enabled(c: Controller, a: Action) {
    match a
    case EnqueueRead(kind, key) => KindOf(key) == kind && kind !in c.adding
    case EnqueueAdd(kind) => kind in c.adding
    case ForgetDeleted(_) => true
    case DoneDeleted(kind, key) => KindOf(key) == kind
    case Get(kind) => c.idle.Of(kind) > 0 && c.Q(kind).queue != []
    case SyncOk(kind, key) => Syncing(kind, key) in c.workers
    case SyncFailed(kind, key) => Syncing(kind, key) in c.workers
    case Retry(kind, key) => Deciding(kind, key) in c.workers
    case Finish(kind, key) => Finishing(kind, key) in c.workers
    case Fire(kind, key) => key in c.Q(kind).waiting
    case Merge(kind, key) => key in c.Q(kind).waiting
  }

  function Apply(c: Controller, a: Action): Controller
    requires Enabled(c, a)
  {
    match a
    case EnqueueRead(kind, key) => ApplyRead(c, kind, key)
    case EnqueueAdd(kind) => ApplyAdd(c, kind)
    case ForgetDeleted(key) => c.(failures := c.failures - {key})
    case DoneDeleted(kind, key) => c.Put(kind, c.Q(kind).Done(key))
    case Get(kind) => ApplyGet(c, kind)
    case SyncOk(kind, key) => ApplyOk(c, kind, key)
    case SyncFailed(kind, key) => ApplyFailed(c, kind, key)
    case Retry(kind, key) => ApplyRetry(c, kind, key)
    case Finish(kind, key) => ApplyFinish(c, kind, key)
    case Fire(kind, key) => c.Put(kind, c.Q(kind).Fire(key))
    case Merge(kind, key) => c.Put(kind, c.Q(kind).Merge(key))
  }

  /** enqueueWork: only an object that is not being retried is added. */
  function ApplyRead(c: Controller, kind: Kind, key: string): Controller {
    if c.NumRequeues(key) == 0 then c.(adding := c.adding[kind := key]) else c
  }

  function ApplyAdd(c: Controller, kind: Kind): Controller
    requires kind in c.adding
  {
    c.Put(kind, c.Q(kind).Add(c.adding[kind])).(adding := c.adding - {kind})
  }

  function ApplyGet(c: Controller, kind: Kind): Controller
    requires c.idle.Of(kind) > 0 && c.Q(kind).queue != []
  {
    c.Put(kind, c.Q(kind).Get()).Take(c.idle.Of(kind) - 1, kind, c.Q(kind).queue[0])
  }

  function ApplyOk(c: Controller, kind: Kind, key: string): Controller {
    c.(failures := c.failures - {key}).Move(Syncing(kind, key), Finishing(kind, key))
  }

  /** The sync returned an error: retry while the failure count is below the threshold. */
  function ApplyFailed(c: Controller, kind: Kind, key: string): Controller {
    c.Move(Syncing(kind, key), if c.NumRequeues(key) < c.thresholds.For(kind) then Deciding(kind, key)
                               else Finishing(kind, key))
  }

  /** AddRateLimited: count one more failure and add the key after a delay. */
  function CountAndDelay(c: Controller, kind: Kind, key: string): Controller {
    c.Put(kind, c.Q(kind).AddAfter(key)).(failures := c.failures[key := c.NumRequeues(key) + 1])
  }

  function ApplyRetry(c: Controller, kind: Kind, key: string): Controller {
    CountAndDelay(c, kind, key).Move(Deciding(kind, key), Finishing(kind, key))
  }

  function ApplyFinish(c: Controller, kind: Kind, key: string): Controller {
    c.Put(kind, c.Q(kind).Done(key)).(idle := c.idle.With(kind, c.idle.Of(kind) + 1),
                                      workers := c.workers - multiset{Finishing(kind, key)})
  }

  predicate CanRun(c: Controller, acts: seq<Action>)
    decreases |acts|
  {
    acts == [] || (Enabled(c, acts[0]) && CanRun(Apply(c, acts[0]), acts[1..]))
  }

  function Run(c: Controller, acts: seq<Action>): Controller
    requires CanRun(c, acts)
    decreases |acts|
  {
    if acts == [] then c else Run(Apply(c, acts[0]), acts[1..])
  }

  const EMPTY := Queue([], {}, {}, multiset{})

  /** As many workers for claims as for volumes. */
  function Start(thresholds: Thresholds, workers: nat): Controller {
    Controller(thresholds, EMPTY, EMPTY, map[], Pool(workers, workers), multiset{}, map[])
  }

  // ---- one worker per key ----

  /** What one queue, and the whole controller, know about one key. */
  datatype QueueView = QueueView(queued: nat, dirty: bool, processing: bool, waiting: nat)

  datatype View = View(queue: QueueView, adding: bool, count: nat, syncing: nat, deciding: nat, finishing: nat)

  function QueueViewOf(q: Queue, k: string): QueueView {
    QueueView(multiset(q.queue)[k], k in q.dirty, k in q.processing, q.waiting[k])
  }

  function ViewOf(c: Controller, k: string): View {
    var kind := KindOf(k);
    View(QueueViewOf(c.Q(kind), k), kind in c.adding && c.adding[kind] == k, c.NumRequeues(k),
         c.workers[Syncing(kind, k)], c.workers[Deciding(kind, k)], c.workers[Finishing(kind, k)])
  }

  /** A key is in the queue once if it is dirty and not processing, else not at all; it is
      processing iff a worker has it, and then exactly one worker has it. */
  predicate DisciplinedView(v: View) {
    && v.queue.queued == (if v.queue.dirty && !v.queue.processing then 1 else 0)
    && v.syncing + v.deciding + v.finishing == (if v.queue.processing then 1 else 0)
  }

  predicate Disciplined(c: Controller, k: string) {
    DisciplinedView(ViewOf(c, k))
  }

  /** Keys stay in the queue, the handler and the workers of their own kind. */
  ghost predicate KindsOk(c: Controller) {
    && OnlyKind(c.claims, Claims)
    && OnlyKind(c.volumes, Volumes)
    && (forall x :: x in c.workers ==> KindOf(x.key) == x.kind)
    && (forall kind :: kind in c.adding ==> KindOf(c.adding[kind]) == kind)
  }

  ghost predicate OnlyKind(q: Queue, kind: Kind) {
    && (forall i :: 0 <= i < |q.queue| ==> KindOf(q.queue[i]) == kind)
    && (forall k :: k in q.dirty || k in q.processing || k in q.waiting ==> KindOf(k) == kind)
  }

  /** forgetWork's Done hits a key that the queue is tracking. */
  predicate Disturbs(c: Controller, a: Action, k: string) {
    a.DoneDeleted? && a.key == k && (k in c.Q(a.kind).dirty || k in c.Q(a.kind).processing)
  }
}
