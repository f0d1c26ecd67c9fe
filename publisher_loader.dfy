// The publisher manager: loading a plugin into a publisher instance, the
// instance's bounded ring-buffer queue, the worker's dequeue step, start and
// stop, and the per-publisher database filter.
module PublisherLoader {
  import opened Wrappers
  import opened CText
  import opened CdcTypes

  const PUBLISHER_QUEUE_CAPACITY: int := 1024

  // ---------------------------------------------------------------------
  // Queue capacity

  /** The uint64 `max_q_depth` assigned to the `int` field `q_capacity` at load. */
  function ConfiguredCapacity(maxQDepth: nat): int
  {
    if maxQDepth > 0 then ToInt32(maxQDepth) else PUBLISHER_QUEUE_CAPACITY
  }

  /** queue_init: a non-positive `q_capacity` falls back to the default. */
  function InitCapacity(qCapacity: int): int
  {
    if qCapacity > 0 then qCapacity else PUBLISHER_QUEUE_CAPACITY
  }

  /** The capacity a loaded queue ends up with. */
  function QueueCapacity(maxQDepth: nat): int
  {
    InitCapacity(ConfiguredCapacity(maxQDepth))
  }

  lemma QueueCapacityRule(maxQDepth: nat)
    ensures QueueCapacity(maxQDepth) > 0
    ensures 0 < maxQDepth < 0x8000_0000 ==> QueueCapacity(maxQDepth) == maxQDepth
    ensures maxQDepth == 0 ==> QueueCapacity(maxQDepth) == PUBLISHER_QUEUE_CAPACITY
    ensures maxQDepth == 0x1_0000_0000 ==> QueueCapacity(maxQDepth) == PUBLISHER_QUEUE_CAPACITY
    ensures maxQDepth == 0x1_0000_0005 ==> QueueCapacity(maxQDepth) == 5
  {
  }

  // ---------------------------------------------------------------------
  // The queue as a value: what the ring buffer holds, its capacity and the
  // drop counter.

  datatype QueueState = QueueState(items: seq<CdcEvent>, capacity: nat, dropped: nat)

  /**
   * One enqueue of an event (the instance being active and the event present);
   * `copyOk` says whether the deep copy of the event could be allocated.
   */
  function EnqueueSpec(q: QueueState, e: CdcEvent, copyOk: bool): QueueState
  {
    if !copyOk || |q.items| >= q.capacity then q.(dropped := q.dropped + 1)
    else q.(items := q.items + [e])
  }

  /** Enqueue every event of `es` in order, every copy succeeding. */
  function EnqueueAll(q: QueueState, es: seq<CdcEvent>): QueueState
    decreases |es|
  {
    if es == [] then q else EnqueueAll(EnqueueSpec(q, es[0], true), es[1..])
  }

  function Min(a: int, b: int): int
  {
    if a <= b then a else b
  }

  /**
   * A burst of enqueues keeps exactly the events that fit, in arrival order,
   * and counts every other one as dropped.
   */
  lemma {:induction false} EnqueueAllKeepsWhatFits(q: QueueState, es: seq<CdcEvent>)
    requires |q.items| <= q.capacity
    decreases |es|
    ensures var k := Min(q.capacity - |q.items|, |es|);
            EnqueueAll(q, es) == QueueState(q.items + es[..k], q.capacity, q.dropped + |es| - k)
  {
    if es != [] {
      var q' := EnqueueSpec(q, es[0], true);
      EnqueueAllKeepsWhatFits(q', es[1..]);
      var k := Min(q.capacity - |q.items|, |es|);
      if |q.items| < q.capacity {
        assert q'.items + es[1..][..k - 1] == q.items + es[..k];
      } else {
        assert k == 0;
      }
    }
  }

  /** Dequeue from the value model: the oldest event leaves first. */
  function DequeueSpec(q: QueueState): (r: (CdcEvent, QueueState))
    requires q.items != []
  {
    (q.items[0], q.(items := q.items[1..]))
  }

  /** Drain everything, returning events in the order they leave. */
  function DrainAll(q: QueueState): (out: seq<CdcEvent>)
    decreases |q.items|
  {
    if q.items == [] then [] else
      var (e, q') := DequeueSpec(q);
      [e] + DrainAll(q')
  }

  lemma {:induction false} DrainAllIsItems(q: QueueState)
    ensures DrainAll(q) == q.items
    decreases |q.items|
  {
    if q.items != [] {
      DrainAllIsItems(DequeueSpec(q).1);
    }
  }

  /**
   * FIFO: events enqueued into an empty queue with room for all of them
   * come out in exactly the order they went in, and none is dropped.
   */
  lemma FifoOrder(capacity: nat, es: seq<CdcEvent>)
    requires |es| <= capacity
    ensures EnqueueAll(QueueState([], capacity, 0), es).dropped == 0
    ensures DrainAll(EnqueueAll(QueueState([], capacity, 0), es)) == es
  {
    EnqueueAllKeepsWhatFits(QueueState([], capacity, 0), es);
    assert es[..|es|] == es;
    DrainAllIsItems(EnqueueAll(QueueState([], capacity, 0), es));
  }

  // ---------------------------------------------------------------------
  // Ring-buffer index arithmetic

  /** The array index of the i-th queued event when the head is at `head`. */
  function RingSlot(head: int, i: int, cap: int): int
    requires cap > 0
  {
    (head + i) % cap
  }

  lemma Wrap(x: int, cap: int)
    requires cap > 0 && 0 <= x < 2 * cap
    ensures x % cap == if x < cap then x else x - cap
  {
    if x >= cap {
      assert x == 1 * cap + (x - cap);
    }
  }

  lemma SlotDistinct(h: int, i: int, j: int, cap: int)
    requires 0 <= h < cap && 0 <= i < cap && 0 <= j < cap && i != j
    ensures (h + i) % cap != (h + j) % cap
  {
    Wrap(h + i, cap);
    Wrap(h + j, cap);
  }

  lemma SlotStep(h: int, c: int, cap: int)
    requires 0 <= h < cap && 0 <= c < cap
    ensures ((h + c) % cap + 1) % cap == (h + c + 1) % cap
  {
    Wrap(h + c, cap);
    Wrap(h + c + 1, cap);
    Wrap((h + c) % cap + 1, cap);
  }

  lemma HeadStep(h: int, i: int, cap: int)
    requires 0 <= h < cap && 0 <= i < cap
    ensures ((h + 1) % cap + i) % cap == (if i + 1 < cap then (h + (i + 1)) % cap else h)
  {
    Wrap(h + 1, cap);
    Wrap((h + 1) % cap + i, cap);
    if i + 1 < cap {
      Wrap(h + i + 1, cap);
    }
  }

  /**
   * The ring-buffer layout: the `count` occupied slots start at `head` and
   * wrap modulo the capacity, holding `contents` in order; every other slot
   * is NULL.
   */
  ghost predicate RingHolds(slots: seq<Option<CdcEvent>>, head: int, count: int, contents: seq<CdcEvent>)
  {
    |slots| > 0 && 0 <= head < |slots| && 0 <= count <= |slots| && |contents| == count &&
    forall i :: 0 <= i < |slots| ==>
      slots[RingSlot(head, i, |slots|)] == if i < count then Some(contents[i]) else None
  }

  /** An all-NULL buffer is an empty ring. */
  lemma RingEmpty(slots: seq<Option<CdcEvent>>)
    requires |slots| > 0 && forall i :: 0 <= i < |slots| ==> slots[i].None?
    ensures RingHolds(slots, 0, 0, [])
  {
    forall i | 0 <= i < |slots|
      ensures slots[RingSlot(0, i, |slots|)] == None
    {
      Wrap(i, |slots|);
    }
  }

  /** Writing the first free slot appends to the ring. */
  lemma RingPush(slots: seq<Option<CdcEvent>>, head: int, count: int, contents: seq<CdcEvent>, e: CdcEvent)
    requires RingHolds(slots, head, count, contents) && count < |slots|
    ensures RingSlot(head, count, |slots|) == (head + count) % |slots|
    ensures RingHolds(slots[(head + count) % |slots| := Some(e)], head, count + 1, contents + [e])
    ensures ((head + count) % |slots| + 1) % |slots| == (head + count + 1) % |slots|
  {
    var cap := |slots|;
    var tail := (head + count) % cap;
    var slots' := slots[tail := Some(e)];
    var contents' := contents + [e];
    forall i | 0 <= i < cap
      ensures slots'[RingSlot(head, i, cap)] == if i < count + 1 then Some(contents'[i]) else None
    {
      if i != count {
        SlotDistinct(head, i, count, cap);
        assert slots'[RingSlot(head, i, cap)] == slots[RingSlot(head, i, cap)];
      }
    }
    SlotStep(head, count, cap);
  }

  /** Clearing the head slot removes the oldest element from the ring. */
  lemma RingPop(slots: seq<Option<CdcEvent>>, head: int, count: int, contents: seq<CdcEvent>)
    requires RingHolds(slots, head, count, contents) && count > 0
    ensures slots[head] == Some(contents[0])
    ensures RingHolds(slots[head := None], (head + 1) % |slots|, count - 1, contents[1..])
    ensures ((head + 1) % |slots| + (count - 1)) % |slots| == (head + count) % |slots|
  {
    var cap := |slots|;
    Wrap(head, cap);
    assert slots[RingSlot(head, 0, cap)] == Some(contents[0]);
    var slots' := slots[head := None];
    var h' := (head + 1) % cap;
    var contents' := contents[1..];
    Wrap(head + 1, cap);
    forall i | 0 <= i < cap
      ensures slots'[RingSlot(h', i, cap)] == if i < count - 1 then Some(contents'[i]) else None
    {
      HeadStep(head, i, cap);
      if i + 1 < cap {
        SlotDistinct(head, i + 1, 0, cap);
        assert slots'[RingSlot(h', i, cap)] == slots[RingSlot(head, i + 1, cap)];
      }
    }
    HeadStep(head, count - 1, cap);
    Wrap(head + count, cap);
  }

  // ---------------------------------------------------------------------
  // Database filter

  /** The filter-list search loop. */
  function ListContains(names: seq<string>, db: string): (r: bool)
    ensures r <==> db in names
  {
    if names == [] then false else names[0] == db || ListContains(names[1..], db)
  }

  /**
   * publisher_should_publish: nothing for an inactive instance or a missing
   * database name; everything when the filter list is empty; otherwise only
   * the listed databases.
   */
  function ShouldPublish(active: bool, databases: seq<string>, db: Option<string>): (r: bool)
    ensures r <==> active && db.Some? && (databases == [] || db.value in databases)
  {
    if !active || db.None? then false
    else if |databases| == 0 then true
    else ListContains(databases, db.value)
  }

  // ---------------------------------------------------------------------
  // Loading

  /** What the dynamic loader and the plugin report while a plugin is loaded. */
  datatype PluginEnv = PluginEnv(
    allocOk: bool,            // the instance, database and config copies were allocated
    dlopenOk: bool,
    hasInitSymbol: bool,      // dlsym found publisher_plugin_init
    pluginInitRet: int,
    pluginReturned: bool,     // the init function set a plugin pointer
    hasCallbacks: bool,
    hasGetName: bool,
    hasInit: bool,
    hasPublish: bool,
    apiVersion: Option<int>,  // None: the plugin has no get_api_version
    initCallbackRet: int,
    queueAllocOk: bool)

  datatype LoadError =
    | InvalidParameters | Inactive | OutOfMemory | LibraryNotLoaded | MissingInitSymbol
    | PluginInitFailed | MissingCallbacks | ApiVersionMismatch | InitCallbackFailed
    | QueueInitFailed

  /**
   * The validation sequence of publisher_manager_load_plugin, giving the
   * queue capacity of the loaded instance or the first failing step.
   */
  function LoadCheck(name: Option<string>, libraryPath: Option<string>,
                     config: Option<PublisherConfig>, env: PluginEnv): Result<int, LoadError>
  {
    if name.None? || libraryPath.None? || config.None? then Err(InvalidParameters)
    else if !config.value.active then Err(Inactive)
    else if !env.allocOk then Err(OutOfMemory)
    else if !env.dlopenOk then Err(LibraryNotLoaded)
    else if !env.hasInitSymbol then Err(MissingInitSymbol)
    else if env.pluginInitRet != 0 || !env.pluginReturned then Err(PluginInitFailed)
    else if !env.hasCallbacks || !env.hasGetName || !env.hasInit || !env.hasPublish then Err(MissingCallbacks)
    else if env.apiVersion.Some? && env.apiVersion.value != PUBLISHER_API_VERSION then Err(ApiVersionMismatch)
    else if env.initCallbackRet != 0 then Err(InitCallbackFailed)
    else if !env.queueAllocOk then Err(QueueInitFailed)
    else Ok(QueueCapacity(config.value.maxQDepth))
  }

  /**
   * Only an active configuration, a plugin with publish/init/get_name whose
   * API version (if it reports one) is 1 and whose init callback returned 0
   * is ever loaded, and it always gets a queue with room.
   */
  lemma LoadedPluginIsSound(name: Option<string>, libraryPath: Option<string>,
                            config: Option<PublisherConfig>, env: PluginEnv)
    ensures LoadCheck(name, libraryPath, config, env).Ok? ==>
              config.Some? && config.value.active && env.hasPublish && env.hasInit &&
              (env.apiVersion.None? || env.apiVersion == Some(PUBLISHER_API_VERSION)) &&
              env.initCallbackRet == 0 && LoadCheck(name, libraryPath, config, env).value > 0
    ensures config.Some? && !config.value.active && name.Some? && libraryPath.Some? ==>
              LoadCheck(name, libraryPath, config, env) == Err(Inactive)
  {
    if LoadCheck(name, libraryPath, config, env).Ok? {
      QueueCapacityRule(config.value.maxQDepth);
    }
  }

  // ---------------------------------------------------------------------
  // A loaded publisher instance

  datatype WorkerOutcome =
    | Exit                                  // q_stop set and nothing queued: the thread ends
    | Wait                                  // nothing queued: the thread sleeps on the condvar
    | Delivered(event: CdcEvent, ret: int)  // the plugin's publish returned `ret`
    | Discarded(event: CdcEvent)            // no publish callback: the event is freed

  /** How many of the plugin's publish results are successes (0). */
  function Succeeded(rets: seq<int>): (n: nat)
    ensures n <= |rets|
    ensures n == |rets| <==> forall i :: 0 <= i < |rets| ==> rets[i] == 0
  {
    if rets == [] then 0
    else
      var front := rets[..|rets| - 1];
      assert forall i :: 0 <= i < |front| ==> front[i] == rets[i];
      Succeeded(front) + (if rets[|rets| - 1] == 0 then 1 else 0)
  }

  /** How many of the plugin's publish results are failures (non-zero). */
  function Failed(rets: seq<int>): (n: nat)
    ensures n + Succeeded(rets) == |rets|
  {
    if rets == [] then 0
    else Failed(rets[..|rets| - 1]) + (if rets[|rets| - 1] == 0 then 0 else 1)
  }

  /** Counting one more publish result. */
  lemma CountsStep(rets: seq<int>, k: nat)
    requires k < |rets|
    ensures Succeeded(rets[..k + 1]) == Succeeded(rets[..k]) + (if rets[k] == 0 then 1 else 0)
    ensures Failed(rets[..k + 1]) == Failed(rets[..k]) + (if rets[k] == 0 then 0 else 1)
  {
    assert rets[..k + 1][..k] == rets[..k];
  }

  class PublisherInstance {
    var active: bool
    var started: bool
    var threadStarted: bool
    var qStop: bool
    var queue: array<Option<CdcEvent>>
    var qHead: int
    var qTail: int
    var qCount: int
    var qCapacity: int
    var eventsPublished: nat
    var eventsDropped: nat
    var errors: nat
    var databases: seq<string>
    ghost var Contents: seq<CdcEvent>

    /**
     * The ring-buffer invariant: the `qCount` occupied slots start at
     * `qHead` and wrap modulo the capacity, `qTail` is the first free slot,
     * and every free slot is NULL.
     */
    ghost predicate Valid()
      reads this, queue
    {
      qCapacity == queue.Length && qCapacity > 0 &&
      0 <= qHead < qCapacity && 0 <= qCount <= qCapacity &&
      qTail == (qHead + qCount) % qCapacity &&
      RingHolds(queue[..], qHead, qCount, Contents) &&
      started == threadStarted
    }

    ghost function Model(): QueueState
      reads this
      requires qCapacity >= 0
    {
      QueueState(Contents, qCapacity, eventsDropped)
    }

    twostate predicate SettingsUnchanged()
      reads this
    {
      active == old(active) && started == old(started) && threadStarted == old(threadStarted) &&
      qStop == old(qStop) && databases == old(databases) && queue == old(queue) &&
      qCapacity == old(qCapacity)
    }

    /**
     * A freshly loaded instance: the configuration copy and queue_init,
     * which empties the queue and clears the stop flag.
     */
    constructor Load(config: PublisherConfig)
      ensures Valid() && fresh(queue)
      ensures qCapacity == QueueCapacity(config.maxQDepth)
      ensures Contents == [] && qHead == 0 && qTail == 0 && qCount == 0 && !qStop
      ensures active == config.active && !started && databases == config.databases
      ensures eventsPublished == 0 && eventsDropped == 0 && errors == 0
    {
      var cap := QueueCapacity(config.maxQDepth);
      QueueCapacityRule(config.maxQDepth);
      var slots := new Option<CdcEvent>[cap](_ => None);
      RingEmpty(slots[..]);
      queue := slots;
      qCapacity := cap;
      qHead, qTail, qCount := 0, 0, 0;
      qStop := false;
      active := config.active;
      started, threadStarted := false, false;
      databases := config.databases;
      eventsPublished, eventsDropped, errors := 0, 0, 0;
      Contents := [];
    }

    /** publisher_should_publish on this instance. */
    function Accepts(db: Option<string>): bool
      reads this
    {
      ShouldPublish(active, databases, db)
    }

    /**
     * publisher_instance_enqueue. `copyOk` is whether the deep copy of the
     * event could be allocated.
     */
    method Enqueue(event: Option<CdcEvent>, copyOk: bool) returns (rc: int)
      requires Valid()
      modifies this, queue
      ensures Valid() && SettingsUnchanged()
      ensures eventsPublished == old(eventsPublished) && errors == old(errors)
      ensures !active || event.None? ==> rc == -1 && Model() == old(Model())
      ensures active && event.Some? ==> Model() == EnqueueSpec(old(Model()), event.value, copyOk)
      ensures rc == 0 <==> active && event.Some? && copyOk && old(qCount) < qCapacity
      ensures rc == 0 || rc == -1
    {
      if !active || event.None? {
        return -1;
      }
      if !copyOk || qCount >= qCapacity {
        // the copy could not be allocated, or the queue is full
        eventsDropped := eventsDropped + 1;
        return -1;
      }
      PushTail(event.value);
      rc := 0;
    }

    /**
     * The enqueue under the queue mutex: store the event at `qTail`,
     * advance the tail modulo the capacity and increment the count.
     */
    method PushTail(e: CdcEvent)
      requires Valid() && qCount < qCapacity
      modifies this`qTail, this`qCount, this`Contents, queue
      ensures Valid()
      ensures Contents == old(Contents) + [e]
    {
      ghost var slots := queue[..];
      RingPush(slots, qHead, qCount, Contents, e);
      queue[qTail] := Some(e);
      assert queue[..] == slots[old(qTail) := Some(e)];
      qTail := (qTail + 1) % qCapacity;
      qCount := qCount + 1;
      Contents := Contents + [e];
      assert |slots| == qCapacity;
      assert RingHolds(queue[..], qHead, qCount, Contents);
    }

    /**
     * The dequeue under the queue mutex: take the event at `qHead`, clear
     * its slot, advance the head modulo the capacity and decrement the count.
     */
    method PopHead() returns (e: CdcEvent)
      requires Valid() && qCount > 0
      modifies this`qHead, this`qCount, this`Contents, queue
      ensures Valid()
      ensures e == old(Contents)[0] && Contents == old(Contents)[1..]
    {
      ghost var slots := queue[..];
      RingPop(slots, qHead, qCount, Contents);
      var event := queue[qHead];
      queue[qHead] := None;
      assert queue[..] == slots[old(qHead) := None];
      qHead := (qHead + 1) % qCapacity;
      qCount := qCount - 1;
      Contents := Contents[1..];
      e := event.value;
      assert |slots| == qCapacity;
      assert RingHolds(queue[..], qHead, qCount, Contents);
      assert qTail == (qHead + qCount) % qCapacity;
    }

    /**
     * One pass of the worker loop: wait or exit when the queue is empty,
     * otherwise dequeue the oldest event and hand it to the plugin.
     * `hasPublish` says the plugin has a publish callback and `publishRet`
     * is what it returns.
     */
    method WorkerStep(hasPublish: bool, publishRet: int) returns (outcome: WorkerOutcome)
      requires Valid()
      modifies this`qHead, this`qCount, this`Contents, this`eventsPublished, this`errors, queue
      ensures Valid() && SettingsUnchanged() && eventsDropped == old(eventsDropped)
      ensures old(qCount) == 0 ==>
                outcome == (if qStop then Exit else Wait) && Contents == old(Contents) &&
                eventsPublished == old(eventsPublished) && errors == old(errors)
      ensures old(qCount) > 0 ==>
                Contents == old(Contents)[1..] &&
                (outcome.Delivered? || outcome.Discarded?) && outcome.event == old(Contents)[0]
      ensures old(qCount) > 0 && !hasPublish ==>
                outcome == Discarded(old(Contents)[0]) &&
                eventsPublished == old(eventsPublished) && errors == old(errors)
      ensures old(qCount) > 0 && hasPublish ==>
                outcome == Delivered(old(Contents)[0], publishRet) &&
                (if publishRet == 0 then eventsPublished == old(eventsPublished) + 1 && errors == old(errors)
                 else eventsPublished == old(eventsPublished) && errors == old(errors) + 1)
    {
      if qCount == 0 {
        return if qStop then Exit else Wait;
      }
      var event := PopHead();
      if hasPublish {
        if publishRet == 0 {
          eventsPublished := eventsPublished + 1;
        } else {
          errors := errors + 1;
        }
        outcome := Delivered(event, publishRet);
      } else {
        outcome := Discarded(event);
      }
    }

    /**
     * publisher_instance_start. `startRet` is the plugin start callback's
     * result (None when the plugin has none); `threadCreated` is whether
     * pthread_create succeeded.
     */
    method Start(startRet: Option<int>, threadCreated: bool) returns (rc: int)
      requires Valid()
      modifies this`started, this`threadStarted
      ensures Valid()
      ensures !active ==> rc == -1 && started == old(started)
      ensures active && old(started) ==> rc == 0 && started
      ensures active && !old(started) ==>
                (rc == 0 <==> (startRet.None? || startRet.value == 0) && threadCreated) &&
                (rc == 0 || rc == -1) && started == (rc == 0)
    {
      if !active {
        return -1;
      }
      if started {
        return 0;
      }
      if startRet.Some? && startRet.value != 0 {
        return -1;
      }
      if !threadCreated {
        return -1;
      }
      threadStarted := true;
      started := true;
      rc := 0;
    }

    /**
     * The worker part way through draining the queue at stop: the first `k`
     * events of `all` are delivered, the rest are still queued, and the
     * counters have taken in the first `k` publish results.
     */
    ghost predicate Drained(hasPublish: bool, rets: seq<int>, k: nat, all: seq<CdcEvent>,
                            drained: seq<CdcEvent>, published0: nat, errors0: nat)
      reads this, queue
    {
      Valid() && k + qCount == |rets| && |drained| == k && all == drained + Contents &&
      eventsPublished == published0 + (if hasPublish then Succeeded(rets[..k]) else 0) &&
      errors == errors0 + (if hasPublish then Failed(rets[..k]) else 0)
    }

    /** One turn of the worker loop while the queue still holds events. */
    method DrainOne(hasPublish: bool, rets: seq<int>, k: nat, ghost all: seq<CdcEvent>,
                    drained: seq<CdcEvent>, ghost published0: nat, ghost errors0: nat)
      returns (drained': seq<CdcEvent>)
      requires Drained(hasPublish, rets, k, all, drained, published0, errors0) && qCount > 0
      modifies this`qHead, this`qCount, this`Contents, this`eventsPublished, this`errors, queue
      ensures Drained(hasPublish, rets, k + 1, all, drained', published0, errors0)
    {
      var outcome := WorkerStep(hasPublish, rets[k]);
      drained' := drained + [outcome.event];
      CountsStep(rets, k);
      assert old(Contents) == [outcome.event] + Contents;
      assert all == drained' + Contents by {
        assert drained + ([outcome.event] + Contents) == (drained + [outcome.event]) + Contents;
      }
    }

    /**
     * publisher_instance_stop: set the stop flag, join the worker (which
     * delivers everything still queued, in order, before it exits), call the
     * plugin's stop callback and clear `started`. `rets` are the plugin's
     * publish results for the queued events, oldest first.
     */
    method Stop(hasPublish: bool, rets: seq<int>) returns (rc: int, drained: seq<CdcEvent>)
      requires Valid()
      requires started ==> |rets| == qCount
      modifies this`qStop, this`qHead, this`qCount, this`Contents, this`eventsPublished, this`errors,
               this`threadStarted, this`started, queue
      ensures Valid() && rc == 0 && !started && active == old(active)
      ensures !old(started) ==> drained == [] && Contents == old(Contents) && qStop == old(qStop)
      ensures old(started) ==> qStop && drained == old(Contents) && Contents == []
      ensures eventsDropped == old(eventsDropped)
      ensures |drained| <= |rets|
      ensures eventsPublished == old(eventsPublished) + (if hasPublish then Succeeded(rets[..|drained|]) else 0)
      ensures errors == old(errors) + (if hasPublish then Failed(rets[..|drained|]) else 0)
    {
      drained := [];
      rc := 0;
      if !started {
        return;
      }
      qStop := true;
      ghost var all := Contents;
      var k := 0;
      assert rets[..0] == [];
      while qCount > 0
        invariant Drained(hasPublish, rets, k, all, drained, old(eventsPublished), old(errors))
        invariant qStop && started
        decreases qCount
      {
        drained := DrainOne(hasPublish, rets, k, all, drained, old(eventsPublished), old(errors));
        k := k + 1;
      }
      var last := WorkerStep(hasPublish, 0);
      assert last == Exit;
      threadStarted := false;
      started := false;
    }
  }

  // ---------------------------------------------------------------------
  // The manager's instance list

  class PublisherManager {
    var instances: seq<PublisherInstance>
    var instanceCount: nat

    constructor ()
      ensures instances == [] && instanceCount == 0
    {
      instances := [];
      instanceCount := 0;
    }

    /**
     * publisher_manager_load_plugin: on success the new instance is
     * prepended to the list and counted; on failure nothing changes.
     */
    method LoadPlugin(name: Option<string>, libraryPath: Option<string>,
                      config: Option<PublisherConfig>, env: PluginEnv)
      returns (rc: int, inst: PublisherInstance?)
      modifies this
      ensures rc == 0 <==> LoadCheck(name, libraryPath, config, env).Ok?
      ensures rc == 0 || rc == -1
      ensures rc == 0 ==>
                inst != null && fresh(inst) && inst.Valid() && inst.Contents == [] &&
                inst.active && !inst.started && !inst.qStop &&
                inst.qCapacity == LoadCheck(name, libraryPath, config, env).value &&
                inst.databases == config.value.databases &&
                instances == [inst] + old(instances) && instanceCount == old(instanceCount) + 1
      ensures rc != 0 ==> inst == null && instances == old(instances) && instanceCount == old(instanceCount)
    {
      var check := LoadCheck(name, libraryPath, config, env);
      if check.Err? {
        return -1, null;
      }
      inst := new PublisherInstance.Load(config.value);
      instances := [inst] + instances;
      instanceCount := instanceCount + 1;
      rc := 0;
    }
  }
}
