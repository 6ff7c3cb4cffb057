/**
 * The single-writer bookkeeping engine that restore.js and backup.js each
 * carry a copy of: the ledger of unarchived items, the waiting queue, the
 * retry table, the counters and the stop flags, driven by `register`,
 * `next`, `on_create_error`, `archive` and the end-of-run checks.
 *
 * The two copies differ only in where `end` fires on registration finishing
 * and in the waiting queue's payload (a local path for restore, nothing for
 * backup); `direction` selects the first, the type parameter the second.
 *
 * A transfer is dispatched by `Next`; its outcome is supplied later by the
 * environment through `Report` (the `.then(archive)` / `.catch(on_create_error)`
 * step), and `Settle` is the separate, later `.then` that lowers `creating`
 * and dispatches again. Every interleaving of the asynchronous original is a
 * sequence of these calls, but not every sequence is one the original can
 * produce: the engine also accepts, say, a `Register` after registration
 * has finished, or an ignored outcome in the restore direction, and its
 * invariants are proved for all of them.
 *
 * The ledger's statuses are the source of truth, as in the original: an item
 * is in flight exactly while its entry says creating, and waiting exactly
 * while it says waiting.
 */
module Engine {
  import opened Wrappers
  import opened Ledger
  import RetryPolicy
  import Utf8

  /** Number.MAX_SAFE_INTEGER, the default of maxCreated and maxErrors. */
  const MAX_SAFE_INTEGER: int := 9007199254740991

  datatype Direction = Restore | Backup

  /** Object keys, and the names of the ledger's entries. */
  type Key = string

  /** What the waiting queue keeps beside a key: restore the local pathname
      of the file to upload, backup nothing more than the key. */
  datatype Payload = LocalFile(path: string) | KeyOnly

  /** An entry of the waiting queue: [keyName, pathname] in restore, keyName in backup. */
  datatype Item<K, P> = Item(key: K, payload: P)

  /** The statistics attached to `warning`, `error` and `end` (genReturnMeta). */
  datatype Stats = Stats(errors: int, created: int, ignored: int)

  /** The progress events, appended to a log in the order they are emitted. */
  datatype Event<K> =
    | Archived(status: Status, name: K)     // 'created', 'ignored' or 'skipped' with { name }
    | Warning(name: K, stats: Stats)        // a failed item that will be retried
    | Error(name: K, stats: Stats)          // a failed item that is given up
    | Moveon(key: K)                        // the resume cursor advanced to this key
    | End(stats: Stats)
    | NoUtf8Filename(dirname: string, raw: seq<Utf8.byte>)

  /** What a transfer (`create`) settles with: a status, or a rejection. */
  datatype CreateResult = Finished(status: Status) | Threw

  /** The engine's options after defaulting. */
  datatype Options = Options(maxCreating: int, maxCreated: int, maxErrors: int, retry: int)

  /** The engine's options as a caller passes them; None is an option left out. */
  datatype Given = Given(maxCreating: Option<int>, maxCreated: Option<int>, maxErrors: Option<int>,
                         retry: RetryPolicy.Setting)

  /** `Object.assign(defaults, options)` followed by the check of `retry`:
      every option given replaces its default; maxCreated and maxErrors
      default to Number.MAX_SAFE_INTEGER, maxCreating to the file's own value. */
  function Configure(g: Given, maxCreatingDefault: int): (o: Options)
    ensures g.maxCreating.None? ==> o.maxCreating == maxCreatingDefault
    ensures g.maxCreated.None? ==> o.maxCreated == MAX_SAFE_INTEGER
    ensures g.maxErrors.None? ==> o.maxErrors == MAX_SAFE_INTEGER
    ensures g.maxCreating.Some? ==> o.maxCreating == g.maxCreating.value
    ensures g.maxCreated.Some? ==> o.maxCreated == g.maxCreated.value
    ensures g.maxErrors.Some? ==> o.maxErrors == g.maxErrors.value
    ensures o.retry == RetryPolicy.Normalize(g.retry)
  {
    Options(GetOr(g.maxCreating, maxCreatingDefault), GetOr(g.maxCreated, MAX_SAFE_INTEGER),
            GetOr(g.maxErrors, MAX_SAFE_INTEGER), RetryPolicy.Normalize(g.retry))
  }

  /** A bound as the counters can reach it: `x >= m` stops growth at m, or at 0 for m < 0. */
  function Cap(m: int): (c: nat)
    ensures c >= m
  {
    if m < 0 then 0 else m
  }

  predicate Ended<K(==)>(events: seq<Event<K>>) {
    exists i :: 0 <= i < |events| && events[i].End?
  }

  /** Appending to the event log keeps an emitted `end`. */
  lemma EventsGrow<K>(events: seq<Event<K>>, more: seq<Event<K>>)
    ensures Ended(events) ==> Ended(events + more)
  {
    if Ended(events) {
      var i :| 0 <= i < |events| && events[i].End?;
      assert (events + more)[i] == events[i];
    }
  }


  // ---------------------------------------------------------------------
  // The engine's invariant, stated over plain values so that each
  // operation is justified by one lemma about those values.

  /** The ledger `l` is the part of the registrations `h` from the cursor `a`
      on, in registration order, and its head is never resolved. */
  ghost predicate LedgerInv<K>(l: seq<Entry<K>>, h: seq<K>, a: nat) {
    && |l| + a == |h|
    && (forall i :: 0 <= i < |l| ==> l[i].key == h[a + i])
    && Distinct(h)
    && (l != [] ==> !l[0].status.Resolved())
  }

  /** Each waiting item owns a distinct ledger entry, at registration number
      `slots[i]`, whose status is waiting. */
  ghost predicate QueueInv<K, P>(w: seq<Item<K, P>>, slots: seq<nat>, l: seq<Entry<K>>, a: nat) {
    && |slots| == |w|
    && (forall i :: 0 <= i < |w| ==> a <= slots[i] < a + |l| && l[slots[i] - a] == Entry(w[i].key, Waiting))
    && Distinct(slots)
  }

  /** Every count in the retry table lies between 1 and the ceiling, and
      belongs to a key that has been registered. */
  ghost predicate RetryInv<K>(retry: map<K, int>, limit: int, h: seq<K>) {
    forall k :: k in retry ==> 1 <= retry[k] <= RetryPolicy.Ceiling(limit) && k in h
  }

  /** The events `archive(key, status)` emits on the ledger l: the status;
      then, for the head, the `moveon` of its sweep, and `end` when
      registration has finished and the sweep emptied the ledger. */
  function ArchiveEvents(l: seq<Entry<Key>>, key: Key, status: Status, finished: bool, stats: Stats)
    : (es: seq<Event<Key>>)
    requires 0 <= IndexOf(l, key)
    ensures es != [] && es[0] == Archived(status, key)
    ensures (IndexOf(l, key) > 0) == (|es| == 1)
  {
    [Archived(status, key)]
      + (if IndexOf(l, key) > 0 then []
         else [Moveon(SweepMark(l))] + (if finished && Sweep(l) == [] then [End(stats)] else []))
  }

  /** A waiting item always has a ledger entry, so an empty ledger means an empty queue. */
  lemma {:induction false} QueueNeedsLedger<K, P>(w: seq<Item<K, P>>, slots: seq<nat>, l: seq<Entry<K>>, a: nat)
    requires QueueInv(w, slots, l, a)
    ensures w != [] ==> l != []
  {
    if w != [] {
      assert a <= slots[0] < a + |l|;
    }
  }

  /** The ledger entry at registration number `slot` is the one `find` reaches by its key. */
  lemma {:induction false} SlotIndex<K>(l: seq<Entry<K>>, h: seq<K>, a: nat, slot: nat)
    requires LedgerInv(l, h, a) && a <= slot < a + |l|
    ensures IndexOf(l, l[slot - a].key) == slot - a
  {
    var k := l[slot - a].key;
    var r := IndexOf(l, k);
    IndexOfFirst(l, k);
    assert 0 <= r <= slot - a;
    assert h[a + r] == k == h[slot];
    assert Pos(h, h[a + r]) == a + r && Pos(h, h[slot]) == slot;
  }

  /** The key a sweep announces with `moveon` is the last registration it
      removes, and the cursor moves strictly forward to just past it; so the
      keys of successive `moveon` events follow the order of registration. */
  lemma {:induction false} SweepMarkIsCursor<K>(l: seq<Entry<K>>, h: seq<K>, a: nat)
    requires LedgerInv(l, h, a) && l != []
    ensures |l| - |Sweep(l)| >= 1
    ensures SweepMark(l) == h[a + |l| - |Sweep(l)| - 1]
  {
    SweepLeavesUnresolvedHead(l);
  }

  /** `register`: a new key joins the end of the ledger and of the queue. */
  lemma {:induction false} RegisterStep<K, P>(l: seq<Entry<K>>, h: seq<K>, a: nat, w: seq<Item<K, P>>, slots: seq<nat>, key: K, p: P)
    requires LedgerInv(l, h, a) && QueueInv(w, slots, l, a) && key !in h
    ensures var l' := l + [Entry(key, Waiting)];
      && LedgerInv(l', h + [key], a)
      && QueueInv(w + [Item(key, p)], slots + [|h|], l', a)
      && CountOf(l', Running) == CountOf(l, Running)
      && CountOf(l', Done) == CountOf(l, Done)
  {
    var l', h', w', s' := l + [Entry(key, Waiting)], h + [key], w + [Item(key, p)], slots + [|h|];
    forall i | 0 <= i < |l'| ensures l'[i].key == h'[a + i] {
      if i < |l| { assert l'[i] == l[i]; }
    }
    DistinctAppend(h, key);
    forall i | 0 <= i < |w'| ensures a <= s'[i] < a + |l'| && l'[s'[i] - a] == Entry(w'[i].key, Waiting) {
      if i < |w| { assert w'[i] == w[i] && s'[i] == slots[i]; }
    }
    forall j | 0 <= j < |slots| ensures slots[j] != |h| {
      assert slots[j] < a + |l|;
    }
    DistinctAppend<nat>(slots, |h|);
    CountOfAppend(l, Entry(key, Waiting), Running);
    CountOfAppend(l, Entry(key, Waiting), Done);
  }

  /** Overwriting the status of entry `i` moves one entry between the counts. */
  lemma {:induction false} UpdateCounts<K>(l: seq<Entry<K>>, i: nat, e: Entry<K>)
    requires i < |l|
    ensures var l' := l[i := e];
      && CountOf(l', Running) == CountOf(l, Running) - (if l[i].status == Creating then 1 else 0) + (if e.status == Creating then 1 else 0)
      && CountOf(l', Done) == CountOf(l, Done) - (if l[i].status.Resolved() then 1 else 0) + (if e.status.Resolved() then 1 else 0)
  {
    CountOfUpdate(l, i, e, Running);
    CountOfUpdate(l, i, e, Done);
  }

  /** `next`: the front waiting item's entry becomes creating. */
  lemma {:induction false} DispatchStep<K, P>(l: seq<Entry<K>>, h: seq<K>, a: nat, w: seq<Item<K, P>>, slots: seq<nat>)
    requires LedgerInv(l, h, a) && QueueInv(w, slots, l, a) && w != []
    ensures var i := slots[0] - a;
      var l' := l[i := Entry(w[0].key, Creating)];
      && IndexOf(l, w[0].key) == i
      && IndexOf(l', w[0].key) == i
      && LedgerInv(l', h, a)
      && QueueInv(w[1..], slots[1..], l', a)
      && CountOf(l', Running) == CountOf(l, Running) + 1
      && CountOf(l', Done) == CountOf(l, Done)
  {
    var i := slots[0] - a;
    var l' := l[i := Entry(w[0].key, Creating)];
    SlotIndex(l, h, a, slots[0]);
    UpdateCounts(l, i, Entry(w[0].key, Creating));
    SlotIndex(l', h, a, slots[0]);
    var w', s' := w[1..], slots[1..];
    forall j | 0 <= j < |w'| ensures a <= s'[j] < a + |l'| && l'[s'[j] - a] == Entry(w'[j].key, Waiting) {
      assert s'[j] == slots[j + 1] && w'[j] == w[j + 1];
      assert Pos(slots, slots[j + 1]) == j + 1 && Pos(slots, slots[0]) == 0;
    }
    DistinctTail<nat>(slots);
  }

  /** `archive` behind the head: the in-flight entry `i` takes its final status. */
  lemma {:induction false} ResolveStep<K, P>(l: seq<Entry<K>>, h: seq<K>, a: nat, w: seq<Item<K, P>>, slots: seq<nat>, i: nat, s: Status)
    requires LedgerInv(l, h, a) && QueueInv(w, slots, l, a)
    requires 0 < i < |l| && l[i].status == Creating && s.Resolved()
    ensures var l' := l[i := Entry(l[i].key, s)];
      && LedgerInv(l', h, a)
      && QueueInv(w, slots, l', a)
      && CountOf(l', Running) == CountOf(l, Running) - 1
      && CountOf(l', Done) == CountOf(l, Done) + 1
  {
    UpdateCounts(l, i, Entry(l[i].key, s));
  }

  /** `archive` at the head: the head and the resolved run after it leave the
      ledger and the cursor passes them. */
  lemma {:induction false} SweepStep<K, P>(l: seq<Entry<K>>, h: seq<K>, a: nat, w: seq<Item<K, P>>, slots: seq<nat>)
    requires LedgerInv(l, h, a) && QueueInv(w, slots, l, a)
    requires l != [] && l[0].status == Creating
    ensures var gone := |l| - |Sweep(l)|;
      && gone >= 1
      && LedgerInv(Sweep(l), h, a + gone)
      && QueueInv(w, slots, Sweep(l), a + gone)
      && CountOf(Sweep(l), Running) == CountOf(l, Running) - 1
      && CountOf(Sweep(l), Done) == CountOf(l, Done) - (gone - 1)
  {
    SweepCounts(l);
    SweepLedger(l, h, a);
    SweepQueue(l, a, w, slots);
  }

  /** The ledger after a sweep is still the registrations from the moved cursor on. */
  lemma {:induction false} SweepLedger<K>(l: seq<Entry<K>>, h: seq<K>, a: nat)
    requires LedgerInv(l, h, a) && l != []
    ensures LedgerInv(Sweep(l), h, a + (|l| - |Sweep(l)|))
  {
    SweepLeavesUnresolvedHead(l);
    var r := Sweep(l);
    var n := |l| - |r|;
    assert r == l[n..];
    forall i | 0 <= i < |r| ensures r[i].key == h[a + n + i] {
      assert r[i] == l[n + i];
    }
  }

  /** The waiting entries all lie past what a sweep removes, since the head
      is not waiting and the rest of what it removes is resolved. */
  lemma {:induction false} SweepQueue<K, P>(l: seq<Entry<K>>, a: nat, w: seq<Item<K, P>>, slots: seq<nat>)
    requires QueueInv(w, slots, l, a) && l != [] && l[0].status != Waiting
    ensures QueueInv(w, slots, Sweep(l), a + (|l| - |Sweep(l)|))
  {
    SweepLeavesUnresolvedHead(l);
    var r := Sweep(l);
    var n := |l| - |r|;
    assert r == l[n..];
    forall j | 0 <= j < |w| ensures a + n <= slots[j] < a + n + |r| && r[slots[j] - (a + n)] == Entry(w[j].key, Waiting) {
      var k := slots[j] - a;
      assert l[k].status == Waiting;
      assert k != 0 && !(1 <= k < n);
      assert r[k - n] == l[k];
    }
  }

  /** `on_create_error` with a retry left: the in-flight entry `i` is waiting
      again and its item goes to the front of the queue. */
  lemma {:induction false} RequeueStep<K, P>(l: seq<Entry<K>>, h: seq<K>, a: nat, w: seq<Item<K, P>>, slots: seq<nat>, i: nat, p: P)
    requires LedgerInv(l, h, a) && QueueInv(w, slots, l, a)
    requires i < |l| && l[i].status == Creating
    ensures var l' := l[i := Entry(l[i].key, Waiting)];
      && LedgerInv(l', h, a)
      && QueueInv([Item(l[i].key, p)] + w, [a + i] + slots, l', a)
      && CountOf(l', Running) == CountOf(l, Running) - 1
      && CountOf(l', Done) == CountOf(l, Done)
  {
    var l' := l[i := Entry(l[i].key, Waiting)];
    UpdateCounts(l, i, Entry(l[i].key, Waiting));
    var w': seq<Item<K, P>>, s': seq<nat> := [Item(l[i].key, p)] + w, [a + i] + slots;
    forall j | 0 <= j < |slots| ensures slots[j] != a + i {
      assert l[slots[j] - a] == Entry(w[j].key, Waiting);
    }
    DistinctCons<nat>(a + i, slots);
    forall j | 0 <= j < |w'| ensures a <= s'[j] < a + |l'| && l'[s'[j] - a] == Entry(w'[j].key, Waiting) {
      if j == 0 {
        assert s'[0] == a + i && w'[0].key == l[i].key;
      } else {
        assert s'[j] == slots[j - 1] && w'[j] == w[j - 1];
        assert l'[slots[j - 1] - a] == l[slots[j - 1] - a];
      }
    }
    assert |s'| == |w'|;
    assert QueueInv(w', s', l', a);
  }


  class SyncEngine {
    const direction: Direction
    const options: Options

    // flags
    var stopRegister: bool
    var stopCreate: bool
    var registerFinished: bool

    // queues
    var waiting: seq<Item<Key, Payload>>
    var unarchived: seq<Entry<Key>>
    var retry: map<Key, int>

    // counters
    var creating: int
    var registered: int
    var errors: int
    var created: int
    var ignored: int

    var events: seq<Event<Key>>

    // Ghost bookkeeping: every key registered so far, in registration order;
    // how many of them the sweeps have removed; the registration number of
    // each waiting item's ledger entry; the transfers whose outcome has been
    // reported but whose final `.then` has not run yet; the skipped items
    // (the original's counter for them is never initialised).
    ghost var history: seq<Key>
    ghost var archived: nat
    ghost var slots: seq<nat>
    ghost var settling: nat
    ghost var skipped: nat
    // The payload each key was registered with, which the transfer's
    // closure keeps for a retry.
    ghost var payloads: map<Key, Payload>

    /** A transfer for this key is in flight: its ledger entry says creating. */
    ghost predicate InFlight(k: Key)
      reads this`unarchived
    {
      0 <= IndexOf(unarchived, k) && unarchived[IndexOf(unarchived, k)].status == Creating
    }

    /** The counters agree with the ledger and stay within their bounds. */
    ghost predicate CountersValid()
      reads this`registered, this`history, this`creating, this`unarchived, this`settling
      reads this`created, this`ignored, this`skipped, this`archived, this`waiting
    {
      && registered == |history|
      && creating == CountOf(unarchived, Running) + settling
      && creating <= Cap(options.maxCreating)
      && registered <= Cap(options.maxCreated)
      && created + ignored + skipped == archived + CountOf(unarchived, Done)
      && (direction == Backup ==> skipped == 0)
    }

    /** The invariant of the ledger, the waiting queue and the counters. */
    ghost predicate Books()
      reads this`unarchived, this`history, this`archived, this`waiting, this`slots
      reads this`registered, this`creating, this`settling, this`created, this`ignored, this`skipped
    {
      && LedgerInv(unarchived, history, archived)
      && QueueInv(waiting, slots, unarchived, archived)
      && CountersValid()
    }

    /** The whole invariant: the books, and the retry table's bound. */
    ghost predicate Valid()
      reads this`unarchived, this`history, this`archived, this`waiting, this`slots, this`retry
      reads this`registered, this`creating, this`settling, this`created, this`ignored, this`skipped
    {
      Books() && RetryInv(retry, options.retry, history)
    }

    /** A key in flight has been registered: its ledger entry stands at its
        registration number. */
    lemma InFlightRegistered(k: Key)
      requires Books() && InFlight(k)
      ensures k in history
    {
      var i := IndexOf(unarchived, k);
      assert unarchived[i].key == history[archived + i];
    }

    /** A key not registered yet has no count in the retry table, so its first
        failure starts the retry rule from an absent entry. */
    lemma UnregisteredHasNoCount(k: Key)
      requires Valid() && k !in history
      ensures Lookup(retry, k) == None
    {
    }

    /** Once registration has finished and the ledger is empty, `end` has been emitted. */
    ghost predicate EndDelivered()
      reads this`registerFinished, this`unarchived, this`events
    {
      registerFinished && unarchived == [] ==> Ended(events)
    }

    /** Flags are only ever raised; counters and the cursor only grow. */
    twostate predicate Monotonic()
      reads this`stopRegister, this`stopCreate, this`registerFinished, this`registered
      reads this`errors, this`created, this`ignored, this`archived
    {
      && (old(stopRegister) ==> stopRegister)
      && (old(stopCreate) ==> stopCreate)
      && (old(registerFinished) ==> registerFinished)
      && old(registered) <= registered
      && old(errors) <= errors
      && old(created) <= created
      && old(ignored) <= ignored
      && old(archived) <= archived
    }

    twostate predicate KeepsEnd()
      reads this`registerFinished, this`unarchived, this`events
    {
      old(EndDelivered()) ==> EndDelivered()
    }

    function StatsNow(): Stats
      reads this`errors, this`created, this`ignored
    {
      Stats(errors, created, ignored)
    }

    constructor (direction: Direction, options: Options)
      ensures Valid() && EndDelivered()
      ensures this.direction == direction && this.options == options
      ensures !stopRegister && !stopCreate && !registerFinished
      ensures waiting == [] && unarchived == [] && retry == map[]
      ensures creating == 0 && registered == 0 && errors == 0 && created == 0 && ignored == 0
      ensures events == [] && history == [] && settling == 0
    {
      this.direction := direction;
      this.options := options;
      stopRegister, stopCreate, registerFinished := false, false, false;
      waiting, unarchived, retry := [], [], map[];
      creating, registered, errors, created, ignored := 0, 0, 0, 0, 0;
      events := [];
      history, archived, slots, settling, skipped := [], 0, [], 0, 0;
      payloads := map[];
    }

    /** The QUIT signal: stop registering, let queued items drain. */
    method Quit()
      modifies this`stopRegister
      ensures Monotonic() && KeepsEnd()
      ensures stopRegister
    {
      stopRegister := true;
    }

    /** The ABORT signal: stop registering and stop dispatching. */
    method Abort()
      modifies this`stopRegister, this`stopCreate
      ensures Monotonic() && KeepsEnd()
      ensures stopRegister && stopCreate
    {
      stopRegister := true;
      stopCreate := true;
    }

    /** `next`: dispatch the front waiting item unless stopped, saturated or idle.
        The item's ledger entry becomes creating and `creating` rises by one. */
    method Next() returns (dispatched: bool)
      requires Books()
      modifies this`waiting, this`slots, this`unarchived, this`creating
      ensures Books() && Monotonic() && KeepsEnd()
      ensures dispatched <==> !stopCreate && old(creating) < options.maxCreating && old(waiting) != []
      ensures !dispatched ==> waiting == old(waiting) && unarchived == old(unarchived) && creating == old(creating)
      ensures dispatched ==>
        var key := old(waiting)[0].key;
        var i := IndexOf(old(unarchived), key);
        && waiting == old(waiting)[1..]
        && creating == old(creating) + 1
        && 0 <= i
        && old(unarchived)[i].status == Waiting
        && unarchived == old(unarchived)[i := Entry(key, Creating)]
        && InFlight(key)
    {
      // the three guards of `next`, in the source's order
      if stopCreate {
        dispatched := false;
      } else if creating >= options.maxCreating {
        dispatched := false;
      } else if |waiting| == 0 {
        dispatched := false;
      } else {
        var item := waiting[0];
        DispatchStep(unarchived, history, archived, waiting, slots);
        var i := IndexOf(unarchived, item.key);
        unarchived := unarchived[i := Entry(item.key, Creating)];
        waiting := waiting[1..];
        slots := slots[1..];
        creating := creating + 1;
        dispatched := true;
      }
    }

    /** `register`: once `registered` has reached maxCreated, signal QUIT and
        refuse; otherwise append [key, waiting] to the ledger and the item to
        the waiting queue, count it, and try to dispatch. */
    method Register(key: Key, payload: Payload) returns (ok: bool)
      requires Books() && key !in history
      modifies this`stopRegister, this`waiting, this`slots, this`unarchived, this`creating
      modifies this`registered, this`history, this`payloads
      ensures Books() && Monotonic() && KeepsEnd()
      ensures ok <==> old(registered) < options.maxCreated
      ensures !ok ==> stopRegister && waiting == old(waiting) && unarchived == old(unarchived)
                      && registered == old(registered) && creating == old(creating) && history == old(history)
                      && payloads == old(payloads)
      ensures ok ==>
        var w := old(waiting) + [Item(key, payload)];
        var l := old(unarchived) + [Entry(key, Waiting)];
        var dispatched := !stopCreate && old(creating) < options.maxCreating;
        && stopRegister == old(stopRegister)
        && registered == old(registered) + 1
        && history == old(history) + [key]
        && payloads == old(payloads)[key := payload]
        && (!dispatched ==> waiting == w && unarchived == l && creating == old(creating))
        && (dispatched ==>
              && waiting == w[1..] && creating == old(creating) + 1
              && 0 <= IndexOf(l, w[0].key)
              && unarchived == l[IndexOf(l, w[0].key) := Entry(w[0].key, Creating)])
    {
      if registered >= options.maxCreated {
        Quit();
        return false;
      }
      Enqueue(key, payload);
      var _ := Next();
      ok := true;
    }

    /** The bookkeeping half of a successful `register`. */
    method Enqueue(key: Key, payload: Payload)
      requires Books() && key !in history && registered < options.maxCreated
      modifies this`waiting, this`slots, this`unarchived, this`registered, this`history, this`payloads
      ensures Books()
      ensures registered == old(registered) + 1
      ensures history == old(history) + [key]
      ensures payloads == old(payloads)[key := payload]
      ensures unarchived == old(unarchived) + [Entry(key, Waiting)]
      ensures waiting == old(waiting) + [Item(key, payload)]
    {
      RegisterStep(unarchived, history, archived, waiting, slots, key, payload);
      payloads := payloads[key := payload];
      unarchived := unarchived + [Entry(key, Waiting)];
      waiting := waiting + [Item(key, payload)];
      slots := slots + [|history|];
      registered := registered + 1;
      history := history + [key];
    }

    /** `try_end`: emit `end` if registration has finished and the ledger is empty. */
    method TryEnd()
      modifies this`events
      ensures Monotonic() && EndDelivered()
      ensures events == old(events) + (if registerFinished && unarchived == [] then [End(StatsNow())] else [])
    {
      if registerFinished && |unarchived| == 0 {
        events := events + [End(StatsNow())];
        assert events[|events| - 1].End?;
      }
    }

    /** Emit one progress event other than `end`. */
    method Emit(e: Event<Key>)
      requires !e.End?
      modifies this`events
      ensures Monotonic() && KeepsEnd()
      ensures events == old(events) + [e]
    {
      EventsGrow(events, [e]);
      events := events + [e];
    }

    /** Emit events in order. */
    method EmitAll(es: seq<Event<Key>>)
      modifies this`events
      ensures KeepsEnd()
      ensures events == old(events) + es
    {
      EventsGrow(events, es);
      events := events + es;
    }

    /** `counter[statusName]++`. */
    method Tally(status: Status)
      requires status.Resolved()
      modifies this`created, this`ignored, this`skipped
      ensures created == old(created) + (if status == Created then 1 else 0)
      ensures ignored == old(ignored) + (if status == Ignored then 1 else 0)
      ensures skipped == old(skipped) + (if status == Skipped then 1 else 0)
    {
      if status == Created {
        created := created + 1;
      } else if status == Ignored {
        ignored := ignored + 1;
      } else {
        skipped := skipped + 1;
      }
    }

    /** `archive`: count and announce the resolution; an item behind the head
        only records its status, while the head sweeps itself and every
        resolved entry after it out of the ledger and moves the cursor on to
        the last key removed. The transfer stops being in flight. */
    method Archive(key: Key, status: Status)
      requires Books() && InFlight(key)
      requires status.Resolved()
      requires direction == Backup ==> !status.Skipped?
      modifies this`created, this`ignored, this`skipped, this`events, this`settling
      modifies this`unarchived, this`archived
      ensures Books() && Monotonic() && KeepsEnd()
      ensures settling == old(settling) + 1
      ensures created == old(created) + (if status == Created then 1 else 0)
      ensures ignored == old(ignored) + (if status == Ignored then 1 else 0)
      ensures skipped == old(skipped) + (if status == Skipped then 1 else 0)
      ensures var i := IndexOf(old(unarchived), key);
        && (i > 0 ==>
              && unarchived == old(unarchived)[i := Entry(key, status)]
              && archived == old(archived)
              && events == old(events) + [Archived(status, key)])
        && (i == 0 ==>
              && unarchived == Sweep(old(unarchived))
              && archived == old(archived) + (|old(unarchived)| - |unarchived|)
              && events == old(events) + [Archived(status, key)] + [Moveon(SweepMark(old(unarchived)))]
                           + (if registerFinished && unarchived == [] then [End(StatsNow())] else []))
      ensures unarchived == AfterArchive(old(unarchived), key, status)
      ensures events == old(events) + ArchiveEvents(old(unarchived), key, status, registerFinished, StatsNow())
    {
      Emit(Archived(status, key));
      var i := IndexOf(unarchived, key);
      if i > 0 {
        ResolveAt(i, status);
      } else {
        SweepHead(status);
      }
    }

    /** An archived item behind the head: record its status in place. */
    method ResolveAt(i: nat, status: Status)
      requires Books() && 0 < i < |unarchived| && unarchived[i].status == Creating
      requires status.Resolved()
      requires direction == Backup ==> !status.Skipped?
      modifies this`unarchived, this`created, this`ignored, this`skipped, this`settling
      ensures Books()
      ensures unarchived == old(unarchived)[i := Entry(old(unarchived)[i].key, status)]
      ensures settling == old(settling) + 1
      ensures created == old(created) + (if status == Created then 1 else 0)
      ensures ignored == old(ignored) + (if status == Ignored then 1 else 0)
      ensures skipped == old(skipped) + (if status == Skipped then 1 else 0)
    {
      ResolveStep(unarchived, history, archived, waiting, slots, i, status);
      Tally(status);
      settling := settling + 1;
      unarchived := unarchived[i := Entry(unarchived[i].key, status)];
    }

    /** The archived item is the head: remove the head and the resolved run
        after it, emit `moveon` with the last key removed, and try to end. */
    method SweepHead(status: Status)
      requires Books() && unarchived != [] && unarchived[0].status == Creating
      requires status.Resolved()
      requires direction == Backup ==> !status.Skipped?
      modifies this`unarchived, this`archived, this`events
      modifies this`created, this`ignored, this`skipped, this`settling
      ensures Books() && KeepsEnd()
      ensures unarchived == Sweep(old(unarchived))
      ensures archived == old(archived) + (|old(unarchived)| - |unarchived|)
      ensures settling == old(settling) + 1
      ensures created == old(created) + (if status == Created then 1 else 0)
      ensures ignored == old(ignored) + (if status == Ignored then 1 else 0)
      ensures skipped == old(skipped) + (if status == Skipped then 1 else 0)
      ensures events == old(events) + [Moveon(SweepMark(old(unarchived)))]
                        + (if registerFinished && unarchived == [] then [End(StatsNow())] else [])
    {
      var i := SweepEnd(unarchived);
      var markup := unarchived[i].key;
      DropResolved(i, status);
      Emit(Moveon(markup));
      TryEnd();
    }

    /** The removal half of the sweep: the head and the `i` resolved entries
        after it leave the ledger and the cursor moves past them. */
    method DropResolved(i: nat, status: Status)
      requires Books() && unarchived != [] && unarchived[0].status == Creating
      requires i + 1 == RunEnd(unarchived, 1)
      requires status.Resolved()
      requires direction == Backup ==> !status.Skipped?
      modifies this`unarchived, this`archived, this`created, this`ignored, this`skipped, this`settling
      ensures Books()
      ensures unarchived == Sweep(old(unarchived))
      ensures archived == old(archived) + (|old(unarchived)| - |unarchived|)
      ensures settling == old(settling) + 1
      ensures created == old(created) + (if status == Created then 1 else 0)
      ensures ignored == old(ignored) + (if status == Ignored then 1 else 0)
      ensures skipped == old(skipped) + (if status == Skipped then 1 else 0)
    {
      SweepStep(unarchived, history, archived, waiting, slots);
      Tally(status);
      settling := settling + 1;
      unarchived := unarchived[i + 1..];
      archived := archived + i + 1;
    }

    /** The item's half of a failure, from the state before it to this one:
        the retry rule's new count or the key's removal; a retried item back
        at the front of the waiting queue, its entry waiting again, with a
        `warning`; an exhausted one archived as ignored (the ledger, cursor
        and events of `archive`) and then reported by an `error` carrying
        `stats`. */
    twostate predicate ItemFailed(key: Key, payload: Payload, stats: Stats)
      requires old(0 <= IndexOf(unarchived, key))
      reads this`retry, this`created, this`skipped, this`ignored, this`archived
      reads this`waiting, this`unarchived, this`events, this`registerFinished
    {
      var d := RetryPolicy.OnFailure(Lookup(old(retry), key), options.retry);
      && retry == (if d.retried then old(retry)[key := d.count.value] else old(retry) - {key})
      && created == old(created) && skipped == old(skipped)
      && (d.retried ==>
            && ignored == old(ignored) && archived == old(archived)
            && waiting == [Item(key, payload)] + old(waiting)
            && unarchived == old(unarchived)[old(IndexOf(unarchived, key)) := Entry(key, Waiting)]
            && events == old(events) + [Warning(key, old(StatsNow()))])
      && (!d.retried ==>
            && ignored == old(ignored) + 1 && waiting == old(waiting)
            && unarchived == AfterArchive(old(unarchived), key, Ignored)
            && archived == old(archived) + (|old(unarchived)| - |unarchived|)
            && events == old(events) + ArchiveEvents(old(unarchived), key, Ignored, registerFinished, stats)
                         + [Error(key, stats)])
    }

    /** `on_create_error`: apply the retry rule; a retried item goes back to
        waiting at the front of the queue with a `warning`, an exhausted one is
        archived as ignored and reported with an `error`. Every failure counts
        against maxErrors, whose reach aborts the run. The payload requeued is
        the one the key was registered with. */
    method OnCreateError(key: Key, payload: Payload)
      requires Valid() && InFlight(key)
      requires key in payloads && payload == payloads[key]
      modifies this`retry, this`unarchived, this`waiting, this`slots, this`events, this`errors
      modifies this`stopRegister, this`stopCreate, this`settling
      modifies this`created, this`ignored, this`skipped, this`archived
      ensures Valid() && Monotonic() && KeepsEnd()
      ensures settling == old(settling) + 1
      ensures ItemFailed(key, payload, Stats(old(errors), created, ignored))
      ensures errors == old(errors) + 1
      ensures stopRegister == (old(stopRegister) || errors >= options.maxErrors)
      ensures stopCreate == (old(stopCreate) || errors >= options.maxErrors)
    {
      Fail(key, payload);
      ErrorPlus();
    }

    /** The item's half of `on_create_error`, before the error is counted. */
    method Fail(key: Key, payload: Payload)
      requires Valid() && InFlight(key)
      requires key in payloads && payload == payloads[key]
      modifies this`retry, this`unarchived, this`waiting, this`slots, this`events
      modifies this`settling, this`created, this`ignored, this`skipped, this`archived
      ensures Valid() && KeepsEnd()
      ensures archived >= old(archived)
      ensures settling == old(settling) + 1
      ensures ItemFailed(key, payload, Stats(errors, created, ignored))
    {
      InFlightRegistered(key);
      var d := CountFailure(key);
      if d.retried {
        Retry(key, payload);
      } else {
        GiveUp(key);
      }
    }

    /** A failed item with a retry left: back to waiting, with a `warning`. */
    method Retry(key: Key, payload: Payload)
      requires Books() && InFlight(key)
      requires key in payloads && payload == payloads[key]
      modifies this`unarchived, this`waiting, this`slots, this`settling, this`events
      ensures Books() && KeepsEnd()
      ensures settling == old(settling) + 1
      ensures waiting == [Item(key, payload)] + old(waiting)
      ensures unarchived == old(unarchived)[IndexOf(old(unarchived), key) := Entry(key, Waiting)]
      ensures events == old(events) + [Warning(key, StatsNow())]
    {
      Requeue(key, payload);
      Emit(Warning(key, StatsNow()));
    }

    /** A failed item with no retry left: archived as ignored, then an `error`. */
    method GiveUp(key: Key)
      requires Books() && InFlight(key)
      modifies this`created, this`ignored, this`skipped, this`events, this`settling
      modifies this`unarchived, this`archived
      ensures Books() && KeepsEnd()
      ensures settling == old(settling) + 1
      ensures archived >= old(archived)
      ensures created == old(created) && skipped == old(skipped) && ignored == old(ignored) + 1
      ensures unarchived == AfterArchive(old(unarchived), key, Ignored)
      ensures archived == old(archived) + (|old(unarchived)| - |unarchived|)
      ensures events == old(events) + ArchiveEvents(old(unarchived), key, Ignored, registerFinished, StatsNow())
                        + [Error(key, StatsNow())]
    {
      Archive(key, Ignored);
      Emit(Error(key, StatsNow()));
    }

    /** The retry table's half of `on_create_error`: the key's new count, or
        its removal once the item is given up. */
    method CountFailure(key: Key) returns (d: RetryPolicy.Decision)
      requires RetryInv(retry, options.retry, history) && key in history
      modifies this`retry
      ensures RetryInv(retry, options.retry, history)
      ensures d == RetryPolicy.OnFailure(Lookup(old(retry), key), options.retry)
      ensures retry == (if d.retried then old(retry)[key := d.count.value] else old(retry) - {key})
    {
      d := RetryPolicy.OnFailure(Lookup(retry, key), options.retry);
      if d.retried {
        retry := retry[key := d.count.value];
      } else {
        retry := retry - {key};
      }
    }

    /** The retry half of `on_create_error`: the entry is waiting again and
        the item goes to the front of the waiting queue. */
    method Requeue(key: Key, payload: Payload)
      requires Books() && InFlight(key)
      requires key in payloads && payload == payloads[key]
      modifies this`unarchived, this`waiting, this`slots, this`settling
      ensures Books()
      ensures settling == old(settling) + 1
      ensures waiting == [Item(key, payload)] + old(waiting)
      ensures unarchived == old(unarchived)[IndexOf(old(unarchived), key) := Entry(key, Waiting)]
    {
      var i := IndexOf(unarchived, key);
      RequeueStep(unarchived, history, archived, waiting, slots, i, payload);
      unarchived := unarchived[i := Entry(key, Waiting)];
      waiting := [Item(key, payload)] + waiting;
      slots := [archived + i] + slots;
      settling := settling + 1;
    }

    /** Count one error; reaching maxErrors aborts (`errorPlus`). */
    method ErrorPlus()
      modifies this`errors, this`stopRegister, this`stopCreate
      ensures Monotonic() && KeepsEnd()
      ensures errors == old(errors) + 1
      ensures stopRegister == (old(stopRegister) || errors >= options.maxErrors)
      ensures stopCreate == (old(stopCreate) || errors >= options.maxErrors)
    {
      errors := errors + 1;
      if errors >= options.maxErrors {
        Abort();
      }
    }

    /** A transfer's outcome arrives: archive the status it resolved with, or
        apply the retry rule to its rejection. Either way the item is archived
        or waiting again, never both. */
    method Report(key: Key, payload: Payload, outcome: CreateResult)
      requires Valid() && InFlight(key)
      requires key in payloads && payload == payloads[key]
      requires outcome.Finished? ==> outcome.status.Resolved()
      requires direction == Backup ==> outcome != Finished(Skipped)
      modifies this`settling, this`slots
      modifies this`retry, this`unarchived, this`waiting, this`events, this`errors
      modifies this`stopRegister, this`stopCreate
      modifies this`created, this`ignored, this`skipped, this`archived
      ensures Valid() && Monotonic() && KeepsEnd()
      ensures settling == old(settling) + 1
      ensures var requeued := outcome.Threw? && RetryPolicy.OnFailure(Lookup(old(retry), key), options.retry).retried;
        && |waiting| == |old(waiting)| + (if requeued then 1 else 0)
        && created + ignored + skipped == old(created + ignored + skipped) + (if requeued then 0 else 1)
      ensures outcome.Finished? ==>
        && retry == old(retry) && waiting == old(waiting) && errors == old(errors)
        && stopRegister == old(stopRegister) && stopCreate == old(stopCreate)
        && created == old(created) + (if outcome.status == Created then 1 else 0)
        && ignored == old(ignored) + (if outcome.status == Ignored then 1 else 0)
        && skipped == old(skipped) + (if outcome.status == Skipped then 1 else 0)
        && unarchived == AfterArchive(old(unarchived), key, outcome.status)
        && archived == old(archived) + (|old(unarchived)| - |unarchived|)
        && events == old(events) + ArchiveEvents(old(unarchived), key, outcome.status, registerFinished, StatsNow())
      ensures outcome.Threw? ==>
        && ItemFailed(key, payload, Stats(old(errors), created, ignored))
        && errors == old(errors) + 1
        && stopRegister == (old(stopRegister) || errors >= options.maxErrors)
        && stopCreate == (old(stopCreate) || errors >= options.maxErrors)
    {
      if outcome.Finished? {
        Archive(key, outcome.status);
      } else {
        OnCreateError(key, payload);
      }
    }

    /** The final `.then` of a transfer: one fewer in flight, then dispatch. */
    method Settle() returns (dispatched: bool)
      requires Books() && settling > 0
      modifies this`creating, this`settling, this`waiting, this`slots, this`unarchived
      ensures Books() && Monotonic() && KeepsEnd()
      ensures settling == old(settling) - 1
      ensures dispatched <==> !stopCreate && old(creating) - 1 < options.maxCreating && old(waiting) != []
      ensures creating == old(creating) - (if dispatched then 0 else 1)
      ensures waiting == if dispatched then old(waiting)[1..] else old(waiting)
      ensures !dispatched ==> unarchived == old(unarchived)
      ensures dispatched ==>
        var k := old(waiting)[0].key;
        var i := IndexOf(old(unarchived), k);
        && 0 <= i && old(unarchived)[i].status == Waiting
        && unarchived == old(unarchived)[i := Entry(k, Creating)]
    {
      creating := creating - 1;
      settling := settling - 1;
      dispatched := Next();
    }

    /** `on_register_finished` as each file writes it: restore runs `try_end`;
        backup emits `end` only when nothing was ever registered. */
    method OnRegisterFinished()
      requires Books()
      modifies this`registerFinished, this`events
      ensures Books() && Monotonic() && registerFinished
      ensures direction == Restore ==>
        && EndDelivered()
        && events == old(events) + (if unarchived == [] then [End(StatsNow())] else [])
      ensures direction == Backup ==>
        events == old(events) + (if registered == 0 then [End(StatsNow())] else [])
    {
      if direction == Restore {
        FinishRegistration();
      } else {
        registerFinished := true;
        if registered == 0 {
          events := events + [End(StatsNow())];
        }
      }
    }

    /** Registration has finished: `end` fires now if the ledger is already
        empty, and otherwise when the sweep that empties it runs. */
    method FinishRegistration()
      requires Books()
      modifies this`registerFinished, this`events
      ensures Books() && Monotonic() && registerFinished && EndDelivered()
      ensures events == old(events) + (if unarchived == [] then [End(StatsNow())] else [])
    {
      registerFinished := true;
      TryEnd();
    }

    /** Every waiting item has its own ledger entry, found by `find`, and that entry says waiting. */
    lemma WaitingInLedger(j: int)
      requires Books() && 0 <= j < |waiting|
      ensures 0 <= IndexOf(unarchived, waiting[j].key)
      ensures unarchived[IndexOf(unarchived, waiting[j].key)] == Entry(waiting[j].key, Waiting)
    {
      SlotIndex(unarchived, history, archived, slots[j]);
    }

    /** At the end of a run nothing vanished: every registered item was
        created, ignored or skipped, and nothing is in flight or waiting. */
    lemma Conservation()
      requires Books() && unarchived == []
      ensures registered == created + ignored + skipped
      ensures waiting == [] && creating == settling
    {
      QueueNeedsLedger(waiting, slots, unarchived, archived);
    }
  }
}
