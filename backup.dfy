/**
 * What backup.js adds to the engine: the `create` decision for one remote
 * object, and the paged listing of the bucket (`run`) that registers the
 * keys of each page and moves the listing marker past them.
 *
 * The listing is a resumable machine, one method per step between two
 * callbacks: `Start` (the `process.nextTick` that launches it), `TimerFired`
 * (the 100 ms backpressure timer), `PageFailed` and `PageListed` (the two
 * outcomes of `listObjects`). `RegisterNames` is the other branch of the
 * launch, which registers a given list of names instead of listing.
 */
module Backup {
  import opened Wrappers
  import opened Ledger
  import opened Engine

  /** `LIST_LIMIT`: the page size asked of `listObjects`. */
  const LIST_LIMIT: int := 3

  /** backup's defaults: maxCreating 10, retry 3. */
  function Setup(g: Given): (o: Options)
    ensures o == Engine.Configure(g, 10)
    ensures g.maxCreating.None? ==> o.maxCreating == 10
  {
    Engine.Configure(g, 10)
  }

  lemma Defaults()
    ensures Setup(Given(None, None, None, RetryPolicy.Absent))
         == Options(10, MAX_SAFE_INTEGER, MAX_SAFE_INTEGER, 3)
  {
  }

  // ---------------------------------------------------------------------
  // create

  /** The I/O `create` performs, in order. */
  datatype Io = GetRemote(key: Key) | WriteLocal(path: string) | SetTimes(path: string)

  /** Whether each I/O step would resolve. */
  datatype IoOutcome = IoOutcome(get: bool, write: bool, times: bool)

  /** What one call of `create` does: its result and the I/O it performed. */
  datatype Attempt = Attempt(result: CreateResult, io: seq<Io>)

  /** A key naming a directory placeholder: `keyName.endsWith('/')`. */
  predicate IsFolder(keyName: Key) {
    |keyName| > 0 && keyName[|keyName| - 1] == '/'
  }

  /** The local file name: `mapper(keyName)` when a mapper is given. */
  function LocalName(keyName: Key, mapper: Option<Key -> string>): string {
    if mapper.Some? then mapper.value(keyName) else keyName
  }

  /** `path.join(directory, localName)`, without its normalisation. */
  function LocalPath(directory: string, localName: string): string {
    directory + "/" + localName
  }

  /** `create(keyName)`: a folder key is ignored without any I/O; any other
      object is fetched by its own key, written to the mapped local path, and
      given the object's modification time. */
  function Create(keyName: Key, directory: string, mapper: Option<Key -> string>, ok: IoOutcome)
    : (a: Attempt)
    ensures IsFolder(keyName) ==> a == Attempt(Finished(Ignored), [])
    ensures a.result == Finished(Created) <==> !IsFolder(keyName) && ok.get && ok.write && ok.times
    ensures a.result.Finished? ==> a.result.status == Created || a.result.status == Ignored
    ensures a.result == Threw <==> !IsFolder(keyName) && !(ok.get && ok.write && ok.times)
    // the fetch always uses the original key and comes first; the writes use the mapped path
    ensures a.io != [] ==> a.io[0] == GetRemote(keyName)
    ensures forall j :: 0 < j < |a.io| ==>
      !a.io[j].GetRemote? && a.io[j].path == LocalPath(directory, LocalName(keyName, mapper))
    ensures a.result == Finished(Created) ==> |a.io| == 3 && a.io[2].SetTimes?
  {
    if IsFolder(keyName) then Attempt(Finished(Ignored), [])
    else
      var p := LocalPath(directory, LocalName(keyName, mapper));
      if !ok.get then Attempt(Threw, [GetRemote(keyName)])
      else if !ok.write then Attempt(Threw, [GetRemote(keyName), WriteLocal(p)])
      else if !ok.times then Attempt(Threw, [GetRemote(keyName), WriteLocal(p), SetTimes(p)])
      else Attempt(Finished(Created), [GetRemote(keyName), WriteLocal(p), SetTimes(p)])
  }

  // ---------------------------------------------------------------------
  // The order of a listing

  /** Key a sorts strictly before key b: the order in which `listObjects`
      returns keys, and in which it continues after `Marker`. */
  predicate Before(a: Key, b: Key)
    decreases |a|
  {
    b != [] && (a == [] || a[0] < b[0] || (a[0] == b[0] && Before(a[1..], b[1..])))
  }

  /** The order is irreflexive. */
  lemma {:induction false} BeforeIrreflexive(a: Key)
    ensures !Before(a, a)
    decreases |a|
  {
    if a != [] {
      BeforeIrreflexive(a[1..]);
    }
  }

  /** The order is transitive. */
  lemma {:induction false} BeforeTransitive(a: Key, b: Key, c: Key)
    requires Before(a, b) && Before(b, c)
    ensures Before(a, c)
    decreases |a|
  {
    if a != [] && a[0] == b[0] && b[0] == c[0] {
      BeforeTransitive(a[1..], b[1..], c[1..]);
    }
  }

  /** Key k lies beyond the marker m (any key does when there is none). */
  predicate After(m: Option<Key>, k: Key) {
    m.None? || Before(m.value, k)
  }

  /** A page of `listObjects` after marker m: in listing order, every key
      beyond the one before it, the first beyond the marker. */
  predicate Page(m: Option<Key>, keys: seq<Key>) {
    forall i :: 0 <= i < |keys| ==> After(if i == 0 then m else Some(keys[i - 1]), keys[i])
  }

  lemma PageAt(m: Option<Key>, keys: seq<Key>, i: nat)
    requires Page(m, keys) && i < |keys|
    ensures After(if i == 0 then m else Some(keys[i - 1]), keys[i])
  {
  }

  /** Every registered key is the marker or sorts before it. */
  ghost predicate Behind(h: seq<Key>, m: Option<Key>) {
    forall x :: 0 <= x < |h| ==> m.Some? && (h[x] == m.value || Before(h[x], m.value))
  }

  /** A key beyond the marker has not been registered, and moving the marker
      to it keeps every registered key, and the key itself, behind. */
  lemma Beyond(h: seq<Key>, m: Option<Key>, k: Key)
    requires Behind(h, m) && After(m, k)
    ensures k !in h
    ensures Behind(h, Some(k)) && Behind(h + [k], Some(k))
  {
    forall x | 0 <= x < |h|
      ensures h[x] != k && Before(h[x], k)
    {
      if m.Some? && h[x] != m.value {
        BeforeTransitive(h[x], m.value, k);
      }
      BeforeIrreflexive(k);
    }
  }

  /** How many of `count` keys `register` accepts when `room` more may be
      registered before maxCreated is reached. */
  function Taken(count: nat, room: int): (n: nat)
    ensures n <= count
    ensures n < count <==> 0 < count && room < count
    ensures room >= 0 ==> n == if room < count then room else count
  {
    if room <= 0 then 0 else if room < count then room else count
  }

  /** One key more: it is taken exactly when there is room left for it. */
  lemma TakenStep(keys: seq<Key>, count: nat, room: int)
    requires count < |keys|
    ensures Taken(count + 1, room) == Taken(count, room) + (if room > count then 1 else 0)
    ensures keys[..Taken(count + 1, room)] == keys[..Taken(count, room)] + (if room > count then [keys[count]] else [])
  {
    if room > count {
      assert Taken(count + 1, room) == count + 1 && Taken(count, room) == count;
    }
  }

  // ---------------------------------------------------------------------
  // The listing

  /** The points between two callbacks where the listing can be. */
  datatype Stage =
    | Idle                 // before the `process.nextTick` callback
    | Deferred             // the waiting queue was too long; a 100 ms timer runs `run()`
    | Awaiting(retry: int) // `listObjects` is pending, with this many retries left
    | Halted               // `run` returned on stopRegister
    | Abandoned            // a listing failed with no retry left
    | Complete             // registration finished (an empty page, or the names given)

  /** Where `run(retry)` leaves the listing. */
  function RunStage(stop: bool, waiting: nat, retry: int): Stage {
    if stop then Halted
    else if waiting > LIST_LIMIT * 10 then Deferred
    else Awaiting(retry)
  }

  class Lister {
    const engine: SyncEngine
    const maxListRetry: int
    var marker: Option<Key>
    var stage: Stage

    /** The engine's invariant, the engine's own `end` guarantee, and every
        registered key at or before the marker. */
    ghost predicate Valid()
      reads this`marker
      reads engine`unarchived, engine`history, engine`archived, engine`waiting, engine`slots, engine`retry
      reads engine`registered, engine`creating, engine`settling, engine`created, engine`ignored, engine`skipped
      reads engine`registerFinished, engine`events
    {
      && engine.Valid() && engine.direction == Direction.Backup
      && engine.EndDelivered()
      && Behind(engine.history, marker)
    }

    /** `backup(options)` up to its `process.nextTick`. */
    constructor (options: Options, marker: Option<Key>)
      ensures Valid() && fresh(engine)
      ensures engine.options == options && maxListRetry == options.retry
      ensures this.marker == marker && stage == Idle
      ensures engine.events == [] && engine.history == [] && !engine.registerFinished
    {
      engine := new SyncEngine(Direction.Backup, options);
      maxListRetry := options.retry;
      this.marker := marker;
      stage := Idle;
    }

    /** `run(retry)`: return on stopRegister; come back in 100 ms while more
        than LIST_LIMIT * 10 items wait; otherwise ask for the page after the
        marker, with `retry` (by default maxListRetry) retries left. */
    method Run(retry: Option<int>)
      requires Valid()
      modifies this`stage
      ensures Valid()
      ensures stage == RunStage(engine.stopRegister, |engine.waiting|, GetOr(retry, maxListRetry))
    {
      if engine.stopRegister {
        stage := Halted;
      } else if |engine.waiting| > LIST_LIMIT * 10 {
        stage := Deferred;
      } else {
        stage := Awaiting(GetOr(retry, maxListRetry));
      }
    }

    /** The `process.nextTick` callback when no names are given. */
    method Start()
      requires Valid() && stage == Idle
      modifies this`stage
      ensures Valid()
      ensures stage == RunStage(engine.stopRegister, |engine.waiting|, maxListRetry)
    {
      Run(None);
    }

    /** The backpressure timer fired: `run()` again, with a fresh retry budget. */
    method TimerFired()
      requires Valid() && stage == Deferred
      modifies this`stage
      ensures Valid()
      ensures stage == RunStage(engine.stopRegister, |engine.waiting|, maxListRetry)
    {
      Run(None);
    }

    /** `listObjects` failed: count the error (which may abort), and list
        again with one retry fewer while any is left. */
    method PageFailed()
      requires Valid() && stage.Awaiting?
      modifies this`stage, engine`errors, engine`stopRegister, engine`stopCreate
      ensures Valid()
      ensures engine.errors == old(engine.errors) + 1
      ensures engine.stopRegister == (old(engine.stopRegister) || engine.errors >= engine.options.maxErrors)
      ensures engine.stopCreate == (old(engine.stopCreate) || engine.errors >= engine.options.maxErrors)
      ensures old(stage).retry > 0 ==>
        stage == RunStage(engine.stopRegister, |engine.waiting|, old(stage).retry - 1)
      ensures old(stage).retry <= 0 ==> stage == Abandoned
    {
      var r := stage.retry;
      engine.ErrorPlus();
      if r > 0 {
        Run(Some(r - 1));
      } else {
        stage := Abandoned;
      }
    }

    /** `listObjects` answered with the page `keys`: an empty page finishes
        registration; otherwise every key is offered to `register`, the
        marker moves to the last key, and the next page is asked for. */
    method PageListed(keys: seq<Key>)
      requires Valid() && stage.Awaiting? && Page(marker, keys)
      modifies this`stage, this`marker
      modifies engine`stopRegister, engine`waiting, engine`slots, engine`unarchived, engine`creating
      modifies engine`registered, engine`history, engine`payloads, engine`registerFinished, engine`events
      ensures Valid()
      ensures keys == [] ==>
        && stage == Complete && engine.registerFinished && marker == old(marker)
        && engine.history == old(engine.history)
        && engine.events == old(engine.events) + (if engine.unarchived == [] then [End(engine.StatsNow())] else [])
      ensures keys != [] ==>
        var n := Taken(|keys|, engine.options.maxCreated - old(engine.registered));
        && marker == Some(keys[|keys| - 1])
        && engine.history == old(engine.history) + keys[..n]
        && engine.stopRegister == (old(engine.stopRegister) || n < |keys|)
        && engine.events == old(engine.events)
        && stage == RunStage(engine.stopRegister, |engine.waiting|, maxListRetry)
    {
      if keys == [] {
        engine.FinishRegistration();
        stage := Complete;
        return;
      }
      RegisterPage(keys);
      Run(None);
    }

    /** `metas.forEach(meta => { register(meta.Key); marker = meta.Key; })`. */
    method RegisterPage(keys: seq<Key>)
      requires Valid() && Page(marker, keys)
      modifies this`marker
      modifies engine`stopRegister, engine`waiting, engine`slots, engine`unarchived, engine`creating
      modifies engine`registered, engine`history, engine`payloads
      ensures Valid()
      ensures var n := Taken(|keys|, engine.options.maxCreated - old(engine.registered));
        && marker == (if keys == [] then old(marker) else Some(keys[|keys| - 1]))
        && engine.history == old(engine.history) + keys[..n]
        && engine.registered == old(engine.registered) + n
        && engine.stopRegister == (old(engine.stopRegister) || n < |keys|)
    {
      ghost var h0, r0, s0, m0 := engine.history, engine.registered, engine.stopRegister, marker;
      var i := 0;
      while i < |keys|
        invariant 0 <= i <= |keys|
        invariant Valid() && Progress(keys, i, m0, h0, r0, s0)
      {
        OfferAt(keys, i, m0, h0, r0, s0);
        i := i + 1;
      }
      assert keys[..|keys|] == keys;
    }

    /** The first `i` keys of a page have been offered, starting from the
        marker `m0` and the registration state `h0`, `r0`, `s0`. */
    ghost predicate Progress(keys: seq<Key>, i: nat, m0: Option<Key>, h0: seq<Key>, r0: int, s0: bool)
      reads this`marker, engine`history, engine`registered, engine`stopRegister
    {
      var n := Taken(i, engine.options.maxCreated - r0);
      && i <= |keys| && Page(m0, keys)
      && marker == (if i == 0 then m0 else Some(keys[i - 1]))
      && engine.history == h0 + keys[..n]
      && engine.registered == r0 + n
      && engine.stopRegister == (s0 || n < i)
    }

    /** The page's key `i` takes its turn. */
    method OfferAt(keys: seq<Key>, i: nat, ghost m0: Option<Key>, ghost h0: seq<Key>, ghost r0: int, ghost s0: bool)
      requires Valid() && i < |keys| && Progress(keys, i, m0, h0, r0, s0)
      modifies this`marker
      modifies engine`stopRegister, engine`waiting, engine`slots, engine`unarchived, engine`creating
      modifies engine`registered, engine`history, engine`payloads
      ensures Valid() && Progress(keys, i + 1, m0, h0, r0, s0)
    {
      PageAt(m0, keys, i);
      Offer(keys[i]);
      TakenStep(keys, i, engine.options.maxCreated - r0);
    }

    /** One key of a page: `register(key)`, then `marker = key`. */
    method Offer(key: Key)
      requires Valid() && After(marker, key)
      modifies this`marker
      modifies engine`stopRegister, engine`waiting, engine`slots, engine`unarchived, engine`creating
      modifies engine`registered, engine`history, engine`payloads
      ensures Valid() && marker == Some(key)
      ensures var ok := old(engine.registered) < engine.options.maxCreated;
        && engine.history == old(engine.history) + (if ok then [key] else [])
        && engine.registered == old(engine.registered) + (if ok then 1 else 0)
        && engine.stopRegister == (old(engine.stopRegister) || !ok)
    {
      Beyond(engine.history, marker, key);
      var _ := engine.Register(key, KeyOnly);
      marker := Some(key);
    }
  }

  /** The `process.nextTick` callback when names are given (no listing
      takes place): register each name in order, then finish registration. */
  method RegisterNames(engine: SyncEngine, names: seq<Key>)
    requires engine.Valid() && engine.direction == Direction.Backup && engine.EndDelivered()
    requires engine.history == [] && Distinct(names)
    modifies engine`stopRegister, engine`waiting, engine`slots, engine`unarchived, engine`creating
    modifies engine`registered, engine`history, engine`payloads, engine`registerFinished, engine`events
    ensures engine.Valid() && engine.EndDelivered() && engine.registerFinished
    ensures var n := Taken(|names|, engine.options.maxCreated - old(engine.registered));
      && engine.history == names[..n]
      && engine.stopRegister == (old(engine.stopRegister) || n < |names|)
  {
    ghost var room := engine.options.maxCreated - engine.registered;
    var i := 0;
    while i < |names|
      invariant 0 <= i <= |names|
      invariant engine.Valid() && engine.EndDelivered()
      invariant engine.history == names[..Taken(i, room)]
      invariant engine.registered == old(engine.registered) + Taken(i, room)
      invariant engine.stopRegister == (old(engine.stopRegister) || Taken(i, room) < i)
    {
      NotYet(names, i, Taken(i, room));
      Name(engine, names[i]);
      TakenStep(names, i, room);
      i := i + 1;
    }
    engine.FinishRegistration();
  }

  /** One given name: `register(name)`. */
  method Name(engine: SyncEngine, key: Key)
    requires engine.Valid() && key !in engine.history
    modifies engine`stopRegister, engine`waiting, engine`slots, engine`unarchived, engine`creating
    modifies engine`registered, engine`history, engine`payloads
    ensures engine.Valid() && engine.KeepsEnd()
    ensures var ok := old(engine.registered) < engine.options.maxCreated;
      && engine.history == old(engine.history) + (if ok then [key] else [])
      && engine.registered == old(engine.registered) + (if ok then 1 else 0)
      && engine.stopRegister == (old(engine.stopRegister) || !ok)
  {
    var _ := engine.Register(key, KeyOnly);
  }

  /** A name of a list without repeats is not among the names before it. */
  lemma NotYet(names: seq<Key>, i: nat, n: nat)
    requires Distinct(names) && n <= i < |names|
    ensures names[i] !in names[..n]
  {
    forall x | 0 <= x < n
      ensures names[..n][x] != names[i]
    {
      assert Pos(names, names[x]) == x && Pos(names, names[i]) == i;
    }
  }

  // ---------------------------------------------------------------------
  // on_register_finished

  /** A backup run that registered one key and archived it while the
      listing went on: the ledger is empty, and registration has not
      finished yet, so no `end` has been emitted. */
  method Drained() returns (e: SyncEngine)
    ensures fresh(e) && e.Valid() && e.direction == Direction.Backup
    ensures e.registered == 1 && e.unarchived == [] && !e.registerFinished && !Ended(e.events)
  {
    e := Dispatched();
    e.Archive("a", Created);
    assert !e.events[0].End? && !e.events[1].End?;
  }

  /** The same run just after its one key was registered and dispatched. */
  method Dispatched() returns (e: SyncEngine)
    ensures fresh(e) && e.Valid() && e.direction == Direction.Backup
    ensures e.registered == 1 && e.unarchived == [Entry("a", Creating)] && e.InFlight("a")
    ensures !e.registerFinished && e.events == []
  {
    e := new SyncEngine(Direction.Backup, Setup(Given(None, None, None, RetryPolicy.Absent)));
    var ok := e.Register("a", KeyOnly);
    assert ok;
    assert e.unarchived == [Entry("a", Creating)];
  }

  /** `on_register_finished` as backup.js writes it, on the empty page that
      follows: `end` is emitted only when nothing was registered, so here it
      is never emitted, although registration has finished and the ledger is
      empty (no later `archive` call can emit it). */
  method LostEnd() returns (e: SyncEngine)
    ensures fresh(e) && e.Valid() && e.direction == Direction.Backup
    ensures e.registerFinished && e.unarchived == [] && !Ended(e.events)
    ensures !e.EndDelivered()
  {
    e := Drained();
    e.OnRegisterFinished();
  }

  /** The same run, with registration finishing as restore.js does it
      (`try_end`), which the listing above uses: `end` is emitted. */
  method KeptEnd() returns (e: SyncEngine)
    ensures fresh(e) && e.Valid() && e.direction == Direction.Backup
    ensures e.registerFinished && e.unarchived == [] && Ended(e.events) && e.EndDelivered()
  {
    e := Drained();
    e.FinishRegistration();
  }
}
