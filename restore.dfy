/**
 * What restore.js adds to the engine: the `create` decision for one local
 * file and the depth-first walk of the local directory (`run`) that turns
 * files into keys and registers them.
 *
 * The walk is a resumable machine whose methods are pieces of the
 * stretches between two awaits: `DirRead` (readdir resolved), `Advance`
 * (the synchronous part of the `for` loop, up to its next await),
 * `StatDone` (stat resolved), `Wake` (a backpressure sleep ended),
 * `Resume` (a nested `run` returned to its caller) and `Reject` (readdir
 * or stat rejected). `DirRead`, `Resume` and a registering `Wake` stop
 * just before the loop goes on, leaving that to `Advance`, so the calls
 * admit more interleavings than the original. Its explicit stack holds
 * one frame per active `run`.
 */
module Restore {
  import opened Wrappers
  import opened Ledger
  import opened Engine
  import Utf8

  /** The options restore runs with: the engine's and the queue bound. */
  datatype RestoreOptions = RestoreOptions(engine: Options, maxQueueing: int)

  /** restore's defaults: maxCreating 3, maxQueueing 1000, retry 3. */
  function Setup(g: Given, maxQueueing: Option<int>): (o: RestoreOptions)
    ensures o.engine == Engine.Configure(g, 3)
    ensures maxQueueing.None? ==> o.maxQueueing == 1000
    ensures maxQueueing.Some? ==> o.maxQueueing == maxQueueing.value
  {
    RestoreOptions(Engine.Configure(g, 3), GetOr(maxQueueing, 1000))
  }

  lemma Defaults()
    ensures Setup(Given(None, None, None, RetryPolicy.Absent), None)
         == RestoreOptions(Options(3, MAX_SAFE_INTEGER, MAX_SAFE_INTEGER, 3), 1000)
  {
  }

  // ---------------------------------------------------------------------
  // create

  /** The I/O `create` performs, in order. */
  datatype Io = StatLocal | HeadRemote | ReadLocal | PutRemote(key: Key)

  /** Whether each I/O step would resolve; headObject answering 404 resolves
      (with no metadata), any other failure rejects. */
  datatype IoOutcome = IoOutcome(stat: bool, head: bool, read: bool, put: bool)

  /** What one call of `create` does: its result and the I/O it performed. */
  datatype Attempt = Attempt(result: CreateResult, io: seq<Io>)

  /** The remote key: `mapper(keyName)` when a mapper is given. */
  function Destination(keyName: Key, mapper: Option<Key -> Key>): Key {
    if mapper.Some? then mapper.value(keyName) else keyName
  }

  predicate Admitted(keyName: Key, filter: Option<Key -> bool>) {
    filter.None? || filter.value(keyName)
  }

  /** `create(keyName, pathname)`. `dualMetaFilter` is None when that option
      is not given, and otherwise the answer it would give on the local stat
      and the remote metadata. */
  function Create(keyName: Key, filter: Option<Key -> bool>, mapper: Option<Key -> Key>,
                  dualMetaFilter: Option<bool>, ok: IoOutcome): (a: Attempt)
    // the filter sees the original key and runs before any I/O
    ensures !Admitted(keyName, filter) ==> a == Attempt(Finished(Skipped), [])
    ensures a.result == Finished(Skipped) <==>
      !Admitted(keyName, filter) || (dualMetaFilter == Some(false) && ok.stat && ok.head)
    ensures a.result == Finished(Created) <==>
      && Admitted(keyName, filter)
      && (dualMetaFilter.None? || (dualMetaFilter.value && ok.stat && ok.head))
      && ok.read && ok.put
    ensures a.result.Finished? ==> a.result.status == Created || a.result.status == Skipped
    // only the upload sees the mapped key, and it is the last step
    ensures forall j :: 0 <= j < |a.io| && a.io[j].PutRemote? ==>
      j == |a.io| - 1 && a.io[j].key == Destination(keyName, mapper)
    ensures a.result == Finished(Created) ==>
      |a.io| >= 2 && a.io[|a.io| - 2] == ReadLocal && a.io[|a.io| - 1] == PutRemote(Destination(keyName, mapper))
  {
    if !Admitted(keyName, filter) then Attempt(Finished(Skipped), [])
    else
      var meta :=
        if dualMetaFilter.None? then []
        else if !ok.stat then [StatLocal]
        else [StatLocal, HeadRemote];
      if dualMetaFilter.Some? && !(ok.stat && ok.head) then Attempt(Threw, meta)
      else if dualMetaFilter == Some(false) then Attempt(Finished(Skipped), meta)
      else if !ok.read then Attempt(Threw, meta + [ReadLocal])
      else if !ok.put then Attempt(Threw, meta + [ReadLocal, PutRemote(Destination(keyName, mapper))])
      else Attempt(Finished(Created), meta + [ReadLocal, PutRemote(Destination(keyName, mapper))])
  }

  /** `create` as restore.js writes it. The `headObject` call of `s3ReadMeta`
      names `Bucket` and `Key`, which are declared only inside `create`, so it
      throws a ReferenceError before any request: with a dualMetaFilter every
      admitted file rejects right after its stat, whatever the I/O would do. */
  function CreateAsWritten(keyName: Key, filter: Option<Key -> bool>, mapper: Option<Key -> Key>,
                           dualMetaFilter: Option<bool>, ok: IoOutcome): (a: Attempt)
    ensures dualMetaFilter.None? || !Admitted(keyName, filter) ==>
      a == Create(keyName, filter, mapper, dualMetaFilter, ok)
    ensures dualMetaFilter.Some? && Admitted(keyName, filter) ==> a == Attempt(Threw, [StatLocal])
  {
    if dualMetaFilter.Some? && Admitted(keyName, filter) then Attempt(Threw, [StatLocal])
    else Create(keyName, filter, mapper, dualMetaFilter, ok)
  }

  /** With a dualMetaFilter that admits the file and every I/O step resolving,
      the file is uploaded by `Create` but never by the code as written. */
  lemma DualMetaFilterLost(keyName: Key)
    ensures CreateAsWritten(keyName, None, None, Some(true), IoOutcome(true, true, true, true)).result == Threw
    ensures Create(keyName, None, None, Some(true), IoOutcome(true, true, true, true)).result == Finished(Created)
  {
  }

  // ---------------------------------------------------------------------
  // Keys

  /** `pieces.join('/')`. */
  function Join(pieces: seq<string>): string
    decreases |pieces|
  {
    if pieces == [] then ""
    else if |pieces| == 1 then pieces[0]
    else Join(pieces[..|pieces| - 1]) + "/" + pieces[|pieces| - 1]
  }

  /** `parentKeyNamePieces.concat(fsname).join('/')`: the key of an entry. */
  function KeyOf(pieces: seq<string>, name: string): Key {
    Join(pieces + [name])
  }

  /** What every key below the directory with these pieces starts with. */
  function Prefix(pieces: seq<string>): string {
    if pieces == [] then "" else Join(pieces) + "/"
  }

  /** `path.join(dirname, fsname)`, without its normalisation. */
  function PathJoin(dir: string, name: string): string {
    dir + "/" + name
  }

  /** Key k is the key d or lies below it. */
  predicate Under(k: Key, d: string) {
    k == d || (|k| > |d| && k[..|d| + 1] == d + "/")
  }

  predicate NoSlash(s: string) {
    forall i :: 0 <= i < |s| ==> s[i] != '/'
  }

  lemma KeyOfPrefix(pieces: seq<string>, name: string)
    ensures KeyOf(pieces, name) == Prefix(pieces) + name
  {
    var q := pieces + [name];
    assert q[..|q| - 1] == pieces;
  }

  lemma PrefixSnoc(pieces: seq<string>, name: string)
    ensures Prefix(pieces + [name]) == Prefix(pieces) + name + "/"
  {
    KeyOfPrefix(pieces, name);
  }

  /** A prefix of a prefix is a prefix. */
  lemma Extends(a: string, b: string, c: string)
    requires |a| <= |b| <= |c| && b[..|a|] == a && c[..|b|] == b
    ensures c[..|a|] == a
  {
    assert c[..|a|] == c[..|b|][..|a|];
  }

  /** Longer pieces give a longer prefix that extends the shorter one. */
  lemma {:induction false} PrefixGrows(p: seq<string>, q: seq<string>)
    requires |p| <= |q| && q[..|p|] == p
    ensures |Prefix(p)| <= |Prefix(q)| && Prefix(q)[..|Prefix(p)|] == Prefix(p)
    decreases |q|
  {
    if |p| == |q| {
      assert q == q[..|p|];
    } else {
      var q', x := q[..|q| - 1], q[|q| - 1];
      assert q'[..|p|] == p;
      PrefixGrows(p, q');
      assert Prefix(q)[..|Prefix(q')|] == Prefix(q') by {
        assert q == q' + [x];
        PrefixSnoc(q', x);
      }
      Extends(Prefix(p), Prefix(q'), Prefix(q));
    }
  }

  lemma UnderPrefix(k: Key, d: string)
    requires Under(k, d)
    ensures |d| <= |k| && k[..|d|] == d
  {
    if k != d {
      assert k[..|d|] == k[..|d| + 1][..|d|];
    }
  }

  /** A key below d + name is below d when d + name extends c + "/". */
  lemma UnderOuter(k: Key, c: string, d: string)
    requires Under(k, d) && |c| < |d| && d[..|c| + 1] == c + "/"
    ensures Under(k, c)
  {
    UnderPrefix(k, d);
    assert k[..|c| + 1] == k[..|d|][..|c| + 1];
  }

  /** Keys below two different names of one directory differ. */
  lemma Apart(p: string, a: string, b: string, x: Key, y: Key)
    requires a != b && NoSlash(a) && NoSlash(b)
    requires Under(x, p + a) && Under(y, p + b)
    ensures x != y
  {
    var pa, pb := p + a, p + b;
    UnderPrefix(x, pa);
    UnderPrefix(y, pb);
    if |a| == |b| {
      assert pa[|p|..] == a && pb[|p|..] == b;
      assert x[..|pa|] != y[..|pa|];
    } else if |a| < |b| {
      assert y[|pa|] == pb[|pa|] == b[|a|];
      if x != pa {
        assert x[|pa|] == x[..|pa| + 1][|pa|] == '/';
      }
    } else {
      assert x[|pb|] == pa[|pb|] == a[|b|];
      if y != pb {
        assert y[|pb|] == y[..|pb| + 1][|pb|] == '/';
      }
    }
  }

  // ---------------------------------------------------------------------
  // Directory entries

  predicate NoSlashByte(b: seq<Utf8.byte>) {
    forall k :: 0 <= k < |b| ==> b[k] != 0x2F
  }

  /** What readdir lists: distinct names without the byte '/'. */
  ghost predicate Listed(names: seq<seq<Utf8.byte>>) {
    Distinct(names) && forall j :: 0 <= j < |names| ==> NoSlashByte(names[j])
  }

  /** A name without the byte '/' decodes to a name without '/'. */
  lemma NameNoSlash(b: seq<Utf8.byte>)
    requires NoSlashByte(b) && Utf8.Decode(b).Some?
    ensures NoSlash(Utf8.Decode(b).value)
  {
    Utf8.EncodeDecode(b);
    Utf8.NoSlash(Utf8.Decode(b).value);
  }

  /** Different entries of a listing give different names. */
  lemma NamesDiffer(names: seq<seq<Utf8.byte>>, i: nat, j: nat)
    requires Distinct(names) && i < |names| && j < |names| && i != j
    requires Utf8.Decode(names[i]).Some? && Utf8.Decode(names[j]).Some?
    ensures Utf8.Decode(names[i]).value != Utf8.Decode(names[j]).value
  {
    assert Pos(names, names[i]) == i && Pos(names, names[j]) == j;
    Utf8.EncodeDecode(names[i]);
    Utf8.EncodeDecode(names[j]);
  }

  // ---------------------------------------------------------------------
  // One activation of `run`

  /** `run(dir, pieces)`: its entries as readdir listed them, in sorted
      order, and the index of its `for` loop. */
  datatype Frame = Frame(dir: string, pieces: seq<string>, names: seq<seq<Utf8.byte>>, i: nat)

  /** The name of entry j, or None when its bytes do not survive
      `toString('utf8')` followed by `Buffer.from` (see Utf8.RoundTrip). */
  function NameOf(f: Frame, j: nat): Option<string>
    requires j < |f.names|
  {
    Utf8.Decode(f.names[j])
  }

  /** `marker.equal` and `marker.cover` of the resume point, left abstract. */
  datatype Mark = Mark(equal: Key -> bool, cover: Key -> bool)

  datatype ScanEnd = NeedStat | Stopped | Exhausted

  /** Where the synchronous part of the loop stops, the value of `started`
      then, and the events it emitted. */
  datatype ScanResult = ScanResult(end: ScanEnd, at: nat, started: bool, emitted: seq<Event<Key>>)

  /** The `for` loop of `run` over the entries `names` of the directory with
      key pieces `pieces`, from index i up to its next await (a stat), its
      `return` on stopRegister, or its end. */
  function Scan(names: seq<seq<Utf8.byte>>, pieces: seq<string>, i: nat, started: bool, stop: bool, m: Mark)
    : (r: ScanResult)
    requires i <= |names|
    ensures i <= r.at <= |names|
    ensures r.end == NeedStat ==> r.at < |names| && Utf8.Decode(names[r.at]).Some?
    decreases |names| - i
  {
    if i == |names| then ScanResult(Exhausted, i, started, [])
    else if stop then ScanResult(Stopped, i, started, [])
    else match Utf8.Decode(names[i])
      case None =>
        var r := Scan(names, pieces, i + 1, started, stop, m);
        r.(emitted := [NoUtf8Filename(Join(pieces), names[i])] + r.emitted)
      case Some(n) =>
        if m.equal(KeyOf(pieces, n)) then Scan(names, pieces, i + 1, true, stop, m)
        else if started || !m.cover(KeyOf(pieces, n)) then ScanResult(NeedStat, i, started, [])
        else Scan(names, pieces, i + 1, started, stop, m)
  }

  /** `started` once the loop has looked at entry i. */
  predicate Sees(names: seq<seq<Utf8.byte>>, pieces: seq<string>, i: nat, started: bool, m: Mark)
    requires i < |names|
  {
    started || IsMarker(names, pieces, i, m)
  }

  /** Entry j has a name, and its key equals the marker. */
  predicate IsMarker(names: seq<seq<Utf8.byte>>, pieces: seq<string>, j: nat, m: Mark)
    requires j < |names|
  {
    Utf8.Decode(names[j]).Some? && m.equal(KeyOf(pieces, Utf8.Decode(names[j]).value))
  }

  /** The loop checks stopRegister before it looks at an entry: a set flag
      returns at once, without an event, unless the entries are exhausted. */
  lemma ScanStop(names: seq<seq<Utf8.byte>>, pieces: seq<string>, i: nat, started: bool, m: Mark)
    requires i <= |names|
    ensures Scan(names, pieces, i, started, true, m)
         == ScanResult(if i == |names| then Exhausted else Stopped, i, started, [])
  {
  }

  /** The loop stops for a stat only at an entry with a name, not equal to
      the marker, and either after it or not covered by it. */
  lemma {:induction false} ScanVisits(names: seq<seq<Utf8.byte>>, pieces: seq<string>, i: nat, started: bool,
                                      stop: bool, m: Mark)
    requires i <= |names|
    ensures var r := Scan(names, pieces, i, started, stop, m);
      r.end == NeedStat ==>
        var k := KeyOf(pieces, Utf8.Decode(names[r.at]).value);
        !stop && !m.equal(k) && (r.started || !m.cover(k))
    decreases |names| - i
  {
    if i < |names| && !stop {
      ScanVisits(names, pieces, i + 1, Sees(names, pieces, i, started, m), stop, m);
    }
  }

  /** `started` becomes true exactly when an entry's key equals the marker. */
  lemma {:induction false} ScanStarts(names: seq<seq<Utf8.byte>>, pieces: seq<string>, i: nat, started: bool,
                                      stop: bool, m: Mark)
    requires i <= |names|
    ensures var r := Scan(names, pieces, i, started, stop, m);
      r.started <==> started || exists j :: i <= j < r.at && IsMarker(names, pieces, j, m)
    decreases |names| - i
  {
    if i < |names| && !stop {
      ScanStarts(names, pieces, i + 1, Sees(names, pieces, i, started, m), stop, m);
      if IsMarker(names, pieces, i, m) {
        assert i < Scan(names, pieces, i, started, stop, m).at;
      }
    }
  }

  /** Every entry the loop passes over without a stat and with a name is
      either the marker or covered by it, and then `started` was false:
      it was not set on entry, and no earlier entry was the marker. */
  lemma {:induction false} ScanSkips(names: seq<seq<Utf8.byte>>, pieces: seq<string>, i: nat, started: bool,
                                     stop: bool, m: Mark)
    requires i <= |names|
    ensures var r := Scan(names, pieces, i, started, stop, m);
      forall j :: i <= j < r.at && Utf8.Decode(names[j]).Some? && !IsMarker(names, pieces, j, m) ==>
        && m.cover(KeyOf(pieces, Utf8.Decode(names[j]).value)) && !started
        && forall j' :: i <= j' < j ==> !IsMarker(names, pieces, j', m)
    decreases |names| - i
  {
    if i < |names| && !stop {
      ScanSkips(names, pieces, i + 1, Sees(names, pieces, i, started, m), stop, m);
    }
  }

  /** Event e is the `no-utf8-filename` event of an entry between lo and hi. */
  predicate BadEntryEvent(names: seq<seq<Utf8.byte>>, pieces: seq<string>, lo: nat, hi: nat, e: Event<Key>)
    requires hi <= |names|
  {
    exists j :: lo <= j < hi && Utf8.Decode(names[j]).None? && e == NoUtf8Filename(Join(pieces), names[j])
  }

  /** Every event the loop emits is the `no-utf8-filename` event of an entry
      it passed over, with the directory's key as `dirname`. */
  lemma {:induction false} ScanEventsFrom(names: seq<seq<Utf8.byte>>, pieces: seq<string>, i: nat, started: bool,
                                          stop: bool, m: Mark)
    requires i <= |names|
    ensures var r := Scan(names, pieces, i, started, stop, m);
      forall e :: e in r.emitted ==> BadEntryEvent(names, pieces, i, r.at, e)
    decreases |names| - i
  {
    if i < |names| && !stop {
      var r := Scan(names, pieces, i, started, stop, m);
      var s' := Sees(names, pieces, i, started, m);
      var r' := Scan(names, pieces, i + 1, s', stop, m);
      ScanEventsFrom(names, pieces, i + 1, s', stop, m);
      assert var rr := Scan(names, pieces, i + 1, s', stop, m);
        forall e :: e in rr.emitted ==> BadEntryEvent(names, pieces, i + 1, rr.at, e);
      if r.end != NeedStat || r.at != i {
        assert r.at == r'.at;
        forall e | e in r.emitted
          ensures BadEntryEvent(names, pieces, i, r.at, e)
        {
          if e in r'.emitted {
            assert BadEntryEvent(names, pieces, i + 1, r'.at, e);
            var j :| i + 1 <= j < r'.at && Utf8.Decode(names[j]).None? && e == NoUtf8Filename(Join(pieces), names[j]);
          } else {
            assert Utf8.Decode(names[i]).None? && e == NoUtf8Filename(Join(pieces), names[i]);
          }
        }
      }
    }
  }

  /** The loop emits the `no-utf8-filename` event of every entry it passes
      over whose name is not UTF-8. */
  lemma {:induction false} ScanEventsAll(names: seq<seq<Utf8.byte>>, pieces: seq<string>, i: nat, started: bool,
                                         stop: bool, m: Mark)
    requires i <= |names|
    ensures var r := Scan(names, pieces, i, started, stop, m);
      forall j :: i <= j < r.at && Utf8.Decode(names[j]).None? ==>
        NoUtf8Filename(Join(pieces), names[j]) in r.emitted
    decreases |names| - i
  {
    if i < |names| && !stop {
      var r := Scan(names, pieces, i, started, stop, m);
      var s' := Sees(names, pieces, i, started, m);
      var r' := Scan(names, pieces, i + 1, s', stop, m);
      ScanEventsAll(names, pieces, i + 1, s', stop, m);
      if r.end != NeedStat || r.at != i {
        assert r.at == r'.at;
        assert forall e :: e in r'.emitted ==> e in r.emitted;
      }
    }
  }

  /** The `no-utf8-filename` events are those of the entries passed over
      whose names are not UTF-8, with the directory's key as `dirname`. */
  lemma ScanEvents(names: seq<seq<Utf8.byte>>, pieces: seq<string>, i: nat, started: bool, stop: bool, m: Mark)
    requires i <= |names|
    ensures var r := Scan(names, pieces, i, started, stop, m);
      && (forall e :: e in r.emitted ==>
            exists j :: i <= j < r.at && Utf8.Decode(names[j]).None? && e == NoUtf8Filename(Join(pieces), names[j]))
      && (forall j :: i <= j < r.at && Utf8.Decode(names[j]).None? ==>
            NoUtf8Filename(Join(pieces), names[j]) in r.emitted)
  {
    ScanEventsFrom(names, pieces, i, started, stop, m);
    ScanEventsAll(names, pieces, i, started, stop, m);
  }

  /** The emitted events placed in front of a scan's result. */
  function Glue(emitted: seq<Event<Key>>, r: ScanResult): ScanResult {
    r.(emitted := emitted + r.emitted)
  }

  lemma GlueTwice(a: seq<Event<Key>>, b: seq<Event<Key>>, r: ScanResult)
    ensures Glue(a, Glue(b, r)) == Glue(a + b, r)
  {
    assert a + (b + r.emitted) == (a + b) + r.emitted;
  }

  /** The `for` loop of `run` over the entries of one directory, from index
      i0 to its next await, its `return` or its end. stopRegister cannot
      change while the loop runs synchronously, so it is read once as `stop`. */
  method ScanLoop(names: seq<seq<Utf8.byte>>, pieces: seq<string>, i0: nat, started: bool, stop: bool, m: Mark)
    returns (r: ScanResult)
    requires i0 <= |names|
    ensures r == Scan(names, pieces, i0, started, stop, m)
  {
    ghost var r0 := Scan(names, pieces, i0, started, stop, m);
    var i, s := i0, started;
    var end := Exhausted;
    var emitted: seq<Event<Key>> := [];
    while i < |names|
      invariant i0 <= i <= |names|
      invariant r0 == Glue(emitted, Scan(names, pieces, i, s, stop, m))
      decreases |names| - i
    {
      if stop {
        end := Stopped;
        break;
      }
      var name := Utf8.Decode(names[i]);
      if name.None? {
        var e := NoUtf8Filename(Join(pieces), names[i]);
        GlueTwice(emitted, [e], Scan(names, pieces, i + 1, s, stop, m));
        emitted := emitted + [e];
        i := i + 1;
      } else if m.equal(KeyOf(pieces, name.value)) {
        s := true;
        i := i + 1;
      } else if s || !m.cover(KeyOf(pieces, name.value)) {
        end := NeedStat;
        break;
      } else {
        i := i + 1;
      }
    }
    r := ScanResult(end, i, s, emitted);
  }

  // ---------------------------------------------------------------------
  // The stack of frames

  function Top(s: seq<Frame>): Frame
    requires s != []
  {
    s[|s| - 1]
  }

  /** Frame c is the `run` that frame f awaits for its entry f.i. */
  ghost predicate Descends(f: Frame, c: Frame) {
    && f.i < |f.names| && NameOf(f, f.i).Some?
    && c.pieces == f.pieces + [NameOf(f, f.i).value]
    && c.dir == PathJoin(f.dir, NameOf(f, f.i).value)
  }

  /** The stack of active `run`s, from the root's down to the one running. */
  ghost predicate Chained(s: seq<Frame>) {
    && s != [] && s[0].pieces == []
    && (forall d :: 0 <= d < |s| ==> Listed(s[d].names) && s[d].i <= |s[d].names|)
    && (forall d :: 0 <= d < |s| - 1 ==> Descends(s[d], s[d + 1]))
  }

  /** Key k was registered by frame o.0 for its entry o.1, already passed. */
  ghost predicate OwnedBy(k: Key, o: (nat, nat), s: seq<Frame>) {
    && o.0 < |s| && o.1 < s[o.0].i && o.1 < |s[o.0].names| && NameOf(s[o.0], o.1).Some?
    && Under(k, Prefix(s[o.0].pieces) + NameOf(s[o.0], o.1).value)
  }

  /** Every registered key lies below an entry some frame has passed. */
  ghost predicate Owned(h: seq<Key>, owner: seq<(nat, nat)>, s: seq<Frame>) {
    |owner| == |h| && forall x :: 0 <= x < |h| ==> OwnedBy(h[x], owner[x], s)
  }

  /** Entry i of frame f awaits its stat or room in the queue, as key and path. */
  ghost predicate Pending(f: Frame, key: Key, path: string) {
    && f.i < |f.names| && NameOf(f, f.i).Some?
    && key == KeyOf(f.pieces, NameOf(f, f.i).value)
    && path == PathJoin(f.dir, NameOf(f, f.i).value)
  }

  /** The points between two awaits where the walk can be. */
  datatype Stage =
    | Listing                            // readdir of the top frame's directory is pending
    | Scanning                           // the top frame's loop resumes at its index
    | Statting(key: Key, path: string)   // stat of the top frame's current entry is pending
    | Sleeping(key: Key, path: string)   // that entry is a file waiting for room in the queue
    | Returning                          // the top frame's run returned; its caller resumes later
    | Complete(finished: bool)               // the root's run returned, having called on_register_finished or not
    | Failed                             // readdir or stat rejected: the walk's promise rejected

  ghost predicate StageOk(stage: Stage, s: seq<Frame>)
    requires s != []
  {
    match stage
    case Listing => Top(s).names == [] && Top(s).i == 0
    case Statting(key, path) => Pending(Top(s), key, path)
    case Sleeping(key, path) => Pending(Top(s), key, path)
    case Returning => |s| >= 2
    case _ => true
  }

  lemma {:induction false} Depth(s: seq<Frame>, d: nat)
    requires Chained(s) && d < |s|
    ensures |s[d].pieces| == d
  {
    if d > 0 {
      Depth(s, d - 1);
      assert Descends(s[d - 1], s[d]);
    }
  }

  /** The pieces of frame e extend those of every frame below it. */
  lemma {:induction false} Ancestry(s: seq<Frame>, d: nat, e: nat)
    requires Chained(s) && d < e < |s|
    ensures |s[d + 1].pieces| <= |s[e].pieces| && s[e].pieces[..|s[d + 1].pieces|] == s[d + 1].pieces
  {
    if e > d + 1 {
      Ancestry(s, d, e - 1);
      assert Descends(s[e - 1], s[e]);
      assert s[e].pieces[..|s[d + 1].pieces|] == s[e - 1].pieces[..|s[d + 1].pieces|];
    }
  }

  /** No registered key is the key of the top frame's current entry. */
  lemma FreshKey(s: seq<Frame>, h: seq<Key>, owner: seq<(nat, nat)>)
    requires Chained(s) && Owned(h, owner, s)
    requires Top(s).i < |Top(s).names| && NameOf(Top(s), Top(s).i).Some?
    ensures KeyOf(Top(s).pieces, NameOf(Top(s), Top(s).i).value) !in h
  {
    var t := Top(s);
    var key := KeyOf(t.pieces, NameOf(t, t.i).value);
    forall x | 0 <= x < |h|
      ensures h[x] != key
    {
      assert OwnedBy(h[x], owner[x], s);
      if owner[x].0 == |s| - 1 {
        FreshBeside(s, h[x], owner[x].1);
      } else {
        FreshBelow(s, h[x], owner[x]);
      }
    }
  }

  /** A key owned by an earlier entry of the top frame differs from the
      key of its current entry. */
  lemma FreshBeside(s: seq<Frame>, k: Key, j: nat)
    requires Chained(s) && OwnedBy(k, (|s| - 1, j), s)
    requires Top(s).i < |Top(s).names| && NameOf(Top(s), Top(s).i).Some?
    ensures k != KeyOf(Top(s).pieces, NameOf(Top(s), Top(s).i).value)
  {
    var t := Top(s);
    var n := NameOf(t, t.i).value;
    KeyOfPrefix(t.pieces, n);
    NamesDiffer(t.names, j, t.i);
    NameNoSlash(t.names[j]);
    NameNoSlash(t.names[t.i]);
    Apart(Prefix(t.pieces), NameOf(t, j).value, n, k, KeyOf(t.pieces, n));
  }

  /** A key owned by an entry of a frame below the top differs from every
      key inside the directory of that frame's current entry. */
  lemma FreshBelow(s: seq<Frame>, k: Key, o: (nat, nat))
    requires Chained(s) && o.0 < |s| - 1 && OwnedBy(k, o, s)
    requires Top(s).i < |Top(s).names| && NameOf(Top(s), Top(s).i).Some?
    ensures k != KeyOf(Top(s).pieces, NameOf(Top(s), Top(s).i).value)
  {
    var t := Top(s);
    var n := NameOf(t, t.i).value;
    var d, j := o.0, o.1;
    var f := s[d];
    assert Descends(f, s[d + 1]);
    var cur := NameOf(f, f.i).value;
    NamesDiffer(f.names, j, f.i);
    NameNoSlash(f.names[j]);
    NameNoSlash(f.names[f.i]);
    BelowCurrent(s, d);
    KeyOfPrefix(t.pieces, n);
    UnderLonger(KeyOf(t.pieces, n), Prefix(t.pieces), Prefix(f.pieces) + cur);
    Apart(Prefix(f.pieces), NameOf(f, j).value, cur, k, KeyOf(t.pieces, n));
  }

  /** The top frame's prefix extends the directory of frame d's current entry. */
  lemma BelowCurrent(s: seq<Frame>, d: nat)
    requires Chained(s) && d < |s| - 1
    ensures Descends(s[d], s[d + 1])
    ensures var c := Prefix(s[d].pieces) + NameOf(s[d], s[d].i).value;
      |c| < |Prefix(Top(s).pieces)| && Prefix(Top(s).pieces)[..|c| + 1] == c + "/"
  {
    var f := s[d];
    assert Descends(f, s[d + 1]);
    var cur := NameOf(f, f.i).value;
    Ancestry(s, d, |s| - 1);
    PrefixGrows(s[d + 1].pieces, Top(s).pieces);
    PrefixSnoc(f.pieces, cur);
    var c := Prefix(f.pieces) + cur;
    Extends(c + "/", Prefix(s[d + 1].pieces), Prefix(Top(s).pieces));
  }

  /** A key that extends a prefix lies below every directory the prefix is below. */
  lemma UnderLonger(key: Key, pre: string, c: string)
    requires |c| < |pre| && pre[..|c| + 1] == c + "/"
    requires |pre| <= |key| && key[..|pre|] == pre
    ensures Under(key, c)
  {
    Extends(c + "/", pre, key);
  }

  /** readdir resolved for the top frame, which had no entries yet. */
  lemma ListStep(s: seq<Frame>, h: seq<Key>, owner: seq<(nat, nat)>, names: seq<seq<Utf8.byte>>)
    requires Chained(s) && Owned(h, owner, s) && Top(s).names == [] && Top(s).i == 0
    requires Listed(names)
    ensures var s' := s[|s| - 1 := Top(s).(names := names)];
      Chained(s') && Owned(h, owner, s')
  {
    var s' := s[|s| - 1 := Top(s).(names := names)];
    forall x | 0 <= x < |h|
      ensures OwnedBy(h[x], owner[x], s')
    {
      assert OwnedBy(h[x], owner[x], s);
    }
    forall d | 0 <= d < |s'| - 1
      ensures Descends(s'[d], s'[d + 1])
    {
      assert Descends(s[d], s[d + 1]);
    }
  }

  /** The top frame's loop moved on to index i; a key registered for the
      entry it left joins those it owns. */
  lemma MoveStep(s: seq<Frame>, h: seq<Key>, owner: seq<(nat, nat)>, i: nat)
    requires Chained(s) && Owned(h, owner, s) && Top(s).i <= i <= |Top(s).names|
    ensures var s' := s[|s| - 1 := Top(s).(i := i)];
      Chained(s') && Owned(h, owner, s')
  {
    var s' := s[|s| - 1 := Top(s).(i := i)];
    forall x | 0 <= x < |h|
      ensures OwnedBy(h[x], owner[x], s')
    {
      assert OwnedBy(h[x], owner[x], s);
    }
    forall d | 0 <= d < |s'| - 1
      ensures Descends(s'[d], s'[d + 1])
    {
      assert Descends(s[d], s[d + 1]);
    }
  }

  /** The key of the top frame's current entry was registered and the
      loop moved past that entry, which now owns the key. */
  lemma RegisterOwned(s: seq<Frame>, h: seq<Key>, owner: seq<(nat, nat)>)
    requires Chained(s) && Owned(h, owner, s)
    requires Top(s).i < |Top(s).names| && NameOf(Top(s), Top(s).i).Some?
    ensures var t := Top(s);
      var s' := s[|s| - 1 := t.(i := t.i + 1)];
      Chained(s') && Owned(h + [KeyOf(t.pieces, NameOf(t, t.i).value)], owner + [(|s| - 1, t.i)], s')
  {
    var t := Top(s);
    var n := NameOf(t, t.i).value;
    KeyOfPrefix(t.pieces, n);
    MoveStep(s, h, owner, t.i + 1);
    var s' := s[|s| - 1 := t.(i := t.i + 1)];
    var h', o' := h + [KeyOf(t.pieces, n)], owner + [(|s| - 1, t.i)];
    forall x | 0 <= x < |h'|
      ensures OwnedBy(h'[x], o'[x], s')
    {
      if x < |h| {
        assert OwnedBy(h[x], owner[x], s');
      }
    }
  }

  /** The stack once the top frame's loop has moved past its current entry. */
  function Moved(s: seq<Frame>): (s': seq<Frame>)
    requires s != []
    ensures |s'| == |s| && s'[..|s| - 1] == s[..|s| - 1]
  {
    s[|s| - 1 := Top(s).(i := Top(s).i + 1)]
  }

  /** The owners once a file entry had its turn at `register`. */
  ghost function Entered(owner: seq<(nat, nat)>, s: seq<Frame>, ok: bool): seq<(nat, nat)>
    requires s != []
  {
    if ok then owner + [(|s| - 1, Top(s).i)] else owner
  }

  /** A file entry had its turn: registered (h grew by its key) or refused. */
  lemma EnterStep(s: seq<Frame>, h0: seq<Key>, h: seq<Key>, owner: seq<(nat, nat)>, ok: bool)
    requires Chained(s) && Owned(h0, owner, s)
    requires Top(s).i < |Top(s).names| && NameOf(Top(s), Top(s).i).Some?
    requires ok ==> h == h0 + [KeyOf(Top(s).pieces, NameOf(Top(s), Top(s).i).value)]
    requires !ok ==> h == h0
    ensures Chained(Moved(s)) && Owned(h, Entered(owner, s, ok), Moved(s))
  {
    if ok {
      RegisterOwned(s, h0, owner);
    } else {
      MoveStep(s, h0, owner, Top(s).i + 1);
    }
  }

  /** A directory entry becomes a new frame on top. */
  lemma PushStep(s: seq<Frame>, h: seq<Key>, owner: seq<(nat, nat)>, path: string)
    requires Chained(s) && Owned(h, owner, s)
    requires Top(s).i < |Top(s).names| && NameOf(Top(s), Top(s).i).Some?
    requires path == PathJoin(Top(s).dir, NameOf(Top(s), Top(s).i).value)
    ensures var c := Frame(path, Top(s).pieces + [NameOf(Top(s), Top(s).i).value], [], 0);
      Chained(s + [c]) && Owned(h, owner, s + [c])
  {
    var c := Frame(path, Top(s).pieces + [NameOf(Top(s), Top(s).i).value], [], 0);
    var s' := s + [c];
    assert Distinct<seq<Utf8.byte>>([]);
    forall x | 0 <= x < |h|
      ensures OwnedBy(h[x], owner[x], s')
    {
      assert OwnedBy(h[x], owner[x], s);
    }
    forall d | 0 <= d < |s'| - 1
      ensures Descends(s'[d], s'[d + 1])
    {
      if d < |s| - 1 {
        assert Descends(s[d], s[d + 1]);
      }
    }
  }

  /** The owners once the top frame has returned: its keys belong to the
      parent's current entry. */
  ghost function Lift(owner: seq<(nat, nat)>, top: nat, i: nat): (o: seq<(nat, nat)>)
    requires top >= 1
    ensures |o| == |owner|
  {
    seq(|owner|, x requires 0 <= x < |owner| => if owner[x].0 == top then (top - 1, i) else owner[x])
  }

  /** The top frame returned to its caller, which moves to its next entry. */
  lemma PopStep(s: seq<Frame>, h: seq<Key>, owner: seq<(nat, nat)>)
    requires Chained(s) && Owned(h, owner, s) && |s| >= 2
    ensures var p := s[|s| - 2];
      var s' := s[..|s| - 2] + [p.(i := p.i + 1)];
      Chained(s') && Owned(h, Lift(owner, |s| - 1, p.i), s')
  {
    var p := s[|s| - 2];
    var s' := s[..|s| - 2] + [p.(i := p.i + 1)];
    var o' := Lift(owner, |s| - 1, p.i);
    assert Descends(p, s[|s| - 1]);
    forall x | 0 <= x < |h|
      ensures OwnedBy(h[x], o'[x], s')
    {
      assert OwnedBy(h[x], owner[x], s);
      if owner[x].0 == |s| - 1 {
        LiftOne(s, h[x], owner[x].1);
      }
    }
    forall d | 0 <= d < |s'| - 1
      ensures Descends(s'[d], s'[d + 1])
    {
      assert Descends(s[d], s[d + 1]);
    }
  }

  /** A key owned by an entry of the top frame lies under the parent's
      current entry. */
  lemma LiftOne(s: seq<Frame>, k: Key, j: nat)
    requires Chained(s) && |s| >= 2 && OwnedBy(k, (|s| - 1, j), s)
    ensures var p := s[|s| - 2];
      NameOf(p, p.i).Some? && Under(k, Prefix(p.pieces) + NameOf(p, p.i).value)
  {
    var p, t := s[|s| - 2], s[|s| - 1];
    assert Descends(p, t);
    var n := NameOf(p, p.i).value;
    PrefixSnoc(p.pieces, n);
    var c := Prefix(p.pieces) + n;
    var d := Prefix(t.pieces) + NameOf(t, j).value;
    assert d[..|c| + 1] == c + "/";
    UnderOuter(k, c, d);
  }

  /** Where the walk is once the loop of frame t, at depth `depth`, stopped
      as r says: at a stat, at the root's return (after on_register_finished
      when it ran out of entries), or at a nested frame's return. */
  function Yielded(t: Frame, depth: nat, r: ScanResult): Stage
    requires r.end == NeedStat ==> r.at < |t.names| && NameOf(t, r.at).Some?
  {
    if r.end == NeedStat then
      var n := NameOf(t, r.at).value;
      Statting(KeyOf(t.pieces, n), PathJoin(t.dir, n))
    else if depth == 1 then Complete(r.end == Exhausted)
    else Returning
  }

  // ---------------------------------------------------------------------
  // The walk

  class Walk {
    const engine: SyncEngine
    const marker: Mark
    const maxQueueing: int
    var started: bool
    var stack: seq<Frame>
    var stage: Stage
    ghost var owner: seq<(nat, nat)>

    ghost predicate Valid()
      reads this`stack, this`stage, this`owner
      reads engine`unarchived, engine`history, engine`archived, engine`waiting, engine`slots, engine`retry
      reads engine`registered, engine`creating, engine`settling, engine`created, engine`ignored, engine`skipped
    {
      engine.Valid() && engine.direction == Direction.Restore && Shape()
    }

    /** The walk's own invariant: the stack of frames, the stage, and an
        owning entry for every registered key. */
    ghost predicate Shape()
      reads this`stack, this`stage, this`owner, engine`history
    {
      Chained(stack) && StageOk(stage, stack) && Owned(engine.history, owner, stack)
    }

    /** `restore(options)` up to `run(options.directory, [])`. */
    constructor (directory: string, options: RestoreOptions, marker: Mark)
      ensures Valid() && fresh(engine)
      ensures engine.options == options.engine && maxQueueing == options.maxQueueing
      ensures this.marker == marker
      ensures engine.events == [] && engine.history == [] && !engine.registerFinished
      ensures stack == [Frame(directory, [], [], 0)] && stage == Listing && !started
    {
      engine := new SyncEngine(Direction.Restore, options.engine);
      this.marker := marker;
      maxQueueing := options.maxQueueing;
      started := false;
      stack := [Frame(directory, [], [], 0)];
      stage := Listing;
      owner := [];
      new;
      assert Distinct<seq<Utf8.byte>>([]);
    }

    /** readdir resolved with `names`, already in sorted order. */
    method DirRead(names: seq<seq<Utf8.byte>>)
      requires Valid() && stage == Listing && Listed(names)
      modifies this`stack, this`stage
      ensures Valid() && stage == Scanning
      ensures stack == old(stack)[|old(stack)| - 1 := Top(old(stack)).(names := names)]
    {
      ListStep(stack, engine.history, owner, names);
      stack := stack[|stack| - 1 := Top(stack).(names := names)];
      stage := Scanning;
    }

    /** readdir or stat rejected: the rejection travels up through every
        awaiting `run` and the walk ends without on_register_finished. */
    method Reject()
      requires Valid() && (stage == Listing || stage.Statting?)
      modifies this`stage
      ensures Valid() && stage == Failed
    {
      stage := Failed;
    }

    /** The loop of the top frame, from its index to the next await: a stat,
        the `return` on stopRegister, or the end of the entries, where the
        root calls on_register_finished. */
    method Advance()
      requires Valid() && stage == Scanning
      modifies this`stack, this`stage, this`started, engine`events, engine`registerFinished
      ensures Valid()
      ensures var t := Top(old(stack));
        var r := Scan(t.names, t.pieces, t.i, old(started), engine.stopRegister, marker);
        && started == r.started
        && stack == old(stack)[|old(stack)| - 1 := t.(i := r.at)]
        && stage == Yielded(t, |stack|, r)
        && engine.registerFinished == (old(engine.registerFinished) || stage == Complete(true))
        && engine.events == old(engine.events) + r.emitted
             + (if stage == Complete(true) && engine.unarchived == [] then [End(engine.StatsNow())] else [])
    {
      var t := Top(stack);
      var r := ScanLoop(t.names, t.pieces, t.i, started, engine.stopRegister, marker);
      Yield(t, r);
      Publish(r.emitted, stage == Complete(true));
    }

    /** The engine's side of a loop that stopped: the events of the entries
        it passed over, then on_register_finished when the root ran out of
        entries. */
    method Publish(es: seq<Event<Key>>, finished: bool)
      requires engine.Valid() && engine.direction == Direction.Restore
      modifies engine`events, engine`registerFinished
      ensures engine.Valid()
      ensures engine.registerFinished == (old(engine.registerFinished) || finished)
      ensures engine.events == old(engine.events) + es
           + (if finished && engine.unarchived == [] then [End(engine.StatsNow())] else [])
    {
      engine.EmitAll(es);
      if finished {
        engine.OnRegisterFinished();
      }
    }

    /** The walk's own state once the loop of the top frame has stopped. */
    method Yield(t: Frame, r: ScanResult)
      requires Shape() && stage == Scanning && t == Top(stack)
      requires r == Scan(t.names, t.pieces, t.i, started, engine.stopRegister, marker)
      modifies this`stack, this`stage, this`started
      ensures Shape()
      ensures started == r.started
      ensures stack == old(stack)[|old(stack)| - 1 := t.(i := r.at)]
      ensures stage == Yielded(t, |stack|, r)
    {
      MoveStep(stack, engine.history, owner, r.at);
      Depth(stack, |stack| - 1);
      stack := stack[|stack| - 1 := t.(i := r.at)];
      started := r.started;
      if r.end == NeedStat {
        var n := NameOf(t, r.at).value;
        stage := Statting(KeyOf(t.pieces, n), PathJoin(t.dir, n));
      } else if t.pieces == [] {
        stage := Complete(r.end == Exhausted);
      } else {
        stage := Returning;
      }
    }

    /** stat resolved: a directory is walked by a nested `run`; a file is
        registered once the queue has room. */
    method StatDone(isDirectory: bool)
      requires Valid() && stage.Statting?
      modifies this`stack, this`stage, this`owner
      modifies engine`stopRegister, engine`waiting, engine`slots, engine`unarchived, engine`creating
      modifies engine`registered, engine`history, engine`payloads
      ensures Valid()
      ensures isDirectory ==>
        var t := Top(old(stack));
        && stack == old(stack) + [Frame(old(stage).path, t.pieces + [NameOf(t, t.i).value], [], 0)]
        && stage == Listing && unchanged(engine) && owner == old(owner)
      ensures !isDirectory ==> Offered(old(stage), old(stack), old(|engine.waiting|), old(engine.registered), old(engine.history))
      ensures !isDirectory && old(|engine.waiting|) >= maxQueueing ==> unchanged(engine) && owner == old(owner)
    {
      if isDirectory {
        var t := Top(stack);
        PushStep(stack, engine.history, owner, stage.path);
        stack := stack + [Frame(stage.path, t.pieces + [NameOf(t, t.i).value], [], 0)];
        stage := Listing;
      } else {
        stage := Sleeping(stage.key, stage.path);
        Wake();
      }
    }

    /** What a file's turn at the queue did: wait while the queue holds
        maxQueueing items; otherwise register the file (which refuses once
        maxCreated have been registered) and move to the next entry. A file
        registered is queued with its own path as payload. */
    twostate predicate Offered(stage0: Stage, stack0: seq<Frame>, waiting0: nat, registered0: int, history0: seq<Key>)
      requires stack0 != [] && (stage0.Statting? || stage0.Sleeping?)
      reads this`stack, this`stage, engine`history, engine`registered, engine`stopRegister, engine`payloads
      reads engine`waiting, engine`unarchived, engine`creating, engine`stopCreate
    {
      if waiting0 >= maxQueueing then
        stage == Sleeping(stage0.key, stage0.path) && stack == stack0 && engine.history == history0
      else
        && stage == Scanning
        && stack == stack0[|stack0| - 1 := Top(stack0).(i := Top(stack0).i + 1)]
        && (registered0 < engine.options.maxCreated ==>
              && engine.history == history0 + [stage0.key] && engine.registered == registered0 + 1
              && engine.payloads == old(engine.payloads)[stage0.key := LocalFile(stage0.path)]
              && engine.stopRegister == old(engine.stopRegister)
              && Queued(old(engine.waiting), old(engine.unarchived), old(engine.creating),
                        Item(stage0.key, LocalFile(stage0.path))))
        && (registered0 >= engine.options.maxCreated ==>
              && engine.history == history0 && engine.registered == registered0 && engine.stopRegister
              && engine.payloads == old(engine.payloads))
    }

    /** The queue and the ledger after `register` accepted `item`, from the
        queue `w0`, the ledger `l0` and `creating0` before it: the item joins
        both as waiting, and `next` then dispatches the queue's front item
        exactly when stopCreate is down and creating0 < maxCreating. */
    ghost predicate Queued(w0: seq<Item<Key, Payload>>, l0: seq<Entry<Key>>, creating0: int, item: Item<Key, Payload>)
      reads engine`waiting, engine`unarchived, engine`stopCreate, engine`creating
    {
      var w := w0 + [item];
      var l := l0 + [Entry(item.key, Waiting)];
      var dispatched := !engine.stopCreate && creating0 < engine.options.maxCreating;
      && (!dispatched ==> engine.waiting == w && engine.unarchived == l && engine.creating == creating0)
      && (dispatched ==>
            && engine.waiting == w[1..] && engine.creating == creating0 + 1
            && 0 <= IndexOf(l, w[0].key)
            && engine.unarchived == l[IndexOf(l, w[0].key) := Entry(w[0].key, Creating)])
    }

    /** The sleep of the backpressure loop ended (or the file was just
        stat-ed): check the queue length again. */
    method Wake()
      requires Valid() && stage.Sleeping?
      modifies this`stack, this`stage, this`owner
      modifies engine`stopRegister, engine`waiting, engine`slots, engine`unarchived, engine`creating
      modifies engine`registered, engine`history, engine`payloads
      ensures Valid()
      ensures Offered(old(stage), old(stack), old(|engine.waiting|), old(engine.registered), old(engine.history))
      ensures old(|engine.waiting|) >= maxQueueing ==> unchanged(engine) && owner == old(owner)
    {
      if |engine.waiting| >= maxQueueing {
        return;
      }
      Admit();
    }

    /** The queue has room: `register(keyName, realpath)`, and the loop moves
        past the file. */
    method Admit()
      requires Valid() && stage.Sleeping? && |engine.waiting| < maxQueueing
      modifies this`stack, this`stage, this`owner
      modifies engine`stopRegister, engine`waiting, engine`slots, engine`unarchived, engine`creating
      modifies engine`registered, engine`history, engine`payloads
      ensures Valid()
      ensures Offered(old(stage), old(stack), old(|engine.waiting|), old(engine.registered), old(engine.history))
    {
      FreshKey(stack, engine.history, owner);
      ghost var h := engine.history;
      var ok := engine.Register(stage.key, LocalFile(stage.path));
      Enter(ok, h);
    }

    /** The walk's side of a file's turn at `register`: the loop moves past
        the entry, which owns the key when it was registered. */
    method Enter(ok: bool, ghost h0: seq<Key>)
      requires stage.Sleeping? && Chained(stack) && StageOk(stage, stack) && Owned(h0, owner, stack)
      requires ok ==> engine.history == h0 + [stage.key]
      requires !ok ==> engine.history == h0
      modifies this`stack, this`stage, this`owner
      ensures Shape() && stage == Scanning
      ensures stack == old(stack)[|old(stack)| - 1 := Top(old(stack)).(i := Top(old(stack)).i + 1)]
    {
      EnterStep(stack, h0, engine.history, owner, ok);
      stack, owner, stage := Moved(stack), Entered(owner, stack, ok), Scanning;
    }

    /** The nested `run` on top returned; its caller's loop moves on. */
    method Resume()
      requires Valid() && stage == Returning
      modifies this`stack, this`stage, this`owner
      ensures Valid() && stage == Scanning
      ensures var p := old(stack)[|old(stack)| - 2];
        stack == old(stack)[..|old(stack)| - 2] + [p.(i := p.i + 1)]
    {
      Pop();
    }

    /** The walk's side of a nested `run` returning: the top frame goes and
        its keys belong to the parent's entry, which the loop moves past. */
    method Pop()
      requires Shape() && stage == Returning
      modifies this`stack, this`stage, this`owner
      ensures Shape() && stage == Scanning
      ensures var p := old(stack)[|old(stack)| - 2];
        stack == old(stack)[..|old(stack)| - 2] + [p.(i := p.i + 1)]
    {
      var p := stack[|stack| - 2];
      PopStep(stack, engine.history, owner);
      owner := Lift(owner, |stack| - 1, p.i);
      stack := stack[..|stack| - 2] + [p.(i := p.i + 1)];
      stage := Scanning;
    }
  }
}
