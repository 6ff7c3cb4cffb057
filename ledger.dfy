/**
 * The ledger of items that are not yet archived ("queue.unarchived" in both
 * restore.js and backup.js): an array of [keyName, status] pairs kept in
 * registration order, with the status stored as a small number.
 *
 * The searches and counts below walk a sequence by position (the `From`
 * functions take a start index) rather than by taking its tail.
 */
module Ledger {

  /** The five states an item passes through; backup uses only the first four. */
  datatype Status = Waiting | Creating | Created | Ignored | Skipped {

    /** The number the source stores for this status (its index in STATUS_NAMES). */
    function Code(): (c: int)
      ensures 0 <= c <= 4
      ensures c >= 2 <==> Resolved()
      ensures c == 4 <==> Skipped?
    {
      match this
      case Waiting => 0
      case Creating => 1
      case Created => 2
      case Ignored => 3
      case Skipped => 4
    }

    /** A terminal status: the item has been archived (created, ignored or skipped). */
    predicate Resolved() {
      Created? || Ignored? || Skipped?
    }

    /** Where an item with this status stands in its life. */
    function Phase(): (p: Phase)
      ensures p == Done <==> Resolved()
    {
      if Waiting? then Queued else if Creating? then Running else Done
    }
  }

  /** Queued for a transfer, being transferred, or archived. */
  datatype Phase = Queued | Running | Done

  datatype Entry<K> = Entry(key: K, status: Status)

  // ---------------------------------------------------------------------
  // Finding an entry by key.

  /** `findIndex` by key: the position of the first entry with this key, or -1. */
  function IndexOf<K(==)>(l: seq<Entry<K>>, key: K): (r: int)
    ensures -1 <= r < |l|
    ensures r >= 0 ==> l[r].key == key
  {
    IndexFrom(l, key, 0)
  }

  /** The position of the first entry with this key at or after `i`, or -1. */
  function IndexFrom<K(==)>(l: seq<Entry<K>>, key: K, i: nat): (r: int)
    ensures r == -1 || i <= r < |l|
    ensures r >= 0 ==> l[r].key == key
    decreases |l| - i
  {
    if i >= |l| then -1 else if l[i].key == key then i else IndexFrom(l, key, i + 1)
  }

  lemma {:induction false} IndexFromFirst<K>(l: seq<Entry<K>>, key: K, i: nat)
    ensures IndexFrom(l, key, i) >= 0 ==> forall j :: i <= j < IndexFrom(l, key, i) ==> l[j].key != key
    ensures IndexFrom(l, key, i) == -1 ==> forall j :: i <= j < |l| ==> l[j].key != key
    decreases |l| - i
  {
    if i < |l| && l[i].key != key {
      IndexFromFirst(l, key, i + 1);
    }
  }

  /** `findIndex` finds the first entry with the key, and -1 means there is none. */
  lemma IndexOfFirst<K>(l: seq<Entry<K>>, key: K)
    ensures IndexOf(l, key) >= 0 ==> forall j :: 0 <= j < IndexOf(l, key) ==> l[j].key != key
    ensures IndexOf(l, key) == -1 ==> forall j :: 0 <= j < |l| ==> l[j].key != key
  {
    IndexFromFirst(l, key, 0);
  }

  // ---------------------------------------------------------------------
  // The archiving sweep.

  /** The first position at or after `i` whose entry is not resolved, or |l|. */
  function RunEnd<K>(l: seq<Entry<K>>, i: nat): (r: nat)
    requires i <= |l|
    ensures i <= r <= |l|
    ensures r < |l| ==> !l[r].status.Resolved()
    decreases |l| - i
  {
    if i == |l| || !l[i].status.Resolved() then i else RunEnd(l, i + 1)
  }

  /** Every entry the run passes over is resolved. */
  lemma {:induction false} RunEndAll<K>(l: seq<Entry<K>>, i: nat)
    requires i <= |l|
    ensures forall j :: i <= j < RunEnd(l, i) ==> l[j].status.Resolved()
    decreases |l| - i
  {
    if i < |l| && l[i].status.Resolved() {
      RunEndAll(l, i + 1);
    }
  }

  /** What one archiving sweep leaves of a ledger whose head has just resolved:
      the head and every resolved entry after it are removed. */
  function Sweep<K>(l: seq<Entry<K>>): (rest: seq<Entry<K>>)
    requires l != []
  {
    l[RunEnd(l, 1)..]
  }

  /** The key the cursor moves on to after a sweep: the last one removed. */
  function SweepMark<K>(l: seq<Entry<K>>): (k: K)
    requires l != []
  {
    l[RunEnd(l, 1) - 1].key
  }

  /** The ledger after `archive(key, status)`: an entry behind the head only
      takes its status, while the head sweeps itself and the resolved run
      after it away. */
  function AfterArchive<K(==)>(l: seq<Entry<K>>, key: K, status: Status): (l': seq<Entry<K>>)
    requires 0 <= IndexOf(l, key)
    ensures |l'| <= |l|
  {
    var i := IndexOf(l, key);
    if i > 0 then l[i := Entry(key, status)] else Sweep(l)
  }

  /** Sweeping removes a non-empty resolved-after-the-head prefix and leaves a
      ledger whose head, if any, is unresolved; the cursor key is the key just
      before what remains. */
  lemma SweepLeavesUnresolvedHead<K>(l: seq<Entry<K>>)
    requires l != []
    ensures |Sweep(l)| < |l|
    ensures Sweep(l) != [] ==> !Sweep(l)[0].status.Resolved()
    ensures l == l[..|l| - |Sweep(l)|] + Sweep(l)
    ensures SweepMark(l) == l[|l| - |Sweep(l)| - 1].key
    ensures forall i :: 1 <= i < |l| - |Sweep(l)| ==> l[i].status.Resolved()
  {
    var n := RunEnd(l, 1);
    RunEndAll(l, 1);
    assert Sweep(l) == l[n..];
    if n < |l| {
      assert Sweep(l)[0] == l[n];
    }
  }

  /** The scan of `archive`: starting at the head, step forward while the
      next entry's status code is at least 2 (created, ignored or skipped);
      the result is the index of the last entry the sweep removes. */
  method SweepEnd<K>(l: seq<Entry<K>>) returns (i: nat)
    requires l != []
    ensures i + 1 == RunEnd(l, 1)
    ensures i < |l| && (i + 1 == |l| || !l[i + 1].status.Resolved())
  {
    i := 0;
    while i + 1 < |l| && l[i + 1].status.Code() >= 2
      invariant i < |l|
      invariant RunEnd(l, i + 1) == RunEnd(l, 1)
    {
      i := i + 1;
    }
  }

  // ---------------------------------------------------------------------
  // Distinct values, by first position.

  /** The position of the first occurrence of `k` in `h`, or -1. */
  ghost function Pos<K>(h: seq<K>, k: K): (r: int)
    ensures -1 <= r < |h|
    ensures r >= 0 ==> h[r] == k
  {
    PosFrom(h, k, 0)
  }

  /** The position of the first occurrence of `k` at or after `i`, or -1. */
  ghost function PosFrom<K>(h: seq<K>, k: K, i: nat): (r: int)
    ensures r == -1 || i <= r < |h|
    ensures r >= 0 ==> h[r] == k
    decreases |h| - i
  {
    if i >= |h| then -1 else if h[i] == k then i else PosFrom(h, k, i + 1)
  }

  /** No value occurs twice in `h`: each one's first position is its own. */
  ghost predicate Distinct<K>(h: seq<K>) {
    forall i {:trigger Pos(h, h[i])} :: 0 <= i < |h| ==> Pos(h, h[i]) == i
  }

  /** Searching a suffix is searching the whole from further on. */
  lemma {:induction false} PosFromShift<K>(h: seq<K>, n: nat, k: K, i: nat)
    requires n <= |h|
    ensures var r := PosFrom(h, k, n + i);
            PosFrom(h[n..], k, i) == if r < 0 then -1 else r - n
    decreases |h| - n - i
  {
    if n + i < |h| && h[n + i] != k {
      assert h[n..][i] == h[n + i];
      PosFromShift(h, n, k, i + 1);
    }
  }

  /** Searching past a value that is not there finds nothing. */
  lemma {:induction false} PosFromAbsent<K>(h: seq<K>, k: K, i: nat)
    requires forall j :: i <= j < |h| ==> h[j] != k
    ensures PosFrom(h, k, i) == -1
    decreases |h| - i
  {
    if i < |h| {
      PosFromAbsent(h, k, i + 1);
    }
  }

  lemma {:induction false} PosFromAppend<K>(h: seq<K>, x: K, k: K, i: nat)
    requires i <= |h|
    ensures PosFrom(h + [x], k, i) == if PosFrom(h, k, i) >= 0 then PosFrom(h, k, i) else if x == k then |h| else -1
    decreases |h| - i
  {
    if i < |h| {
      assert (h + [x])[i] == h[i];
      PosFromAppend(h, x, k, i + 1);
    } else {
      assert (h + [x])[i] == x;
    }
  }

  /** A fresh value keeps a sequence duplicate-free. */
  lemma DistinctAppend<K>(h: seq<K>, x: K)
    requires Distinct(h) && x !in h
    ensures Distinct(h + [x])
  {
    PosFromAbsent(h, x, 0);
    PosFromAppend(h, x, x, 0);
    forall i | 0 <= i < |h| ensures Pos(h + [x], (h + [x])[i]) == i {
      assert (h + [x])[i] == h[i] && Pos(h, h[i]) == i;
      PosFromAppend(h, x, h[i], 0);
    }
  }

  /** Dropping the first value keeps a sequence duplicate-free. */
  lemma DistinctTail<K>(h: seq<K>)
    requires Distinct(h) && h != []
    ensures Distinct(h[1..])
  {
    forall i | 0 <= i < |h| - 1 ensures Pos(h[1..], h[1..][i]) == i {
      assert h[1..][i] == h[i + 1];
      assert Pos(h, h[i + 1]) == i + 1;
      PosFromShift(h, 1, h[i + 1], 0);
    }
  }

  /** A value absent from `h` can be put in front of it. */
  lemma DistinctCons<K>(x: K, h: seq<K>)
    requires Distinct(h) && x !in h
    ensures Distinct([x] + h)
  {
    var g := [x] + h;
    assert g[1..] == h;
    forall i | 0 < i < |g| ensures Pos(g, g[i]) == i {
      assert g[i] == h[i - 1] && h[i - 1] != x && Pos(h, h[i - 1]) == i - 1;
      PosFromShift(g, 1, h[i - 1], 0);
    }
  }

  // ---------------------------------------------------------------------
  // Counting the ledger's entries by phase.

  /** The number of entries in phase `p`. */
  function CountOf<K>(l: seq<Entry<K>>, p: Phase): (n: nat)
  {
    CountFrom(l, p, 0)
  }

  /** The number of entries in phase `p` at or after position `i`. */
  function CountFrom<K>(l: seq<Entry<K>>, p: Phase, i: nat): (n: nat)
    decreases |l| - i
  {
    if i >= |l| then 0 else (if l[i].status.Phase() == p then 1 else 0) + CountFrom(l, p, i + 1)
  }

  lemma {:induction false} CountFromAppend<K>(l: seq<Entry<K>>, e: Entry<K>, p: Phase, i: nat)
    requires i <= |l|
    ensures CountFrom(l + [e], p, i) == CountFrom(l, p, i) + (if e.status.Phase() == p then 1 else 0)
    decreases |l| - i
  {
    if i < |l| {
      assert (l + [e])[i] == l[i];
      CountFromAppend(l, e, p, i + 1);
    } else {
      assert (l + [e])[i] == e;
    }
  }

  /** Appending an entry adds it to the count of its phase. */
  lemma CountOfAppend<K>(l: seq<Entry<K>>, e: Entry<K>, p: Phase)
    ensures CountOf(l + [e], p) == CountOf(l, p) + (if e.status.Phase() == p then 1 else 0)
  {
    CountFromAppend(l, e, p, 0);
  }

  /** Counting from `i` reads nothing before `i`. */
  lemma {:induction false} CountFromSame<K>(l: seq<Entry<K>>, m: seq<Entry<K>>, p: Phase, i: nat)
    requires |l| == |m| && forall j :: i <= j < |l| ==> l[j] == m[j]
    ensures CountFrom(l, p, i) == CountFrom(m, p, i)
    decreases |l| - i
  {
    if i < |l| {
      CountFromSame(l, m, p, i + 1);
    }
  }

  lemma {:induction false} CountFromUpdate<K>(l: seq<Entry<K>>, j: nat, e: Entry<K>, p: Phase, i: nat)
    requires i <= j < |l|
    ensures CountFrom(l[j := e], p, i)
            == CountFrom(l, p, i) - (if l[j].status.Phase() == p then 1 else 0) + (if e.status.Phase() == p then 1 else 0)
    decreases |l| - i
  {
    if i < j {
      CountFromUpdate(l, j, e, p, i + 1);
    } else {
      CountFromSame(l, l[j := e], p, j + 1);
    }
  }

  /** Overwriting one entry moves it from the count of its old phase to
      the count of its new one. */
  lemma CountOfUpdate<K>(l: seq<Entry<K>>, j: nat, e: Entry<K>, p: Phase)
    requires j < |l|
    ensures CountOf(l[j := e], p)
            == CountOf(l, p) - (if l[j].status.Phase() == p then 1 else 0) + (if e.status.Phase() == p then 1 else 0)
  {
    CountFromUpdate(l, j, e, p, 0);
  }

  /** Counting a suffix is counting the whole from further on. */
  lemma {:induction false} CountFromShift<K>(l: seq<Entry<K>>, n: nat, p: Phase, i: nat)
    requires n <= |l|
    ensures CountFrom(l[n..], p, i) == CountFrom(l, p, n + i)
    decreases |l| - n - i
  {
    if n + i < |l| {
      assert l[n..][i] == l[n + i];
      CountFromShift(l, n, p, i + 1);
    }
  }

  /** A run of resolved entries adds only to the count of archived ones. */
  lemma {:induction false} CountOverRun<K>(l: seq<Entry<K>>, p: Phase, i: nat, n: nat)
    requires i <= n <= |l|
    requires forall j :: i <= j < n ==> l[j].status.Resolved()
    ensures CountFrom(l, p, i) == CountFrom(l, p, n) + (if p == Done then n - i else 0)
    decreases n - i
  {
    if i < n {
      CountOverRun(l, p, i + 1, n);
    }
  }

  /** What a sweep removes from the counts: the head, and a run of resolved entries. */
  lemma SweepCounts<K>(l: seq<Entry<K>>)
    requires l != []
    ensures var gone := |l| - |Sweep(l)|;
      && gone >= 1
      && CountOf(l, Queued) == CountOf(Sweep(l), Queued) + (if l[0].status.Phase() == Queued then 1 else 0)
      && CountOf(l, Running) == CountOf(Sweep(l), Running) + (if l[0].status.Phase() == Running then 1 else 0)
      && (!l[0].status.Resolved() ==> CountOf(l, Done) == CountOf(Sweep(l), Done) + gone - 1)
  {
    var n := RunEnd(l, 1);
    RunEndAll(l, 1);
    forall p: Phase
      ensures CountOf(l, p) == (if l[0].status.Phase() == p then 1 else 0) + CountOf(Sweep(l), p) + (if p == Done then n - 1 else 0)
    {
      CountOverRun(l, p, 1, n);
      CountFromShift(l, n, p, 0);
    }
  }
}
