/**
 * The per-item retry rule shared by restore.js and backup.js
 * (`on_create_error`): a dictionary from key to the number of failures seen,
 * consulted with JavaScript truthiness.
 */
module RetryPolicy {
  import opened Wrappers

  /** The `retry` option as the engine receives it. */
  datatype Setting =
    | Absent          // the option is not given: the default applies
    | Number(n: int)  // an integral number
    | NaN             // a number that is NaN
    | NotANumber      // anything whose typeof is not 'number' (including an explicit undefined)

  /** The retry limit the engine runs with: 3 by default, 0 for anything that
      is not a usable number. */
  function Normalize(s: Setting): (r: int)
    ensures s.Absent? ==> r == 3
    ensures s.Number? ==> r == s.n
    ensures (s.NaN? || s.NotANumber?) ==> r == 0
  {
    match s
    case Absent => 3
    case Number(n) => n
    case _ => 0
  }

  /** The largest count the retry table can hold for a limit. */
  function Ceiling(limit: int): (c: int)
    ensures c >= 1 && c >= limit
  {
    if limit < 1 then 1 else limit
  }

  /** The table entry after a failure, and whether the item is retried. */
  datatype Decision = Decision(count: Option<int>, retried: bool)

  /** One failure of an item whose table entry is `count`.
      A truthy entry c is given up when c >= limit and otherwise becomes c + 1;
      a missing (or zero) entry becomes 1 when the limit is truthy. */
  function OnFailure(count: Option<int>, limit: int): (d: Decision)
    ensures d.retried <==> d.count.Some?
    ensures (count.None? || count.value == 0) ==>
              (d.retried <==> limit != 0) && (d.retried ==> d.count.value == 1)
    ensures (count.Some? && count.value != 0) ==>
              (d.retried <==> count.value < limit) && (d.retried ==> d.count.value == count.value + 1)
    ensures (count.Some? ==> 1 <= count.value <= Ceiling(limit)) ==>
              (d.count.Some? ==> 1 <= d.count.value <= Ceiling(limit))
  {
    if count.Some? && count.value != 0 then
      if count.value >= limit then Decision(None, false)
      else Decision(Some(count.value + 1), true)
    else if limit != 0 then Decision(Some(1), true)
    else Decision(None, false)
  }

  /** How many transfers an item that always fails receives under a limit:
      limit + 1 for a non-negative limit; a negative limit is truthy on the
      first failure and exhausted on the second. */
  function Attempts(limit: int): (n: nat)
    ensures n >= 1
    ensures limit >= 0 ==> n == limit + 1
  {
    if limit == 0 then 1 else if limit < 0 then 2 else limit + 1
  }

  /** The table entry of an item after n failures in a row, starting absent. */
  function CountAfter(limit: int, n: nat): Option<int>
  {
    if n == 0 then None else OnFailure(CountAfter(limit, n - 1), limit).count
  }

  /** Every failure before the last attempt is retried (and so raises a
      `warning`): after the n-th of them the table holds exactly n. */
  lemma {:induction false} RetriedBeforeLastAttempt(limit: int, n: nat)
    requires 1 <= n < Attempts(limit)
    ensures CountAfter(limit, n) == Some(n)
    ensures OnFailure(CountAfter(limit, n - 1), limit).retried
  {
    if n > 1 {
      RetriedBeforeLastAttempt(limit, n - 1);
    }
  }

  /** The failure of the last attempt is not retried: the entry is deleted and
      the item is archived as ignored with one `error`. */
  lemma {:induction false} GivesUpAtLastAttempt(limit: int)
    ensures var last := OnFailure(CountAfter(limit, Attempts(limit) - 1), limit);
            !last.retried && last.count.None?
  {
    if Attempts(limit) > 1 {
      RetriedBeforeLastAttempt(limit, Attempts(limit) - 1);
    }
  }
}
