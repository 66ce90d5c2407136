/** The retry loop itself, as one caller runs it: read, patch, swap, up to three times, while
    other callers may commit between its reads and its swaps. */
module PatchLoop {
  import opened Wrappers
  import opened VersionedRow

  class RowStore<R> {
    var row: R
    var version: nat

    constructor (row: R)
      ensures this.row == row && version == 0
    {
      this.row, version := row, 0;
    }

    /** UPDATE ... WHERE version = expected: writes and bumps, or matches no row. */
    method CompareAndSwap(next: R, expected: nat) returns (swapped: bool)
      modifies this
      ensures swapped <==> old(version) == expected
      ensures swapped ==> row == next && version == expected + 1
      ensures !swapped ==> row == old(row) && version == old(version)
    {
      swapped := version == expected;
      if swapped {
        row, version := next, version + 1;
      }
    }

    /** Commits of other callers, one after the other. */
    method Land(rows: seq<R>)
      modifies this
      ensures version == old(version) + |rows|
      ensures row == if rows == [] then old(row) else rows[|rows| - 1]
    {
      for k := 0 to |rows|
        invariant version == old(version) + k
        invariant row == if k == 0 then old(row) else rows[k - 1]
      {
        row, version := rows[k], version + 1;
      }
    }
  }

  /** The row that attempt k reads when rivals[j] are the rows others wrote during attempt j. */
  function RowRead<R>(row: R, rivals: seq<seq<R>>, k: nat): R
    requires k <= |rivals|
  {
    if k == 0 then row
    else if rivals[k - 1] == [] then RowRead(row, rivals, k - 1)
    else rivals[k - 1][|rivals[k - 1]| - 1]
  }

  function Landed<R>(rivals: seq<seq<R>>, k: nat): nat
    requires k <= |rivals|
  {
    if k == 0 then 0 else Landed(rivals, k - 1) + |rivals[k - 1]|
  }

  predicate RacedThrough<R>(rivals: seq<seq<R>>, k: nat)
    requires k <= |rivals|
  {
    forall j :: 0 <= j < k ==> rivals[j] != []
  }

  /** The call writes once, at the first attempt nobody raced, and what it writes is its patch on
      the row as it then is; it gives up only when all three attempts were raced. */
  method UpdateWithRetry<R>(store: RowStore<R>, patch: R -> Option<R>, rivals: seq<seq<R>>)
    returns (outcome: Outcome<R>, attempt: nat)
    requires |rivals| == 3
    modifies store
    ensures !outcome.Broken? && attempt <= 3 && RacedThrough(rivals, attempt)
    ensures outcome.Conflict? <==> attempt == 3
    ensures outcome.Updated? ==> rivals[attempt] == [] && store.row == outcome.row
    ensures outcome.Updated? ==> patch(RowRead(old(store.row), rivals, attempt)) == Some(outcome.row)
    ensures outcome.Refused? ==> patch(RowRead(old(store.row), rivals, attempt)).None?
    ensures !outcome.Updated? ==> store.row == RowRead(old(store.row), rivals, attempt)
    ensures store.version == old(store.version) + Landed(rivals, attempt) + if outcome.Updated? then 1 else 0
  {
    attempt := 0;
    while attempt < MAX_UPDATE_RETRIES
      invariant attempt <= MAX_UPDATE_RETRIES && RacedThrough(rivals, attempt)
      invariant store.row == RowRead(old(store.row), rivals, attempt)
      invariant store.version == old(store.version) + Landed(rivals, attempt)
    {
      var read, version := store.row, store.version;
      var patched := patch(read);
      if patched.None? {
        return Refused, attempt;
      }
      store.Land(rivals[attempt]);
      var swapped := store.CompareAndSwap(patched.value, version);
      if swapped {
        return Updated(patched.value), attempt;
      }
      attempt := attempt + 1;
    }
    outcome := Conflict;
  }
}
