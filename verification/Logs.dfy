/** Append-only logs with strictly increasing ids, read from a cursor on. */
module Logs {
  predicate Rising<T>(log: seq<T>, id: T -> int) {
    forall i, j :: 0 <= i < j < |log| ==> id(log[i]) < id(log[j])
  }

  /** The index of the first entry beyond the cursor. */
  function FirstNew<T>(log: seq<T>, id: T -> int, cursor: int): (k: nat)
    ensures k <= |log|
    ensures forall i :: 0 <= i < k ==> id(log[i]) <= cursor
    ensures k < |log| ==> id(log[k]) > cursor
  {
    if log == [] || id(log[0]) > cursor then 0 else 1 + FirstNew(log[1..], id, cursor)
  }

  /** The entries beyond the cursor, when the log is rising. */
  function Unread<T>(log: seq<T>, id: T -> int, cursor: int): seq<T> {
    log[FirstNew(log, id, cursor)..]
  }

  lemma FirstNewUnique<T>(log: seq<T>, id: T -> int, cursor: int, k: nat)
    requires Rising(log, id) && k <= |log|
    requires forall i :: 0 <= i < k ==> id(log[i]) <= cursor
    requires k < |log| ==> id(log[k]) > cursor
    ensures FirstNew(log, id, cursor) == k
  {
    var f := FirstNew(log, id, cursor);
    var a, b := if f < |log| then id(log[f]) else 0, if k < |log| then id(log[k]) else 0;
  }

  /** A pass over a prefix reads the front of what a pass over the whole log would, and leaves it the rest. */
  lemma PrefixIsRead<T>(log: seq<T>, id: T -> int, cursor: int, k: nat)
    requires Rising(log, id) && k <= |log|
    ensures var a := Unread(log[..k], id, cursor);
      if a == [] then k <= FirstNew(log, id, cursor)
      else Unread(log, id, cursor) == a + log[k..] && Unread(log, id, id(a[|a| - 1])) == log[k..]
  {
    var f := FirstNew(log, id, cursor);
    FirstNewUnique(log[..k], id, cursor, if f <= k then f else k);
    if f < k {
      CutAt(log, f, k);
      FirstNewUnique(log, id, id(log[k - 1]), k);
    } else {
      assert log[..k][k..] == [];
    }
  }

  lemma CutAt<T>(log: seq<T>, f: nat, k: nat)
    requires f < k <= |log|
    ensures log[..k][f..] + log[k..] == log[f..] && |log[..k][f..]| == k - f && log[..k][f..][k - f - 1] == log[k - 1]
  {
  }

  lemma UnreadIsNew<T>(log: seq<T>, id: T -> int, cursor: int)
    requires Rising(log, id)
    ensures forall x :: x in Unread(log, id, cursor) ==> id(x) > cursor
  {
    var f := FirstNew(log, id, cursor);
    forall i | f <= i < |log| ensures id(log[i]) > cursor {
      assert i == f || id(log[f]) < id(log[i]);
    }
  }
}
