/**
 The state of one remote query as the list screen sees it, and the
 reductions it applies to a row of them: the union of the membership
 lists of the type queries that have loaded, whether any is still loading,
 and the first one that failed.
 */
module Queries {

  datatype Option<+T> = None | Some(value: T)

  /** One query result: still in flight, failed with a message, or loaded. */
  datatype Query<+T> = Loading | Failed(message: string) | Loaded(value: T)

  /** The query's error, if it has one. */
  function ErrorOf<T>(q: Query<T>): Option<string> {
    if q.Failed? then Some(q.message) else None
  }

  /** Names listed by any loaded membership query; loading and failed queries contribute nothing. */
  function MemberNames(qs: seq<Query<seq<string>>>): (names: set<string>)
    ensures forall n :: n in names <==> exists i :: 0 <= i < |qs| && qs[i].Loaded? && n in qs[i].value
    decreases |qs|
  {
    if |qs| == 0 then {}
    else
      var rest := MemberNames(qs[1..]);
      assert forall i :: 1 <= i < |qs| ==> qs[i] == qs[1..][i - 1];
      assert forall j :: 0 <= j < |qs| - 1 ==> qs[1..][j] == qs[j + 1];
      (if qs[0].Loaded? then set n | n in qs[0].value else {}) + rest
  }

  /** The union does not depend on how the row of queries is split up, so
      neither does it depend on the order in which results arrive. */
  lemma MemberNamesAppend(a: seq<Query<seq<string>>>, b: seq<Query<seq<string>>>)
    ensures MemberNames(a + b) == MemberNames(a) + MemberNames(b)
  {
    forall n | n in MemberNames(a + b)
      ensures n in MemberNames(a) + MemberNames(b)
    {
      var i :| 0 <= i < |a + b| && (a + b)[i].Loaded? && n in (a + b)[i].value;
      if i >= |a| {
        assert b[i - |a|] == (a + b)[i];
      }
    }
    forall n | n in MemberNames(a)
      ensures n in MemberNames(a + b)
    {
      var i :| 0 <= i < |a| && a[i].Loaded? && n in a[i].value;
      assert (a + b)[i] == a[i];
    }
    forall n | n in MemberNames(b)
      ensures n in MemberNames(a + b)
    {
      var i :| 0 <= i < |b| && b[i].Loaded? && n in b[i].value;
      assert (a + b)[|a| + i] == b[i];
    }
  }

  /** Whether some query in the row is still in flight. */
  function AnyLoading<T>(qs: seq<Query<T>>): (b: bool)
    ensures b <==> exists i :: 0 <= i < |qs| && qs[i].Loading?
    decreases |qs|
  {
    if |qs| == 0 then false
    else
      assert forall j :: 0 <= j < |qs| - 1 ==> qs[1..][j] == qs[j + 1];
      qs[0].Loading? || AnyLoading(qs[1..])
  }

  /** The error of the first failed query in the row, if any failed. */
  function FirstError<T>(qs: seq<Query<T>>): (e: Option<string>)
    ensures e.None? <==> forall i :: 0 <= i < |qs| ==> !qs[i].Failed?
    ensures e.Some? ==> exists i :: 0 <= i < |qs| && qs[i] == Failed(e.value)
                                    && forall j :: 0 <= j < i ==> !qs[j].Failed?
    decreases |qs|
  {
    if |qs| == 0 then None
    else if qs[0].Failed? then Some(qs[0].message)
    else
      var rest := FirstError(qs[1..]);
      assert forall j :: 0 <= j < |qs| - 1 ==> qs[1..][j] == qs[j + 1];
      assert rest.Some? ==> exists i :: 0 < i < |qs| && qs[i] == Failed(rest.value)
                                        && forall j :: 0 <= j < i ==> !qs[j].Failed?;
      rest
  }
}
