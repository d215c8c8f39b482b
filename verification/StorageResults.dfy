/** How the results of a task's cold shards are merged into one. */
module StorageResults {
  datatype OperationCode =
    | Ok
    | PartialSuccess
    | InvalidArgument
    | NotFound
    | FailedPrecondition
    | Unavailable
    | InternalError
    | NotImplemented

  datatype OperationResult = OperationResult(code: OperationCode, successCount: nat, failedCount: nat)

  predicate IsSuccessful(code: OperationCode) {
    code == Ok || code == PartialSuccess
  }

  function SuccessTotal(parts: seq<OperationResult>): nat {
    if parts == [] then 0 else SuccessTotal(parts[..|parts| - 1]) + parts[|parts| - 1].successCount
  }

  function FailedTotal(parts: seq<OperationResult>): nat {
    if parts == [] then 0 else FailedTotal(parts[..|parts| - 1]) + parts[|parts| - 1].failedCount
  }

  /** The code after parts arrived in this order, one part at a time. */
  function MergedCode(parts: seq<OperationResult>): OperationCode
    requires parts != []
  {
    var n := |parts| - 1;
    if n == 0 then parts[0].code
    else
      var before, part := MergedCode(parts[..n]), parts[n].code;
      if !IsSuccessful(before) || !IsSuccessful(part) then
        if SuccessTotal(parts) == 0 then before else PartialSuccess
      else if before == PartialSuccess || part == PartialSuccess then PartialSuccess
      else before
  }

  /** The storage part of a task's result, filled in as its cold shards finish. */
  class StorageAggregate {
    var aggregate: OperationResult
    var initialized: bool
    ghost var parts: seq<OperationResult>

    ghost predicate Valid()
      reads this
    {
      && (initialized <==> parts != [])
      && (parts != [] ==> aggregate == OperationResult(MergedCode(parts), SuccessTotal(parts), FailedTotal(parts)))
    }

    constructor ()
      ensures Valid() && parts == []
    {
      aggregate := OperationResult(Ok, 0, 0);
      initialized := false;
      parts := [];
    }

    method Merge(part: OperationResult)
      requires Valid()
      modifies this
      ensures Valid() && parts == old(parts) + [part]
    {
      ghost var all := parts + [part];
      assert all[..|all| - 1] == parts;
      parts := all;
      if !initialized {
        aggregate := part;
        initialized := true;
        return;
      }
      var aggregateSuccess := IsSuccessful(aggregate.code);
      var partSuccess := IsSuccessful(part.code);
      var hadPartial := aggregate.code == PartialSuccess || part.code == PartialSuccess;
      aggregate := aggregate.(successCount := aggregate.successCount + part.successCount,
                              failedCount := aggregate.failedCount + part.failedCount);
      if !aggregateSuccess || !partSuccess {
        aggregate := aggregate.(code := if aggregate.successCount == 0 then aggregate.code else PartialSuccess);
      } else if hadPartial {
        aggregate := aggregate.(code := PartialSuccess);
      }
    }
  }

  // ----- what the merged code means -----

  /** A later part that leaves the code untouched: it succeeded fully, or it
      failed while nothing at all has been written so far. */
  predicate Harmless(parts: seq<OperationResult>, i: nat)
    requires i < |parts|
  {
    parts[i].code == Ok || (!IsSuccessful(parts[i].code) && SuccessTotal(parts[..i + 1]) == 0)
  }

  /** Exactly when the merged result reads Ok. */
  lemma {:induction false} MergedOkExactly(parts: seq<OperationResult>)
    requires parts != []
    ensures MergedCode(parts) == Ok <==>
            parts[0].code == Ok && forall i :: 1 <= i < |parts| ==> Harmless(parts, i)
    decreases |parts|
  {
    var n := |parts| - 1;
    if n > 0 {
      var front := parts[..n];
      MergedOkExactly(front);
      assert parts[..n + 1] == parts && front[0] == parts[0];
      forall i | 1 <= i < n ensures Harmless(front, i) <==> Harmless(parts, i) {
        assert front[..i + 1] == parts[..i + 1] && front[i] == parts[i];
      }
      assert Harmless(parts, n) <==> parts[n].code == Ok || (!IsSuccessful(parts[n].code) && SuccessTotal(parts) == 0);
    }
  }

  lemma {:induction false} SuccessGrows(parts: seq<OperationResult>, i: nat)
    requires i <= |parts|
    ensures SuccessTotal(parts[..i]) <= SuccessTotal(parts)
    decreases |parts|
  {
    if i == |parts| {
      assert parts[..i] == parts;
    } else {
      SuccessGrows(parts[..|parts| - 1], i);
      assert parts[..|parts| - 1][..i] == parts[..i];
    }
  }

  /** Exactly when it reads as a failure: the first shard to finish failed and
      nothing was ever written; the code is then that first shard's. */
  lemma {:induction false} MergedFailureExactly(parts: seq<OperationResult>)
    requires parts != []
    ensures !IsSuccessful(MergedCode(parts)) <==> !IsSuccessful(parts[0].code) && (|parts| == 1 || SuccessTotal(parts) == 0)
    ensures !IsSuccessful(MergedCode(parts)) ==> MergedCode(parts) == parts[0].code
    decreases |parts|
  {
    var n := |parts| - 1;
    if n > 0 {
      MergedFailureExactly(parts[..n]);
      SuccessGrows(parts, n);
    }
  }

  /** A shard that writes nothing when it fails and something when it succeeds,
      as every raw write of the storage service does: it succeeds with all of a
      non-empty shard or fails with none of it. */
  predicate Plain(part: OperationResult) {
    && (part.code == Ok ==> part.successCount > 0)
    && (!IsSuccessful(part.code) ==> part.successCount == 0)
    && (part.code == PartialSuccess ==> part.successCount > 0)
  }

  /** For such shards Ok and failure do not depend on the finishing order. */
  lemma {:induction false} MergedCodeOfPlainShards(parts: seq<OperationResult>)
    requires parts != [] && forall i :: 0 <= i < |parts| ==> Plain(parts[i])
    ensures MergedCode(parts) == Ok <==> forall i :: 0 <= i < |parts| ==> parts[i].code == Ok
    ensures !IsSuccessful(MergedCode(parts)) <==> forall i :: 0 <= i < |parts| ==> !IsSuccessful(parts[i].code)
  {
    hide MergedCode, SuccessTotal;
    MergedOkExactly(parts);
    MergedFailureExactly(parts);
    if parts[0].code == Ok {
      forall i | 1 <= i < |parts| ensures Harmless(parts, i) <==> parts[i].code == Ok { WrittenSoFar(parts, 0, i + 1); }
    }
    if i :| 0 <= i < |parts| && IsSuccessful(parts[i].code) {
      WrittenSoFar(parts, i, |parts|);
      assert parts[..|parts|] == parts;
    } else {
      NothingWritten(parts);
    }
  }

  lemma {:induction false} WrittenSoFar(parts: seq<OperationResult>, i: nat, n: nat)
    requires i < n <= |parts| && parts[i].successCount > 0
    ensures SuccessTotal(parts[..n]) > 0
  {
    assert parts[..i + 1][..i] == parts[..i];
    SuccessGrows(parts[..n], i + 1);
    assert parts[..n][..i + 1] == parts[..i + 1];
  }

  lemma {:induction false} NothingWritten(parts: seq<OperationResult>)
    requires forall i :: 0 <= i < |parts| ==> parts[i].successCount == 0
    ensures SuccessTotal(parts) == 0
    decreases |parts|
  {
    if parts != [] { NothingWritten(parts[..|parts| - 1]); }
  }

  // ----- the counts -----

  /** Both counts are sums over the shards. */
  lemma {:induction false} TotalsAdd(a: seq<OperationResult>, b: seq<OperationResult>)
    ensures SuccessTotal([]) == FailedTotal([]) == 0
    ensures forall p: OperationResult :: SuccessTotal([p]) == p.successCount && FailedTotal([p]) == p.failedCount
    ensures SuccessTotal(a + b) == SuccessTotal(a) + SuccessTotal(b) && FailedTotal(a + b) == FailedTotal(a) + FailedTotal(b)
    decreases |b|
  {
    forall p: OperationResult ensures SuccessTotal([p]) == p.successCount && FailedTotal([p]) == p.failedCount { assert [p][..0] == []; }
    if b == [] {
      assert a + b == a;
    } else {
      TotalsAdd(a, b[..|b| - 1]);
      assert (a + b)[..|a + b| - 1] == a + b[..|b| - 1];
    }
  }

  /** And so they do not depend on the order in which the shards finish. */
  lemma {:induction false} TotalsOfAnyOrder(parts: seq<OperationResult>, order: seq<OperationResult>)
    requires multiset(order) == multiset(parts)
    ensures SuccessTotal(order) == SuccessTotal(parts) && FailedTotal(order) == FailedTotal(parts)
    decreases |parts|
  {
    hide SuccessTotal, FailedTotal;
    if parts == [] {
      assert |order| == |multiset(order)| == 0;
    } else {
      var front, last := parts[..|parts| - 1], parts[|parts| - 1];
      assert parts == front + [last];
      assert last in multiset(order);
      var i :| 0 <= i < |order| && order[i] == last;
      var a, b := order[..i], order[i + 1..];
      assert order == a + ([last] + b);
      assert multiset(order) == multiset(a + b) + multiset{last};
      assert multiset(parts) == multiset(front) + multiset{last};
      WithoutOne(multiset(a + b), multiset(front), last);
      TotalsOfAnyOrder(front, a + b);
      TotalsAdd(front, [last]);
      TotalsAdd(a, [last] + b);
      TotalsAdd([last], b);
      TotalsAdd(a, b);
    }
  }

  lemma WithoutOne<T>(a: multiset<T>, b: multiset<T>, x: T)
    requires a + multiset{x} == b + multiset{x}
    ensures a == b
  {
    assert a == a + multiset{x} - multiset{x} && b == b + multiset{x} - multiset{x};
  }

  // ----- the finishing order -----

  ghost predicate SameWhateverTheOrder(parts: seq<OperationResult>)
    requires parts != []
  {
    forall order: seq<OperationResult> :: order != [] && multiset(order) == multiset(parts) ==> MergedCode(order) == MergedCode(parts)
  }

  lemma MemberOf(order: seq<OperationResult>, parts: seq<OperationResult>)
    requires multiset(order) == multiset(parts)
    ensures forall p :: p in order <==> p in parts
  {
    forall p ensures p in order <==> p in parts { assert p in multiset(order) <==> p in multiset(parts); }
  }

  lemma {:induction false} MovedToFront(parts: seq<OperationResult>, i: nat) returns (order: seq<OperationResult>)
    requires i < |parts|
    ensures order != [] && order[0] == parts[i] && multiset(order) == multiset(parts)
  {
    order := [parts[i]] + (parts[..i] + parts[i + 1..]);
    assert parts == parts[..i] + [parts[i]] + parts[i + 1..];
  }

  lemma {:induction false} AllFailed(parts: seq<OperationResult>)
    requires parts != [] && forall p :: p in parts ==> Plain(p) && !IsSuccessful(p.code)
    ensures MergedCode(parts) == parts[0].code
  {
    hide MergedCode;
    forall i | 0 <= i < |parts| ensures parts[i].successCount == 0 { assert parts[i] in parts; }
    NothingWritten(parts);
    assert parts[0] in parts;
    MergedFailureExactly(parts);
  }

  /** The merged code of plain shards depends on the finishing order exactly
      when all of them failed, with more than one code. */
  lemma {:induction false} OrderMattersExactly(parts: seq<OperationResult>)
    requires parts != [] && forall p :: p in parts ==> Plain(p)
    ensures SameWhateverTheOrder(parts) <==>
            (exists p :: p in parts && IsSuccessful(p.code)) || forall p, q :: p in parts && q in parts ==> p.code == q.code
  {
    hide MergedCode;
    if exists p :: p in parts && IsSuccessful(p.code) {
      forall order: seq<OperationResult> | order != [] && multiset(order) == multiset(parts) ensures MergedCode(order) == MergedCode(parts) {
        MemberOf(order, parts);
        SuccessfulMerge(order);
        SuccessfulMerge(parts);
      }
    } else {
      forall order: seq<OperationResult> | order != [] && multiset(order) == multiset(parts) ensures MergedCode(order) == order[0].code && order[0] in parts {
        MemberOf(order, parts);
        AllFailed(order);
      }
      AllFailed(parts);
      assert parts[0] in parts;
      if i :| 0 <= i < |parts| && parts[i].code != parts[0].code {
        var order := MovedToFront(parts, i);
        assert parts[i] in parts && MergedCode(order) != MergedCode(parts);
      }
    }
  }

  lemma {:induction false} SuccessfulMerge(parts: seq<OperationResult>)
    requires (forall p :: p in parts ==> Plain(p)) && exists p :: p in parts && IsSuccessful(p.code)
    ensures MergedCode(parts) == if forall p :: p in parts ==> p.code == Ok then Ok else PartialSuccess
  {
    hide MergedCode;
    var p :| p in parts && IsSuccessful(p.code);
    var i :| 0 <= i < |parts| && parts[i] == p;
    forall k | 0 <= k < |parts| ensures Plain(parts[k]) { assert parts[k] in parts; }
    MergedCodeOfPlainShards(parts);
    if forall k :: 0 <= k < |parts| ==> parts[k].code == Ok {
      forall q | q in parts ensures q.code == Ok { var k :| 0 <= k < |parts| && parts[k] == q; }
    } else {
      var k :| 0 <= k < |parts| && parts[k].code != Ok;
      assert parts[k] in parts;
    }
  }

  /** Two shards that both fail: the first to finish names the error. */
  lemma FirstFailureNamesTheError()
    ensures var lost, broken := OperationResult(Unavailable, 0, 5), OperationResult(InternalError, 0, 5);
            && Plain(lost) && Plain(broken)
            && MergedCode([lost, broken]) == Unavailable && MergedCode([broken, lost]) == InternalError
  {
    var lost, broken := OperationResult(Unavailable, 0, 5), OperationResult(InternalError, 0, 5);
    AllFailed([lost, broken]);
    AllFailed([broken, lost]);
  }
}
