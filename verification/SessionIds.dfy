/** Session identifiers: issued strictly increasing, accepted strictly increasing. */
module SessionIds {
  import opened Machine

  datatype SessionIdError = Exhausted

  predicate IsNewerSession(lastAccepted: Option<U64>, candidate: U64)
  {
    match lastAccepted
    case None => true
    case Some(last) => candidate > last
  }

  function NextSessionId(epochMs: U64, lastIssued: U64): Result<U64, SessionIdError>
  {
    if lastIssued == U64_MAX then Err(Exhausted)
    else
      var afterLast := lastIssued + 1;
      Ok(if epochMs > afterLast then epochMs else afterLast)
  }

  /** The next id is the least one that is newer than the last and not behind the
      clock; there is none exactly when the space is used up. */
  lemma NextIsLeastNewer(epochMs: U64, lastIssued: U64, other: U64)
    ensures NextSessionId(epochMs, lastIssued).Err? <==> lastIssued == U64_MAX
    ensures var next := NextSessionId(epochMs, lastIssued);
      next.Ok? ==>
        IsNewerSession(Some(lastIssued), next.value) && next.value >= epochMs &&
        (other >= epochMs && IsNewerSession(Some(lastIssued), other) ==> next.value <= other)
  {
  }

  class SessionIdGenerator {
    var lastIssued: U64

    constructor ()
      ensures lastIssued == 0
    {
      lastIssued := 0;
    }

    method NextId(epochMs: U64) returns (id: Result<U64, SessionIdError>)
      modifies this
      ensures id == NextSessionId(epochMs, old(lastIssued))
      ensures lastIssued == if id.Ok? then id.value else old(lastIssued)
    {
      id := NextSessionId(epochMs, lastIssued);
      if id.Ok? {
        lastIssued := id.value;
      }
    }
  }

  class SessionOrder {
    var lastAccepted: Option<U64>

    constructor ()
      ensures lastAccepted == None
    {
      lastAccepted := None;
    }

    method Accept(candidate: U64) returns (accepted: bool)
      modifies this
      ensures accepted == IsNewerSession(old(lastAccepted), candidate)
      ensures lastAccepted == if accepted then Some(candidate) else old(lastAccepted)
    {
      if IsNewerSession(lastAccepted, candidate) {
        lastAccepted := Some(candidate);
        accepted := true;
      } else {
        accepted := false;
      }
    }
  }

  /** The ids issued for a sequence of clock readings, which may run backwards. */
  function Issue(lastIssued: U64, epochs: seq<U64>): seq<U64>
    decreases |epochs|
  {
    if epochs == [] then []
    else match NextSessionId(epochs[0], lastIssued)
      case Err(_) => Issue(lastIssued, epochs[1..])
      case Ok(id) => [id] + Issue(id, epochs[1..])
  }

  /** The candidates that an endpoint accepts out of a sequence. */
  function Accepted(lastAccepted: Option<U64>, candidates: seq<U64>): seq<U64>
    decreases |candidates|
  {
    if candidates == [] then []
    else if IsNewerSession(lastAccepted, candidates[0]) then
      [candidates[0]] + Accepted(Some(candidates[0]), candidates[1..])
    else Accepted(lastAccepted, candidates[1..])
  }

  ghost predicate Increasing(ids: seq<U64>, above: int)
  {
    (forall i :: 0 <= i < |ids| ==> ids[i] > above) && forall i, k :: 0 <= i < k < |ids| ==> ids[i] < ids[k]
  }

  lemma {:induction false} AcceptedIncrease(lastAccepted: Option<U64>, candidates: seq<U64>)
    ensures Increasing(Accepted(lastAccepted, candidates), if lastAccepted.Some? then lastAccepted.value else -1)
    decreases |candidates|
  {
    if candidates != [] {
      if IsNewerSession(lastAccepted, candidates[0]) {
        AcceptedIncrease(Some(candidates[0]), candidates[1..]);
      } else {
        AcceptedIncrease(lastAccepted, candidates[1..]);
      }
    }
  }

  /** Whatever the clock does, ids are issued in strictly increasing order, and an
      endpoint that sees them in that order accepts every one. */
  lemma {:induction false} IssuedAreAllAccepted(lastIssued: U64, epochs: seq<U64>)
    ensures Increasing(Issue(lastIssued, epochs), lastIssued)
    ensures Accepted(Some(lastIssued), Issue(lastIssued, epochs)) == Issue(lastIssued, epochs)
    decreases |epochs|
  {
    if epochs != [] {
      match NextSessionId(epochs[0], lastIssued)
      case Err(_) => IssuedAreAllAccepted(lastIssued, epochs[1..]);
      case Ok(id) =>
        IssuedAreAllAccepted(id, epochs[1..]);
        assert Issue(lastIssued, epochs)[1..] == Issue(id, epochs[1..]);
    }
  }
}
