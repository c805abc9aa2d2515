/**
  The access-control step of the decrypt flow (frontend/src/App.tsx,
  `handleUserDecrypt`): for each encrypted handle, ask the ACL contract
  `persistAllowed(handle, ratingContract)` and call `allow` only when it is not.
  The contract itself is external; it is modelled as the set of granted
  (handle, spender) pairs, and each `allow` transaction as confirmed or failed.
*/
module Acl {
  import opened Wrappers
  import opened JsError

  type Handle = string
  type Address = string

  datatype Grant = Grant(handle: Handle, spender: Address)

  /** How the `allow` transaction for a handle ends: `tx.wait()` returns, or the call or the wait throws. */
  datatype AllowOutcome = Confirmed | Failed(thrown: Thrown)

  /** The grants of `spender` over each handle of `calls`. */
  function GrantsFor(calls: seq<Handle>, spender: Address): (grants: set<Grant>)
    ensures forall g :: g in grants <==> g.spender == spender && g.handle in calls
  {
    set h | h in calls :: Grant(h, spender)
  }

  /**
    The handles `allow` is called for when the loop walks `handles` in order against
    the grants in `granted`: those not yet granted to `spender`, each once, in order.
  */
  function AllowCalls(handles: seq<Handle>, granted: set<Grant>, spender: Address): (calls: seq<Handle>)
  {
    if handles == [] then []
    else
      var h := handles[|handles| - 1];
      var earlier := AllowCalls(handles[..|handles| - 1], granted, spender);
      if Grant(h, spender) in granted || h in earlier then earlier else earlier + [h]
  }

  /** `allow` is called for a handle exactly when the handle is listed and was not granted before the loop. */
  lemma {:induction false} AllowCallsExactly(handles: seq<Handle>, granted: set<Grant>, spender: Address, h: Handle)
    ensures h in AllowCalls(handles, granted, spender) <==> h in handles && Grant(h, spender) !in granted
  {
    if handles != [] {
      var init := handles[..|handles| - 1];
      AllowCallsExactly(init, granted, spender, h);
      assert handles == init + [handles[|handles| - 1]];
    }
  }

  predicate Distinct(calls: seq<Handle>)
  {
    forall i, j :: 0 <= i < j < |calls| ==> calls[i] != calls[j]
  }

  /** No handle is allowed twice, even when the same handle is listed twice. */
  lemma {:induction false} AllowCallsDistinct(handles: seq<Handle>, granted: set<Grant>, spender: Address)
    ensures Distinct(AllowCalls(handles, granted, spender))
  {
    if handles != [] {
      var earlier := AllowCalls(handles[..|handles| - 1], granted, spender);
      AllowCallsDistinct(handles[..|handles| - 1], granted, spender);
      var h := handles[|handles| - 1];
      var calls := AllowCalls(handles, granted, spender);
      if calls != earlier {
        assert calls == earlier + [h] && h !in earlier;
        forall i, j | 0 <= i < j < |calls| ensures calls[i] != calls[j] {
          assert calls[i] == earlier[i];
          if j < |earlier| {
            assert calls[j] == earlier[j];
          }
        }
      }
    }
  }

  /** One more handle: `allow` is called for it unless it is granted already or was allowed earlier in the loop. */
  lemma AllowCallsNext(handles: seq<Handle>, i: nat, granted: set<Grant>, spender: Address)
    requires i < |handles|
    ensures var earlier := AllowCalls(handles[..i], granted, spender);
      AllowCalls(handles[..i + 1], granted, spender)
        == if Grant(handles[i], spender) in granted || handles[i] in earlier then earlier else earlier + [handles[i]]
  {
    assert handles[..i + 1][..i] == handles[..i];
  }

  /** The calls made for the first `k` handles are the first calls made for all of them. */
  lemma {:induction false} AllowCallsPrefix(handles: seq<Handle>, k: nat, granted: set<Grant>, spender: Address)
    requires k <= |handles|
    ensures AllowCalls(handles[..k], granted, spender) <= AllowCalls(handles, granted, spender)
    decreases |handles| - k
  {
    if k < |handles| {
      var init := handles[..|handles| - 1];
      AllowCallsPrefix(init, k, granted, spender);
      assert init[..k] == handles[..k];
    } else {
      assert handles[..k] == handles;
    }
  }

  /** Every handle in a prefix of the calls is listed and was not granted before the loop. */
  lemma AllowedHandlesListed(handles: seq<Handle>, granted: set<Grant>, spender: Address, calls: seq<Handle>)
    requires calls <= AllowCalls(handles, granted, spender)
    ensures forall h :: h in calls ==> h in handles && Grant(h, spender) !in granted
  {
    forall h | h in calls ensures h in handles && Grant(h, spender) !in granted {
      AllowCallsExactly(handles, granted, spender, h);
    }
  }

  /**
    One turn of the loop: `persistAllowed` answers from the grants made so far,
    and what has been called so far stays a prefix of all the calls.
  */
  lemma AllowCallsStep(handles: seq<Handle>, i: nat, granted: set<Grant>, spender: Address)
    requires i < |handles|
    ensures var calls := AllowCalls(handles[..i], granted, spender);
      AllowCalls(handles[..i + 1], granted, spender)
        == if Grant(handles[i], spender) in granted + GrantsFor(calls, spender) then calls else calls + [handles[i]]
    ensures AllowCalls(handles[..i + 1], granted, spender) <= AllowCalls(handles, granted, spender)
  {
    AllowCallsNext(handles, i, granted, spender);
    AllowCallsPrefix(handles, i + 1, granted, spender);
  }

  /** What is known when the `allow` transaction for `h`, the call after `earlier`, fails. */
  lemma StoppedAt(handles: seq<Handle>, granted: set<Grant>, spender: Address, allowTx: Handle -> AllowOutcome,
                  earlier: seq<Handle>, h: Handle)
    requires earlier + [h] <= AllowCalls(handles, granted, spender)
    requires allowTx(h).Failed?
    ensures forall x :: x in earlier + [h] ==> x in handles && Grant(x, spender) !in granted
    ensures forall g :: g in GrantsFor(earlier, spender) ==> g.spender == spender && g.handle in handles
    ensures (earlier + [h])[..|earlier|] == earlier
    ensures !forall x :: x in AllowCalls(handles, granted, spender) ==> allowTx(x).Confirmed?
  {
    var calls := earlier + [h];
    AllowedHandlesListed(handles, granted, spender, calls);
    assert calls[..|earlier|] == earlier;
    assert forall x :: x in earlier ==> x in calls;
    assert AllowCalls(handles, granted, spender)[|earlier|] == h;
  }

  /** Where the loop ends: after the last handle, or at the first `persistAllowed` or `allow` that throws. */
  datatype AuthorizeEnd = Completed | QueryThrew(thrown: Thrown) | AllowThrew(thrown: Thrown)

  /**
    Whether the loop gets through every handle: every `persistAllowed` query
    returns, and every `allow` transaction it has to send is confirmed.
  */
  predicate AuthorizeCompletes(handles: seq<Handle>, granted: set<Grant>, spender: Address,
                               queryTx: Handle -> Completion, allowTx: Handle -> AllowOutcome)
  {
    && (forall i :: 0 <= i < |handles| ==> queryTx(handles[i]).Returned?)
    && (forall h :: h in AllowCalls(handles, granted, spender) ==> allowTx(h).Confirmed?)
  }

  /**
    The error the loop throws from `handles[i]` on, walking forward with the
    grants `grantedNow` made so far: the first `persistAllowed` query that
    throws, or the first `allow` sent for an ungranted handle that fails.
    None when the loop gets through.
  */
  function LoopThrow(handles: seq<Handle>, i: nat, grantedNow: set<Grant>, spender: Address,
                     queryTx: Handle -> Completion, allowTx: Handle -> AllowOutcome): Option<Thrown>
    decreases |handles| - i
  {
    if i >= |handles| then None
    else
      var h := handles[i];
      match queryTx(h)
      case Threw(thrown) => Some(thrown)
      case Returned =>
        if Grant(h, spender) in grantedNow then LoopThrow(handles, i + 1, grantedNow, spender, queryTx, allowTx)
        else match allowTx(h)
          case Failed(thrown) => Some(thrown)
          case Confirmed => LoopThrow(handles, i + 1, grantedNow + {Grant(h, spender)}, spender, queryTx, allowTx)
  }

  /**
    One turn of the authorize loop, for `handles[i]`: ask `persistAllowed`, and
    send and wait for `allow` when the handle is not allowed yet.
  */
  method AuthorizeNext(granted: set<Grant>, handles: seq<Handle>, spender: Address,
                       queryTx: Handle -> Completion, allowTx: Handle -> AllowOutcome,
                       i: nat, grantedSoFar: set<Grant>, callsSoFar: seq<Handle>)
    returns (granted': set<Grant>, calls: seq<Handle>, end: AuthorizeEnd)
    requires i < |handles|
    requires callsSoFar == AllowCalls(handles[..i], granted, spender)
    requires grantedSoFar == granted + GrantsFor(callsSoFar, spender)
    ensures AllowCalls(handles[..i + 1], granted, spender) <= AllowCalls(handles, granted, spender)
    ensures LoopThrow(handles, i, grantedSoFar, spender, queryTx, allowTx)
      == if end.Completed? then LoopThrow(handles, i + 1, granted', spender, queryTx, allowTx) else Some(end.thrown)
    ensures end.Completed? ==>
      && queryTx(handles[i]).Returned?
      && calls == AllowCalls(handles[..i + 1], granted, spender)
      && granted' == granted + GrantsFor(calls, spender)
      && (forall h :: h in calls ==> h in callsSoFar || (h == handles[i] && allowTx(h).Confirmed?))
    ensures end.QueryThrew? ==>
      queryTx(handles[i]) == Threw(end.thrown) && calls == callsSoFar && granted' == grantedSoFar
    ensures end.AllowThrew? ==>
      && calls == callsSoFar + [handles[i]] && calls == AllowCalls(handles[..i + 1], granted, spender)
      && queryTx(handles[i]).Returned? && allowTx(handles[i]) == Failed(end.thrown) && granted' == grantedSoFar
  {
    AllowCallsStep(handles, i, granted, spender);
    var h := handles[i];
    granted', calls, end := grantedSoFar, callsSoFar, Completed;
    match queryTx(h) {
      case Threw(thrown) =>
        end := QueryThrew(thrown);
      case Returned =>
        if Grant(h, spender) !in grantedSoFar {
          calls := callsSoFar + [h];
          match allowTx(h) {
            case Failed(thrown) =>
              end := AllowThrew(thrown);
            case Confirmed =>
              assert GrantsFor(calls, spender) == GrantsFor(callsSoFar, spender) + {Grant(h, spender)};
              granted' := grantedSoFar + {Grant(h, spender)};
          }
        }
    }
  }

  /**
    The authorize loop of `handleUserDecrypt`. `granted` is the ACL contract's state
    before the loop. `queryTx` says whether the `persistAllowed` query for a handle
    returns (its answer is then read from the grants) or throws, and `allowTx` how
    each `allow` transaction ends. Returns the ACL state afterwards, the handles
    `allow` was called for, and where the loop ended (a throw leaves it).
  */
  method AuthorizeHandles(granted: set<Grant>, handles: seq<Handle>, spender: Address,
                          queryTx: Handle -> Completion, allowTx: Handle -> AllowOutcome)
    returns (granted': set<Grant>, calls: seq<Handle>, end: AuthorizeEnd)
    ensures forall h :: h in calls ==> Grant(h, spender) !in granted
    ensures forall g :: g in granted' - granted ==> g.spender == spender && g.handle in handles
    ensures calls <= AllowCalls(handles, granted, spender)
    ensures forall h :: h in calls ==> queryTx(h).Returned?
    ensures end.Completed? <==> AuthorizeCompletes(handles, granted, spender, queryTx, allowTx)
    ensures end.Completed? <==> LoopThrow(handles, 0, granted, spender, queryTx, allowTx).None?
    ensures !end.Completed? ==> LoopThrow(handles, 0, granted, spender, queryTx, allowTx) == Some(end.thrown)
    ensures end.Completed? ==> calls == AllowCalls(handles, granted, spender)
    ensures end.Completed? ==> granted' == granted + GrantsFor(calls, spender)
    ensures end.Completed? ==> forall h :: h in handles ==> Grant(h, spender) in granted'
    ensures end.QueryThrew? ==>
      && granted' == granted + GrantsFor(calls, spender)
      && (forall h :: h in calls ==> allowTx(h).Confirmed?)
      && exists i :: 0 <= i < |handles| && queryTx(handles[i]) == Threw(end.thrown)
                     && (forall j :: 0 <= j < i ==> queryTx(handles[j]).Returned?)
                     && calls == AllowCalls(handles[..i], granted, spender)
    ensures end.AllowThrew? ==>
      && calls != [] && allowTx(calls[|calls| - 1]) == Failed(end.thrown)
      && granted' == granted + GrantsFor(calls[..|calls| - 1], spender)
      && (forall h :: h in calls[..|calls| - 1] ==> allowTx(h).Confirmed?)
      && exists i :: 0 <= i < |handles| && handles[i] == calls[|calls| - 1]
                     && (forall j :: 0 <= j <= i ==> queryTx(handles[j]).Returned?)
                     && calls == AllowCalls(handles[..i + 1], granted, spender)
  {
    granted', calls, end := granted, [], Completed;
    var i := 0;
    while i < |handles|
      invariant 0 <= i <= |handles|
      invariant calls == AllowCalls(handles[..i], granted, spender)
      invariant granted' == granted + GrantsFor(calls, spender)
      invariant forall h :: h in calls ==> allowTx(h).Confirmed? && queryTx(h).Returned?
      invariant forall j :: 0 <= j < i ==> queryTx(handles[j]).Returned?
      invariant LoopThrow(handles, 0, granted, spender, queryTx, allowTx)
        == LoopThrow(handles, i, granted', spender, queryTx, allowTx)
      invariant end.Completed?
    {
      var confirmedCalls := calls;
      granted', calls, end := AuthorizeNext(granted, handles, spender, queryTx, allowTx, i, granted', calls);
      if end.QueryThrew? {
        AllowCallsPrefix(handles, i, granted, spender);
        AllowedHandlesListed(handles, granted, spender, calls);
        assert !AuthorizeCompletes(handles, granted, spender, queryTx, allowTx) by {
          assert queryTx(handles[i]).Threw?;
        }
        return;
      }
      if end.AllowThrew? {
        StoppedAt(handles, granted, spender, allowTx, confirmedCalls, handles[i]);
        return;
      }
      i := i + 1;
    }
    assert handles[..i] == handles;
    AllowedHandlesListed(handles, granted, spender, calls);
    forall h | h in handles ensures Grant(h, spender) in granted' {
      AllowCallsExactly(handles, granted, spender, h);
    }
  }
}
