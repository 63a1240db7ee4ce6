/**
 When the service refreshes its core parameters (indexer/indexer.go: indexBlock).

 The results of the node's calls are inputs; an attempt may fail at any of them.  A parameter value
 carries the number of the attempt that fetched it.
 */
module EpochParameters {
  import opened Model

  datatype HeaderType = Normal | EpochTransition | OtherHeader

  datatype Parameters = Parameters(value: nat, fetchedAt: nat)

  datatype Flags = Flags(queryEpochParameters: bool, coreParameters: Option<Parameters>, rtInfo: Option<nat>)

  const Fresh := Flags(false, None, None)

  /** One attempt: what each call of the node and the backend returns (None or false: an error). */
  datatype Call =
    | Restart
    | Try(blockOk: bool, header: HeaderType, params: Option<nat>, rtInfo: Option<nat>, txsOk: bool, stored: bool)

  class Service {
    var queryEpochParameters: bool
    var coreParameters: Option<Parameters>
    var rtInfo: Option<nat>

    function State(): Flags
      reads this
    {
      Flags(queryEpochParameters, coreParameters, rtInfo)
    }

    constructor ()
      ensures State() == Fresh
    {
      queryEpochParameters, coreParameters, rtInfo := false, None, None;
    }

    /** Returns the parameters the block was stored with, or None if the attempt failed. */
    method IndexBlock(c: Call, now: nat) returns (used: Option<Parameters>)
      requires c.Try?
      modifies this
      ensures (State(), used) == Attempt(old(State()), c, now)
    {
      used := None;
      if !c.blockOk {
        return;
      }
      if coreParameters.None? || rtInfo.None? || queryEpochParameters {
        if c.params.None? {
          return;
        }
        coreParameters := Some(Parameters(c.params.value, now));
        rtInfo := c.rtInfo;
        if rtInfo.None? {
          return;
        }
      }
      if !c.txsOk || !c.stored {
        return;
      }
      used := coreParameters;
      if c.header == EpochTransition {
        queryEpochParameters := true;
      } else if queryEpochParameters && c.header == Normal {
        queryEpochParameters := false;
      }
    }
  }

  predicate MustFetch(s: Flags) { s.coreParameters.None? || s.rtInfo.None? || s.queryEpochParameters }

  /** The state after the queries of an attempt, and whether they succeeded. */
  function Queried(s: Flags, c: Call, now: nat): (Flags, bool)
    requires c.Try?
  {
    if !MustFetch(s) then (s, true)
    else if c.params.None? then (s, false)
    else (s.(coreParameters := Some(Parameters(c.params.value, now)), rtInfo := c.rtInfo), c.rtInfo.Some?)
  }

  function Attempt(s: Flags, c: Call, now: nat): (Flags, Option<Parameters>)
    requires c.Try?
  {
    if !c.blockOk then (s, None) else
    var (t, ok) := Queried(s, c, now);
    if !ok || !c.txsOk || !c.stored then (t, None)
    else (t.(queryEpochParameters :=
               c.header == EpochTransition || (t.queryEpochParameters && c.header != Normal)), t.coreParameters)
  }

  function StateAfter(calls: seq<Call>): Flags {
    if calls == [] then Fresh else
    var last := calls[|calls| - 1];
    if last.Restart? then Fresh else Attempt(StateAfter(calls[..|calls| - 1]), last, |calls| - 1).0
  }

  /** The parameters that attempt k stored its block with, if it stored one. */
  function Used(calls: seq<Call>, k: nat): Option<Parameters>
    requires k < |calls|
  {
    if calls[k].Restart? then None else Attempt(StateAfter(calls[..k]), calls[k], k).1
  }

  ghost predicate IndexedEpoch(calls: seq<Call>, k: nat)
    requires k < |calls|
  {
    Used(calls, k).Some? && calls[k].header == EpochTransition
  }

  /** The parameters at hand are newer than every epoch transition among the first k attempts, unless they
      are about to be fetched again. */
  ghost predicate UpToDate(calls: seq<Call>, k: nat)
    requires k <= |calls|
  {
    var s := StateAfter(calls[..k]);
    !MustFetch(s) ==> forall i :: 0 <= i < k && IndexedEpoch(calls, i) ==> s.coreParameters.value.fetchedAt > i
  }

  lemma {:induction false} AlwaysUpToDate(calls: seq<Call>, k: nat)
    requires k <= |calls|
    ensures UpToDate(calls, k)
  {
    if k > 0 {
      AlwaysUpToDate(calls, k - 1);
      assert calls[..k][..k - 1] == calls[..k - 1];
    }
  }

  /** Whatever fails or restarts in between: a block is stored with parameters fetched strictly after
      every epoch-transition block indexed before it. */
  lemma ParametersPostdateEpochs(calls: seq<Call>, i: nat, k: nat)
    requires i < k < |calls| && IndexedEpoch(calls, i) && Used(calls, k).Some?
    ensures Used(calls, k).value.fetchedAt > i
  {
    AlwaysUpToDate(calls, k);
  }

  /** An epoch transition was indexed, and since then the process has neither restarted nor indexed a normal
      block. */
  ghost predicate AwaitsNormal(calls: seq<Call>, k: nat, i: nat)
    requires k <= |calls|
  {
    && i < k && IndexedEpoch(calls, i)
    && forall j :: i < j < k ==> calls[j].Try? && !(Used(calls, j).Some? && calls[j].header == Normal)
  }

  lemma FlagStep(calls: seq<Call>, k: nat)
    requires k < |calls|
    ensures StateAfter(calls[..k + 1]).queryEpochParameters <==>
            || IndexedEpoch(calls, k)
            || (StateAfter(calls[..k]).queryEpochParameters && calls[k].Try?
                && !(Used(calls, k).Some? && calls[k].header == Normal))
  {
    assert calls[..k + 1][..k] == calls[..k];
  }

  lemma AwaitsStep(calls: seq<Call>, k: nat, i: nat)
    requires k < |calls|
    ensures AwaitsNormal(calls, k + 1, i) <==>
            || (i == k && IndexedEpoch(calls, k))
            || (AwaitsNormal(calls, k, i) && calls[k].Try? && !(Used(calls, k).Some? && calls[k].header == Normal))
  {
  }

  /** The flag is up exactly from an indexed epoch transition to the next indexed normal block or restart. */
  lemma {:induction false} FlagMeans(calls: seq<Call>, k: nat)
    requires k <= |calls|
    ensures StateAfter(calls[..k]).queryEpochParameters <==> exists i: nat :: AwaitsNormal(calls, k, i)
  {
    if k > 0 {
      var n := k - 1;
      FlagMeans(calls, n);
      FlagStep(calls, n);
      if IndexedEpoch(calls, n) {
        AwaitsStep(calls, n, n);
      } else if i: nat :| AwaitsNormal(calls, n, i) {
        AwaitsStep(calls, n, i);
      }
      if i: nat :| AwaitsNormal(calls, k, i) {
        AwaitsStep(calls, n, i);
      }
    }
  }

  /** When an attempt stores its block, and with which parameters: those at hand if there are any, the
      runtime information is known and the flag is down, and freshly fetched ones otherwise. */
  lemma UsedMeans(calls: seq<Call>, k: nat)
    requires k < |calls| && calls[k].Try?
    ensures
      var s, c := StateAfter(calls[..k]), calls[k];
      var atHand := s.coreParameters.Some? && s.rtInfo.Some? && !s.queryEpochParameters;
      && (Used(calls, k).Some? <==>
            c.blockOk && c.txsOk && c.stored && (atHand || (c.params.Some? && c.rtInfo.Some?)))
      && (Used(calls, k).Some? && atHand ==> Used(calls, k) == s.coreParameters)
      && (Used(calls, k).Some? && !atHand ==> Used(calls, k).value == Parameters(c.params.value, k))
  {
  }

  // ---------------------------------------------------------------- the parameters of the round

  /** The round that attempt k is made for: indexing starts at `first` and leaves no round out. */
  function RoundFor(calls: seq<Call>, first: nat, k: nat): nat
    requires k <= |calls|
  {
    if k == 0 then first else RoundFor(calls, first, k - 1) + (if Used(calls, k - 1).Some? then 1 else 0)
  }

  /** The node answers with the parameters of the queried round, and those only change after an
      epoch-transition block. */
  ghost predicate NodeAnswers(calls: seq<Call>, first: nat, paramsAt: nat -> nat) {
    forall k :: 0 <= k < |calls| && calls[k].Try? ==>
      var round := RoundFor(calls, first, k);
      && (calls[k].params.Some? ==> calls[k].params.value == paramsAt(round))
      && (calls[k].header != EpochTransition ==> paramsAt(round + 1) == paramsAt(round))
  }

  lemma {:induction false} CachedParametersAreCurrent(calls: seq<Call>, first: nat, paramsAt: nat -> nat, k: nat)
    requires k <= |calls| && NodeAnswers(calls, first, paramsAt)
    ensures !MustFetch(StateAfter(calls[..k])) ==>
              StateAfter(calls[..k]).coreParameters.value.value == paramsAt(RoundFor(calls, first, k))
  {
    if k > 0 {
      CachedParametersAreCurrent(calls, first, paramsAt, k - 1);
      assert calls[..k][..k - 1] == calls[..k - 1];
    }
  }

  /** Without gaps, caching is invisible: every block is stored with the parameters of its own round. */
  lemma EveryBlockUsesItsParameters(calls: seq<Call>, first: nat, paramsAt: nat -> nat, k: nat)
    requires k < |calls| && NodeAnswers(calls, first, paramsAt) && Used(calls, k).Some?
    ensures Used(calls, k).value.value == paramsAt(RoundFor(calls, first, k))
  {
    CachedParametersAreCurrent(calls, first, paramsAt, k);
  }
}
