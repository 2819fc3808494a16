/** Use counting under interleaving. Each `use` is a single atomic conditional
    UPDATE, so any schedule of concurrent redemptions is equivalent to some
    sequence of these steps; the lemmas below hold for every such sequence. */
module UseCounting {
  import opened Base
  import opened Models

  /** One `use` call: the link id it targets and the clock at that moment. */
  datatype Attempt = Attempt(id: LinkId, now: int)

  /** Runs `use` attempts one after another; returns each attempt's result
      and the final store. */
  function RunUses(s: Store, attempts: seq<Attempt>): (r: (seq<bool>, Store))
    ensures |r.0| == |attempts|
    ensures r.1.configs == s.configs && r.1.links.Keys == s.links.Keys
    decreases |attempts|
  {
    if attempts == [] then ([], s)
    else
      var (ok, s1) := Use(s, attempts[0].id, attempts[0].now);
      var (rest, s2) := RunUses(s1, attempts[1..]);
      ([ok] + rest, s2)
  }

  /** How many attempts target `id`. */
  function AttemptsOn(attempts: seq<Attempt>, id: LinkId): nat
  {
    if attempts == [] then 0
    else (if attempts[0].id == id then 1 else 0) + AttemptsOn(attempts[1..], id)
  }

  /** How many attempts on `id` succeeded. */
  function SuccessesOn(attempts: seq<Attempt>, results: seq<bool>, id: LinkId): nat
    requires |results| == |attempts|
  {
    if attempts == [] then 0
    else (if attempts[0].id == id && results[0] then 1 else 0) + SuccessesOn(attempts[1..], results[1..], id)
  }

  /** N successes out of M attempts: starting from `remainingUses = n >= 0`,
      any sequence of attempts, interleaved with attempts on other links,
      succeeds on `id` exactly `min(n, M)` times and leaves `n - min(n, M)`
      uses; nothing else of the link changes but its `updatedTime`. */
  lemma {:induction false} UseCountExact(s: Store, attempts: seq<Attempt>, id: LinkId)
    requires id in s.links && s.links[id].remainingUses >= 0
    ensures var (results, s') := RunUses(s, attempts);
            var n := s.links[id].remainingUses;
            var k := Min(n, AttemptsOn(attempts, id));
            && SuccessesOn(attempts, results, id) == k
            && s'.links[id].remainingUses == n - k
            && s'.links[id] == s.links[id].(remainingUses := n - k, updatedTime := s'.links[id].updatedTime)
    decreases |attempts|
  {
    if attempts != [] {
      var (ok, s1) := Use(s, attempts[0].id, attempts[0].now);
      UseCountExact(s1, attempts[1..], id);
    }
  }

  /** The single-link case: M attempts on one link that had N uses left
      yield exactly min(N, M) successes and never a negative count. */
  lemma {:induction false} SameLinkAttempts(s: Store, attempts: seq<Attempt>, id: LinkId)
    requires id in s.links && s.links[id].remainingUses >= 0
    requires forall i :: 0 <= i < |attempts| ==> attempts[i].id == id
    ensures var (results, s') := RunUses(s, attempts);
            var n := s.links[id].remainingUses;
            && SuccessesOn(attempts, results, id) == Min(n, |attempts|)
            && s'.links[id].remainingUses == n - Min(n, |attempts|) >= 0
            && (|attempts| >= n ==> s'.links[id].remainingUses == 0)
  {
    AllOn(attempts, id);
    UseCountExact(s, attempts, id);
  }

  lemma {:induction false} AllOn(attempts: seq<Attempt>, id: LinkId)
    requires forall i :: 0 <= i < |attempts| ==> attempts[i].id == id
    ensures AttemptsOn(attempts, id) == |attempts|
    decreases |attempts|
  {
    if attempts != [] {
      AllOn(attempts[1..], id);
    }
  }

  // ---------------------------------------------------------------------
  // Whole redemptions

  /** One `execute_action` request: the caller's copy of the link (read at any
      earlier time), the query and the clock. */
  datatype Redemption = Redemption(copy: Link, query: map<string, string>, now: int)

  /** Runs redemptions one after another, collecting outcomes and payment calls. */
  function RunExecutions(s: Store, reqs: seq<Redemption>, decode: string -> Decoded,
                         pay: (WalletId, string) -> PayOutcome): (r: (seq<Outcome<ActionError>>, Store, seq<PayCall>))
    ensures |r.0| == |reqs|
    ensures r.1.configs == s.configs && r.1.links.Keys == s.links.Keys
    decreases |reqs|
  {
    if reqs == [] then ([], s, [])
    else
      var x := ExecuteAction(s, reqs[0].copy, reqs[0].query, reqs[0].now, decode, pay);
      var (rest, s2, calls) := RunExecutions(x.store, reqs[1..], decode, pay);
      ([x.outcome] + rest, s2, x.payments + calls)
  }

  /** How many requests pass validation. */
  function AcceptedCount(reqs: seq<Redemption>, decode: string -> Decoded): nat
  {
    if reqs == [] then 0
    else (if Acceptable(reqs[0].copy, reqs[0].query, decode) then 1 else 0) + AcceptedCount(reqs[1..], decode)
  }

  function PassCount(outcomes: seq<Outcome<ActionError>>): nat
  {
    if outcomes == [] then 0
    else (if outcomes[0].Pass? then 1 else 0) + PassCount(outcomes[1..])
  }

  /** Redemptions racing on one limited link with n uses left: exactly
      min(n, accepted) of them consume a use and reach `pay_invoice`, each
      exactly once, whether or not the payment then succeeds; so at most n
      redemptions succeed, however stale the callers' copies are. */
  lemma {:induction false} PaymentsBoundedByUses(s: Store, reqs: seq<Redemption>, decode: string -> Decoded,
                                                 pay: (WalletId, string) -> PayOutcome, id: LinkId)
    requires id in s.links && s.links[id].remainingUses >= 0
    requires forall i :: 0 <= i < |reqs| ==> reqs[i].copy.id == id && reqs[i].copy.initialUses > 0
    ensures var (outcomes, s', calls) := RunExecutions(s, reqs, decode, pay);
            var n := s.links[id].remainingUses;
            var k := Min(n, AcceptedCount(reqs, decode));
            && |calls| == k
            && s'.links[id].remainingUses == n - k
            && PassCount(outcomes) <= |calls| <= n
    decreases |reqs|
  {
    if reqs != [] {
      var x := ExecuteAction(s, reqs[0].copy, reqs[0].query, reqs[0].now, decode, pay);
      PaymentsBoundedByUses(x.store, reqs[1..], decode, pay, id);
      var (rest, s2, calls) := RunExecutions(x.store, reqs[1..], decode, pay);
      assert RunExecutions(s, reqs, decode, pay) == ([x.outcome] + rest, s2, x.payments + calls);
      assert ([x.outcome] + rest)[1..] == rest;
    }
  }

  // ---------------------------------------------------------------------
  // has_uses_remaining and the counter

  /** For a stored limited link, `has_uses_remaining` predicts exactly whether
      the next `use` succeeds; an unlimited link always has uses remaining
      and its count never moves under redemption. */
  lemma HasUsesRemainingPredictsUse(s: Store, id: LinkId, now: int)
    requires Valid(s) && id in s.links
    ensures s.links[id].initialUses > 0 ==> (HasUsesRemaining(s.links[id]) <==> Use(s, id, now).0)
    ensures s.links[id].initialUses == 0 ==> HasUsesRemaining(s.links[id]) && !Use(s, id, now).0
  {
  }

  /** A link minted with negative uses is never counted down, yet
      `has_uses_remaining` reports that it has none: every accepted redemption
      reaches `pay_invoice` and leaves the store as it was. */
  lemma NegativeUsesNeverCounted(s: Store, l: Link, query: map<string, string>, now: int,
                                 decode: string -> Decoded, pay: (WalletId, string) -> PayOutcome)
    requires CounterInvariant(l) && l.initialUses < 0
    requires Acceptable(l, query, decode)
    ensures var x := ExecuteAction(s, l, query, now, decode, pay);
            && !HasUsesRemaining(l)
            && x.store == s
            && x.payments == [PayCall(l.wallet, query["pr"])]
            && (x.outcome.Pass? <==> pay(l.wallet, query["pr"]).Paid?)
  {
  }

  /** A redemption of a limited link whose uses are used up fails with
      "Maximum number of uses already reached" and never reaches `pay_invoice`;
      a request that fails validation changes nothing whatever the link. */
  lemma ExhaustedLinkNeverPays(s: Store, l: Link, query: map<string, string>, now: int,
                               decode: string -> Decoded, pay: (WalletId, string) -> PayOutcome)
    requires Valid(s) && l.id in s.links && l.initialUses > 0
    requires !HasUsesRemaining(s.links[l.id])
    ensures var x := ExecuteAction(s, l, query, now, decode, pay);
            && x.payments == [] && x.store == s
            && (Acceptable(l, query, decode) ==> x.outcome == Fail(MaximumUsesReached))
  {
  }
}
