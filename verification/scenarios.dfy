/** Whole redemptions of a freshly minted link: info lookup by secret, then
    actions, as a wallet app performs them. */
module Scenarios {
  import opened Base
  import opened Models
  import opened Crud

  /** Right after minting, presenting the secret yields the withdraw metadata
      with the link's bounds and `k1` equal to the secret. */
  lemma MintedLinkInfo(s: Store, b: Config, secret: string, params: WithdrawParams, uses: int,
                       newId: LinkId, now: int, hash: string -> Digest, callbackUrl: string)
    requires Valid(s)
    requires CreateBleskomatLnurl(s, b, secret, WithdrawRequest, params, uses, newId, now, hash).Ok?
    ensures var s' := CreateBleskomatLnurl(s, b, secret, WithdrawRequest, params, uses, newId, now, hash).value.1;
            var found := GetBleskomatLnurl(s', secret, hash);
            && found.Some?
            && var info := InfoResponse(found.value, secret, callbackUrl);
            && info["tag"] == JStr(WithdrawRequest)
            && info["minWithdrawable"] == JInt(params.minWithdrawable)
            && info["maxWithdrawable"] == JInt(params.maxWithdrawable)
            && info["k1"] == JStr(secret)
  {
    MintThenLookup(s, b, secret, WithdrawRequest, params, uses, newId, now, hash);
  }

  /** A link minted with the default number of uses and bounds [1000, 2000]:
      the first redemption with a 1500 msat invoice pays once and succeeds; a second redemption with the
      same secret fails with "Maximum number of uses already reached" and
      pays nothing. */
  lemma SingleUseEndToEnd(s: Store, b: Config, secret: string, description: string,
                          newId: LinkId, now: int, hash: string -> Digest,
                          pr: string, decode: string -> Decoded,
                          pay: (WalletId, string) -> PayOutcome)
    requires Valid(s)
    requires CreateBleskomatLnurl(s, b, secret, WithdrawRequest, WithdrawParams(1000, 2000, description),
                                  newId := newId, now := now, hash := hash).Ok?
    requires ',' !in pr && decode(pr) == Decoded(Some(1500))
    requires pay(b.wallet, pr) == Paid
    ensures var (l, s1) := CreateBleskomatLnurl(s, b, secret, WithdrawRequest, WithdrawParams(1000, 2000, description),
                                                newId := newId, now := now, hash := hash).value;
            && l.initialUses == 1
            && GetBleskomatLnurl(s1, secret, hash) == Some(l)
            && var x1 := ExecuteAction(s1, l, map["pr" := pr], now + 1, decode, pay);
            && x1.outcome == Pass
            && x1.payments == [PayCall(b.wallet, pr)]
            && GetBleskomatLnurl(x1.store, secret, hash).Some?
            && var x2 := ExecuteAction(x1.store, GetBleskomatLnurl(x1.store, secret, hash).value, map["pr" := pr], now + 2, decode, pay);
            && x2.outcome == Fail(MaximumUsesReached)
            && x2.payments == []
  {
    MintThenLookup(s, b, secret, WithdrawRequest, WithdrawParams(1000, 2000, description), 1, newId, now, hash);
  }
}
