# Bleskomat withdraw links, modelled in Dafny

This project models the LNbits Bleskomat extension. An operator creates a
configuration (a "bleskomat") owned by one of their wallets. Against that
configuration the system mints withdraw links (`BleskomatLnurl`). A link is a
voucher bound to a random secret, and only the secret's hash is stored. A
wallet app presents the secret to read the link's withdraw metadata. It then
submits a bolt11 payment request, which is validated against the link's bounds
and paid from the owning wallet. The link allows at most `initial_uses`
redemptions when `initial_uses` is positive; `execute_action` never counts
down a link with `initial_uses <= 0`, and `initial_uses == 0` means unlimited.

Everything is a pure function over an immutable `Store`, which holds two maps:
configurations keyed by id and links keyed by id. The conditional SQL UPDATE
behind `use` is one indivisible step, so a concurrent schedule is a sequence of
such steps. `UseCounting` proves the "exactly `min(N, M)` successes" guarantee
over every such sequence.

External collaborators are parameters:

- `bolt11.decode` is `decode: string -> Decoded`. It has three outcomes: an
  invoice, whose amount may be absent; a `ValueError` (`DecodeValueError`),
  which `validate_action` turns into "Invalid parameter"; or any other
  exception (`DecodeRaised`), which escapes unclassified as `DecodeCrashed`.
- `pay_invoice` is `pay: (WalletId, string) -> PayOutcome`. Its outcomes are
  paid, a classified refusal with a reason, or any other exception.
- `generate_bleskomat_lnurl_hash` is `hash: string -> Digest`. The lemma that
  needs injectivity requires it through `Crud.Injective`.
- `fetch_fiat_exchange_rate` is `fetchOk: (string, string) -> bool`: whether the
  fetch for that currency and provider returned.
- The currency and provider registries are the sets of their keys.
- The clock, `uuid4().hex`, the bytes behind `secrets.token_hex`, the caller's
  wallet and the callback URL are plain arguments.

Modules: `Base` (Option/Result/Outcome), `Hex` (the lower-case hex rendering of
`secrets.token_hex`), `Models` (records, store, validators, link behaviour),
`Crud` (crud.py), `ViewsApi` (views_api.py), `UseCounting` (interleavings) and
`Scenarios` (mint, look up, redeem).

Notes on the source:

- `execute_action` consumes a use only when `initial_uses > 0`, while
  `has_uses_remaining` (models.py:68-70) tests `initial_uses == 0`. So a link
  minted with negative uses is never counted down, pays on every accepted
  redemption, and yet reports no uses remaining
  (`UseCounting.NegativeUsesNeverCounted`).
- `validate_action` catches only `ValueError` from `bolt11.decode`. Any other
  exception, and the `TypeError` from comparing an amountless invoice's `None`
  amount with an integer, escapes without becoming an `LnurlValidationError`.
  Neither reaches `use` or `pay_invoice`.
- For a tag other than `withdrawRequest`, the info response is `{"tag": tag}`.
- Error messages are the source's own strings (`Models.Message`); `Models.ActionMessages` states which one a redemption produces.
- A failed rate fetch yields a message naming the currency pair and the
  provider, not the provider's own error.
- `params` is a record beside a free `tag` string, as stored, not a union
  keyed by tag.

## Model

| member | source | states |
|---|---|---|
| `Models.ValidateInput` | models.py:24-34 | the `CreateBleskomat` input is accepted iff its currency is a key of the currency registry and its provider a key of the provider registry; each failing field is reported, currency before provider |
| `Models.HasUsesRemaining` | models.py:68-70 | zero initial uses means uses remain; a link with positive initial uses has uses remaining iff its count is positive; under the counter invariant a link with negative initial uses never has any |
| `Models.Use` | models.py:135-145 | `use` succeeds iff the stored row exists with `remaining_uses > 0`; success lowers `remaining_uses` by exactly 1, sets `updated_time := now`, and changes no other field or row; failure leaves the store unchanged; the count never goes below 0 |
| `Models.InfoResponse` | models.py:72-81 | the response always carries `tag`; for `withdrawRequest` its keys are exactly tag, both bounds, defaultDescription, callback and `k1`, with the link's params, the request's callback URL and `k1 == secret`; for other tags it is only `tag` |
| `Models.ValidateAction` | models.py:83-111 | passes exactly when the tag is `withdrawRequest` and a single `pr` decodes to an amount in `[minWithdrawable, maxWithdrawable]`; each failure branch (missing `pr`, comma, `ValueError` from decoding, any other decoding exception carrying that exception's text, below min, above max, unknown subprotocol, amountless invoice) yields its own error, and an invalid request is reported iff the decoder raised `ValueError` |
| `Models.ExecuteAction` | models.py:113-133 | a validation failure changes nothing and pays nothing; an unlimited link is never consumed; a limited link whose `use` fails gives "Maximum number of uses already reached" and pays nothing; otherwise `pay_invoice` is called once with the link's wallet and `pr`, and refusals become `PaymentFailed(reason)` and anything else `UnexpectedError`, while the consumed use stays consumed; an error that escapes unclassified comes from validation alone, so it changes nothing and pays nothing |
| `Models.ActionMessages` | models.py:87-133 | the message a wallet app receives: a missing `pr` names the parameter; an accepted request that pays nothing reports that the maximum number of uses was reached; a refused payment reads "Failed to pay invoice: " followed by the refusal's reason; a crashed payment reads "Unexpected error" |
| `Crud.CreateBleskomat` | crud.py:11-25 | the stored configuration has the given id, `wallet := wallet_id`, encoding `"hex"`, a 16-hex-digit key id and a 64-hex-digit key secret that decode back to the random bytes, and the four input fields; a duplicate id is rejected; links are untouched |
| `Hex.Encode` | crud.py:13-14 | `token_hex` renders `n` bytes as exactly `2n` lower-case hex digits |
| `Hex.DecodeEncode` | crud.py:13-14 | a `token_hex` key decodes back to exactly the random bytes it was drawn from |
| `Crud.GetBleskomat` | crud.py:28-33 | returns the row stored under the id, or None when there is none |
| `Crud.GetBleskomatByApiKeyId` | crud.py:36-41 | returns some configuration with that API key id, and None exactly when no configuration has it |
| `Crud.GetBleskomats` | crud.py:44-51 | returns exactly the configurations whose wallet is among the given ids, unchanged; a single id behaves as a one-element list |
| `Crud.UpdateBleskomat` | crud.py:54-56 | a full replace of the row at the record's id; with no such row nothing changes; links are untouched |
| `Crud.DeleteBleskomat` | crud.py:59-62 | removes only the configuration with that id and leaves every other configuration and every link untouched |
| `Crud.CreateBleskomatLnurl` | crud.py:65-85 | `uses` defaults to 1; the minted link has `initial_uses == remaining_uses == uses`, `created_time == updated_time == now`, and bleskomat, wallet and api_key_id copied from the configuration; it stores `hash(secret)` and satisfies the counter invariant; a duplicate id or digest is rejected |
| `Crud.GetBleskomatLnurl` | crud.py:88-94 | returns a link whose stored digest is the presented secret's digest, and None exactly when no link has it |
| `Crud.CreateBleskomatKeepsValid` | crud.py:11-25 | creating a configuration keeps the table guarantees (rows under their own id, unique digests, counter invariant) |
| `Crud.UpdateBleskomatKeepsValid` | crud.py:54-56 | a full replace keeps the table guarantees |
| `Crud.DeleteBleskomatKeepsValid` | crud.py:59-62 | a delete keeps the table guarantees |
| `Crud.CreateBleskomatLnurlKeepsValid` | crud.py:65-85 | minting keeps the table guarantees, including `remaining_uses <= initial_uses` |
| `Crud.UseKeepsValid` | models.py:135-145 | the atomic decrement keeps the table guarantees, including the counter invariant |
| `Crud.LookupIsUnique` | crud.py:88-94 | with unique digests, the lookup returns the one link holding the secret's digest |
| `Crud.MintThenLookup` | crud.py:65-94 | round trip: right after minting with a secret, looking up that secret returns the minted link |
| `Crud.MintDoesNotLeak` | crud.py:69-94 | with an injective hash, minting for one secret never makes a different, previously unknown secret find a link |
| `Crud.CreateThenGet` | crud.py:11-41 | a created configuration is found again by its id; looking up its API key id finds some configuration, and finds the created one when no earlier configuration shares that key id |
| `Crud.KeyLookupIsUnique` | crud.py:36-41 | when no other configuration shares a configuration's API key id, the lookup by that key id returns exactly that configuration |
| `UseCounting.UseCountExact` | models.py:135-145 | over any sequence of `use` calls, interleaved with calls on other links, a link with `n >= 0` uses left succeeds exactly `min(n, M)` times out of its `M` attempts and ends at `n - min(n, M)`, with no other field changed but `updated_time` |
| `UseCounting.SameLinkAttempts` | models.py:139-145 | `M` attempts on one link with `N` uses left give exactly `min(N, M)` successes; the count ends at `N - min(N, M) >= 0`, and at 0 when `M >= N` |
| `UseCounting.PaymentsBoundedByUses` | models.py:113-145 | redemptions of one limited link, from any stale copies, reach `pay_invoice` exactly `min(n, accepted)` times, whatever the payment result; the count ends at `n - min(n, accepted)`, and at most `n` redemptions succeed |
| `UseCounting.HasUsesRemainingPredictsUse` | models.py:68-70 | for a stored limited link, `has_uses_remaining` (`Models.HasUsesRemaining`) holds iff the next `use` succeeds; an unlimited link always has uses remaining and its `use` never succeeds |
| `UseCounting.NegativeUsesNeverCounted` | models.py:113-133 | a link minted with negative uses reports no uses remaining, yet every accepted redemption calls `pay_invoice` exactly once with the link's wallet and `pr` and leaves the store unchanged, succeeding iff the payment does |
| `UseCounting.ExhaustedLinkNeverPays` | models.py:117-120 | on a limited link with no uses left, `execute_action` never calls `pay_invoice` and leaves the store unchanged; an acceptable request fails with "Maximum number of uses already reached" |
| `ViewsApi.ApiBleskomats` | views_api.py:23-34 | without `all_wallets`, lists exactly the caller's configurations; with it, those of the user's wallets, and none when no user is found |
| `ViewsApi.ApiRetrieve` | views_api.py:37-49 | returns the stored record iff it exists and belongs to the caller's wallet, otherwise NotFound |
| `ViewsApi.ApiCreateOrUpdate` | views_api.py:52-90 | input validation, then the rate fetch; either failing returns an error with the store unchanged; an update of a missing or foreign id is NotFound with the store unchanged; a successful update changes only the four input fields; a create assigns the new configuration to the caller, with encoding "hex" and key id and secret that decode back to the drawn random bytes; NotFound arises only on the update path; valid input with a returning rate fetch succeeds on an update of one's own configuration and on a create with a fresh id; each error arises only on its own branch (Unprocessable only on invalid input, the rate error only when the fetch fails after valid input, a store error only on a create whose id is taken); the table guarantees are kept |
| `ViewsApi.ApiDelete` | views_api.py:93-105 | removes exactly the id iff it exists and belongs to the caller; otherwise NotFound and nothing removed; links are never touched |
| `ViewsApi.ListingAgreesWithRetrieve` | views_api.py:28-49 | one's own listing contains an id iff retrieve succeeds for it, with the same record |
| `ViewsApi.UpdateThenRetrieve` | views_api.py:75-85 | after a successful update, retrieve returns the edited record, with id, wallet and all API key fields preserved |
| `ViewsApi.CreateThenRetrieve` | views_api.py:86-87 | a created configuration can be retrieved by its creator and by no other wallet |
| `ViewsApi.DeleteThenRetrieve` | views_api.py:97-105 | after a delete, retrieve of that id is NotFound and every other id retrieves as before |
| `Scenarios.MintedLinkInfo` | models.py:72-81 | right after minting a withdraw link, presenting the secret yields metadata with both bounds and `k1` equal to the secret |
| `Scenarios.SingleUseEndToEnd` | models.py:113-145 | a link minted with the default `uses = 1` and bounds [1000, 2000]: a 1500 msat redemption succeeds with exactly one payment; a second one fails with "Maximum number of uses already reached" and pays nothing |

## Left out

- views.py, `__init__.py` and tests/test_init.py: template rendering and router wiring, with no logic to model.
- views_lnurl.py, which routes wallet-app requests to the lookup and to `execute_action`, is not part of this model. `Scenarios` composes the lookup, the info response and the action directly.
- The internals of `bolt11.decode`, `pay_invoice`, `generate_bleskomat_lnurl_hash`, `get_callback_url` and the exchange-rate providers are foreign code. They are parameters of the model.
- The hash is not shown to be one-way or different from its input; only injectivity is assumed, where a lemma needs it.
- The rate value itself is not modelled, only whether the fetch returned, because the handler discards the value.
- JSON encoding of `params`: a link stores a decoded record. A malformed blob or a missing key (a `KeyError`) is not modelled.
- The unique index on the link hash lives in migrations, which are not part of this model. It is modelled as an insert failure on a duplicate digest (`DuplicateKey`).
- Real concurrency, the async connection and the SQL engine. Each `use` is one atomic step, and interleavings are sequences of steps.
- SQL string building in `get_bleskomats`: it is a set filter. Quoting of wallet ids and engine-specific handling of an empty `IN ()` list are not modelled; an empty list matches nothing.
- HTTP status codes, FastAPI request parsing and the `require_admin_key` decorator. The caller's wallet is a parameter, and errors are result values.
- The fee validator: `fee` is declared `str`, so its type check always passes. It contributes no error.
- `logger.error` calls: logging has no observable effect on results.
- `pay_invoice`'s effect on wallet balances. Only the call and its outcome are modelled.
- Crud.GetBleskomatByApiKeyId: when several configurations share an API key id, it promises only "some match", as `fetchone` does. No unique index on that column is visible.
