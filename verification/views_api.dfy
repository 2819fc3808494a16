/** The admin handlers (views_api.py) with HTTP replaced by result values.
    The caller is the wallet the admin key belongs to; a configuration is
    visible to a caller only when its `wallet` is the caller's wallet. */
module ViewsApi {
  import opened Base
  import opened Models
  import opened Crud
  import Hex

  datatype ApiError =
    | NotFound                                      // 404 "Bleskomat configuration not found."
    | Unprocessable(errors: seq<InputError>)        // the request body failed the CreateBleskomat validators
    | RateFetchFailed(currency: string, provider: string)  // 500 "Failed to fetch BTC/<currency> ..."
    | StoreFailed(error: DbError)                   // the INSERT raised

  /** Fresh values a create draws: the uuid and the random key bytes. */
  datatype Draws = Draws(configId: ConfigId, keyIdBytes: seq<Hex.byte>, keySecretBytes: seq<Hex.byte>)

  predicate WellFormedDraws(f: Draws)
  {
    |f.keyIdBytes| == 8 && |f.keySecretBytes| == 32
  }

  /** True when the configuration with that id exists and belongs to `caller`. */
  predicate Owns(s: Store, id: ConfigId, caller: WalletId)
  {
    id in s.configs && s.configs[id].wallet == caller
  }

  /** `api_bleskomats`: the caller's configurations, or with `allWallets` those
      of every wallet of the caller's user; `userWallets` is what `get_user`
      returned (None when no user was found). */
  function ApiBleskomats(s: Store, caller: WalletId, allWallets: bool, userWallets: Option<seq<WalletId>>): (r: map<ConfigId, Config>)
    ensures !allWallets ==> forall id :: id in r <==> Owns(s, id, caller)
    ensures allWallets && userWallets.None? ==> r == map[]
    ensures allWallets && userWallets.Some? ==>
              forall id :: id in r <==> id in s.configs && s.configs[id].wallet in userWallets.value
    ensures forall id :: id in r ==> id in s.configs && r[id] == s.configs[id]
  {
    var ids :=
      if !allWallets then [caller]
      else match userWallets
        case Some(ws) => ws
        case None => [];
    GetBleskomats(s, Wallets(ids))
  }

  /** `api_bleskomat_retrieve`. */
  function ApiRetrieve(s: Store, id: ConfigId, caller: WalletId): (r: Result<Config, ApiError>)
    ensures r.Ok? <==> Owns(s, id, caller)
    ensures r.Ok? ==> r.value == s.configs[id]
    ensures r.Err? ==> r.error == NotFound
  {
    match GetBleskomat(s, id)
    case Some(b) => if b.wallet != caller then Err(NotFound) else Ok(b)
    case None => Err(NotFound)
  }

  /** Whether `bleskomat_id` selects the update path: Python treats both a
      missing id and the empty string as false. */
  predicate IsUpdate(id: Option<ConfigId>)
  {
    id.Some? && id.value != ""
  }

  /** `api_bleskomat_create_or_update`: the request body passes the
      `CreateBleskomat` validators, then the exchange rate for its currency and
      provider is fetched (`fetchOk` says whether `fetch_fiat_exchange_rate`
      returned), and only then is anything written. */
  function ApiCreateOrUpdate(s: Store, data: ConfigInput, caller: WalletId, id: Option<ConfigId>,
                             currencies: set<string>, providers: set<string>,
                             fetchOk: (string, string) -> bool, draws: Draws): (r: (Result<Config, ApiError>, Store))
    requires Valid(s) && WellFormedDraws(draws)
    ensures Valid(r.1)
    ensures r.0.Err? ==> r.1 == s
    ensures ValidateInput(data, currencies, providers) != [] ==>
              r.0 == Err(Unprocessable(ValidateInput(data, currencies, providers)))
    ensures ValidateInput(data, currencies, providers) == [] && !fetchOk(data.fiatCurrency, data.exchangeRateProvider) ==>
              r.0 == Err(RateFetchFailed(data.fiatCurrency, data.exchangeRateProvider))
    ensures r.0.Ok? ==>
              ValidateInput(data, currencies, providers) == [] && fetchOk(data.fiatCurrency, data.exchangeRateProvider)
    ensures r.0.Ok? ==> InputOf(r.0.value) == data && r.0.value.wallet == caller && r.1.links == s.links
    ensures r.0.Ok? ==> r.1.configs == s.configs[r.0.value.id := r.0.value]
    ensures IsUpdate(id) ==> (r.0 == Err(NotFound) <==>
              ValidateInput(data, currencies, providers) == [] && fetchOk(data.fiatCurrency, data.exchangeRateProvider)
              && !Owns(s, id.value, caller))
    ensures IsUpdate(id) && r.0.Ok? ==>
              var prev := s.configs[id.value];
              && Owns(s, id.value, caller)
              && r.0.value == prev.(name := data.name, fiatCurrency := data.fiatCurrency,
                                   exchangeRateProvider := data.exchangeRateProvider, fee := data.fee)
    ensures !IsUpdate(id) && r.0.Ok? ==> r.0.value.id == draws.configId && draws.configId !in s.configs
    ensures !IsUpdate(id) && r.0.Ok? ==>
              && r.0.value.apiKeyEncoding == "hex"
              && Hex.Decode(r.0.value.apiKeyId) == Some(draws.keyIdBytes)
              && Hex.Decode(r.0.value.apiKeySecret) == Some(draws.keySecretBytes)
    ensures r.0 == Err(NotFound) ==> IsUpdate(id)
    ensures (&& ValidateInput(data, currencies, providers) == []
             && fetchOk(data.fiatCurrency, data.exchangeRateProvider)
             && (if IsUpdate(id) then Owns(s, id.value, caller) else draws.configId !in s.configs)) ==> r.0.Ok?
    ensures r.0.Err? && r.0.error.Unprocessable? ==> ValidateInput(data, currencies, providers) != []
    ensures r.0.Err? && r.0.error.RateFetchFailed? ==>
              ValidateInput(data, currencies, providers) == [] && !fetchOk(data.fiatCurrency, data.exchangeRateProvider)
    ensures r.0.Err? && r.0.error.StoreFailed? ==>
              && ValidateInput(data, currencies, providers) == [] && fetchOk(data.fiatCurrency, data.exchangeRateProvider)
              && !IsUpdate(id) && draws.configId in s.configs
  {
    var errors := ValidateInput(data, currencies, providers);
    if errors != [] then (Err(Unprocessable(errors)), s)
    else if !fetchOk(data.fiatCurrency, data.exchangeRateProvider) then
      (Err(RateFetchFailed(data.fiatCurrency, data.exchangeRateProvider)), s)
    else if IsUpdate(id) then
      match GetBleskomat(s, id.value)
      case None => (Err(NotFound), s)
      case Some(b) =>
        if b.wallet != caller then (Err(NotFound), s)
        else
          var edited := b.(name := data.name, fiatCurrency := data.fiatCurrency,
                           exchangeRateProvider := data.exchangeRateProvider, fee := data.fee);
          var (updated, s') := UpdateBleskomat(s, edited);
          UpdateBleskomatKeepsValid(s, edited);
          (Ok(updated), s')
    else
      CreateBleskomatKeepsValid(s, data, caller, draws.configId, draws.keyIdBytes, draws.keySecretBytes);
      match CreateBleskomat(s, data, caller, draws.configId, draws.keyIdBytes, draws.keySecretBytes)
      case Ok((c, s')) => (Ok(c), s')
      case Err(e) => (Err(StoreFailed(e)), s)
  }

  /** `api_bleskomat_delete`. */
  function ApiDelete(s: Store, id: ConfigId, caller: WalletId): (r: (Outcome<ApiError>, Store))
    ensures Valid(s) ==> Valid(r.1)
    ensures r.0.Pass? <==> Owns(s, id, caller)
    ensures r.0.Fail? ==> r.0.error == NotFound && r.1 == s
    ensures r.0.Pass? ==> r.1.configs == s.configs - {id} && r.1.links == s.links
  {
    match GetBleskomat(s, id)
    case Some(b) => if b.wallet != caller then (Fail(NotFound), s) else (Pass, DeleteBleskomat(s, id))
    case None => (Fail(NotFound), s)
  }

  // ---------------------------------------------------------------------
  // How the handlers fit together

  /** Listing one's own configurations shows exactly those that retrieve
      would return, with the same contents. */
  lemma ListingAgreesWithRetrieve(s: Store, caller: WalletId, userWallets: Option<seq<WalletId>>, id: ConfigId)
    ensures var listed := ApiBleskomats(s, caller, false, userWallets);
            && (id in listed <==> ApiRetrieve(s, id, caller).Ok?)
            && (id in listed ==> ApiRetrieve(s, id, caller) == Ok(listed[id]))
  {
  }

  /** After a successful update, retrieve returns the edited record: the four
      submitted fields, with id, wallet and API key fields as before. */
  lemma UpdateThenRetrieve(s: Store, data: ConfigInput, caller: WalletId, id: ConfigId,
                           currencies: set<string>, providers: set<string>,
                           fetchOk: (string, string) -> bool, draws: Draws)
    requires Valid(s) && WellFormedDraws(draws) && id != ""
    requires ApiCreateOrUpdate(s, data, caller, Some(id), currencies, providers, fetchOk, draws).0.Ok?
    ensures var (r, s') := ApiCreateOrUpdate(s, data, caller, Some(id), currencies, providers, fetchOk, draws);
            var prev := s.configs[id];
            && ApiRetrieve(s', id, caller) == r
            && InputOf(r.value) == data
            && r.value.id == prev.id && r.value.wallet == prev.wallet
            && r.value.apiKeyId == prev.apiKeyId && r.value.apiKeySecret == prev.apiKeySecret
            && r.value.apiKeyEncoding == prev.apiKeyEncoding
  {
  }

  /** A created configuration belongs to the caller and can be retrieved by
      the caller, and by no other wallet. */
  lemma CreateThenRetrieve(s: Store, data: ConfigInput, caller: WalletId, other: WalletId,
                           currencies: set<string>, providers: set<string>,
                           fetchOk: (string, string) -> bool, draws: Draws)
    requires Valid(s) && WellFormedDraws(draws) && other != caller
    requires ValidateInput(data, currencies, providers) == [] && fetchOk(data.fiatCurrency, data.exchangeRateProvider)
    requires draws.configId !in s.configs
    ensures var (r, s') := ApiCreateOrUpdate(s, data, caller, None, currencies, providers, fetchOk, draws);
            && ApiRetrieve(s', r.value.id, caller) == r
            && ApiRetrieve(s', r.value.id, other) == Err(NotFound)
  {
  }

  /** After a delete, the configuration can no longer be retrieved, and the
      caller's other configurations are still there. */
  lemma DeleteThenRetrieve(s: Store, id: ConfigId, caller: WalletId, other: ConfigId)
    requires ApiDelete(s, id, caller).0.Pass?
    requires other != id
    ensures var s' := ApiDelete(s, id, caller).1;
            && ApiRetrieve(s', id, caller) == Err(NotFound)
            && ApiRetrieve(s', other, caller) == ApiRetrieve(s, other, caller)
  {
  }
}
