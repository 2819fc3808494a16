/** The data-access layer (crud.py) as operations on the two-table store.
    Values that the source draws from `uuid4`, `secrets` and the clock are
    parameters; `hash` stands for `generate_bleskomat_lnurl_hash`. */
module Crud {
  import opened Base
  import opened Models
  import Hex

  /** An INSERT that hits an existing primary key or the unique hash index. */
  datatype DbError = DuplicateKey

  /** The hash function is injective: distinct secrets never share a digest. */
  ghost predicate Injective(hash: string -> Digest)
  {
    forall a, b :: hash(a) == hash(b) ==> a == b
  }

  // ---------------------------------------------------------------------
  // Configurations

  /** `create_bleskomat`: `newId` is the fresh `uuid4().hex`, and the two byte
      strings are the random bytes behind `secrets.token_hex(8)` and
      `secrets.token_hex(32)`. */
  function CreateBleskomat(s: Store, data: ConfigInput, walletId: WalletId, newId: ConfigId,
                           keyIdBytes: seq<Hex.byte>, keySecretBytes: seq<Hex.byte>): (r: Result<(Config, Store), DbError>)
    requires |keyIdBytes| == 8 && |keySecretBytes| == 32
    ensures r.Err? <==> newId in s.configs
    ensures r.Ok? ==>
      var (c, s') := r.value;
      && c.id == newId
      && c.wallet == walletId
      && c.apiKeyEncoding == "hex"
      && |c.apiKeyId| == 16 && Hex.IsHex(c.apiKeyId) && Hex.Decode(c.apiKeyId) == Some(keyIdBytes)
      && |c.apiKeySecret| == 64 && Hex.IsHex(c.apiKeySecret) && Hex.Decode(c.apiKeySecret) == Some(keySecretBytes)
      && InputOf(c) == data
      && s'.configs == s.configs[newId := c]
      && s'.links == s.links
  {
    if newId in s.configs then Err(DuplicateKey)
    else
      Hex.DecodeEncode(keyIdBytes);
      Hex.DecodeEncode(keySecretBytes);
      var c := Config(newId, walletId, Hex.Encode(keyIdBytes), Hex.Encode(keySecretBytes), "hex",
                      data.name, data.fiatCurrency, data.exchangeRateProvider, data.fee);
      Ok((c, s.(configs := s.configs[newId := c])))
  }

  /** `get_bleskomat`: the row with that id, if any. */
  function GetBleskomat(s: Store, id: ConfigId): (r: Option<Config>)
    ensures r.Some? <==> id in s.configs
    ensures r.Some? ==> r.value == s.configs[id]
  {
    if id in s.configs then Some(s.configs[id]) else None
  }

  /** `get_bleskomat_by_api_key_id`: some row whose API key id matches
      (`fetchone` promises no particular one when several match). */
  ghost function GetBleskomatByApiKeyId(s: Store, apiKeyId: string): (r: Option<Config>)
    ensures r.Some? ==> r.value in s.configs.Values && r.value.apiKeyId == apiKeyId
    ensures r.None? <==> forall id :: id in s.configs ==> s.configs[id].apiKeyId != apiKeyId
  {
    if exists id :: id in s.configs && s.configs[id].apiKeyId == apiKeyId then
      var id :| id in s.configs && s.configs[id].apiKeyId == apiKeyId;
      Some(s.configs[id])
    else
      None
  }

  /** The `wallet_ids` argument of `get_bleskomats`: one id or a list. */
  datatype WalletIds = OneWallet(wallet: WalletId) | Wallets(wallets: seq<WalletId>)

  function AsList(ids: WalletIds): seq<WalletId>
  {
    match ids
    case OneWallet(w) => [w]
    case Wallets(ws) => ws
  }

  /** `get_bleskomats`: the rows whose wallet is among `ids` (as a map from id
      to row; the source promises no order). */
  function GetBleskomats(s: Store, ids: WalletIds): (r: map<ConfigId, Config>)
    ensures forall id :: id in r <==> id in s.configs && s.configs[id].wallet in AsList(ids)
    ensures forall id :: id in r ==> r[id] == s.configs[id]
    ensures ids.OneWallet? ==> forall id :: id in r <==> id in s.configs && s.configs[id].wallet == ids.wallet
  {
    var ws := AsList(ids);
    map id | id in s.configs && s.configs[id].wallet in ws :: s.configs[id]
  }

  /** `update_bleskomat`: the UPDATE replaces the whole row with that id;
      when no row has the id it changes nothing. */
  function UpdateBleskomat(s: Store, c: Config): (r: (Config, Store))
    ensures r.0 == c
    ensures c.id in s.configs ==> r.1.configs == s.configs[c.id := c]
    ensures c.id !in s.configs ==> r.1 == s
    ensures r.1.links == s.links
  {
    if c.id in s.configs then (c, s.(configs := s.configs[c.id := c])) else (c, s)
  }

  /** `delete_bleskomat`: removes the row with that id; links are not touched. */
  function DeleteBleskomat(s: Store, id: ConfigId): (s': Store)
    ensures s'.configs.Keys == s.configs.Keys - {id}
    ensures forall k :: k in s'.configs ==> s'.configs[k] == s.configs[k]
    ensures s'.links == s.links
  {
    s.(configs := s.configs - {id})
  }

  // ---------------------------------------------------------------------
  // Withdraw links

  /** `create_bleskomat_lnurl`: mints a link for configuration `b` whose secret
      is `secret`; `newId` is the fresh `uuid4().hex` and `now` the clock.
      Only the digest of the secret is stored. */
  function CreateBleskomatLnurl(s: Store, b: Config, secret: string, tag: string, params: WithdrawParams,
                                uses: int := 1, newId: LinkId, now: int, hash: string -> Digest): (r: Result<(Link, Store), DbError>)
    ensures r.Err? <==> newId in s.links || exists id :: id in s.links && s.links[id].hash == hash(secret)
    ensures r.Ok? ==>
      var (l, s') := r.value;
      && l.id == newId
      && l.bleskomat == b.id && l.wallet == b.wallet && l.apiKeyId == b.apiKeyId
      && l.hash == hash(secret)
      && l.tag == tag && l.params == params
      && l.initialUses == uses && l.remainingUses == uses
      && l.createdTime == now && l.updatedTime == now
      && CounterInvariant(l)
      && s'.links == s.links[newId := l]
      && s'.configs == s.configs
  {
    if newId in s.links || exists id :: id in s.links && s.links[id].hash == hash(secret) then
      Err(DuplicateKey)
    else
      var l := Link(newId, b.id, b.wallet, hash(secret), tag, params, b.apiKeyId, uses, uses, now, now);
      Ok((l, s.(links := s.links[newId := l])))
  }

  /** `get_bleskomat_lnurl`: the link whose stored digest is the digest of the
      presented secret. */
  ghost function GetBleskomatLnurl(s: Store, secret: string, hash: string -> Digest): (r: Option<Link>)
    ensures r.Some? ==> r.value in s.links.Values && r.value.hash == hash(secret)
    ensures r.None? <==> forall id :: id in s.links ==> s.links[id].hash != hash(secret)
  {
    if exists id :: id in s.links && s.links[id].hash == hash(secret) then
      var id :| id in s.links && s.links[id].hash == hash(secret);
      Some(s.links[id])
    else
      None
  }

  // ---------------------------------------------------------------------
  // Properties of the store operations

  /** Every store operation keeps the table guarantees. */
  lemma CreateBleskomatKeepsValid(s: Store, data: ConfigInput, walletId: WalletId, newId: ConfigId,
                                  keyIdBytes: seq<Hex.byte>, keySecretBytes: seq<Hex.byte>)
    requires Valid(s)
    requires |keyIdBytes| == 8 && |keySecretBytes| == 32
    ensures var r := CreateBleskomat(s, data, walletId, newId, keyIdBytes, keySecretBytes);
            r.Ok? ==> Valid(r.value.1)
  {
  }

  lemma UpdateBleskomatKeepsValid(s: Store, c: Config)
    requires Valid(s)
    ensures Valid(UpdateBleskomat(s, c).1)
  {
  }

  lemma DeleteBleskomatKeepsValid(s: Store, id: ConfigId)
    requires Valid(s)
    ensures Valid(DeleteBleskomat(s, id))
  {
  }

  lemma CreateBleskomatLnurlKeepsValid(s: Store, b: Config, secret: string, tag: string, params: WithdrawParams,
                                       uses: int, newId: LinkId, now: int, hash: string -> Digest)
    requires Valid(s)
    ensures var r := CreateBleskomatLnurl(s, b, secret, tag, params, uses, newId, now, hash);
            r.Ok? ==> Valid(r.value.1)
  {
  }

  lemma UseKeepsValid(s: Store, id: LinkId, now: int)
    requires Valid(s)
    ensures Valid(Use(s, id, now).1)
  {
  }

  /** With unique digests, the lookup is determined: the one link holding
      the presented secret's digest. */
  lemma LookupIsUnique(s: Store, secret: string, hash: string -> Digest, id: LinkId)
    requires Valid(s)
    requires id in s.links && s.links[id].hash == hash(secret)
    ensures GetBleskomatLnurl(s, secret, hash) == Some(s.links[id])
  {
  }

  /** Round trip: right after minting with `secret`, presenting `secret`
      finds exactly the minted link. */
  lemma MintThenLookup(s: Store, b: Config, secret: string, tag: string, params: WithdrawParams,
                       uses: int, newId: LinkId, now: int, hash: string -> Digest)
    requires Valid(s)
    requires CreateBleskomatLnurl(s, b, secret, tag, params, uses, newId, now, hash).Ok?
    ensures var (l, s') := CreateBleskomatLnurl(s, b, secret, tag, params, uses, newId, now, hash).value;
            GetBleskomatLnurl(s', secret, hash) == Some(l)
  {
    var (l, s') := CreateBleskomatLnurl(s, b, secret, tag, params, uses, newId, now, hash).value;
    CreateBleskomatLnurlKeepsValid(s, b, secret, tag, params, uses, newId, now, hash);
    LookupIsUnique(s', secret, hash, newId);
  }

  /** Minting does not make any other secret redeemable: with an injective
      hash, a secret that found nothing before still finds nothing. */
  lemma MintDoesNotLeak(s: Store, b: Config, secret: string, tag: string, params: WithdrawParams,
                        uses: int, newId: LinkId, now: int, hash: string -> Digest, other: string)
    requires Injective(hash)
    requires other != secret
    requires GetBleskomatLnurl(s, other, hash).None?
    requires CreateBleskomatLnurl(s, b, secret, tag, params, uses, newId, now, hash).Ok?
    ensures GetBleskomatLnurl(CreateBleskomatLnurl(s, b, secret, tag, params, uses, newId, now, hash).value.1, other, hash).None?
  {
  }

  /** A created configuration can be read back by its id, and some
      configuration is found by its API key id; when no earlier configuration
      shares that key id, the one found is the created one. */
  lemma CreateThenGet(s: Store, data: ConfigInput, walletId: WalletId, newId: ConfigId,
                      keyIdBytes: seq<Hex.byte>, keySecretBytes: seq<Hex.byte>)
    requires |keyIdBytes| == 8 && |keySecretBytes| == 32
    requires newId !in s.configs
    ensures var (c, s') := CreateBleskomat(s, data, walletId, newId, keyIdBytes, keySecretBytes).value;
            && GetBleskomat(s', newId) == Some(c)
            && GetBleskomatByApiKeyId(s', c.apiKeyId).Some?
            && ((forall id :: id in s.configs ==> s.configs[id].apiKeyId != c.apiKeyId) ==>
                  GetBleskomatByApiKeyId(s', c.apiKeyId) == Some(c))
  {
    var (c, s') := CreateBleskomat(s, data, walletId, newId, keyIdBytes, keySecretBytes).value;
    if forall id :: id in s.configs ==> s.configs[id].apiKeyId != c.apiKeyId {
      KeyLookupIsUnique(s', newId);
    }
  }

  /** When no other configuration shares its API key id, looking that key id
      up finds exactly this configuration. */
  lemma KeyLookupIsUnique(s: Store, id: ConfigId)
    requires id in s.configs
    requires forall k :: k in s.configs && k != id ==> s.configs[k].apiKeyId != s.configs[id].apiKeyId
    ensures GetBleskomatByApiKeyId(s, s.configs[id].apiKeyId) == Some(s.configs[id])
  {
    var found := GetBleskomatByApiKeyId(s, s.configs[id].apiKeyId).value;
    var k :| k in s.configs && s.configs[k] == found;
  }
}
