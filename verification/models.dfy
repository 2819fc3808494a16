/** The records of the Bleskomat extension and the behaviour of a withdraw
    link (`BleskomatLnurl`): use counting, the info response, validation of a
    submitted payment request, and the validate / consume / pay order of an
    action. The database is a pair of tables keyed by row id; the conditional
    UPDATE behind `use` is one indivisible step on that store. */
module Models {
  import opened Base

  type WalletId = string
  type ConfigId = string
  type LinkId = string
  type Digest = string

  const WithdrawRequest: string := "withdrawRequest"

  /** An operator configuration (`Bleskomat`). */
  datatype Config = Config(
    id: ConfigId,
    wallet: WalletId,
    apiKeyId: string,
    apiKeySecret: string,
    apiKeyEncoding: string,
    name: string,
    fiatCurrency: string,
    exchangeRateProvider: string,
    fee: string)

  /** The four user-supplied fields of a configuration (`CreateBleskomat`). */
  datatype ConfigInput = ConfigInput(
    name: string,
    fiatCurrency: string,
    exchangeRateProvider: string,
    fee: string)

  /** The user-supplied part of a stored configuration. */
  function InputOf(c: Config): ConfigInput
  {
    ConfigInput(c.name, c.fiatCurrency, c.exchangeRateProvider, c.fee)
  }

  /** The decoded `params` blob of a withdraw link. */
  datatype WithdrawParams = WithdrawParams(
    minWithdrawable: int,
    maxWithdrawable: int,
    defaultDescription: string)

  /** A withdraw link (`BleskomatLnurl`); only the hash of its secret is kept. */
  datatype Link = Link(
    id: LinkId,
    bleskomat: ConfigId,
    wallet: WalletId,
    hash: Digest,
    tag: string,
    params: WithdrawParams,
    apiKeyId: string,
    initialUses: int,
    remainingUses: int,
    createdTime: int,
    updatedTime: int)

  /** The two tables, each keyed by the row's `id` column. */
  datatype Store = Store(configs: map<ConfigId, Config>, links: map<LinkId, Link>)

  /** The counter invariant of a link: a limited link counts down from
      `initialUses` to 0; a link minted with `initialUses <= 0` never moves. */
  predicate CounterInvariant(l: Link)
  {
    Min(0, l.initialUses) <= l.remainingUses <= l.initialUses
  }

  /** What the tables guarantee: rows sit under their own id, the hash column
      is unique, and every link satisfies the counter invariant. */
  predicate Valid(s: Store)
  {
    && (forall id :: id in s.configs ==> s.configs[id].id == id)
    && (forall id :: id in s.links ==> s.links[id].id == id && CounterInvariant(s.links[id]))
    && (forall a, b :: a in s.links && b in s.links && s.links[a].hash == s.links[b].hash ==> a == b)
  }

  // ---------------------------------------------------------------------
  // CreateBleskomat validators

  datatype InputError = NotAllowedCurrency | NotAllowedProvider

  /** The field validators of `CreateBleskomat`; every failing field is
      reported, currency before provider. `currencies` and `providers` are the key sets of
      the currency and provider registries. The fee validator accepts every
      string, so it contributes no error. */
  function ValidateInput(data: ConfigInput, currencies: set<string>, providers: set<string>): (errors: seq<InputError>)
    ensures errors == [] <==> data.fiatCurrency in currencies && data.exchangeRateProvider in providers
    ensures NotAllowedCurrency in errors <==> data.fiatCurrency !in currencies
    ensures NotAllowedProvider in errors <==> data.exchangeRateProvider !in providers
    ensures |errors| <= 2
    ensures |errors| == 2 ==> errors == [NotAllowedCurrency, NotAllowedProvider]
  {
    (if data.fiatCurrency in currencies then [] else [NotAllowedCurrency])
    + (if data.exchangeRateProvider in providers then [] else [NotAllowedProvider])
  }

  // ---------------------------------------------------------------------
  // Use counting

  /** `has_uses_remaining`: zero initial uses means unlimited. Under the
      counter invariant a limited link has uses left exactly while its count is
      positive, and a link minted with negative uses never has any. */
  function HasUsesRemaining(l: Link): (b: bool)
    ensures l.initialUses == 0 ==> b
    ensures l.initialUses > 0 ==> (b <==> l.remainingUses > 0)
    ensures CounterInvariant(l) && l.initialUses < 0 ==> !b
  {
    l.initialUses == 0 || l.remainingUses > 0
  }

  /** `use`: the atomic `remaining_uses - 1 WHERE id = :id AND remaining_uses > 0`.
      Returns whether a row was affected, and the store afterwards. */
  function Use(s: Store, id: LinkId, now: int): (r: (bool, Store))
    ensures r.0 <==> id in s.links && s.links[id].remainingUses > 0
    ensures !r.0 ==> r.1 == s
    ensures r.1.configs == s.configs && r.1.links.Keys == s.links.Keys
    ensures r.0 ==> r.1.links[id] == s.links[id].(remainingUses := s.links[id].remainingUses - 1, updatedTime := now)
    ensures r.0 ==> r.1.links[id].remainingUses >= 0
    ensures forall other :: other in s.links && other != id ==> r.1.links[other] == s.links[other]
  {
    if id in s.links && s.links[id].remainingUses > 0 then
      var l := s.links[id];
      (true, s.(links := s.links[id := l.(remainingUses := l.remainingUses - 1, updatedTime := now)]))
    else
      (false, s)
  }

  // ---------------------------------------------------------------------
  // Info response

  /** A JSON value of the info response. */
  datatype JsonValue = JInt(i: int) | JStr(s: string)

  const WithdrawInfoKeys: set<string> :=
    {"tag", "minWithdrawable", "maxWithdrawable", "defaultDescription", "callback", "k1"}

  /** `get_info_response_object`: `callbackUrl` is what `get_callback_url`
      derives from the incoming request. */
  function InfoResponse(l: Link, secret: string, callbackUrl: string): (r: map<string, JsonValue>)
    ensures "tag" in r && r["tag"] == JStr(l.tag)
    ensures l.tag != WithdrawRequest ==> r.Keys == {"tag"}
    ensures l.tag == WithdrawRequest ==>
      && r.Keys == WithdrawInfoKeys
      && r["minWithdrawable"] == JInt(l.params.minWithdrawable)
      && r["maxWithdrawable"] == JInt(l.params.maxWithdrawable)
      && r["defaultDescription"] == JStr(l.params.defaultDescription)
      && r["callback"] == JStr(callbackUrl)
      && r["k1"] == JStr(secret)
  {
    var response := map["tag" := JStr(l.tag)];
    if l.tag == WithdrawRequest then
      response["minWithdrawable" := JInt(l.params.minWithdrawable)]
              ["maxWithdrawable" := JInt(l.params.maxWithdrawable)]
              ["defaultDescription" := JStr(l.params.defaultDescription)]
              ["callback" := JStr(callbackUrl)]
              ["k1" := JStr(secret)]
    else
      response
  }

  // ---------------------------------------------------------------------
  // Validating and executing an action

  /** What `bolt11.decode` does: returns an invoice, whose amount is absent
      for an amountless invoice; raises `ValueError`, which `validate_action`
      turns into a validation error; or raises anything else, which escapes. */
  datatype Decoded = Decoded(amountMsat: Option<int>) | DecodeValueError | DecodeRaised(detail: string)

  /** The failures of an action. All are raised as `LnurlValidationError`
      except two that escape `validate_action` unclassified: `AmountlessInvoice`
      (comparing a missing amount with an integer raises `TypeError`) and
      `DecodeCrashed` (an exception other than `ValueError` from the decoder). */
  datatype ActionError =
    | MissingParameter(field: string)
    | MultiplePaymentRequests
    | InvalidPaymentRequest
    | AmountBelowMinimum
    | AmountAboveMaximum
    | UnknownSubprotocol(tag: string)
    | MaximumUsesReached
    | PaymentFailed(reason: string)
    | UnexpectedError
    | AmountlessInvoice
    | DecodeCrashed(detail: string)

  predicate IsLnurlValidationError(e: ActionError)
  {
    !e.AmountlessInvoice? && !e.DecodeCrashed?
  }

  /** The message each error carries; for the two unclassified errors it is
      the text of the escaping exception. */
  function Message(e: ActionError): string
  {
    match e
    case MissingParameter(field) => "Missing required parameter: \"" + field + "\""
    case MultiplePaymentRequests => "Multiple payment requests not supported"
    case InvalidPaymentRequest => "Invalid parameter (\"pr\"): Lightning payment request expected"
    case AmountBelowMinimum => "Amount in invoice must be greater than or equal to \"minWithdrawable\""
    case AmountAboveMaximum => "Amount in invoice must be less than or equal to \"maxWithdrawable\""
    case UnknownSubprotocol(tag) => "Unknown subprotocol: \"" + tag + "\""
    case MaximumUsesReached => "Maximum number of uses already reached"
    case PaymentFailed(reason) => "Failed to pay invoice: " + reason
    case UnexpectedError => "Unexpected error"
    case AmountlessInvoice => "'<' not supported between instances of 'NoneType' and 'int'"
    case DecodeCrashed(detail) => detail
  }

  /** The amount of the single invoice a query submits, when it submits one
      that decodes and carries an amount. */
  function SubmittedAmount(query: map<string, string>, decode: string -> Decoded): Option<int>
  {
    if "pr" in query && ',' !in query["pr"] && decode(query["pr"]).Decoded? then
      decode(query["pr"]).amountMsat
    else
      None
  }

  /** The withdraw request a link would accept: a single payment request that
      decodes to an invoice whose amount lies within the link's bounds. */
  predicate Acceptable(l: Link, query: map<string, string>, decode: string -> Decoded)
  {
    && l.tag == WithdrawRequest
    && SubmittedAmount(query, decode).Some?
    && l.params.minWithdrawable <= SubmittedAmount(query, decode).value <= l.params.maxWithdrawable
  }

  /** `validate_action`; `decode` is `bolt11.decode`. */
  function ValidateAction(l: Link, query: map<string, string>, decode: string -> Decoded): (r: Outcome<ActionError>)
    ensures r.Pass? <==> Acceptable(l, query, decode)
    ensures l.tag != WithdrawRequest ==> r == Fail(UnknownSubprotocol(l.tag))
    ensures l.tag == WithdrawRequest && "pr" !in query ==> r == Fail(MissingParameter("pr"))
    ensures l.tag == WithdrawRequest && "pr" in query && ',' in query["pr"] ==> r == Fail(MultiplePaymentRequests)
    ensures r == Fail(InvalidPaymentRequest) <==>
              l.tag == WithdrawRequest && "pr" in query && ',' !in query["pr"] && decode(query["pr"]) == DecodeValueError
    ensures r.Fail? && r.error.DecodeCrashed? <==>
              l.tag == WithdrawRequest && "pr" in query && ',' !in query["pr"] && decode(query["pr"]).DecodeRaised?
    ensures r.Fail? && r.error.DecodeCrashed? ==> r.error.detail == decode(query["pr"]).detail
    ensures r == Fail(AmountlessInvoice) <==>
              l.tag == WithdrawRequest && "pr" in query && ',' !in query["pr"] && decode(query["pr"]) == Decoded(None)
    ensures r == Fail(AmountBelowMinimum) <==>
              l.tag == WithdrawRequest && SubmittedAmount(query, decode).Some?
              && SubmittedAmount(query, decode).value < l.params.minWithdrawable
    ensures r == Fail(AmountAboveMaximum) <==>
              l.tag == WithdrawRequest && SubmittedAmount(query, decode).Some?
              && l.params.minWithdrawable <= SubmittedAmount(query, decode).value
              && l.params.maxWithdrawable < SubmittedAmount(query, decode).value
    ensures r.Fail? ==> !r.error.MaximumUsesReached? && !r.error.PaymentFailed? && !r.error.UnexpectedError?
  {
    if l.tag == WithdrawRequest then
      if "pr" !in query then Fail(MissingParameter("pr"))
      else
        var pr := query["pr"];
        if ',' in pr then Fail(MultiplePaymentRequests)
        else match decode(pr)
          case DecodeValueError => Fail(InvalidPaymentRequest)
          case DecodeRaised(detail) => Fail(DecodeCrashed(detail))
          case Decoded(amountMsat) =>
            match amountMsat
            case None => Fail(AmountlessInvoice)
            case Some(amount) =>
              if amount < l.params.minWithdrawable then Fail(AmountBelowMinimum)
              else if amount > l.params.maxWithdrawable then Fail(AmountAboveMaximum)
              else Pass
    else
      Fail(UnknownSubprotocol(l.tag))
  }

  /** What `pay_invoice` does: pays, raises one of the classified errors
      (`ValueError`, `PermissionError`, `PaymentError`) with a reason, or
      raises anything else. */
  datatype PayOutcome = Paid | PayRefused(reason: string) | PayCrashed(detail: string)

  /** A call made to `pay_invoice`. */
  datatype PayCall = PayCall(wallet: WalletId, paymentRequest: string)

  /** The result of `execute_action`: the outcome, the store afterwards and
      the payment calls made on the way. */
  datatype Execution = Execution(outcome: Outcome<ActionError>, store: Store, payments: seq<PayCall>)

  /** `execute_action` run on `l`, the caller's copy of a link (possibly read
      before other requests consumed uses). The order is: validate, consume a
      use when the link is limited, then pay; a refused payment does not give
      the use back. */
  function ExecuteAction(s: Store, l: Link, query: map<string, string>, now: int,
                         decode: string -> Decoded,
                         pay: (WalletId, string) -> PayOutcome): (x: Execution)
    ensures !Acceptable(l, query, decode) ==>
              x == Execution(ValidateAction(l, query, decode), s, [])
    ensures l.initialUses <= 0 ==> x.store == s
    ensures Acceptable(l, query, decode) && l.initialUses > 0 && !Use(s, l.id, now).0 ==>
              x == Execution(Fail(MaximumUsesReached), s, [])
    ensures Acceptable(l, query, decode) && (l.initialUses <= 0 || Use(s, l.id, now).0) ==>
              && x.payments == [PayCall(l.wallet, query["pr"])]
              && x.store == (if l.initialUses > 0 then Use(s, l.id, now).1 else s)
              && x.outcome == match pay(l.wallet, query["pr"])
                              case Paid => Pass
                              case PayRefused(reason) => Fail(PaymentFailed(reason))
                              case PayCrashed(_) => Fail(UnexpectedError)
    ensures x.outcome.Pass? <==>
              Acceptable(l, query, decode) && (l.initialUses <= 0 || Use(s, l.id, now).0)
              && pay(l.wallet, query["pr"]).Paid?
    ensures |x.payments| <= 1
    ensures x.outcome.Fail? && !IsLnurlValidationError(x.outcome.error) ==>
              x.store == s && x.payments == [] && ValidateAction(l, query, decode).Fail?
  {
    match ValidateAction(l, query, decode)
    case Fail(e) => Execution(Fail(e), s, [])
    case Pass =>
      var (used, s') := if l.initialUses > 0 then Use(s, l.id, now) else (false, s);
      if l.initialUses > 0 && !used then
        Execution(Fail(MaximumUsesReached), s', [])
      else if l.tag == WithdrawRequest then
        var pr := query["pr"];
        var call := [PayCall(l.wallet, pr)];
        match pay(l.wallet, pr)
        case Paid => Execution(Pass, s', call)
        case PayRefused(reason) => Execution(Fail(PaymentFailed(reason)), s', call)
        case PayCrashed(_) => Execution(Fail(UnexpectedError), s', call)
      else
        Execution(Pass, s', [])
  }

  /** The messages a wallet app sees from `execute_action`: a missing invoice
      names the `pr` parameter; an accepted request that pays nothing reports
      that the uses are exhausted; a refused payment carries the refusal's
      reason after "Failed to pay invoice: "; a crashed payment reports only
      "Unexpected error". */
  lemma ActionMessages(s: Store, l: Link, query: map<string, string>, now: int,
                       decode: string -> Decoded, pay: (WalletId, string) -> PayOutcome)
    ensures var x := ExecuteAction(s, l, query, now, decode, pay);
            && (l.tag == WithdrawRequest && "pr" !in query ==>
                  x.outcome.Fail? && Message(x.outcome.error) == "Missing required parameter: \"pr\"")
            && (Acceptable(l, query, decode) && x.payments == [] ==>
                  x.outcome.Fail? && Message(x.outcome.error) == "Maximum number of uses already reached")
            && (Acceptable(l, query, decode) && x.payments != [] && pay(l.wallet, query["pr"]).PayRefused? ==>
                  x.outcome.Fail?
                  && Message(x.outcome.error) == "Failed to pay invoice: " + pay(l.wallet, query["pr"]).reason)
            && (Acceptable(l, query, decode) && x.payments != [] && pay(l.wallet, query["pr"]).PayCrashed? ==>
                  x.outcome.Fail? && Message(x.outcome.error) == "Unexpected error")
  {
  }
}
