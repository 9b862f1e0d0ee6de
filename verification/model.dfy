/** The records and constants of `internal/model` and of the `payments` and `apps` tables. */
module Model {
  import opened Fees

  datatype Option<+T> = None | Some(value: T)

  datatype PaymentType = Deposit | Payout | Refund

  /** A status text: one of the five the CHECK constraint allows, or any other text. */
  datatype Status = Pending | Processing | Completed | Failed | Cancelled | Other(text: string)

  datatype RelayStatus = RelayPending | RelayDelivered | RelayFailed | RelaySkipped

  datatype KYCLevel = KYCNone | KYCVerified

  const MAX_AMOUNT_NO_KYC := 200_000
  const MAX_AMOUNT_VERIFIED := 1_000_000

  function MaxAmountFor(level: KYCLevel): int
  {
    if level == KYCVerified then MAX_AMOUNT_VERIFIED else MAX_AMOUNT_NO_KYC
  }

  predicate AllowedStatus(s: Status)
  {
    !s.Other?
  }

  /** `normalizeStatus`: an unknown text from the gateway counts as still processing. */
  function NormalizeStatus(s: Status): Status
  {
    if AllowedStatus(s) then s else Processing
  }

  /** A row of `payments`. Descriptions, return URLs and `updated_at` are not modelled. */
  datatype Payment = Payment(
    id: nat,
    appId: string,
    appRef: string,
    diarraRef: string,
    typ: PaymentType,
    provider: Option<string>,
    status: Status,
    failureReason: Option<string>,
    amount: GoInt,
    fee: GoInt,
    net: Option<GoInt>,
    rate: Option<GoInt>,
    currency: string,
    redirect: Option<string>,
    callback: Option<string>,
    refundOf: Option<nat>,
    phone: Option<string>,
    operator: Option<string>,
    country: Option<string>,
    relayStatus: RelayStatus,
    relayAttempts: nat,
    relayLastError: Option<string>,
    relayLastAt: Option<int>,
    createdAt: int)

  datatype Key = Key(appId: string, appRef: string, typ: PaymentType)

  function KeyOf(p: Payment): Key
  {
    Key(p.appId, p.appRef, p.typ)
  }

  /** The INTEGER columns of a row fit in 32 bits. */
  predicate Fits(p: Payment)
  {
    && p.amount <= INT4_MAX && -INT4_MAX - 1 <= p.amount
    && p.fee <= INT4_MAX && -INT4_MAX - 1 <= p.fee
    && (p.net.Some? ==> -INT4_MAX - 1 <= p.net.value <= INT4_MAX)
    && (p.rate.Some? ==> -INT4_MAX - 1 <= p.rate.value <= INT4_MAX)
  }

  /** No `callback_url`: there is nobody to relay to. */
  predicate NoCallback(p: Payment)
  {
    p.callback == None || p.callback == Some("")
  }

  /** A row as an INSERT leaves it: the column defaults of migrations 001 to 007. */
  function FreshRow(appId: string, appRef: string, diarraRef: string, typ: PaymentType, charge: Result,
                    currency: string, callback: Option<string>, createdAt: int): Payment
  {
    Payment(0, appId, appRef, diarraRef, typ, None, Pending, None,
            charge.amount, charge.fee, Some(charge.net), Some(charge.rate), currency,
            None, callback, None, None, None, None,
            RelayPending, 0, None, None, createdAt)
  }

  /** The part of a row no statement may change: everything but status, relay tracking,
      and, for a deposit, its payment link. */
  function Frozen(p: Payment): Payment
  {
    p.(provider := None, status := Pending, failureReason := None, redirect := None,
       relayStatus := RelayPending, relayAttempts := 0, relayLastError := None, relayLastAt := None,
       diarraRef := if p.typ.Deposit? then "" else p.diarraRef)
  }
}
