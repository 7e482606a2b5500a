/** The value types of the ledger: identifiers, amounts, events and envelopes. */
module LedgerTypes {

  datatype Option<+T> = None | Some(value: T)
  datatype Result<+T, +E> = Ok(value: T) | Err(error: E)

  type Byte = b: int | 0 <= b < 256

  /** A UUID is its sixteen bytes. */
  type Uuid = s: seq<Byte> | |s| == 16
    witness [0, 0, 0, 0, 0, 0, 0, 0, 0, 0, 0, 0, 0, 0, 0, 0]

  const I64_MIN: int := -0x8000_0000_0000_0000
  const I64_MAX: int := 0x7FFF_FFFF_FFFF_FFFF
  const U64_LIMIT: nat := 0x1_0000_0000_0000_0000

  predicate FitsI64(x: int) {
    I64_MIN <= x <= I64_MAX
  }

  /** Monetary amount in the smallest currency unit, held in a signed 64-bit word. */
  type Amount = x: int | FitsI64(x) witness 0

  datatype AmountError = AmountOverflow | AmountUnderflow

  /** Checked addition: fails exactly when the mathematical sum does not fit. */
  function Add(a: Amount, b: Amount): Result<Amount, AmountError> {
    if FitsI64(a + b) then Ok(a + b) else Err(AmountOverflow)
  }

  /** Checked subtraction: fails only on the word range, so a balance may go negative. */
  function Subtract(a: Amount, b: Amount): Result<Amount, AmountError> {
    if FitsI64(a - b) then Ok(a - b) else Err(AmountUnderflow)
  }

  datatype LedgerEvent =
    | AccountCreated(accountId: Uuid, initialBalance: Amount)
    | AccountStatusChanged(accountId: Uuid)
    | AccountMetadataUpdated(accountId: Uuid)
    | TransactionProcessed(transactionId: Uuid, fromAccount: Option<Uuid>, toAccount: Option<Uuid>, amount: Amount)
    | BalanceUpdated(accountId: Uuid, oldBalance: Amount, newBalance: Amount)
    | MerkleRootGenerated(blockHeight: nat)
    | DigestPublished(storageLocation: string)

  /** `timestamp` counts nanoseconds since the epoch; `details` stands for every
      field that no modelled operation inspects. */
  datatype EventEnvelope = EventEnvelope(
    eventId: Uuid,
    eventType: string,
    aggregateId: string,
    timestamp: int,
    data: LedgerEvent,
    details: string)

  /** The type tag that an envelope's constructor derives from its data. */
  function TypeName(data: LedgerEvent): string {
    match data
    case AccountCreated(_, _) => "AccountCreated"
    case AccountStatusChanged(_) => "AccountStatusChanged"
    case AccountMetadataUpdated(_) => "AccountMetadataUpdated"
    case TransactionProcessed(_, _, _, _) => "TransactionProcessed"
    case BalanceUpdated(_, _, _) => "BalanceUpdated"
    case MerkleRootGenerated(_) => "MerkleRootGenerated"
    case DigestPublished(_) => "DigestPublished"
  }

  /** The constructor of envelopes; the id and the time are drawn by its caller here. */
  function NewEnvelope(eventId: Uuid, aggregateId: string, timestamp: int, data: LedgerEvent, details: string): EventEnvelope {
    EventEnvelope(eventId, TypeName(data), aggregateId, timestamp, data, details)
  }
}
