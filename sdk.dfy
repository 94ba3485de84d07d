/**
 * The values the wallet reads from its external SDK, reduced to plain data. The SDK's
 * predicates over a pending transaction (`isCreating()`, `isMined()`, ...) are not
 * part of this model: each is an independent flag of the transaction, with no relation
 * taken between them. Balances are in zatoshi (1 ZEC = 10^8 zatoshi).
 */
module Sdk {
  import opened Wrappers

  /** `ZcashSdk.MINERS_FEE`: 1000 zatoshi, the "0.00001 network fee" the history screen shows. */
  const MINERS_FEE: int := 1000
  /** `ZcashSdk.MAX_MEMO_SIZE`: a Zcash memo holds 512 bytes. */
  const MAX_MEMO_SIZE: int := 512
  /** `Zatoshi.ZATOSHI_PER_ZEC` */
  const ZATOSHI_PER_ZEC: int := 100_000_000

  /** `Synchronizer.Status` */
  datatype Status = Stopped | Disconnected | Downloading | Validating | Scanning | Enhancing | Synced

  /** `WalletBalance`: total and available zatoshi of one pool. */
  datatype WalletBalance = WalletBalance(total: int, available: int) {
    /** The SDK's own `pending` amount. */
    function SdkPending(): int { total - available }
  }

  /** The recipient of a pending transaction: an address, or one of the wallet's own pools. */
  datatype TransactionRecipient = Address(addressValue: string) | Account(accountIndex: int)

  /** The SDK's lifecycle predicates of a pending transaction, as read at one emission. */
  datatype TxFlags = TxFlags(
    isCreating: bool,
    isCreated: bool,
    isSubmitSuccess: bool,
    isMined: bool,
    isCancelled: bool,
    isFailedEncoding: bool,
    isFailedSubmit: bool,
    isFailure: bool)

  /** `PendingTransaction` */
  datatype PendingTransaction = PendingTransaction(
    id: int,
    value: int,
    recipient: TransactionRecipient,
    minedHeight: int,
    errorCode: Option<int>,
    errorMessage: Option<string>,
    flags: TxFlags)

  /** `ConfirmedTransaction`: the fields the history screen reads; the memo is already decoded. */
  datatype ConfirmedTransaction = ConfirmedTransaction(
    toAddress: Option<string>,
    value: int,
    minedHeight: int,
    blockTimeInSeconds: int,
    rawTransactionId: Option<seq<Byte>>,
    memo: Option<string>)

  /** A closed range of block heights; it is empty when `start > endInclusive`. */
  datatype BlockRange = BlockRange(start: int, endInclusive: int) {
    predicate IsEmpty() { start > endInclusive }
  }

  /** `CompactBlockProcessor.ProcessorInfo`: every field may be unknown. */
  datatype ProcessorInfo = ProcessorInfo(
    networkBlockHeight: Option<int>,
    lastScannedHeight: Option<int>,
    lastDownloadedHeight: Option<int>,
    lastDownloadRange: Option<BlockRange>,
    lastScanRange: Option<BlockRange>)

  /** A JVM byte, read as its unsigned value. */
  newtype Byte = x: int | 0 <= x < 256
}
