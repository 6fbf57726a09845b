/** The persisted entities of the wallet ledger: users, wallets, ledger transactions,
    wallet-to-wallet transfers and API keys. Each is a value; the store (module Store) keeps
    them in tables keyed by their Guid id. */
module Entities {
  import opened Common
  import opened Text

  /** The value of Guid.Empty. */
  const EmptyGuid: Guid := 0

  datatype TransactionType = Deposit | TransferDebit | TransferCredit

  datatype TransactionStatus = Pending | Success | Failed

  /** Enum.ToString() of a transaction type. */
  function TypeName(t: TransactionType): string {
    match t
    case Deposit => "Deposit"
    case TransferDebit => "TransferDebit"
    case TransferCredit => "TransferCredit"
  }

  /** Enum.ToString() of a transaction status. */
  function StatusName(s: TransactionStatus): string {
    match s
    case Pending => "Pending"
    case Success => "Success"
    case Failed => "Failed"
  }

  lemma StatusNameInjective(a: TransactionStatus, b: TransactionStatus)
    ensures StatusName(a) == StatusName(b) <==> a == b
  {
  }

  datatype User = User(
    googleId: string,
    email: string,
    name: string,
    profilePictureUrl: Option<string>,
    createdAt: Instant)

  /** A wallet. `version` is the row's concurrency token (PostgreSQL xmin): every successful
      UPDATE of the row moves it. */
  datatype Wallet = Wallet(
    walletNumber: string,
    balance: int,
    userId: Guid,
    version: nat,
    createdAt: Instant)

  /** A ledger entry (the source's Transaction entity). */
  datatype Transaction = Transaction(
    reference: string,
    kind: TransactionType,
    amount: int,
    walletId: Guid,
    status: TransactionStatus,
    description: Option<string>,
    paystackReference: Option<string>,
    createdAt: Instant)

  datatype WalletTransfer = WalletTransfer(
    reference: string,
    senderWalletId: Guid,
    receiverWalletId: Guid,
    amount: int,
    debitTransactionId: Guid,
    creditTransactionId: Guid,
    description: Option<string>,
    createdAt: Instant)

  datatype ApiKey = ApiKey(
    keyHash: string,
    name: string,
    permissions: seq<string>,
    expiresAt: Instant,
    isActive: bool,
    userId: Guid,
    lastUsedAt: Option<Instant>,
    createdAt: Instant)

  /** ApiKey.HasExpired, with the clock reading passed in. */
  predicate HasExpired(k: ApiKey, now: Instant) {
    now > k.expiresAt
  }

  /** ApiKey.HasPermission: ignore-case membership in the key's permissions. */
  predicate HasPermission(k: ApiKey, permission: string) {
    ContainsIgnoreCase(k.permissions, permission)
  }

  /** Expiry is strict and permanent: a key is still live at the instant ExpiresAt, and once it
      has expired it stays expired at every later instant. */
  lemma ExpiryIsPermanent(k: ApiKey, now: Instant, later: Instant)
    requires HasExpired(k, now) && now <= later
    ensures HasExpired(k, later)
    ensures !HasExpired(k, k.expiresAt)
  {
  }

  /** Whether a key grants a permission does not depend on how the name is cased. */
  lemma HasPermissionIgnoresCase(k: ApiKey, permission: string, spelling: string)
    requires EqualsIgnoreCase(permission, spelling)
    ensures HasPermission(k, permission) <==> HasPermission(k, spelling)
  {
  }

  /** A key grants each of its own permissions. */
  lemma GrantsOwnPermissions(k: ApiKey)
    ensures forall i :: 0 <= i < |k.permissions| ==> HasPermission(k, k.permissions[i])
  {
    forall i | 0 <= i < |k.permissions| ensures HasPermission(k, k.permissions[i]) {
      assert EqualsIgnoreCase(k.permissions[i], k.permissions[i]);
    }
  }
}
