/** What the three contracts share: addresses, roles, transactions and how a call ends. */
module Chain {

  /**
   An address.  A wallet has a signing key; a contract has none, so no signature ever recovers to
   a contract or to the zero address.
   */
  datatype Address = Zero | Wallet(key: nat) | Contract(id: nat)

  const VAULT := Contract(0)
  const EXCHANGE := Contract(1)
  const ORACLE := Contract(2)

  datatype Role =
    | DefaultAdmin | Pauser | Settlement | WithdrawalSigner | Operator | Arbitrator | MarketCreator

  type Grants = set<(Role, Address)>

  /** Who calls, and the timestamp of the block the call lands in. */
  datatype Tx = Tx(sender: Address, now: nat)

  /** A call either takes effect, or reverts and leaves every contract as it was. */
  datatype Status<+E> = Committed | Reverted(error: E)

  /** An ECDSA signature over one fixed message: malformed, or made with a wallet's key. */
  datatype Signature = Malformed | SignedBy(key: nat)

  datatype Recovery = Unrecoverable | Recovered(signer: Address)

  function Recover(sig: Signature): Recovery {
    match sig
    case Malformed => Unrecoverable
    case SignedBy(key) => Recovered(Wallet(key))
  }

  const TWO_255: nat := 0x8000000000000000_0000000000000000_0000000000000000_0000000000000000
  const TWO_256: nat := 0x1_0000000000000000_0000000000000000_0000000000000000_0000000000000000

  type uint256 = x: nat | x < TWO_256

  /** Fits the contracts' `int256`, whose arithmetic reverts beyond it. */
  predicate Signed256(x: int) {
    -(TWO_255 as int) <= x < TWO_255
  }

  /** The unchecked conversion `int256(x)` of a 256-bit word. */
  function ToInt256(x: uint256): int {
    if x < TWO_255 then x else x - TWO_256
  }
}
