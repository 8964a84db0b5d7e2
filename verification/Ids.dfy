/** Identifiers shared by the mempool and the double-spend-proof index. */
module Ids {

  /** A transaction id, ordered as its 32 bytes are. */
  type TxHash = nat

  /** A script hash. */
  type HashX = nat
}
