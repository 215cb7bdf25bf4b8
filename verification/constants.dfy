/** The wallet's flag vocabularies as 32-bit masks and the small enumerations rows carry.

    The transaction flags are one mask split into two zones: the state bits (at most one of
    which a well-behaved caller sets) and the field-presence bits that record which optional
    columns of a transaction row are populated. */
module Constants {

  type byte = b: int | 0 <= b < 256

  // Transaction field-presence bits.
  const Unset: bv32 := 0
  const HasFee: bv32 := 0x10
  const HasHeight: bv32 := 0x20
  const HasPosition: bv32 := 0x40
  const HasByteData: bv32 := 0x1000
  const HasProofData: bv32 := 0x2000

  // Transaction state bits.
  const StateCleared: bv32 := 0x10_0000
  const StateSettled: bv32 := 0x20_0000
  const StateReceived: bv32 := 0x40_0000
  const StateSigned: bv32 := 0x80_0000
  const StateDispatched: bv32 := 0x100_0000

  const MetadataFieldMask: bv32 := HasFee | HasHeight | HasPosition
  const StateMask: bv32 := StateCleared | StateSettled | StateReceived | StateSigned | StateDispatched

  // Transaction output flags.
  const IsSpent: bv32 := 0x2

  // Wallet event flags.
  const Featured: bv32 := 0x1
  const Unread: bv32 := 0x2

  datatype PaymentState = Unpaid | Paid | Expired | Unknown

  datatype DerivationType = Bip32 | Hardware | Imported | ElectrumOld | ElectrumMultisig | NoDerivation
}
