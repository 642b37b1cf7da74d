/** The banks of platform configuration registers. */
module PcrBanks {
  import opened Prelude

  const IMPLEMENTATION_PCR := 24
  const DRTM_PCR := 17
  const HCRTM_PCR := 0

  /** The registers of one bank, and which of them are allocated. */
  datatype Bank = Bank(alg: uint16, registers: seq<Bytes>, present: seq<bool>) {
    /** Every register is there. */
    predicate Whole() {
      |registers| == IMPLEMENTATION_PCR && |present| == IMPLEMENTATION_PCR
    }
  }
}
