/** Raw transaction timestamps (src/common/type.h): 31 bits of timestamp below one lock bit. */
module TxnTs {
  const LOCK_BIT: nat := 0x8000_0000
  const MAX_TXN_TS: nat := 0x7FFF_FFFF
  const ABORTED_TXN_TS: nat := 0

  /** The top bit of a 32-bit word. */
  predicate IsLocked(ts: nat) {
    ts >= 0x8000_0000
  }

  function MarkLocked(ts: nat): nat {
    if IsLocked(ts) then ts else ts + 0x8000_0000
  }

  function GetTs(ts: nat): nat {
    ts % 0x8000_0000
  }

  /** Locking is recoverable and orders every locked word above every timestamp. */
  lemma LockRoundTrip(ts: nat)
    requires ts <= MAX_TXN_TS
    ensures !IsLocked(ts) && IsLocked(MarkLocked(ts))
    ensures MarkLocked(ts) == ts + LOCK_BIT
    ensures GetTs(MarkLocked(ts)) == ts && GetTs(ts) == ts
  {
  }
}
