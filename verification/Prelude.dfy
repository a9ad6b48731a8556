/** Small shared datatypes. */
module Prelude {

  datatype Option<+T> = None | Some(value: T)

  /** Raw bytes, as integers so that positional arithmetic needs no conversion. */
  type Byte = b: int | 0 <= b < 256
  type Bytes = seq<Byte>

  function Max(a: int, b: int): int {
    if a < b then b else a
  }

  function Min(a: int, b: int): int {
    if a < b then a else b
  }

  /** the decimal digits of a number, without leading zeros */
  function Decimal(n: nat): (s: string)
    ensures |s| > 0
    decreases n
  {
    (if n < 10 then [] else Decimal(n / 10)) + [('0' as int + n % 10) as char]
  }

  /** Python's str(int) */
  function IntText(n: int): string {
    if n < 0 then "-" + Decimal(-n) else Decimal(n)
  }
}

/** The frozen protocol, storage and authority bounds (connector/limits.py). */
module Limits {
  const MAX_FRAME_BYTES := 256 * 1024
  const MAX_JSON_DEPTH := 32
  const MAX_JSON_CONTAINER_ITEMS := 256
  const RETENTION_SECONDS := 30 * 24 * 60 * 60
  const MAX_TIMESTAMP := 253_402_300_799
  const PAIRING_TTL_SECONDS := 5 * 60
  const MAX_PENDING_PAIRINGS := 3
  const MAX_DEVICE_LABEL_LENGTH := 64
  const MAX_GRANT_SCOPES := 64
  const MAX_TLS_CA_DER_BYTES := 8 * 1024
  const MAX_GRANT_TTL_SECONDS := 24 * 60 * 60
  const MAX_GRANT_USES := 1_000
  const MAX_REQUEST_TTL_SECONDS := 60
  const MAX_RECEIPT_TTL_SECONDS := 5 * 60
  const CLOCK_SKEW_SECONDS := 30
  const MAX_PROTECTED_OPERATION_BYTES := 64 * 1024
  const MAX_OPERATION_RESULT_BYTES := 192 * 1024
  const DEFAULT_FILE_GRANT_TTL_SECONDS := 10 * 60
  const MAX_FILE_GRANT_TTL_SECONDS := 30 * 60
  const MAX_FILE_BYTES := 1024 * 1024 * 1024
  const MAX_NORMALIZED_INTEGER := 0x1F_FFFF_FFFF_FFFF

  predicate IsTimestamp(t: int) {
    0 <= t <= MAX_TIMESTAMP
  }
}
