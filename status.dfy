/**
  NTSTATUS values as the driver sees them: signed 32-bit integers whose sign
  bit marks an error. Only the codes the model needs are named.
 */
module Status {

  /** NTSTATUS is a 32-bit signed LONG. */
  newtype NtStatus = x: int | -0x8000_0000 <= x < 0x8000_0000

  /** Reinterprets a 32-bit pattern, as written in the headers, as a signed NTSTATUS. */
  function FromBits(u: int): (s: NtStatus)
    requires 0 <= u < 0x1_0000_0000
    ensures (s as int - u) % 0x1_0000_0000 == 0
  {
    if u < 0x8000_0000 then u as NtStatus else (u - 0x1_0000_0000) as NtStatus
  }

  /** NT_SUCCESS: success and informational codes are non-negative. */
  predicate NtSuccess(s: NtStatus)
  {
    s >= 0
  }

  const StatusSuccess: NtStatus := FromBits(0x0000_0000)
  const StatusInsufficientResources: NtStatus := FromBits(0xC000_009A)
  const StatusObjectNameNotFound: NtStatus := FromBits(0xC000_0034)
}
