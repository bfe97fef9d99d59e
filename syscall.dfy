/** Decoding of raw kernel return values into the (value, errno) pairs that
    every system-call wrapper of the runtime returns. The kernel entry itself
    (the per-architecture trampolines) is not part of this model: a wrapper
    is modelled as a function of the raw value `rc` the kernel handed back. */
module Syscall {
  import opened Machine

  /** The result pair of a wrapper: `v` is the value, `e` the errno (0 when
      the call succeeded). */
  datatype SysResult = SysResult(v: int, e: int)

  /** The largest errno the kernel reports through a negative return. */
  const MAX_ERRNO: int := 4095

  const EAGAIN: int := 11
  const ETIMEDOUT: int := 110

  /** `(void *) -1` */
  const MAP_FAILED: int := ULONG_MAX

  /** Raw returns in (-4096, 0) encode a negated errno. */
  predicate IsErrorReturn(rc: int)
  {
    rc < 0 && rc > -(MAX_ERRNO + 1)
  }

  /** z_check_error: the raw return becomes (-1, errno) inside the error
      window and (rc, 0) everywhere else, including below -4095. */
  function CheckError(rc: Int64): (r: SysResult)
    ensures IsErrorReturn(rc) ==> r.v == -1 && 1 <= r.e <= MAX_ERRNO && r.e + rc == 0
    ensures !IsErrorReturn(rc) ==> r.v == rc && r.e == 0
  {
    var r := SysResult(rc, 0);
    if rc < 0 && rc > -4096 then r.(v := -1, e := ToInt32(-rc)) else r
  }

  /** The errno field is set exactly for returns in the error window, and a
      set errno always comes with the value -1. */
  lemma ErrnoIffErrorWindow(rc: Int64)
    ensures CheckError(rc).e != 0 <==> -4096 < rc < 0
    ensures CheckError(rc).e != 0 ==> CheckError(rc).v == -1
    ensures CheckError(rc).e == 0 ==> CheckError(rc).v == rc
  {
  }

  /** The kernel reports errno `n` by returning `-n`; decoding recovers `n`. */
  lemma ErrnoRoundTrip(n: int)
    requires 1 <= n <= MAX_ERRNO
    ensures CheckError(-n) == SysResult(-1, n)
  {
  }

  /** The C type a wrapper casts its value to. */
  datatype ResultType = IntResult | SsizeResult | PointerResult

  /** `(ret) r.v` for each result type of the wrappers. */
  function CastValue(t: ResultType, v: Int64): int
  {
    match t
    case IntResult => ToInt32(v)
    case SsizeResult => v
    case PointerResult => ToUnsigned64(v)
  }

  /** The shape shared by every DEFINE_SYSCALLn wrapper: check the raw
      return, cast the value to the result type, pass the errno through. */
  function Wrapped(t: ResultType, rc: Int64): (r: SysResult)
    ensures (r.e != 0) == IsErrorReturn(rc)
    ensures r.e != 0 ==> r.e + rc == 0 && r.v == CastValue(t, -1)
    ensures r.e == 0 && t == SsizeResult ==> r.v == rc
    ensures r.e == 0 && t == IntResult ==> r.v == ToInt32(rc)
    ensures r.e == 0 && t == IntResult && INT_MIN <= rc <= INT_MAX ==> r.v == rc
    ensures r.e == 0 && t == PointerResult ==> 0 <= r.v <= ULONG_MAX && ToSigned64(r.v) == rc
  {
    var checked := CheckError(rc);
    SysResult(CastValue(t, checked.v), checked.e)
  }

  /** z_mmap on the 64-bit targets. */
  function Mmap(rc: Int64): (r: SysResult)
    ensures (r.e != 0) == IsErrorReturn(rc)
    ensures r.e != 0 ==> r.e == -rc && r.v == MAP_FAILED
    ensures r.e == 0 ==> r.v == ToUnsigned64(rc) && ToSigned64(r.v) == rc
  {
    Wrapped(PointerResult, rc)
  }

  /** The allocator recognises a failed mapping by comparing the pointer with
      MAP_FAILED; that comparison succeeds exactly when an errno was
      reported. */
  lemma MapFailedIffErrno(rc: Int64)
    ensures Mmap(rc).v == MAP_FAILED <==> Mmap(rc).e != 0
    ensures Mmap(rc).v != MAP_FAILED ==> Mmap(rc).v == ToUnsigned64(rc)
  {
  }

  /** z_mmap on i386 and arm, whose `off_t` is 32 bits wide: the byte offset
      goes through `unsigned long long`, is shifted right by 12 into page
      units for mmap2 and stored back into the `off_t`. */
  function Mmap2Offset(offset: Int32): (pages: Int32)
    ensures pages == offset / 0x1000
    ensures 0 <= offset ==> pages * 0x1000 <= offset < (pages + 1) * 0x1000
  {
    var wide := ToUnsigned64(offset);
    ToInt32(wide / 0x1000)
  }

  /** A page-aligned offset converts without loss. */
  lemma Mmap2OffsetExact(offset: Int32)
    requires offset % 0x1000 == 0
    ensures Mmap2Offset(offset) * 0x1000 == offset
  {
  }
}
