/** String and byte-buffer primitives of the freestanding runtime. Memory a
    function only reads is a `seq<Byte>` holding the bytes from the pointer
    onwards; memory a function writes is an `array<Byte>`. A pointer result
    is returned as the array it points into, or as an offset. */
module CString {
  import opened Machine
  import opened Wrappers

  /** The region holds a NUL byte, as a `const char *` argument must. */
  predicate Terminated(s: seq<Byte>)
  {
    exists i :: 0 <= i < |s| && s[i] == 0
  }

  /** Index of the first NUL byte: the length of the C string. */
  function NulIndex(s: seq<Byte>): (n: nat)
    requires Terminated(s)
    ensures n < |s| && s[n] == 0
    ensures forall i :: 0 <= i < n ==> s[i] != 0
  {
    if s[0] == 0 then 0
    else
      assert Terminated(s[1..]) by {
        var i :| 0 <= i < |s| && s[i] == 0;
        assert s[1..][i - 1] == 0;
      }
      NulIndex(s[1..]) + 1
  }

  /** The C string: the bytes before the first NUL. */
  function Str(s: seq<Byte>): seq<Byte>
    requires Terminated(s)
  {
    s[..NulIndex(s)]
  }

  /** z_strlen: counts bytes up to the first NUL. */
  method Strlen(s: seq<Byte>) returns (n: nat)
    requires Terminated(s)
    ensures n == NulIndex(s)
  {
    n := 0;
    while s[n] != 0
      invariant n <= NulIndex(s)
      decreases NulIndex(s) - n
    {
      n := n + 1;
    }
  }

  /** z_strncmp. The loop guard tests the FIRST byte of each string, not the
      current one, so the result is 0 as soon as either string is empty, and
      otherwise bytes are compared up to the first difference or `n`, NULs
      included. Only the bytes the loop reads need to exist: byte `i` of
      each string when the bytes before it agree. The result is 0 or -1,
      never an ordering. */
  method Strncmp(s1: seq<Byte>, s2: seq<Byte>, n: nat) returns (r: int)
    requires n > 0 ==> |s1| > 0 && |s2| > 0
    requires n > 0 && s1[0] != 0 && s2[0] != 0 ==>
               forall i :: 0 <= i < n && i <= |s1| && i <= |s2| && s1[..i] == s2[..i] ==> i < |s1| && i < |s2|
    ensures r == 0 || r == -1
    ensures r == 0 <==>
              n == 0 || s1[0] == 0 || s2[0] == 0 || (n <= |s1| && n <= |s2| && s1[..n] == s2[..n])
  {
    var i := 0;
    while i < n && s1[0] != 0 && s2[0] != 0
      invariant i <= n
      invariant i > 0 ==> s1[0] != 0 && s2[0] != 0
      invariant i > 0 ==> i <= |s1| && i <= |s2| && s1[..i] == s2[..i]
    {
      assert s1[..i] == s2[..i];
      if s1[i] != s2[i] {
        if n <= |s1| && n <= |s2| {
          assert s1[..n][i] != s2[..n][i];
        }
        return -1;
      }
      assert s1[..i + 1] == s1[..i] + [s1[i]];
      assert s2[..i + 1] == s2[..i] + [s2[i]];
      i := i + 1;
    }
    return 0;
  }

  /** z_strcmp: equal lengths and z_strncmp over that length. Because both
      strings are non-empty whenever the length is, the quirk of z_strncmp
      does not show here: the result is 0 exactly for equal strings. */
  method Strcmp(s1: seq<Byte>, s2: seq<Byte>) returns (r: int)
    requires Terminated(s1) && Terminated(s2)
    ensures r == 0 || r == -1
    ensures r == 0 <==> Str(s1) == Str(s2)
  {
    var l1 := Strlen(s1);
    var l2 := Strlen(s2);
    if l1 == l2 {
      var c := Strncmp(s1, s2, l1);
      if c == 0 {
        if l1 > 0 {
          assert s1[..l1] == s2[..l1];
        }
        return 0;
      }
    }
    if l1 == l2 {
      assert s1[..l1] != s2[..l1];
    } else {
      assert |Str(s1)| != |Str(s2)|;
    }
    return -1;
  }

  /** The bytes of `dst` after copying the first `n` bytes of `src` over it. */
  function Copied(dst: seq<Byte>, src: seq<Byte>, n: nat): (r: seq<Byte>)
    requires n <= |dst| && n <= |src|
    ensures |r| == |dst|
    ensures forall i :: 0 <= i < n ==> r[i] == src[i]
    ensures forall i :: n <= i < |dst| ==> r[i] == dst[i]
  {
    src[..n] + dst[n..]
  }

  /** The bytes of `s` after setting the first `n` of them to `c`. */
  function Filled(s: seq<Byte>, c: Byte, n: nat): (r: seq<Byte>)
    requires n <= |s|
    ensures |r| == |s|
    ensures forall i :: 0 <= i < n ==> r[i] == c
    ensures forall i :: n <= i < |s| ==> r[i] == s[i]
  {
    seq(n, _ => c) + s[n..]
  }

  /** z_memcpy: copies bytes [0, n) forwards, one at a time, and returns the
      destination. */
  method Memcpy(dst: array<Byte>, src: array<Byte>, n: nat) returns (r: array<Byte>)
    requires n <= dst.Length && n <= src.Length
    modifies dst
    ensures r == dst
    ensures dst[..] == Copied(old(dst[..]), old(src[..]), n)
  {
    var i := 0;
    while i < n
      invariant i <= n
      invariant forall k :: 0 <= k < i ==> dst[k] == old(src[k])
      invariant forall k :: i <= k < dst.Length ==> dst[k] == old(dst[k])
      invariant forall k :: i <= k < src.Length ==> src[k] == old(src[k])
    {
      dst[i] := src[i];
      i := i + 1;
    }
    r := dst;
  }

  /** z_memset: sets bytes [0, n) to `c` and returns the buffer. */
  method Memset(s: array<Byte>, c: Byte, n: nat) returns (r: array<Byte>)
    requires n <= s.Length
    modifies s
    ensures r == s
    ensures s[..] == Filled(old(s[..]), c, n)
  {
    var i := 0;
    while i < n
      invariant i <= n
      invariant forall k :: 0 <= k < i ==> s[k] == c
      invariant forall k :: i <= k < s.Length ==> s[k] == old(s[k])
    {
      s[i] := c;
      i := i + 1;
    }
    r := s;
  }

  /** z_memcmp: 0 when the first `n` bytes agree, 1 otherwise; it never
      reports an ordering. */
  method Memcmp(s1: seq<Byte>, s2: seq<Byte>, n: nat) returns (r: int)
    requires n <= |s1| && n <= |s2|
    ensures r == 0 || r == 1
    ensures r == 0 <==> s1[..n] == s2[..n]
  {
    var i := 0;
    while i < n
      invariant i <= n
      invariant s1[..i] == s2[..i]
    {
      if s1[i] != s2[i] {
        assert s1[..n][i] != s2[..n][i];
        return 1;
      }
      assert s1[..i + 1] == s1[..i] + [s1[i]];
      assert s2[..i + 1] == s2[..i] + [s2[i]];
      i := i + 1;
    }
    return 0;
  }

  /** The first `m` bytes of the needle occur in the haystack at offset `i`. */
  predicate MatchesAt(haystack: seq<Byte>, needle: seq<Byte>, m: nat, i: nat)
    requires i + m <= |haystack| && m <= |needle|
  {
    haystack[i..i + m] == needle[..m]
  }

  /** z_memmem as written: it tries the offsets i < n - m only, so a needle
      that occurs only at the last possible offset n - m is not found. The
      result is the offset of the returned pointer, or None for NULL. */
  method Memmem(haystack: seq<Byte>, n: nat, needle: seq<Byte>, m: nat) returns (r: Option<nat>)
    requires m <= n <= |haystack| && m <= |needle|
    ensures r.Some? ==> r.value < n - m && MatchesAt(haystack, needle, m, r.value)
    ensures r.Some? ==> forall j :: 0 <= j < r.value ==> !MatchesAt(haystack, needle, m, j)
    ensures r.None? ==> forall j :: 0 <= j < n - m ==> !MatchesAt(haystack, needle, m, j)
  {
    var i := 0;
    while i < n - m
      invariant i <= n - m
      invariant forall j :: 0 <= j < i ==> !MatchesAt(haystack, needle, m, j)
    {
      var c := Memcmp(haystack[i..], needle, m);
      if c == 0 {
        assert haystack[i..][..m] == haystack[i..i + m];
        return Some(i);
      }
      assert haystack[i..][..m] == haystack[i..i + m];
      i := i + 1;
    }
    return None;
  }

  /** The offset z_memmem skips: a one-byte needle equal to a one-byte
      haystack is reported as absent. */
  method MemmemMissesLastOffset() returns (r: Option<nat>, found: bool)
    ensures r == None
    ensures found
  {
    r := Memmem([7], 1, [7], 1);
    found := MatchesAt([7], [7], 1, 0);
  }

  /** z_memmem as evidently intended: every offset i <= n - m is tried, so
      the needle is found whenever it occurs. */
  method MemmemAllOffsets(haystack: seq<Byte>, n: nat, needle: seq<Byte>, m: nat) returns (r: Option<nat>)
    requires m <= n <= |haystack| && m <= |needle|
    ensures r.Some? ==> r.value <= n - m && MatchesAt(haystack, needle, m, r.value)
    ensures r.Some? ==> forall j :: 0 <= j < r.value ==> !MatchesAt(haystack, needle, m, j)
    ensures r.None? <==> forall j :: 0 <= j <= n - m ==> !MatchesAt(haystack, needle, m, j)
  {
    var i := 0;
    while i <= n - m
      invariant i <= n - m + 1
      invariant forall j :: 0 <= j < i ==> !MatchesAt(haystack, needle, m, j)
    {
      var c := Memcmp(haystack[i..], needle, m);
      assert haystack[i..][..m] == haystack[i..i + m];
      if c == 0 {
        return Some(i);
      }
      i := i + 1;
    }
    return None;
  }
}
