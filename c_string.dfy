/** NUL-terminated strings on the C side, and `copy` (sandor.h). A C string
    in memory is modelled by the characters from its first byte to the end of
    memory; its value is everything before the first NUL. */
module CString {
  import opened Wrappers
  import opened Traps

  const NUL: char := '\0'

  /** Index of the first NUL: `strlen`. */
  function StrLen(s: seq<char>): (n: nat)
    requires NUL in s
    ensures n < |s| && s[n] == NUL
    ensures NUL !in s[..n]
    decreases |s|
  {
    if s[0] == NUL then 0
    else
      var n := StrLen(s[1..]);
      assert s[..n + 1] == [s[0]] + s[1..][..n];
      n + 1
  }

  /** The string value held in memory `s`. */
  function CStr(s: seq<char>): string
    requires NUL in s
  {
    s[..StrLen(s)]
  }

  /** A NUL-free string followed by NUL reads back as itself. */
  lemma {:induction false} CStrOfTerminated(t: string, rest: seq<char>)
    requires NUL !in t
    ensures NUL in t + [NUL] + rest
    ensures StrLen(t + [NUL] + rest) == |t| && CStr(t + [NUL] + rest) == t
    decreases |t|
  {
    var s := t + [NUL] + rest;
    assert s[|t|] == NUL;
    if t != [] {
      assert s[1..] == t[1..] + [NUL] + rest;
      CStrOfTerminated(t[1..], rest);
    }
  }

  const COPY_ASSERTION: string := "i < max_len"

  /** What `copy(src, dst, max_len)` as written stores at `dst[0..]`, or the
      trap: the loop asserts `i < max_len` before each character it copies,
      but the terminator is then written at `dst[len]` unchecked. What it
      stores reads back as the source string, and may reach `dst[max_len]`. */
  function CopyAsWritten(src: seq<char>, maxLen: nat): (r: Result<seq<char>, Trap>)
    requires NUL in src
    ensures r.Ok? ==> |r.value| <= maxLen + 1 && NUL in r.value && CStr(r.value) == CStr(src)
  {
    if StrLen(src) > maxLen then Err(AssertionFailed(COPY_ASSERTION))
    else
      CStrOfTerminated(CStr(src), []);
      Ok(CStr(src) + [NUL])
  }

  /** The source loop of `copy`, run on a buffer `dst` with at least one cell
      beyond `max_len`, which stands for the byte past a `max_len`-byte
      buffer. It traps or stores exactly as `CopyAsWritten` says, and a
      source of exactly `max_len` characters puts its NUL at `dst[max_len]`. */
  method RunCopyAsWritten(src: seq<char>, dst: array<char>, maxLen: nat) returns (r: Result<(), Trap>)
    requires NUL in src
    requires maxLen < dst.Length
    modifies dst
    ensures r.Ok? <==> CopyAsWritten(src, maxLen).Ok?
    ensures r.Ok? ==> dst[..StrLen(src) + 1] == CopyAsWritten(src, maxLen).value
                      && dst[StrLen(src) + 1..] == old(dst[StrLen(src) + 1..])
    ensures r.Ok? && StrLen(src) == maxLen ==> dst[maxLen] == NUL
    ensures r.Err? ==> r.error == CopyAsWritten(src, maxLen).error
                       && dst[..maxLen] == src[..maxLen] && dst[maxLen..] == old(dst[maxLen..])
  {
    var i := 0;
    while src[i] != NUL
      invariant i <= StrLen(src) && i <= maxLen
      invariant forall k :: 0 <= k < i ==> dst[k] == src[k]
      invariant forall k :: i <= k < dst.Length ==> dst[k] == old(dst[k])
      decreases StrLen(src) - i
    {
      if !(i < maxLen) {
        return Err(AssertionFailed(COPY_ASSERTION));
      }
      dst[i] := src[i];
      i := i + 1;
    }
    dst[i] := NUL;
    assert dst[..i + 1] == src[..i] + [NUL];
    assert dst[i + 1..] == old(dst[i + 1..]);
    r := Ok(());
  }

  /** What `copy` stores once the bound is also checked before the
      terminator: the stored string reads back as the source and never
      reaches `dst[max_len]`. */
  function CopyStores(src: seq<char>, maxLen: nat): (r: Result<seq<char>, Trap>)
    requires NUL in src
    ensures r.Ok? ==> |r.value| <= maxLen && NUL in r.value && CStr(r.value) == CStr(src)
  {
    if StrLen(src) < maxLen then
      CStrOfTerminated(CStr(src), []);
      Ok(CStr(src) + [NUL])
    else Err(AssertionFailed(COPY_ASSERTION))
  }

  /** The copy as written and the corrected copy agree on every input except
      a source of exactly `max_len` characters, which the first stores and
      the second refuses. */
  lemma CopyAgreement(src: seq<char>, maxLen: nat)
    requires NUL in src
    ensures CopyAsWritten(src, maxLen) == CopyStores(src, maxLen) <==> StrLen(src) != maxLen
    ensures StrLen(src) == maxLen ==> CopyAsWritten(src, maxLen).Ok? && CopyStores(src, maxLen).Err?
  {
  }

  /** A source of exactly `max_len` characters passes every check and the
      terminator lands at `dst[max_len]`: one byte past a buffer of
      `max_len` bytes, which is how todolist.c calls it. */
  lemma CopyAsWrittenOverruns(maxLen: nat)
    ensures var src := seq(maxLen, _ => 'x') + [NUL];
            CopyAsWritten(src, maxLen).Ok?
            && |CopyAsWritten(src, maxLen).value| == maxLen + 1
            && CopyAsWritten(src, maxLen).value[maxLen] == NUL
  {
    var src := seq(maxLen, _ => 'x') + [NUL];
    CStrOfTerminated(seq(maxLen, _ => 'x'), []);
  }

  /** `copy` with the bound also checked before the terminator is written,
      so that nothing is written at or beyond `dst[max_len]`: it traps exactly
      when the string does not fit together with its NUL; otherwise `dst`
      holds the string and its terminator and nothing else changes. */
  method Copy(src: seq<char>, dst: array<char>, maxLen: nat) returns (r: Result<(), Trap>)
    requires NUL in src
    requires maxLen <= dst.Length
    modifies dst
    ensures r.Ok? <==> StrLen(src) < maxLen
    ensures r.Ok? ==> dst[..StrLen(src) + 1] == CopyStores(src, maxLen).value
                      && dst[StrLen(src) + 1..] == old(dst[StrLen(src) + 1..])
    ensures r.Err? ==> r.error == CopyStores(src, maxLen).error
                       && dst[..maxLen] == src[..maxLen] && dst[maxLen..] == old(dst[maxLen..])
  {
    var i := 0;
    while src[i] != NUL
      invariant i <= StrLen(src) && i <= maxLen
      invariant forall k :: 0 <= k < i ==> dst[k] == src[k]
      invariant forall k :: i <= k < dst.Length ==> dst[k] == old(dst[k])
      decreases StrLen(src) - i
    {
      if !(i < maxLen) {
        return Err(AssertionFailed(COPY_ASSERTION));
      }
      dst[i] := src[i];
      i := i + 1;
    }
    if !(i < maxLen) {
      return Err(AssertionFailed(COPY_ASSERTION));
    }
    dst[i] := NUL;
    assert dst[..i + 1] == src[..i] + [NUL];
    assert dst[i + 1..] == old(dst[i + 1..]);
    r := Ok(());
  }
}
