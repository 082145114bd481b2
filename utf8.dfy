/** Well-formed UTF-8, the check `String::from_utf8` makes before the borsh
    crate accepts the bytes of a `String`: the byte sequences of Table 3-7 of
    the Unicode Standard, section 3.9 (no overlong forms, no surrogates,
    nothing above U+10FFFF). */
module Utf8 {
  import opened Borsh

  predicate Continuation(b: Byte)
  {
    0x80 <= b <= 0xBF
  }

  /** The length of the well-formed sequence that starts `s`, or 0 when `s`
      does not start with one. */
  function SequenceLength(s: seq<Byte>): (n: nat)
    requires |s| > 0
    ensures n <= 4 && n <= |s|
    ensures n == 1 <==> s[0] <= 0x7F
  {
    var b := s[0];
    if b <= 0x7F then 1
    else if 0xC2 <= b <= 0xDF then
      (if |s| >= 2 && Continuation(s[1]) then 2 else 0)
    else if b == 0xE0 then
      (if |s| >= 3 && 0xA0 <= s[1] <= 0xBF && Continuation(s[2]) then 3 else 0)
    else if 0xE1 <= b <= 0xEC || 0xEE <= b <= 0xEF then
      (if |s| >= 3 && Continuation(s[1]) && Continuation(s[2]) then 3 else 0)
    else if b == 0xED then
      (if |s| >= 3 && 0x80 <= s[1] <= 0x9F && Continuation(s[2]) then 3 else 0)
    else if b == 0xF0 then
      (if |s| >= 4 && 0x90 <= s[1] <= 0xBF && Continuation(s[2]) && Continuation(s[3]) then 4 else 0)
    else if 0xF1 <= b <= 0xF3 then
      (if |s| >= 4 && Continuation(s[1]) && Continuation(s[2]) && Continuation(s[3]) then 4 else 0)
    else if b == 0xF4 then
      (if |s| >= 4 && 0x80 <= s[1] <= 0x8F && Continuation(s[2]) && Continuation(s[3]) then 4 else 0)
    else 0
  }

  /** `s` is a concatenation of well-formed sequences. Valid text never starts
      with a continuation byte, and the bytes C0, C1 and F5..FF never occur in
      it. */
  predicate Valid(s: seq<Byte>)
    ensures Valid(s) && s != [] ==> s[0] <= 0x7F || 0xC2 <= s[0] <= 0xF4
    ensures Valid(s) ==> forall i :: 0 <= i < |s| ==> s[i] != 0xC0 && s[i] != 0xC1 && s[i] <= 0xF4
    decreases |s|
  {
    s == [] || (SequenceLength(s) > 0 && Valid(s[SequenceLength(s)..]))
  }

  /** ASCII text is valid UTF-8. */
  lemma {:induction false} AsciiValid(s: seq<Byte>)
    requires forall i :: 0 <= i < |s| ==> s[i] <= 0x7F
    ensures Valid(s)
  {
    if s != [] {
      AsciiValid(s[1..]);
    }
  }
}
