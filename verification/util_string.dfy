/**
 * String of Source/GfxUtil.h: a heap-allocated, NUL-terminated `char*` that
 * starts out NULL. The model keeps the pointer's two states apart: `Null`
 * is the pointer a default-constructed String holds, `Text(chars)` the
 * characters before the terminating NUL.
 */
module GfxString {
  import opened Wrappers

  const NUL: char := 0 as char

  /** Characters that can sit before a C string's terminator. */
  predicate IsCText(s: string) {
    forall i :: 0 <= i < |s| ==> s[i] != NUL
  }

  /** Text a `char*` can carry: what a C string holds before its terminator. */
  type CText = s: string | IsCText(s)

  datatype CString = Null | Text(chars: CText)

  /** The fault of calling `strlen` (or reading through) a NULL pointer. */
  datatype Fault = NullDereference

  /** The characters of a String; a NULL String reads as empty where the code tests for NULL first. */
  function Contents(s: CString): CText {
    if s.Null? then "" else s.chars
  }

  /**
   * `Append(str, len)`: the old text (empty when NULL, which is tested)
   * followed by what `strncpy` copies, at most `len` characters of `str`,
   * stopping at its terminator.
   */
  function AppendN(s: CString, str: CText, len: nat): (r: CString)
    ensures r.Text?
    ensures |r.chars| == |Contents(s)| + (if len < |str| then len else |str|)
    ensures r.chars[..|Contents(s)|] == Contents(s)
    ensures r.chars[|Contents(s)|..] == str[..if len < |str| then len else |str|]
  {
    var copied := if len < |str| then str[..len] else str;
    Text(Contents(s) + copied)
  }

  /**
   * `Append(const char*)`: `Append(str, strlen(str))`. `strlen` of a NULL
   * argument is not tested for and faults.
   */
  function Append(s: CString, str: CString): (r: Result<CString, Fault>)
    ensures str.Null? <==> r.Failure?
    ensures r.Success? ==> r.value.Text? && r.value.chars == Contents(s) + str.chars
  {
    if str.Null? then Failure(NullDereference)
    else
      assert str.chars[..|str.chars|] == str.chars;
      Success(AppendN(s, str.chars, |str.chars|))
  }

  /** `Length()`: `strlen` of the pointer, a fault for a NULL String. */
  function Length(s: CString): (r: Result<nat, Fault>)
    ensures s.Null? <==> r.Failure?
    ensures r.Success? ==> r.value == |s.chars|
  {
    if s.Null? then Failure(NullDereference) else Success(|s.chars|)
  }

  /** Appending text and then measuring gives the sum of the lengths. */
  lemma AppendLength(s: CString, t: CText)
    ensures Append(s, Text(t)).Success?
    ensures Length(Append(s, Text(t)).value) == Success(|Contents(s)| + |t|)
  {
  }

  /** Appending two pieces one after the other is appending their concatenation. */
  lemma AppendTwice(s: CString, a: CText, b: CText)
    ensures Append(s, Text(a)).Success?
    ensures Append(Append(s, Text(a)).value, Text(b)) == Append(s, Text(a + b))
  {
    var ab := a + b;
    assert forall i :: 0 <= i < |ab| ==> ab[i] != NUL by {
      forall i | 0 <= i < |ab| ensures ab[i] != NUL {
        if i < |a| { assert ab[i] == a[i]; } else { assert ab[i] == b[i - |a|]; }
      }
    }
    assert Contents(s) + a + b == Contents(s) + ab;
  }
}
