/** C strings, for the user programs. */
module CStrings {

  /** A C string, without its terminating NUL. */
  type CString = s: string | '\0' !in s witness ""

  /** s[i], where index |s| is the terminating NUL. */
  function At(s: CString, i: nat): char
    requires i <= |s|
  {
    if i < |s| then s[i] else '\0'
  }
}
