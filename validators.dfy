/** Upload validation predicates (app/utils/validators.py). */
module Validators {
  import opened Config

  /** Lower-cases one character; only the ASCII letters A-Z change. */
  function LowerChar(c: char): char {
    if 'A' <= c <= 'Z' then (c as int - 'A' as int + 'a' as int) as char else c
  }

  /** `str.lower()`, restricted to ASCII letters: every character is lowered in place. */
  function ToLower(s: string): (r: string)
    ensures |r| == |s|
    ensures forall i :: 0 <= i < |s| ==> r[i] == LowerChar(s[i])
  {
    if s == [] then [] else [LowerChar(s[0])] + ToLower(s[1..])
  }

  /** `a` and `b` are the same string up to the case of their letters. */
  predicate EqualIgnoringCase(a: string, b: string) {
    |a| == |b| && forall i :: 0 <= i < |a| ==> LowerChar(a[i]) == LowerChar(b[i])
  }

  /** A string with no upper-case letter. */
  predicate IsLowerCase(s: string) {
    forall i :: 0 <= i < |s| ==> !('A' <= s[i] <= 'Z')
  }

  /** Lower-casing is idempotent. */
  lemma ToLowerIdempotent(s: string)
    ensures ToLower(ToLower(s)) == ToLower(s)
  {
  }

  /** A lower-case string is its own lower-case form. */
  lemma LowerCaseIsFixed(s: string)
    requires IsLowerCase(s)
    ensures ToLower(s) == s
  {
  }

  /** Two strings lower to the same string exactly when they are equal up to case. */
  lemma ToLowerEqualIff(a: string, b: string)
    ensures ToLower(a) == ToLower(b) <==> EqualIgnoringCase(a, b)
  {
  }

  /**
   * `validate_mime_type`: the lower-cased type must be on the allow-list. Since every
   * allowed type is written in lower case, this accepts exactly the strings that equal
   * an allowed type up to the case of their letters.
   */
  function ValidateMimeType(mimeType: string): (ok: bool)
    ensures ok <==> exists allowed :: allowed in AllowedMimeTypes && EqualIgnoringCase(mimeType, allowed)
  {
    var ok := ToLower(mimeType) in AllowedMimeTypes;
    forall allowed | allowed in AllowedMimeTypes
      ensures ToLower(mimeType) == allowed <==> EqualIgnoringCase(mimeType, allowed)
    {
      assert IsLowerCase(allowed);
      LowerCaseIsFixed(allowed);
      ToLowerEqualIff(mimeType, allowed);
    }
    ok
  }

  /** The verdict depends only on the lower-cased type: the check is case-insensitive. */
  lemma MimeTypeCaseInsensitive(a: string, b: string)
    requires EqualIgnoringCase(a, b)
    ensures ValidateMimeType(a) == ValidateMimeType(b)
  {
  }

  /** The verdict depends only on the lower-cased type. */
  lemma MimeTypeDependsOnLowerCase(mimeType: string)
    ensures ValidateMimeType(mimeType) == ValidateMimeType(ToLower(mimeType))
  {
    ToLowerIdempotent(mimeType);
  }

  /** Upper-case and mixed-case spellings of allowed types pass. */
  lemma MimeTypeAcceptsAnyCase()
    ensures ValidateMimeType("IMAGE/PNG") && ValidateMimeType("Image/Jpeg")
  {
    assert EqualIgnoringCase("IMAGE/PNG", "image/png");
    assert EqualIgnoringCase("Image/Jpeg", "image/jpeg");
  }

  /** A missing content type (the empty string) and `text/plain` fail. */
  lemma MimeTypeRejects()
    ensures !ValidateMimeType("") && !ValidateMimeType("text/plain")
  {
  }

  /** `validate_file_size`: accepts exactly the sizes in (0, 5 MiB]. */
  function ValidateFileSize(size: int): (ok: bool)
    ensures ok <==> 0 < size <= 5242880
  {
    0 < size <= MaxFileSize
  }

  /** The boundaries of the size check: empty is rejected, exactly 5 MiB is accepted, one byte more is not. */
  lemma FileSizeBoundaries()
    ensures !ValidateFileSize(0) && ValidateFileSize(5242880) && !ValidateFileSize(5242881)
  {
  }

  /**
   * After MIME validation the extension lookup on the lower-cased type always succeeds,
   * with `jpg` or `png`; the `"jpg"` default of the upload path is never used.
   */
  lemma ValidatedMimeTypeHasExtension(mimeType: string)
    requires ValidateMimeType(mimeType)
    ensures ExtensionFor(ToLower(mimeType)).Some?
    ensures ExtensionFor(ToLower(mimeType)).value in {"jpg", "png"}
  {
  }
}
