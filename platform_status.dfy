/**
 * Translation of a macOS Security framework error into an enclave error.
 * The framework error is given by its numeric status code and by the text
 * its `to_string()` returns; both come from the platform and are parameters.
 */
module PlatformStatus {
  import opened Wrappers
  import opened EnclaveErrors
  import DebugString

  /** `errSecUserCanceled`: the user refused or cancelled the authorisation prompt. */
  const ErrSecUserCanceled: int := -128
  /** `errSecItemNotFound`: no keychain item matched. */
  const ErrSecItemNotFound: int := -25300

  const UnknownErrorText := "Unknown error"

  /** The kind a status code maps to; `description` is the framework error's text. */
  function Classify(code: int, description: string): (k: ErrorKind)
    ensures k.AccessDenied? <==> code == ErrSecUserCanceled
    ensures k.ItemNotFound? <==> code == ErrSecItemNotFound
    ensures k.GeneralError? <==> code != ErrSecUserCanceled && code != ErrSecItemNotFound
    ensures !k.ConnectionFailure?
    ensures k.GeneralError? ==> k.msg == UnknownErrorText
    ensures k.AccessDenied? ==> k.msg == DebugString.Quote(description)
  {
    if code == ErrSecUserCanceled then AccessDenied(DebugString.Quote(description))
    else if code == ErrSecItemNotFound then ItemNotFound
    else GeneralError(UnknownErrorText)
  }

  /** `From<security_framework::base::Error> for EnclaveError`: total, never fails. */
  function FromPlatformError(code: int, description: string): (e: EnclaveError)
    ensures e.Kind() == Classify(code, description)
    ensures e.Chain() == [KindText(Classify(code, description)), ""]
  {
    FromKind(Classify(code, description))
  }

  /**
   * An access denial carries the framework's text in Rust debug quoting, and
   * nothing is lost: the text reads back exactly.
   */
  lemma AccessDeniedKeepsDescription(description: string)
    ensures FromPlatformError(ErrSecUserCanceled, description).Kind().AccessDenied?
    ensures FromPlatformError(ErrSecUserCanceled, description).Kind().msg == DebugString.Quote(description)
    ensures DebugString.Unquote(FromPlatformError(ErrSecUserCanceled, description).Kind().msg)
      == Some((description, ""))
  {
    var q := DebugString.Quote(description);
    DebugString.QuoteRoundTrip(description, "");
    assert q + "" == q;
  }

  /** Two access denials are equal exactly when the framework texts are. */
  lemma AccessDeniedDistinguishesDescriptions(d1: string, d2: string)
    ensures FromPlatformError(ErrSecUserCanceled, d1) == FromPlatformError(ErrSecUserCanceled, d2) <==> d1 == d2
  {
    DebugString.QuoteInjective(d1, d2);
  }

  /**
   * Every status code other than the two known ones yields the same error:
   * neither the code nor the framework's text survives the translation.
   */
  lemma UnknownCodesDiscardDetail(c1: int, c2: int, d1: string, d2: string)
    requires c1 != ErrSecUserCanceled && c1 != ErrSecItemNotFound
    requires c2 != ErrSecUserCanceled && c2 != ErrSecItemNotFound
    ensures FromPlatformError(c1, d1) == FromPlatformError(c2, d2) == FromKind(GeneralError(UnknownErrorText))
  {
  }
}
