/** siws/errors.go: the sentinels of package siws. Every error of the package wraps exactly one of them. */
module SiwsErrors {
  datatype SiwsError = Malformed | BadSignature | Expired | NotYetValid | DomainMismatch | NonceMismatch
}
