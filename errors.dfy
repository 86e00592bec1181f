/**
 * The error classes of the plain-text library (packages/ot-server/src/plaintext/errors.ts),
 * plus the two errors the modelled code meets without declaring them: the
 * length mismatch thrown by `compose`, and the `TypeError` JavaScript raises when
 * a property of `undefined` is read.
 */
module Errors {

  datatype Error =
    | AssertionError
    | NoopError
    | InvalidOperationError
    | TransactionFailureError
    | DOMFailureError
    | LengthMismatchError
    | TypeError
}
