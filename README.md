# ot-ws-monaco: revision log, insert atom and client adapter in Dafny

This project models three sequential pieces of the ot-ws-monaco collaborative
plain-text editor, an operational-transformation (OT) system with a server and
browser clients:

- **The server's revision log** (`TextState`, module `TextStates`). It holds the
  authoritative document, a revision counter, the operations received since the
  last snapshot, and that snapshot with its revision. Each operation is logged,
  counted and composed into the document. A log longer than 100 entries is folded
  into the snapshot. Catch-up queries (`getOperations`, `getSnapshot`) answer with
  JavaScript `slice` arithmetic. A ghost history of every operation ever received
  ties the fields together: the log is the history past the snapshot's revision,
  and snapshot and document are replays of the history.
- **The insert atom** (`InsertOperation`, module `InsertOperations`). It has a
  mutable text and a read-only, optional attribute map, compared key by key with
  JavaScript's `===`. Attribute values include `undefined`, NaN and objects
  compared by reference, so the edge cases of `===` are kept.
- **The client adapter** (`WSAdapter`, module `WSAdapters`). It keeps the
  revision, the document, the last sent operation, the ready flag and the known
  users, and reacts to already-parsed server messages and to `sendOperation`.
  The socket is an `open` flag plus an outbox of operation messages. Emitted events are
  appended to a trace.

The operation library (`PlainTextOperation`) is not part of this model. It
enters as a record of functions (`PlainText.Algebra`): an empty operation,
`fromJSON`, `toJSON`, base and target lengths, and `compose`. Two operations
can merge when the first one's target length equals the second one's base length.
Nothing else about the library is assumed. `clone` is the identity on these values.

Behaviour of the code a reader may not expect:

- `clientOperation` logs the operation and advances the revision *before*
  `compose` can throw. A rejected operation therefore stays in the log, advances
  the revision and skips compaction. The log can then exceed 100 entries until an
  operation merges. The document is unchanged by the rejected operation.
- Compaction happens when the log reaches 101 entries. Starting from a fresh log,
  the 101st merged operation leaves an empty log with snapshot revision 101.
- A client already at the current revision, past the snapshot, is sent the whole
  log again, because the slice start is 0 (`CatchUpAtHeadResendsLog`).
- The client's `server:snapshot` handler reads the field `revison`, which the
  server never sends, so the client's revision always becomes 0. It also ignores
  the snapshot document and folds only the operations, starting from an empty
  document. `JoiningClientMatchesServer` states when that still agrees with the
  server, `JoiningClientStuckOnSnapshot` when the client's fold then fails, and
  `JoiningClientAfterCompaction` that after a compaction the client folds an empty
  log into the empty document while the server's document is the snapshot.

## Model

| member | source | states |
|---|---|---|
| InsertOperations.InsertOperation.constructor | packages/ot-server/src/plaintext/insert-operation.ts:12-21 | the new insert holds the given text and attributes (null as `None`) |
| InsertOperations.InsertOperation.IsInsert | packages/ot-server/src/plaintext/insert-operation.ts:23-25 | an insert is always an insert |
| InsertOperations.InsertOperation.IsDelete | packages/ot-server/src/plaintext/insert-operation.ts:27-29 | an insert is never a delete |
| InsertOperations.InsertOperation.IsRetain | packages/ot-server/src/plaintext/insert-operation.ts:31-33 | an insert is never a retain |
| InsertOperations.InsertOperation.Equals | packages/ot-server/src/plaintext/insert-operation.ts:35-41 | equal exactly when the other atom is an insert with equal attributes and identical text; the source asks the other atom, the contract states it from this side |
| InsertOperations.InsertOperation.AttributesEqual | packages/ot-server/src/plaintext/insert-operation.ts:43-61 | the two key loops with early exit decide exactly `AttrsEqual`: when either side is null, true exactly when both are; otherwise every key of either map reads `===`-equal on both sides |
| InsertOperations.AttrsEqualSymmetric | packages/ot-server/src/plaintext/insert-operation.ts:43-61 | attribute equality does not depend on which side is the receiver |
| InsertOperations.AttrsEqualIsMapEquality | packages/ot-server/src/plaintext/insert-operation.ts:43-61 | without NaN or `undefined` values, attribute equality is equality of the maps |
| InsertOperations.UndefinedMatchesMissingKey | packages/ot-server/src/plaintext/insert-operation.ts:48-58 | adding a key with the value `undefined` to a map without NaN values leaves it attribute-equal to the map, because a missing key reads as `undefined` |
| InsertOperations.NaNAttributeNotSelfEqual | packages/ot-server/src/plaintext/insert-operation.ts:49 | any attribute map holding a NaN value is not attribute-equal to itself |
| InsertOperations.EqualsSymmetric | packages/ot-server/src/plaintext/insert-operation.ts:35-61 | two inserts agree on whether they are equal, whichever one is asked |
| InsertOperations.EqualsReflexive | packages/ot-server/src/plaintext/insert-operation.ts:35-61 | an insert equals itself unless one of its attribute values is NaN |
| InsertOperations.EqualsOnlyInserts | packages/ot-server/src/plaintext/insert-operation.ts:35-41 | no insert equals a retain or a delete |
| InsertOperations.InsertOperation.CharacterCountEqual | packages/ot-server/src/plaintext/insert-operation.ts:63-65 | never equal to any character count |
| InsertOperations.InsertOperation.TextContentEqual | packages/ot-server/src/plaintext/insert-operation.ts:67-69 | true exactly when the given text is the insert's text |
| InsertOperations.InsertOperation.AddCharacterCount | packages/ot-server/src/plaintext/insert-operation.ts:71-73 | always fails with `NoopError` |
| InsertOperations.InsertOperation.AddTextContent | packages/ot-server/src/plaintext/insert-operation.ts:75-77 | the text becomes the old text followed by the argument; the attributes are a constant field and cannot change |
| InsertOperations.InsertOperation.SetTextContent | packages/ot-server/src/plaintext/insert-operation.ts:79-81 | the text becomes the argument; the attributes cannot change |
| InsertOperations.InsertOperation.CharacterCount | packages/ot-server/src/plaintext/insert-operation.ts:83-85 | always fails with `NoopError` |
| InsertOperations.InsertOperation.TextContent | packages/ot-server/src/plaintext/insert-operation.ts:87-89 | `textContent` (and `valueOf`, lines 107-109) return the current text of the atom |
| InsertOperations.InsertOperation.HasEmptyAttributes | packages/ot-server/src/plaintext/insert-operation.ts:91-97 | true exactly when the attributes are null or have no keys |
| InsertOperations.InsertOperation.GetAttributes | packages/ot-server/src/plaintext/insert-operation.ts:99-101 | a copy equal to the attributes, and the empty map when they are null |
| InsertOperations.EmptyAttributesHaveEmptyCopy | packages/ot-server/src/plaintext/insert-operation.ts:91-101 | the attributes are empty exactly when their copy is the empty map |
| InsertOperations.NullAttributesCopyDiffers | packages/ot-server/src/plaintext/insert-operation.ts:99-101 | the copy of null attributes is not attribute-equal to them: `getAttributes` does not give back null |
| InsertOperations.InsertOperation.ToString | packages/ot-server/src/plaintext/insert-operation.ts:103-105 | the string is `INSERT "` then the text then `"`, so the text can be read back from it |
| TextStates.TextState.constructor | packages/ot-server/src/text-state.ts:4-14 | revision 0, empty log, snapshot revision 0, snapshot and document both the operation built from `[text]`, and the log invariant holds |
| TextStates.TextState.ClientOperation | packages/ot-server/src/text-state.ts:16-26 | the operation is appended to the history, the revision grows by one; when it merges the document becomes `compose(old document, op)` and a log past 100 entries is emptied with snapshot and snapshot revision set to document and revision; when it does not merge it fails with a length mismatch, stays logged and the document is unchanged; after a success the log holds at most 100 entries; the invariant is kept |
| TextStates.ReplayAppend | packages/ot-server/src/text-state.ts:16-26 | replaying a log in two pieces is replaying it whole |
| TextStates.DocumentIsSnapshotPlusLog | packages/ot-server/src/text-state.ts:16-26 | between calls, the snapshot followed by the log replays to the document |
| TextStates.JsSlice | packages/ot-server/src/text-state.ts:29 | `slice(start)` gives the suffix of length `len - start` for a non-negative start (nothing past the end) and of length `-start` for a negative one (the whole array when that exceeds it) |
| TextStates.TextState.GetOperations | packages/ot-server/src/text-state.ts:28-30 | the whole log for a revision at or before the snapshot's or equal to the current one; exactly the operations after `r` for `r` between them; a suffix of the log for a revision ahead of the server |
| TextStates.TextState.GetSnapshot | packages/ot-server/src/text-state.ts:32-34 | the snapshot's JSON exactly when the snapshot's revision is at least `r`, nothing otherwise |
| TextStates.CatchUpReachesDocument | packages/ot-server/src/text-state.ts:28-34 | for any revision at or before the snapshot's or before the current one, replaying the operations sent, from the snapshot when one is sent and from the client's own revision otherwise, reaches the server's document |
| TextStates.CatchUpAtHeadResendsLog | packages/ot-server/src/text-state.ts:28-30 | a client at the current revision past the snapshot gets no snapshot and the whole non-empty log, not the empty tail |
| WSAdapters.ComposeAll | packages/ot-monaco/src/ws-monaco/ws-adapter.ts:131-136 | the left fold of `compose` from a start document either gets through every operation or stops at an operation that cannot merge with what was composed so far (that it is the first one is `StuckAtFirst`) |
| WSAdapters.StuckAtFirst | packages/ot-monaco/src/ws-monaco/ws-adapter.ts:133-136 | a stuck fold holds exactly the fold of the operations before the stuck index, so that index is the first operation that fails to merge |
| WSAdapters.StuckPrefixDecides | packages/ot-monaco/src/ws-monaco/ws-adapter.ts:133-136 | once the fold stops on a prefix, the later operations do not change its result |
| WSAdapters.OrZero | packages/ot-monaco/src/ws-monaco/ws-adapter.ts:130 | `revision \|\| 0`: the given revision, or 0 when it is missing |
| WSAdapters.WSAdapter.constructor | packages/ot-monaco/src/ws-monaco/ws-adapter.ts:58-79 | empty document, revision 0, not ready, nothing sent, no users, socket not yet open; the user name defaults to the user id when missing or empty |
| WSAdapters.WSAdapter.OnMessage | packages/ot-monaco/src/ws-monaco/ws-adapter.ts:90-123 | `user:connected` sets the user's entry and `user:disconnected` removes it, each emitting one cursor change; `user:cursor` for an unknown user throws a TypeError; `user:operation` and `server:snapshot` behave as their handlers, the snapshot always with revision 0; `error` changes nothing; nothing is sent |
| WSAdapters.WSAdapter.HandleSnapshot | packages/ot-monaco/src/ws-monaco/ws-adapter.ts:128-146 | the revision becomes `revision \|\| 0` and the document the fold of the operations from empty; when every operation merges the adapter emits InitialRevision, Operation(document), Ready in that order and is ready; otherwise it fails with a length mismatch and emits nothing |
| WSAdapters.WSAdapter.HandleUserOperation | packages/ot-monaco/src/ws-monaco/ws-adapter.ts:151-165 | the revision grows by one even for a rejected operation; an operation that cannot merge leaves the document and events unchanged; otherwise the document becomes `compose(document, op)` and an Acknowledge is emitted exactly when something was sent with the message's revision tag, else Operation(op); the sent record is never cleared |
| WSAdapters.WSAdapter.GetDocument | packages/ot-monaco/src/ws-monaco/ws-adapter.ts:212-214 | the current document |
| WSAdapters.WSAdapter.IsCurrentUser | packages/ot-monaco/src/ws-monaco/ws-adapter.ts:240-243 | true exactly when the id is this adapter's user id |
| WSAdapters.WSAdapter.SendOperation | packages/ot-monaco/src/ws-monaco/ws-adapter.ts:251-273 | without an open socket returns false and changes nothing; an operation that cannot merge emits one Error event and fails with `InvalidOperationError`, sending nothing; otherwise records the operation with the current revision, sends one message with that revision tag and returns true; the revision and document never change |
| CatchUp.FoldedComposeAllIsReplay | packages/ot-monaco/src/ws-monaco/ws-adapter.ts:131-136 | when the client's fold gets through every operation it equals the server's replay of the same log |
| CatchUp.JoiningClientMatchesServer | packages/ot-server/src/ot.ts:194-200 | a client joining at revision 0 is sent the whole log, and folding it reaches the server's document when the snapshot is the empty document and every logged operation merges |
| CatchUp.JoiningClientStuckOnSnapshot | packages/ot-server/src/ot.ts:194-200 | when the snapshot's target length differs from the empty document's and the log's first operation follows the snapshot, a client joining at revision 0 fails to fold the operations it is sent |
| CatchUp.JoiningClientAfterCompaction | packages/ot-server/src/ot.ts:194-200 | when the log is empty, as right after a compaction, a client joining at revision 0 folds nothing and holds the empty document, while the server's document is the snapshot it never reads |

## Left out

- The operation library (`PlainTextOperation`: `compose`, `transform`, `canMergeWith`, `fromJSON`, `toJSON`, `clone`) is not part of this model. It is a record of functions, and only the length condition for merging is stated. No convergence or associativity is claimed.
- `fromJSON` is total here. A malformed operation that would make it throw is not modelled.
- Attribute lookup reads only a map's own keys. Keys inherited from `Object.prototype` (such as `toString`) are not modelled. Numbers are integers plus NaN, so fractions, infinities and `-0` are not modelled.
- `sendOperation` is `async`. Its thrown error, a rejected promise, is modelled as an `Err` result, and its `true`/`false` as `Ok`.
- The socket, `JSON.parse`/`stringify`, `console.log` and the mitt emitter (`on`, `off`, `_trigger`) are not modelled. Emission is appending to the event trace, and the socket's readiness is the `open` field, which the environment sets.
- `sendCursor`, which writes a `cursor:message` to the socket, and `dispose`, which closes it, are not modelled: the outbox holds only operation messages, and `open` is set from outside. `isHistoryEmpty` and the no-op setters `setUserId`, `setUserColor` and `setUserName` change no state.
- `toString` of operations inside Error events is not modelled. The event carries the operation and document values themselves.
- The server's transport and routing (packages/ot-server/src/ot.ts, packages/ot-server/src/index.ts), the browser bootstrap, the editor facade and the build configuration are not part of this model.
- The client synchronization states (Synchronized, AwaitingConfirm, AwaitingWithBuffer) are not part of this model. Only the interface of their three predicates exists in the repository.
