/**
 * The client's connection to the server (packages/ot-monaco/src/ws-monaco/ws-adapter.ts):
 * the revision it believes current, its copy of the document, the last operation
 * it sent, whether the first snapshot has arrived, and the users it knows of.
 * The socket is an `open` flag and an outbox of operation messages; emitted events
 * are appended to a trace.
 */
module WSAdapters {
  import opened Wrappers
  import opened Errors
  import opened PlainText

  datatype Cursor = Cursor(position: int, selectionEnd: int)

  datatype User = User(userColor: string, userName: string)

  /** The copy of the operation and the revision it was tagged with when sent. */
  datatype SentOperation<Op> = SentOperation(revision: int, operation: Op)

  /** Events emitted to the editor client, in emission order. */
  datatype Event<Op> =
    | CursorChange(clientId: string, cursor: Option<Cursor>, userColor: Option<string>, userName: Option<string>)
    | InitialRevision
    | Operation(operation: Op)
    | Ready(ready: bool)
    | Acknowledge
    | ErrorEvent(err: Error, operation: Op, document: Op)

  /** Server messages, already parsed, discriminated by their `type`. */
  datatype ServerMessage =
    | UserConnected(userId: string, userName: string, userColor: string, cursor: Option<Cursor>)
    | UserDisconnected(userId: string)
    | UserCursor(userId: string, cursor: Option<Cursor>)
    | UserOperation(userId: string, revision: int, operation: Json)
    | Snapshot(revision: int, document: Option<Json>, operations: seq<Json>)
    | ServerError(message: string, code: Option<int>)

  /** Client messages written to the socket. */
  datatype ClientMessage = OperationMessage(revision: int, operation: Json)

  /**
   * The fold of a snapshot's operations into a document: either every operation
   * merged, or the fold stopped at index `at` holding the document composed so far.
   */
  datatype Folded<Op> = Folded(doc: Op) | Stuck(doc: Op, at: nat)

  /** Left fold of `compose` over the operations, which throws at the first that cannot merge. */
  ghost function ComposeAll<Op>(alg: Algebra<Op>, doc: Op, ops: seq<Json>): (f: Folded<Op>)
    ensures f.Stuck? ==> f.at < |ops| && !alg.CanMerge(f.doc, alg.fromJSON(ops[f.at]))
    decreases |ops|
  {
    if ops == [] then Folded(doc)
    else
      match ComposeAll(alg, doc, ops[..|ops| - 1])
      case Stuck(d, at) => Stuck(d, at)
      case Folded(d) =>
        var op := alg.fromJSON(ops[|ops| - 1]);
        if alg.CanMerge(d, op) then Folded(alg.compose(d, op)) else Stuck(d, |ops| - 1)
  }

  /** Once the fold is stuck on a prefix, the rest of the operations are never looked at. */
  lemma {:induction false} StuckPrefixDecides<Op>(alg: Algebra<Op>, doc: Op, ops: seq<Json>, i: nat)
    requires i <= |ops|
    requires ComposeAll(alg, doc, ops[..i]).Stuck?
    ensures ComposeAll(alg, doc, ops) == ComposeAll(alg, doc, ops[..i])
    decreases |ops| - i
  {
    if i < |ops| {
      assert ops[..i + 1][..i] == ops[..i];
      assert ComposeAll(alg, doc, ops[..i + 1]) == ComposeAll(alg, doc, ops[..i]);
      StuckPrefixDecides(alg, doc, ops, i + 1);
    } else {
      assert ops[..i] == ops;
    }
  }

  /** A stuck fold stops at the first operation that fails: it holds the fold of the operations before it. */
  lemma {:induction false} StuckAtFirst<Op>(alg: Algebra<Op>, doc: Op, ops: seq<Json>)
    requires ComposeAll(alg, doc, ops).Stuck?
    ensures ComposeAll(alg, doc, ops[..ComposeAll(alg, doc, ops).at]) == Folded(ComposeAll(alg, doc, ops).doc)
    decreases |ops|
  {
    var p := ops[..|ops| - 1];
    var at := ComposeAll(alg, doc, ops).at;
    if ComposeAll(alg, doc, p).Stuck? {
      StuckAtFirst(alg, doc, p);
      assert p[..at] == ops[..at];
    } else {
      assert ops[..at] == p;
    }
  }

  /** `revision || 0` for a revision that may be missing. */
  function OrZero(revision: Option<int>): (r: int)
    ensures revision.Some? ==> r == revision.value
    ensures revision.None? ==> r == 0
  {
    if revision.Some? then revision.value else 0
  }

  class WSAdapter<Op> {
    const alg: Algebra<Op>
    const userId: string
    const userColor: string
    const userName: string
    const serverUrl: string

    var document: Op
    var revision: int
    var ready: bool
    var sent: Option<SentOperation<Op>>
    var users: map<string, User>

    /** The socket exists and its state is OPEN. */
    var open: bool
    var outbox: seq<ClientMessage>
    var events: seq<Event<Op>>

    /**
     * The adapter is ready exactly when it has emitted Ready, and the last
     * operation sent is the last message in the outbox, with the same revision tag.
     */
    ghost predicate Valid()
      reads this
    {
      (ready <==> Ready(true) in events)
      && (sent.Some? ==>
            |outbox| > 0
            && outbox[|outbox| - 1] == OperationMessage(sent.value.revision, alg.toJSON(sent.value.operation)))
    }

    /** The user's name defaults to the user id when missing or empty; the socket starts out connecting. */
    constructor (alg: Algebra<Op>, serverUrl: string, userId: string, userColor: string, userName: Option<string>)
      ensures Valid()
      ensures this.alg == alg && this.serverUrl == serverUrl && this.userId == userId && this.userColor == userColor
      ensures this.userName == if userName.None? || userName.value == "" then userId else userName.value
      ensures document == alg.empty && revision == 0 && !ready && sent.None? && users == map[]
      ensures !open && outbox == [] && events == []
    {
      this.alg := alg;
      this.serverUrl := serverUrl;
      this.userId := userId;
      this.userColor := userColor;
      this.userName := if userName.None? || userName.value == "" then userId else userName.value;
      document := alg.empty;
      revision := 0;
      ready := false;
      sent := None;
      users := map[];
      open := false;
      outbox := [];
      events := [];
    }

    /**
     * `onmessage`: dispatch on the message type. The snapshot handler is handed the
     * payload's `revison` field, which the server never sends, so it always sees
     * no revision.
     */
    method OnMessage(msg: ServerMessage) returns (outcome: Outcome<Error>)
      requires Valid()
      modifies this
      ensures Valid()
      ensures sent == old(sent) && open == old(open) && outbox == old(outbox)
      ensures !msg.UserConnected? && !msg.UserDisconnected? ==> users == old(users)
      ensures !msg.UserOperation? && !msg.Snapshot? ==>
        document == old(document) && revision == old(revision) && ready == old(ready)
      ensures match msg
        case UserConnected(id, name, color, cursor) =>
          outcome == Pass && users == old(users)[id := User(color, name)]
          && events == old(events) + [CursorChange(id, cursor, Some(color), Some(name))]
        case UserDisconnected(id) =>
          outcome == Pass && users == old(users) - {id}
          && events == old(events) + [CursorChange(id, None, None, None)]
        case UserCursor(id, cursor) =>
          if id in users then
            outcome == Pass
            && events == old(events) + [CursorChange(id, cursor, Some(users[id].userColor), Some(users[id].userName))]
          else
            outcome == Fail(TypeError) && events == old(events)
        case UserOperation(_, rev, operation) =>
          outcome == Pass && OperationHandled(old(document), old(revision), old(events), rev, operation)
        case Snapshot(_, _, operations) =>
          revision == 0 && SnapshotHandled(old(ready), old(events), operations, outcome)
        case ServerError(_, _) =>
          outcome == Pass && events == old(events)
    {
      match msg
      case UserConnected(id, name, color, cursor) =>
        users := users[id := User(color, name)];
        events := events + [CursorChange(id, cursor, Some(color), Some(name))];
        return Pass;
      case UserDisconnected(id) =>
        users := users - {id};
        events := events + [CursorChange(id, None, None, None)];
        return Pass;
      case UserCursor(id, cursor) =>
        if id !in users {
          return Fail(TypeError);
        }
        var user := users[id];
        events := events + [CursorChange(id, cursor, Some(user.userColor), Some(user.userName))];
        return Pass;
      case UserOperation(from, rev, operation) =>
        HandleUserOperation(from, rev, operation);
        return Pass;
      case Snapshot(_, _, operations) =>
        outcome := HandleSnapshot(None, operations);
      case ServerError(_, _) =>
        return Pass;
    }

    /**
     * The state `_handleUserOperation` leaves, from the document, revision and
     * events it started with: the revision advanced, and, when the operation
     * merges, the document composed with it and either an acknowledgement (the
     * message carries the revision tag of the last send) or the operation emitted.
     */
    ghost predicate OperationHandled(doc0: Op, revision0: int, events0: seq<Event<Op>>, rev: int, operation: Json)
      reads this
    {
      var op := alg.fromJSON(operation);
      revision == revision0 + 1
      && if !alg.CanMerge(doc0, op) then
           document == doc0 && events == events0
         else
           document == alg.compose(doc0, op)
           && events == events0 + [if sent.Some? && rev == sent.value.revision then Acknowledge else Operation(op)]
    }

    /**
     * The state `_handleSnapshot` leaves apart from the revision: the document is
     * the fold of the operations from an empty one; when every operation merged the
     * adapter is ready and has emitted InitialRevision, the document and Ready in
     * that order, and when one did not the call failed with nothing emitted.
     */
    ghost predicate SnapshotHandled(ready0: bool, events0: seq<Event<Op>>, operations: seq<Json>, outcome: Outcome<Error>)
      reads this
    {
      var f := ComposeAll(alg, alg.empty, operations);
      document == f.doc
      && if f.Folded? then
           outcome == Pass && ready && events == events0 + [InitialRevision, Operation(f.doc), Ready(true)]
         else
           outcome == Fail(LengthMismatchError) && ready == ready0 && events == events0
    }

    /** `_handleSnapshot`: reset the revision and rebuild the document from the operations. */
    method HandleSnapshot(rev: Option<int>, operations: seq<Json>) returns (outcome: Outcome<Error>)
      requires Valid()
      modifies this
      ensures Valid()
      ensures revision == OrZero(rev)
      ensures SnapshotHandled(old(ready), old(events), operations, outcome)
      ensures sent == old(sent) && users == old(users) && open == old(open) && outbox == old(outbox)
    {
      revision := OrZero(rev);
      document := alg.empty;
      var i := 0;
      while i < |operations|
        invariant 0 <= i <= |operations|
        invariant ComposeAll(alg, alg.empty, operations[..i]) == Folded(document)
        invariant revision == OrZero(rev) && events == old(events) && ready == old(ready)
        invariant sent == old(sent) && users == old(users) && open == old(open) && outbox == old(outbox)
      {
        var op := alg.fromJSON(operations[i]);
        assert operations[..i + 1][..i] == operations[..i];
        if !alg.CanMerge(document, op) {
          StuckPrefixDecides(alg, alg.empty, operations, i + 1);
          return Fail(LengthMismatchError);
        }
        document := alg.compose(document, op);
        i := i + 1;
      }
      assert operations[..i] == operations;
      events := events + [InitialRevision, Operation(document)];
      ready := true;
      events := events + [Ready(true)];
      return Pass;
    }

    /** `_handleUserOperation`: count the broadcast, then merge it if it can. */
    method HandleUserOperation(from: string, rev: int, operation: Json)
      requires Valid()
      modifies this
      ensures Valid()
      ensures OperationHandled(old(document), old(revision), old(events), rev, operation)
      ensures sent == old(sent) && users == old(users) && ready == old(ready)
      ensures open == old(open) && outbox == old(outbox)
    {
      revision := revision + 1;
      var op := alg.fromJSON(operation);
      if !alg.CanMerge(document, op) {
        return;
      }
      document := alg.compose(document, op);
      if sent.Some? && rev == sent.value.revision {
        events := events + [Acknowledge];
      } else {
        events := events + [Operation(op)];
      }
    }

    /** `getDocument`. */
    function GetDocument(): (d: Op)
      reads this
      ensures d == document
    {
      document
    }

    /** `isCurrentUser`: the id is this adapter's user id. */
    function IsCurrentUser(clientId: string): (b: bool)
      ensures b <==> clientId == userId
    {
      userId == clientId
    }

    /**
     * `sendOperation`: nothing happens without an open socket; an operation that
     * cannot follow the document is reported by an Error event and thrown; otherwise
     * it is remembered with the current revision and sent tagged with it.
     */
    method SendOperation(operation: Op) returns (r: Result<bool, Error>)
      requires Valid()
      modifies this
      ensures Valid()
      ensures document == old(document) && revision == old(revision) && ready == old(ready)
      ensures users == old(users) && open == old(open)
      ensures !open ==> r == Ok(false) && sent == old(sent) && outbox == old(outbox) && events == old(events)
      ensures open && !alg.CanMerge(document, operation) ==>
        r == Err(InvalidOperationError) && sent == old(sent) && outbox == old(outbox)
        && events == old(events) + [ErrorEvent(InvalidOperationError, operation, document)]
      ensures open && alg.CanMerge(document, operation) ==>
        r == Ok(true) && sent == Some(SentOperation(revision, operation))
        && outbox == old(outbox) + [OperationMessage(revision, alg.toJSON(operation))]
        && events == old(events)
    {
      if !open {
        return Ok(false);
      }
      if !alg.CanMerge(document, operation) {
        events := events + [ErrorEvent(InvalidOperationError, operation, document)];
        return Err(InvalidOperationError);
      }
      var value := alg.toJSON(operation);
      sent := Some(SentOperation(revision, operation));
      outbox := outbox + [OperationMessage(revision, value)];
      return Ok(true);
    }
  }
}
