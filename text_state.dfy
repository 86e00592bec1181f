/**
 * The server's revision log (packages/ot-server/src/text-state.ts): the
 * authoritative document, a revision counter, the operations accepted since the
 * last snapshot, and that snapshot with its revision.
 */
module TextStates {
  import opened Wrappers
  import opened Errors
  import opened PlainText

  /** The log's length past which it is compacted into the snapshot. */
  const MaxLogLength: nat := 100

  /**
   * How one logged operation changes the server's document: composed in when it
   * can merge, otherwise left out, since the throwing `compose` never assigns.
   */
  ghost function Step<Op>(alg: Algebra<Op>, doc: Op, entry: Json): Op {
    var op := alg.fromJSON(entry);
    if alg.CanMerge(doc, op) then alg.compose(doc, op) else doc
  }

  /** The document reached from `doc` by the logged operations, in order. */
  ghost function Replay<Op>(alg: Algebra<Op>, doc: Op, log: seq<Json>): Op
    decreases |log|
  {
    if log == [] then doc else Step(alg, Replay(alg, doc, log[..|log| - 1]), log[|log| - 1])
  }

  /** Replaying a log in two pieces is replaying it whole. */
  lemma {:induction false} ReplayAppend<Op>(alg: Algebra<Op>, doc: Op, a: seq<Json>, b: seq<Json>)
    ensures Replay(alg, doc, a + b) == Replay(alg, Replay(alg, doc, a), b)
    decreases |b|
  {
    if b == [] {
      assert a + b == a;
    } else {
      var ab := a + b;
      assert ab[..|ab| - 1] == a + b[..|b| - 1];
      assert ab[|ab| - 1] == b[|b| - 1];
      ReplayAppend(alg, doc, a, b[..|b| - 1]);
    }
  }

  /**
   * JavaScript's `s.slice(start)`: the suffix of `s` from `start`, where a negative
   * `start` counts back from the end and is clamped at the front, and a start past
   * the end gives nothing.
   */
  function JsSlice<T>(s: seq<T>, start: int): (r: seq<T>)
    ensures start >= 0 ==> |r| == (if start <= |s| then |s| - start else 0)
    ensures start < 0 ==> |r| == (if -start <= |s| then -start else |s|)
    ensures r == s[|s| - |r|..]
  {
    if start < 0 then (if |s| + start < 0 then s else s[|s| + start..])
    else if start <= |s| then s[start..]
    else []
  }

  class TextState<Op> {
    const alg: Algebra<Op>
    /** The document built from the constructor's text. */
    ghost const initial: Op
    /** Every operation received since construction, compacted or not. */
    ghost var history: seq<Json>

    var operations: seq<Json>
    var snapshotRevision: int
    var document: Op
    var snapshot: Op
    var revision: int

    /**
     * The revision counts the operations received; the log holds those after the
     * snapshot's revision; the snapshot and the document are the replays of the
     * history up to the snapshot's revision and in full.
     */
    ghost predicate Valid()
      reads this
    {
      0 <= snapshotRevision <= revision == |history|
      && revision == snapshotRevision + |operations|
      && operations == history[snapshotRevision..]
      && snapshot == Replay(alg, initial, history[..snapshotRevision])
      && document == Replay(alg, initial, history)
    }

    constructor (alg: Algebra<Op>, text: string)
      ensures Valid()
      ensures this.alg == alg && history == []
      ensures document == alg.fromJSON([JString(text)]) && snapshot == document
      ensures revision == 0 && snapshotRevision == 0 && operations == []
    {
      this.alg := alg;
      var doc := alg.fromJSON([JString(text)]);
      initial := doc;
      history := [];
      operations := [];
      snapshotRevision := 0;
      document := doc;
      snapshot := doc;
      revision := 0;
    }

    /**
     * `clientOperation`: the operation is logged and the revision advanced before
     * it is composed into the document. A failing compose throws and skips the
     * compaction; otherwise a log longer than `MaxLogLength` is folded into the
     * snapshot.
     */
    method ClientOperation(ops: Json) returns (outcome: Outcome<Error>)
      requires Valid()
      modifies this
      ensures Valid()
      ensures history == old(history) + [ops]
      ensures revision == old(revision) + 1
      ensures var op := alg.fromJSON(ops);
        if alg.CanMerge(old(document), op) then
          outcome == Pass && document == alg.compose(old(document), op)
          && if |old(operations)| + 1 > MaxLogLength then
               operations == [] && snapshot == document && snapshotRevision == revision
             else
               operations == old(operations) + [ops] && snapshot == old(snapshot)
               && snapshotRevision == old(snapshotRevision)
        else
          outcome == Fail(LengthMismatchError) && document == old(document)
          && operations == old(operations) + [ops] && snapshot == old(snapshot)
          && snapshotRevision == old(snapshotRevision)
      ensures outcome.Pass? ==> |operations| <= MaxLogLength
    {
      ghost var before := history;
      operations := operations + [ops];
      revision := revision + 1;
      history := history + [ops];
      assert history[..|history| - 1] == before;
      assert history[..snapshotRevision] == before[..snapshotRevision];
      assert history[snapshotRevision..] == before[snapshotRevision..] + [ops];
      var op := alg.fromJSON(ops);
      if !alg.CanMerge(document, op) {
        return Fail(LengthMismatchError);
      }
      document := alg.compose(document, op);
      if |operations| > MaxLogLength {
        operations := [];
        snapshot := document;
        snapshotRevision := revision;
        assert history[..snapshotRevision] == history;
      }
      return Pass;
    }

    /**
     * `getOperations`: for a revision at or past the snapshot's, or for 0, the log
     * sliced at `r - revision`; otherwise the whole log.
     */
    function GetOperations(r: int): (ops: seq<Json>)
      reads this
      ensures Valid() && r <= snapshotRevision ==> ops == operations
      ensures Valid() && snapshotRevision <= r < revision ==> ops == history[r..]
      ensures Valid() && r == revision ==> ops == operations
      ensures Valid() && revision < r ==>
        ops == operations[if r - revision <= |operations| then r - revision else |operations|..]
    {
      if snapshotRevision <= r || r == 0 then JsSlice(operations, r - revision) else operations
    }

    /** `getSnapshot`: the snapshot's JSON when its revision is at least `r`, nothing otherwise. */
    function GetSnapshot(r: int): (s: Option<Json>)
      reads this
      ensures s.Some? <==> r <= snapshotRevision
      ensures s.Some? ==> s.value == alg.toJSON(snapshot)
    {
      if snapshotRevision >= r then Some(alg.toJSON(snapshot)) else None
    }
  }

  /** Between calls, the snapshot followed by the log replays to the document. */
  lemma DocumentIsSnapshotPlusLog<Op>(st: TextState<Op>)
    requires st.Valid()
    ensures Replay(st.alg, st.snapshot, st.operations) == st.document
  {
    var h := st.history;
    assert h == h[..st.snapshotRevision] + h[st.snapshotRevision..];
    ReplayAppend(st.alg, st.initial, h[..st.snapshotRevision], h[st.snapshotRevision..]);
  }

  /**
   * Catch-up is consistent for every revision at or before the snapshot's and for
   * every revision before the current one (so not for the current revision when it
   * is past the snapshot, nor for a revision ahead of the server): a client holding
   * the document of revision `r` that starts from the snapshot when one is sent, and
   * from its own document otherwise, and replays the operations sent, reaches the
   * server's document.
   */
  lemma CatchUpReachesDocument<Op>(st: TextState<Op>, r: int)
    requires st.Valid()
    requires r <= st.snapshotRevision || r < st.revision
    ensures st.GetSnapshot(r).None? ==> 0 <= r <= |st.history|
    ensures var base := if st.GetSnapshot(r).Some? then st.snapshot
                        else Replay(st.alg, st.initial, st.history[..r]);
            Replay(st.alg, base, st.GetOperations(r)) == st.document
  {
    if r <= st.snapshotRevision {
      DocumentIsSnapshotPlusLog(st);
    } else {
      var h := st.history;
      assert h == h[..r] + h[r..];
      ReplayAppend(st.alg, st.initial, h[..r], h[r..]);
    }
  }

  /**
   * A client already at the current revision, past the snapshot, is sent no
   * snapshot and the whole non-empty log again (`slice(0)`), not the empty tail.
   */
  lemma CatchUpAtHeadResendsLog<Op>(st: TextState<Op>)
    requires st.Valid() && st.snapshotRevision < st.revision
    ensures st.GetSnapshot(st.revision).None?
    ensures st.GetOperations(st.revision) == st.operations != st.history[st.revision..]
  {
  }
}
