/**
 * How the client's snapshot handling meets the server's catch-up answer: the
 * server sends `getOperations` for revision 0 (the revision it parses from every
 * connection), and the client folds those operations into an empty document,
 * ignoring the snapshot document sent beside them.
 */
module CatchUp {
  import opened PlainText
  import opened TextStates
  import opened WSAdapters

  /** When the client's fold gets through every operation it agrees with the server's replay. */
  lemma {:induction false} FoldedComposeAllIsReplay<Op>(alg: Algebra<Op>, doc: Op, ops: seq<Json>)
    requires ComposeAll(alg, doc, ops).Folded?
    ensures ComposeAll(alg, doc, ops).doc == Replay(alg, doc, ops)
    decreases |ops|
  {
    if ops != [] {
      FoldedComposeAllIsReplay(alg, doc, ops[..|ops| - 1]);
    }
  }

  /**
   * A client that joins at revision 0 reaches the server's document when the
   * server's snapshot is the empty document (so dropping it loses nothing) and
   * every logged operation merges.
   */
  lemma JoiningClientMatchesServer<Op>(st: TextState<Op>)
    requires st.Valid() && st.snapshot == st.alg.empty
    requires ComposeAll(st.alg, st.alg.empty, st.operations).Folded?
    ensures st.GetOperations(0) == st.operations
    ensures ComposeAll(st.alg, st.alg.empty, st.GetOperations(0)).doc == st.document
  {
    DocumentIsSnapshotPlusLog(st);
    FoldedComposeAllIsReplay(st.alg, st.alg.empty, st.operations);
  }

  /**
   * The other side: when the snapshot does not end where the empty document does
   * and the log's first operation follows the snapshot, a client joining at
   * revision 0 cannot fold the log onto the empty document it starts from.
   */
  lemma JoiningClientStuckOnSnapshot<Op>(st: TextState<Op>)
    requires st.Valid() && |st.operations| > 0
    requires st.alg.targetLength(st.snapshot) != st.alg.targetLength(st.alg.empty)
    requires st.alg.CanMerge(st.snapshot, st.alg.fromJSON(st.operations[0]))
    ensures ComposeAll(st.alg, st.alg.empty, st.GetOperations(0)).Stuck?
  {
    var ops := st.operations;
    assert ops[..1][..0] == [];
    assert ops[..1][0] == ops[0];
    StuckPrefixDecides(st.alg, st.alg.empty, ops, 1);
  }

  /**
   * The case the fold cannot catch: with an empty log, as right after a
   * compaction, a joining client folds nothing and is ready with the empty
   * document, while the server's document is the snapshot the client never reads.
   */
  lemma JoiningClientAfterCompaction<Op>(st: TextState<Op>)
    requires st.Valid() && st.operations == []
    ensures ComposeAll(st.alg, st.alg.empty, st.GetOperations(0)) == Folded(st.alg.empty)
    ensures st.document == st.snapshot
  {
    assert st.GetOperations(0) == [];
    DocumentIsSnapshotPlusLog(st);
  }
}
