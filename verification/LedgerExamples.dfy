/** Concrete inputs at which a backup leaves more, or records less, than it should. */
module LedgerExamples {
  import opened Common
  import opened Records
  import opened Ledger
  import opened LedgerEffects
  import opened LedgerHistory
  import opened LedgerTransactions
  import opened LedgerContent
  import opened PreUpload

  /** A first upload of an empty file. */
  const FIRST := Call(New, "f", Recorded(0, 1, false, "1"), [], "1", TenBytes(false))

  /** The upload to the first target succeeds, the job is cancelled, and so is every delete. */
  const CANCELLED: seq<TargetEnv> := [TargetEnv(false, Stored("1"), false, "1", false, false, true),
                                      TargetEnv(false, PutCancelled, false, "2", false, false, true)]

  lemma NotSkipped(target: string)
    ensures !Skips(FIRST, target)
  {
    assert !HasReserved("f");
  }

  /** The loop after the first target, and where it ends. */
  const HALFWAY := Loop(UPLOADED.db, PLAIN_STORE, [Placed(Key("t", "f", "1"), true, true)], Going)

  lemma CancelledLoop()
    ensures TargetLoop(FIRST, ["t", "u"], CANCELLED, Start(EMPTY, FIRST)) == HALFWAY.(status := Cancelling)
  {
    NotSkipped("t");
    NotSkipped("u");
    assert TargetStep(FIRST, "t", CANCELLED[0], Start(EMPTY, FIRST)) == HALFWAY;
    assert TargetStep(FIRST, "u", CANCELLED[1], HALFWAY) == HALFWAY.(status := Cancelling);
    assert ["t", "u"][1..] == ["u"] && CANCELLED[1..] == [CANCELLED[1]];
    assert TargetLoop(FIRST, ["u"], [CANCELLED[1]], HALFWAY) == HALFWAY.(status := Cancelling);
  }

  /** Cancelled at its second target, the transaction leaves the object of the first behind. */
  lemma CancelOrphansExample()
    ensures OneContext(CANCELLED)
    ensures Transact(EMPTY, FIRST, ["t", "u"], CANCELLED, TxEnv(false, false, false)) == (State(EMPTY.db, PLAIN_STORE), Cancelled)
  {
    CancelledLoop();
    assert Undo(PLAIN_STORE, HALFWAY.processed) == PLAIN_STORE;
  }

  /** A commit that fails after its upload leaves the object behind. */
  lemma CommitFailureExample()
    ensures Transact(EMPTY, FIRST, ["t"], Smooth("1").targets, TxEnv(false, false, true)) == (State(EMPTY.db, PLAIN_STORE), CommitFailed)
  {
    NotSkipped("t");
    var e := Smooth("1").targets[0];
    var m := Loop(UPLOADED.db, PLAIN_STORE, [Placed(Key("t", "f", "1"), true, false)], Going);
    assert TargetStep(FIRST, "t", e, Start(EMPTY, FIRST)) == m;
    assert TargetLoop(FIRST, ["t"], Smooth("1").targets, Start(EMPTY, FIRST)) == m;
  }

  /** An unchanged file whose collecting fails: `Do` reports no error, and the collection does not hold the file. */
  lemma UpToDateExample()
    ensures var e := DoEnv(false, false, None, TxEnv(false, false, false), [TargetEnv(false, PutFailed, false, "2", false, true, false)]);
            && DoPath(UPLOADED, "f", FileOf([], 1), TenBytes(false), ["t"], "2", e) == (UPLOADED, UpToDate(false))
            && Held(UPLOADED.db, "2", "f", "t") == []
  {
    var e := DoEnv(false, false, None, TxEnv(false, false, false), [TargetEnv(false, PutFailed, false, "2", false, true, false)]);
    assert Decide(UPLOADED, "f", FileOf([], 1), TenBytes(false), "2", e) == Ok(None);
    assert Collect(UPLOADED, "f", "2", ["t"], e.targets) == (UPLOADED, false);
    assert UPLOADED.db.coll[..0] == [];
    assert HeldIn(UPLOADED.db.rows, UPLOADED.db.coll, "2", "f", "t") == HeldIn(UPLOADED.db.rows, [], "2", "f", "t");
  }
}
