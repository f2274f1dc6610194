/** How the queries of the ledger answer when its tables grow. */
module LedgerTables {
  import opened Common
  import opened Ledger

  /** Versions 1, 2, 3, ... without gaps or repeats. */
  ghost predicate Versioned(rs: seq<Row>) {
    forall i | 0 <= i < |rs| :: rs[i].version == i + 1
  }

  lemma {:induction false} RowsOfSnoc(rows: seq<Row>, r: Row, path: string, target: string)
    ensures RowsOf(rows + [r], path, target) ==
            RowsOf(rows, path, target) + (if r.path == path && r.target == target then [r] else [])
  {
    assert (rows + [r])[..|rows|] == rows;
  }

  lemma {:induction false} FindSnoc(rows: seq<Row>, r: Row, uuid: string)
    ensures Find(rows + [r], uuid) == if r.uuid == uuid then Some(r) else Find(rows, uuid)
  {
    assert (rows + [r])[..|rows|] == rows;
  }

  lemma {:induction false} RowsOfAreRows(rows: seq<Row>, path: string, target: string, i: nat)
    requires i < |RowsOf(rows, path, target)|
    ensures var r := RowsOf(rows, path, target)[i]; r in rows && r.path == path && r.target == target
  {
    if i < |RowsOf(rows[..|rows| - 1], path, target)| {
      RowsOfAreRows(rows[..|rows| - 1], path, target, i);
    }
  }

  /** With gapless versions the newest row is the last one, so the next version is one more than their number. */
  lemma {:induction false} NewestIsLast(rows: seq<Row>, path: string, target: string)
    requires Versioned(RowsOf(rows, path, target))
    ensures var rs := RowsOf(rows, path, target);
            && (Newest(rows, path, target, false) == if rs == [] then None else Some(rs[|rs| - 1]))
            && NextVersion(rows, path, target) == |rs| + 1
  {
    if |rows| > 0 {
      var rs, init := RowsOf(rows, path, target), RowsOf(rows[..|rows| - 1], path, target);
      assert forall i | 0 <= i < |init| :: init[i] == rs[i];
      NewestIsLast(rows[..|rows| - 1], path, target);
    }
  }

  /** When the last row is live it is the newest live one. */
  lemma {:induction false} NewestLiveIsLast(rows: seq<Row>, path: string, target: string)
    requires Versioned(RowsOf(rows, path, target))
    ensures var rs := RowsOf(rows, path, target);
            var newest := Newest(rows, path, target, true);
            && (newest.Some? ==> newest.value.version <= |rs|)
            && (rs != [] && !rs[|rs| - 1].deleteMarker ==> newest == Some(rs[|rs| - 1]))
  {
    if |rows| > 0 {
      var rs, init := RowsOf(rows, path, target), RowsOf(rows[..|rows| - 1], path, target);
      assert forall i | 0 <= i < |init| :: init[i] == rs[i];
      NewestLiveIsLast(rows[..|rows| - 1], path, target);
      var r := rows[|rows| - 1];
      if r.path == path && r.target == target {
        assert rs == init + [r] && rs[|init|].version == |init| + 1;
      }
    }
  }

  lemma {:induction false} AtVersionIs(rows: seq<Row>, path: string, target: string, version: nat)
    requires Versioned(RowsOf(rows, path, target))
    ensures var rs := RowsOf(rows, path, target);
            AtVersion(rows, path, target, version) == if 1 <= version <= |rs| then Some(rs[version - 1]) else None
  {
    if |rows| > 0 {
      var rs, init := RowsOf(rows, path, target), RowsOf(rows[..|rows| - 1], path, target);
      assert forall i | 0 <= i < |init| :: init[i] == rs[i];
      AtVersionIs(rows[..|rows| - 1], path, target, version);
      var r := rows[|rows| - 1];
      if r.path == path && r.target == target {
        assert rs == init + [r] && rs[|init|].version == |init| + 1;
      }
    }
  }

  lemma {:induction false} HeldSnoc(rows: seq<Row>, coll: seq<Entry>, e: Entry, job: string, path: string, target: string)
    ensures var r := Find(rows, e.uuid);
            HeldIn(rows, coll + [e], job, path, target) ==
            HeldIn(rows, coll, job, path, target)
            + (if e.job == job && e.target == target && r.Some? && r.value.path == path then [r.value] else [])
  {
    assert (coll + [e])[..|coll|] == coll;
  }

  /** A new row changes no collection until an entry refers to it. */
  lemma {:induction false} HeldNewRow(rows: seq<Row>, r: Row, coll: seq<Entry>, job: string, path: string, target: string)
    requires Find(rows, r.uuid).None?
    requires forall i | 0 <= i < |coll| :: Find(rows, coll[i].uuid).Some?
    ensures HeldIn(rows + [r], coll, job, path, target) == HeldIn(rows, coll, job, path, target)
  {
    if |coll| > 0 {
      var init, e := coll[..|coll| - 1], coll[|coll| - 1];
      FindSnoc(rows, r, e.uuid);
      assert Find(rows, e.uuid).Some?;
      HeldNewRow(rows, r, init, job, path, target);
    }
  }

  /** The compensating deletes remove exactly the placed objects whose delete succeeds. */
  lemma {:induction false} UndoRemoves(store: Store, processed: seq<Placed>)
    decreases |processed|
    ensures Undo(store, processed).issued == store.issued
    ensures Undo(store, processed).objects ==
            store.objects - (set p | p in processed && p.isObject && !p.deleteErr :: p.key)
  {
    if |processed| > 0 {
      var p, rest := processed[0], processed[1..];
      var s := if p.isObject && !p.deleteErr then store.(objects := store.objects - {p.key}) else store;
      UndoRemoves(s, rest);
      var gone := set q | q in rest && q.isObject && !q.deleteErr :: q.key;
      assert (set q | q in processed && q.isObject && !q.deleteErr :: q.key) ==
             gone + (if p.isObject && !p.deleteErr then {p.key} else {}) by {
        assert processed == [p] + rest;
      }
      assert s.objects - gone == store.objects - (gone + (if p.isObject && !p.deleteErr then {p.key} else {}));
    }
  }
}
