/**
 The indexer as it executes, and what a rebuild converges to. Faults come from a script:
 one entry per storage, database or index operation, true where it fails, and no further
 faults once the script is used up.
 */
module SearchIndexer {
  import opened Wrappers
  import opened SearchIndex
  import opened IndexRuns

  type Blobs = set<(nat, Blob)>

  /** The documents of a batch: its rows whose bytes are stored and parse. */
  function Docs(extract: Extractor, blobs: Blobs, batch: seq<(nat, Row)>): seq<Doc> {
    if batch == [] then []
    else
      var (id, row) := batch[|batch| - 1];
      Docs(extract, blobs, batch[..|batch| - 1]) + if Usable(extract, blobs, row) then [DocOf(extract, id, row)] else []
  }

  /** The index serves exactly the rows marked indexed whose bytes are stored and parse, each once. */
  ghost predicate Serves(extract: Extractor, blobs: Blobs, rows: Rows, ix: Index) {
    && Sound(ix)
    && (forall id :: id in rows && rows[id].indexed && Usable(extract, blobs, rows[id]) ==> Holds(ix, DocOf(extract, id, rows[id])))
    && (forall a :: a in ix.docs ==>
          var d := ix.docs[a];
          d.id in rows && rows[d.id].indexed && Usable(extract, blobs, rows[d.id]) && d == DocOf(extract, d.id, rows[d.id]))
  }

  lemma {:induction false} DocsAreTheUsable(extract: Extractor, blobs: Blobs, batch: seq<(nat, Row)>)
    requires forall i, j :: 0 <= i < j < |batch| ==> batch[i].0 != batch[j].0
    ensures DistinctIds(Docs(extract, blobs, batch))
    ensures forall d :: d in Docs(extract, blobs, batch) <==>
              exists i :: 0 <= i < |batch| && Usable(extract, blobs, batch[i].1) && d == DocOf(extract, batch[i].0, batch[i].1)
  {
    if batch != [] {
      var n := |batch| - 1;
      DocsAreTheUsable(extract, blobs, batch[..n]);
      assert forall i :: 0 <= i < n ==> batch[..n][i] == batch[i];
      var docs := Docs(extract, blobs, batch[..n]);
      forall k | 0 <= k < |docs| ensures docs[k].id != batch[n].0 {
        assert docs[k] in docs;
        var i :| 0 <= i < n && Usable(extract, blobs, batch[..n][i].1) && docs[k] == DocOf(extract, batch[..n][i].0, batch[..n][i].1);
        assert batch[..n][i] == batch[i];
      }
    }
  }

  lemma {:induction false} StageOrigin(ix: Index, docs: seq<Doc>, n: nat, a: nat)
    requires a in Stage(ix, docs, n).docs
    ensures var d := Stage(ix, docs, n).docs[a];
            d in docs || (a in ix.docs && ix.docs[a] == d)
    decreases |docs|
  {
    if docs != [] && n > 1 {
      StageOrigin(AddDoc(DeleteId(ix, docs[0].id), docs[0]), docs[1..], n - 2, a);
    }
  }

  lemma IdsCount(batch: seq<(nat, Row)>)
    requires forall i, j :: 0 <= i < j < |batch| ==> batch[i].0 != batch[j].0
    ensures |Ids(batch)| == |batch|
  {
    if batch != [] {
      var n := |batch| - 1;
      IdsCount(batch[..n]);
      assert forall i :: 0 <= i < n ==> batch[..n][i] == batch[i];
      assert Ids(batch) == Ids(batch[..n]) + {batch[n].0};
    }
  }

  lemma BatchIdsAreDistinct(rows: Rows)
    ensures var b := BatchOf(rows); forall i, j :: 0 <= i < j < |b| ==> b[i].0 != b[j].0
  {}

  /** The rows not yet marked indexed with the smallest ids, in order, 128 of them or all there are. */
  ghost predicate FirstPending(rows: Rows, batch: seq<(nat, Row)>) {
    && |batch| <= 128
    && (forall i, j :: 0 <= i < j < |batch| ==> batch[i].0 < batch[j].0)
    && (forall i :: 0 <= i < |batch| ==> batch[i].0 in rows && rows[batch[i].0] == batch[i].1 && !batch[i].1.indexed)
    && (forall id :: id in rows && !rows[id].indexed ==>
          (exists i :: 0 <= i < |batch| && batch[i].0 == id)
          || (|batch| == 128 && forall i :: 0 <= i < |batch| ==> batch[i].0 < id))
  }

  lemma {:induction false} CountOf(ids: seq<nat>)
    requires forall i, j :: 0 <= i < j < |ids| ==> ids[i] < ids[j]
    ensures |set i | 0 <= i < |ids| :: ids[i]| == |ids|
  {
    if ids != [] {
      var n := |ids| - 1;
      CountOf(ids[..n]);
      assert (set i | 0 <= i < |ids| :: ids[i]) == (set i | 0 <= i < n :: ids[..n][i]) + {ids[n]};
    }
  }

  lemma {:induction false} SubsetCount(a: set<nat>, b: set<nat>)
    requires a <= b
    ensures |a| <= |b|
    decreases a
  {
    if a != {} {
      var x :| x in a;
      SubsetCount(a - {x}, b - {x});
    }
  }

  lemma AllAreListed(s: set<nat>, ids: seq<nat>, id: nat)
    requires First(s, 128, ids) && |ids| < 128 && id in s
    ensures id in ids
  {
    var listed := set i | 0 <= i < |ids| :: ids[i];
    CountOf(ids);
    assert listed <= s;
    if id !in ids {
      assert listed <= s - {id};
      SubsetCount(listed, s - {id});
    }
  }

  lemma BatchIsTheFirst(rows: Rows)
    ensures FirstPending(rows, BatchOf(rows))
  {
    var ids, batch := BatchIds(rows), BatchOf(rows);
    forall id | id in rows && !rows[id].indexed
      ensures (exists i :: 0 <= i < |batch| && batch[i].0 == id)
              || (|batch| == 128 && forall i :: 0 <= i < |batch| ==> batch[i].0 < id)
    {
      assert id in Unindexed(rows);
      if id in ids {
        var i :| 0 <= i < |ids| && ids[i] == id;
        assert batch[i].0 == id;
      } else if |ids| < 128 {
        AllAreListed(Unindexed(rows), ids, id);
      }
    }
  }

  /** The rows of the batch are marked, and nothing else is changed. */
  ghost predicate MarkedOnly(rows: Rows, rows': Rows, batch: seq<(nat, Row)>) {
    && rows'.Keys == rows.Keys
    && forall id :: id in rows ==>
         rows'[id] == Row(rows[id].account, rows[id].hash, rows[id].indexed || exists i :: 0 <= i < |batch| && batch[i].0 == id)
  }

  /** Marking a batch marks its rows and changes nothing else. */
  lemma MarkedRows(rows: Rows)
    ensures MarkedOnly(rows, Mark(rows, Ids(BatchOf(rows))), BatchOf(rows))
  {
    var batch := BatchOf(rows);
    assert forall i :: 0 <= i < |batch| ==> batch[i].0 in Ids(batch);
  }

  /** The same messages, whatever their watermarks. */
  ghost predicate SameRows(rows: Rows, rows': Rows) {
    rows.Keys == rows'.Keys && forall id :: id in rows ==> rows[id].account == rows'[id].account && rows[id].hash == rows'[id].hash
  }

  /** Each pass takes min(128, n) off a backlog of n. */
  lemma PassShrinksBacklog(rows: Rows)
    ensures var n, n' := |Unindexed(rows)|, |Unindexed(Mark(rows, Ids(BatchOf(rows))))|;
            n' == n - |BatchOf(rows)| && |BatchOf(rows)| == if n <= 128 then n else 128
    ensures SameRows(rows, Mark(rows, Ids(BatchOf(rows))))
  {
    var batch := BatchOf(rows);
    BatchIdsAreDistinct(rows);
    IdsCount(batch);
    assert Ids(batch) <= Unindexed(rows);
    assert Unindexed(Mark(rows, Ids(batch))) == Unindexed(rows) - Ids(batch);
  }

  lemma PassAdds(extract: Extractor, blobs: Blobs, rows: Rows, ix: Index)
    requires Serves(extract, blobs, rows, ix)
    ensures var batch := BatchOf(rows);
            var docs := Docs(extract, blobs, batch);
            forall id :: id in rows && (rows[id].indexed || id in Ids(batch)) && Usable(extract, blobs, rows[id]) ==>
              Holds(Stage(ix, docs, 2 * |docs|), DocOf(extract, id, rows[id]))
  {
    var batch := BatchOf(rows);
    var docs := Docs(extract, blobs, batch);
    BatchIdsAreDistinct(rows);
    DocsAreTheUsable(extract, blobs, batch);
    hide Holds, Stage, Docs;
    forall id | id in rows && (rows[id].indexed || id in Ids(batch)) && Usable(extract, blobs, rows[id])
      ensures Holds(Stage(ix, docs, 2 * |docs|), DocOf(extract, id, rows[id]))
    {
      if id in Ids(batch) {
        var i :| 0 <= i < |batch| && batch[i].0 == id;
        assert DocOf(extract, batch[i].0, batch[i].1) in docs;
        var j :| 0 <= j < |docs| && docs[j] == DocOf(extract, batch[i].0, batch[i].1);
        StageHolds(ix, docs, 2 * |docs|, j);
      } else {
        StageFrame(ix, docs, 2 * |docs|, DocOf(extract, id, rows[id]));
      }
    }
  }

  /** A completed pass extends what the index serves by exactly the batch it marks. */
  lemma PassKeepsServes(extract: Extractor, blobs: Blobs, rows: Rows, ix: Index)
    requires Serves(extract, blobs, rows, ix)
    ensures var batch := BatchOf(rows);
            var docs := Docs(extract, blobs, batch);
            Serves(extract, blobs, Mark(rows, Ids(batch)), Stage(ix, docs, 2 * |docs|))
  {
    var batch := BatchOf(rows);
    var docs := Docs(extract, blobs, batch);
    var rows', ix' := Mark(rows, Ids(batch)), Stage(ix, docs, 2 * |docs|);
    BatchIdsAreDistinct(rows);
    DocsAreTheUsable(extract, blobs, batch);
    StageIsSound(ix, docs, 2 * |docs|);
    PassAdds(extract, blobs, rows, ix);
    forall a | a in ix'.docs
      ensures var d := ix'.docs[a];
              d.id in rows' && rows'[d.id].indexed && Usable(extract, blobs, rows'[d.id]) && d == DocOf(extract, d.id, rows'[d.id])
    {
      StageOrigin(ix, docs, 2 * |docs|, a);
    }
  }

  /** The map a rebuild should produce, built straight from the rows. */
  ghost predicate BuiltFrom(extract: Extractor, blobs: Blobs, rows: Rows, ix: Index) {
    && AtMostOne(ix)
    && forall doc :: Holds(ix, doc) <==>
         && doc.id in rows
         && var row := rows[doc.id];
            && (row.account, row.hash) in blobs && extract(row.hash).Some?
            && doc == Doc(doc.id, row.account, row.hash, extract(row.hash).value)
  }

  lemma ServedBacklogFreeIsBuilt(extract: Extractor, blobs: Blobs, rows: Rows, ix: Index)
    requires Serves(extract, blobs, rows, ix) && |Unindexed(rows)| == 0
    ensures BuiltFrom(extract, blobs, rows, ix)
  {
    assert forall id :: id in rows ==> rows[id].indexed || id in Unindexed(rows);
  }

  lemma ClearedServes(extract: Extractor, blobs: Blobs, rows: Rows, ix: Index)
    ensures Serves(extract, blobs, Reset(rows), DeleteAll(ix)) && SameRows(rows, Reset(rows))
  {}

  lemma NothingToMark(rows: Rows)
    ensures Mark(rows, Ids([])) == rows
  {}

  class Indexer {
    var committed: Index
    var staged: Index
    var sidecar: Option<nat>
    var rows: Rows
    var blobs: Blobs
    var faults: seq<bool>

    method Operation() returns (ok: bool)
      modifies `faults
      ensures old(faults) == [] ==> ok && faults == []
    {
      ok := faults == [] || !faults[0];
      if faults != [] { faults := faults[1..]; }
    }

    method ClearIndex() returns (ok: bool)
      modifies `staged, `committed, `faults
      ensures ok ==> committed == staged
      ensures committed == if ok then DeleteAll(old(staged)) else old(committed)
      ensures old(faults) == [] ==> ok && faults == []
    {
      ok := Operation();
      if !ok { return; }
      staged := DeleteAll(staged);
      ok := Operation();
      if ok { committed := staged; }
    }

    /** The sidecar becomes current only after the index is empty and every row is queued again. */
    method ReconcileOnStartup() returns (ok: bool)
      modifies `staged, `committed, `faults, `rows, `sidecar
      ensures !NeedsRebuild(old(sidecar)) ==>
                && ok && committed == old(committed) && staged == old(staged)
                && rows == old(rows) && sidecar == old(sidecar) && faults == old(faults)
      ensures NeedsRebuild(old(sidecar)) && ok ==>
                && !NeedsRebuild(sidecar) && rows == Reset(old(rows)) && committed == staged == DeleteAll(old(staged))
                && committed.docs == map[] && rows.Keys == old(rows).Keys
                && forall id :: id in rows ==> rows[id] == Row(old(rows)[id].account, old(rows)[id].hash, false)
      ensures NeedsRebuild(old(sidecar)) && !ok ==> NeedsRebuild(sidecar)
      ensures old(faults) == [] ==> ok && faults == []
    {
      if !NeedsRebuild(sidecar) { return true; }
      ok := ClearIndex();
      if !ok { return; }
      ok := Operation();
      if !ok { return; }
      rows := Reset(rows);
      ok := Operation();
      sidecar := if ok then Some(SCHEMA_VERSION) else None;
    }

    method ListIds(limit: nat) returns (ids: seq<nat>)
      ensures ids == Ascending(Unindexed(rows), limit)
    {
      hide First, Ascending, Unindexed;
      var left, room := Unindexed(rows), limit;
      ids := [];
      while left != {} && room > 0
        invariant Ascending(Unindexed(rows), limit) == ids + Ascending(left, room)
        decreases room
      {
        LeastExists(left);
        var m :| Least(left, m);
        AscendingStep(left, room, m);
        ids, left, room := ids + [m], left - {m}, room - 1;
      }
      AscendingEnds(left, room);
    }

    method ListUnindexed() returns (batch: seq<(nat, Row)>)
      ensures batch == BatchOf(rows)
      ensures FirstPending(rows, batch)
    {
      BatchIsTheFirst(rows);
      hide FirstPending, First;
      var ids := ListIds(BATCH);
      var table := rows;
      assert forall i :: 0 <= i < |ids| ==> ids[i] in Unindexed(rows);
      batch := seq(|ids|, i requires 0 <= i < |ids| => (ids[i], table[ids[i]]));
    }

    /** One document at a time, each deleted by id before it is added; the commit comes last. */
    method WriteBatch(docs: seq<Doc>) returns (ok: bool)
      modifies `staged, `committed, `faults
      ensures ok ==> committed == staged == Stage(old(staged), docs, 2 * |docs|)
      ensures !ok ==> committed == old(committed) && exists n: nat :: n <= 2 * |docs| && staged == Stage(old(staged), docs, n)
      ensures old(faults) == [] ==> ok && faults == []
    {
      var i := 0;
      while i < |docs|
        invariant i <= |docs| && committed == old(committed)
        invariant staged == Stage(old(staged), docs[..i], 2 * i)
        invariant old(faults) == [] ==> faults == []
      {
        StageNext(old(staged), docs, i);
        staged := DeleteId(staged, docs[i].id);
        ok := Operation();
        if !ok { return; }
        staged := AddDoc(staged, docs[i]);
        i := i + 1;
      }
      assert docs[..i] == docs;
      ok := Operation();
      if ok { committed := staged; }
    }

    /** None is an error: nothing was marked. Some(n) is the size of a batch written, committed and marked. */
    method DrainOnce(extract: Extractor) returns (r: Option<nat>)
      modifies `staged, `committed, `faults, `rows
      ensures old(faults) == [] ==> r.Some? && faults == []
      ensures r.Some? ==> r.value == |BatchOf(old(rows))| && rows == Mark(old(rows), Ids(BatchOf(old(rows))))
      ensures r.Some? && r.value == 0 ==> committed == old(committed) && staged == old(staged) && rows == old(rows)
      ensures r.Some? ==> MarkedOnly(old(rows), rows, BatchOf(old(rows)))
      ensures r.Some? && r.value > 0 ==>
                var docs := Docs(extract, blobs, BatchOf(old(rows)));
                committed == staged == Stage(old(staged), docs, 2 * |docs|)
      ensures r.None? ==> rows == old(rows)
    {
      MarkedRows(rows);
      hide First, Unindexed, FirstPending, Mark, MarkedOnly, Ids;
      var ok := Operation();
      if !ok { return None; }
      var batch := ListUnindexed();
      if batch == [] {
        assert BatchOf(rows) == [];
        NothingToMark(rows);
        return Some(0);
      }
      var docs: seq<Doc> := [];
      var k := 0;
      while k < |batch|
        invariant k <= |batch| && docs == Docs(extract, blobs, batch[..k])
        invariant rows == old(rows) && staged == old(staged) && committed == old(committed)
        invariant old(faults) == [] ==> faults == []
      {
        ok := Operation();
        if !ok { return None; }
        var (id, row) := batch[k];
        if Usable(extract, blobs, row) { docs := docs + [DocOf(extract, id, row)]; }
        assert batch[..k + 1][..k] == batch[..k];
        k := k + 1;
      }
      assert batch[..k] == batch;
      hide Docs, Stage;
      ok := WriteBatch(docs);
      if !ok { return None; }
      ok := Operation();
      if !ok { return None; }
      rows := Mark(rows, Ids(batch));
      r := Some(|batch|);
    }

    /**
     Reconcile, then drain until nothing is pending. From any index and any watermarks with a
     stale sidecar, and without faults, it ends with exactly the index built from the rows.
     */
    method ReindexToIdle(extract: Extractor) returns (ok: bool)
      modifies `staged, `committed, `faults, `rows, `sidecar
      ensures old(faults) == [] ==> ok
      ensures ok ==> !NeedsRebuild(sidecar) && |Unindexed(rows)| == 0 && SameRows(old(rows), rows)
      ensures ok && NeedsRebuild(old(sidecar)) ==> committed == staged && BuiltFrom(extract, blobs, rows, committed)
    {
      hide Serves, BuiltFrom, Docs, Stage, First, Unindexed, Mark, Reset;
      ClearedServes(extract, blobs, rows, staged);
      ok := ReconcileOnStartup();
      if !ok { return; }
      ghost var fromScratch := NeedsRebuild(old(sidecar));
      while true
        invariant !NeedsRebuild(sidecar) && SameRows(old(rows), rows)
        invariant fromScratch ==> committed == staged && Serves(extract, blobs, rows, committed)
        invariant old(faults) == [] ==> faults == []
        decreases |Unindexed(rows)|
      {
        PassShrinksBacklog(rows);
        if fromScratch { PassKeepsServes(extract, blobs, rows, committed); }
        var r := DrainOnce(extract);
        if r.None? { return false; }
        if r.value == 0 { break; }
      }
      if fromScratch { ServedBacklogFreeIsBuilt(extract, blobs, rows, committed); }
      ok := true;
    }

    /** One tick of the running subsystem: as many passes as succeed; an error waits for the next tick. */
    method DrainToEmpty(extract: Extractor) returns (drained: bool)
      modifies `staged, `committed, `faults, `rows
      ensures old(faults) == [] ==> drained
      ensures drained ==> Unindexed(rows) == {}
      ensures SameRows(old(rows), rows)
    {
      while true
        invariant SameRows(old(rows), rows)
        invariant old(faults) == [] ==> faults == []
        decreases |Unindexed(rows)|
      {
        PassShrinksBacklog(rows);
        var r := DrainOnce(extract);
        if r.None? { return false; }
        if r.value == 0 { return true; }
      }
    }
  }
}
