/**
 The full-text index as its single writer sees it: what is committed on disk, and what a
 commit would leave there. Documents live at addresses; a delete removes every document
 that matches, an add takes a new address. The message rows carry the indexed watermark.
 */
module SearchIndex {
  import opened Wrappers

  type Blob = string

  const SCHEMA_VERSION: nat := 1
  const BATCH: nat := 128

  datatype Doc = Doc(id: nat, account: nat, hash: Blob, body: string)

  datatype Row = Row(account: nat, hash: Blob, indexed: bool)

  type Rows = map<nat, Row>

  /** Body text of raw bytes, or nothing when they do not parse. */
  type Extractor = Blob -> Option<string>

  datatype Index = Index(docs: map<nat, Doc>, next: nat)

  const EMPTY: Index := Index(map[], 0)

  function DeleteId(ix: Index, id: nat): Index {
    ix.(docs := map a | a in ix.docs && ix.docs[a].id != id :: ix.docs[a])
  }

  function DeleteAccount(ix: Index, account: nat): Index {
    ix.(docs := map a | a in ix.docs && ix.docs[a].account != account :: ix.docs[a])
  }

  function DeleteAll(ix: Index): Index { ix.(docs := map[]) }

  function AddDoc(ix: Index, doc: Doc): Index { Index(ix.docs[ix.next := doc], ix.next + 1) }

  /** The first `n` writer calls of a batch: for each document a delete by id, then an add. */
  function Stage(ix: Index, docs: seq<Doc>, n: nat): Index
    decreases |docs|
  {
    if docs == [] || n == 0 then ix
    else if n == 1 then DeleteId(ix, docs[0].id)
    else Stage(AddDoc(DeleteId(ix, docs[0].id), docs[0]), docs[1..], n - 2)
  }

  ghost predicate WellFormed(ix: Index) { forall a :: a in ix.docs ==> a < ix.next }

  /** No message id has two documents. */
  ghost predicate AtMostOne(ix: Index) {
    forall a, b :: a in ix.docs && b in ix.docs && ix.docs[a].id == ix.docs[b].id ==> a == b
  }

  ghost predicate Sound(ix: Index) { WellFormed(ix) && AtMostOne(ix) }

  ghost predicate Holds(ix: Index, doc: Doc) { exists a :: a in ix.docs && ix.docs[a] == doc }

  lemma {:induction false} StageIsSound(ix: Index, docs: seq<Doc>, n: nat)
    requires Sound(ix)
    ensures Sound(Stage(ix, docs, n))
    decreases |docs|
  {
    if docs != [] && n > 1 { StageIsSound(AddDoc(DeleteId(ix, docs[0].id), docs[0]), docs[1..], n - 2); }
  }

  /** Staging touches no other message's documents. */
  lemma {:induction false} StageFrame(ix: Index, docs: seq<Doc>, n: nat, doc: Doc)
    requires WellFormed(ix) && forall d :: d in docs ==> d.id != doc.id
    ensures Holds(Stage(ix, docs, n), doc) <==> Holds(ix, doc)
    decreases |docs|
  {
    if docs != [] && n > 0 {
      var ix1 := DeleteId(ix, docs[0].id);
      assert Holds(ix, doc) <==> Holds(ix1, doc) by {
        assert forall a :: a in ix.docs && ix.docs[a] == doc ==> a in ix1.docs && ix1.docs[a] == doc;
      }
      if n > 1 {
        var ix2 := AddDoc(ix1, docs[0]);
        assert Holds(ix1, doc) <==> Holds(ix2, doc) by {
          assert forall a :: a in ix1.docs && ix1.docs[a] == doc ==> a in ix2.docs && ix2.docs[a] == doc;
        }
        StageFrame(ix2, docs[1..], n - 2, doc);
      }
    }
  }

  ghost predicate DistinctIds(docs: seq<Doc>) {
    forall i, j :: 0 <= i < j < |docs| ==> docs[i].id != docs[j].id
  }

  /** A batch staged in full is there, whatever was there before. */
  lemma {:induction false} StageHolds(ix: Index, docs: seq<Doc>, n: nat, i: nat)
    requires WellFormed(ix) && DistinctIds(docs) && n >= 2 * |docs| && i < |docs|
    ensures Holds(Stage(ix, docs, n), docs[i])
    decreases |docs|
  {
    var ix2 := AddDoc(DeleteId(ix, docs[0].id), docs[0]);
    if i == 0 {
      assert ix2.docs[ix.next] == docs[0];
      StageFrame(ix2, docs[1..], n - 2, docs[0]);
    } else {
      StageHolds(ix2, docs[1..], n - 2, i - 1);
    }
  }

  /** Staging goes call by call. */
  lemma {:induction false} StageNext(ix: Index, docs: seq<Doc>, i: nat)
    requires i < |docs|
    decreases i
    ensures var ix1 := Stage(ix, docs[..i], 2 * i);
            && Stage(ix, docs, 2 * i + 1) == DeleteId(ix1, docs[i].id)
            && Stage(ix, docs[..i + 1], 2 * (i + 1)) == AddDoc(DeleteId(ix1, docs[i].id), docs[i])
  {
    if i == 0 {
      assert docs[..1][1..] == [];
    } else {
      var ix2 := AddDoc(DeleteId(ix, docs[0].id), docs[0]);
      StageNext(ix2, docs[1..], i - 1);
      assert docs[..i][1..] == docs[1..][..i - 1];
      assert docs[..i + 1][1..] == docs[1..][..i];
      assert docs[1..][i - 1] == docs[i];
    }
  }

  function Unindexed(rows: Rows): set<nat> { set id | id in rows && !rows[id].indexed }

  function Reset(rows: Rows): Rows { map id | id in rows :: rows[id].(indexed := false) }

  function Mark(rows: Rows, ids: set<nat>): Rows {
    map id | id in rows :: if id in ids then rows[id].(indexed := true) else rows[id]
  }

  predicate Least(s: set<nat>, m: nat) { m in s && forall k :: k in s ==> m <= k }

  lemma LeastExists(s: set<nat>)
    requires s != {}
    ensures exists m :: Least(s, m)
  {
    var k :| k in s;
    if s == {k} {
      assert Least(s, k);
    } else {
      LeastExists(s - {k});
      var m :| Least(s - {k}, m);
      var l := if k < m then k else m;
      forall j | j in s ensures l <= j { if j != k { assert j in s - {k}; } }
      assert Least(s, l);
    }
  }

  /** The smallest members in order, as many as `n` allows. */
  ghost predicate First(s: set<nat>, n: nat, r: seq<nat>) {
    && |r| == (if |s| <= n then |s| else n)
    && (forall k :: k in r ==> k in s)
    && (forall i, j :: 0 <= i < j < |r| ==> r[i] < r[j])
    && (forall k, i :: k in s && k !in r && 0 <= i < |r| ==> r[i] < k)
  }

  ghost function Min(s: set<nat>): (m: nat)
    requires s != {}
    ensures Least(s, m)
  {
    LeastExists(s);
    var m :| Least(s, m); m
  }

  lemma FirstWithLeast(s: set<nat>, n: nat, m: nat, rest: seq<nat>)
    requires n > 0 && Least(s, m) && First(s - {m}, n - 1, rest)
    ensures First(s, n, [m] + rest)
  {
    var r := [m] + rest;
    assert r[1..] == rest;
    forall i, j | 0 <= i < j < |r| ensures r[i] < r[j] { assert r[j] in rest && r[j] in s - {m}; }
    forall k, i | k in s && k !in r && 0 <= i < |r| ensures r[i] < k {
      assert r[0] == m;
      assert k in s - {m};
    }
  }

  ghost function Ascending(s: set<nat>, n: nat): (r: seq<nat>)
    ensures First(s, n, r)
  {
    if n == 0 || s == {} then [] else
    var m := Min(s);
    var rest := Ascending(s - {m}, n - 1);
    FirstWithLeast(s, n, m, rest);
    [m] + rest
  }

  lemma AscendingStep(s: set<nat>, n: nat, m: nat)
    requires n > 0 && Least(s, m)
    ensures Ascending(s, n) == [m] + Ascending(s - {m}, n - 1)
  {}

  lemma AscendingEnds(s: set<nat>, n: nat)
    requires n == 0 || s == {}
    ensures Ascending(s, n) == []
  {}

  /** list_unindexed with the drain's limit. */
  ghost function BatchIds(rows: Rows): (r: seq<nat>)
    ensures First(Unindexed(rows), BATCH, r)
  {
    Ascending(Unindexed(rows), BATCH)
  }

  /** The document of a row whose bytes are there and parse. */
  function DocOf(extract: Extractor, id: nat, row: Row): Doc
    requires extract(row.hash).Some?
  {
    Doc(id, row.account, row.hash, extract(row.hash).value)
  }

  predicate Usable(extract: Extractor, blobs: set<(nat, Blob)>, row: Row) {
    (row.account, row.hash) in blobs && extract(row.hash).Some?
  }

  predicate NeedsRebuild(sidecar: Option<nat>) { sidecar != Some(SCHEMA_VERSION) }
}
