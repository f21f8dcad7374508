/**
 `sync_folder`, the UIDVALIDITY rollover, and the life of a sync task, as functions of
 a world and a script.
 */
module ImapSync {
  import opened Wrappers
  import opened SyncWorld

  const FETCH_BATCH: nat := 200

  function SaturatingAdd(a: nat, b: nat): nat {
    if a + b > U32_MAX then U32_MAX else a + b
  }

  function Min(a: nat, b: nat): nat {
    if a < b then a else b
  }

  // ---- The four effects of a pass ----

  /** What a cursor at `uid` passes over: served messages delivered behind the scan. */
  function Passed(w: World, v: nat, uid: nat): set<(nat, nat)> {
    set p | p in w.behind && p.0 == v && p.1 <= uid && v in w.boxes
            && p.1 in w.boxes[v].present && w.boxes[v].present[p.1].served
  }

  function RecordProgress(w: World, v: nat, uid: nat): World {
    w.(cursor := Cursor(Some(v), uid), overtaken := w.overtaken + Passed(w, v, uid))
  }

  function DropLocations(w: World): World {
    w.(located := {})
  }

  function StoreBlob(w: World, raw: Bytes): World {
    w.(blobs := w.blobs + {raw})
  }

  function EnqueueParse(w: World, v: nat, uid: nat, raw: Bytes): World {
    w.(jobs := w.jobs + multiset{raw}, ingested := w.ingested + {(v, uid)},
       behind := w.behind - {(v, uid)}, overtaken := w.overtaken - {(v, uid)})
  }

  // ---- History ----

  function BeginScan(w: World, v: nat, last: nat): World {
    w.(closed := (v, last), fetches := [], behind := {})
  }

  function CloseWindow(w: World, v: nat, from: nat, to: nat): World {
    w.(closed := (v, to), fetches := w.fetches + [(from, to)])
  }

  // ---- A pass ----

  datatype Step<T> = Step(w: World, script: Script, result: Result<T, Error>)

  function Checkpoint(w: World, script: Script, v: nat, uid: nat): Step<()> {
    var t := Head(script);
    var w1 := Env(w, t.env);
    match t.fault
    case Before(e) => Step(w1, Rest(script), Err(e))
    case After(e) => Step(RecordProgress(w1, v, uid), Rest(script), Err(e))
    case NoFault => Step(RecordProgress(w1, v, uid), Rest(script), Ok(()))
  }

  function DeleteLocations(w: World, script: Script): Step<()> {
    var t := Head(script);
    var w1 := Env(w, t.env);
    match t.fault
    case Before(e) => Step(w1, Rest(script), Err(e))
    case After(e) => Step(DropLocations(w1), Rest(script), Err(e))
    case NoFault => Step(DropLocations(w1), Rest(script), Ok(()))
  }

  function HandleChange(w: World, script: Script, v: nat): Step<()> {
    var reset := Checkpoint(w, script, v, 0);
    if reset.result.Err? then reset else DeleteLocations(reset.w, reset.script)
  }

  /** `ingest_raw`: the blob first, then the parse job. */
  function IngestRaw(w: World, script: Script, v: nat, uid: nat, raw: Bytes): Step<()> {
    var t := Head(script);
    var w1 := Env(w, t.env);
    match t.fault
    case Before(e) => Step(w1, Rest(script), Err(e))
    case After(e) => Step(StoreBlob(w1, raw), Rest(script), Err(e))
    case NoFault =>
      var script1 := Rest(script);
      var t1 := Head(script1);
      var w2 := Env(StoreBlob(w1, raw), t1.env);
      match t1.fault
      case Before(e) => Step(w2, Rest(script1), Err(e))
      case After(e) => Step(EnqueueParse(w2, v, uid, raw), Rest(script1), Err(e))
      case NoFault => Step(EnqueueParse(w2, v, uid, raw), Rest(script1), Ok(()))
  }

  datatype Batch = Batch(high: nat, ingested: nat)

  /** One item of a FETCH response; items without a UID or a body are passed over. */
  function IngestItem(w: World, script: Script, v: nat, item: FetchItem, batch: Batch): Step<Batch> {
    var t := Head(script);
    var w1 := Env(w, t.env);
    if t.fault != NoFault then Step(w1, Rest(script), Err(t.fault.error)) else
    if item.uid.None? || item.body.None? then Step(w1, Rest(script), Ok(batch)) else
    var r := IngestRaw(w1, Rest(script), v, item.uid.value, item.body.value);
    if r.result.Err? then Step(r.w, r.script, Err(r.result.error)) else
    var high := if item.uid.value > batch.high then item.uid.value else batch.high;
    Step(r.w, r.script, Ok(Batch(high, batch.ingested + 1)))
  }

  /** The items of one FETCH response, in the order they arrive. */
  function IngestItems(w: World, script: Script, v: nat, items: seq<FetchItem>, batch: Batch): Step<Batch>
    decreases |items|
  {
    if items == [] then Step(w, script, Ok(batch)) else
    var r := IngestItem(w, script, v, items[0], batch);
    if r.result.Err? then r else IngestItems(r.w, r.script, v, items[1..], r.result.value)
  }

  function WindowEnd(from: nat, upper: Option<nat>): nat {
    match upper
    case Some(u) => Min(SaturatingAdd(from, FETCH_BATCH - 1), u)
    case None => SaturatingAdd(from, FETCH_BATCH - 1)
  }

  predicate LastWindow(to: nat, upper: Option<nat>, fetchedAny: bool) {
    match upper
    case Some(u) => to >= u
    case None => !fetchedAny || to == U32_MAX
  }

  /** One window: fetch it, ingest what it yields, and checkpoint if it yielded anything. */
  function OneWindow(w: World, script: Script, v: nat, from: nat, to: nat, batch: Batch): Step<Batch> {
    var t := Head(script);
    var w1 := Env(w, t.env);
    if t.fault != NoFault then Step(w1, Rest(script), Err(t.fault.error)) else
    if w1.validity != v || v !in w1.boxes || !CompleteAnswer(w1.boxes[v], from, to, t.items) then
      Step(w1, Rest(script), Err(Infrastructure))
    else
      var r := IngestItems(CloseWindow(w1, v, from, to), Rest(script), v, t.items, batch);
      if r.result.Err? || r.result.value.ingested == batch.ingested then r else
      var c := Checkpoint(r.w, r.script, v, r.result.value.high);
      if c.result.Err? then Step(c.w, c.script, Err(c.result.error)) else Step(c.w, c.script, r.result)
  }

  /** A scan that ingested nothing still stamps the cursor. */
  function Finish(w: World, script: Script, v: nat, batch: Batch): Step<(nat, nat)> {
    if batch.ingested > 0 then Step(w, script, Ok((batch.high, v))) else
    var c := Checkpoint(w, script, v, batch.high);
    if c.result.Err? then Step(c.w, c.script, Err(c.result.error))
    else Step(c.w, c.script, Ok((batch.high, v)))
  }

  /** The window loop from `from` on. Each window ends above the last, which is what ends the loop. */
  function Windows(w: World, script: Script, v: nat, upper: Option<nat>, from: nat, batch: Batch): Step<(nat, nat)>
    requires from <= U32_MAX && (upper.Some? ==> upper.value <= U32_MAX)
    decreases U32_MAX - from
  {
    var to := WindowEnd(from, upper);
    var r := OneWindow(w, script, v, from, to, batch);
    if r.result.Err? then Step(r.w, r.script, Err(r.result.error)) else
    if LastWindow(to, upper, r.result.value.ingested > batch.ingested) then Finish(r.w, r.script, v, r.result.value)
    else Windows(r.w, r.script, v, upper, SaturatingAdd(to, 1), r.result.value)
  }

  function Scan(w: World, script: Script, v: nat, upper: Option<nat>, last: nat): Step<(nat, nat)>
    requires upper.Some? ==> upper.value <= U32_MAX
  {
    var from := SaturatingAdd(last, 1);
    if upper.Some? && upper.value < from then Finish(BeginScan(w, v, last), script, v, Batch(last, 0))
    else Windows(BeginScan(w, v, last), script, v, upper, from, Batch(last, 0))
  }

  /** The highest UID that exists, when the server advertises UIDNEXT. */
  function Ceiling(box: Mailbox, advertise: bool): Option<nat> {
    if advertise && 1 <= box.uidNext <= U32_MAX then Some(box.uidNext - 1) else None
  }

  function Pass(w: World, script: Script, cfg: Cursor): Step<(nat, nat)> {
    var t := Head(script);
    var w1 := Env(w, t.env);
    if t.fault != NoFault then Step(w1, Rest(script), Err(t.fault.error)) else
    if w1.validity !in w1.boxes then Step(w1, Rest(script), Err(Infrastructure)) else
    var v := w1.validity;
    var upper := Ceiling(w1.boxes[v], t.advertise);
    if cfg.uidvalidity.Some? && cfg.uidvalidity.value != v then
      var h := HandleChange(w1, Rest(script), v);
      if h.result.Err? then Step(h.w, h.script, Err(h.result.error))
      else Scan(h.w, h.script, v, upper, 0)
    else
      Scan(w1, Rest(script), v, upper, cfg.lastUid)
  }

  /** Once a pass is over nothing is behind its scan any more. */
  function EndScan(w: World): World {
    w.(closed := (w.closed.0, 0), behind := {})
  }

  function Sync(w: World, script: Script, cfg: Cursor): Step<(nat, nat)> {
    var s := Pass(w, script, cfg);
    s.(w := EndScan(s.w))
  }

  // ---- The tasks ----

  /** `poll_task`: every pass starts from the configuration the task was started with. */
  function Poll(w: World, cfg: Cursor, passes: seq<Script>): World
    decreases |passes|
  {
    if passes == [] then w else Poll(Sync(w, passes[0], cfg).w, cfg, passes[1..])
  }

  /** One connection of `idle_task`: the local cursor follows each pass until one fails. */
  function Connection(w: World, cur: Cursor, passes: seq<Script>): World
    decreases |passes|
  {
    if passes == [] then w else
    var s := Sync(w, passes[0], cur);
    match s.result
    case Err(_) => s.w
    case Ok((high, v)) => Connection(s.w, Cursor(Some(v), high), passes[1..])
  }

  /** `idle_task`: every connection starts again from the folder it was started with. */
  function Idle(w: World, folder: Cursor, connections: seq<seq<Script>>): World
    decreases |connections|
  {
    if connections == [] then w else
    Idle(Connection(w, folder, connections[0]), folder, connections[1..])
  }

  /** A run of the process, from reading the folder row to the crash or shutdown that ends it. */
  datatype Incarnation = Polled(passes: seq<Script>) | Idled(connections: seq<seq<Script>>)

  function Live(w: World, runs: seq<Incarnation>): World
    decreases |runs|
  {
    if runs == [] then w else
    var w1 := match runs[0]
              case Polled(passes) => Poll(w, w.cursor, passes)
              case Idled(connections) => Idle(w, w.cursor, connections);
    Live(w1, runs[1..])
  }
}
