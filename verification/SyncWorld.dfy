/**
 One folder as the IMAP sync sees it: the server's mailbox, the persisted folder
 row, the parse jobs and the message locations.

 The server follows section 2.3.1.1 of RFC 3501: within one UIDVALIDITY a new
 message gets a UID of at least UIDNEXT, UIDNEXT never falls, no UID is given
 twice, and a changed UIDVALIDITY is larger than every earlier one.

 Everything the sync does not decide itself is a script of ticks, over which every
 theorem quantifies: what the rest of the world does before a call, whether the call
 fails, and what the server answers. A script that has run out is a crash.
 */
module SyncWorld {
  import opened Wrappers

  const U32_MAX: nat := 0xFFFF_FFFF

  /** The bytes of a message. Content hashes are taken as injective, so bytes stand for their hash. */
  type Bytes = string

  /** `served` says whether FETCH BODY.PEEK[] yields a body for the message. */
  datatype Mail = Mail(raw: Bytes, served: bool)

  /** The mailbox under one UIDVALIDITY. `present` shrinks by expunging and grows only at `uidNext` or above. */
  datatype Mailbox = Mailbox(uidNext: nat, present: map<nat, Mail>)

  /** The persisted `(uidvalidity, last_uid)` of a folder row, and every in-memory copy of it. */
  datatype Cursor = Cursor(uidvalidity: Option<nat>, lastUid: nat)

  datatype World = World(
    validity: nat,
    boxes: map<nat, Mailbox>,
    cursor: Cursor,
    blobs: set<Bytes>,
    jobs: multiset<Bytes>,      // parse jobs that are pending or running
    failed: set<Bytes>,         // contents with a parse job that ended Failed
    located: set<Bytes>,        // contents with a message_locations row in this folder
    // History, which no step of the program reads:
    ingested: set<(nat, nat)>,  // (epoch, uid) whose ingest_raw has enqueued its job
    fetches: seq<(nat, nat)>,   // windows fetched by the latest pass
    closed: (nat, nat),         // epoch, and the UID up to which the pass in progress has fetched
    behind: set<(nat, nat)>,    // delivered at or below `closed`, where this pass will not look again
    overtaken: set<(nat, nat)>  // those of them that a checkpoint has moved the cursor past, until they are ingested
  )

  predicate ValidMailbox(box: Mailbox) {
    && 1 <= box.uidNext <= U32_MAX + 1
    && forall uid :: uid in box.present ==> 1 <= uid < box.uidNext
  }

  predicate ValidServer(w: World) {
    && w.validity in w.boxes
    && forall v :: v in w.boxes ==> v <= w.validity && ValidMailbox(w.boxes[v])
  }

  /** A message that is, or was, in the mailbox of its epoch. */
  predicate Known(w: World, p: (nat, nat)) {
    p.0 in w.boxes && 1 <= p.1 < w.boxes[p.0].uidNext
  }

  /** The server is in order, and the history speaks of its messages only, each either ingested or not. */
  ghost predicate Valid(w: World) {
    && ValidServer(w)
    && (forall p :: p in w.ingested ==> Known(w, p))
    && (forall p :: p in w.behind ==> Known(w, p) && p !in w.ingested)
    && (forall p :: p in w.overtaken ==> Known(w, p) && p !in w.ingested)
  }

  predicate Tracked(w: World, raw: Bytes) {
    raw in w.located || raw in w.jobs || raw in w.failed
  }

  /** What the rest of the world can do between two steps of a sync pass. */
  datatype EnvStep =
    | Deliver(uid: nat, mail: Mail)
    | Expunge(uid: nat)
    | Rollover(validity: nat, box: Mailbox)
    | ParseDone(raw: Bytes)
    | ParseFailed(raw: Bytes)

  function EnvOne(w: World, e: EnvStep): World {
    match e
    case Deliver(uid, mail) =>
      if w.validity in w.boxes && w.boxes[w.validity].uidNext <= uid <= U32_MAX then
        var box := w.boxes[w.validity];
        w.(boxes := w.boxes[w.validity := Mailbox(uid + 1, box.present[uid := mail])],
           behind := if w.closed.0 == w.validity && uid <= w.closed.1
                     then w.behind + {(w.validity, uid)} else w.behind)
      else w
    case Expunge(uid) =>
      if w.validity in w.boxes then
        var box := w.boxes[w.validity];
        w.(boxes := w.boxes[w.validity := box.(present := box.present - {uid})])
      else w
    case Rollover(v, box) =>
      if w.validity < v && ValidMailbox(box)
      then w.(validity := v, boxes := w.boxes[v := box])
      else w
    case ParseDone(raw) =>
      if raw in w.jobs then w.(jobs := w.jobs - multiset{raw}, located := w.located + {raw}) else w
    case ParseFailed(raw) =>
      if raw in w.jobs then w.(jobs := w.jobs - multiset{raw}, failed := w.failed + {raw}) else w
  }

  function Env(w: World, es: seq<EnvStep>): World
    decreases |es|
  {
    if es == [] then w else Env(EnvOne(w, es[0]), es[1..])
  }

  datatype Error = FolderNotFound | Infrastructure

  /** `Before`: the call fails having done nothing. `After`: it takes effect, but reports an error. */
  datatype Fault = NoFault | Before(error: Error) | After(error: Error)

  datatype FetchItem = FetchItem(uid: Option<nat>, body: Option<Bytes>)

  datatype Tick = Tick(env: seq<EnvStep>, fault: Fault, advertise: bool, items: seq<FetchItem>)

  type Script = seq<Tick>

  const CRASH := Tick([], Before(Infrastructure), false, [])

  function Head(script: Script): Tick {
    if script == [] then CRASH else script[0]
  }

  function Rest(script: Script): Script {
    if script == [] then [] else script[1..]
  }

  /**
   A complete answer to `UID FETCH from:to`: in any order, with any repetition and any
   bodiless or UID-less items in between, each served message of the window occurs, and
   every body belongs to a message of the window.
   */
  predicate CompleteAnswer(box: Mailbox, from: nat, to: nat, items: seq<FetchItem>) {
    && (forall i | 0 <= i < |items| ::
          items[i].uid.Some? && items[i].body.Some? ==>
            && from <= items[i].uid.value <= to
            && items[i].uid.value in box.present
            && box.present[items[i].uid.value] == Mail(items[i].body.value, true))
    && (forall uid | uid in box.present ::
          from <= uid <= to && box.present[uid].served ==>
            FetchItem(Some(uid), Some(box.present[uid].raw)) in items)
  }
}
