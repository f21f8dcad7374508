/**
 The ingest front door, the parse handler and the recording transaction as they execute:
 bytes before the job, files before the rows, rows statement by statement with a rollback
 on any error. Errors other than those of the code itself come from `health`, the number
 of storage or database operations that still succeed before the next one fails.
 */
module IngestService {
  import opened Wrappers
  import opened MailDb

  /**
   `Constraint` is a refused insert, `Database` an update whose row is gone. `Unavailable` alone
   is transient: the worker retries it, and fails the job for any other.
   */
  datatype Error = Unavailable | BlobNotFound | Validation | Conflict | Constraint | Database

  datatype Recorded = Recorded(id: nat, created: bool)

  /** Another worker's execution that commits a new message while this transaction is under way. */
  datatype Rival = Rival(job: ParseJob, parsed: Parsed, id: nat)

  function WithRival(db: Db, rival: Option<Rival>): Db {
    match rival
    case None => db
    case Some(r) =>
      if JobKey(r.job) in Keys(db) || r.id in db.messages then db
      else Committed(db, r.job, r.id, Some(r.parsed))
  }

  /** What other transactions commit to the locations between the lookup of a location and its write. */
  datatype Meddling = Places(id: nat, folder: nat, location: Location) | Drops(folder: nat)

  /** Only rows that are committed, and so visible, can be given a location by others. */
  function MeddledOnce(locations: map<(nat, nat), Location>, visible: set<nat>, m: Meddling): map<(nat, nat), Location> {
    match m
    case Places(id, folder, location) => if id in visible then locations[(id, folder) := location] else locations
    case Drops(folder) => map p | p in locations && p.1 != folder :: locations[p]
  }

  function Meddled(locations: map<(nat, nat), Location>, visible: set<nat>, meddling: seq<Meddling>): map<(nat, nat), Location>
    decreases |meddling|
  {
    if meddling == [] then locations else Meddled(MeddledOnce(locations, visible, meddling[0]), visible, meddling[1..])
  }

  /** What others place is there, if its message is visible, and what they drop is not. */
  lemma MeddlingShows(locations: map<(nat, nat), Location>, visible: set<nat>, m: Meddling)
    ensures var after := MeddledOnce(locations, visible, m);
            match m
            case Places(id, folder, location) =>
              && (id in visible ==> (id, folder) in after && after[(id, folder)] == location)
              && forall p :: p != (id, folder) ==> (p in after <==> p in locations) && (p in locations ==> after[p] == locations[p])
            case Drops(folder) =>
              forall p :: (p in after <==> p in locations && p.1 != folder) && (p in after ==> after[p] == locations[p])
  {}

  function Disturbed(db: Db, meddling: seq<Meddling>): Db {
    db.(locations := Meddled(db.locations, db.messages.Keys, meddling))
  }

  /** A row found is still there to update; a row not found is still not there when it is inserted. */
  predicate Undisturbed(locations: map<(nat, nat), Location>, visible: set<nat>, place: (nat, nat), meddling: seq<Meddling>) {
    if place in locations then Drops(place.1) !in meddling else place !in Meddled(locations, visible, meddling)
  }

  /** The unique index on account and hash, and the foreign keys. */
  ghost predicate Sound(db: Db) {
    && Unique(db)
    && (forall id :: id in db.attachments ==> id in db.messages)
    && (forall p :: p in db.locations ==> p.0 in db.messages)
  }

  /** The place a recording transaction writes to, and whether others leave it be. */
  ghost function PlaceOf(base: Db, job: ParseJob, newId: nat): (nat, nat) {
    (if JobKey(job) in Keys(base) then IdOf(base, JobKey(job)) else newId, job.folder)
  }

  ghost predicate Settles(base: Db, job: ParseJob, newId: nat, meddling: seq<Meddling>) {
    Undisturbed(base.locations, base.messages.Keys, PlaceOf(base, job, newId), meddling)
  }

  /** Statements of one recording transaction, its commit included: row found at once, race lost, row created. */
  function Statements(found: bool, lost: bool, files: nat): nat {
    if found then 4 else if lost then 6 else 5 + files
  }

  lemma RivalKeepsRows(db: Db, rival: Option<Rival>)
    ensures var db' := WithRival(db, rival);
            forall id :: id in db.messages ==> id in db'.messages && db'.messages[id] == db.messages[id]
    ensures Keys(db) <= Keys(WithRival(db, rival))
  {}

  lemma RivalKeepsSound(db: Db, rival: Option<Rival>)
    requires Sound(db)
    ensures Sound(WithRival(db, rival))
  {
    hide Keys;
    match rival
    case None =>
    case Some(r) =>
      if !(JobKey(r.job) in Keys(db) || r.id in db.messages) {
        InsertKeepsUnique(db, r.job, r.id, r.parsed);
        hide Unique;
      }
  }

  /** A row stays while its folder is not dropped. */
  lemma {:induction false} KeptUnlessDropped(locations: map<(nat, nat), Location>, visible: set<nat>, place: (nat, nat),
                                             meddling: seq<Meddling>)
    requires place in locations && Drops(place.1) !in meddling
    ensures place in Meddled(locations, visible, meddling)
    decreases |meddling|
  {
    if meddling != [] {
      KeptUnlessDropped(MeddledOnce(locations, visible, meddling[0]), visible, place, meddling[1..]);
    }
  }

  lemma {:induction false} MeddledRowsExist(locations: map<(nat, nat), Location>, visible: set<nat>, meddling: seq<Meddling>)
    requires forall p :: p in locations ==> p.0 in visible
    ensures forall p :: p in Meddled(locations, visible, meddling) ==> p.0 in visible
    decreases |meddling|
  {
    if meddling != [] {
      MeddledRowsExist(MeddledOnce(locations, visible, meddling[0]), visible, meddling[1..]);
    }
  }

  lemma RowIsThePlace(base: Db, job: ParseJob, newId: nat, id: nat)
    requires Sound(base) && id in base.messages && KeyOf(base.messages[id]) == JobKey(job)
    ensures JobKey(job) in Keys(base) && PlaceOf(base, job, newId) == (id, job.folder)
  {}

  lemma PlaceExists(base: Db, job: ParseJob, newId: nat)
    requires JobKey(job) in Keys(base)
    ensures PlaceOf(base, job, newId).0 in base.messages
  {}

  /** The tables a commit leaves, and that they are sound. */
  lemma CommittedIsSound(base: Db, job: ParseJob, id: nat, insert: Option<Parsed>, meddling: seq<Meddling>)
    requires Sound(base)
    requires if insert.Some? then id !in base.messages && JobKey(job) !in Keys(base) else id in base.messages
    ensures var db, q := if insert.Some? then InsertMessage(base, job, id, insert.value) else base,
                         Committed(Disturbed(base, meddling), job, id, insert);
            && q == db.(locations := Meddled(base.locations, base.messages.Keys, meddling)[
                                       (id, job.folder) := Location(job.uid, job.uidvalidity, job.flags)])
            && Sound(q)
  {
    MeddledRowsExist(base.locations, base.messages.Keys, meddling);
    if insert.Some? { InsertKeepsUnique(base, job, id, insert.value); }
    hide Keys, Meddled;
  }

  lemma DisturbedIsSound(base: Db, meddling: seq<Meddling>)
    requires Sound(base)
    ensures Sound(Disturbed(base, meddling))
  {
    MeddledRowsExist(base.locations, base.messages.Keys, meddling);
  }

  class Archive {
    var raw: set<Key>
    var files: set<Key>
    var jobs: seq<ParseJob>
    var messages: map<nat, Message>
    var attachments: map<nat, seq<Attachment>>
    var locations: map<(nat, nat), Location>
    var health: nat

    function Tables(): Db
      reads `messages, `attachments, `locations
    {
      Db(messages, attachments, locations)
    }

    method Statement() returns (ok: bool)
      modifies `health
      ensures ok == (old(health) > 0)
      ensures health == if ok then old(health) - 1 else 0
    {
      ok := health > 0;
      if ok { health := health - 1; }
    }

    /** Bytes first: an error after the first step leaves bytes without a job, never a job without bytes. */
    method IngestRaw(job: ParseJob) returns (r: Result<nat, Error>)
      modifies `raw, `jobs, `health
      ensures r.Ok? <==> old(health) >= 2
      ensures raw == if old(health) >= 1 then old(raw) + {JobKey(job)} else old(raw)
      ensures jobs == if r.Ok? then old(jobs) + [job] else old(jobs)
      ensures r.Ok? ==> r.value == |old(jobs)|
      ensures (forall j :: j in old(jobs) ==> JobKey(j) in old(raw)) ==> forall j :: j in jobs ==> JobKey(j) in raw
    {
      var ok := Statement();
      if !ok { return Err(Unavailable); }
      raw := raw + {JobKey(job)};
      ok := Statement();
      if !ok { return Err(Unavailable); }
      jobs := jobs + [job];
      r := Ok(|jobs| - 1);
    }

    method FindByAccountAndContentHash(account: nat, hash: Blob) returns (r: Option<nat>)
      ensures r.Some? <==> (account, hash) in Keys(Tables())
      ensures r.Some? ==> r.value in messages && KeyOf(messages[r.value]) == (account, hash)
    {
      if id :| id in messages && KeyOf(messages[id]) == (account, hash) {
        r := Some(id);
      } else {
        r := None;
      }
    }

    /** Refused, without effect, when the row would break a unique index. */
    method Create(id: nat, row: Message) returns (ok: bool)
      modifies `messages
      ensures ok == (id !in old(messages) && KeyOf(row) !in Keys(old(Tables())))
      ensures messages == if ok then old(messages)[id := row] else old(messages)
    {
      var taken := exists i :: i in messages && KeyOf(messages[i]) == KeyOf(row);
      ok := id !in messages && !taken;
      if ok { messages := messages[id := row]; }
    }

    method CreateMany(id: nat, account: nat, parsed: seq<File>) returns (ok: bool)
      requires id !in attachments
      modifies `attachments, `health
      ensures ok == (old(health) >= |parsed|)
      ensures health == if ok then old(health) - |parsed| else 0
      ensures ok ==> attachments == if parsed == [] then old(attachments) else old(attachments)[id := AttachmentRows(account, parsed)]
    {
      var i := 0;
      ok := true;
      while i < |parsed|
        invariant i <= |parsed| && health == old(health) - i
        invariant attachments == if i == 0 then old(attachments) else old(attachments)[id := AttachmentRows(account, parsed[..i])]
      {
        ok := Statement();
        if !ok { return; }
        var rows := if id in attachments then attachments[id] else [];
        assert AttachmentRows(account, parsed[..i + 1]) == AttachmentRows(account, parsed[..i]) + [AttachmentRow(account, parsed[i])];
        attachments := attachments[id := rows + [AttachmentRow(account, parsed[i])]];
        i := i + 1;
      }
      assert parsed[..i] == parsed;
    }

    /** Find, then update or insert, with whatever others commit in between. */
    method Upsert(id: nat, job: ParseJob, visible: set<nat>, meddling: seq<Meddling>) returns (r: Result<Location, Error>)
      modifies `locations, `health
      ensures r.Ok? <==> old(health) >= 2 && Undisturbed(old(locations), visible, (id, job.folder), meddling)
      ensures r.Ok? ==>
                && r.value == Location(job.uid, job.uidvalidity, job.flags) && health == old(health) - 2
                && locations == Meddled(old(locations), visible, meddling)[(id, job.folder) := r.value]
      ensures r.Err? ==> locations == if old(health) == 0 then old(locations) else Meddled(old(locations), visible, meddling)
      ensures r.Err? ==>
                r.error == if old(health) < 2 then Unavailable else if (id, job.folder) in old(locations) then Database else Constraint
    {
      var ok := Statement();
      if !ok { return Err(Unavailable); }
      var existing := (id, job.folder) in locations;
      var gone := existing && Drops(job.folder) in meddling;
      if existing && !gone { KeptUnlessDropped(locations, visible, (id, job.folder), meddling); }
      locations := Meddled(locations, visible, meddling);
      ok := Statement();
      if !ok { return Err(Unavailable); }
      if existing {
        if gone { return Err(Database); }
        var row := locations[(id, job.folder)];
        locations := locations[(id, job.folder) := row.(uid := job.uid, uidvalidity := job.uidvalidity, flags := job.flags)];
      } else {
        if (id, job.folder) in locations { return Err(Constraint); }
        locations := locations[(id, job.folder) := Location(job.uid, job.uidvalidity, job.flags)];
      }
      r := Ok(locations[(id, job.folder)]);
    }

    /** The location, then the commit; a rollback takes back this transaction's location only. */
    method PlaceAndCommit(recorded: Recorded, job: ParseJob, visible: set<nat>, meddling: seq<Meddling>)
      returns (r: Result<Recorded, Error>)
      modifies `locations, `health
      ensures r.Ok? <==> old(health) >= 3 && Undisturbed(old(locations), visible, (recorded.id, job.folder), meddling)
      ensures r.Ok? ==>
                && r.value == recorded
                && locations == Meddled(old(locations), visible, meddling)[
                                  (recorded.id, job.folder) := Location(job.uid, job.uidvalidity, job.flags)]
      ensures r.Err? ==> locations == if old(health) == 0 then old(locations) else Meddled(old(locations), visible, meddling)
      ensures r.Err? && !r.error.Unavailable? ==>
                && old(health) >= 2 && !Undisturbed(old(locations), visible, (recorded.id, job.folder), meddling)
                && r.error == if (recorded.id, job.folder) in old(locations) then Database else Constraint
    {
      var l := Meddled(locations, visible, meddling);
      var placed := Upsert(recorded.id, job, visible, meddling);
      if placed.Err? { return Err(placed.error); }
      var ok := Statement();
      if ok { return Ok(recorded); }
      locations := l;
      r := Err(Unavailable);
    }

    /** The rival's commit becomes visible. */
    method Overtake(rival: Option<Rival>)
      modifies `messages, `attachments, `locations
      ensures Tables() == WithRival(old(Tables()), rival)
    {
      var db := WithRival(Tables(), rival);
      messages, attachments, locations := db.messages, db.attachments, db.locations;
    }

    /** After the lookup missed: insert, or fall back to the row of whoever inserted first. */
    method CreateOrRefetch(job: ParseJob, parsed: Parsed, newId: nat) returns (r: Result<Recorded, Error>)
      requires newId in attachments ==> newId in messages
      modifies `messages, `attachments, `health
      ensures r.Ok? && r.value.created ==>
                && r.value.id == newId && newId !in old(messages) && JobKey(job) !in Keys(old(Tables()))
                && Tables() == InsertMessage(old(Tables()), job, newId, parsed)
                && old(health) >= 1 + |parsed.files| && health == old(health) - 1 - |parsed.files|
      ensures r.Ok? && !r.value.created ==>
                && r.value.id in old(messages) && KeyOf(old(messages)[r.value.id]) == JobKey(job)
                && Tables() == old(Tables()) && old(health) >= 2 && health == old(health) - 2
      ensures r.Err? && r.error.Unavailable? ==>
                && health == 0
                && old(health) < if JobKey(job) in Keys(old(Tables())) || newId in old(messages) then 2 else 1 + |parsed.files|
      ensures r.Err? && !r.error.Unavailable? ==>
                r.error == Conflict && JobKey(job) !in Keys(old(Tables())) && newId in old(messages)
    {
      var ok := Statement();
      if !ok { return Err(Unavailable); }
      var created := Create(newId, MessageRow(job, parsed));
      if created {
        ok := CreateMany(newId, job.account, parsed.files);
        if !ok { return Err(Unavailable); }
        return Ok(Recorded(newId, true));
      }
      ok := Statement();
      if !ok { return Err(Unavailable); }
      var winner := FindByAccountAndContentHash(job.account, job.hash);
      if winner.None? { return Err(Conflict); }
      r := Ok(Recorded(winner.value, false));
    }

    /** The row the message ends up with: the one found, or what creating one comes to. */
    method FindOrCreate(existing: Option<nat>, job: ParseJob, parsed: Parsed, newId: nat) returns (r: Result<Recorded, Error>)
      requires Sound(Tables())
      requires existing.Some? ==> existing.value in messages && KeyOf(messages[existing.value]) == JobKey(job)
      modifies `messages, `attachments, `health
      ensures var known := JobKey(job) in Keys(old(Tables()));
              var cost := Statements(existing.Some?, known, |parsed.files|) - 4;
              && (r.Ok? <==> old(health) >= cost && (known || newId !in old(messages)))
              && (r.Ok? ==>
                    && r.value == Recorded(PlaceOf(old(Tables()), job, newId).0, !known) && health == old(health) - cost
                    && Tables() == if known then old(Tables()) else InsertMessage(old(Tables()), job, newId, parsed))
              && (r.Err? && !r.error.Unavailable? ==> r.error == Conflict && !known && newId in old(messages))
    {
      ghost var base := Tables();
      if existing.Some? {
        RowIsThePlace(base, job, newId, existing.value);
        return Ok(Recorded(existing.value, false));
      }
      r := CreateOrRefetch(job, parsed, newId);
      if r.Ok? && !r.value.created { RowIsThePlace(base, job, newId, r.value.id); }
    }

    /** The tables this transaction is judged against: those it started from, with the rival's commit. */
    function Base(rival: Option<Rival>): Db
      reads `messages, `attachments, `locations, `health
    {
      if health > 0 then WithRival(Tables(), rival) else Tables()
    }

    /**
     All or nothing, whatever races: Ok leaves exactly the committed rows of the job, under the
     row id it reports, on top of what others committed; any error leaves only what they did.
     Success, and each error that fails the job for good, is decided by the operations that
     succeed, the rival's row and the location's luck.
     */
    method RecordParsedMessage(job: ParseJob, parsed: Parsed, newId: nat, rival: Option<Rival>, meddling: seq<Meddling>)
      returns (r: Result<Recorded, Error>)
      requires Sound(Tables())
      modifies `messages, `attachments, `locations, `health
      ensures Sound(Tables())
      ensures r.Ok? <==>
                var base, found := old(Base(rival)), JobKey(job) in Keys(old(Tables()));
                var lost := JobKey(job) in Keys(base);
                && old(health) >= Statements(found, lost, |parsed.files|)
                && (lost || newId !in base.messages) && Settles(base, job, newId, meddling)
      ensures r.Ok? ==>
                var base := old(Base(rival));
                && Tables() == Committed(Disturbed(base, meddling), job, r.value.id,
                                         if r.value.created then Some(parsed) else None)
                && r.value.created == (JobKey(job) !in Keys(base))
                && r.value.id == PlaceOf(base, job, newId).0
      ensures r.Err? ==>
                var base, found := old(Base(rival)), JobKey(job) in Keys(old(Tables()));
                var lost := JobKey(job) in Keys(base);
                Tables() == if old(health) + 2 >= Statements(found, lost, |parsed.files|) && (lost || newId !in base.messages)
                            then Disturbed(base, meddling) else base
      ensures r.Err? && !r.error.Unavailable? ==>
                var base := old(Base(rival));
                old(health) > 0 &&
                if r.error == Conflict then JobKey(job) !in Keys(base) && newId in base.messages
                else !Settles(base, job, newId, meddling)
                     && r.error == if PlaceOf(base, job, newId) in base.locations then Database else Constraint
    {
      var ok := Statement();
      if !ok { return Err(Unavailable); }
      var existing := FindByAccountAndContentHash(job.account, job.hash);
      RivalKeepsRows(Tables(), rival);
      RivalKeepsSound(Tables(), rival);
      Overtake(rival);
      ghost var base := Tables();
      hide Keys, WithRival, Sound, Undisturbed, Meddled, Committed, InsertMessage, PlaceOf, IdOf, MessageRow;
      DisturbedIsSound(base, meddling);
      var m, a := messages, attachments;
      r := FindOrCreate(existing, job, parsed, newId);
      if r.Ok? {
        if !r.value.created { PlaceExists(base, job, newId); }
        CommittedIsSound(base, job, r.value.id, if r.value.created then Some(parsed) else None, meddling);
        r := PlaceAndCommit(r.value, job, m.Keys, meddling);
        if r.Ok? { return; }
      }
      messages, attachments := m, a;
    }

    /** The attachments' bytes are stored one by one before the transaction that refers to them begins. */
    method StoreAttachments(account: nat, parsed: seq<File>) returns (ok: bool)
      modifies `files, `health
      ensures ok == (old(health) >= |parsed|)
      ensures health == if ok then old(health) - |parsed| else 0
      ensures files == old(files) + set i | 0 <= i < |parsed| && i < old(health) :: (account, parsed[i].bytes)
    {
      var i := 0;
      ok := true;
      while i < |parsed|
        invariant i <= |parsed| && health == old(health) - i
        invariant files == old(files) + set k | 0 <= k < i :: (account, parsed[k].bytes)
      {
        ok := Statement();
        if !ok {
          assert (set k | 0 <= k < |parsed| && k < old(health) :: (account, parsed[k].bytes))
              == (set k | 0 <= k < i :: (account, parsed[k].bytes));
          return;
        }
        files := files + {(account, parsed[i].bytes)};
        i := i + 1;
      }
    }

    /** ParseMessageHandler::handle */
    method Handle(parse: Parser, job: ParseJob, newId: nat, rival: Option<Rival>, meddling: seq<Meddling>)
      returns (r: Result<Recorded, Error>)
      requires Sound(Tables())
      modifies `files, `messages, `attachments, `locations, `health
      ensures Sound(Tables())
      ensures r.Err? ==>
                var db := old(Tables());
                Tables() == db || Tables() == WithRival(db, rival) || Tables() == Disturbed(WithRival(db, rival), meddling)
      ensures r.Ok? ==>
                && JobKey(job) in old(raw) && parse(job.hash).Some?
                && (var parsed, base := parse(job.hash).value, WithRival(old(Tables()), rival);
                    && Settles(base, job, newId, meddling)
                    && Tables() == Committed(Disturbed(base, meddling), job, r.value.id,
                                             if r.value.created then Some(parsed) else None)
                    && r.value.created == (JobKey(job) !in Keys(base))
                    && r.value.id == PlaceOf(base, job, newId).0
                    && files == old(files) + set i | 0 <= i < |parsed.files| :: (job.account, parsed.files[i].bytes))
      ensures r.Err? && r.error == BlobNotFound <==> old(health) > 0 && JobKey(job) !in old(raw)
      ensures r.Err? && r.error == Validation <==> old(health) > 0 && JobKey(job) in old(raw) && parse(job.hash).None?
      ensures r.Err? && (r.error == Constraint || r.error == Database) ==>
                !Settles(WithRival(old(Tables()), rival), job, newId, meddling)
    {
      var ok := Statement();
      if !ok { return Err(Unavailable); }
      if JobKey(job) !in raw { return Err(BlobNotFound); }
      if parse(job.hash).None? { return Err(Validation); }
      var parsed := parse(job.hash).value;
      ok := StoreAttachments(job.account, parsed.files);
      if !ok { return Err(Unavailable); }
      hide Settles, PlaceOf, Sound, WithRival, Disturbed, Committed, Keys;
      r := RecordParsedMessage(job, parsed, newId, rival, meddling);
    }
  }
}
