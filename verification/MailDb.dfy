/**
 The mail tables and what one committed parse job does to them. A content hash is
 modelled as the content itself, so equal hashes mean equal bytes. Parsing is an
 unknown function from the raw bytes to a parsed message or nothing.
 */
module MailDb {
  import opened Wrappers

  type Blob = string

  const I32_MAX: int := 0x7fff_ffff

  datatype File = File(bytes: Blob, name: string, contentType: string, isInline: bool)

  /** `envelope` stands for every header field and the snippet. */
  datatype Parsed = Parsed(envelope: string, files: seq<File>)

  type Parser = Blob -> Option<Parsed>

  /** `row` is the row of the job queue that holds the job; executions of one row share it. */
  datatype ParseJob = ParseJob(row: nat, account: nat, folder: nat, uid: nat, uidvalidity: nat, hash: Blob, flags: string)

  datatype Message = Message(account: nat, hash: Blob, envelope: string, hasAttachments: bool, attachmentCount: int)

  datatype Attachment = Attachment(account: nat, hash: Blob, name: string, contentType: string, isInline: bool, size: nat)

  datatype Location = Location(uid: nat, uidvalidity: nat, flags: string)

  /** Attachment rows are grouped by message id; a location is keyed by its message and folder. */
  datatype Db = Db(messages: map<nat, Message>, attachments: map<nat, seq<Attachment>>, locations: map<(nat, nat), Location>)

  const EMPTY: Db := Db(map[], map[], map[])

  // Identity of a message: its account and its content.
  type Key = (nat, Blob)

  function KeyOf(m: Message): Key { (m.account, m.hash) }

  function JobKey(job: ParseJob): Key { (job.account, job.hash) }

  function JobKeys(jobs: set<ParseJob>): set<Key> { set job | job in jobs :: JobKey(job) }

  function Keys(db: Db): set<Key> {
    set id | id in db.messages :: KeyOf(db.messages[id])
  }

  ghost function IdOf(db: Db, key: Key): (id: nat)
    requires key in Keys(db)
    ensures id in db.messages && KeyOf(db.messages[id]) == key
  {
    var id :| id in db.messages && KeyOf(db.messages[id]) == key; id
  }

  function Attached(db: Db, id: nat): seq<Attachment> {
    if id in db.attachments then db.attachments[id] else []
  }

  /** `i32::try_from(len).unwrap_or(i32::MAX)` */
  function Count(n: nat): int { if n <= I32_MAX then n else I32_MAX }

  function MessageRow(job: ParseJob, parsed: Parsed): Message {
    Message(job.account, job.hash, parsed.envelope, parsed.files != [], Count(|parsed.files|))
  }

  function AttachmentRow(account: nat, f: File): Attachment {
    Attachment(account, f.bytes, f.name, f.contentType, f.isInline, |f.bytes|)
  }

  function AttachmentRows(account: nat, files: seq<File>): (rows: seq<Attachment>)
    ensures |rows| == |files|
  {
    seq(|files|, i requires 0 <= i < |files| => AttachmentRow(account, files[i]))
  }

  function InsertMessage(db: Db, job: ParseJob, id: nat, parsed: Parsed): Db {
    Db(db.messages[id := MessageRow(job, parsed)],
       if parsed.files == [] then db.attachments else db.attachments[id := AttachmentRows(job.account, parsed.files)],
       db.locations)
  }

  /** The tables after a commit: the inserted message, if any, and the job's location. */
  function Committed(db: Db, job: ParseJob, id: nat, insert: Option<Parsed>): Db {
    var db1 := if insert.Some? then InsertMessage(db, job, id, insert.value) else db;
    db1.(locations := db1.locations[(id, job.folder) := Location(job.uid, job.uidvalidity, job.flags)])
  }

  /** What the archive shows of one message, whatever row id it was given. */
  datatype Entry = Entry(envelope: string, hasAttachments: bool, attachmentCount: int, attachments: seq<Attachment>)

  function EntryAt(db: Db, id: nat): Entry
    requires id in db.messages
  {
    var m := db.messages[id];
    Entry(m.envelope, m.hasAttachments, m.attachmentCount, Attached(db, id))
  }

  /** The tables with the generated row ids left out. */
  datatype View = View(messages: map<Key, Entry>, places: set<(Key, nat)>)

  ghost function ViewOf(db: Db): View {
    View(map key | key in Keys(db) :: EntryAt(db, IdOf(db, key)),
         set p | p in db.locations && p.0 in db.messages :: (KeyOf(db.messages[p.0]), p.1))
  }

  /** The archive that a set of jobs stands for, without any database. */
  function IdealEntry(parse: Parser, key: Key): Entry
    requires parse(key.1).Some?
  {
    var files := parse(key.1).value.files;
    Entry(parse(key.1).value.envelope, files != [], Count(|files|), AttachmentRows(key.0, files))
  }

  function Ideal(parse: Parser, jobs: set<ParseJob>): View
    requires forall job :: job in jobs ==> parse(job.hash).Some?
  {
    View(map key | key in JobKeys(jobs) :: IdealEntry(parse, key),
         set job | job in jobs :: (JobKey(job), job.folder))
  }

  /** Rows are unique by account and hash, faithful to the bytes they came from, and referenced rows exist. */
  ghost predicate Unique(db: Db) {
    forall id, id' :: id in db.messages && id' in db.messages && KeyOf(db.messages[id]) == KeyOf(db.messages[id']) ==> id == id'
  }

  ghost predicate Faithful(parse: Parser, db: Db) {
    && (forall id :: id in db.messages ==>
          parse(db.messages[id].hash).Some? && EntryAt(db, id) == IdealEntry(parse, KeyOf(db.messages[id])))
    && (forall id :: id in db.attachments ==> id in db.messages)
    && (forall p :: p in db.locations ==> p.0 in db.messages)
  }

  ghost predicate ValidDb(parse: Parser, db: Db) { Unique(db) && Faithful(parse, db) }

  /** What the schema promises readers of the rows. */
  lemma ValidRowsAreCounted(parse: Parser, db: Db, id: nat)
    requires ValidDb(parse, db) && id in db.messages
    ensures db.messages[id].hasAttachments <==> |Attached(db, id)| > 0
    ensures |Attached(db, id)| == |parse(db.messages[id].hash).value.files|
    ensures db.messages[id].attachmentCount == if |Attached(db, id)| <= 0x7fff_ffff then |Attached(db, id)| else 0x7fff_ffff
    ensures db.messages[id].hasAttachments <==> db.messages[id].attachmentCount > 0
  {}

  /** Message and attachment rows say what the message's own bytes say, field by field. */
  lemma ValidRowsSayWhatTheBytesSay(parse: Parser, db: Db, id: nat)
    requires ValidDb(parse, db) && id in db.messages
    ensures var m, rows := db.messages[id], Attached(db, id);
            && parse(m.hash).Some? && m.envelope == parse(m.hash).value.envelope
            && var files := parse(m.hash).value.files;
               && |rows| == |files|
               && forall i :: 0 <= i < |files| ==>
                    && rows[i].account == m.account && rows[i].hash == files[i].bytes && rows[i].size == |files[i].bytes|
                    && rows[i].name == files[i].name && rows[i].contentType == files[i].contentType
                    && rows[i].isInline == files[i].isInline
  {}

  lemma InsertKeepsUnique(db: Db, job: ParseJob, id: nat, parsed: Parsed)
    requires Unique(db) && id !in db.messages && JobKey(job) !in Keys(db)
    ensures Unique(InsertMessage(db, job, id, parsed))
  {}

  lemma InsertedEntries(parse: Parser, db: Db, job: ParseJob, id: nat, parsed: Parsed)
    requires parse(job.hash) == Some(parsed) && id !in db.messages && id !in db.attachments
    ensures var db' := InsertMessage(db, job, id, parsed);
            && EntryAt(db', id) == IdealEntry(parse, JobKey(job))
            && forall i :: i in db.messages ==> EntryAt(db', i) == EntryAt(db, i)
  {}

  lemma InsertKeepsValid(parse: Parser, db: Db, job: ParseJob, id: nat, parsed: Parsed)
    requires ValidDb(parse, db)
    requires parse(job.hash) == Some(parsed) && id !in db.messages && JobKey(job) !in Keys(db)
    ensures ValidDb(parse, InsertMessage(db, job, id, parsed))
  {
    InsertKeepsUnique(db, job, id, parsed);
    InsertedEntries(parse, db, job, id, parsed);
    hide Unique, Keys, EntryAt, IdealEntry, AttachmentRows;
  }

  lemma InsertedKeys(db: Db, job: ParseJob, id: nat, parsed: Parsed)
    requires id !in db.messages
    ensures Keys(InsertMessage(db, job, id, parsed)) == Keys(db) + {JobKey(job)}
  {
    var db' := InsertMessage(db, job, id, parsed);
    forall key | key in Keys(db) + {JobKey(job)} ensures key in Keys(db') {
      var i := if key in Keys(db) then IdOf(db, key) else id;
      assert KeyOf(db'.messages[i]) == key;
    }
  }

  lemma RowHasKey(db: Db, id: nat)
    requires id in db.messages
    ensures KeyOf(db.messages[id]) in Keys(db)
  {}

  lemma PlacingKeepsValid(parse: Parser, db: Db, place: (nat, nat), location: Location)
    requires ValidDb(parse, db) && place.0 in db.messages
    ensures var db' := db.(locations := db.locations[place := location]);
            ValidDb(parse, db') && Keys(db') == Keys(db)
  {}

  lemma CommitKeepsValid(parse: Parser, db: Db, job: ParseJob, id: nat, insert: Option<Parsed>)
    requires ValidDb(parse, db)
    requires insert.Some? ==> parse(job.hash) == insert && id !in db.messages && JobKey(job) !in Keys(db)
    requires insert.None? ==> id in db.messages && KeyOf(db.messages[id]) == JobKey(job)
    ensures ValidDb(parse, Committed(db, job, id, insert))
    ensures Keys(Committed(db, job, id, insert)) == Keys(db) + {JobKey(job)}
  {
    var db1 := if insert.Some? then InsertMessage(db, job, id, insert.value) else db;
    if insert.Some? {
      InsertKeepsValid(parse, db, job, id, insert.value);
      InsertedKeys(db, job, id, insert.value);
    } else {
      RowHasKey(db, id);
    }
    hide ValidDb, Keys;
    PlacingKeepsValid(parse, db1, (id, job.folder), Location(job.uid, job.uidvalidity, job.flags));
  }

  lemma OneMoreJobKey(jobs: set<ParseJob>, job: ParseJob)
    ensures JobKeys(jobs + {job}) == JobKeys(jobs) + {JobKey(job)}
  {}

  /** A valid database shows exactly the entries of the jobs whose keys it holds. */
  lemma ValidViewIsIdeal(parse: Parser, db: Db, jobs: set<ParseJob>)
    requires ValidDb(parse, db)
    requires Keys(db) == JobKeys(jobs)
    requires forall job :: job in jobs ==> parse(job.hash).Some?
    ensures ViewOf(db).messages == Ideal(parse, jobs).messages
  {}
}
