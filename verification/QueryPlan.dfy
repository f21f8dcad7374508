/**
 From a parsed query to what the index and the database are asked. Stemming, case folding
 and the index itself are given as functions and data; matching of compiled queries follows
 the Boolean semantics of the search library.
 */
module QueryPlan {
  import opened Wrappers
  import opened Strings
  import opened QueryParser

  type Token = string
  type Stemmer = string -> seq<Token>
  type Folding = string -> string

  const DAY: int := 86400

  datatype Field = SubjectField | FromField | ToField | BodyField

  /** `sent` is in seconds; a message without a date has none. */
  datatype Doc = Doc(id: nat, account: nat, subject: seq<Token>, sender: seq<Token>, recipients: seq<Token>, body: seq<Token>,
                     sent: Option<int>, hasAttachments: bool)

  datatype Account = Account(id: nat, displayName: string)
  datatype Folder = Folder(id: nat, account: nat, path: string, displayName: Option<string>)

  /** What resolution reads: the user's accounts, every folder, and which message lies in which folder. */
  datatype Library = Library(accounts: seq<Account>, folders: seq<Folder>, locations: set<(nat, nat)>)

  // The naive meaning of a query, clause by clause.

  predicate OccursAt<T(==)>(text: seq<T>, run: seq<T>, i: nat) { i + |run| <= |text| && text[i..i + |run|] == run }

  /** The value's tokens occur side by side; a value with no tokens occurs nowhere. */
  ghost predicate Mentions(text: seq<Token>, run: seq<Token>) { run != [] && exists i: nat :: OccursAt(text, run, i) }

  ghost predicate DateHolds(bound: DateBound, date: Date, sent: Option<int>) {
    sent.Some? &&
    match bound
    case Before => sent.value / 86400 < date
    case On => sent.value / 86400 == date
    case After => sent.value / 86400 > date
  }

  function TextOf(doc: Doc, field: TextField): seq<Token> {
    match field case Subject => doc.subject case From => doc.sender case To => doc.recipients
  }

  /** The folded name occurs somewhere in the folded path or display name. */
  ghost predicate GoesBy(fold: Folding, f: Folder, name: string) {
    (exists i: nat :: OccursAt(fold(f.path), fold(name), i))
    || (f.displayName.Some? && exists i: nat :: OccursAt(fold(f.displayName.value), fold(name), i))
  }

  /** The account a name stands for: the last one listed with that name. */
  function Named(fold: Folding, accounts: seq<Account>, name: string): Option<nat> {
    if accounts == [] then None
    else
      var last := accounts[|accounts| - 1];
      if fold(last.displayName) == fold(name) then Some(last.id) else Named(fold, accounts[..|accounts| - 1], name)
  }

  /** A name stands for an account exactly when it is the last of those whose display name folds to the same. */
  lemma {:induction false} NamedIsTheLast(fold: Folding, accounts: seq<Account>, name: string)
    ensures Named(fold, accounts, name).None? <==> forall i :: 0 <= i < |accounts| ==> fold(accounts[i].displayName) != fold(name)
    ensures forall id :: Named(fold, accounts, name) == Some(id) <==>
              exists i :: 0 <= i < |accounts| && accounts[i].id == id && fold(accounts[i].displayName) == fold(name)
                          && forall j :: i < j < |accounts| ==> fold(accounts[j].displayName) != fold(name)
  {
    if accounts != [] {
      var n := |accounts| - 1;
      var front := accounts[..n];
      NamedIsTheLast(fold, front, name);
      assert forall i :: 0 <= i < n ==> front[i] == accounts[i];
      forall id ensures Named(fold, accounts, name) == Some(id) <==>
                exists i :: 0 <= i < |accounts| && accounts[i].id == id && fold(accounts[i].displayName) == fold(name)
                            && forall j :: i < j < |accounts| ==> fold(accounts[j].displayName) != fold(name)
      {
        if fold(accounts[n].displayName) == fold(name) {
          assert Named(fold, accounts, name) == Some(accounts[n].id);
        } else if Named(fold, front, name) == Some(id) {
          var i :| 0 <= i < n && front[i].id == id && fold(front[i].displayName) == fold(name)
                   && forall j :: i < j < n ==> fold(front[j].displayName) != fold(name);
          assert accounts[i].id == id;
        }
      }
    }
  }

  predicate Owned(accounts: seq<Account>, id: nat) { exists i :: 0 <= i < |accounts| && accounts[i].id == id }

  ghost predicate InFolderNamed(fold: Folding, lib: Library, doc: Doc, name: string) {
    exists f :: f in lib.folders && Owned(lib.accounts, f.account) && GoesBy(fold, f, name) && (doc.id, f.id) in lib.locations
  }

  ghost predicate TermHolds(stem: Stemmer, fold: Folding, lib: Library, term: Term, doc: Doc) {
    match term
    case Bare(value) => Mentions(doc.subject, stem(value)) || Mentions(doc.body, stem(value))
    case Text(field, value) => Mentions(TextOf(doc, field), stem(value))
    case Dated(bound, date) => DateHolds(bound, date, doc.sent)
    case Attachments(present) => doc.hasAttachments == present
    case Account(name) => Named(fold, lib.accounts, name) == Some(doc.account)
    case Folder(name) => InFolderNamed(fold, lib, doc, name)
  }

  ghost predicate ClauseHolds(stem: Stemmer, fold: Folding, lib: Library, clause: Clause, doc: Doc) {
    clause.negated != TermHolds(stem, fold, lib, clause.term, doc)
  }

  /** The user owns the message and every clause holds for it. */
  ghost predicate Wanted(stem: Stemmer, fold: Folding, lib: Library, clauses: seq<Clause>, doc: Doc) {
    Owned(lib.accounts, doc.account) && forall i :: 0 <= i < |clauses| ==> ClauseHolds(stem, fold, lib, clauses[i], doc)
  }

  // Compiled queries.

  function FieldOf(doc: Doc, field: Field): seq<Token> {
    match field
    case SubjectField => doc.subject
    case FromField => doc.sender
    case ToField => doc.recipients
    case BodyField => doc.body
  }

  function Searched(field: TextField): Field {
    match field case Subject => SubjectField case From => FromField case To => ToField
  }

  datatype Occur = Must | MustNot | Should

  datatype Bound = Unbounded | Included(at: int) | Excluded(at: int)

  datatype Query =
    | EmptyQuery
    | TermQuery(field: Field, token: Token)
    | PhraseQuery(field: Field, tokens: seq<Token>)
    | AccountQuery(account: nat)
    | AttachmentsQuery(present: bool)
    | DateRange(lower: Bound, upper: Bound)
    | BooleanQuery(subs: seq<(Occur, Query)>)

  predicate AboveLower(t: int,
                       b: Bound) { match b case Unbounded => true case Included(at) => t >= at case Excluded(at) => t > at }

  predicate BelowUpper(t: int,
                       b: Bound) { match b case Unbounded => true case Included(at) => t <= at case Excluded(at) => t < at }

  /** Every Must, no MustNot, and where there is no Must at least one Should: negations alone match nothing. */
  ghost predicate Matches(q: Query, doc: Doc) {
    match q
    case EmptyQuery => false
    case TermQuery(field, token) => token in FieldOf(doc, field)
    case PhraseQuery(field, tokens) => exists i: nat :: OccursAt(FieldOf(doc, field), tokens, i)
    case AccountQuery(account) => doc.account == account
    case AttachmentsQuery(present) => doc.hasAttachments == present
    case DateRange(lower, upper) => doc.sent.Some? && AboveLower(doc.sent.value, lower) && BelowUpper(doc.sent.value, upper)
    case BooleanQuery(subs) =>
      && (forall i :: 0 <= i < |subs| && subs[i].0 == Must ==> Matches(subs[i].1, doc))
      && (forall i :: 0 <= i < |subs| && subs[i].0 == MustNot ==> !Matches(subs[i].1, doc))
      && ((exists i :: 0 <= i < |subs| && subs[i].0 == Must)
          || (exists i :: 0 <= i < |subs| && subs[i].0 == Should && Matches(subs[i].1, doc)))
  }

  function TextQuery(stem: Stemmer, field: Field, value: string): Query {
    var tokens := stem(value);
    if |tokens| == 0 then EmptyQuery else if |tokens| == 1 then TermQuery(field, tokens[0]) else PhraseQuery(field, tokens)
  }

  function BareQuery(stem: Stemmer, value: string): Query {
    BooleanQuery([(Should, TextQuery(stem, SubjectField, value)), (Should, TextQuery(stem, BodyField, value))])
  }

  /** succ_opt has no day after the last one; the code then stays on it. */
  function NextDay(lastDay: Date, date: Date): Date { if date == lastDay then date else date + 1 }

  function DateRangeQuery(lastDay: Date, bound: DateBound, date: Date): Query {
    var start, next := date * DAY, NextDay(lastDay, date) * DAY;
    match bound
    case On => DateRange(Included(start), Excluded(next))
    case Before => DateRange(Unbounded, Excluded(start))
    case After => DateRange(Included(next), Unbounded)
  }

  function TermQueryOf(stem: Stemmer, lastDay: Date, term: Term): Query {
    match term
    case Bare(value) => BareQuery(stem, value)
    case Text(field, value) => TextQuery(stem, Searched(field), value)
    case Dated(bound, date) => DateRangeQuery(lastDay, bound, date)
    case Attachments(present) => AttachmentsQuery(present)
    case Account(_) => EmptyQuery
    case Folder(_) => EmptyQuery
  }

  function ClauseQuery(stem: Stemmer, lastDay: Date, clause: Clause): (Occur, Query) {
    (if clause.negated then MustNot else Must, TermQueryOf(stem, lastDay, clause.term))
  }

  function ScopeQuery(scope: seq<nat>): Query {
    BooleanQuery(seq(|scope|, i requires 0 <= i < |scope| => (Should, AccountQuery(scope[i]))))
  }

  function BuildQuery(stem: Stemmer, lastDay: Date, scope: seq<nat>, residual: seq<Clause>): Query {
    BooleanQuery([(Must, ScopeQuery(scope))]
                 + seq(|residual|, i requires 0 <= i < |residual| => ClauseQuery(stem, lastDay, residual[i])))
  }

  // Splitting and resolving.

  type Hint = (bool, string)

  function AccountHints(clauses: seq<Clause>): seq<Hint> {
    if clauses == [] then []
    else
      var last := clauses[|clauses| - 1];
      AccountHints(clauses[..|clauses| - 1]) + if last.term.Account? then [(last.negated, last.term.name)] else []
  }

  function FolderHints(clauses: seq<Clause>): seq<Hint> {
    if clauses == [] then []
    else
      var last := clauses[|clauses| - 1];
      FolderHints(clauses[..|clauses| - 1]) + if last.term.Folder? then [(last.negated, last.term.name)] else []
  }

  function Residual(clauses: seq<Clause>): seq<Clause> {
    if clauses == [] then []
    else
      var last := clauses[|clauses| - 1];
      Residual(clauses[..|clauses| - 1]) + if last.term.Account? || last.term.Folder? then [] else [last]
  }

  method SplitClauses(clauses: seq<Clause>) returns (accounts: seq<Hint>, folders: seq<Hint>, residual: seq<Clause>)
    ensures accounts == AccountHints(clauses) && folders == FolderHints(clauses) && residual == Residual(clauses)
  {
    accounts, folders, residual := [], [], [];
    var i := 0;
    while i < |clauses|
      invariant i <= |clauses|
      invariant accounts == AccountHints(clauses[..i]) && folders == FolderHints(clauses[..i]) && residual == Residual(clauses[..i])
    {
      var clause := clauses[i];
      assert clauses[..i + 1][..i] == clauses[..i];
      match clause.term {
        case Account(name) => accounts := accounts + [(clause.negated, name)];
        case Folder(name) => folders := folders + [(clause.negated, name)];
        case _ => residual := residual + [clause];
      }
      i := i + 1;
    }
    assert clauses[..i] == clauses;
  }

  /** An id survives the account hints: positive ones name it, negated ones do not. */
  predicate HintsAllow(fold: Folding, accounts: seq<Account>, hints: seq<Hint>, id: nat) {
    forall i :: 0 <= i < |hints| ==> (Named(fold, accounts, hints[i].1) == Some(id)) != hints[i].0
  }

  lemma OwnedGrows(accounts: seq<Account>, i: nat)
    requires i < |accounts|
    ensures forall id :: Owned(accounts[..i + 1], id) <==> Owned(accounts[..i], id) || id == accounts[i].id
  {}

  /** Case-folded names to ids, the last of equal names winning, and all the ids. */
  method IndexAccounts(fold: Folding, accounts: seq<Account>) returns (nameMap: map<string, nat>, ids: set<nat>)
    ensures forall id :: id in ids <==> Owned(accounts, id)
    ensures forall name :: Named(fold, accounts, name) == if fold(name) in nameMap then Some(nameMap[fold(name)]) else None
  {
    nameMap, ids := map[], {};
    var i := 0;
    while i < |accounts|
      invariant i <= |accounts|
      invariant forall id :: id in ids <==> Owned(accounts[..i], id)
      invariant forall name :: Named(fold, accounts[..i], name) == if fold(name) in nameMap then Some(nameMap[fold(name)]) else None
    {
      var a := accounts[i];
      assert accounts[..i + 1][..i] == accounts[..i];
      OwnedGrows(accounts, i);
      nameMap := nameMap[fold(a.displayName) := a.id];
      ids := ids + {a.id};
      i := i + 1;
    }
    assert accounts[..i] == accounts;
  }

  lemma HintsGrow(fold: Folding, accounts: seq<Account>, hints: seq<Hint>, i: nat)
    requires i < |hints|
    ensures forall id: nat :: (HintsAllow(fold, accounts, hints[..i + 1], id) <==>
                                 && HintsAllow(fold, accounts, hints[..i], id)
                                 && (Named(fold, accounts, hints[i].1) == Some(id)) != hints[i].0)
  {
    assert hints[..i + 1] == hints[..i] + [hints[i]];
  }

  /** The scope is exactly the owned accounts that every hint allows, whatever the order of the hints. */
  method ResolveScope(fold: Folding, accounts: seq<Account>, hints: seq<Hint>) returns (scope: set<nat>)
    ensures forall id :: id in scope <==> Owned(accounts, id) && HintsAllow(fold, accounts, hints, id)
  {
    hide Owned;
    var nameMap;
    nameMap, scope := IndexAccounts(fold, accounts);
    var i := 0;
    while i < |hints|
      invariant i <= |hints|
      invariant forall id :: id in scope <==> Owned(accounts, id) && HintsAllow(fold, accounts, hints[..i], id)
    {
      var (negated, name) := hints[i];
      var resolved := if fold(name) in nameMap then Some(nameMap[fold(name)]) else None;
      HintsGrow(fold, accounts, hints, i);
      hide HintsAllow, Named;
      if negated {
        if resolved.Some? { scope := scope - {resolved.value}; }
      } else if resolved.Some? && resolved.value in scope {
        scope := {resolved.value};
      } else {
        scope := {};
      }
      i := i + 1;
    }
    assert hints[..i] == hints;
  }

  predicate Contains(text: string, needle: string) { FindStr(text, needle).Some? }

  predicate FolderMatches(fold: Folding, f: Folder, name: string) {
    Contains(fold(f.path), fold(name)) || (f.displayName.Some? && Contains(fold(f.displayName.value), fold(name)))
  }

  lemma ContainsMeans(text: string, needle: string)
    ensures Contains(text, needle) <==> exists i: nat :: OccursAt(text, needle, i)
  {
    var r := FindStr(text, needle);
    if r.Some? { assert OccursAt(text, needle, r.value); }
    forall i: nat | OccursAt(text, needle, i) ensures StartsWith(text[i..], needle) {
      assert text[i..][..|needle|] == text[i..i + |needle|];
    }
  }

  lemma FolderMatchesMeans(fold: Folding, f: Folder, name: string)
    ensures FolderMatches(fold, f, name) <==> GoesBy(fold, f, name)
  {
    ContainsMeans(fold(f.path), fold(name));
    if f.displayName.Some? { ContainsMeans(fold(f.displayName.value), fold(name)); }
  }

  /** A folder hint resolved to the ids of the matching folders inside the scope. */
  type Constraint = (bool, set<nat>)

  function FolderIds(fold: Folding, folders: seq<Folder>, scope: set<nat>, name: string): set<nat> {
    set f | f in folders && f.account in scope && FolderMatches(fold, f, name) :: f.id
  }

  function Constraints(fold: Folding, folders: seq<Folder>, scope: set<nat>, hints: seq<Hint>): seq<Constraint> {
    seq(|hints|, i requires 0 <= i < |hints| => (hints[i].0, FolderIds(fold, folders, scope, hints[i].1)))
  }

  predicate LiesIn(locations: set<(nat, nat)>, id: nat, folders: set<nat>) {
    exists f :: f in folders && (id, f) in locations
  }

  /** The post-filter: a required group needs a location in it, a negated one must have none. */
  predicate Passes(locations: set<(nat, nat)>, constraints: seq<Constraint>, id: nat) {
    forall i :: 0 <= i < |constraints| ==> LiesIn(locations, id, constraints[i].1) != constraints[i].0
  }

  // Meaning is preserved, stage by stage.

  lemma TextQueryMeans(stem: Stemmer, field: Field, value: string, doc: Doc)
    ensures Matches(TextQuery(stem, field, value), doc) <==> Mentions(FieldOf(doc, field), stem(value))
  {
    var text, run := FieldOf(doc, field), stem(value);
    if |run| == 1 {
      if run[0] in text {
        var i: nat :| i < |text| && text[i] == run[0];
        assert text[i..i + 1] == run;
        assert OccursAt(text, run, i);
      }
      forall i: nat | OccursAt(text, run, i) ensures run[0] in text {
        assert text[i..i + |run|][0] == text[i];
      }
    }
  }

  lemma BareQueryMeans(stem: Stemmer, value: string, doc: Doc)
    ensures Matches(BareQuery(stem, value), doc) <==> Mentions(doc.subject, stem(value)) || Mentions(doc.body, stem(value))
  {
    TextQueryMeans(stem, SubjectField, value, doc);
    TextQueryMeans(stem, BodyField, value, doc);
    var subs := [(Should, TextQuery(stem, SubjectField, value)), (Should, TextQuery(stem, BodyField, value))];
    assert subs[0].0 == Should && subs[1].0 == Should;
    hide TextQuery, Mentions;
  }

  /** The calendar's last day, where the code has no next day to bound the range with. */
  predicate LastDayEdge(lastDay: Date, bound: DateBound, date: Date, sent: Option<int>) {
    date == lastDay && bound != Before && sent.Some? && sent.value / DAY == date
  }

  /** Ranges mean days exactly, except for `date:` and `after:` the last day on messages of that day. */
  lemma DateQueryMeans(lastDay: Date, bound: DateBound, date: Date, doc: Doc)
    ensures (Matches(DateRangeQuery(lastDay, bound, date), doc) <==> DateHolds(bound, date, doc.sent))
            <==> !LastDayEdge(lastDay, bound, date, doc.sent)
  {}

  /** Every dated message is before, on or after a day, and only one of these, unless that day is the last. */
  lemma BoundsPartitionTime(lastDay: Date, date: Date, doc: Doc)
    requires doc.sent.Some?
    ensures var before, on, after := Matches(DateRangeQuery(lastDay, Before, date), doc),
                                     Matches(DateRangeQuery(lastDay, On, date), doc),
                                     Matches(DateRangeQuery(lastDay, After, date), doc);
            && (before || on || after)
            && !(before && on) && !(before && after) && !(on && after)
            && (date != lastDay ==> (on <==> doc.sent.value / DAY == date))
  {}

  predicate OnEdge(lastDay: Date, term: Term, doc: Doc) {
    term.Dated? && LastDayEdge(lastDay, term.bound, term.date, doc.sent)
  }

  lemma TermQueryMeans(stem: Stemmer, fold: Folding, lib: Library, lastDay: Date, term: Term, doc: Doc)
    requires !term.Account? && !term.Folder? && !OnEdge(lastDay, term, doc)
    ensures Matches(TermQueryOf(stem, lastDay, term), doc) <==> TermHolds(stem, fold, lib, term, doc)
  {
    match term {
      case Bare(value) => BareQueryMeans(stem, value, doc);
      case Text(field, value) => TextQueryMeans(stem, Searched(field), value, doc);
      case Dated(bound, date) => DateQueryMeans(lastDay, bound, date, doc);
      case Attachments(_) =>
    }
  }

  lemma ScopeQueryMeans(scope: seq<nat>, doc: Doc)
    ensures Matches(ScopeQuery(scope), doc) <==> doc.account in scope
  {
    var subs := seq(|scope|, i requires 0 <= i < |scope| => (Should, AccountQuery(scope[i])));
    assert ScopeQuery(scope).subs == subs;
    assert forall i :: 0 <= i < |scope| ==> (Matches(subs[i].1, doc) <==> doc.account == scope[i]);
    if doc.account in scope {
      var i :| 0 <= i < |scope| && scope[i] == doc.account;
      assert subs[i].0 == Should && Matches(subs[i].1, doc);
    }
  }

  /** The sub-query of a residual clause matches, or does not where the clause is negated. */
  ghost predicate Met(stem: Stemmer, lastDay: Date, clause: Clause, doc: Doc) {
    clause.negated != Matches(TermQueryOf(stem, lastDay, clause.term), doc)
  }

  /** The compiled query asks for the scope and every residual clause, negations included. */
  lemma BuildQueryMeans(stem: Stemmer, lastDay: Date, scope: seq<nat>, residual: seq<Clause>, doc: Doc)
    ensures Matches(BuildQuery(stem, lastDay, scope, residual), doc)
            <==> doc.account in scope
                 && forall i :: 0 <= i < |residual| ==> Met(stem, lastDay, residual[i], doc)
  {
    ScopeQueryMeans(scope, doc);
    hide ScopeQuery, TermQueryOf;
    var q := BuildQuery(stem, lastDay, scope, residual);
    var subs := q.subs;
    assert subs[0] == (Must, ScopeQuery(scope));
    assert forall i :: 0 <= i < |residual| ==> subs[i + 1] == ClauseQuery(stem, lastDay, residual[i]);
    if Matches(q, doc) {
      forall i | 0 <= i < |residual| ensures Met(stem, lastDay, residual[i], doc) {
        assert subs[i + 1] == ClauseQuery(stem, lastDay, residual[i]);
      }
    } else if doc.account in scope && forall i :: 0 <= i < |residual| ==> Met(stem, lastDay, residual[i], doc) {
      forall i | 0 <= i < |subs|
        ensures (subs[i].0 == Must ==> Matches(subs[i].1, doc)) && (subs[i].0 == MustNot ==> !Matches(subs[i].1, doc))
      {
        if i > 0 { assert subs[i] == ClauseQuery(stem, lastDay, residual[i - 1]); }
      }
      assert false;
    }
  }

  ghost predicate FolderHintsHold(fold: Folding, lib: Library, hints: seq<Hint>, doc: Doc) {
    forall i :: 0 <= i < |hints| ==> InFolderNamed(fold, lib, doc, hints[i].1) != hints[i].0
  }

  ghost predicate AllHold(stem: Stemmer, fold: Folding, lib: Library, clauses: seq<Clause>, doc: Doc) {
    forall i :: 0 <= i < |clauses| ==> ClauseHolds(stem, fold, lib, clauses[i], doc)
  }

  lemma AllHoldGrows(stem: Stemmer, fold: Folding, lib: Library, clauses: seq<Clause>, last: Clause, doc: Doc)
    ensures AllHold(stem, fold, lib, clauses + [last], doc)
            <==> AllHold(stem, fold, lib, clauses, doc) && ClauseHolds(stem, fold, lib, last, doc)
  {
    var all := clauses + [last];
    assert all[|clauses|] == last;
    assert forall i :: 0 <= i < |clauses| ==> all[i] == clauses[i];
  }

  lemma AccountHintsGrow(fold: Folding, accounts: seq<Account>, hints: seq<Hint>, h: Hint, id: nat)
    ensures HintsAllow(fold, accounts, hints + [h], id)
            <==> HintsAllow(fold, accounts, hints, id) && (Named(fold, accounts, h.1) == Some(id)) != h.0
  {
    HintsGrow(fold, accounts, hints + [h], |hints|);
    assert (hints + [h])[..|hints|] == hints && (hints + [h])[..|hints| + 1] == hints + [h];
  }

  lemma FolderHintsGrow(fold: Folding, lib: Library, hints: seq<Hint>, h: Hint, doc: Doc)
    ensures FolderHintsHold(fold, lib, hints + [h], doc)
            <==> FolderHintsHold(fold, lib, hints, doc) && InFolderNamed(fold, lib, doc, h.1) != h.0
  {
    hide InFolderNamed;
    var all := hints + [h];
    assert all[|hints|] == h;
    assert forall i :: 0 <= i < |hints| ==> all[i] == hints[i];
  }

  /** Splitting a query into account hints, folder hints and the rest keeps its meaning. */
  lemma {:induction false} SplitKeepsMeaning(stem: Stemmer, fold: Folding, lib: Library, clauses: seq<Clause>, doc: Doc)
    ensures AllHold(stem, fold, lib, clauses, doc)
            <==> HintsAllow(fold, lib.accounts, AccountHints(clauses), doc.account)
                 && FolderHintsHold(fold, lib, FolderHints(clauses), doc)
                 && AllHold(stem, fold, lib, Residual(clauses), doc)
  {
    if clauses != [] {
      var front, last := clauses[..|clauses| - 1], clauses[|clauses| - 1];
      assert clauses == front + [last];
      SplitKeepsMeaning(stem, fold, lib, front, doc);
      AllHoldGrows(stem, fold, lib, front, last, doc);
      hide InFolderNamed, AllHold, HintsAllow, FolderHintsHold;
      var accounts, folders, residual := AccountHints(front), FolderHints(front), Residual(front);
      match last.term {
        case Account(name) =>
          assert FolderHints(clauses) == folders && Residual(clauses) == residual;
          AccountHintsGrow(fold, lib.accounts, accounts, (last.negated, name), doc.account);
        case Folder(name) =>
          assert AccountHints(clauses) == accounts && Residual(clauses) == residual;
          FolderHintsGrow(fold, lib, folders, (last.negated, name), doc);
        case _ =>
          assert AccountHints(clauses) == accounts && FolderHints(clauses) == folders;
          AllHoldGrows(stem, fold, lib, residual, last, doc);
      }
    }
  }

  /** A message's folders belong to its own account. */
  predicate OwnFolders(lib: Library, doc: Doc) {
    forall f :: f in lib.folders && (doc.id, f.id) in lib.locations ==> f.account == doc.account
  }

  /** `scope` is what ResolveScope returns. */
  ghost predicate IsScope(fold: Folding, lib: Library, clauses: seq<Clause>, scope: set<nat>) {
    forall id :: id in scope <==> Owned(lib.accounts, id) && HintsAllow(fold, lib.accounts, AccountHints(clauses), id)
  }

  /** Looking for folders only inside the scope loses nothing for messages in the scope. */
  lemma ScopedFoldersSuffice(fold: Folding, lib: Library, scope: set<nat>, name: string, doc: Doc)
    requires OwnFolders(lib, doc) && doc.account in scope && forall id :: id in scope ==> Owned(lib.accounts, id)
    ensures LiesIn(lib.locations, doc.id, FolderIds(fold, lib.folders, scope, name)) <==> InFolderNamed(fold, lib, doc, name)
  {
    forall f | f in lib.folders ensures FolderMatches(fold, f, name) <==> GoesBy(fold, f, name) { FolderMatchesMeans(fold, f, name); }
    hide Owned, FolderMatches, GoesBy;
    var ids := FolderIds(fold, lib.folders, scope, name);
    if LiesIn(lib.locations, doc.id, ids) {
      var id :| id in ids && (doc.id, id) in lib.locations;
      var f :| f in lib.folders && f.account in scope && FolderMatches(fold, f, name) && f.id == id;
    }
    if InFolderNamed(fold, lib, doc, name) {
      var f :| f in lib.folders && Owned(lib.accounts, f.account) && GoesBy(fold, f, name) && (doc.id, f.id) in lib.locations;
      assert f.id in ids;
    }
  }

  lemma ConstraintsMeanHints(fold: Folding, lib: Library, scope: set<nat>, hints: seq<Hint>, doc: Doc)
    requires OwnFolders(lib, doc) && doc.account in scope && forall id :: id in scope ==> Owned(lib.accounts, id)
    ensures Passes(lib.locations, Constraints(fold, lib.folders, scope, hints), doc.id) <==> FolderHintsHold(fold, lib, hints, doc)
  {
    var cs := Constraints(fold, lib.folders, scope, hints);
    forall i | 0 <= i < |hints|
      ensures cs[i].0 == hints[i].0 && (LiesIn(lib.locations, doc.id, cs[i].1) <==> InFolderNamed(fold, lib, doc, hints[i].1))
    {
      ScopedFoldersSuffice(fold, lib, scope, hints[i].1, doc);
    }
    hide LiesIn, InFolderNamed, Owned, FolderIds;
  }

  lemma {:induction false} ResidualHasNoHints(clauses: seq<Clause>)
    ensures forall c :: c in Residual(clauses) ==> c in clauses && !c.term.Account? && !c.term.Folder?
  {
    if clauses != [] { ResidualHasNoHints(clauses[..|clauses| - 1]); }
  }

  lemma ResidualMeans(stem: Stemmer, fold: Folding, lib: Library, lastDay: Date, residual: seq<Clause>, doc: Doc)
    requires forall c :: c in residual ==> !c.term.Account? && !c.term.Folder? && !OnEdge(lastDay, c.term, doc)
    ensures AllHold(stem, fold, lib, residual, doc)
            <==> forall i :: 0 <= i < |residual| ==> Met(stem, lastDay, residual[i], doc)
  {
    hide TermHolds, Matches, TermQueryOf, OnEdge;
    forall i | 0 <= i < |residual|
      ensures ClauseHolds(stem, fold, lib, residual[i], doc) <==> Met(stem, lastDay, residual[i], doc)
    {
      TermQueryMeans(stem, fold, lib, lastDay, residual[i].term, doc);
    }
  }

  /**
   A message survives the scoped index query and the folder post-filter exactly when the
   user owns it and every clause of the parsed query holds for it, read naively.
   */
  lemma SearchMeansItsClauses(stem: Stemmer, fold: Folding, lib: Library, lastDay: Date, clauses: seq<Clause>,
                              scope: set<nat>, listed: seq<nat>, doc: Doc)
    requires IsScope(fold, lib, clauses, scope) && forall id :: id in listed <==> id in scope
    requires OwnFolders(lib, doc)
    requires forall c :: c in clauses ==> !OnEdge(lastDay, c.term, doc)
    ensures Matches(BuildQuery(stem, lastDay, listed, Residual(clauses)), doc)
            && Passes(lib.locations, Constraints(fold, lib.folders, scope, FolderHints(clauses)), doc.id)
            <==> Wanted(stem, fold, lib, clauses, doc)
  {
    hide HintsAllow, FolderHintsHold, Passes, Matches, OnEdge, ClauseHolds, Owned;
    var residual := Residual(clauses);
    assert Wanted(stem, fold, lib, clauses, doc) <==> Owned(lib.accounts, doc.account) && AllHold(stem, fold, lib, clauses, doc);
    SplitKeepsMeaning(stem, fold, lib, clauses, doc);
    ResidualHasNoHints(clauses);
    ResidualMeans(stem, fold, lib, lastDay, residual, doc);
    BuildQueryMeans(stem, lastDay, listed, residual, doc);
    hide AllHold, Wanted;
    if doc.account in scope { ConstraintsMeanHints(fold, lib, scope, FolderHints(clauses), doc); }
  }
}
