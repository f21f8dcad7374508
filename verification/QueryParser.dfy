/**
 The hinted search grammar: a character loop splits the input into tokens, each token
 becomes at most one clause, and nothing is ever an error. Date syntax is left to a
 parser given as a function.
 */
module QueryParser {
  import opened Wrappers
  import opened Strings

  datatype TextField = Subject | From | To

  datatype DateBound = Before | After | On

  type Date = int

  datatype Term =
    | Bare(value: string)
    | Text(field: TextField, value: string)
    | Dated(bound: DateBound, date: Date)
    | Attachments(present: bool)
    | Account(name: string)
    | Folder(name: string)

  datatype Clause = Clause(negated: bool, term: Term)

  type DateParser = string -> Option<Date>

  /** char::is_whitespace */
  predicate Whitespace(c: char) {
    '\U{0009}' <= c <= '\U{000D}' || c == ' ' || c == '\U{0085}' || c == '\U{00A0}' || c == '\U{1680}'
    || '\U{2000}' <= c <= '\U{200A}' || c == '\U{2028}' || c == '\U{2029}' || c == '\U{202F}' || c == '\U{205F}' || c == '\U{3000}'
  }

  /** The code points with the White_Space property. */
  lemma WhitespaceIsUnicodes(c: char)
    ensures Whitespace(c) <==> c as int in [9, 10, 11, 12, 13, 32, 133, 160, 5760, 8192, 8193, 8194, 8195, 8196, 8197, 8198, 8199,
                                            8200, 8201, 8202, 8232, 8233, 8239, 8287, 12288]
  {}

  /** The tokens of what is left to read, given the token being built. */
  function Scan(s: string, current: string, inQuotes: bool, started: bool): seq<string>
    decreases |s|
  {
    if s == "" then (if started then [current] else [])
    else if inQuotes then
      if s[0] == '"' then Scan(s[1..], current, false, started) else Scan(s[1..], current + [s[0]], true, started)
    else if s[0] == '"' then Scan(s[1..], current, true, true)
    else if Whitespace(s[0]) then
      if started then [current] + Scan(s[1..], "", false, false) else Scan(s[1..], current, false, false)
    else Scan(s[1..], current + [s[0]], false, true)
  }

  function Tokens(s: string): seq<string> { Scan(s, "", false, false) }

  lemma TokensAssociate(a: seq<string>, t: string, b: seq<string>)
    ensures a + ([t] + b) == (a + [t]) + b
  {}

  method Tokenize(input: string) returns (tokens: seq<string>)
    ensures tokens == Tokens(input)
  {
    tokens := [];
    var current, inQuotes, started := "", false, false;
    var i := 0;
    while i < |input|
      invariant i <= |input|
      invariant tokens + Scan(input[i..], current, inQuotes, started) == Tokens(input)
    {
      var ch := input[i];
      assert input[i..][1..] == input[i + 1..];
      if inQuotes {
        if ch == '"' { inQuotes := false; } else { current := current + [ch]; }
      } else if ch == '"' {
        inQuotes, started := true, true;
      } else if Whitespace(ch) {
        if started {
          TokensAssociate(tokens, current, Scan(input[i + 1..], "", false, false));
          tokens, current, started := tokens + [current], "", false;
        }
      } else {
        current, started := current + [ch], true;
      }
      i := i + 1;
    }
    if started { tokens := tokens + [current]; }
  }

  function SplitOnce(s: string): (r: Option<(string, string)>)
    ensures r.None? <==> ':' !in s
    ensures r.Some? ==> s == r.value.0 + ":" + r.value.1 && ':' !in r.value.0
  {
    match Find(s, ':') case None => None case Some(i) => Some((s[..i], s[i + 1..]))
  }

  predicate SameIgnoringCase(a: string, b: string) { Lower(a) == Lower(b) }

  function ParseDated(parseDate: DateParser, bound: DateBound, value: string): Option<Term> {
    match parseDate(value) case None => None case Some(date) => Some(Dated(bound, date))
  }

  function ParseField(parseDate: DateParser, field: string, value: string): Option<Term> {
    if value == "" then None
    else if field == "subject" then Some(Text(Subject, value))
    else if field == "from" then Some(Text(From, value))
    else if field == "to" then Some(Text(To, value))
    else if field == "account" then Some(Account(value))
    else if field == "folder" then Some(Folder(value))
    else if field == "before" then ParseDated(parseDate, Before, value)
    else if field == "after" then ParseDated(parseDate, After, value)
    else if field == "date" then ParseDated(parseDate, On, value)
    else if field == "attachments" && SameIgnoringCase(value, "none") then Some(Attachments(false))
    else if field == "attachments" && SameIgnoringCase(value, "some") then Some(Attachments(true))
    else if field == "has" && SameIgnoringCase(value, "attachment") then Some(Attachments(true))
    else None
  }

  function ParseTerm(parseDate: DateParser, rest: string): Term {
    match SplitOnce(rest)
    case None => Bare(rest)
    case Some((field, value)) =>
      match ParseField(parseDate, field, value) case None => Bare(rest) case Some(term) => term
  }

  function ParseToken(parseDate: DateParser, token: string): Option<Clause> {
    var negated := token != "" && token[0] == '!';
    var rest := if negated then token[1..] else token;
    if rest == "" then None else Some(Clause(negated, ParseTerm(parseDate, rest)))
  }

  function ParseTokens(parseDate: DateParser, tokens: seq<string>): seq<Clause> {
    if tokens == [] then []
    else (match ParseToken(parseDate, tokens[0]) case None => [] case Some(clause) => [clause]) + ParseTokens(parseDate, tokens[1..])
  }

  function Parse(parseDate: DateParser, s: string): seq<Clause> { ParseTokens(parseDate, Tokens(s)) }

  lemma SplitAtFirst(field: string, value: string)
    requires ':' !in field
    ensures SplitOnce(field + ":" + value) == Some((field, value))
  {
    var s := field + ":" + value;
    var (f, v) := SplitOnce(s).value;
    assert s[|field|] == ':' && s[|f|] == ':';
    assert |f| == |field| by {
      assert forall i :: 0 <= i < |field| ==> s[i] == field[i];
      assert forall i :: 0 <= i < |f| ==> s[i] == f[i];
    }
    assert f == s[..|f|] && field == s[..|field|];
    assert v == s[|f| + 1..] && value == s[|field| + 1..];
  }

  lemma TermAt(parseDate: DateParser, field: string, value: string)
    requires ':' !in field
    ensures ParseTerm(parseDate, field + ":" + value)
            == match ParseField(parseDate, field, value) case None => Bare(field + ":" + value) case Some(term) => term
  {
    SplitAtFirst(field, value);
  }

  lemma FlagsFold()
    ensures Lower("some") == "some" && Lower("none") == "none" && Lower("attachment") == "attachment"
  {}

  /** What a field name and a value are read as, name by name; the values of the flags in any case. */
  lemma HintsReadAsNamed(parseDate: DateParser, v: string)
    requires v != ""
    ensures ParseTerm(parseDate, "subject" + ":" + v) == Text(Subject, v) && ParseTerm(parseDate, "from" + ":" + v) == Text(From, v)
    ensures ParseTerm(parseDate, "to" + ":" + v) == Text(To, v)
    ensures ParseTerm(parseDate, "account" + ":" + v) == Term.Account(v) && ParseTerm(parseDate, "folder" + ":" + v) == Term.Folder(v)
    ensures ParseTerm(parseDate, "attachments" + ":" + v)
            == if Lower(v) == "some" then Attachments(true) else if Lower(v) == "none" then Attachments(false)
               else Bare("attachments" + ":" + v)
    ensures ParseTerm(parseDate, "has" + ":" + v) == if Lower(v) == "attachment" then Attachments(true) else Bare("has" + ":" + v)
  {
    hide ParseTerm, Find, Lower;
    FlagsFold();
    TermAt(parseDate, "subject", v);
    TermAt(parseDate, "from", v);
    TermAt(parseDate, "to", v);
    TermAt(parseDate, "account", v);
    TermAt(parseDate, "folder", v);
    TermAt(parseDate, "attachments", v);
    TermAt(parseDate, "has", v);
  }

  /** A date that does not parse leaves the token a bare word. */
  lemma DatesReadAsNamed(parseDate: DateParser, v: string)
    requires v != ""
    ensures match parseDate(v)
            case Some(d) =>
              && ParseTerm(parseDate, "before" + ":" + v) == Dated(Before, d)
              && ParseTerm(parseDate, "after" + ":" + v) == Dated(After, d)
              && ParseTerm(parseDate, "date" + ":" + v) == Dated(On, d)
            case None =>
              && ParseTerm(parseDate, "before" + ":" + v) == Bare("before" + ":" + v)
              && ParseTerm(parseDate, "after" + ":" + v) == Bare("after" + ":" + v)
              && ParseTerm(parseDate, "date" + ":" + v) == Bare("date" + ":" + v)
  {
    hide ParseTerm;
    TermAt(parseDate, "before", v);
    TermAt(parseDate, "after", v);
    TermAt(parseDate, "date", v);
  }

  lemma UnknownField(parseDate: DateParser, field: string, v: string)
    requires v != "" && ParseField(parseDate, field, v).Some?
    ensures field in ["subject", "from", "to", "account", "folder", "before", "after", "date", "attachments", "has"]
  {
    hide SameIgnoringCase, ParseDated;
  }

  /** Everything else is a bare word: no field name, an unknown one, or one without a value. */
  lemma OthersReadAsBare(parseDate: DateParser, field: string, v: string)
    requires ':' !in field
    requires v == "" || field !in ["subject", "from", "to", "account", "folder", "before", "after", "date", "attachments", "has"]
    ensures ParseTerm(parseDate, field + ":" + v) == Bare(field + ":" + v) && ParseTerm(parseDate, field) == Bare(field)
  {
    TermAt(parseDate, field, v);
    if v == "" {
      assert ParseField(parseDate, field, v).None?;
    } else if ParseField(parseDate, field, v).Some? {
      hide ParseField, ParseTerm;
      UnknownField(parseDate, field, v);
    }
    hide ParseField;
  }

  lemma {:induction false} ScanHasNoQuotes(s: string, current: string, inQuotes: bool, started: bool)
    requires '"' !in current
    ensures forall t :: t in Scan(s, current, inQuotes, started) ==> '"' !in t
    decreases |s|
  {
    if s != "" {
      if inQuotes {
        ScanHasNoQuotes(s[1..], if s[0] == '"' then current else current + [s[0]], s[0] != '"', started);
      } else if s[0] == '"' {
        ScanHasNoQuotes(s[1..], current, true, true);
      } else if Whitespace(s[0]) {
        ScanHasNoQuotes(s[1..], if started then "" else current, false, false);
      } else {
        ScanHasNoQuotes(s[1..], current + [s[0]], false, true);
      }
    }
  }

  function Concat(tokens: seq<string>): string { if tokens == [] then "" else tokens[0] + Concat(tokens[1..]) }

  /** The input less its quotes and its whitespace outside quotes. */
  function Kept(s: string, inQuotes: bool): string {
    if s == "" then ""
    else if s[0] == '"' then Kept(s[1..], !inQuotes)
    else if !inQuotes && Whitespace(s[0]) then Kept(s[1..], false)
    else [s[0]] + Kept(s[1..], inQuotes)
  }

  lemma {:induction false} ScanKeeps(s: string, current: string, inQuotes: bool, started: bool)
    requires !started ==> current == "" && !inQuotes
    ensures Concat(Scan(s, current, inQuotes, started)) == current + Kept(s, inQuotes)
    decreases |s|
  {
    if s == "" {
      assert Concat([current]) == current + Concat([]);
    } else if inQuotes {
      if s[0] == '"' {
        ScanKeeps(s[1..], current, false, started);
      } else {
        ScanKeeps(s[1..], current + [s[0]], true, started);
        Associates(current, [s[0]], Kept(s[1..], true));
      }
    } else if s[0] == '"' {
      ScanKeeps(s[1..], current, true, true);
    } else if Whitespace(s[0]) {
      ScanKeeps(s[1..], "", false, false);
      var rest := Scan(s[1..], "", false, false);
      assert ([current] + rest)[1..] == rest;
    } else {
      ScanKeeps(s[1..], current + [s[0]], false, true);
      Associates(current, [s[0]], Kept(s[1..], false));
    }
  }

  /** Nothing but quotes and unquoted whitespace is lost, and no token holds a quote. */
  lemma TokensKeepTheText(s: string)
    ensures Concat(Tokens(s)) == Kept(s, false)
    ensures forall t :: t in Tokens(s) ==> '"' !in t
  {
    ScanKeeps(s, "", false, false);
    ScanHasNoQuotes(s, "", false, false);
  }

  function FieldName(field: TextField): string {
    match field case Subject => "subject" case From => "from" case To => "to"
  }

  function BoundName(bound: DateBound): string {
    match bound case Before => "before" case After => "after" case On => "date"
  }

  function HintName(term: Term): string
    requires !term.Bare?
    ensures ':' !in HintName(term)
  {
    match term
    case Text(field, _) => FieldName(field)
    case Dated(bound, _) => BoundName(bound)
    case Attachments(present) => if present then "has" else "attachments"
    case Account(_) => "account"
    case Folder(_) => "folder"
  }

  function Prefix(term: Term): string { if term.Bare? then "" else HintName(term) + ":" }

  function Value(format: Date -> string, term: Term): string {
    match term
    case Bare(value) => value
    case Text(_, value) => value
    case Dated(_, date) => format(date)
    case Attachments(present) => if present then "attachment" else "none"
    case Account(name) => name
    case Folder(name) => name
  }

  function Bang(clause: Clause): string { if clause.negated then "!" else "" }

  /** A printer that quotes every value. */
  function PrintClause(format: Date -> string, clause: Clause): string {
    Bang(clause) + Prefix(clause.term) + "\"" + Value(format, clause.term) + "\" "
  }

  function Print(format: Date -> string, clauses: seq<Clause>): string {
    if clauses == [] then "" else PrintClause(format, clauses[0]) + Print(format, clauses[1..])
  }

  /** Any date the parser accepts can be formatted so that it reads back, without quotes. */
  ghost predicate LawfulDates(parseDate: DateParser, format: Date -> string) {
    forall v :: parseDate(v).Some? ==>
      var text := format(parseDate(v).value);
      parseDate(text) == parseDate(v) && '"' !in text && text != ""
  }

  /** The token that a printed clause reads back as. */
  function TokenOf(format: Date -> string, clause: Clause): string {
    Bang(clause) + Prefix(clause.term) + Value(format, clause.term)
  }

  predicate QuotableText(v: string) { v != "" && '"' !in v }

  /** A clause the printer can write down so that it reads back. */
  predicate Printable(parseDate: DateParser, format: Date -> string, clause: Clause) {
    match clause.term
    case Bare(v) => QuotableText(v) && ParseTerm(parseDate, v).Bare? && (clause.negated || v[0] != '!')
    case Text(_, v) => QuotableText(v)
    case Account(v) => QuotableText(v)
    case Folder(v) => QuotableText(v)
    case Dated(_, date) => QuotableText(format(date)) && parseDate(format(date)) == Some(date)
    case Attachments(_) => true
  }

  lemma PrintableValue(parseDate: DateParser, format: Date -> string, clause: Clause)
    requires Printable(parseDate, format, clause)
    ensures QuotableText(Value(format, clause.term))
  {}

  /** A printable hint is read by its own name. */
  lemma HintReadsBack(parseDate: DateParser, format: Date -> string, clause: Clause)
    requires Printable(parseDate, format, clause) && !clause.term.Bare?
    ensures ParseField(parseDate, HintName(clause.term), Value(format, clause.term)) == Some(clause.term)
  {}

  /** What a field and its value are read as can be printed. */
  lemma ReadHintIsPrintable(parseDate: DateParser, format: Date -> string, negated: bool, field: string, value: string)
    requires LawfulDates(parseDate, format) && '"' !in value && ParseField(parseDate, field, value).Some?
    ensures var term := ParseField(parseDate, field, value).value;
            !term.Bare? && Printable(parseDate, format, Clause(negated, term))
  {}

  lemma BareIsWhole(parseDate: DateParser, rest: string)
    requires ParseTerm(parseDate, rest).Bare?
    ensures ParseTerm(parseDate, rest) == Bare(rest)
  {}

  /** A printed term parses to itself. */
  lemma TermReadsBack(parseDate: DateParser, format: Date -> string, clause: Clause)
    requires Printable(parseDate, format, clause)
    ensures ParseTerm(parseDate, Prefix(clause.term) + Value(format, clause.term)) == clause.term
  {
    var term := clause.term;
    if term.Bare? {
      assert Prefix(term) + Value(format, term) == term.value;
      BareIsWhole(parseDate, term.value);
    } else {
      HintReadsBack(parseDate, format, clause);
      hide ParseField, HintName, Value, Printable;
      SplitAtFirst(HintName(term), Value(format, term));
    }
  }

  /** A token with a quoted part reads as one token, up to the space behind it. */
  lemma {:induction false} ScanQuoted(v: string, rest: string, current: string)
    requires '"' !in v
    ensures Scan(v + "\" " + rest, current, true, true) == [current + v] + Scan(rest, "", false, false)
    decreases |v|
  {
    var s := v + "\" " + rest;
    if v == "" {
      assert s[1..] == " " + rest;
      assert (" " + rest)[1..] == rest;
      assert current + v == current;
    } else {
      ScanQuoted(v[1..], rest, current + [v[0]]);
      assert s[1..] == v[1..] + "\" " + rest;
      assert current + [v[0]] + v[1..] == current + v;
    }
  }

  predicate PlainChars(p: string) { forall i :: 0 <= i < |p| ==> p[i] != '"' && !Whitespace(p[i]) }

  lemma {:induction false} ScanPlain(p: string, s: string, current: string, started: bool)
    requires PlainChars(p)
    ensures Scan(p + s, current, false, started) == Scan(s, current + p, false, started || p != "")
    decreases |p|
  {
    if p == "" {
      assert p + s == s && current + p == current;
    } else {
      ScanPlain(p[1..], s, current + [p[0]], true);
      assert (p + s)[1..] == p[1..] + s;
      assert current + [p[0]] + p[1..] == current + p;
    }
  }

  /** An even number of quotes, with one more when the scan is inside a quoted part. */
  predicate Closed(a: string, inQuotes: bool) { (multiset(a)['"'] + if inQuotes then 1 else 0) % 2 == 0 }

  lemma {:induction false} ScanSplits(a: string, c: char, b: string, current: string, inQuotes: bool, started: bool)
    requires Whitespace(c) && Closed(a, inQuotes) && (!started ==> current == "" && !inQuotes)
    ensures Scan(a + [c] + b, current, inQuotes, started) == Scan(a, current, inQuotes, started) + Tokens(b)
    decreases |a|
  {
    var s := a + [c] + b;
    if a == "" {
      assert s[1..] == b && s[0] == c;
    } else {
      assert s[1..] == a[1..] + [c] + b && s[0] == a[0];
      assert a == [a[0]] + a[1..];
      hide Whitespace;
      if inQuotes {
        ScanSplits(a[1..], c, b, if a[0] == '"' then current else current + [a[0]], a[0] != '"', started);
      } else if a[0] == '"' {
        ScanSplits(a[1..], c, b, current, true, true);
      } else if Whitespace(a[0]) {
        ScanSplits(a[1..], c, b, "", false, false);
      } else {
        ScanSplits(a[1..], c, b, current + [a[0]], false, true);
      }
    }
  }

  /** Whitespace that is not inside quotes separates: what stands on either side is tokenized on its own. */
  lemma WhitespaceSeparates(a: string, c: char, b: string)
    requires Whitespace(c) && multiset(a)['"'] % 2 == 0
    ensures Tokens(a + [c] + b) == Tokens(a) + Tokens(b)
  {
    ScanSplits(a, c, b, "", false, false);
  }

  /** Nothing else does: a run without quotes and whitespace is one token. */
  lemma WordIsOneToken(w: string)
    requires w != "" && forall i :: 0 <= i < |w| ==> w[i] != '"' && !Whitespace(w[i])
    ensures Tokens(w) == [w]
  {
    hide Whitespace;
    ScanPlain(w, "", "", false);
    assert w + "" == w && "" + w == w;
  }

  lemma {:induction false} ScanToQuote(v: string, rest: string, current: string)
    requires '"' !in v
    ensures Scan(v + ("\"" + rest), current, true, true) == Scan(rest, current + v, false, true)
    decreases |v|
  {
    var s := v + ("\"" + rest);
    if v == "" {
      assert s[1..] == rest && current + v == current;
    } else {
      ScanToQuote(v[1..], rest, current + [v[0]]);
      assert s[1..] == v[1..] + ("\"" + rest);
      assert current + [v[0]] + v[1..] == current + v;
    }
  }

  /** A quoted part, whatever whitespace is in it, joins what it touches into one token, even when it is empty. */
  lemma QuotesJoin(a: string, v: string, b: string)
    requires PlainChars(a) && '"' !in v && PlainChars(b)
    ensures Tokens(a + ("\"" + (v + ("\"" + b)))) == [a + v + b]
  {
    var tail := v + ("\"" + b);
    ScanPlain(a, "\"" + tail, "", false);
    assert ("\"" + tail)[1..] == tail && "" + a == a;
    assert Scan("\"" + tail, a, false, a != "") == Scan(tail, a, true, true);
    ScanToQuote(v, b, a);
    ScanPlain(b, "", a + v, true);
    assert b + "" == b;
  }

  lemma PrefixIsPlain(clause: Clause)
    ensures PlainChars(Bang(clause) + Prefix(clause.term))
  {
    assert PlainChars(Bang(clause)) && PlainChars(Prefix(clause.term));
    hide Prefix, Bang, Whitespace;
  }

  /** A printed clause reads as exactly one token. */
  lemma PrintedClauseIsOneToken(format: Date -> string, clause: Clause, rest: string)
    requires '"' !in Value(format, clause.term)
    ensures Tokens(PrintClause(format, clause) + rest) == [TokenOf(format, clause)] + Tokens(rest)
  {
    var p, v := Bang(clause) + Prefix(clause.term), Value(format, clause.term);
    PrefixIsPlain(clause);
    hide Prefix, Value, Bang, PlainChars, Whitespace;
    var tail := v + "\" " + rest;
    assert PrintClause(format, clause) + rest == p + ("\"" + tail);
    ScanPlain(p, "\"" + tail, "", false);
    assert ("\"" + tail)[1..] == tail;
    assert "" + p == p;
    assert Scan("\"" + tail, p, false, p != "") == Scan(tail, p, true, true);
    ScanQuoted(v, rest, p);
  }

  lemma TokenHasBody(format: Date -> string, clause: Clause)
    ensures TokenOf(format, clause) == (if clause.negated then "!" else "") + (Prefix(clause.term) + Value(format, clause.term))
  {}

  lemma HintHasNoBang(term: Term, value: string)
    ensures !term.Bare? ==> (Prefix(term) + value)[0] != '!'
    ensures term.Bare? ==> Prefix(term) + value == value
  {}

  lemma ParseBanged(parseDate: DateParser, negated: bool, body: string)
    requires body != "" && (!negated ==> body[0] != '!')
    ensures ParseToken(parseDate, (if negated then "!" else "") + body) == Some(Clause(negated, ParseTerm(parseDate, body)))
  {
    hide ParseTerm;
    var token := (if negated then "!" else "") + body;
    if negated { assert token[1..] == body; } else { assert token == body; }
  }

  /** A printable clause prints as a token that is read as that clause. */
  lemma TokenReadsBack(parseDate: DateParser, format: Date -> string, clause: Clause)
    requires Printable(parseDate, format, clause)
    ensures ParseToken(parseDate, TokenOf(format, clause)) == Some(clause)
  {
    PrintableValue(parseDate, format, clause);
    TermReadsBack(parseDate, format, clause);
    HintHasNoBang(clause.term, Value(format, clause.term));
    assert clause.term.Bare? && !clause.negated ==> Value(format, clause.term)[0] != '!';
    hide ParseToken, ParseTerm, Prefix, Value, TokenOf, Printable;
    ParseBanged(parseDate, clause.negated, Prefix(clause.term) + Value(format, clause.term));
    TokenHasBody(format, clause);
  }

  lemma NoQuotesBehind(whole: string, field: string, value: string)
    requires whole == field + ":" + value && '"' !in whole
    ensures '"' !in value
  {}

  lemma ReadTermIsPrintable(parseDate: DateParser, format: Date -> string, negated: bool, rest: string)
    requires LawfulDates(parseDate, format) && QuotableText(rest) && (negated || rest[0] != '!')
    ensures Printable(parseDate, format, Clause(negated, ParseTerm(parseDate, rest)))
  {
    var split := SplitOnce(rest);
    if split.Some? && ParseField(parseDate, split.value.0, split.value.1).Some? {
      NoQuotesBehind(rest, split.value.0, split.value.1);
      hide LawfulDates, ParseField, SplitOnce, Printable;
      ReadHintIsPrintable(parseDate, format, negated, split.value.0, split.value.1);
    } else {
      hide LawfulDates, ParseField;
      BareIsWhole(parseDate, rest);
    }
  }

  /** The clause read from a token without quotes can be printed. */
  lemma ReadClauseIsPrintable(parseDate: DateParser, format: Date -> string, token: string)
    requires LawfulDates(parseDate, format) && '"' !in token && ParseToken(parseDate, token).Some?
    ensures Printable(parseDate, format, ParseToken(parseDate, token).value)
  {
    RestHasNoQuotes(parseDate, token);
    var clause := ParseToken(parseDate, token).value;
    hide ParseToken, ParseTerm, LawfulDates, Printable;
    var rest :| rest != "" && '"' !in rest && clause.term == ParseTerm(parseDate, rest) && (!clause.negated ==> rest[0] != '!');
    ReadTermIsPrintable(parseDate, format, clause.negated, rest);
  }

  lemma RestHasNoQuotes(parseDate: DateParser, token: string)
    requires '"' !in token && ParseToken(parseDate, token).Some?
    ensures var clause := ParseToken(parseDate, token).value;
            exists rest :: rest != "" && '"' !in rest && clause.term == ParseTerm(parseDate, rest)
                           && (!clause.negated ==> rest[0] != '!')
  {}

  ghost predicate AllPrintable(parseDate: DateParser, format: Date -> string, clauses: seq<Clause>) {
    forall i :: 0 <= i < |clauses| ==> Printable(parseDate, format, clauses[i])
  }

  lemma {:induction false} PrintedReadsBack(parseDate: DateParser, format: Date -> string, clauses: seq<Clause>)
    requires AllPrintable(parseDate, format, clauses)
    ensures Parse(parseDate, Print(format, clauses)) == clauses
  {
    hide PrintClause, TokenOf, ParseToken, Printable, Value;
    if clauses != [] {
      var rest := Print(format, clauses[1..]);
      PrintedReadsBack(parseDate, format, clauses[1..]);
      PrintableValue(parseDate, format, clauses[0]);
      TokenReadsBack(parseDate, format, clauses[0]);
      PrintedClauseIsOneToken(format, clauses[0], rest);
      var read := [TokenOf(format, clauses[0])] + Tokens(rest);
      assert read[1..] == Tokens(rest);
    }
  }

  lemma {:induction false} ReadIsPrintable(parseDate: DateParser, format: Date -> string, tokens: seq<string>)
    requires LawfulDates(parseDate, format) && forall t :: t in tokens ==> '"' !in t
    ensures AllPrintable(parseDate, format, ParseTokens(parseDate, tokens))
  {
    hide LawfulDates, ParseToken, Printable;
    if tokens != [] {
      ReadIsPrintable(parseDate, format, tokens[1..]);
      if ParseToken(parseDate, tokens[0]).Some? { ReadClauseIsPrintable(parseDate, format, tokens[0]); }
    }
  }

  /** A query survives being printed, every value quoted, exactly when each of its clauses is printable. */
  lemma PrintingIsFaithful(parseDate: DateParser, format: Date -> string, clauses: seq<Clause>)
    requires LawfulDates(parseDate, format)
    ensures Parse(parseDate, Print(format, clauses)) == clauses <==> AllPrintable(parseDate, format, clauses)
  {
    if AllPrintable(parseDate, format, clauses) {
      PrintedReadsBack(parseDate, format, clauses);
    } else {
      TokensKeepTheText(Print(format, clauses));
      ReadIsPrintable(parseDate, format, Tokens(Print(format, clauses)));
    }
  }

  /** Parsing normalises: printing what was parsed, every value quoted, parses to the same query. */
  lemma ParsePrintsBack(parseDate: DateParser, format: Date -> string, s: string)
    requires LawfulDates(parseDate, format)
    ensures Parse(parseDate, Print(format, Parse(parseDate, s))) == Parse(parseDate, s)
  {
    TokensKeepTheText(s);
    ReadIsPrintable(parseDate, format, Tokens(s));
    PrintedReadsBack(parseDate, format, Parse(parseDate, s));
  }

  // A strict YYYY-MM-DD reading, as one date syntax that satisfies the law.

  predicate Digit(c: char) { '0' <= c <= '9' }

  function DigitValue(c: char): nat
    requires Digit(c)
  {
    c as int - '0' as int
  }

  function DigitOf(n: nat): (c: char)
    ensures Digit(c) && DigitValue(c) == n % 10
  {
    ('0' as int + n % 10) as char
  }

  predicate LeapYear(y: nat) { y % 4 == 0 && (y % 100 != 0 || y % 400 == 0) }

  function DaysIn(y: nat, m: nat): nat {
    if m == 2 then (if LeapYear(y) then 29 else 28) else if m in {4, 6, 9, 11} then 30 else 31
  }

  function TwoDigits(s: string): nat
    requires |s| == 2 && Digit(s[0]) && Digit(s[1])
  {
    10 * DigitValue(s[0]) + DigitValue(s[1])
  }

  predicate DateShape(v: string) {
    |v| == 10 && v[4] == '-' && v[7] == '-' && forall i :: 0 <= i < 10 && i != 4 && i != 7 ==> Digit(v[i])
  }

  function StrictDate(v: string): Option<Date> {
    if !DateShape(v) then None else
    var y, m, d := 100 * TwoDigits(v[0..2]) + TwoDigits(v[2..4]), TwoDigits(v[5..7]), TwoDigits(v[8..10]);
    if 1 <= m <= 12 && 1 <= d <= DaysIn(y, m) then Some(10000 * y + 100 * m + d) else None
  }

  function ShowTwo(n: nat): string { [DigitOf(n / 10), DigitOf(n)] }

  function ShowDate(date: Date): string {
    if date < 0 then "" else
    ShowTwo(date / 1000000) + ShowTwo(date / 10000) + "-" + ShowTwo(date / 100) + "-" + ShowTwo(date)
  }

  lemma ShowTwoReadsBack(s: string, n: nat, high: nat)
    requires |s| == 2 && Digit(s[0]) && Digit(s[1]) && n == 100 * high + TwoDigits(s)
    ensures ShowTwo(n) == s
  {}

  lemma StrictDatesAreLawful()
    ensures LawfulDates(StrictDate, ShowDate)
  {
    forall v | StrictDate(v).Some? ensures ShowDate(StrictDate(v).value) == v && '"' !in v && v != "" {
      var c, y, m, d := TwoDigits(v[0..2]), TwoDigits(v[2..4]), TwoDigits(v[5..7]), TwoDigits(v[8..10]);
      var date := StrictDate(v).value;
      assert date == 1000000 * c + 10000 * y + 100 * m + d;
      assert date / 100 == 10000 * c + 100 * y + m && date / 10000 == 100 * c + y && date / 1000000 == c;
      ShowTwoReadsBack(v[0..2], c, 0);
      ShowTwoReadsBack(v[2..4], date / 10000, c);
      ShowTwoReadsBack(v[5..7], date / 100, 100 * c + y);
      ShowTwoReadsBack(v[8..10], date, date / 100);
      assert v == v[0..2] + v[2..4] + "-" + v[5..7] + "-" + v[8..10];
    }
  }
}
