/**
 Executing a search: the windowed general path over the index's ranked answer, with the
 folder post-filter and paging behind it, and the database listing used when a query has
 folder hints and nothing to look up in the index.
 */
module SearchPaging {
  import opened Wrappers
  import opened QueryParser
  import opened QueryPlan

  const FOLDER_OVERFETCH: nat := 10
  const MAX_FETCH: nat := 10000
  const USIZE_MAX: nat := 0xffff_ffff_ffff_ffff

  type U32 = n: int | 0 <= n < 0x1_0000_0000

  function Saturate(n: nat): nat { if n <= USIZE_MAX then n else USIZE_MAX }

  function Clamp(n: nat): (r: nat)
    ensures 1 <= r <= MAX_FETCH
  {
    if n < 1 then 1 else if n > MAX_FETCH then MAX_FETCH else n
  }

  function Fetch(offset: U32, limit: U32, constrained: bool): nat {
    var want := Saturate(offset + limit);
    Clamp(if constrained then Saturate(want * FOLDER_OVERFETCH) else want)
  }

  function Take<T>(s: seq<T>, n: nat): (r: seq<T>) { if n <= |s| then s[..n] else s }

  function Page<T>(s: seq<T>, offset: nat, limit: nat): seq<T> {
    Take(if offset <= |s| then s[offset..] else [], limit)
  }

  /** A page starts at the offset and goes on for the limit or to the end. */
  lemma PageHolds<T>(s: seq<T>, offset: nat, limit: nat)
    ensures var page := Page(s, offset, limit);
            && |page| == (if |s| <= offset then 0 else if |s| - offset <= limit then |s| - offset else limit)
            && forall k :: 0 <= k < |page| ==> page[k] == s[offset + k]
  {}

  /** The window in closed form: the page's end, tenfold when folders filter, and between 1 and 10000. Saturation never shows. */
  lemma FetchIsTheWindow(offset: U32, limit: U32, constrained: bool)
    ensures var end := (if constrained then 10 else 1) * (offset + limit);
            Fetch(offset, limit, constrained) == if end < 1 then 1 else if end > 10000 then 10000 else end
  {}

  /** The ids that pass the folder constraints, in order. */
  function Survivors(locations: set<(nat, nat)>, constraints: seq<Constraint>, ids: seq<nat>): (r: seq<nat>)
    ensures |r| <= |ids|
    ensures forall id :: id in r <==> id in ids && Passes(locations, constraints, id)
  {
    if ids == [] then []
    else
      var last := ids[|ids| - 1];
      Survivors(locations, constraints, ids[..|ids| - 1]) + if Passes(locations, constraints, last) then [last] else []
  }

  lemma PassesGrows(locations: set<(nat, nat)>, constraints: seq<Constraint>, i: nat)
    requires i < |constraints|
    ensures forall id :: Passes(locations, constraints[..i + 1], id)
                         <==> Passes(locations, constraints[..i], id) && LiesIn(locations, id, constraints[i].1) != constraints[i].0
  {}

  /** filter_message_ids_in_folders */
  function InFolders(locations: set<(nat, nat)>, ids: seq<nat>, folders: set<nat>): set<nat> {
    set id | id in ids && LiesIn(locations, id, folders)
  }

  lemma NeverPasses(locations: set<(nat, nat)>, constraints: seq<Constraint>, i: nat)
    requires i < |constraints| && constraints[i] == (false, {})
    ensures forall id :: !Passes(locations, constraints, id)
  {}

  /** One pass over the constraints; a required group that resolved to no folder ends it with nothing kept. */
  method Keep(locations: set<(nat, nat)>, constraints: seq<Constraint>, ids: seq<nat>) returns (keep: set<nat>)
    ensures forall id :: id in keep <==> id in ids && Passes(locations, constraints, id)
  {
    keep := set id | id in ids;
    var i := 0;
    while i < |constraints|
      invariant i <= |constraints|
      invariant forall id :: id in keep <==> id in ids && Passes(locations, constraints[..i], id)
    {
      var (negated, folders) := constraints[i];
      PassesGrows(locations, constraints, i);
      if folders == {} {
        if !negated {
          NeverPasses(locations, constraints, i);
          return {};
        }
      } else {
        hide LiesIn, Passes;
        var matched := InFolders(locations, ids, folders);
        if negated { keep := keep - matched; } else { keep := keep * matched; }
      }
      i := i + 1;
    }
    assert constraints[..i] == constraints;
  }

  method Retain(ids: seq<nat>, keep: set<nat>, ghost locations: set<(nat, nat)>, ghost constraints: seq<Constraint>)
    returns (kept: seq<nat>)
    requires forall id :: id in ids ==> (id in keep <==> Passes(locations, constraints, id))
    ensures kept == Survivors(locations, constraints, ids)
  {
    kept := [];
    var i := 0;
    while i < |ids|
      invariant i <= |ids| && kept == Survivors(locations, constraints, ids[..i])
    {
      assert ids[..i + 1][..i] == ids[..i];
      if ids[i] in keep { kept := kept + [ids[i]]; }
      i := i + 1;
    }
    assert ids[..i] == ids;
  }

  lemma {:induction false} AllSurvive(locations: set<(nat, nat)>, ids: seq<nat>)
    ensures Survivors(locations, [], ids) == ids
  {
    if ids != [] { AllSurvive(locations, ids[..|ids| - 1]); }
  }

  /** What the page of a window holds: the window is everything, or 10000 ids, or enough for the page, tenfold when folders filter. */
  lemma WindowedPageHolds(ranked: seq<nat>, locations: set<(nat, nat)>, constraints: seq<Constraint>, limit: U32, offset: U32)
    ensures var hits := Page(Survivors(locations, constraints, Take(ranked, Fetch(offset, limit, constraints != []))), offset, limit);
            exists n :: 0 <= n <= |ranked|
              && (n == |ranked| || n == 10000 || n >= (if constraints == [] then 1 else 10) * (offset + limit))
              && var kept := Survivors(locations, constraints, ranked[..n]);
                 && |hits| == (if |kept| <= offset then 0 else if |kept| - offset <= limit then |kept| - offset else limit)
                 && forall k :: 0 <= k < |hits| ==> hits[k] == kept[offset + k]
  {
    hide Survivors;
    FetchIsTheWindow(offset, limit, constraints != []);
    var fetch := Fetch(offset, limit, constraints != []);
    var n := if fetch <= |ranked| then fetch else |ranked|;
    assert Take(ranked, fetch) == ranked[..n];
    PageHolds(Survivors(locations, constraints, ranked[..n]), offset, limit);
    hide Fetch, Page, Take;
  }

  /** `ranked` is everything the compiled query matches, most recent first; the index hands out its first `fetch`. */
  method GeneralPath(ranked: seq<nat>, locations: set<(nat, nat)>, constraints: seq<Constraint>, limit: U32, offset: U32)
    returns (total: nat, hits: seq<nat>)
    ensures total == |ranked|
    ensures hits == Page(Survivors(locations, constraints, Take(ranked, Fetch(offset, limit, constraints != []))), offset, limit)
    ensures exists n :: 0 <= n <= |ranked|
              && (n == |ranked| || n == 10000 || n >= (if constraints == [] then 1 else 10) * (offset + limit))
              && var kept := Survivors(locations, constraints, ranked[..n]);
                 && |hits| == (if |kept| <= offset then 0 else if |kept| - offset <= limit then |kept| - offset else limit)
                 && forall k :: 0 <= k < |hits| ==> hits[k] == kept[offset + k]
  {
    hide Survivors, Page, Fetch, Passes;
    WindowedPageHolds(ranked, locations, constraints, limit, offset);
    total, hits := |ranked|, Take(ranked, Fetch(offset, limit, constraints != []));
    if constraints == [] {
      AllSurvive(locations, hits);
    } else {
      var keep := Keep(locations, constraints, hits);
      hits := Retain(hits, keep, locations, constraints);
    }
    hits := Page(hits, offset, limit);
  }

  // The window is a prefix of the truth.

  predicate Prefix<T(==)>(a: seq<T>, b: seq<T>) { |a| <= |b| && b[..|a|] == a }

  lemma {:induction false} SurvivorsOfPrefix(locations: set<(nat, nat)>, constraints: seq<Constraint>, ids: seq<nat>, n: nat)
    requires n <= |ids|
    ensures Prefix(Survivors(locations, constraints, ids[..n]), Survivors(locations, constraints, ids))
    decreases |ids|
  {
    if n < |ids| {
      var m := |ids| - 1;
      SurvivorsOfPrefix(locations, constraints, ids[..m], n);
      assert ids[..m][..n] == ids[..n];
    } else {
      assert ids[..n] == ids;
    }
  }

  /** What being a prefix of a page means for what it was cut from. */
  lemma PrefixOfPage<T>(hits: seq<T>, s: seq<T>, offset: nat, limit: nat)
    requires Prefix(hits, Page(s, offset, limit))
    ensures forall k :: 0 <= k < |hits| ==> offset + k < |s| && hits[k] == s[offset + k]
  {
    PageHolds(s, offset, limit);
    assert forall k :: 0 <= k < |hits| ==> hits[k] == Page(s, offset, limit)[..|hits|][k];
  }

  lemma PageOfPrefix<T>(a: seq<T>, b: seq<T>, offset: nat, limit: nat)
    requires Prefix(a, b)
    ensures Prefix(Page(a, offset, limit), Page(b, offset, limit))
    ensures Page(a, offset, limit) == Page(b, offset, limit)
            <==> |a| == |b| || |a| >= offset + limit || |b| <= offset || limit == 0
  {
    assert |Page(b, offset, limit)| == if |b| <= offset then 0 else if |b| - offset <= limit then |b| - offset else limit;
    assert |Page(a, offset, limit)| == if |a| <= offset then 0 else if |a| - offset <= limit then |a| - offset else limit;
  }

  /**
   The page returned is always a prefix of the exact page, and equal to it exactly when the
   window holds every survivor or enough of them, or the page is empty anyway. The total
   never falls short.
   */
  lemma WindowedPageIsPrefix(ranked: seq<nat>, locations: set<(nat, nat)>, constraints: seq<Constraint>, limit: U32, offset: U32)
    ensures var window := Survivors(locations, constraints, Take(ranked, Fetch(offset, limit, constraints != [])));
            var all := Survivors(locations, constraints, ranked);
            && Prefix(Page(window, offset, limit), Page(all, offset, limit))
            && (Page(window, offset, limit) == Page(all, offset, limit)
                <==> |window| == |all| || |window| >= offset + limit || |all| <= offset || limit == 0)
            && |ranked| >= |all|
  {
    var fetch := Fetch(offset, limit, constraints != []);
    var n := if fetch <= |ranked| then fetch else |ranked|;
    assert Take(ranked, fetch) == ranked[..n];
    SurvivorsOfPrefix(locations, constraints, ranked, n);
    hide Page;
    PageOfPrefix(Survivors(locations, constraints, ranked[..n]), Survivors(locations, constraints, ranked), offset, limit);
  }

  /** Without folder hints every page that ends within the cap is exact, and so is the total. */
  lemma UnconstrainedPageIsExact(ranked: seq<nat>, locations: set<(nat, nat)>, limit: U32, offset: U32)
    requires offset + limit <= MAX_FETCH
    ensures Page(Survivors(locations, [], Take(ranked, Fetch(offset, limit, false))), offset, limit) == Page(ranked, offset, limit)
  {
    var window := Take(ranked, Fetch(offset, limit, false));
    AllSurvive(locations, window);
    AllSurvive(locations, ranked);
    WindowedPageIsPrefix(ranked, locations, [], limit, offset);
  }

  // The database listing.

  /** Messages of the user's accounts, in listing order. */
  function OwnedIds(accounts: seq<QueryPlan.Account>, docs: seq<Doc>): (r: seq<nat>)
    ensures forall id :: id in r <==> exists d :: d in docs && Owned(accounts, d.account) && d.id == id
  {
    if docs == [] then []
    else
      var last := docs[|docs| - 1];
      assert docs == docs[..|docs| - 1] + [last];
      OwnedIds(accounts, docs[..|docs| - 1]) + if Owned(accounts, last.account) then [last.id] else []
  }

  predicate InGroups(locations: set<(nat, nat)>, groups: seq<set<nat>>, exclude: set<nat>, id: nat) {
    (forall i :: 0 <= i < |groups| ==> LiesIn(locations, id, groups[i])) && !LiesIn(locations, id, exclude)
  }

  function ListByFolders(locations: set<(nat, nat)>, ids: seq<nat>, groups: seq<set<nat>>, exclude: set<nat>): seq<nat> {
    if ids == [] then []
    else
      var last := ids[|ids| - 1];
      ListByFolders(locations, ids[..|ids| - 1], groups, exclude) + if InGroups(locations, groups, exclude, last) then [last] else []
  }

  lemma {:induction false} ListIsSurvivors(locations: set<(nat, nat)>, ids: seq<nat>, groups: seq<set<nat>>, exclude: set<nat>,
                                           constraints: seq<Constraint>)
    requires forall id :: InGroups(locations, groups, exclude, id) <==> Passes(locations, constraints, id)
    ensures ListByFolders(locations, ids, groups, exclude) == Survivors(locations, constraints, ids)
  {
    hide InGroups, Passes;
    if ids != [] { ListIsSurvivors(locations, ids[..|ids| - 1], groups, exclude, constraints); }
  }

  lemma {:induction false} NoneSurvive(locations: set<(nat, nat)>, constraints: seq<Constraint>, ids: seq<nat>)
    requires forall id :: !Passes(locations, constraints, id)
    ensures Survivors(locations, constraints, ids) == []
  {
    if ids != [] { NoneSurvive(locations, constraints, ids[..|ids| - 1]); }
  }

  lemma GroupsGrow(locations: set<(nat, nat)>, groups: seq<set<nat>>, exclude: set<nat>, folders: set<nat>)
    ensures forall id :: (InGroups(locations, groups + [folders], exclude, id) <==>
                            InGroups(locations, groups, exclude, id) && LiesIn(locations, id, folders))
    ensures forall id :: (InGroups(locations, groups, exclude + folders, id) <==>
                            InGroups(locations, groups, exclude, id) && !LiesIn(locations, id, folders))
  {
    forall id ensures LiesIn(locations, id, exclude + folders) <==> LiesIn(locations, id, exclude) || LiesIn(locations, id, folders) {}
    hide LiesIn;
    forall id
      ensures InGroups(locations, groups + [folders], exclude, id)
              <==> InGroups(locations, groups, exclude, id) && LiesIn(locations, id, folders)
    {
      var all := groups + [folders];
      assert all[|groups|] == folders;
      assert forall i :: 0 <= i < |groups| ==> all[i] == groups[i];
    }
  }

  /** Folder-only queries: exact pages and totals over the whole listing of the user's messages. */
  method FastPath(accounts: seq<QueryPlan.Account>, docs: seq<Doc>, locations: set<(nat, nat)>,
                  constraints: seq<Constraint>, limit: U32, offset: U32)
    returns (total: nat, hits: seq<nat>)
    ensures var exact := Survivors(locations, constraints, OwnedIds(accounts, docs));
            && total == |exact| && hits == Page(exact, offset, limit)
            && |hits| == (if |exact| <= offset then 0 else if |exact| - offset <= limit then |exact| - offset else limit)
            && forall k :: 0 <= k < |hits| ==> hits[k] == exact[offset + k]
  {
    PageHolds(Survivors(locations, constraints, OwnedIds(accounts, docs)), offset, limit);
    var groups: seq<set<nat>>, exclude: set<nat> := [], {};
    var i := 0;
    while i < |constraints|
      invariant i <= |constraints|
      invariant forall id :: InGroups(locations, groups, exclude, id) <==> Passes(locations, constraints[..i], id)
    {
      var (negated, folders) := constraints[i];
      PassesGrows(locations, constraints, i);
      GroupsGrow(locations, groups, exclude, folders);
      if negated {
        exclude := exclude + folders;
      } else if folders == {} {
        NeverPasses(locations, constraints, i);
        NoneSurvive(locations, constraints, OwnedIds(accounts, docs));
        return 0, [];
      } else {
        groups := groups + [folders];
      }
      i := i + 1;
    }
    assert constraints[..i] == constraints;
    ListIsSurvivors(locations, OwnedIds(accounts, docs), groups, exclude, constraints);
    var listed := ListByFolders(locations, OwnedIds(accounts, docs), groups, exclude);
    total, hits := |listed|, Page(listed, offset, limit);
  }

  /** What the fast path lists. */
  ghost predicate FastLists(lib: Library, constraints: seq<Constraint>, doc: Doc) {
    Owned(lib.accounts, doc.account) && Passes(lib.locations, constraints, doc.id)
  }

  /** What the general path would keep, were the index complete and the window unbounded. */
  ghost predicate GeneralKeeps(stem: Stemmer, lastDay: Date, lib: Library, listed: seq<nat>,
                               constraints: seq<Constraint>, doc: Doc) {
    Matches(BuildQuery(stem, lastDay, listed, []), doc) && Passes(lib.locations, constraints, doc.id)
  }

  ghost predicate SamePaths(stem: Stemmer, lastDay: Date, lib: Library, listed: seq<nat>,
                            constraints: seq<Constraint>, docs: seq<Doc>)
  {
    forall d :: d in docs ==> (FastLists(lib, constraints, d) <==> GeneralKeeps(stem, lastDay, lib, listed, constraints, d))
  }

  /** A message outside the scope lies in no folder inside it. */
  lemma OutsidersPassNegationsOnly(fold: Folding, lib: Library, scope: set<nat>, hints: seq<Hint>, doc: Doc)
    requires OwnFolders(lib, doc) && doc.account !in scope
    ensures Passes(lib.locations, Constraints(fold, lib.folders, scope, hints), doc.id)
            <==> forall i :: 0 <= i < |hints| ==> hints[i].0
  {
    var cs := Constraints(fold, lib.folders, scope, hints);
    hide FolderMatches;
    forall i | 0 <= i < |hints| ensures cs[i].0 == hints[i].0 && !LiesIn(lib.locations, doc.id, cs[i].1) {}
    hide LiesIn, Constraints;
  }

  /** In the scope the listing is the search; outside it, the user's messages pass if all hints are negated. */
  lemma FastListsByScope(stem: Stemmer, fold: Folding, lib: Library, lastDay: Date, clauses: seq<Clause>,
                         scope: set<nat>, listed: seq<nat>, doc: Doc)
    requires IsScope(fold, lib, clauses, scope) && forall id :: id in listed <==> id in scope
    requires OwnFolders(lib, doc)
    ensures var hints, cs := FolderHints(clauses), Constraints(fold, lib.folders, scope, FolderHints(clauses));
            && (GeneralKeeps(stem, lastDay, lib, listed, cs, doc) <==> doc.account in scope && FastLists(lib, cs, doc))
            && (doc.account !in scope ==>
                  (FastLists(lib, cs, doc) <==> Owned(lib.accounts, doc.account) && forall i :: 0 <= i < |hints| ==> hints[i].0))
  {
    hide HintsAllow, Passes, Matches, Owned, OwnFolders;
    BuildQueryMeans(stem, lastDay, listed, [], doc);
    if doc.account !in scope { OutsidersPassNegationsOnly(fold, lib, scope, FolderHints(clauses), doc); }
  }

  /**
   The two paths give the same messages exactly when some folder hint is positive or the
   scope leaves out none of the user's messages: the listing itself is scoped by user only.
   */
  lemma FastPathIsGeneralPath(stem: Stemmer, fold: Folding, lib: Library, lastDay: Date, clauses: seq<Clause>,
                              scope: set<nat>, listed: seq<nat>, docs: seq<Doc>)
    requires IsScope(fold, lib, clauses, scope) && forall id :: id in listed <==> id in scope
    requires forall d :: d in docs ==> OwnFolders(lib, d)
    ensures var hints := FolderHints(clauses);
            SamePaths(stem, lastDay, lib, listed, Constraints(fold, lib.folders, scope, hints), docs)
            <==> (exists i :: 0 <= i < |hints| && !hints[i].0)
                 || forall d :: d in docs && Owned(lib.accounts, d.account) ==> d.account in scope
  {
    var hints := FolderHints(clauses);
    var cs := Constraints(fold, lib.folders, scope, hints);
    hide HintsAllow, Passes, Matches, Owned, OwnFolders, GeneralKeeps, FastLists, Constraints, FolderHints;
    forall d | d in docs
      ensures GeneralKeeps(stem, lastDay, lib, listed, cs, d) <==> d.account in scope && FastLists(lib, cs, d)
      ensures d.account !in scope ==>
                (FastLists(lib, cs, d) <==> Owned(lib.accounts, d.account) && forall i :: 0 <= i < |hints| ==> hints[i].0)
    {
      FastListsByScope(stem, fold, lib, lastDay, clauses, scope, listed, d);
    }
  }

  lemma TwoHints(a: Clause, f: Clause)
    requires a.term.Account? && f.term.Folder?
    ensures AccountHints([a, f]) == [(a.negated, a.term.name)]
    ensures FolderHints([a, f]) == [(f.negated, f.term.name)] && Residual([a, f]) == []
  {
    var one, two := [a], [a, f];
    assert one[..0] == [] && two[..1] == one;
    assert AccountHints(one) == [(a.negated, a.term.name)];
    assert FolderHints(one) == [] && Residual(one) == [];
    assert AccountHints(two) == AccountHints(one) + [];
  }

  lemma TwoAccounts(fold: Folding, x: QueryPlan.Account, z: QueryPlan.Account, name: string)
    requires fold(x.displayName) == fold(name) != fold(z.displayName)
    ensures Named(fold, [x, z], name) == Some(x.id)
    ensures forall id :: Owned([x, z], id) <==> id == x.id || id == z.id
  {}

  /** `account:x !folder:y` lists a message of an account the query excludes. */
  lemma FastPathCanLeaveTheScope(stem: Stemmer, fold: Folding)
    requires fold("x") != fold("z")
    ensures var lib := Library([QueryPlan.Account(1, "x"), QueryPlan.Account(2, "z")], [], {});
            var clauses := [Clause(false, Term.Account("x")), Clause(true, Term.Folder("y"))];
            var doc := Doc(7, 2, [], [], [], [], None, false);
            && AccountHints(clauses) == [(false, "x")] && FolderHints(clauses) == [(true, "y")] && Residual(clauses) == []
            && IsScope(fold, lib, clauses, {1})
            && FastLists(lib, Constraints(fold, lib.folders, {1}, FolderHints(clauses)), doc)
            && !Wanted(stem, fold, lib, clauses, doc)
  {
    var clauses := [Clause(false, Term.Account("x")), Clause(true, Term.Folder("y"))];
    TwoHints(clauses[0], clauses[1]);
    TwoAccounts(fold, QueryPlan.Account(1, "x"), QueryPlan.Account(2, "z"), "x");
    hide AccountHints, FolderHints, Residual, Named, Owned, FolderMatches;
    assert clauses == [clauses[0], clauses[1]];
    var lib := Library([QueryPlan.Account(1, "x"), QueryPlan.Account(2, "z")], [], {});
    var doc := Doc(7, 2, [], [], [], [], None, false);
    assert AccountHints(clauses)[0] == (false, "x");
    assert IsScope(fold, lib, clauses, {1});
    assert FastLists(lib, Constraints(fold, lib.folders, {1}, FolderHints(clauses)), doc);
    assert !ClauseHolds(stem, fold, lib, clauses[0], doc);
  }

  method Enumerate(s: set<nat>) returns (r: seq<nat>)
    ensures forall id :: id in r <==> id in s
  {
    r := [];
    var left := s;
    while left != {}
      invariant forall id :: id in s <==> id in r || id in left
      invariant forall id :: id in left ==> id !in r
    {
      var id :| id in left;
      r, left := r + [id], left - {id};
    }
  }

  /** The ids of the documents that satisfy `p`, in the order of the documents. */
  ghost function IdsWhere(docs: seq<Doc>, p: Doc -> bool): seq<nat> {
    if docs == [] then []
    else
      var last := docs[|docs| - 1];
      IdsWhere(docs[..|docs| - 1], p) + if p(last) then [last.id] else []
  }

  lemma {:induction false} IdsAreWhere(docs: seq<Doc>, p: Doc -> bool)
    ensures forall id :: id in IdsWhere(docs, p) <==> exists d :: d in docs && p(d) && d.id == id
  {
    if docs != [] {
      IdsAreWhere(docs[..|docs| - 1], p);
      assert docs == docs[..|docs| - 1] + [docs[|docs| - 1]];
    }
  }

  /** The ids are those at increasing positions, which are all the positions that satisfy `p`. */
  ghost predicate At(docs: seq<Doc>, p: Doc -> bool, ids: seq<nat>, at: seq<nat>) {
    && |at| == |ids|
    && (forall k :: 0 <= k < |at| ==> at[k] < |docs| && p(docs[at[k]]) && docs[at[k]].id == ids[k])
    && (forall k, l :: 0 <= k < l < |at| ==> at[k] < at[l])
    && (forall i: nat :: i < |docs| && p(docs[i]) ==> i in at)
  }

  lemma AtGrows(docs: seq<Doc>, p: Doc -> bool, ids: seq<nat>, at: seq<nat>)
    requires docs != [] && At(docs[..|docs| - 1], p, ids, at)
    ensures var n := |docs| - 1;
            if p(docs[n]) then At(docs, p, ids + [docs[n].id], at + [n]) else At(docs, p, ids, at)
  {
    var n := |docs| - 1;
    var front := docs[..n];
    assert forall i :: 0 <= i < n ==> front[i] == docs[i];
    forall i: nat | i < |docs| && p(docs[i]) ensures i in at || i == n {
      if i < n { assert p(front[i]); }
    }
  }

  /** Those ids stand in the order of their documents, one for each that satisfies `p`. */
  lemma {:induction false} IdsKeepOrder(docs: seq<Doc>, p: Doc -> bool) returns (at: seq<nat>)
    ensures At(docs, p, IdsWhere(docs, p), at)
  {
    at := [];
    if docs != [] {
      var n := |docs| - 1;
      at := IdsKeepOrder(docs[..n], p);
      var ids := IdsWhere(docs[..n], p);
      assert IdsWhere(docs, p) == ids + if p(docs[n]) then [docs[n].id] else [];
      hide IdsWhere;
      AtGrows(docs, p, ids, at);
      if p(docs[n]) { at := at + [n]; } else { assert ids + [] == ids; }
    }
  }

  lemma {:induction false} NoIdsWhere(docs: seq<Doc>, p: Doc -> bool)
    requires forall d :: d in docs ==> !p(d)
    ensures IdsWhere(docs, p) == []
  {
    if docs != [] { NoIdsWhere(docs[..|docs| - 1], p); }
  }

  lemma SurvivorsOfOneMore(locations: set<(nat, nat)>, constraints: seq<Constraint>, ids: seq<nat>, id: nat)
    ensures Survivors(locations, constraints, ids + [id])
            == Survivors(locations, constraints, ids) + if Passes(locations, constraints, id) then [id] else []
  {
    assert (ids + [id])[..|ids|] == ids;
  }

  lemma {:induction false} SameIds(docs: seq<Doc>, p: Doc -> bool, q: Doc -> bool)
    requires forall d :: d in docs ==> (p(d) <==> q(d))
    ensures IdsWhere(docs, p) == IdsWhere(docs, q)
  {
    if docs != [] { SameIds(docs[..|docs| - 1], p, q); }
  }

  lemma {:induction false} SurvivorsWhere(locations: set<(nat, nat)>, constraints: seq<Constraint>, docs: seq<Doc>,
                                          p: Doc -> bool, q: Doc -> bool)
    requires forall d :: d in docs ==> (q(d) <==> p(d) && Passes(locations, constraints, d.id))
    ensures Survivors(locations, constraints, IdsWhere(docs, p)) == IdsWhere(docs, q)
  {
    hide Passes, Survivors;
    if docs == [] {
      assert Survivors(locations, constraints, []) == [];
    } else {
      var last, front := docs[|docs| - 1], docs[..|docs| - 1];
      SurvivorsWhere(locations, constraints, front, p, q);
      assert p(last) ==> IdsWhere(docs, p) == IdsWhere(front, p) + [last.id];
      assert !p(last) ==> IdsWhere(docs, p) == IdsWhere(front, p);
      SurvivorsOfOneMore(locations, constraints, IdsWhere(front, p), last.id);
    }
  }

  lemma {:induction false} OwnedIdsAre(accounts: seq<QueryPlan.Account>, docs: seq<Doc>)
    ensures OwnedIds(accounts, docs) == IdsWhere(docs, (d: Doc) => Owned(accounts, d.account))
  {
    hide Owned;
    if docs != [] { OwnedIdsAre(accounts, docs[..|docs| - 1]); }
  }

  /** The index answers a query with the ids of the documents that match it; `docs` is in listing order, most recent first. */
  ghost predicate Answers(index: Query -> seq<nat>, docs: seq<Doc>) {
    forall q :: index(q) == IdsWhere(docs, d => Matches(q, d))
  }

  ghost predicate InScope(fold: Folding, lib: Library, clauses: seq<Clause>, id: nat) {
    Owned(lib.accounts, id) && HintsAllow(fold, lib.accounts, AccountHints(clauses), id)
  }

  /** A query that is nothing but negated folder hints, account hints aside. */
  ghost predicate NegatedFoldersOnly(clauses: seq<Clause>) {
    var hints := FolderHints(clauses);
    Residual(clauses) == [] && hints != [] && forall i :: 0 <= i < |hints| ==> hints[i].0
  }

  /**
   The messages a search lists: those wanted; and, for a query by negated folders only whose
   scope is not empty, every message of the user's accounts outside the scope.
   */
  ghost predicate Listed(stem: Stemmer, fold: Folding, lib: Library, clauses: seq<Clause>, doc: Doc) {
    || Wanted(stem, fold, lib, clauses, doc)
    || (&& NegatedFoldersOnly(clauses) && (exists id :: InScope(fold, lib, clauses, id))
        && Owned(lib.accounts, doc.account) && !InScope(fold, lib, clauses, doc.account))
  }

  /** The whole exact answer, in order: what the pages are cut from. */
  ghost function Exact(stem: Stemmer, fold: Folding, lib: Library, clauses: seq<Clause>, docs: seq<Doc>): seq<nat> {
    IdsWhere(docs, d => Listed(stem, fold, lib, clauses, d))
  }

  lemma WantedIsInScope(stem: Stemmer, fold: Folding, lib: Library, clauses: seq<Clause>, doc: Doc)
    requires Wanted(stem, fold, lib, clauses, doc)
    ensures InScope(fold, lib, clauses, doc.account)
  {
    hide ClauseHolds, HintsAllow, FolderHintsHold, Owned;
    assert AllHold(stem, fold, lib, clauses, doc);
    SplitKeepsMeaning(stem, fold, lib, clauses, doc);
  }

  /**
   Every message wanted is in the exact answer; nothing else is, but for a query by negated
   folders only, and then it is the user's own.
   */
  lemma ExactAnswerIsWhatIsWanted(stem: Stemmer, fold: Folding, lib: Library, clauses: seq<Clause>, docs: seq<Doc>)
    ensures var exact := Exact(stem, fold, lib, clauses, docs);
            && (forall d :: d in docs && Wanted(stem, fold, lib, clauses, d) ==> d.id in exact)
            && (forall id :: id in exact ==> exists d :: d in docs && d.id == id && Owned(lib.accounts, d.account))
            && (!NegatedFoldersOnly(clauses) ==>
                  forall id :: id in exact ==> exists d :: d in docs && d.id == id && Wanted(stem, fold, lib, clauses, d))
  {
    forall d | Wanted(stem, fold, lib, clauses, d) ensures Owned(lib.accounts, d.account) {}
    IdsAreWhere(docs, d => Listed(stem, fold, lib, clauses, d));
    hide Wanted, NegatedFoldersOnly, Owned;
    forall d | d in docs && Wanted(stem, fold, lib, clauses, d) ensures d.id in Exact(stem, fold, lib, clauses, docs) {
      assert Listed(stem, fold, lib, clauses, d);
    }
  }

  /** The exact answer lists its messages in listing order, each of them once for its document. */
  lemma ExactAnswerIsInOrder(stem: Stemmer, fold: Folding, lib: Library, clauses: seq<Clause>, docs: seq<Doc>)
    returns (at: seq<nat>)
    ensures var exact := Exact(stem, fold, lib, clauses, docs);
            && |at| == |exact| && (forall k, l :: 0 <= k < l < |at| ==> at[k] < at[l])
            && (forall k :: 0 <= k < |at| ==> at[k] < |docs| && docs[at[k]].id == exact[k])
            && forall i: nat :: i < |docs| && Wanted(stem, fold, lib, clauses, docs[i]) ==> i in at
  {
    hide Wanted, IdsWhere, InScope, NegatedFoldersOnly, Owned;
    at := IdsKeepOrder(docs, d => Listed(stem, fold, lib, clauses, d));
    forall i: nat | i < |docs| && Wanted(stem, fold, lib, clauses, docs[i]) ensures i in at {
      assert Listed(stem, fold, lib, clauses, docs[i]);
    }
  }

  lemma GeneralPathIsExact(stem: Stemmer, fold: Folding, lib: Library, lastDay: Date, index: Query -> seq<nat>, docs: seq<Doc>,
                           clauses: seq<Clause>, scope: set<nat>, listed: seq<nat>)
    requires Answers(index, docs) && !NegatedFoldersOnly(clauses)
    requires IsScope(fold, lib, clauses, scope) && forall id :: id in listed <==> id in scope
    requires forall d :: d in docs ==> OwnFolders(lib, d)
    requires forall d, c :: d in docs && c in clauses ==> !OnEdge(lastDay, c.term, d)
    ensures Survivors(lib.locations, Constraints(fold, lib.folders, scope, FolderHints(clauses)),
                      index(BuildQuery(stem, lastDay, listed, Residual(clauses))))
            == Exact(stem, fold, lib, clauses, docs)
  {
    hide Passes, Matches, Wanted, OnEdge, Constraints, BuildQuery, OwnFolders, NegatedFoldersOnly;
    var query := BuildQuery(stem, lastDay, listed, Residual(clauses));
    forall d | d in docs
      ensures Listed(stem, fold, lib, clauses, d)
              <==> Matches(query, d) && Passes(lib.locations, Constraints(fold, lib.folders, scope, FolderHints(clauses)), d.id)
    {
      SearchMeansItsClauses(stem, fold, lib, lastDay, clauses, scope, listed, d);
    }
    SurvivorsWhere(lib.locations, Constraints(fold, lib.folders, scope, FolderHints(clauses)), docs,
                   d => Matches(query, d), d => Listed(stem, fold, lib, clauses, d));
  }

  /** In a scope that is not empty, the fast path's constraints keep exactly the messages listed. */
  lemma FastListsExactly(stem: Stemmer, fold: Folding, lib: Library, lastDay: Date, clauses: seq<Clause>,
                         scope: set<nat>, listed: seq<nat>, doc: Doc)
    requires IsScope(fold, lib, clauses, scope) && scope != {} && forall id :: id in listed <==> id in scope
    requires OwnFolders(lib, doc) && forall c :: c in clauses ==> !OnEdge(lastDay, c.term, doc)
    requires Residual(clauses) == [] && FolderHints(clauses) != []
    ensures FastLists(lib, Constraints(fold, lib.folders, scope, FolderHints(clauses)), doc) <==> Listed(stem, fold, lib, clauses, doc)
  {
    FastListsByScope(stem, fold, lib, lastDay, clauses, scope, listed, doc);
    SearchMeansItsClauses(stem, fold, lib, lastDay, clauses, scope, listed, doc);
    assert forall id :: id in scope <==> InScope(fold, lib, clauses, id);
    var id :| id in scope;
    assert FastLists(lib, Constraints(fold, lib.folders, scope, FolderHints(clauses)), doc) ==> Owned(lib.accounts, doc.account);
    hide Passes, Matches, Wanted, OnEdge, Constraints, BuildQuery, OwnFolders, Owned, HintsAllow, FastLists;
    if Wanted(stem, fold, lib, clauses, doc) { WantedIsInScope(stem, fold, lib, clauses, doc); }
  }

  lemma FastPathIsExact(stem: Stemmer, fold: Folding, lib: Library, lastDay: Date, clauses: seq<Clause>,
                        scope: set<nat>, listed: seq<nat>, docs: seq<Doc>)
    requires IsScope(fold, lib, clauses, scope) && scope != {} && forall id :: id in listed <==> id in scope
    requires forall d :: d in docs ==> OwnFolders(lib, d)
    requires forall d, c :: d in docs && c in clauses ==> !OnEdge(lastDay, c.term, d)
    requires Residual(clauses) == [] && FolderHints(clauses) != []
    ensures Survivors(lib.locations, Constraints(fold, lib.folders, scope, FolderHints(clauses)), OwnedIds(lib.accounts, docs))
            == Exact(stem, fold, lib, clauses, docs)
  {
    hide Passes, Listed, OnEdge, Constraints, OwnFolders, Owned;
    var constraints := Constraints(fold, lib.folders, scope, FolderHints(clauses));
    OwnedIdsAre(lib.accounts, docs);
    forall d | d in docs
      ensures Listed(stem, fold, lib, clauses, d) <==> Owned(lib.accounts, d.account) && Passes(lib.locations, constraints, d.id)
    {
      FastListsExactly(stem, fold, lib, lastDay, clauses, scope, listed, d);
    }
    SurvivorsWhere(lib.locations, constraints, docs,
                   (d: Doc) => Owned(lib.accounts, d.account), d => Listed(stem, fold, lib, clauses, d));
  }

  lemma NoScopeNoHits(stem: Stemmer, fold: Folding, lib: Library, docs: seq<Doc>, clauses: seq<Clause>)
    requires IsScope(fold, lib, clauses, {})
    ensures Exact(stem, fold, lib, clauses, docs) == []
  {
    forall id ensures !InScope(fold, lib, clauses, id) { assert id !in {}; }
    hide Wanted, InScope;
    forall d ensures !Listed(stem, fold, lib, clauses, d) {
      if Wanted(stem, fold, lib, clauses, d) { WantedIsInScope(stem, fold, lib, clauses, d); }
    }
    NoIdsWhere(docs, d => Listed(stem, fold, lib, clauses, d));
  }

  /** A page cut from the window, against the page cut from everything. */
  lemma WindowedPage(ranked: seq<nat>, locations: set<(nat, nat)>, constraints: seq<Constraint>, limit: U32, offset: U32)
    ensures var page := Page(Survivors(locations, constraints, Take(ranked, Fetch(offset, limit, constraints != []))), offset, limit);
            var all := Survivors(locations, constraints, ranked);
            && Prefix(page, Page(all, offset, limit)) && |ranked| >= |all| && (constraints == [] ==> |ranked| == |all|)
            && (|ranked| <= Fetch(offset, limit, constraints != []) || (constraints == [] && offset + limit <= MAX_FETCH) ==>
                  page == Page(all, offset, limit))
  {
    WindowedPageIsPrefix(ranked, locations, constraints, limit, offset);
    var fetch := Fetch(offset, limit, constraints != []);
    if |ranked| <= fetch { assert Take(ranked, fetch) == ranked; }
    if constraints == [] {
      AllSurvive(locations, ranked);
      if offset + limit <= MAX_FETCH { UnconstrainedPageIsExact(ranked, locations, limit, offset); }
    }
  }

  /**
   A whole search. Every page is cut from one exact answer, whatever its offset and limit: hit
   `k` is the answer's entry `offset + k`, and none is missing up to the limit in a folder
   listing, in a query without folder hints within the cap, and whenever the window held
   everything. The total never falls short, and is exact but for searches filtered by folder.
   */
  method Search(stem: Stemmer, fold: Folding, lib: Library, lastDay: Date, index: Query -> seq<nat>, docs: seq<Doc>,
                clauses: seq<Clause>, limit: U32, offset: U32)
    returns (total: nat, hits: seq<nat>)
    requires Answers(index, docs)
    requires forall d :: d in docs ==> OwnFolders(lib, d)
    requires forall d, c :: d in docs && c in clauses ==> !OnEdge(lastDay, c.term, d)
    ensures var exact, filtered := Exact(stem, fold, lib, clauses, docs), FolderHints(clauses) != [];
            && (forall k :: 0 <= k < |hits| ==> offset + k < |exact| && hits[k] == exact[offset + k])
            && total >= |exact| && (!filtered || Residual(clauses) == [] ==> total == |exact|)
            && ((|| (filtered && Residual(clauses) == [])
                 || (!filtered && offset + limit <= 10000)
                 || (total <= 10000 && total <= (if filtered then 10 else 1) * (offset + limit))) ==>
                  |hits| == if |exact| <= offset then 0 else if |exact| - offset <= limit then |exact| - offset else limit)
  {
    hide OnEdge, OwnFolders, Answers, HintsAllow, Owned, Survivors, Fetch, FolderIds, BuildQuery, OwnedIds, Exact, Page;
    var accountHints, folderHints, residual := SplitClauses(clauses);
    var scope := ResolveScope(fold, lib.accounts, accountHints);
    if scope == {} {
      NoScopeNoHits(stem, fold, lib, docs, clauses);
      return 0, [];
    }
    FetchIsTheWindow(offset, limit, folderHints != []);
    PageHolds(Exact(stem, fold, lib, clauses, docs), offset, limit);
    var constraints := Constraints(fold, lib.folders, scope, folderHints);
    var listed := Enumerate(scope);
    if residual == [] && constraints != [] {
      total, hits := FastPath(lib.accounts, docs, lib.locations, constraints, limit, offset);
      FastPathIsExact(stem, fold, lib, lastDay, clauses, scope, listed, docs);
    } else {
      var ranked := index(BuildQuery(stem, lastDay, listed, residual));
      total, hits := GeneralPath(ranked, lib.locations, constraints, limit, offset);
      GeneralPathIsExact(stem, fold, lib, lastDay, index, docs, clauses, scope, listed);
      WindowedPage(ranked, lib.locations, constraints, limit, offset);
      PrefixOfPage(hits, Exact(stem, fold, lib, clauses, docs), offset, limit);
    }
  }
}
