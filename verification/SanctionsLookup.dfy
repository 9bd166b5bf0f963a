/** The two-stage lookup of `enrichment.processor.ts` over the indexed queries of `enrichment.repository.ts`. */
module SanctionsLookup {
  import opened Wrappers
  import opened Names
  import opened Contracts
  import opened Matcher

  /** The row bears exactly this name, as its name or as an alias. */
  predicate Spelled(name: string, c: SanctionCandidate) {
    c.name == name || name in c.aliases
  }

  /** The rows that the database returned for the three queries; it may return them in any order. */
  datatype Answers = Answers(byImo: seq<SanctionCandidate>, byMmsi: seq<SanctionCandidate>, byName: seq<SanctionCandidate>)

  /** Every query that is asked is answered from the same table. */
  ghost predicate FromTable(fold: Fold, input: MatchInput, table: set<SanctionCandidate>, answers: Answers) {
    && (Truthy(input.imo) ==> Elements(answers.byImo) == set c | c in table && c.imo == input.imo)
    && (Truthy(input.mmsi) ==> Elements(answers.byMmsi) == set c | c in table && c.mmsi == input.mmsi)
    && (NormalizeName(fold, input.name) != "" ==>
          Elements(answers.byName) == set c | c in table && Spelled(input.name.GetOr(""), c))
  }

  function IdentifierRows(input: MatchInput, answers: Answers): seq<SanctionCandidate> {
    (if Truthy(input.imo) then answers.byImo else []) + (if Truthy(input.mmsi) then answers.byMmsi else [])
  }

  function NameRows(fold: Fold, input: MatchInput, answers: Answers): seq<SanctionCandidate> {
    if NormalizeName(fold, input.name) != "" then answers.byName else []
  }

  function Lookup(fold: Fold, input: MatchInput, answers: Answers): MatchResult {
    var first := Matched(fold, input, IdentifierRows(input, answers));
    if first.status == Sanctioned then first else Matched(fold, input, NameRows(fold, input, answers))
  }

  method MatchSanctions(fold: Fold, input: MatchInput, answers: Answers) returns (r: MatchResult)
    ensures r == Lookup(fold, input, answers)
  {
    var identifierCandidates: seq<SanctionCandidate> := [];
    if Truthy(input.imo) {
      identifierCandidates := identifierCandidates + answers.byImo;
    }
    if Truthy(input.mmsi) {
      identifierCandidates := identifierCandidates + answers.byMmsi;
    }
    assert identifierCandidates == IdentifierRows(input, answers);
    var identifierResult := Match(fold, input, identifierCandidates);
    if identifierResult.status == Sanctioned { return identifierResult; }
    var nameCandidates := if |NormalizeName(fold, input.name)| > 0 then answers.byName else [];
    r := Match(fold, input, nameCandidates);
  }

  /** Some row of the table carries the vessel's IMO number or MMSI. */
  ghost predicate Identified(fold: Fold, input: MatchInput, table: set<SanctionCandidate>) {
    exists c :: c in table && (Hits(fold, input, ByImo, c) || Hits(fold, input, ByMmsi, c))
  }

  /** `s` is `t` with some elements left out. */
  ghost predicate Sublist<T>(s: seq<T>, t: seq<T>) {
    s == [] || (t != [] && ((s[0] == t[0] && Sublist(s[1..], t[1..])) || Sublist(s, t[1..])))
  }

  lemma {:induction false} SmallerListing(
    s: seq<SanctionMatch>, t: seq<SanctionMatch>, some: set<SanctionMatch>, all: set<SanctionMatch>)
    requires Lists(s, some) && Lists(t, all) && some <= all
    ensures Sublist(s, t)
    decreases |t|
  {
    hide Before;
    if s != [] {
      assert s[0] in s;
      assert s[0] in t;
      RestLists(t, all);
      if s[0] == t[0] {
        RestLists(s, some);
        SmallerListing(s[1..], t[1..], some - {s[0]}, all - {t[0]});
      } else {
        LaterElements(s, t, some, all);
        SmallerListing(s, t[1..], some, all - {t[0]});
      }
    }
  }

  lemma LaterElements(s: seq<SanctionMatch>, t: seq<SanctionMatch>, some: set<SanctionMatch>, all: set<SanctionMatch>)
    requires Lists(s, some) && Lists(t, all) && some <= all && s != [] && t != [] && s[0] != t[0]
    ensures t[0] !in some
  {
    if t[0] in some {
      assert t[0] in s && s[0] in s;
      assert s[0] in t;
      BeforeIsStrict(s[0], t[0]);
    }
  }

  // ----- Agreement with a scan of the whole table -----

  lemma StageOneRows(fold: Fold, input: MatchInput, table: set<SanctionCandidate>, answers: Answers)
    requires FromTable(fold, input, table, answers)
    ensures Elements(IdentifierRows(input, answers))
         == set c | c in table && (Hits(fold, input, ByImo, c) || Hits(fold, input, ByMmsi, c))
  {
    var rows := IdentifierRows(input, answers);
    forall c ensures c in rows <==> c in table && (Hits(fold, input, ByImo, c) || Hits(fold, input, ByMmsi, c)) {
      assert Truthy(input.imo) ==> (c in answers.byImo <==> c in Elements(answers.byImo));
      assert Truthy(input.mmsi) ==> (c in answers.byMmsi <==> c in Elements(answers.byMmsi));
    }
  }

  lemma StageTwoRows(fold: Fold, input: MatchInput, table: set<SanctionCandidate>, answers: Answers)
    requires FromTable(fold, input, table, answers)
    ensures Elements(NameRows(fold, input, answers))
         == set c | c in table && NormalizeName(fold, input.name) != "" && Spelled(input.name.GetOr(""), c)
    ensures forall c | c in NameRows(fold, input, answers) :: Hits(fold, input, ByName, c)
  {
    forall c | c in NameRows(fold, input, answers) ensures Hits(fold, input, ByName, c) {
      assert c in Elements(answers.byName);
    }
  }

  lemma SomeBlock(fold: Fold, input: MatchInput, table: set<SanctionCandidate>)
    ensures Identified(fold, input, table) <==> Block(fold, input, ByImo, table) != {} || Block(fold, input, ByMmsi, table) != {}
  {
    hide Hits, ToMatch;
    if Identified(fold, input, table) {
      var c :| c in table && (Hits(fold, input, ByImo, c) || Hits(fold, input, ByMmsi, c));
      assert ToMatch(c, ByImo) in Block(fold, input, ByImo, table) || ToMatch(c, ByMmsi) in Block(fold, input, ByMmsi, table);
    }
  }

  lemma SelectedBlocks(fold: Fold, input: MatchInput, table: set<SanctionCandidate>, rows: set<SanctionCandidate>)
    requires rows == set c | c in table && (Hits(fold, input, ByImo, c) || Hits(fold, input, ByMmsi, c))
    ensures Block(fold, input, ByImo, rows) == Block(fold, input, ByImo, table)
    ensures Block(fold, input, ByMmsi, rows) == Block(fold, input, ByMmsi, table)
  {
    hide Hits, ToMatch;
  }

  lemma IdentifiedLookup(fold: Fold, input: MatchInput, scan: seq<SanctionCandidate>, answers: Answers)
    requires UniqueRows(Elements(scan)) && FromTable(fold, input, Elements(scan), answers)
    requires Identified(fold, input, Elements(scan))
    ensures Lookup(fold, input, answers) == Matched(fold, input, scan)
  {
    var table, ids := Elements(scan), IdentifierRows(input, answers);
    StageOneRows(fold, input, table, answers);
    SelectedBlocks(fold, input, table, Elements(ids));
    SomeBlock(fold, input, table);
    hide Matched, Hits, ToMatch, IdentifierRows, FromTable, Block, Lists;
    MatchIsCanonical(fold, input, ids);
    MatchIsCanonical(fold, input, scan);
    CanonicalIsUnique(fold, input, table, Matched(fold, input, ids), Matched(fold, input, scan));
  }

  lemma NoIdentifierRows(fold: Fold, input: MatchInput, table: set<SanctionCandidate>, answers: Answers)
    requires FromTable(fold, input, table, answers) && !Identified(fold, input, table)
    ensures IdentifierRows(input, answers) == []
  {
    StageOneRows(fold, input, table, answers);
    NoElements(IdentifierRows(input, answers));
    hide IdentifierRows, Hits, FromTable;
  }

  lemma FirstStageClear(fold: Fold, input: MatchInput, answers: Answers)
    requires IdentifierRows(input, answers) == []
    ensures Lookup(fold, input, answers) == Matched(fold, input, NameRows(fold, input, answers))
  {
    assert Matched(fold, input, []).status == Clear;
    hide IdentifierRows, NameRows, Matched;
  }

  lemma NameRowsParts(fold: Fold, input: MatchInput, table: set<SanctionCandidate>, answers: Answers)
    requires UniqueRows(table) && FromTable(fold, input, table, answers) && !Identified(fold, input, table)
    ensures UniqueRows(Elements(NameRows(fold, input, answers))) && !Identified(fold, input, Elements(NameRows(fold, input, answers)))
  {
    StageTwoRows(fold, input, table, answers);
    hide NameRows, FromTable, Hits, Spelled;
  }

  /** A canonical result without an identifier hit lists the name block. */
  lemma NamesOnly(fold: Fold, input: MatchInput, rows: set<SanctionCandidate>, r: MatchResult)
    requires Canonical(fold, input, rows, r) && !Identified(fold, input, rows)
    ensures Lists(r.matches, Block(fold, input, ByName, rows)) && r.status != Sanctioned
  {
    SomeBlock(fold, input, rows);
    hide Block, Lists, Hits;
  }

  /** Without an identifier hit both the lookup and the scan list names only: the lookup those spelled as asked. */
  lemma NameLookup(fold: Fold, input: MatchInput, scan: seq<SanctionCandidate>, answers: Answers)
    requires UniqueRows(Elements(scan)) && FromTable(fold, input, Elements(scan), answers)
    requires !Identified(fold, input, Elements(scan))
    ensures Canonical(fold, input, Elements(NameRows(fold, input, answers)), Lookup(fold, input, answers))
    ensures Lists(Lookup(fold, input, answers).matches, Block(fold, input, ByName, Elements(NameRows(fold, input, answers))))
    ensures Lists(Matched(fold, input, scan).matches, Block(fold, input, ByName, Elements(scan)))
    ensures Lookup(fold, input, answers).status != Sanctioned && Matched(fold, input, scan).status != Sanctioned
  {
    hide *;
    var table, rows := Elements(scan), NameRows(fold, input, answers);
    NoIdentifierRows(fold, input, table, answers);
    FirstStageClear(fold, input, answers);
    NameRowsParts(fold, input, table, answers);
    MatchIsCanonical(fold, input, rows);
    MatchIsCanonical(fold, input, scan);
    NamesOnly(fold, input, Elements(rows), Matched(fold, input, rows));
    NamesOnly(fold, input, table, Matched(fold, input, scan));
  }

  lemma SameBlocks(fold: Fold, input: MatchInput, some: set<SanctionCandidate>, others: set<SanctionCandidate>)
    requires UniqueRows(some + others)
    requires forall c | c in some + others :: Hits(fold, input, ByName, c)
    ensures Block(fold, input, ByName, some) == Block(fold, input, ByName, others) <==> some == others
  {
    hide Hits;
    if Block(fold, input, ByName, some) == Block(fold, input, ByName, others) {
      forall c ensures c in some <==> c in others {
        if c in some { assert ToMatch(c, ByName) in Block(fold, input, ByName, others); }
        if c in others { assert ToMatch(c, ByName) in Block(fold, input, ByName, some); }
      }
    }
  }

  ghost function NameHits(fold: Fold, input: MatchInput, table: set<SanctionCandidate>): set<SanctionCandidate> {
    set c | c in table && Hits(fold, input, ByName, c)
  }

  lemma NameHitRows(fold: Fold, input: MatchInput, scan: seq<SanctionCandidate>, answers: Answers)
    requires UniqueRows(Elements(scan)) && FromTable(fold, input, Elements(scan), answers)
    ensures var table, rows, hits := Elements(scan), Elements(NameRows(fold, input, answers)), NameHits(fold, input, Elements(scan));
      && rows <= hits && rows + hits == hits
      && UniqueRows(hits)
      && (forall c | c in hits :: Hits(fold, input, ByName, c))
      && Block(fold, input, ByName, rows) <= Block(fold, input, ByName, hits) == Block(fold, input, ByName, table)
      && (!Identified(fold, input, table) ==> !Identified(fold, input, rows))
      && (rows == hits <==> forall c | c in scan && Hits(fold, input, ByName, c) :: Spelled(input.name.GetOr(""), c))
  {
    var table, rows, hits := Elements(scan), Elements(NameRows(fold, input, answers)), NameHits(fold, input, Elements(scan));
    StageTwoRows(fold, input, table, answers);
    hide Hits, Spelled, NameRows, FromTable;
    if NormalizeName(fold, input.name) == "" { HitsNeedName(fold, input); }
    assert rows <= hits;
    assert rows + hits == hits;
  }

  /** Without an identifier hit, the lookup lists the rows that bear the name as asked. */
  lemma NameResult(fold: Fold, input: MatchInput, scan: seq<SanctionCandidate>, answers: Answers)
    requires UniqueRows(Elements(scan)) && FromTable(fold, input, Elements(scan), answers)
    requires !Identified(fold, input, Elements(scan))
    ensures var rows, r := Elements(NameRows(fold, input, answers)), Lookup(fold, input, answers);
      && rows <= Elements(scan)
      && (forall c | c in rows :: Hits(fold, input, ByName, c))
      && (forall c :: c in rows <==> c in scan && NormalizeName(fold, input.name) != "" && Spelled(input.name.GetOr(""), c))
      && Lists(r.matches, Block(fold, input, ByName, rows))
      && r.status == if Block(fold, input, ByName, rows) != {} then Candidate else Clear
  {
    NameLookup(fold, input, scan, answers);
    NameHitRows(fold, input, scan, answers);
    StageTwoRows(fold, input, Elements(scan), answers);
    hide Lookup, Matched, NameRows, FromTable, Hits, Lists;
    SomeBlock(fold, input, Elements(NameRows(fold, input, answers)));
  }

  lemma HitsNeedName(fold: Fold, input: MatchInput)
    requires NormalizeName(fold, input.name) == ""
    ensures forall c :: !Hits(fold, input, ByName, c)
  {
  }

  /**
   * The lookup gives exactly what matching against the whole table gives, in the same order, whenever some row carries
   * one of the vessel's numbers. Otherwise its matches are an ordered part of the scan's and neither is `sanctioned`,
   * and the two are equal exactly when every row with the same normalized name is also spelled as asked.
   */
  lemma IndexAgreesWithScan(fold: Fold, input: MatchInput, scan: seq<SanctionCandidate>, answers: Answers)
    requires UniqueRows(Elements(scan)) && FromTable(fold, input, Elements(scan), answers)
    ensures Sublist(Lookup(fold, input, answers).matches, Matched(fold, input, scan).matches)
    ensures Lookup(fold, input, answers).status == Sanctioned <==> Identified(fold, input, Elements(scan))
    ensures Matched(fold, input, scan).status == Sanctioned <==> Identified(fold, input, Elements(scan))
    ensures Lookup(fold, input, answers) == Matched(fold, input, scan) <==>
            || Identified(fold, input, Elements(scan))
            || (forall c | c in scan && Hits(fold, input, ByName, c) :: Spelled(input.name.GetOr(""), c))
  {
    var table, rows := Elements(scan), NameRows(fold, input, answers);
    var found, all := Lookup(fold, input, answers), Matched(fold, input, scan);
    if Identified(fold, input, table) {
      IdentifiedLookup(fold, input, scan, answers);
      IdentifiedStatus(fold, input, scan);
      hide Lookup, Matched;
      SublistOfItself(found.matches);
    } else {
      NameLookup(fold, input, scan, answers);
      NameHitRows(fold, input, scan, answers);
      MatchIsCanonical(fold, input, scan);
      SomeBlock(fold, input, table);
      SomeBlock(fold, input, Elements(rows));
      hide Lookup, Matched, NameRows, FromTable, NameHits, Hits, Block, Lists;
      var hits := NameHits(fold, input, table);
      SameBlocks(fold, input, Elements(rows), hits);
      SmallerListing(found.matches, all.matches, Block(fold, input, ByName, Elements(rows)), Block(fold, input, ByName, hits));
      EqualNameResults(fold, input, Elements(rows), hits, found, all);
    }
  }

  /** Two name results are equal exactly when they list the same block. */
  lemma EqualNameResults(
    fold: Fold, input: MatchInput, some: set<SanctionCandidate>, others: set<SanctionCandidate>, r: MatchResult, q: MatchResult)
    requires Lists(r.matches, Block(fold, input, ByName, some)) && Lists(q.matches, Block(fold, input, ByName, others))
    requires r.status == if Block(fold, input, ByName, some) != {} then Candidate else Clear
    requires q.status == if Block(fold, input, ByName, others) != {} then Candidate else Clear
    ensures r == q <==> Block(fold, input, ByName, some) == Block(fold, input, ByName, others)
  {
    var a, b := Block(fold, input, ByName, some), Block(fold, input, ByName, others);
    if a == b { ListingIsUnique(r.matches, q.matches, a); }
    if r == q {
      forall m ensures m in a <==> m in b {
        assert m in a <==> m in r.matches;
        assert m in b <==> m in q.matches;
      }
    }
  }

  lemma IdentifiedStatus(fold: Fold, input: MatchInput, scan: seq<SanctionCandidate>)
    requires UniqueRows(Elements(scan)) && Identified(fold, input, Elements(scan))
    ensures Matched(fold, input, scan).status == Sanctioned
  {
    MatchIsCanonical(fold, input, scan);
    SomeBlock(fold, input, Elements(scan));
    hide Matched, Hits, Block, Lists;
  }

  lemma {:induction false} SublistOfItself<T>(s: seq<T>)
    ensures Sublist(s, s)
  {
    if s != [] { SublistOfItself(s[1..]); }
  }
}
