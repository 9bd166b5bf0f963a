/** What `match` answers, told from the rows and their fields alone. */
module MatchMeaning {
  import opened Wrappers
  import opened Names
  import opened NameWords
  import opened Contracts
  import opened Matcher
  import opened SanctionsLookup

  predicate CarriesImo(imo: Option<string>, c: SanctionCandidate) {
    imo.Some? && imo.value != "" && c.imo.Some? && c.imo.value == imo.value
  }

  predicate CarriesMmsi(mmsi: Option<string>, c: SanctionCandidate) {
    mmsi.Some? && mmsi.value != "" && c.mmsi.Some? && c.mmsi.value == mmsi.value
  }

  /** The name has words, and the row's name or one of its aliases has the same ones. */
  ghost predicate BearsName(fold: Fold, name: Option<string>, c: SanctionCandidate) {
    var words := Words(Folded(fold, name));
    && words != []
    && (Words(Folded(fold, Some(c.name))) == words || exists a :: a in c.aliases && Words(Folded(fold, Some(a))) == words)
  }

  /** The match repeats the row's fields and says how it was found. */
  predicate Describes(m: SanctionMatch, c: SanctionCandidate, how: MatchMethod) {
    && m.entityId == c.entityId && m.source == c.source && m.sourceEntityId == c.sourceEntityId && m.name == c.name
    && m.aliases == c.aliases && m.flag == c.flag && m.listingDate == c.listingDate && m.programs == c.programs
    && m.matchMethod == how
  }

  /** By source, then by the source's own id, then by entity. */
  predicate ListedBefore(a: SanctionMatch, b: SanctionMatch) {
    if a.source != b.source then Precedes(a.source, b.source)
    else if a.sourceEntityId != b.sourceEntityId then Precedes(a.sourceEntityId, b.sourceEntityId)
    else Precedes(a.entityId, b.entityId)
  }

  lemma HitsMean(fold: Fold, input: MatchInput, c: SanctionCandidate)
    ensures Hits(fold, input, ByImo, c) <==> CarriesImo(input.imo, c)
    ensures Hits(fold, input, ByMmsi, c) <==> CarriesMmsi(input.mmsi, c)
  {
  }

  lemma NameHitsMean(fold: Fold, input: MatchInput, c: SanctionCandidate)
    ensures Hits(fold, input, ByName, c) <==> BearsName(fold, input.name, c)
  {
    hide NormalizeName, Words, Folded;
    SameNameExactly(fold, input.name, Some(c.name));
    forall a ensures NormalizeName(fold, input.name) == NormalizeName(fold, Some(a))
      <==> Words(Folded(fold, input.name)) == Words(Folded(fold, Some(a)))
    {
      SameNameExactly(fold, input.name, Some(a));
    }
  }

  lemma DescribesMeans(m: SanctionMatch, c: SanctionCandidate, how: MatchMethod)
    ensures Describes(m, c, how) <==> m == ToMatch(c, how)
  {
  }

  lemma BeforeMeans(a: SanctionMatch, b: SanctionMatch)
    ensures Before(a, b) <==> ListedBefore(a, b)
  {
    LessIsLexicographic(a.source, b.source);
    LessIsLexicographic(a.sourceEntityId, b.sourceEntityId);
    LessIsLexicographic(a.entityId, b.entityId);
    CompareStrLaws(a.source, b.source, "");
    CompareStrLaws(a.sourceEntityId, b.sourceEntityId, "");
    CompareStrLaws(a.entityId, b.entityId, "");
    hide Less, Precedes;
  }

  /** Some row carries one of the vessel's numbers. */
  ghost predicate ListedByNumber(imo: Option<string>, mmsi: Option<string>, rows: seq<SanctionCandidate>) {
    exists c :: c in rows && (CarriesImo(imo, c) || CarriesMmsi(mmsi, c))
  }

  /** A match by number: by its IMO number, or by its MMSI when no row with the IMO number is of the same entity. */
  ghost predicate NumberMatch(input: MatchInput, rows: seq<SanctionCandidate>, m: SanctionMatch) {
    exists c :: c in rows && (
      || (CarriesImo(input.imo, c) && Describes(m, c, ByImo))
      || (&& CarriesMmsi(input.mmsi, c) && Describes(m, c, ByMmsi)
          && forall d :: d in rows && CarriesImo(input.imo, d) ==> d.entityId != c.entityId))
  }

  ghost predicate NameMatch(fold: Fold, input: MatchInput, rows: seq<SanctionCandidate>, m: SanctionMatch) {
    exists c :: c in rows && BearsName(fold, input.name, c) && Describes(m, c, ByName)
  }

  /** Matches by IMO number come before those by MMSI; each kind is listed in order. */
  ghost predicate InListOrder(ms: seq<SanctionMatch>) {
    forall i, j :: 0 <= i < j < |ms| ==>
      if ms[i].matchMethod == ms[j].matchMethod then ListedBefore(ms[i], ms[j])
      else ms[i].matchMethod == ByImo && ms[j].matchMethod == ByMmsi
  }

  lemma BlockMembers(fold: Fold, input: MatchInput, how: MatchMethod, rows: seq<SanctionCandidate>, m: SanctionMatch)
    ensures m in Block(fold, input, how, Elements(rows)) <==>
      exists c :: c in rows && Hits(fold, input, how, c) && m == ToMatch(c, how)
  {
    hide Hits, ToMatch;
  }

  lemma NumberBlocks(fold: Fold, input: MatchInput, rows: seq<SanctionCandidate>, m: SanctionMatch)
    ensures
      var byImo, byMmsi := Block(fold, input, ByImo, Elements(rows)), Block(fold, input, ByMmsi, Elements(rows));
      NumberMatch(input, rows, m) <==> m in byImo || m in WithoutIds(byMmsi, byImo)
  {
    var byImo, byMmsi := Block(fold, input, ByImo, Elements(rows)), Block(fold, input, ByMmsi, Elements(rows));
    forall c ensures Hits(fold, input, ByImo, c) <==> CarriesImo(input.imo, c)
      ensures Hits(fold, input, ByMmsi, c) <==> CarriesMmsi(input.mmsi, c)
    {
      HitsMean(fold, input, c);
    }
    forall c, how ensures Describes(m, c, how) <==> m == ToMatch(c, how) { DescribesMeans(m, c, how); }
    BlockMembers(fold, input, ByImo, rows, m);
    BlockMembers(fold, input, ByMmsi, rows, m);
    NoSameEntity(fold, input, rows, m.entityId);
    hide Hits, CarriesImo, CarriesMmsi, Describes, ToMatch, Block;
    EntityOfMatch();
  }

  lemma EntityOfMatch()
    ensures forall c, how :: ToMatch(c, how).entityId == c.entityId
  {
  }

  lemma NoSameEntity(fold: Fold, input: MatchInput, rows: seq<SanctionCandidate>, entityId: string)
    ensures (forall l :: l in Block(fold, input, ByImo, Elements(rows)) ==> l.entityId != entityId) <==>
      (forall d :: d in rows && CarriesImo(input.imo, d) ==> d.entityId != entityId)
  {
    forall d | d in rows && CarriesImo(input.imo, d) ensures ToMatch(d, ByImo) in Block(fold, input, ByImo, Elements(rows)) {
      HitsMean(fold, input, d);
    }
    EntityOfMatch();
    forall d | d in rows && Hits(fold, input, ByImo, d) ensures CarriesImo(input.imo, d) { HitsMean(fold, input, d); }
    hide Hits, CarriesImo, ToMatch;
  }

  lemma NameBlock(fold: Fold, input: MatchInput, rows: seq<SanctionCandidate>, m: SanctionMatch)
    ensures NameMatch(fold, input, rows, m) <==> m in Block(fold, input, ByName, Elements(rows))
  {
    forall c ensures Hits(fold, input, ByName, c) <==> BearsName(fold, input.name, c) { NameHitsMean(fold, input, c); }
    forall c ensures Describes(m, c, ByName) <==> m == ToMatch(c, ByName) { DescribesMeans(m, c, ByName); }
    BlockMembers(fold, input, ByName, rows, m);
    hide Hits, BearsName, Describes, ToMatch, Block;
  }

  lemma IdentifiedMeans(fold: Fold, input: MatchInput, rows: seq<SanctionCandidate>)
    ensures Identified(fold, input, Elements(rows)) <==> ListedByNumber(input.imo, input.mmsi, rows)
  {
    forall c ensures Hits(fold, input, ByImo, c) <==> CarriesImo(input.imo, c)
      ensures Hits(fold, input, ByMmsi, c) <==> CarriesMmsi(input.mmsi, c)
    {
      HitsMean(fold, input, c);
    }
    hide Hits, CarriesImo, CarriesMmsi;
    assert forall c :: c in rows <==> c in Elements(rows);
  }

  lemma MethodOfBlock(fold: Fold, input: MatchInput, how: MatchMethod, rows: set<SanctionCandidate>)
    ensures forall m :: m in Block(fold, input, how, rows) ==> m.matchMethod == how
  {
    hide Hits;
  }

  lemma ListIsOrdered(fold: Fold, input: MatchInput, rows: set<SanctionCandidate>, ms: seq<SanctionMatch>, k: nat)
    requires k <= |ms|
    requires Lists(ms[..k], Block(fold, input, ByImo, rows))
    requires Lists(ms[k..], WithoutIds(Block(fold, input, ByMmsi, rows), Block(fold, input, ByImo, rows)))
    ensures InListOrder(ms)
    ensures forall m :: m in ms <==>
      || m in Block(fold, input, ByImo, rows)
      || m in WithoutIds(Block(fold, input, ByMmsi, rows), Block(fold, input, ByImo, rows))
  {
    MethodOfBlock(fold, input, ByImo, rows);
    MethodOfBlock(fold, input, ByMmsi, rows);
    hide Block, Before, ListedBefore;
    assert ms == ms[..k] + ms[k..];
    forall i, j | 0 <= i < j < |ms|
      ensures if ms[i].matchMethod == ms[j].matchMethod then ListedBefore(ms[i], ms[j])
        else ms[i].matchMethod == ByImo && ms[j].matchMethod == ByMmsi
    {
      BeforeMeans(ms[i], ms[j]);
      assert i < k ==> ms[i] == ms[..k][i] && ms[..k][i] in ms[..k];
      assert j < k ==> ms[j] == ms[..k][j] && ms[..k][j] in ms[..k];
      assert i >= k ==> ms[i] == ms[k..][i - k] && ms[k..][i - k] in ms[k..];
      assert j >= k ==> ms[j] == ms[k..][j - k] && ms[k..][j - k] in ms[k..];
    }
  }

  lemma NameListIsOrdered(fold: Fold, input: MatchInput, rows: set<SanctionCandidate>, ms: seq<SanctionMatch>)
    requires Lists(ms, Block(fold, input, ByName, rows))
    ensures InListOrder(ms)
  {
    MethodOfBlock(fold, input, ByName, rows);
    hide Block, Before, ListedBefore;
    forall i, j | 0 <= i < j < |ms|
      ensures ms[i].matchMethod == ms[j].matchMethod && ListedBefore(ms[i], ms[j])
    {
      BeforeMeans(ms[i], ms[j]);
      assert ms[i] in ms && ms[j] in ms;
    }
  }

  /**
   * With one row per entity: a vessel is `sanctioned` exactly when some row carries its IMO number or its MMSI, and
   * then its matches are those rows, an entity found by both listed for its IMO number only; otherwise it is a
   * `candidate` exactly when some row bears its name, and its matches are those rows; otherwise there are none. Each
   * match repeats its row, and they come in order of source, source id and entity, those by IMO number first.
   */
  lemma MatchSpelledOut(fold: Fold, input: MatchInput, rows: seq<SanctionCandidate>)
    requires UniqueRows(Elements(rows))
    ensures
      var r := Matched(fold, input, rows);
      && (r.status == Sanctioned <==> ListedByNumber(input.imo, input.mmsi, rows))
      && (r.status == Candidate <==>
            !ListedByNumber(input.imo, input.mmsi, rows) && exists c :: c in rows && BearsName(fold, input.name, c))
      && (forall m :: m in r.matches <==>
            if ListedByNumber(input.imo, input.mmsi, rows) then NumberMatch(input, rows, m) else NameMatch(fold, input, rows, m))
      && InListOrder(r.matches)
  {
    hide *;
    MatchIsCanonical(fold, input, rows);
    IdentifiedMeans(fold, input, rows);
    CanonicalMeans(fold, input, rows, Matched(fold, input, rows));
    forall m
      ensures NumberMatch(input, rows, m) <==> m in NumberBlock(fold, input, Elements(rows))
      ensures NameMatch(fold, input, rows, m) <==> m in Block(fold, input, ByName, Elements(rows))
    {
      NumberBlockMembers(fold, input, rows, m);
      NameBlock(fold, input, rows, m);
    }
    SomeName(fold, input, rows);
  }

  ghost function NumberBlock(fold: Fold, input: MatchInput, rows: set<SanctionCandidate>): set<SanctionMatch> {
    Block(fold, input, ByImo, rows) + WithoutIds(Block(fold, input, ByMmsi, rows), Block(fold, input, ByImo, rows))
  }

  lemma NumberBlockMembers(fold: Fold, input: MatchInput, rows: seq<SanctionCandidate>, m: SanctionMatch)
    ensures NumberMatch(input, rows, m) <==> m in NumberBlock(fold, input, Elements(rows))
  {
    NumberBlocks(fold, input, rows, m);
    hide NumberMatch, Block, WithoutIds;
  }

  lemma SomeName(fold: Fold, input: MatchInput, rows: seq<SanctionCandidate>)
    ensures Block(fold, input, ByName, Elements(rows)) != {} <==> exists c :: c in rows && BearsName(fold, input.name, c)
  {
    forall c ensures Hits(fold, input, ByName, c) <==> BearsName(fold, input.name, c) { NameHitsMean(fold, input, c); }
    hide Hits, BearsName, ToMatch;
    if c :| c in rows && BearsName(fold, input.name, c) {
      assert ToMatch(c, ByName) in Block(fold, input, ByName, Elements(rows));
    }
  }

  lemma CanonicalMeans(fold: Fold, input: MatchInput, rows: seq<SanctionCandidate>, r: MatchResult)
    requires Canonical(fold, input, Elements(rows), r)
    ensures
      var table := Elements(rows);
      && (r.status == Sanctioned <==> Identified(fold, input, table))
      && (r.status == Candidate <==> !Identified(fold, input, table) && Block(fold, input, ByName, table) != {})
      && (forall m :: m in r.matches <==>
            if Identified(fold, input, table) then m in NumberBlock(fold, input, table) else m in Block(fold, input, ByName, table))
      && InListOrder(r.matches)
  {
    var table := Elements(rows);
    SomeBlock(fold, input, table);
    var byImo, byMmsi := Block(fold, input, ByImo, table), Block(fold, input, ByMmsi, table);
    hide Block, Identified, InListOrder, WithoutIds;
    if byImo != {} || byMmsi != {} {
      var k: nat :| k <= |r.matches| && Lists(r.matches[..k], byImo) && Lists(r.matches[k..], WithoutIds(byMmsi, byImo));
      hide Lists;
      ListIsOrdered(fold, input, table, r.matches, k);
    } else {
      NameListIsOrdered(fold, input, table, r.matches);
    }
  }
}
