/** `vessel-enrichment.requester.ts`: the fingerprint that decides whether a vessel is matched again. */
module EnrichmentRequests {
  import opened Wrappers
  import opened Names
  import opened NameWords
  import opened Contracts
  import opened Matcher
  import opened SanctionsLookup

  datatype Profile = Profile(imo: Option<string>, name: Option<string>)

  /** Serialization and digest of the two fields, as one given function. */
  type Hash = (string, string) -> string

  ghost predicate Injective(hash: Hash) {
    forall a, b, c, d :: hash(a, b) == hash(c, d) ==> a == c && b == d
  }

  function ProfileHashFor(hash: Hash, fold: Fold, p: Profile): string {
    hash(p.imo.GetOr(""), NormalizeName(fold, p.name))
  }

  datatype Trigger = Discovered | ProfileChanged | Stale

  function Decide(cachedProfile: Option<string>, cachedChecked: Option<string>, candidateHash: string): Option<Trigger> {
    if cachedProfile.None? then Some(Discovered)
    else if cachedProfile.value != candidateHash then Some(ProfileChanged)
    else if cachedChecked.None? then Some(Stale)
    else None
  }

  function InputOf(mmsi: Option<string>, p: Profile): MatchInput {
    MatchInput(p.imo, mmsi, p.name)
  }

  /** What the matcher sees of a profile. */
  lemma HashDeterminesHits(
    hash: Hash, fold: Fold, mmsi: Option<string>, p: Profile, q: Profile, how: MatchMethod, c: SanctionCandidate)
    requires Injective(hash) && ProfileHashFor(hash, fold, p) == ProfileHashFor(hash, fold, q)
    ensures Hits(fold, InputOf(mmsi, p), how, c) == Hits(fold, InputOf(mmsi, q), how, c)
  {
  }

  lemma {:induction false} SameHitsSameRows(
    fold: Fold, i: MatchInput, j: MatchInput, how: MatchMethod, cs: seq<SanctionCandidate>)
    requires forall c :: Hits(fold, i, how, c) == Hits(fold, j, how, c)
    ensures Filtered(fold, i, how, cs) == Filtered(fold, j, how, cs)
  {
    if cs != [] { SameHitsSameRows(fold, i, j, how, cs[1..]); }
  }

  /** Two profiles of one vessel with the same hash match alike, against any candidates. */
  lemma HashDeterminesMatch(
    hash: Hash, fold: Fold, mmsi: Option<string>, p: Profile, q: Profile, cs: seq<SanctionCandidate>)
    requires Injective(hash) && ProfileHashFor(hash, fold, p) == ProfileHashFor(hash, fold, q)
    ensures Matched(fold, InputOf(mmsi, p), cs) == Matched(fold, InputOf(mmsi, q), cs)
  {
    var i, j := InputOf(mmsi, p), InputOf(mmsi, q);
    forall how ensures Filtered(fold, i, how, cs) == Filtered(fold, j, how, cs) {
      forall c ensures Hits(fold, i, how, c) == Hits(fold, j, how, c) {
        HashDeterminesHits(hash, fold, mmsi, p, q, how, c);
      }
      SameHitsSameRows(fold, i, j, how, cs);
    }
  }

  /** The two profiles have the same IMO number, an empty one counting as none, and the same words in their names. */
  predicate SameProfile(fold: Fold, p: Profile, q: Profile) {
    p.imo.GetOr("") == q.imo.GetOr("") && Words(Folded(fold, p.name)) == Words(Folded(fold, q.name))
  }

  /**
   * Why a vessel is queued, told from the profile that its last enrichment saw: it is new when there was none, changed
   * when that profile differs, stale when it is the same and the check has expired, and it is skipped otherwise.
   */
  lemma TriggersExactly(hash: Hash, fold: Fold, last: Option<Profile>, checked: Option<string>, asked: Profile)
    requires Injective(hash)
    ensures
      var cached := if last.Some? then Some(ProfileHashFor(hash, fold, last.value)) else None;
      Decide(cached, checked, ProfileHashFor(hash, fold, asked)) ==
        if last.None? then Some(Discovered)
        else if !SameProfile(fold, last.value, asked) then Some(ProfileChanged)
        else if checked.None? then Some(Stale)
        else None
  {
    if last.Some? { SameNameExactly(fold, last.value.name, asked.name); }
    hide Words, Folded, NormalizeName;
  }

  /**
   * A request is skipped exactly when the last enrichment has not expired and saw a profile with the same IMO number
   * and the same normalized name; matching the skipped profile would then give what matching that one gave.
   */
  lemma SkippingIsSound(
    hash: Hash, fold: Fold, mmsi: Option<string>, enriched: Profile, asked: Profile, checked: Option<string>, cs: seq<SanctionCandidate>)
    requires Injective(hash)
    ensures var decision := Decide(Some(ProfileHashFor(hash, fold, enriched)), checked, ProfileHashFor(hash, fold, asked));
      && (decision.None? <==>
            checked.Some? && enriched.imo.GetOr("") == asked.imo.GetOr("")
            && NormalizeName(fold, enriched.name) == NormalizeName(fold, asked.name))
      && (decision.None? ==> Matched(fold, InputOf(mmsi, enriched), cs) == Matched(fold, InputOf(mmsi, asked), cs))
  {
    if ProfileHashFor(hash, fold, enriched) == ProfileHashFor(hash, fold, asked) {
      HashDeterminesMatch(hash, fold, mmsi, enriched, asked, cs);
    }
  }

  // ----- What the fingerprint does not cover -----

  /**
   * The lookup by name compares spellings, which the hash forgets. Two profiles of one vessel with the same hash find
   * the same matches exactly when some row carries one of the vessel's numbers, or no name is left after
   * normalization, or the same rows are spelled either way.
   */
  lemma HashDeterminesLookup(
    hash: Hash, fold: Fold, mmsi: Option<string>, p: Profile, q: Profile, scan: seq<SanctionCandidate>, ps: Answers, qs: Answers)
    requires Injective(hash) && ProfileHashFor(hash, fold, p) == ProfileHashFor(hash, fold, q)
    requires UniqueRows(Elements(scan))
    requires FromTable(fold, InputOf(mmsi, p), Elements(scan), ps) && FromTable(fold, InputOf(mmsi, q), Elements(scan), qs)
    ensures Lookup(fold, InputOf(mmsi, p), ps) == Lookup(fold, InputOf(mmsi, q), qs) <==>
            || Identified(fold, InputOf(mmsi, p), Elements(scan))
            || NormalizeName(fold, p.name) == ""
            || (forall c | c in scan :: Spelled(p.name.GetOr(""), c) <==> Spelled(q.name.GetOr(""), c))
  {
    var i, j, table := InputOf(mmsi, p), InputOf(mmsi, q), Elements(scan);
    forall how, c ensures Hits(fold, i, how, c) == Hits(fold, j, how, c) {
      HashDeterminesHits(hash, fold, mmsi, p, q, how, c);
    }
    if Identified(fold, i, table) {
      IndexAgreesWithScan(fold, i, scan, ps);
      IndexAgreesWithScan(fold, j, scan, qs);
      HashDeterminesMatch(hash, fold, mmsi, p, q, scan);
    } else {
      HashDeterminesNameLookup(fold, i, j, scan, ps, qs);
    }
  }

  lemma HashDeterminesNameLookup(
    fold: Fold, i: MatchInput, j: MatchInput, scan: seq<SanctionCandidate>, ia: Answers, ja: Answers)
    requires NormalizeName(fold, i.name) == NormalizeName(fold, j.name)
    requires forall how, c :: Hits(fold, i, how, c) == Hits(fold, j, how, c)
    requires UniqueRows(Elements(scan)) && !Identified(fold, i, Elements(scan))
    requires FromTable(fold, i, Elements(scan), ia) && FromTable(fold, j, Elements(scan), ja)
    ensures Lookup(fold, i, ia) == Lookup(fold, j, ja) <==>
            || NormalizeName(fold, i.name) == ""
            || (forall c | c in scan :: Spelled(i.name.GetOr(""), c) <==> Spelled(j.name.GetOr(""), c))
  {
    var some, others := Elements(NameRows(fold, i, ia)), Elements(NameRows(fold, j, ja));
    NameResult(fold, i, scan, ia);
    NameResult(fold, j, scan, ja);
    hide Lookup, NameRows, FromTable, Hits, Lists, Spelled, NormalizeName;
    assert Block(fold, j, ByName, others) == Block(fold, i, ByName, others);
    hide Block;
    SameBlocks(fold, i, some, others);
    EqualNameResults(fold, i, some, others, Lookup(fold, i, ia), Lookup(fold, j, ja));
  }

  /** Skipping can therefore keep a result that a fresh lookup would not give. */
  lemma RespelledNameIsSkipped(hash: Hash, fold: Fold, row: SanctionCandidate)
    requires Injective(hash) && fold("A") == fold("a") == "a"
    requires row.name == "A" && row.aliases == [] && row.imo == None && row.mmsi == None
    ensures var p, q, scan := Profile(None, Some("A")), Profile(None, Some("a")), [row];
      && Decide(Some(ProfileHashFor(hash, fold, p)), Some("checked"), ProfileHashFor(hash, fold, q)) == None
      && FromTable(fold, InputOf(None, p), Elements(scan), Answers([], [], scan))
      && FromTable(fold, InputOf(None, q), Elements(scan), Answers([], [], []))
      && Lookup(fold, InputOf(None, p), Answers([], [], scan)) != Lookup(fold, InputOf(None, q), Answers([], [], []))
  {
    var p, q, scan := Profile(None, Some("A")), Profile(None, Some("a")), [row];
    assert Collapse("a") == "a";
    assert NormalizeName(fold, Some("A")) == NormalizeName(fold, Some("a")) == "a";
    HashDeterminesLookup(hash, fold, None, p, q, scan, Answers([], [], scan), Answers([], [], []));
  }
}
