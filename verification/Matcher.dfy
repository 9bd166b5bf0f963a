/** `matcher.ts`: which listed entities a vessel matches, and in which order. */
module Matcher {
  import opened Wrappers
  import opened Names
  import opened StableSort
  import opened Contracts

  datatype SanctionCandidate = SanctionCandidate(
    entityId: string, source: string, sourceEntityId: string, name: string, imo: Option<string>, mmsi: Option<string>,
    aliases: seq<string>, flag: Option<string>, listingDate: Option<string>, programs: seq<string>)

  datatype MatchInput = MatchInput(imo: Option<string>, mmsi: Option<string>, name: Option<string>)

  datatype MatchResult = MatchResult(status: SanctionsStatus, matches: seq<SanctionMatch>)

  /** A string that a condition of the original takes as true. */
  predicate Truthy(s: Option<string>) {
    s.Some? && s.value != ""
  }

  function ToMatch(row: SanctionCandidate, how: MatchMethod): SanctionMatch {
    SanctionMatch(row.entityId, row.source, row.sourceEntityId, row.name, how, row.aliases, row.flag, row.listingDate, row.programs)
  }

  /** The row satisfies the filter of one of the three stages. */
  predicate Hits(fold: Fold, input: MatchInput, how: MatchMethod, c: SanctionCandidate) {
    match how
    case ByImo => Truthy(input.imo) && c.imo == input.imo
    case ByMmsi => Truthy(input.mmsi) && c.mmsi == input.mmsi
    case ByName =>
      var normalized := NormalizeName(fold, input.name);
      normalized != "" &&
      (NormalizeName(fold, Some(c.name)) == normalized
       || exists a | a in c.aliases :: NormalizeName(fold, Some(a)) == normalized)
  }

  /** One stage's `filter` and `map`. */
  function Filtered(fold: Fold, input: MatchInput, how: MatchMethod, cs: seq<SanctionCandidate>): seq<SanctionMatch> {
    if cs == [] then []
    else (if Hits(fold, input, how, cs[0]) then [ToMatch(cs[0], how)] else []) + Filtered(fold, input, how, cs[1..])
  }

  // ----- The order -----

  function ByMatchOrder(a: SanctionMatch, b: SanctionMatch): int {
    var bySource := CompareStr(a.source, b.source);
    var bySourceId := CompareStr(a.sourceEntityId, b.sourceEntityId);
    if bySource != 0 then bySource
    else if bySourceId != 0 then bySourceId
    else CompareStr(a.entityId, b.entityId)
  }

  predicate Le(a: SanctionMatch, b: SanctionMatch) {
    ByMatchOrder(a, b) <= 0
  }

  lemma CompareStrLaws(a: string, b: string, c: string)
    ensures CompareStr(a, b) == 0 <==> a == b
    ensures CompareStr(a, b) == -CompareStr(b, a)
    ensures CompareStr(a, b) < 0 && CompareStr(b, c) < 0 ==> CompareStr(a, c) < 0
  {
    LessIrreflexive(a);
    LessTotal(a, b);
    LessAsymmetric(a, b);
    if Less(a, b) && Less(b, c) { LessTransitive(a, b, c); }
  }

  lemma ByMatchOrderTransitive(x: SanctionMatch, y: SanctionMatch, z: SanctionMatch)
    requires Le(x, y) && Le(y, z)
    ensures Le(x, z)
  {
    CompareStrLaws(x.source, y.source, z.source);
    CompareStrLaws(y.source, z.source, x.source);
    CompareStrLaws(x.sourceEntityId, y.sourceEntityId, z.sourceEntityId);
    CompareStrLaws(y.sourceEntityId, z.sourceEntityId, x.sourceEntityId);
    CompareStrLaws(x.entityId, y.entityId, z.entityId);
    CompareStrLaws(y.entityId, z.entityId, x.entityId);
    hide CompareStr;
  }

  lemma ByMatchOrderTotal(x: SanctionMatch, y: SanctionMatch)
    ensures Le(x, y) || Le(y, x)
    ensures Le(x, y) && Le(y, x) ==> x.entityId == y.entityId
  {
    CompareStrLaws(x.source, y.source, "");
    CompareStrLaws(x.sourceEntityId, y.sourceEntityId, "");
    CompareStrLaws(x.entityId, y.entityId, "");
    hide CompareStr;
  }

  /** The comparator is a total preorder, as `sort` demands, and only one entity's matches can tie. */
  lemma ByMatchOrderIsTotalPreorder()
    ensures TotalPreorder(Le)
    ensures forall x, y :: Le(x, y) && Le(y, x) ==> x.entityId == y.entityId
  {
    hide Le;
    forall x, y ensures (Le(x, y) || Le(y, x)) && (Le(x, y) && Le(y, x) ==> x.entityId == y.entityId) {
      ByMatchOrderTotal(x, y);
    }
    forall x, y, z | Le(x, y) && Le(y, z) ensures Le(x, z) {
      ByMatchOrderTransitive(x, y, z);
    }
  }

  // ----- The three stages -----

  function Ids(ms: seq<SanctionMatch>): set<string> {
    set m | m in ms :: m.entityId
  }

  /** The matches whose entity has not been listed before. */
  function Unseen(seen: set<string>, ms: seq<SanctionMatch>): seq<SanctionMatch>
    decreases |ms|
  {
    if ms == [] then []
    else if ms[0].entityId in seen then Unseen(seen, ms[1..])
    else [ms[0]] + Unseen(seen + {ms[0].entityId}, ms[1..])
  }

  function Stage(
    fold: Fold, input: MatchInput, how: MatchMethod, cs: seq<SanctionCandidate>, seen: set<string>): seq<SanctionMatch>
  {
    Unseen(seen, Sort(Le, Filtered(fold, input, how, cs)))
  }

  function Matched(fold: Fold, input: MatchInput, cs: seq<SanctionCandidate>): MatchResult {
    var byImo := Stage(fold, input, ByImo, cs, {});
    var byMmsi := Stage(fold, input, ByMmsi, cs, Ids(byImo));
    var byName := Stage(fold, input, ByName, cs, {});
    if byImo + byMmsi != [] then MatchResult(Sanctioned, byImo + byMmsi)
    else if byName != [] then MatchResult(Candidate, byName)
    else MatchResult(Clear, [])
  }

  /** The loop that ends each stage. */
  method AddUnseen(seen: set<string>, out: seq<SanctionMatch>, ms: seq<SanctionMatch>)
    returns (seen': set<string>, out': seq<SanctionMatch>)
    requires seen == Ids(out)
    ensures out' == out + Unseen(seen, ms)
    ensures seen' == Ids(out')
  {
    seen', out' := seen, out;
    for i := 0 to |ms|
      invariant seen' == Ids(out')
      invariant out' + Unseen(seen', ms[i..]) == out + Unseen(seen, ms)
    {
      assert ms[i..] == [ms[i]] + ms[i + 1..];
      if ms[i].entityId !in seen' {
        seen' := seen' + {ms[i].entityId};
        out' := out' + [ms[i]];
        assert out' + Unseen(seen', ms[i + 1..]) == out'[..|out'| - 1] + ([ms[i]] + Unseen(seen', ms[i + 1..]));
      }
    }
  }

  lemma {:induction false} NoHitsNoRows(fold: Fold, input: MatchInput, how: MatchMethod, cs: seq<SanctionCandidate>)
    requires forall c | c in cs :: !Hits(fold, input, how, c)
    ensures Filtered(fold, input, how, cs) == []
  {
    if cs != [] { NoHitsNoRows(fold, input, how, cs[1..]); }
  }

  method Match(fold: Fold, input: MatchInput, candidates: seq<SanctionCandidate>) returns (r: MatchResult)
    ensures r == Matched(fold, input, candidates)
  {
    hide Unseen, Filtered, Sort;
    assert Ids([]) == {};
    var seen: set<string>, out: seq<SanctionMatch> := {}, [];
    if Truthy(input.imo) {
      seen, out := AddUnseen(seen, out, Sort(Le, Filtered(fold, input, ByImo, candidates)));
    } else {
      EmptyStage(fold, input, ByImo, candidates, {});
    }
    ghost var byImo := out;
    assert byImo == Stage(fold, input, ByImo, candidates, {});
    assert seen == Ids(byImo);
    if Truthy(input.mmsi) {
      seen, out := AddUnseen(seen, out, Sort(Le, Filtered(fold, input, ByMmsi, candidates)));
    } else {
      EmptyStage(fold, input, ByMmsi, candidates, seen);
    }
    assert out == byImo + Stage(fold, input, ByMmsi, candidates, Ids(byImo));
    if |out| > 0 {
      return MatchResult(Sanctioned, out);
    }
    assert out == [] && seen == {};
    if |NormalizeName(fold, input.name)| > 0 {
      seen, out := AddUnseen(seen, out, Sort(Le, Filtered(fold, input, ByName, candidates)));
    } else {
      EmptyStage(fold, input, ByName, candidates, {});
    }
    assert out == Stage(fold, input, ByName, candidates, {});
    if |out| == 0 {
      return MatchResult(Clear, []);
    }
    r := MatchResult(Candidate, out);
  }

  lemma EmptyStage(fold: Fold, input: MatchInput, how: MatchMethod, cs: seq<SanctionCandidate>, seen: set<string>)
    requires forall c | c in cs :: !Hits(fold, input, how, c)
    ensures Stage(fold, input, how, cs, seen) == []
  {
    NoHitsNoRows(fold, input, how, cs);
  }

  // ----- No repeated entity -----

  ghost predicate DistinctIds(ms: seq<SanctionMatch>) {
    forall i, j :: 0 <= i < j < |ms| ==> ms[i].entityId != ms[j].entityId
  }

  lemma {:induction false} UnseenIsDistinct(seen: set<string>, ms: seq<SanctionMatch>)
    ensures DistinctIds(Unseen(seen, ms))
    ensures forall m | m in Unseen(seen, ms) :: m.entityId !in seen
    decreases |ms|
  {
    if ms != [] {
      UnseenIsDistinct(seen, ms[1..]);
      UnseenIsDistinct(seen + {ms[0].entityId}, ms[1..]);
    }
  }

  /** No entity is listed twice, whatever the candidates are. */
  lemma NoEntityIsListedTwice(fold: Fold, input: MatchInput, cs: seq<SanctionCandidate>)
    ensures DistinctIds(Matched(fold, input, cs).matches)
  {
    var byImo := Stage(fold, input, ByImo, cs, {});
    var byMmsi := Stage(fold, input, ByMmsi, cs, Ids(byImo));
    UnseenIsDistinct({}, Sort(Le, Filtered(fold, input, ByImo, cs)));
    UnseenIsDistinct(Ids(byImo), Sort(Le, Filtered(fold, input, ByMmsi, cs)));
    UnseenIsDistinct({}, Sort(Le, Filtered(fold, input, ByName, cs)));
    forall i, j | 0 <= i < |byImo| && 0 <= j < |byMmsi| ensures byImo[i].entityId != byMmsi[j].entityId {
      assert byMmsi[j] in byMmsi && byImo[i] in byImo;
    }
  }

  // ----- The result, from the set of candidate rows alone -----

  /** An entity id belongs to one row, as the table's primary key says. */
  ghost predicate UniqueRows(rows: set<SanctionCandidate>) {
    forall c, d | c in rows && d in rows && c.entityId == d.entityId :: c == d
  }

  ghost function Block(
    fold: Fold, input: MatchInput, how: MatchMethod, rows: set<SanctionCandidate>): set<SanctionMatch>
  {
    set c | c in rows && Hits(fold, input, how, c) :: ToMatch(c, how)
  }

  ghost predicate Before(a: SanctionMatch, b: SanctionMatch) {
    ByMatchOrder(a, b) < 0
  }

  /** `s` lists exactly `block`, in strictly increasing match order. */
  ghost predicate Lists(s: seq<SanctionMatch>, block: set<SanctionMatch>) {
    && (forall i, j :: 0 <= i < j < |s| ==> Before(s[i], s[j]))
    && (forall m :: m in s <==> m in block)
  }

  ghost function WithoutIds(block: set<SanctionMatch>, listed: set<SanctionMatch>): set<SanctionMatch> {
    set m | m in block && (forall l | l in listed :: l.entityId != m.entityId)
  }

  /**
   * What a result must be: the complete IMO block in order, then the complete MMSI block in order without the entities
   * already listed; the name block in order only when both are empty; and the status says which blocks there are.
   */
  ghost predicate Canonical(fold: Fold, input: MatchInput, rows: set<SanctionCandidate>, r: MatchResult) {
    var byImo := Block(fold, input, ByImo, rows);
    var byMmsi := Block(fold, input, ByMmsi, rows);
    var byName := Block(fold, input, ByName, rows);
    if byImo != {} || byMmsi != {} then
      && r.status == Sanctioned
      && exists k: nat | k <= |r.matches| :: Lists(r.matches[..k], byImo) && Lists(r.matches[k..], WithoutIds(byMmsi, byImo))
    else
      && Lists(r.matches, byName)
      && r.status == if byName != {} then Candidate else Clear
  }

  lemma {:induction false} FilteredMembers(
    fold: Fold, input: MatchInput, how: MatchMethod, cs: seq<SanctionCandidate>, m: SanctionMatch)
    ensures m in Filtered(fold, input, how, cs) <==> m in Block(fold, input, how, Elements(cs))
  {
    if cs != [] {
      FilteredMembers(fold, input, how, cs[1..], m);
      assert cs == [cs[0]] + cs[1..];
      assert forall c :: c in cs <==> c == cs[0] || c in cs[1..];
    }
  }

  ghost predicate OneMatchPerId(ms: seq<SanctionMatch>) {
    forall m, n | m in ms && n in ms && m.entityId == n.entityId :: m == n
  }

  lemma {:induction false} UnseenMembers(seen: set<string>, ms: seq<SanctionMatch>, m: SanctionMatch)
    requires OneMatchPerId(ms)
    ensures m in Unseen(seen, ms) <==> m in ms && m.entityId !in seen
    decreases |ms|
  {
    if ms != [] {
      assert ms == [ms[0]] + ms[1..];
      UnseenMembers(seen, ms[1..], m);
      UnseenMembers(seen + {ms[0].entityId}, ms[1..], m);
    }
  }

  lemma {:induction false} UnseenIsSorted(seen: set<string>, ms: seq<SanctionMatch>)
    requires Sorted(Le, ms)
    ensures Sorted(Le, Unseen(seen, ms))
    ensures forall m | m in Unseen(seen, ms) :: m in ms
    decreases |ms|
  {
    if ms != [] {
      UnseenIsSorted(seen, ms[1..]);
      UnseenIsSorted(seen + {ms[0].entityId}, ms[1..]);
      assert forall m | m in ms[1..] :: Le(ms[0], m);
    }
  }

  /** A stage lists the block of its method, without the entities already seen. */
  lemma StageLists(fold: Fold, input: MatchInput, how: MatchMethod, cs: seq<SanctionCandidate>, seen: set<string>)
    requires UniqueRows(Elements(cs))
    ensures Lists(Stage(fold, input, how, cs, seen), set m | m in Block(fold, input, how, Elements(cs)) && m.entityId !in seen)
  {
    var filtered := Filtered(fold, input, how, cs);
    var sorted := Sort(Le, filtered);
    var out := Unseen(seen, sorted);
    forall m ensures m in sorted <==> m in Block(fold, input, how, Elements(cs)) {
      FilteredMembers(fold, input, how, cs, m);
      SortMembers(Le, filtered, m);
    }
    hide Filtered, Sort, Hits, Unseen, Le, ByMatchOrder;
    assert OneMatchPerId(sorted);
    ByMatchOrderIsTotalPreorder();
    SortSorts(Le, filtered);
    UnseenIsSorted(seen, sorted);
    UnseenIsDistinct(seen, sorted);
    forall m ensures m in out <==> m in sorted && m.entityId !in seen {
      UnseenMembers(seen, sorted, m);
    }
    forall i, j | 0 <= i < j < |out| ensures Before(out[i], out[j]) {
      StrictOrder(out[i], out[j]);
    }
  }

  lemma StrictOrder(a: SanctionMatch, b: SanctionMatch)
    requires Le(a, b) && a.entityId != b.entityId
    ensures Before(a, b)
  {
    CompareStrLaws(a.source, b.source, "");
    CompareStrLaws(a.sourceEntityId, b.sourceEntityId, "");
    CompareStrLaws(a.entityId, b.entityId, "");
    hide CompareStr;
  }

  lemma BeforeIsStrict(a: SanctionMatch, b: SanctionMatch)
    ensures !(Before(a, b) && Before(b, a))
  {
    CompareStrLaws(a.source, b.source, "");
    CompareStrLaws(a.sourceEntityId, b.sourceEntityId, "");
    CompareStrLaws(a.entityId, b.entityId, "");
    hide CompareStr;
  }

  lemma ListsEmpty(s: seq<SanctionMatch>, block: set<SanctionMatch>)
    requires Lists(s, block)
    ensures s == [] <==> block == {}
  {
    if s != [] { assert s[0] in s; }
    if block != {} {
      var m := Pick(block);
      assert m in s;
    }
  }

  /** `match` gives a canonical result. */
  lemma MatchIsCanonical(fold: Fold, input: MatchInput, cs: seq<SanctionCandidate>)
    requires UniqueRows(Elements(cs))
    ensures Canonical(fold, input, Elements(cs), Matched(fold, input, cs))
  {
    var rows := Elements(cs);
    var one := Stage(fold, input, ByImo, cs, {});
    var two := Stage(fold, input, ByMmsi, cs, Ids(one));
    var three := Stage(fold, input, ByName, cs, {});
    var byImo, byMmsi, byName := Block(fold, input, ByImo, rows), Block(fold, input, ByMmsi, rows), Block(fold, input, ByName, rows);
    StageLists(fold, input, ByImo, cs, {});
    StageLists(fold, input, ByMmsi, cs, Ids(one));
    StageLists(fold, input, ByName, cs, {});
    hide Block, Stage, Before, Hits;
    assert Lists(one, byImo);
    assert Lists(three, byName);
    assert Lists(two, WithoutIds(byMmsi, byImo));
    ListsEmpty(one, byImo);
    ListsEmpty(two, WithoutIds(byMmsi, byImo));
    ListsEmpty(three, byName);
    if byImo != {} || byMmsi != {} {
      if byImo == {} {
        assert WithoutIds(byMmsi, byImo) == byMmsi;
      }
      var all := one + two;
      assert all[..|one|] == one && all[|one|..] == two;
    } else {
      assert WithoutIds(byMmsi, byImo) == {};
    }
  }

  lemma {:induction false} ListingIsUnique(s: seq<SanctionMatch>, t: seq<SanctionMatch>, block: set<SanctionMatch>)
    requires Lists(s, block) && Lists(t, block)
    ensures s == t
  {
    ListsEmpty(s, block);
    ListsEmpty(t, block);
    hide Before;
    if s != [] {
      FirstOfListing(s, t, block);
      assert s == [s[0]] + s[1..] && t == [t[0]] + t[1..];
      RestLists(s, block);
      RestLists(t, block);
      ListingIsUnique(s[1..], t[1..], block - {s[0]});
    }
  }

  lemma FirstOfListing(s: seq<SanctionMatch>, t: seq<SanctionMatch>, block: set<SanctionMatch>)
    requires Lists(s, block) && Lists(t, block) && s != [] && t != []
    ensures s[0] == t[0]
  {
    assert s[0] in s && t[0] in t;
    assert s[0] in t && t[0] in s;
    BeforeIsStrict(s[0], t[0]);
    hide Before;
  }

  lemma RestLists(s: seq<SanctionMatch>, block: set<SanctionMatch>)
    requires Lists(s, block) && s != []
    ensures Lists(s[1..], block - {s[0]})
  {
    assert s == [s[0]] + s[1..];
    BeforeIsStrict(s[0], s[0]);
    hide Before;
    assert s[0] in s;
    forall m ensures m in s[1..] <==> m in block - {s[0]} {
      assert m in s <==> m == s[0] || m in s[1..];
      if m in s[1..] { assert Before(s[0], m); }
    }
  }

  /** Only one result is canonical. */
  lemma CanonicalIsUnique(fold: Fold, input: MatchInput, rows: set<SanctionCandidate>, r: MatchResult, q: MatchResult)
    requires Canonical(fold, input, rows, r) && Canonical(fold, input, rows, q)
    ensures r == q
  {
    var byImo, byMmsi, byName := Block(fold, input, ByImo, rows), Block(fold, input, ByMmsi, rows), Block(fold, input, ByName, rows);
    hide Block, Before, Lists;
    if byImo != {} || byMmsi != {} {
      var i: nat :| i <= |r.matches| && Lists(r.matches[..i], byImo) && Lists(r.matches[i..], WithoutIds(byMmsi, byImo));
      var j: nat :| j <= |q.matches| && Lists(q.matches[..j], byImo) && Lists(q.matches[j..], WithoutIds(byMmsi, byImo));
      ListingIsUnique(r.matches[..i], q.matches[..j], byImo);
      ListingIsUnique(r.matches[i..], q.matches[j..], WithoutIds(byMmsi, byImo));
      assert r.matches == r.matches[..i] + r.matches[i..] && q.matches == q.matches[..j] + q.matches[j..];
    } else {
      ListingIsUnique(r.matches, q.matches, byName);
    }
  }

  /** Permuting or repeating the candidates changes nothing. */
  lemma OrderAndRepeatsDoNotMatter(fold: Fold, input: MatchInput, cs: seq<SanctionCandidate>, ds: seq<SanctionCandidate>)
    requires UniqueRows(Elements(cs)) && Elements(cs) == Elements(ds)
    ensures Matched(fold, input, cs) == Matched(fold, input, ds)
  {
    MatchIsCanonical(fold, input, cs);
    MatchIsCanonical(fold, input, ds);
    CanonicalIsUnique(fold, input, Elements(cs), Matched(fold, input, cs), Matched(fold, input, ds));
  }

  /** With two different rows for one entity, the order of the candidates shows. */
  lemma TwoRowsForAnEntityShowTheOrder(fold: Fold)
    ensures exists input, cs, ds :: Elements(cs) == Elements(ds) && Matched(fold, input, cs) != Matched(fold, input, ds)
  {
    var input := MatchInput(Some("9"), None, None);
    var c := SanctionCandidate("e", "s", "x", "A", Some("9"), None, [], None, None, []);
    var d := c.(name := "B");
    var m, n := ToMatch(c, ByImo), ToMatch(d, ByImo);
    BothHit(fold, input, c, d);
    BothHit(fold, input, d, c);
    TieOrder(m, n);
    TieOrder(n, m);
    assert Elements([c, d]) == Elements([d, c]);
    assert Stage(fold, input, ByImo, [c, d], {})[0].name == "A";
    assert Stage(fold, input, ByImo, [d, c], {})[0].name == "B";
    assert Matched(fold, input, [c, d]).matches[0].name == "A";
    assert Matched(fold, input, [d, c]).matches[0].name == "B";
  }

  lemma BothHit(fold: Fold, input: MatchInput, c: SanctionCandidate, d: SanctionCandidate)
    requires Hits(fold, input, ByImo, c) && Hits(fold, input, ByImo, d)
    ensures Filtered(fold, input, ByImo, [c, d]) == [ToMatch(c, ByImo), ToMatch(d, ByImo)]
  {
    assert [c, d][1..] == [d] && [d][1..] == [];
    assert Filtered(fold, input, ByImo, [d]) == [ToMatch(d, ByImo)] + Filtered(fold, input, ByImo, []);
  }

  lemma TieOrder(m: SanctionMatch, n: SanctionMatch)
    requires m.entityId == n.entityId && m.source == n.source && m.sourceEntityId == n.sourceEntityId
    ensures Sort(Le, [m, n]) == [m, n] && Unseen({}, [m, n]) == [m]
  {
    LessIrreflexive(m.source);
    LessIrreflexive(m.sourceEntityId);
    LessIrreflexive(m.entityId);
    assert [m, n][1..] == [n] && [n][1..] == [];
    assert Sort(Le, [n]) == Insert(Le, n, Sort(Le, []));
    assert Insert(Le, m, [n]) == [m, n];
    var seen := {} + {m.entityId};
    assert Unseen({}, [m, n]) == [m] + Unseen(seen, [n]);
    assert Unseen(seen, [n]) == Unseen(seen, []);
  }
}
