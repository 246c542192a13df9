/** One item compared across the stages that drop it, in pages (src/arknights_mcp/services/drops.py).
    The rows come from the database; reading a timestamp is a parameter. */
module Drops {
  import opened Json
  import opened Lists
  import opened Farming

  const PAGE_SIZE_MAX := 100

  datatype Row = Row(stageId: string, stageCode: Option<string>, sanityCost: Option<int>, rate: Option<real>,
                     times: Option<int>, expiresAt: string, snapshotId: string, importedAt: string)

  datatype Fact = Fact(row: Row, expired: bool)

  datatype Snapshot = Snapshot(snapshotId: string, importedAt: string)

  datatype Page = Page(page: int, size: int, total: int, hasMore: bool)

  datatype Status = NotFound | Fine | DataStale

  datatype ItemDrops = ItemDrops(status: Status, stages: seq<Fact>, stagesPage: Option<Page>,
                                 observation: Option<Observation>, efficiencyPage: Option<Page>,
                                 provenance: seq<Snapshot>, warnings: seq<Warning>, stale: bool)

  datatype PageError = BadPage(page: int) | BadSize(size: int)

  datatype Request = Request(stagesPage: int, stagesSize: int, efficiency: bool, efficiencyPage: int,
                             efficiencySize: int)

  // ---------------------------------------------------------------- pages

  /** `_validate_page` of services/stages.py, lines 553-566. */
  function ValidatePage(page: int, size: int): Result<(int, int), PageError> {
    if page < 1 then Err(BadPage(page))
    else if size < 1 || size > PAGE_SIZE_MAX then Err(BadSize(size))
    else Ok((page, size))
  }

  predicate ValidPage(page: int, size: int) { page >= 1 && 1 <= size <= 100 }

  function WrongWith(page: int, size: int): PageError { if page < 1 then BadPage(page) else BadSize(size) }

  /** `_section_page` of services/stages.py, lines 569-576. */
  function SectionPage(page: int, size: int, total: int): Page { Page(page, size, total, page * size < total) }

  /** A Python slice with bounds that are not negative. */
  function Clamp(i: int, n: nat): (k: nat)
    ensures k <= n
  {
    if i < 0 then 0 else if i > n then n else i
  }

  /** `s[(page - 1) * size : page * size]`. */
  function Slice<T>(s: seq<T>, page: int, size: int): seq<T>
    requires page >= 1 && size >= 1
  {
    PageIsForward(page, size);
    s[Clamp((page - 1) * size, |s|)..Clamp(page * size, |s|)]
  }

  lemma PageIsForward(page: int, size: int)
    requires page >= 1 && size >= 1
    ensures 0 <= (page - 1) * size < page * size
  {
    assert page * size == (page - 1) * size + size;
  }

  /** The first `n` pages, one after the other. */
  function FirstPages<T>(s: seq<T>, size: int, n: nat): seq<T>
    requires size >= 1
  {
    if n == 0 then [] else FirstPages(s, size, n - 1) + Slice(s, n, size)
  }

  lemma {:induction false} FirstPagesArePrefix<T>(s: seq<T>, size: int, n: nat)
    requires size >= 1
    ensures FirstPages(s, size, n) == s[..Clamp(n * size, |s|)]
  {
    if n > 0 {
      FirstPagesArePrefix(s, size, n - 1);
      PageIsForward(n, size);
    }
  }

  /** Following `hasMore` reaches the end and nothing is repeated or skipped: the pages up to the first
      one without more are the whole list. */
  lemma PagesAreTheList<T>(s: seq<T>, size: int, n: nat)
    requires size >= 1 && n >= 1
    ensures !SectionPage(n, size, |s|).hasMore ==> FirstPages(s, size, n) == s
    ensures SectionPage(n, size, |s|).hasMore <==> Slice(s, n + 1, size) != []
  {
    FirstPagesArePrefix(s, size, n);
    PageIsForward(n, size);
    PageIsForward(n + 1, size);
  }

  // ---------------------------------------------------------------- specification

  /** `_is_expired`: an unreadable expiry counts as expired. */
  predicate IsExpired(expiresAt: string, now: int, parse: string -> Option<int>) {
    match parse(expiresAt) case None => true case Some(t) => now >= t
  }

  function FactOf(now: int, parse: string -> Option<int>): Row -> Fact {
    (r: Row) => Fact(r, IsExpired(r.expiresAt, now, parse))
  }

  function DropOf(): Fact -> ItemStageDrop {
    (f: Fact) => ItemStageDrop(f.row.stageCode, f.row.stageId, f.row.sanityCost, f.row.rate, f.row.times, f.expired)
  }

  function Candidates(facts: seq<Fact>): seq<Candidate> { ItemCandidates(Map(facts, DropOf())) }

  predicate AnyStale(facts: seq<Fact>) { exists i :: 0 <= i < |facts| && facts[i].expired }

  function SnapshotOf(f: Fact): Snapshot { Snapshot(f.row.snapshotId, f.row.importedAt) }

  /** Distinct snapshots in order of first appearance. */
  function Provenance(facts: seq<Fact>): seq<Snapshot> {
    if facts == [] then []
    else
      var past, s := Provenance(facts[..|facts| - 1]), SnapshotOf(facts[|facts| - 1]);
      if s in past then past else past + [s]
  }

  /** The dictionary `facts_by_id`: the last fact of an id. */
  function FactsById(facts: seq<Fact>): map<string, Fact> {
    if facts == [] then map[] else FactsById(facts[..|facts| - 1])[facts[|facts| - 1].row.stageId := facts[|facts| - 1]]
  }

  lemma {:induction false} FactsByIdHolds(facts: seq<Fact>)
    ensures forall id :: id in FactsById(facts) ==>
              FactsById(facts)[id] in facts && FactsById(facts)[id].row.stageId == id
    ensures forall f :: f in facts ==> f.row.stageId in FactsById(facts)
  {
    if facts != [] {
      FactsByIdHolds(facts[..|facts| - 1]);
      assert facts == facts[..|facts| - 1] + [facts[|facts| - 1]];
    }
  }

  predicate Named(rows: seq<RankingRow>, facts: map<string, Fact>) {
    forall i :: 0 <= i < |rows| ==> rows[i].id in facts
  }

  /** The facts of some rows, by their ids. */
  function Realigned(rows: seq<RankingRow>, facts: map<string, Fact>): (r: seq<Fact>)
    requires Named(rows, facts)
    ensures |r| == |rows| && forall i :: 0 <= i < |r| ==> r[i] == facts[rows[i].id]
  {
    seq(|rows|, i requires 0 <= i < |rows| => facts[rows[i].id])
  }

  function CandidateOf(f: Fact): Candidate { OfStage()(DropOf()(f)) }

  lemma CandidatesAt(facts: seq<Fact>)
    ensures |Candidates(facts)| == |facts|
    ensures forall i :: 0 <= i < |facts| ==> Candidates(facts)[i] == CandidateOf(facts[i])
  {
    MapAt(facts, DropOf());
    MapAt(Map(facts, DropOf()), OfStage());
  }

  /** A ranked drop is a fact, and found under its id. */
  lemma RankedIsAFact(facts: seq<Fact>, c: Candidate)
    requires c in Ranked(Candidates(facts))
    ensures exists f :: f in facts && CandidateOf(f) == c
    ensures c.id in FactsById(facts)
  {
    var cs := Candidates(facts);
    CandidatesAt(facts);
    EveryDropOnce(cs);
    assert c in multiset(Ranked(cs));
    assert c in multiset(cs);
    var j :| 0 <= j < |cs| && cs[j] == c;
    assert facts[j] in facts && CandidateOf(facts[j]) == c;
    FactsByIdHolds(facts);
  }

  /** Every ranked row names a fact. */
  lemma RowsNameFacts(facts: seq<Fact>, round: real -> real)
    ensures Named(Ranking(Candidates(facts), round), FactsById(facts))
  {
    var order := Ranked(Candidates(facts));
    MapAt(order, ShapeRow(round));
    forall i | 0 <= i < |order| ensures order[i].id in FactsById(facts) {
      RankedIsAFact(facts, order[i]);
    }
  }

  lemma SliceIsNamed(rows: seq<RankingRow>, facts: map<string, Fact>, page: int, size: int)
    requires Named(rows, facts) && page >= 1 && size >= 1
    ensures Named(Slice(rows, page, size), facts)
  {
  }

  /** The answer for an item that some stage drops. */
  function Answer(facts: seq<Fact>, q: Request, round: real -> real): ItemDrops
    requires ValidPage(q.stagesPage, q.stagesSize) && ValidPage(q.efficiencyPage, q.efficiencySize)
  {
    if !q.efficiency then
      PlainAnswer(facts, q.stagesPage, q.stagesSize, [])
    else if Ranking(Candidates(facts), round) == [] then
      PlainAnswer(facts, q.stagesPage, q.stagesSize, Map(Excluded(Candidates(facts)), WarningOf))
    else
      RowsNameFacts(facts, round);
      RankedAnswer(facts, q.efficiencyPage, q.efficiencySize, Ranking(Candidates(facts), round),
                   Map(Excluded(Candidates(facts)), WarningOf))
  }

  function StatusOf(facts: seq<Fact>): Status { if AnyStale(facts) then DataStale else Fine }

  function PlainAnswer(facts: seq<Fact>, page: int, size: int, warnings: seq<Warning>): ItemDrops
    requires page >= 1 && size >= 1
  {
    ItemDrops(StatusOf(facts), Slice(facts, page, size), Some(SectionPage(page, size, |facts|)), None, None,
              Provenance(facts), warnings, AnyStale(facts))
  }

  function RankedAnswer(facts: seq<Fact>, page: int, size: int, ranking: seq<RankingRow>,
                        warnings: seq<Warning>): ItemDrops
    requires page >= 1 && size >= 1 && Named(ranking, FactsById(facts))
  {
    SliceIsNamed(ranking, FactsById(facts), page, size);
    ItemDrops(StatusOf(facts), Realigned(Slice(ranking, page, size), FactsById(facts)), None,
              Some(Observation(CONF_STABLE, Slice(ranking, page, size), ITEM_CAVEATS + Hoisted(ranking))),
              Some(SectionPage(page, size, |ranking|)), Provenance(facts), warnings, AnyStale(facts))
  }

  // ---------------------------------------------------------------- what an answer says of the rows

  /** A row is past its expiry; an expiry that cannot be read counts as past. */
  ghost predicate Lapsed(r: Row, now: int, parse: string -> Option<int>) {
    parse(r.expiresAt).None? || parse(r.expiresAt).value <= now
  }

  /** The drop that a row states. */
  ghost predicate States(r: Row, c: Candidate, now: int, parse: string -> Option<int>) {
    c.id == r.stageId && c.name == r.stageCode && c.code == (if r.stageCode.Some? then r.stageCode.value else "")
    && c.cost == r.sanityCost && c.rate == r.rate && c.sample == r.times && (c.expired <==> Lapsed(r, now, parse))
  }

  ghost predicate AllState(rows: seq<Row>, cs: seq<Candidate>, now: int, parse: string -> Option<int>) {
    |cs| == |rows| && forall i :: 0 <= i < |rows| ==> States(rows[i], cs[i], now, parse)
  }

  ghost predicate IsFact(f: Fact, r: Row, now: int, parse: string -> Option<int>) {
    f.row == r && (f.expired <==> Lapsed(r, now, parse))
  }

  /** How many of `total` elements are on a page. */
  ghost predicate PageHolds(page: int, size: int, total: nat, n: nat) {
    var from := (page - 1) * size;
    n == if from >= total then 0 else if from + size <= total then size else total - from
  }

  /** The page of facts as they are. */
  ghost predicate ShowsRows(a: ItemDrops, rows: seq<Row>, page: int, size: int, now: int,
                            parse: string -> Option<int>)
  {
    && a.observation.None? && a.efficiencyPage.None?
    && a.stagesPage == Some(Page(page, size, |rows|, page * size < |rows|))
    && PageHolds(page, size, |rows|, |a.stages|)
    && forall i :: 0 <= i < |a.stages| ==>
         var k := (page - 1) * size + i; 0 <= k < |rows| && IsFact(a.stages[i], rows[k], now, parse)
  }

  /** The page of a comparison: each fact under the figure of its own row, cheapest first. */
  ghost predicate ShowsRanking(a: ItemDrops, rows: seq<Row>, order: seq<Candidate>, page: int, size: int, now: int,
                               parse: string -> Option<int>, round: real -> real)
    requires a.observation.Some?
  {
    var o := a.observation.value;
    && a.stagesPage.None?
    && a.efficiencyPage == Some(Page(page, size, |order|, page * size < |order|))
    && o.confidence == 0.8 && Explains(o.limitations, [StageAvailability, FirstClear, Byproducts], order)
    && |o.ranking| == |a.stages| && PageHolds(page, size, |order|, |a.stages|)
    && forall i :: 0 <= i < |a.stages| ==>
         var k := (page - 1) * size + i;
         0 <= k < |order| && Serves(o.ranking[i], a.stages[i], order[k], rows, now, parse, round)
  }

  /** A row of the ranking beside its fact, both of the one drop `c`. */
  ghost predicate Serves(served: RankingRow, f: Fact, c: Candidate, rows: seq<Row>, now: int,
                         parse: string -> Option<int>, round: real -> real)
  {
    Shows(served, c, round) && f.row in rows && IsFact(f, f.row, now, parse) && States(f.row, c, now, parse)
  }

  /** The comparison: every row is ranked or warned about, once. */
  ghost predicate Compares(a: ItemDrops, rows: seq<Row>, q: Request, now: int, parse: string -> Option<int>,
                           round: real -> real, cs: seq<Candidate>, order: seq<Candidate>, left: seq<Candidate>)
  {
    && AllState(rows, cs, now, parse) && Divided(cs, order, left)
    && |a.warnings| == |left| && (forall i :: 0 <= i < |left| ==> Warns(a.warnings[i], left[i]))
    && (if a.observation.None? then order == [] && ShowsRows(a, rows, q.stagesPage, q.stagesSize, now, parse)
        else order != [] && ShowsRanking(a, rows, order, q.efficiencyPage, q.efficiencySize, now, parse, round))
  }

  ghost predicate OneRowPerStage(rows: seq<Row>) {
    forall i, j :: 0 <= i < j < |rows| ==> rows[i].stageId != rows[j].stageId
  }

  lemma FactsAre(rows: seq<Row>, now: int, parse: string -> Option<int>)
    ensures var facts := Map(rows, FactOf(now, parse));
            |facts| == |rows| && (forall i :: 0 <= i < |rows| ==> IsFact(facts[i], rows[i], now, parse))
            && AllState(rows, Candidates(facts), now, parse) && (OneRowPerStage(rows) ==> UniqueStages(facts))
  {
    MapAt(rows, FactOf(now, parse));
    CandidatesAt(Map(rows, FactOf(now, parse)));
  }

  lemma SliceAt<T>(s: seq<T>, page: int, size: int)
    requires page >= 1 && size >= 1
    ensures PageHolds(page, size, |s|, |Slice(s, page, size)|)
    ensures forall i :: 0 <= i < |Slice(s, page, size)| ==>
              0 <= (page - 1) * size + i < |s| && Slice(s, page, size)[i] == s[(page - 1) * size + i]
  {
    PageIsForward(page, size);
  }

  lemma PlainAnswerShowsRows(rows: seq<Row>, page: int, size: int, now: int, parse: string -> Option<int>,
                             warnings: seq<Warning>)
    requires ValidPage(page, size)
    ensures ShowsRows(PlainAnswer(Map(rows, FactOf(now, parse)), page, size, warnings), rows, page, size, now, parse)
  {
    FactsAre(rows, now, parse);
    SliceAt(Map(rows, FactOf(now, parse)), page, size);
  }

  lemma RankedFactIs(rows: seq<Row>, facts: seq<Fact>, c: Candidate, now: int, parse: string -> Option<int>,
                     round: real -> real)
    requires facts == Map(rows, FactOf(now, parse)) && UniqueStages(facts) && c in Ranked(Candidates(facts))
    requires Positive(c)
    ensures c.id in FactsById(facts) && Serves(RowOf(c, round), FactsById(facts)[c.id], c, rows, now, parse, round)
  {
    RankedIsAFact(facts, c);
    FactsByIdHolds(facts);
    FactsAre(rows, now, parse);
    RowShows(c, round);
    var f := FactsById(facts)[c.id];
    var j :| 0 <= j < |facts| && facts[j] == f;
    assert IsFact(facts[j], rows[j], now, parse);
  }

  lemma RankedFactsAre(rows: seq<Row>, facts: seq<Fact>, now: int, parse: string -> Option<int>, round: real -> real,
                       ranking: seq<RankingRow>, order: seq<Candidate>)
    requires facts == Map(rows, FactOf(now, parse)) && UniqueStages(facts)
    requires order == Ranked(Candidates(facts)) && ranking == Map(order, ShapeRow(round))
    ensures |ranking| == |order|
    ensures forall k :: 0 <= k < |order| ==>
              ranking[k].id in FactsById(facts)
              && Serves(ranking[k], FactsById(facts)[ranking[k].id], order[k], rows, now, parse, round)
  {
    MapAt(order, ShapeRow(round));
    EveryDropOnce(Candidates(facts));
    forall k | 0 <= k < |order|
      ensures ranking[k].id in FactsById(facts)
      ensures Serves(ranking[k], FactsById(facts)[ranking[k].id], order[k], rows, now, parse, round)
    {
      RankedFactIs(rows, facts, order[k], now, parse, round);
    }
  }

  lemma {:induction false} RankedPageServes(rows: seq<Row>, facts: seq<Fact>, page: int, size: int, now: int,
                                            parse: string -> Option<int>, round: real -> real,
                                            ranking: seq<RankingRow>, part: seq<RankingRow>)
    requires ValidPage(page, size) && facts == Map(rows, FactOf(now, parse)) && UniqueStages(facts)
    requires ranking == Ranking(Candidates(facts), round) && part == Slice(ranking, page, size)
    ensures var order := Ranked(Candidates(facts));
            |order| == |ranking| && PageHolds(page, size, |order|, |part|)
            && forall i :: 0 <= i < |part| ==>
                 var k := (page - 1) * size + i;
                 0 <= k < |order| && part[i].id in FactsById(facts)
                 && Serves(part[i], FactsById(facts)[part[i].id], order[k], rows, now, parse, round)
  {
    RankedFactsAre(rows, facts, now, parse, round, ranking, Ranked(Candidates(facts)));
    SliceAt(ranking, page, size);
  }

  lemma {:induction false} RankedAnswerShows(rows: seq<Row>, facts: seq<Fact>, page: int, size: int, now: int,
                                             parse: string -> Option<int>, round: real -> real,
                                             ranking: seq<RankingRow>, warnings: seq<Warning>)
    requires ValidPage(page, size) && facts == Map(rows, FactOf(now, parse)) && UniqueStages(facts)
    requires ranking == Ranking(Candidates(facts), round) && Named(ranking, FactsById(facts))
    ensures ShowsRanking(RankedAnswer(facts, page, size, ranking, warnings), rows, Ranked(Candidates(facts)), page,
                         size, now, parse, round)
  {
    SliceIsNamed(ranking, FactsById(facts), page, size);
    RankedPageServes(rows, facts, page, size, now, parse, round, ranking, Slice(ranking, page, size));
    HoistedExplains(ITEM_CAVEATS, Ranked(Candidates(facts)), round);
  }

  lemma AnswerCompares(rows: seq<Row>, facts: seq<Fact>, q: Request, now: int, parse: string -> Option<int>,
                       round: real -> real)
    requires ValidPage(q.stagesPage, q.stagesSize) && ValidPage(q.efficiencyPage, q.efficiencySize)
    requires OneRowPerStage(rows) && facts == Map(rows, FactOf(now, parse)) && q.efficiency
    ensures var cs := Candidates(facts);
            Compares(Answer(facts, q, round), rows, q, now, parse, round, cs, Ranked(cs), Excluded(cs))
  {
    var cs := Candidates(facts);
    var ranking, warnings := Ranking(cs, round), Map(Excluded(cs), WarningOf);
    FactsAre(rows, now, parse);
    EveryDropOnce(cs);
    MapAt(Ranked(cs), ShapeRow(round));
    MapAt(Excluded(cs), WarningOf);
    forall i | 0 <= i < |warnings| ensures Warns(warnings[i], Excluded(cs)[i]) {
      WarningWarns(Excluded(cs)[i]);
    }
    if ranking == [] {
      PlainAnswerShowsRows(rows, q.stagesPage, q.stagesSize, now, parse, warnings);
    } else {
      RowsNameFacts(facts, round);
      RankedAnswerShows(rows, facts, q.efficiencyPage, q.efficiencySize, now, parse, round, ranking, warnings);
    }
  }

  // ---------------------------------------------------------------- the code

  /** `_item_provenance`. */
  method ItemProvenance(facts: seq<Fact>) returns (provenance: seq<Snapshot>)
    ensures provenance == Provenance(facts)
  {
    var seen: set<Snapshot> := {};
    provenance := [];
    for i := 0 to |facts|
      invariant provenance == Provenance(facts[..i]) && seen == Elements(provenance)
    {
      assert facts[..i + 1][..i] == facts[..i];
      var key := SnapshotOf(facts[i]);
      if key in seen {
        continue;
      }
      ElementsAppend(provenance, [key]);
      seen := seen + {key};
      provenance := provenance + [key];
    }
    assert facts[..|facts|] == facts;
  }

  method IndexFacts(facts: seq<Fact>) returns (m: map<string, Fact>)
    ensures m == FactsById(facts)
  {
    m := map[];
    for i := 0 to |facts|
      invariant m == FactsById(facts[..i])
    {
      assert facts[..i + 1][..i] == facts[..i];
      m := m[facts[i].row.stageId := facts[i]];
    }
    assert facts[..|facts|] == facts;
  }

  /** Lines 577-646: the answer for an item with rows. */
  method CompareStages(rows: seq<Row>, q: Request, now: int, parse: string -> Option<int>, round: real -> real)
    returns (a: ItemDrops)
    requires ValidPage(q.stagesPage, q.stagesSize) && ValidPage(q.efficiencyPage, q.efficiencySize)
    ensures a == Answer(Map(rows, FactOf(now, parse)), q, round)
  {
    var facts := Map(rows, FactOf(now, parse));
    var stale := exists i :: 0 <= i < |facts| && facts[i].expired;
    var status := if stale then DataStale else Fine;
    var provenance := ItemProvenance(facts);
    var warnings: seq<Warning> := [];
    if q.efficiency {
      var analysis := AnalyzeItemFarming(Map(facts, DropOf()), round);
      warnings := analysis.warnings;
      if analysis.observation.Some? {
        var full := analysis.observation.value;
        var pageRows := Slice(full.ranking, q.efficiencyPage, q.efficiencySize);
        var factsById := IndexFacts(facts);
        RowsNameFacts(facts, round);
        SliceIsNamed(full.ranking, factsById, q.efficiencyPage, q.efficiencySize);
        return ItemDrops(status, Realigned(pageRows, factsById), None, Some(full.(ranking := pageRows)),
                         Some(SectionPage(q.efficiencyPage, q.efficiencySize, |full.ranking|)), provenance, warnings,
                         stale);
      }
    }
    a := ItemDrops(status, Slice(facts, q.stagesPage, q.stagesSize),
                   Some(SectionPage(q.stagesPage, q.stagesSize, |facts|)), None, None, provenance, warnings, stale);
  }

  /** `get_item_drops`. `known` says whether the item itself was found. */
  method GetItemDrops(known: bool, rows: seq<Row>, q: Request, now: int, parse: string -> Option<int>,
                      round: real -> real)
    returns (r: Result<ItemDrops, PageError>)
    ensures r.Err? <==> !ValidPage(q.stagesPage, q.stagesSize) || !ValidPage(q.efficiencyPage, q.efficiencySize)
    ensures r.Err? ==>
              r.error == if ValidPage(q.stagesPage, q.stagesSize) then WrongWith(q.efficiencyPage, q.efficiencySize)
                         else WrongWith(q.stagesPage, q.stagesSize)
    ensures r.Ok? && !known ==> r.value == ItemDrops(NotFound, [], None, None, None, [], [], false)
    ensures r.Ok? && known && rows == [] ==> r.value == ItemDrops(Fine, [], None, None, None, [], [], false)
    ensures r.Ok? && known && rows != [] ==> r.value == Answer(Map(rows, FactOf(now, parse)), q, round)
    ensures r.Ok? && known && rows != [] && !q.efficiency ==>
              ShowsRows(r.value, rows, q.stagesPage, q.stagesSize, now, parse) && r.value.warnings == []
    ensures r.Ok? && known && rows != [] && q.efficiency && OneRowPerStage(rows) ==>
              exists cs, order, left :: Compares(r.value, rows, q, now, parse, round, cs, order, left)
  {
    var stagesPage := ValidatePage(q.stagesPage, q.stagesSize);
    if stagesPage.Err? {
      return Err(stagesPage.error);
    }
    var efficiencyPage := ValidatePage(q.efficiencyPage, q.efficiencySize);
    if efficiencyPage.Err? {
      return Err(efficiencyPage.error);
    }
    if !known {
      return Ok(ItemDrops(NotFound, [], None, None, None, [], [], false));
    }
    if rows == [] {
      return Ok(ItemDrops(Fine, [], None, None, None, [], [], false));
    }
    var a := CompareStages(rows, q, now, parse, round);
    if !q.efficiency {
      PlainAnswerShowsRows(rows, q.stagesPage, q.stagesSize, now, parse, []);
    } else if OneRowPerStage(rows) {
      AnswerCompares(rows, Map(rows, FactOf(now, parse)), q, now, parse, round);
    }
    r := Ok(a);
  }

  // ---------------------------------------------------------------- main results

  /** The provenance of the full set: each snapshot behind some stage, once. */
  lemma {:induction false} ProvenanceExactly(facts: seq<Fact>)
    ensures Distinct(Provenance(facts))
    ensures forall s :: s in Provenance(facts) <==> exists f :: f in facts && SnapshotOf(f) == s
  {
    if facts != [] {
      var past, last := facts[..|facts| - 1], facts[|facts| - 1];
      ProvenanceExactly(past);
      assert facts == past + [last];
      assert forall f :: f in facts <==> f in past || f == last;
    }
  }

  /** What does not depend on the page asked for: the verdict is stale exactly when some row of the whole
      set has expired, the provenance is that of all rows, and each row is ranked or warned about. */
  lemma VerdictOfAllRows(rows: seq<Row>, q: Request, now: int, parse: string -> Option<int>, round: real -> real)
    requires ValidPage(q.stagesPage, q.stagesSize) && ValidPage(q.efficiencyPage, q.efficiencySize)
    ensures var a := Answer(Map(rows, FactOf(now, parse)), q, round);
            (a.stale <==> exists i :: 0 <= i < |rows| && Lapsed(rows[i], now, parse))
            && a.status == (if a.stale then DataStale else Fine)
            && Distinct(a.provenance)
            && (forall s :: s in a.provenance <==>
                  exists i :: 0 <= i < |rows| && s == Snapshot(rows[i].snapshotId, rows[i].importedAt))
            && (q.efficiency ==>
                  |a.warnings| + (if a.observation.Some? then a.efficiencyPage.value.total else 0) == |rows|)
  {
    var facts := Map(rows, FactOf(now, parse));
    MapAt(rows, FactOf(now, parse));
    ProvenanceOfRows(rows, facts);
    CandidatesAt(facts);
    DividedSizes(Candidates(facts));
    MapAt(Excluded(Candidates(facts)), WarningOf);
    MapAt(Ranked(Candidates(facts)), ShapeRow(round));
  }

  lemma {:induction false} ProvenanceOfRows(rows: seq<Row>, facts: seq<Fact>)
    requires |facts| == |rows| && forall i :: 0 <= i < |rows| ==> facts[i].row == rows[i]
    ensures Distinct(Provenance(facts))
    ensures forall s :: s in Provenance(facts) <==>
              exists i :: 0 <= i < |rows| && s == Snapshot(rows[i].snapshotId, rows[i].importedAt)
  {
    ProvenanceExactly(facts);
    forall i | 0 <= i < |rows|
      ensures facts[i] in facts && SnapshotOf(facts[i]) == Snapshot(rows[i].snapshotId, rows[i].importedAt)
    {
    }
    forall f | f in facts
      ensures exists i :: 0 <= i < |rows| && SnapshotOf(f) == Snapshot(rows[i].snapshotId, rows[i].importedAt)
    {
      var i :| 0 <= i < |facts| && facts[i] == f;
      assert SnapshotOf(f) == Snapshot(rows[i].snapshotId, rows[i].importedAt);
    }
  }

  ghost predicate UniqueStages(facts: seq<Fact>) {
    forall f, g :: f in facts && g in facts && f.row.stageId == g.row.stageId ==> f == g
  }

  lemma RealignedAppend(rows: seq<RankingRow>, more: seq<RankingRow>, facts: map<string, Fact>)
    requires Named(rows, facts) && Named(more, facts)
    ensures Named(rows + more, facts)
    ensures Realigned(rows + more, facts) == Realigned(rows, facts) + Realigned(more, facts)
  {
  }

  /** The stages of the first `n` pages of the ranking, one page after the other. */
  function RankedPages(facts: seq<Fact>, size: int, n: nat, round: real -> real): seq<Fact>
    requires 1 <= size <= PAGE_SIZE_MAX
  {
    if n == 0 then []
    else RankedPages(facts, size, n - 1, round) + Answer(facts, Request(1, 1, true, n, size), round).stages
  }

  lemma RankedPageIs(facts: seq<Fact>, size: int, n: int, round: real -> real, rows: seq<RankingRow>)
    requires 1 <= size <= PAGE_SIZE_MAX && n >= 1
    requires rows == Ranking(Candidates(facts), round) && Named(rows, FactsById(facts))
    ensures Named(Slice(rows, n, size), FactsById(facts))
    ensures rows != [] ==>
              Answer(facts, Request(1, 1, true, n, size), round).stages
              == Realigned(Slice(rows, n, size), FactsById(facts))
    ensures Answer(facts, Request(1, 1, true, n, size), round).efficiencyPage
         == if rows == [] then None else Some(SectionPage(n, size, |rows|))
  {
    SliceIsNamed(rows, FactsById(facts), n, size);
  }

  lemma {:induction false} RankedPagesAreRealigned(facts: seq<Fact>, size: int, n: nat, round: real -> real,
                                                   rows: seq<RankingRow>)
    requires 1 <= size <= PAGE_SIZE_MAX && rows != []
    requires rows == Ranking(Candidates(facts), round) && Named(rows, FactsById(facts))
    ensures Named(FirstPages(rows, size, n), FactsById(facts))
    ensures RankedPages(facts, size, n, round) == Realigned(FirstPages(rows, size, n), FactsById(facts))
  {
    if n > 0 {
      RankedPagesAreRealigned(facts, size, n - 1, round, rows);
      RankedPageIs(facts, size, n, round, rows);
      RealignedAppend(FirstPages(rows, size, n - 1), Slice(rows, n, size), FactsById(facts));
    }
  }

  /** The facts of all ranked rows, each stated by the drop that is ranked there. */
  ghost predicate ServesAll(served: seq<Fact>, rows: seq<Row>, now: int, parse: string -> Option<int>,
                            cs: seq<Candidate>, order: seq<Candidate>, left: seq<Candidate>)
  {
    && AllState(rows, cs, now, parse) && Divided(cs, order, left) && |served| == |order|
    && forall i :: 0 <= i < |served| ==>
         served[i].row in rows && IsFact(served[i], served[i].row, now, parse)
         && States(served[i].row, order[i], now, parse)
  }

  /** Page after page, until there is no more, serves the row of every rankable stage exactly once, cheapest
      first. */
  lemma PagesServeTheRanking(rows: seq<Row>, facts: seq<Fact>, size: int, n: nat, now: int,
                             parse: string -> Option<int>, round: real -> real)
    requires 1 <= size <= PAGE_SIZE_MAX && n >= 1 && OneRowPerStage(rows) && facts == Map(rows, FactOf(now, parse))
    requires var q := Request(1, 1, true, n, size);
             Answer(facts, q, round).efficiencyPage.Some? && !Answer(facts, q, round).efficiencyPage.value.hasMore
    ensures exists cs, order, left :: ServesAll(RankedPages(facts, size, n, round), rows, now, parse, cs, order, left)
  {
    var cs, ranking := Candidates(facts), Ranking(Candidates(facts), round);
    RowsNameFacts(facts, round);
    RankedPageIs(facts, size, n, round, ranking);
    RankedPagesAreRealigned(facts, size, n, round, ranking);
    PagesAreTheList(ranking, size, n);
    FactsAre(rows, now, parse);
    EveryDropOnce(cs);
    RankedFactsAre(rows, facts, now, parse, round, ranking, Ranked(cs));
    assert ServesAll(Realigned(ranking, FactsById(facts)), rows, now, parse, cs, Ranked(cs), Excluded(cs));
  }
}
