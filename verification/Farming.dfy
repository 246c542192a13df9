/** Sanity per item: one stage's drops, or one item across stages, ranked
    (src/arknights_mcp/analyzers/farming.py). Rounding for display is a parameter. */
module Farming {
  import opened Json
  import opened Lists

  const SAMPLE_SIZE_FLOOR := 100
  const CONF_STABLE := 0.8
  const CONF_THIN_SAMPLE := 0.3
  const CONF_EXPIRED := 0.3
  const RECOMMENDATION_THRESHOLD := 0.5

  datatype Flag = ThinSample | SampleUnreported

  datatype RankingRow = RankingRow(id: string, name: Option<string>, sanityPerItem: real, confidence: Option<real>,
                                   expired: bool, flags: seq<Flag>)

  datatype Limitation = StageAvailability | FirstClear | Byproducts | ExpiredCaveat | FlagCaveat(flag: Flag)

  datatype Observation = Observation(confidence: real, ranking: seq<RankingRow>, limitations: seq<Limitation>)

  /** A warning names what is missing and, but for a whole stage, where. */
  datatype Warning = StageCostMissing | CostMissing(ref: string) | RateMissing(ref: string)

  datatype Analysis = Analysis(observation: Option<Observation>, warnings: seq<Warning>)

  datatype DropFact = DropFact(itemId: string, itemName: Option<string>, rate: Option<real>, sample: Option<int>)

  datatype FarmingContext = FarmingContext(sanityCost: Option<int>, drops: seq<DropFact>, expired: bool)

  datatype ItemStageDrop = ItemStageDrop(stageCode: Option<string>, stageId: string, sanityCost: Option<int>,
                                         rate: Option<real>, sample: Option<int>, expired: bool)

  // ---------------------------------------------------------------- one figure

  datatype Efficiency = Efficiency(sanityPerItem: real, confidence: real, flags: seq<Flag>)

  function Min(x: real, y: real): real { if y < x then y else x }

  /** `_efficiency`: each condition lowers the confidence on its own. */
  method ComputeEfficiency(sanityCost: int, dropRate: real, sample: Option<int>, expired: bool) returns (e: Efficiency)
    requires sanityCost > 0 && dropRate > 0.0
    ensures e.sanityPerItem * dropRate == sanityCost as real
    ensures e.flags == FlagsOf(sample) && e.confidence == ConfidenceOf(sample, expired)
  {
    var flags := [];
    var confidence := CONF_STABLE;
    if expired {
      confidence := Min(confidence, CONF_EXPIRED);
    }
    if sample.Some? && sample.value < SAMPLE_SIZE_FLOOR {
      confidence := Min(confidence, CONF_THIN_SAMPLE);
      flags := flags + [ThinSample];
    }
    if sample.None? {
      confidence := Min(confidence, CONF_THIN_SAMPLE);
      flags := flags + [SampleUnreported];
    }
    e := Efficiency(sanityCost as real / dropRate, confidence, flags);
  }

  /** The sample markers exclude each other. */
  function FlagsOf(sample: Option<int>): seq<Flag> {
    if sample.None? then [SampleUnreported] else if sample.value < SAMPLE_SIZE_FLOOR then [ThinSample] else []
  }

  /** Fresh and well sampled is stable; anything else stays under the recommendation threshold. */
  function ConfidenceOf(sample: Option<int>, expired: bool): (c: real)
    ensures c >= RECOMMENDATION_THRESHOLD <==> !expired && FlagsOf(sample) == []
  {
    if expired then CONF_EXPIRED else if FlagsOf(sample) == [] then CONF_STABLE else CONF_THIN_SAMPLE
  }

  // ---------------------------------------------------------------- specification

  /** A drop as either view sees it: `code` and `id` are its identity in sort order. */
  datatype Candidate = Candidate(code: string, id: string, name: Option<string>, cost: Option<int>, rate: Option<real>,
                                 sample: Option<int>, expired: bool)

  predicate HasCost(c: Candidate) { c.cost.Some? && c.cost.value > 0 }

  predicate HasRate(c: Candidate) { c.rate.Some? && c.rate.value > 0.0 }

  predicate IsRankable(c: Candidate) { HasCost(c) && HasRate(c) }

  /** Sanity per item, exactly. */
  function Sanity(c: Candidate): real { if IsRankable(c) then c.cost.value as real / c.rate.value else 0.0 }

  predicate CodeLe(codeA: string, idA: string, codeB: string, idB: string) {
    TextLt(codeA, codeB) || (codeA == codeB && TextLe(idA, idB))
  }

  predicate ByCode(a: Candidate, b: Candidate) { CodeLe(a.code, a.id, b.code, b.id) }

  predicate BySanity(a: Candidate, b: Candidate) { Sanity(a) < Sanity(b) || (Sanity(a) == Sanity(b) && ByCode(a, b)) }

  function Rankable(cs: seq<Candidate>): seq<Candidate> {
    if cs == [] then [] else Rankable(cs[..|cs| - 1]) + (if IsRankable(cs[|cs| - 1]) then [cs[|cs| - 1]] else [])
  }

  function Unrankable(cs: seq<Candidate>): seq<Candidate> {
    if cs == [] then [] else Unrankable(cs[..|cs| - 1]) + (if IsRankable(cs[|cs| - 1]) then [] else [cs[|cs| - 1]])
  }

  /** The drops that get a row, in the order of their rows. */
  function Ranked(cs: seq<Candidate>): seq<Candidate> { Sort(Rankable(Sort(cs, ByCode)), BySanity) }

  /** The drops that get a warning, in the order of their warnings. */
  function Excluded(cs: seq<Candidate>): seq<Candidate> { Unrankable(Sort(cs, ByCode)) }

  /** A row omits its confidence unless it deviates. */
  function MakeRow(id: string, name: Option<string>, sanity: real, sample: Option<int>, expired: bool,
                   round: real -> real): RankingRow
  {
    var confidence := ConfidenceOf(sample, expired);
    RankingRow(id, name, round(sanity), if confidence == CONF_STABLE then None else Some(confidence), expired,
               FlagsOf(sample))
  }

  function RowOf(c: Candidate, round: real -> real): RankingRow {
    MakeRow(c.id, c.name, Sanity(c), c.sample, c.expired, round)
  }

  function ShapeRow(round: real -> real): Candidate -> RankingRow { (c: Candidate) => RowOf(c, round) }

  function Ranking(cs: seq<Candidate>, round: real -> real): seq<RankingRow> { Map(Ranked(cs), ShapeRow(round)) }

  function WarningOf(c: Candidate): Warning {
    var ref := if c.code != "" then c.id + " (" + c.code + ")" else c.id;
    if HasCost(c) then RateMissing(ref) else CostMissing(ref)
  }

  predicate AnyExpired(ranking: seq<RankingRow>) { exists i :: 0 <= i < |ranking| && ranking[i].expired }

  predicate AnyFlagged(ranking: seq<RankingRow>, flag: Flag) {
    exists i :: 0 <= i < |ranking| && flag in ranking[i].flags
  }

  function Caveats(expired: bool, thin: bool, unreported: bool): seq<Limitation> {
    (if expired then [ExpiredCaveat] else [])
    + (if thin then [FlagCaveat(ThinSample)] else [])
    + (if unreported then [FlagCaveat(SampleUnreported)] else [])
  }

  /** The caveats of the conditions present in a ranking, in a fixed order. */
  function Hoisted(ranking: seq<RankingRow>): seq<Limitation> {
    Caveats(AnyExpired(ranking), AnyFlagged(ranking, ThinSample), AnyFlagged(ranking, SampleUnreported))
  }

  function Observed(ranking: seq<RankingRow>, caveats: seq<Limitation>): Option<Observation> {
    if ranking == [] then None else Some(Observation(CONF_STABLE, ranking, caveats + Hoisted(ranking)))
  }

  const ITEM_CAVEATS: seq<Limitation> := [StageAvailability, FirstClear, Byproducts]

  function OfDrop(cost: Option<int>, expired: bool): DropFact -> Candidate {
    (d: DropFact) => Candidate("", d.itemId, d.itemName, cost, d.rate, d.sample, expired)
  }

  function OfStage(): ItemStageDrop -> Candidate {
    (d: ItemStageDrop) =>
      Candidate(CodeOrEmpty(d.stageCode), d.stageId, d.stageCode, d.sanityCost, d.rate, d.sample, d.expired)
  }

  function StageCandidates(ctx: FarmingContext): seq<Candidate> { Map(ctx.drops, OfDrop(ctx.sanityCost, ctx.expired)) }

  function ItemCandidates(drops: seq<ItemStageDrop>): seq<Candidate> { Map(drops, OfStage()) }

  // ---------------------------------------------------------------- what an answer says

  ghost predicate IsStageDrop(c: Candidate, d: ItemStageDrop) {
    c.id == d.stageId && c.name == d.stageCode && c.code == (if d.stageCode.Some? then d.stageCode.value else "")
    && c.cost == d.sanityCost && c.rate == d.rate && c.sample == d.sample && c.expired == d.expired
  }

  ghost predicate IsItemDrop(c: Candidate, d: DropFact, ctx: FarmingContext) {
    c.id == d.itemId && c.name == d.itemName && c.code == "" && c.cost == ctx.sanityCost && c.rate == d.rate
    && c.sample == d.sample && c.expired == ctx.expired
  }

  ghost predicate Positive(c: Candidate) { c.cost.Some? && c.cost.value > 0 && c.rate.Some? && c.rate.value > 0.0 }

  /** One row, from the figures of its drop. */
  ghost predicate Shows(row: RankingRow, c: Candidate, round: real -> real) {
    var thin := c.sample.Some? && c.sample.value < 100;
    Positive(c) && row.id == c.id && row.name == c.name
    && row.sanityPerItem == round(c.cost.value as real / c.rate.value) && row.expired == c.expired
    && row.flags == (if c.sample.None? then [SampleUnreported] else if thin then [ThinSample] else [])
    && row.confidence == if c.expired || c.sample.None? || thin then Some(0.3) else None
  }

  /** A warning names the drop and what it lacks, the cost before the rate. */
  ghost predicate Warns(w: Warning, c: Candidate) {
    var ref := if c.code == "" then c.id else c.id + " (" + c.code + ")";
    if c.cost.None? || c.cost.value <= 0 then w == CostMissing(ref)
    else (c.rate.None? || c.rate.value <= 0.0) && w == RateMissing(ref)
  }

  ghost predicate IdentityLe(a: Candidate, b: Candidate) {
    (TextLe(a.code, b.code) && a.code != b.code) || (a.code == b.code && TextLe(a.id, b.id))
  }

  /** Cheaper first, ties by code and id. */
  ghost predicate Precedes(a: Candidate, b: Candidate) {
    Positive(a) && Positive(b)
    && var x, y := a.cost.value as real / a.rate.value, b.cost.value as real / b.rate.value;
       x < y || (x == y && IdentityLe(a, b))
  }

  ghost predicate AnyLapsed(order: seq<Candidate>) { exists c :: c in order && c.expired }

  ghost predicate AnyThin(order: seq<Candidate>) {
    exists c :: c in order && c.sample.Some? && c.sample.value < 100
  }

  ghost predicate AnyUnreported(order: seq<Candidate>) { exists c :: c in order && c.sample.None? }

  /** The caveats that stand above a ranking: `first`, and one for each condition of some ranked drop. */
  ghost predicate Explains(limitations: seq<Limitation>, first: seq<Limitation>, order: seq<Candidate>) {
    limitations == first
      + (if AnyLapsed(order) then [ExpiredCaveat] else [])
      + (if AnyThin(order) then [FlagCaveat(ThinSample)] else [])
      + (if AnyUnreported(order) then [FlagCaveat(SampleUnreported)] else [])
  }

  /** The ranked drops, in their order, and the others, in theirs, are the drops there are. */
  ghost predicate Divided(cs: seq<Candidate>, order: seq<Candidate>, left: seq<Candidate>) {
    && multiset(order) + multiset(left) == multiset(cs)
    && (forall i :: 0 <= i < |order| ==> Positive(order[i]) && forall j :: 0 <= j < i ==> Precedes(order[j], order[i]))
    && (forall i :: 0 <= i < |left| ==> !Positive(left[i]) && forall j :: 0 <= j < i ==> IdentityLe(left[j], left[i]))
  }

  /** An answer reports each drop once: a row for each ranked one, a warning for each other. */
  ghost predicate Reports(a: Analysis, first: seq<Limitation>, cs: seq<Candidate>, order: seq<Candidate>,
                          left: seq<Candidate>, round: real -> real)
  {
    && Divided(cs, order, left)
    && |a.warnings| == |left| && (forall i :: 0 <= i < |left| ==> Warns(a.warnings[i], left[i]))
    && (a.observation.None? <==> order == [])
    && (a.observation.Some? ==>
          var o := a.observation.value;
          o.confidence == 0.8 && Explains(o.limitations, first, order) && |o.ranking| == |order|
          && forall i :: 0 <= i < |order| ==> Shows(o.ranking[i], order[i], round))
  }

  ghost predicate ReportsStages(a: Analysis, stages: seq<ItemStageDrop>, round: real -> real, cs: seq<Candidate>,
                                order: seq<Candidate>, left: seq<Candidate>)
  {
    && |cs| == |stages| && (forall i :: 0 <= i < |cs| ==> IsStageDrop(cs[i], stages[i]))
    && Reports(a, [StageAvailability, FirstClear, Byproducts], cs, order, left, round)
  }

  ghost predicate ReportsItems(a: Analysis, ctx: FarmingContext, round: real -> real, cs: seq<Candidate>,
                               order: seq<Candidate>, left: seq<Candidate>)
  {
    && |cs| == |ctx.drops| && (forall i :: 0 <= i < |cs| ==> IsItemDrop(cs[i], ctx.drops[i], ctx))
    && Reports(a, [], cs, order, left, round)
  }

  lemma {:induction false} UnrankableStaySorted(cs: seq<Candidate>)
    requires SortedBy(cs, ByCode)
    ensures SortedBy(Unrankable(cs), ByCode)
    ensures forall c :: c in Unrankable(cs) ==> c in cs
  {
    if cs != [] {
      var init, last := cs[..|cs| - 1], cs[|cs| - 1];
      UnrankableStaySorted(init);
      forall c | c in init ensures ByCode(c, last) {
        var i :| 0 <= i < |init| && init[i] == c;
      }
    }
  }

  lemma RowShows(c: Candidate, round: real -> real)
    requires Positive(c)
    ensures Shows(RowOf(c, round), c, round)
  {
  }

  lemma WarningWarns(c: Candidate)
    requires !Positive(c)
    ensures Warns(WarningOf(c), c)
  {
  }

  lemma ThinIsMarked(order: seq<Candidate>, round: real -> real)
    ensures AnyFlagged(Map(order, ShapeRow(round)), ThinSample) <==> AnyThin(order)
  {
    FlagIsMarked(order, round, ThinSample);
    if c :| c in order && c.sample.Some? && c.sample.value < 100 {
      assert ThinSample in FlagsOf(c.sample);
    }
  }

  lemma UnreportedIsMarked(order: seq<Candidate>, round: real -> real)
    ensures AnyFlagged(Map(order, ShapeRow(round)), SampleUnreported) <==> AnyUnreported(order)
  {
    FlagIsMarked(order, round, SampleUnreported);
    if c :| c in order && c.sample.None? {
      assert SampleUnreported in FlagsOf(c.sample);
    }
  }

  lemma HoistedExplains(first: seq<Limitation>, order: seq<Candidate>, round: real -> real)
    ensures Explains(first + Hoisted(Map(order, ShapeRow(round))), first, order)
  {
    ExpiredIsMarked(order, round);
    ThinIsMarked(order, round);
    UnreportedIsMarked(order, round);
    CaveatsAppend(first, AnyLapsed(order), AnyThin(order), AnyUnreported(order));
  }

  lemma CaveatsAppend(first: seq<Limitation>, expired: bool, thin: bool, unreported: bool)
    ensures first + Caveats(expired, thin, unreported) ==
            first + (if expired then [ExpiredCaveat] else []) + (if thin then [FlagCaveat(ThinSample)] else [])
            + (if unreported then [FlagCaveat(SampleUnreported)] else [])
  {
  }

  lemma {:induction false} AnswerReports(a: Analysis, cs: seq<Candidate>, first: seq<Limitation>, round: real -> real)
    requires a == Analysis(Observed(Ranking(cs, round), first), Map(Excluded(cs), WarningOf))
    ensures Reports(a, first, cs, Ranked(cs), Excluded(cs), round)
  {
    var rows, order, left := Ranking(cs, round), Ranked(cs), Excluded(cs);
    EveryDropOnce(cs);
    MapAt(order, ShapeRow(round));
    MapAt(left, WarningOf);
    HoistedExplains(first, order, round);
    forall i | 0 <= i < |order| ensures Shows(rows[i], order[i], round) {
      RowShows(order[i], round);
    }
    forall i | 0 <= i < |left| ensures Warns(WarningOf(left[i]), left[i]) {
      WarningWarns(left[i]);
    }
  }

  lemma ItemsAreReported(a: Analysis, ctx: FarmingContext, round: real -> real, cs: seq<Candidate>)
    requires cs == StageCandidates(ctx)
    requires a == Analysis(Observed(Ranking(cs, round), []), Map(Excluded(cs), WarningOf))
    ensures exists order, left :: ReportsItems(a, ctx, round, cs, order, left)
  {
    AnswerReports(a, cs, [], round);
    MapAt(ctx.drops, OfDrop(ctx.sanityCost, ctx.expired));
    assert ReportsItems(a, ctx, round, cs, Ranked(cs), Excluded(cs));
  }

  lemma StagesAreReported(a: Analysis, stages: seq<ItemStageDrop>, round: real -> real, cs: seq<Candidate>)
    requires cs == ItemCandidates(stages)
    requires a == Analysis(Observed(Ranking(cs, round), ITEM_CAVEATS), Map(Excluded(cs), WarningOf))
    ensures exists order, left :: ReportsStages(a, stages, round, cs, order, left)
  {
    AnswerReports(a, cs, ITEM_CAVEATS, round);
    MapAt(stages, OfStage());
    assert ReportsStages(a, stages, round, cs, Ranked(cs), Excluded(cs));
  }

  // ---------------------------------------------------------------- the code

  /** A row with its sort key. */
  datatype Entry = Entry(key: real, code: string, id: string, row: RankingRow)

  function ShapeEntry(round: real -> real): Candidate -> Entry {
    (c: Candidate) => Entry(Sanity(c), c.code, c.id, RowOf(c, round))
  }

  predicate EntryLe(a: Entry, b: Entry) { a.key < b.key || (a.key == b.key && CodeLe(a.code, a.id, b.code, b.id)) }

  /** `_ranking_row`. */
  method RankingRowOf(id: string, name: Option<string>, sanityCost: int, dropRate: real, sample: Option<int>,
                      expired: bool, round: real -> real)
    returns (key: real, row: RankingRow)
    requires sanityCost > 0 && dropRate > 0.0
    ensures key == sanityCost as real / dropRate
    ensures row == MakeRow(id, name, key, sample, expired, round)
  {
    var eff := ComputeEfficiency(sanityCost, dropRate, sample, expired);
    var deviates := eff.confidence != CONF_STABLE;
    row := RankingRow(id, name, round(eff.sanityPerItem), if deviates then Some(eff.confidence) else None, expired,
                      eff.flags);
    key := eff.sanityPerItem;
  }

  /** `_ranked_observation`. */
  method RankedObservation(ranking: seq<RankingRow>, caveats: seq<Limitation>) returns (o: Observation)
    ensures o == Observation(CONF_STABLE, ranking, caveats + Hoisted(ranking))
  {
    var expired, thin, unreported := false, false, false;
    for i := 0 to |ranking|
      invariant expired <==> exists j :: 0 <= j < i && ranking[j].expired
      invariant thin <==> exists j :: 0 <= j < i && ThinSample in ranking[j].flags
      invariant unreported <==> exists j :: 0 <= j < i && SampleUnreported in ranking[j].flags
    {
      expired := expired || ranking[i].expired;
      thin := thin || ThinSample in ranking[i].flags;
      unreported := unreported || SampleUnreported in ranking[i].flags;
    }
    var hoisted: seq<Limitation> := [];
    if expired { hoisted := hoisted + [ExpiredCaveat]; }
    if thin { hoisted := hoisted + [FlagCaveat(ThinSample)]; }
    if unreported { hoisted := hoisted + [FlagCaveat(SampleUnreported)]; }
    o := Observation(CONF_STABLE, ranking, caveats + hoisted);
  }

  /** The rows of sorted entries, without their keys. */
  function RowsOf(entries: seq<Entry>): (r: seq<RankingRow>)
    ensures |r| == |entries| && forall i :: 0 <= i < |r| ==> r[i] == entries[i].row
  {
    seq(|entries|, i requires 0 <= i < |entries| => entries[i].row)
  }

  lemma SortedEntriesAreTheRanking(cs: seq<Candidate>, round: real -> real)
    ensures RowsOf(Sort(Map(Rankable(Sort(cs, ByCode)), ShapeEntry(round)), EntryLe)) == Ranking(cs, round)
  {
    SortMaps(Rankable(Sort(cs, ByCode)), ShapeEntry(round), BySanity, EntryLe);
    MapAt(Ranked(cs), ShapeEntry(round));
    MapAt(Ranked(cs), ShapeRow(round));
  }

  predicate ByItem(a: DropFact, b: DropFact) { TextLe(a.itemId, b.itemId) }

  function CodeOrEmpty(code: Option<string>): string { if code.Some? then code.value else "" }

  predicate ByStage(a: ItemStageDrop, b: ItemStageDrop) {
    CodeLe(CodeOrEmpty(a.stageCode), a.stageId, CodeOrEmpty(b.stageCode), b.stageId)
  }

  /** `analyze_farming`. */
  method AnalyzeFarming(ctx: FarmingContext, round: real -> real) returns (a: Analysis)
    ensures ctx.sanityCost.None? || ctx.sanityCost.value <= 0 ==> a == Analysis(None, [StageCostMissing])
    ensures ctx.sanityCost.Some? && ctx.sanityCost.value > 0 ==>
              a == Analysis(Observed(Ranking(StageCandidates(ctx), round), []),
                            Map(Excluded(StageCandidates(ctx)), WarningOf))
              && exists cs, order, left :: ReportsItems(a, ctx, round, cs, order, left)
  {
    if ctx.sanityCost.None? || ctx.sanityCost.value <= 0 {
      return Analysis(None, [StageCostMissing]);
    }
    var entries, warnings := RankDrops(ctx, round);
    SortedEntriesAreTheRanking(StageCandidates(ctx), round);
    var ranking := RowsOf(Sort(entries, EntryLe));
    if ranking == [] {
      a := Analysis(None, warnings);
    } else {
      var observation := RankedObservation(ranking, []);
      a := Analysis(Some(observation), warnings);
    }
    ItemsAreReported(a, ctx, round, StageCandidates(ctx));
  }

  /** A drop gets its row or its warning. */
  function RankedOr(c: Candidate, round: real -> real): Result<Entry, Warning> {
    if IsRankable(c) then Ok(Entry(Sanity(c), c.code, c.id, RowOf(c, round))) else Err(WarningOf(c))
  }

  /** The row or the warning of one drop, lines 406-422. */
  method RankDrop(drop: DropFact, ctx: FarmingContext, round: real -> real) returns (r: Result<Entry, Warning>)
    requires ctx.sanityCost.Some? && ctx.sanityCost.value > 0
    ensures r == RankedOr(OfDrop(ctx.sanityCost, ctx.expired)(drop), round)
  {
    if drop.rate.None? || drop.rate.value <= 0.0 {
      return Err(RateMissing(drop.itemId));
    }
    var key, row := RankingRowOf(drop.itemId, drop.itemName, ctx.sanityCost.value, drop.rate.value, drop.sample,
                                 ctx.expired, round);
    return Ok(Entry(key, "", drop.itemId, row));
  }

  /** The loop of `analyze_farming`, lines 404-422. */
  method RankDrops(ctx: FarmingContext, round: real -> real) returns (entries: seq<Entry>, warnings: seq<Warning>)
    requires ctx.sanityCost.Some? && ctx.sanityCost.value > 0
    ensures entries == Map(Rankable(Sort(StageCandidates(ctx), ByCode)), ShapeEntry(round))
    ensures warnings == Map(Excluded(StageCandidates(ctx)), WarningOf)
  {
    entries, warnings := [], [];
    var drops := Sort(ctx.drops, ByItem);
    ghost var cs := Map(drops, OfDrop(ctx.sanityCost, ctx.expired));
    SortMaps(ctx.drops, OfDrop(ctx.sanityCost, ctx.expired), ByItem, ByCode);
    MapAt(drops, OfDrop(ctx.sanityCost, ctx.expired));
    for i := 0 to |drops|
      invariant entries == Map(Rankable(cs[..i]), ShapeEntry(round))
      invariant warnings == Map(Unrankable(cs[..i]), WarningOf)
    {
      NextCandidate(cs, i, round);
      var drop := drops[i];
      var ranked := RankDrop(drop, ctx, round);
      match ranked
      case Ok(entry) => entries := entries + [entry];
      case Err(warning) => warnings := warnings + [warning];
    }
    assert cs[..|drops|] == cs;
  }

  lemma NextCandidate(cs: seq<Candidate>, i: nat, round: real -> real)
    requires i < |cs|
    ensures IsRankable(cs[i]) ==>
              Map(Rankable(cs[..i + 1]), ShapeEntry(round))
              == Map(Rankable(cs[..i]), ShapeEntry(round))
                 + [Entry(Sanity(cs[i]), cs[i].code, cs[i].id, RowOf(cs[i], round))]
              && Map(Unrankable(cs[..i + 1]), WarningOf) == Map(Unrankable(cs[..i]), WarningOf)
    ensures !IsRankable(cs[i]) ==>
              Map(Rankable(cs[..i + 1]), ShapeEntry(round)) == Map(Rankable(cs[..i]), ShapeEntry(round))
              && Map(Unrankable(cs[..i + 1]), WarningOf) == Map(Unrankable(cs[..i]), WarningOf) + [WarningOf(cs[i])]
  {
    assert cs[..i + 1][..i] == cs[..i];
    var some, none := Rankable(cs[..i]), Unrankable(cs[..i]);
    assert some + [] == some && none + [] == none;
    MapSnoc(some, cs[i], ShapeEntry(round));
    MapSnoc(none, cs[i], WarningOf);
  }

  /** `analyze_item_farming`. */
  method AnalyzeItemFarming(stages: seq<ItemStageDrop>, round: real -> real) returns (a: Analysis)
    ensures a == Analysis(Observed(Ranking(ItemCandidates(stages), round), ITEM_CAVEATS),
                          Map(Excluded(ItemCandidates(stages)), WarningOf))
    ensures exists cs, order, left :: ReportsStages(a, stages, round, cs, order, left)
  {
    var entries, warnings := RankStages(stages, round);
    SortedEntriesAreTheRanking(ItemCandidates(stages), round);
    var ranking := RowsOf(Sort(entries, EntryLe));
    if ranking == [] {
      a := Analysis(None, warnings);
    } else {
      var observation := RankedObservation(ranking, ITEM_CAVEATS);
      a := Analysis(Some(observation), warnings);
    }
    StagesAreReported(a, stages, round, ItemCandidates(stages));
  }

  /** The row or the warning of one stage, lines 546-574. */
  method RankStage(drop: ItemStageDrop, round: real -> real) returns (r: Result<Entry, Warning>)
    ensures r == RankedOr(OfStage()(drop), round)
  {
    var code := CodeOrEmpty(drop.stageCode);
    var stageRef := if code != "" then drop.stageId + " (" + code + ")" else drop.stageId;
    if drop.sanityCost.None? || drop.sanityCost.value <= 0 {
      return Err(CostMissing(stageRef));
    }
    if drop.rate.None? || drop.rate.value <= 0.0 {
      return Err(RateMissing(stageRef));
    }
    var key, row := RankingRowOf(drop.stageId, drop.stageCode, drop.sanityCost.value, drop.rate.value, drop.sample,
                                 drop.expired, round);
    return Ok(Entry(key, code, drop.stageId, row));
  }

  /** The loop of `analyze_item_farming`, lines 539-574. */
  method RankStages(stages: seq<ItemStageDrop>, round: real -> real)
    returns (entries: seq<Entry>, warnings: seq<Warning>)
    ensures entries == Map(Rankable(Sort(ItemCandidates(stages), ByCode)), ShapeEntry(round))
    ensures warnings == Map(Excluded(ItemCandidates(stages)), WarningOf)
  {
    entries, warnings := [], [];
    var drops := Sort(stages, ByStage);
    ghost var cs := Map(drops, OfStage());
    SortMaps(stages, OfStage(), ByStage, ByCode);
    MapAt(drops, OfStage());
    for i := 0 to |drops|
      invariant entries == Map(Rankable(cs[..i]), ShapeEntry(round))
      invariant warnings == Map(Unrankable(cs[..i]), WarningOf)
    {
      NextCandidate(cs, i, round);
      var drop := drops[i];
      var ranked := RankStage(drop, round);
      match ranked
      case Ok(entry) => entries := entries + [entry];
      case Err(warning) => warnings := warnings + [warning];
    }
    assert cs[..|drops|] == cs;
  }

  // ---------------------------------------------------------------- orders

  lemma CodeOrder(codeA: string, idA: string, codeB: string, idB: string)
    ensures CodeLe(codeA, idA, codeB, idB) || CodeLe(codeB, idB, codeA, idA)
    ensures CodeLe(codeA, idA, codeB, idB) && CodeLe(codeB, idB, codeA, idA) ==> codeA == codeB && idA == idB
  {
    TextTotal(codeA, codeB);
    TextTotal(idA, idB);
  }

  lemma CodeTransitive(codeA: string, idA: string, codeB: string, idB: string, codeC: string, idC: string)
    requires CodeLe(codeA, idA, codeB, idB) && CodeLe(codeB, idB, codeC, idC)
    ensures CodeLe(codeA, idA, codeC, idC)
  {
    TextTotal(codeA, codeB);
    TextTotal(codeB, codeC);
    TextTransitive(codeA, codeB, codeC);
    if codeA == codeB == codeC {
      TextTransitive(idA, idB, idC);
    }
  }

  lemma CandidateOrders()
    ensures Comparison(ByCode) && Comparison(BySanity)
  {
    forall a: Candidate, b: Candidate ensures ByCode(a, b) || ByCode(b, a) {
      CodeOrder(a.code, a.id, b.code, b.id);
    }
    forall a: Candidate, b: Candidate, c: Candidate | ByCode(a, b) && ByCode(b, c) ensures ByCode(a, c) {
      CodeTransitive(a.code, a.id, b.code, b.id, c.code, c.id);
    }
  }

  // ---------------------------------------------------------------- main results

  lemma {:induction false} SplitPermutes(cs: seq<Candidate>)
    ensures multiset(Rankable(cs)) + multiset(Unrankable(cs)) == multiset(cs)
  {
    if cs != [] {
      var init, last := cs[..|cs| - 1], cs[|cs| - 1];
      SplitPermutes(init);
      var some, none := Rankable(init), Unrankable(init);
      assert cs == init + [last];
      if IsRankable(last) {
        assert Unrankable(cs) == none;
      } else {
        assert Rankable(cs) == some;
      }
    }
  }

  lemma {:induction false} SplitSeparates(cs: seq<Candidate>)
    ensures forall c :: c in Rankable(cs) ==> IsRankable(c)
    ensures forall c :: c in Unrankable(cs) ==> !IsRankable(c)
  {
    if cs != [] {
      SplitSeparates(cs[..|cs| - 1]);
    }
  }

  /** Every drop becomes exactly one row or exactly one warning, none is lost, invented or served twice,
      and rows are ordered by exact sanity per item, ties by identity. */
  lemma {:induction false} EveryDropOnce(cs: seq<Candidate>)
    ensures Divided(cs, Ranked(cs), Excluded(cs))
  {
    var sorted, order, left := Sort(cs, ByCode), Ranked(cs), Excluded(cs);
    CandidateOrders();
    SortSorts(cs, ByCode);
    SplitPermutes(sorted);
    SplitSeparates(sorted);
    SortSorts(Rankable(sorted), BySanity);
    PermutedElements(Rankable(sorted), order);
    UnrankableStaySorted(sorted);
    forall i | 0 <= i < |order| ensures IsRankable(order[i]) {
      assert order[i] in Elements(order);
    }
    forall i, j | 0 <= j < i < |order| ensures Precedes(order[j], order[i]) {
      assert BySanity(order[j], order[i]);
    }
    forall i | 0 <= i < |left| ensures !Positive(left[i]) {
      assert left[i] in left;
    }
    forall i, j | 0 <= j < i < |left| ensures IdentityLe(left[j], left[i]) {
      assert ByCode(left[j], left[i]);
    }
  }

  lemma DividedSizes(cs: seq<Candidate>)
    ensures |Ranked(cs)| + |Excluded(cs)| == |cs|
  {
    EveryDropOnce(cs);
    assert |multiset(Ranked(cs))| + |multiset(Excluded(cs))| == |multiset(cs)|;
  }

  lemma Quotients(cost: real, r: real, s: real)
    requires cost > 0.0 && r > 0.0 && s > 0.0 && cost / r <= cost / s
    ensures s <= r
  {
    var p, q := cost / r, cost / s;
    assert p * r == cost && q * s == cost && p > 0.0;
    assert p * s <= q * s;
    assert p * (s - r) <= 0.0;
  }

  /** In the stage view, where every drop has the one cost of the stage, that is descending drop rate. */
  lemma {:induction false} StageViewDescends(ctx: FarmingContext, i: int, j: int)
    requires 0 <= i < j < |Ranked(StageCandidates(ctx))|
    ensures exists x, y :: x >= y > 0.0 && Ranked(StageCandidates(ctx))[i].rate == Some(x)
                           && Ranked(StageCandidates(ctx))[j].rate == Some(y)
  {
    var cs := StageCandidates(ctx);
    MapAt(ctx.drops, OfDrop(ctx.sanityCost, ctx.expired));
    EveryDropOnce(cs);
    var a, b := Ranked(cs)[i], Ranked(cs)[j];
    assert a in multiset(Ranked(cs)) && b in multiset(Ranked(cs));
    assert a in multiset(cs) && b in multiset(cs);
    assert a.cost == b.cost == ctx.sanityCost;
    assert Precedes(a, b);
    Quotients(a.cost.value as real, a.rate.value, b.rate.value);
  }

  lemma ExpiredIsMarked(order: seq<Candidate>, round: real -> real)
    ensures AnyExpired(Map(order, ShapeRow(round))) <==> exists c :: c in order && c.expired
  {
    var rows := Map(order, ShapeRow(round));
    MapAt(order, ShapeRow(round));
    if c :| c in order && c.expired {
      var i :| 0 <= i < |order| && order[i] == c;
      assert rows[i].expired;
    }
  }

  lemma FlagIsMarked(order: seq<Candidate>, round: real -> real, flag: Flag)
    ensures AnyFlagged(Map(order, ShapeRow(round)), flag) <==> exists c :: c in order && flag in FlagsOf(c.sample)
  {
    var rows := Map(order, ShapeRow(round));
    MapAt(order, ShapeRow(round));
    if c :| c in order && flag in FlagsOf(c.sample) {
      var i :| 0 <= i < |order| && order[i] == c;
      assert flag in rows[i].flags;
    }
  }

  ghost predicate UniqueIdentities(cs: seq<Candidate>) {
    forall i, j :: 0 <= i < j < |cs| ==> cs[i].code != cs[j].code || cs[i].id != cs[j].id
  }

  /** The answer is deterministic: the order in which the drops are listed does not matter when no two
      share code and id. */
  lemma RankingIgnoresListing(cs: seq<Candidate>, ds: seq<Candidate>)
    requires multiset(cs) == multiset(ds) && UniqueIdentities(cs)
    ensures Ranked(cs) == Ranked(ds) && Excluded(cs) == Excluded(ds)
  {
    CandidateOrders();
    SortSorts(cs, ByCode);
    SortSorts(ds, ByCode);
    PermutedElements(Sort(cs, ByCode), cs);
    forall a, b | a in Elements(cs) && b in Elements(cs) ensures ByCode(a, a)
                                                        ensures ByCode(a, b) && ByCode(b, a) ==> a == b
    {
      CodeOrder(a.code, a.id, a.code, a.id);
      CodeOrder(a.code, a.id, b.code, b.id);
      var i :| 0 <= i < |cs| && cs[i] == a;
      var j :| 0 <= j < |cs| && cs[j] == b;
    }
    assert NoTies(Sort(cs, ByCode), ByCode) by {
      assert forall c :: c in Sort(cs, ByCode) ==> c in Elements(Sort(cs, ByCode));
    }
    SortedIsUnique(Sort(cs, ByCode), Sort(ds, ByCode), ByCode);
  }

  /** Rounding for display keeps the order, as long as it is monotone. */
  lemma DisplayedFiguresAscend(cs: seq<Candidate>, round: real -> real, i: int, j: int)
    requires forall x, y :: x <= y ==> round(x) <= round(y)
    requires 0 <= i < j < |Ranking(cs, round)|
    ensures Ranking(cs, round)[i].sanityPerItem <= Ranking(cs, round)[j].sanityPerItem
  {
    EveryDropOnce(cs);
    MapAt(Ranked(cs), ShapeRow(round));
    assert Precedes(Ranked(cs)[i], Ranked(cs)[j]);
  }
}
