/** Inserting a level: spawns are resolved against the level's own variants and routes, and summed up
    per enemy occurrence (src/arknights_mcp/importers/levels.py). */
module Levels {
  import opened Json
  import opened Lists
  import LevelNormalization

  // ---------------------------------------------------------------- parsed levels

  /** `as_int`: truncation toward zero for a float. */
  function AsInt(v: Value): Option<int> {
    match v
    case Int(n) => Some(n)
    case Bool(b) => Some(if b then 1 else 0)
    case Real(x) => Some(if x >= 0.0 then x.Floor else -((-x).Floor))
    case _ => None
  }

  /** `as_float`. */
  function AsFloat(v: Value): Option<real> { if IsNumber(v) then Some(NumberOf(v)) else None }

  datatype ParsedSpawn = ParsedSpawn(enemyId: string, levelVariant: int, routeIndex: Option<int>,
                                     spawnTime: Option<real>, count: Option<int>, variantId: Option<string>)

  datatype ParsedWave = ParsedWave(waveIndex: int, spawns: seq<ParsedSpawn>)

  datatype ParsedVariant = ParsedVariant(variantId: string, prefabBase: string)

  datatype ParsedLevel = ParsedLevel(tiles: seq<LevelNormalization.Tile>, routes: seq<int>, waves: seq<ParsedWave>,
                                     variants: seq<ParsedVariant>)

  /** Lines 171-189; sanitising an id is taken to be the identity. */
  function ParseSpawn(s: LevelNormalization.Spawn): ParsedSpawn {
    ParsedSpawn(s.enemyId, s.levelVariant, AsInt(s.routeIndex), AsFloat(s.spawnTime), AsInt(s.count), s.variantId)
  }

  /** A number as an integer: itself, or the nearest integer toward zero. */
  ghost predicate IsTruncated(v: Value, r: Option<int>) {
    match v
    case Int(n) => r == Some(n)
    case Bool(b) => r == Some(if b then 1 else 0)
    case Real(x) =>
      r.Some?
      && (x >= 0.0 ==> r.value as real <= x < r.value as real + 1.0)
      && (x <= 0.0 ==> r.value as real - 1.0 < x <= r.value as real)
    case _ => r.None?
  }

  ghost predicate IsFloat(v: Value, r: Option<real>) {
    match v
    case Int(n) => r == Some(n as real)
    case Bool(b) => r == Some(if b then 1.0 else 0.0)
    case Real(x) => r == Some(x)
    case _ => r.None?
  }

  /** What parsing keeps of a normalised spawn, field by field. */
  ghost predicate IsParsed(p: ParsedSpawn, s: LevelNormalization.Spawn) {
    p.enemyId == s.enemyId && p.levelVariant == s.levelVariant && p.variantId == s.variantId
    && IsTruncated(s.routeIndex, p.routeIndex) && IsTruncated(s.count, p.count) && IsFloat(s.spawnTime, p.spawnTime)
  }

  lemma ParseSpawnKeeps(s: LevelNormalization.Spawn)
    ensures IsParsed(ParseSpawn(s), s)
  {
    forall v: Value ensures IsTruncated(v, AsInt(v)) {
    }
  }

  /** Lines 199-224: a variant without id or base is dropped. */
  function ParseVariants(vs: seq<LevelNormalization.Variant>): seq<ParsedVariant> {
    if vs == [] then []
    else
      var past, v := ParseVariants(vs[..|vs| - 1]), vs[|vs| - 1];
      if v.variantId == "" || v.prefabKey == "" then past else past + [ParsedVariant(v.variantId, v.prefabKey)]
  }

  /** A wave keeps the spawns of its fragments as one list. */
  function ParseFragments(fs: seq<seq<LevelNormalization.Spawn>>): seq<ParsedSpawn> {
    if fs == [] then [] else ParseFragments(fs[..|fs| - 1]) + Map(fs[|fs| - 1], ParseSpawn)
  }

  function ParseWave(w: LevelNormalization.Wave): ParsedWave { ParsedWave(w.waveIndex, ParseFragments(w.fragments)) }

  function Parsed(n: LevelNormalization.NormalLevel): ParsedLevel {
    ParsedLevel(n.tiles, n.routes, Map(n.waves, ParseWave), ParseVariants(n.variants))
  }

  /** Flattening the fragments loses and reorders nothing. */
  lemma {:induction false} FragmentsFlatten(fs: seq<seq<LevelNormalization.Spawn>>)
    ensures ParseFragments(fs) == Map(Flatten(fs), ParseSpawn)
  {
    if fs != [] {
      FragmentsFlatten(fs[..|fs| - 1]);
      MapAppend(Flatten(fs[..|fs| - 1]), fs[|fs| - 1], ParseSpawn);
    }
  }

  function ParseVariant(v: LevelNormalization.Variant): ParsedVariant { ParsedVariant(v.variantId, v.prefabKey) }

  lemma {:induction false} NamedVariantsParse(vs: seq<LevelNormalization.Variant>)
    requires forall v :: v in vs ==> v.variantId != "" && v.prefabKey != ""
    ensures ParseVariants(vs) == Map(vs, ParseVariant)
  {
    if vs != [] {
      assert vs[|vs| - 1] in vs;
      NamedVariantsParse(vs[..|vs| - 1]);
    }
  }

  /** Parsing what was normalised keeps everything in its place: each wave with its index and all its
      spawns, fragment after fragment, and every variant. */
  lemma ParsedKeepsAll(raw: LevelNormalization.Fields, w: nat, i: nat, v: nat)
    ensures var n, p := LevelNormalization.Normal(raw), Parsed(LevelNormalization.Normal(raw));
            p.tiles == n.tiles && p.routes == n.routes && |p.waves| == |n.waves| && |p.variants| == |n.variants|
            && (w < |p.waves| ==>
                  p.waves[w].waveIndex == n.waves[w].waveIndex && |p.waves[w].spawns| == |Flatten(n.waves[w].fragments)|
                  && (i < |p.waves[w].spawns| ==> IsParsed(p.waves[w].spawns[i], Flatten(n.waves[w].fragments)[i])))
            && (v < |p.variants| ==> p.variants[v] == ParsedVariant(n.variants[v].variantId, n.variants[v].prefabKey))
  {
    var n := LevelNormalization.Normal(raw);
    MapAt(n.waves, ParseWave);
    LevelNormalization.VariantsNamed(LevelNormalization.RefsOf(raw));
    NamedVariantsParse(n.variants);
    MapAt(n.variants, ParseVariant);
    if w < |n.waves| {
      FragmentsFlatten(n.waves[w].fragments);
      MapAt(Flatten(n.waves[w].fragments), ParseSpawn);
      if i < |Flatten(n.waves[w].fragments)| {
        ParseSpawnKeeps(Flatten(n.waves[w].fragments)[i]);
      }
    }
  }

  /** `parse_level` on a normalised level, lines 158-226. */
  method ParseLevel(n: LevelNormalization.NormalLevel) returns (p: ParsedLevel)
    ensures p == Parsed(n)
    ensures |p.waves| == |n.waves|
    ensures forall w :: 0 <= w < |n.waves| ==>
              p.waves[w] == ParsedWave(n.waves[w].waveIndex, Map(Flatten(n.waves[w].fragments), ParseSpawn))
  {
    MapAt(n.waves, ParseWave);
    forall w | 0 <= w < |n.waves|
      ensures ParseFragments(n.waves[w].fragments) == Map(Flatten(n.waves[w].fragments), ParseSpawn)
    {
      FragmentsFlatten(n.waves[w].fragments);
    }
    var waves: seq<ParsedWave> := [];
    for w := 0 to |n.waves|
      invariant waves == Map(n.waves[..w], ParseWave)
    {
      var spawns := ParseWaveSpawns(n.waves[w].fragments);
      assert n.waves[..w + 1][..w] == n.waves[..w];
      waves := waves + [ParsedWave(n.waves[w].waveIndex, spawns)];
    }
    assert n.waves[..|n.waves|] == n.waves;
    var variants: seq<ParsedVariant> := [];
    for v := 0 to |n.variants|
      invariant variants == ParseVariants(n.variants[..v])
    {
      assert n.variants[..v + 1][..v] == n.variants[..v];
      var raw := n.variants[v];
      if raw.variantId == "" || raw.prefabKey == "" {
        continue;
      }
      variants := variants + [ParsedVariant(raw.variantId, raw.prefabKey)];
    }
    assert n.variants[..|n.variants|] == n.variants;
    p := ParsedLevel(n.tiles, n.routes, waves, variants);
  }

  /** The loops over fragments and actions, lines 164-190. */
  method ParseWaveSpawns(fragments: seq<seq<LevelNormalization.Spawn>>) returns (spawns: seq<ParsedSpawn>)
    ensures spawns == ParseFragments(fragments)
  {
    spawns := [];
    for f := 0 to |fragments|
      invariant spawns == ParseFragments(fragments[..f])
    {
      ghost var before := spawns;
      var actions := fragments[f];
      for a := 0 to |actions|
        invariant spawns == before + Map(actions[..a], ParseSpawn)
      {
        assert actions[..a + 1][..a] == actions[..a];
        Associate(before, Map(actions[..a], ParseSpawn), [ParseSpawn(actions[a])]);
        spawns := spawns + [ParseSpawn(actions[a])];
      }
      assert actions[..|actions|] == actions;
      assert fragments[..f + 1][..f] == fragments[..f];
    }
    assert fragments[..|fragments|] == fragments;
  }

  // ---------------------------------------------------------------- tables

  /** The primary key of a row is its position plus one: keys are assigned in order and never reused. */
  datatype TileRow = TileRow(stage: int, x: int, y: int)
  datatype RouteRow = RouteRow(stage: int, routeIndex: int)
  datatype VariantRow = VariantRow(stage: int, variantId: string, basePk: nat)
  datatype WaveRow = WaveRow(stage: int, waveIndex: int)
  datatype SpawnRow = SpawnRow(wavePk: nat, enemyPk: nat, levelVariant: int, variantPk: Option<nat>,
                               routePk: Option<nat>, spawnTime: Option<real>, count: Option<int>)
  datatype StageEnemyRow = StageEnemyRow(stage: int, key: Key, total: int, first: Option<real>, last: Option<real>,
                                         routes: nat)

  /** `(enemy_pk, level_variant, variant_pk)`. */
  datatype Key = Key(enemyPk: nat, levelVariant: int, variantPk: Option<nat>)

  function KeyOf(r: SpawnRow): Key { Key(r.enemyPk, r.levelVariant, r.variantPk) }

  datatype Error = UnknownBase(variantId: string, base: string) | UnknownEnemy(id: string) | Duplicate

  // ---------------------------------------------------------------- group by

  datatype SpawnAgg = SpawnAgg(total: int, first: Option<real>, last: Option<real>, routePks: set<nat>)

  const EMPTY_AGG := SpawnAgg(0, None, None, {})

  /** Lines 414-422: one spawn more in a bucket. */
  function Add(b: SpawnAgg, r: SpawnRow): SpawnAgg {
    SpawnAgg(
      b.total + (if r.count.Some? then r.count.value else 0),
      if r.spawnTime.Some? && (b.first.None? || r.spawnTime.value < b.first.value) then r.spawnTime else b.first,
      if r.spawnTime.Some? && (b.last.None? || r.spawnTime.value > b.last.value) then r.spawnTime else b.last,
      if r.routePk.Some? then b.routePks + {r.routePk.value} else b.routePks)
  }

  /** The spawns of one enemy at one level and variant. */
  function Group(rows: seq<SpawnRow>, k: Key): seq<SpawnRow> {
    if rows == [] then []
    else
      var past, r := Group(rows[..|rows| - 1], k), rows[|rows| - 1];
      if r.enemyPk == k.enemyPk && r.levelVariant == k.levelVariant && r.variantPk == k.variantPk then past + [r]
      else past
  }

  function SumCounts(rows: seq<SpawnRow>): int {
    if rows == [] then 0
    else SumCounts(rows[..|rows| - 1]) + (if rows[|rows| - 1].count.Some? then rows[|rows| - 1].count.value else 0)
  }

  ghost predicate IsLeast(rows: seq<SpawnRow>, t: Option<real>) {
    match t
    case None => forall r :: r in rows ==> r.spawnTime.None?
    case Some(x) =>
      (exists r :: r in rows && r.spawnTime == t)
      && forall r :: r in rows && r.spawnTime.Some? ==> x <= r.spawnTime.value
  }

  ghost predicate IsGreatest(rows: seq<SpawnRow>, t: Option<real>) {
    match t
    case None => forall r :: r in rows ==> r.spawnTime.None?
    case Some(x) =>
      (exists r :: r in rows && r.spawnTime == t)
      && forall r :: r in rows && r.spawnTime.Some? ==> r.spawnTime.value <= x
  }

  function Routes(rows: seq<SpawnRow>): set<nat> { set r | r in rows && r.routePk.Some? :: r.routePk.value }

  /** What a bucket says about the spawns of its group. */
  ghost predicate Summarises(b: SpawnAgg, group: seq<SpawnRow>) {
    b.total == SumCounts(group) && IsLeast(group, b.first) && IsGreatest(group, b.last) && b.routePks == Routes(group)
  }

  lemma AddSummarises(b: SpawnAgg, group: seq<SpawnRow>, r: SpawnRow)
    requires Summarises(b, group)
    ensures Summarises(Add(b, r), group + [r])
  {
    assert (group + [r])[..|group|] == group;
  }

  /** The dictionary of buckets after some spawns: one bucket per key that occurs. */
  ghost predicate Groups(agg: map<Key, SpawnAgg>, rows: seq<SpawnRow>) {
    && (forall k :: k in agg <==> Group(rows, k) != [])
    && (forall k :: k in agg ==> Summarises(agg[k], Group(rows, k)))
  }

  lemma GroupAppend(rows: seq<SpawnRow>, r: SpawnRow, k: Key)
    ensures Group(rows + [r], k) == if k == KeyOf(r) then Group(rows, k) + [r] else Group(rows, k)
  {
    assert (rows + [r])[..|rows|] == rows;
  }

  function Bucket(agg: map<Key, SpawnAgg>, k: Key): SpawnAgg { if k in agg then agg[k] else EMPTY_AGG }

  lemma BucketStep(agg: map<Key, SpawnAgg>, rows: seq<SpawnRow>, r: SpawnRow)
    requires Groups(agg, rows)
    ensures Groups(agg[KeyOf(r) := Add(Bucket(agg, KeyOf(r)), r)], rows + [r])
  {
    var k := KeyOf(r);
    var agg' := agg[k := Add(Bucket(agg, k), r)];
    forall l ensures l in agg' <==> Group(rows + [r], l) != []
             ensures l in agg' ==> Summarises(agg'[l], Group(rows + [r], l))
    {
      GroupAppend(rows, r, l);
      if l == k {
        AddSummarises(Bucket(agg, k), Group(rows, k), r);
      }
    }
  }

  /** The buckets the code has after some spawns. */
  function Tally(rows: seq<SpawnRow>): map<Key, SpawnAgg> {
    if rows == [] then map[]
    else
      var past, r := Tally(rows[..|rows| - 1]), rows[|rows| - 1];
      past[KeyOf(r) := Add(Bucket(past, KeyOf(r)), r)]
  }

  lemma TallyNext(rows: seq<SpawnRow>, r: SpawnRow)
    ensures Tally(rows + [r]) == Tally(rows)[KeyOf(r) := Add(Bucket(Tally(rows), KeyOf(r)), r)]
  {
    assert (rows + [r])[..|rows|] == rows;
  }

  lemma {:induction false} TallyGroups(rows: seq<SpawnRow>)
    ensures Groups(Tally(rows), rows)
  {
    if rows != [] {
      var past, r := rows[..|rows| - 1], rows[|rows| - 1];
      TallyGroups(past);
      BucketStep(Tally(past), past, r);
      assert rows == past + [r];
    }
  }

  // ---------------------------------------------------------------- the summary rows

  /** The NULL-safe sort key of line 427. */
  predicate KeyLe(a: Key, b: Key) {
    a.enemyPk < b.enemyPk
    || (a.enemyPk == b.enemyPk
        && (a.levelVariant < b.levelVariant
            || (a.levelVariant == b.levelVariant && Ranked(a.variantPk) <= Ranked(b.variantPk))))
  }

  function Ranked(v: Option<nat>): int { if v.Some? then v.value else -1 }

  /** The order of the summary: by enemy, level and variant, a row without variant first. */
  ghost predicate KeyLt(a: Key, b: Key) {
    || a.enemyPk < b.enemyPk
    || (a.enemyPk == b.enemyPk && a.levelVariant < b.levelVariant)
    || (a.enemyPk == b.enemyPk && a.levelVariant == b.levelVariant && b.variantPk.Some?
        && (a.variantPk.None? || a.variantPk.value < b.variantPk.value))
  }

  function SummaryRow(stage: int, k: Key, b: SpawnAgg): StageEnemyRow {
    StageEnemyRow(stage, k, b.total, b.first, b.last, |b.routePks|)
  }

  /** The naive group-by: strictly increasing keys, one row for every key that occurs, each with the
      figures of exactly the spawns of its key. */
  ghost predicate GroupBy(stage: int, rows: seq<SpawnRow>, out: seq<StageEnemyRow>) {
    && (forall i, j :: 0 <= i < j < |out| ==> KeyLt(out[i].key, out[j].key))
    && (forall r :: r in rows ==>
          exists i :: 0 <= i < |out| && out[i].key == Key(r.enemyPk, r.levelVariant, r.variantPk))
    && (forall i :: 0 <= i < |out| ==> RowIsRight(stage, rows, out[i]))
  }

  ghost predicate RowIsRight(stage: int, rows: seq<SpawnRow>, o: StageEnemyRow) {
    var group := Group(rows, o.key);
    o.stage == stage && group != []
    && o.total == SumCounts(group) && IsLeast(group, o.first) && IsGreatest(group, o.last)
    && o.routes == |Routes(group)|
  }

  lemma {:induction false} GroupOccurs(rows: seq<SpawnRow>, k: Key)
    ensures Group(rows, k) != [] <==> exists r :: r in rows && KeyOf(r) == k
  {
    if rows != [] {
      var past, r := rows[..|rows| - 1], rows[|rows| - 1];
      GroupOccurs(past, k);
      GroupAppend(past, r, k);
      assert rows == past + [r];
      assert forall x :: x in rows <==> x in past || x == r;
    }
  }

  ghost predicate Increasing(keys: seq<Key>) { forall i, j :: 0 <= i < j < |keys| ==> KeyLt(keys[i], keys[j]) }

  lemma SortedIncrease(keys: seq<Key>)
    requires SortedBy(keys, KeyLe) && Distinct(keys)
    ensures Increasing(keys)
  {
    forall i, j | 0 <= i < j < |keys| ensures KeyLt(keys[i], keys[j]) {
      assert KeyLe(keys[i], keys[j]) && keys[i] != keys[j];
    }
  }

  /** Sorted keys of the buckets, one row each. */
  lemma SortedKeysGroup(stage: int, rows: seq<SpawnRow>, agg: map<Key, SpawnAgg>, keys: seq<Key>,
                        out: seq<StageEnemyRow>)
    requires Groups(agg, rows) && Elements(keys) == agg.Keys && Increasing(keys)
    requires |out| == |keys|
    requires forall i :: 0 <= i < |keys| ==> keys[i] in agg && out[i] == SummaryRow(stage, keys[i], agg[keys[i]])
    ensures GroupBy(stage, rows, out)
  {
    forall r | r in rows ensures exists i :: 0 <= i < |out| && out[i].key == KeyOf(r) {
      GroupOccurs(rows, KeyOf(r));
      assert KeyOf(r) in Elements(keys);
      var i :| 0 <= i < |keys| && keys[i] == KeyOf(r);
      assert out[i].key == KeyOf(r);
    }
    forall i | 0 <= i < |out| ensures RowIsRight(stage, rows, out[i]) {
      assert Summarises(agg[keys[i]], Group(rows, keys[i]));
    }
  }

  // ---------------------------------------------------------------- resolution

  /** `dict.get`. */
  function Find<K, V>(m: map<K, V>, k: K): Option<V> { if k in m then Some(m[k]) else None }

  /** The names a level may refer to, each with its primary key. */
  datatype Names = Names(enemies: map<string, nat>, routes: map<int, nat>, variants: map<string, nat>)

  /** The row of one spawn; its enemy is known wherever this is used. */
  function Resolve(wavePk: nat, s: ParsedSpawn, n: Names): SpawnRow {
    SpawnRow(wavePk, if s.enemyId in n.enemies then n.enemies[s.enemyId] else 0, s.levelVariant,
             if s.variantId.Some? && s.variantId.value in n.variants then Some(n.variants[s.variantId.value]) else None,
             if s.routeIndex.Some? && s.routeIndex.value in n.routes then Some(n.routes[s.routeIndex.value]) else None,
             s.spawnTime, s.count)
  }

  function ResolveAll(wavePk: nat, ss: seq<ParsedSpawn>, n: Names): seq<SpawnRow> {
    if ss == [] then [] else ResolveAll(wavePk, ss[..|ss| - 1], n) + [Resolve(wavePk, ss[|ss| - 1], n)]
  }

  /** All waves, in order, the first one getting the key `wavePk`. */
  function ResolveWaves(wavePk: nat, waves: seq<ParsedWave>, n: Names): seq<SpawnRow> {
    if waves == [] then []
    else ResolveWaves(wavePk, waves[..|waves| - 1], n) + ResolveAll(wavePk + |waves| - 1, waves[|waves| - 1].spawns, n)
  }

  /** All spawns of a level, in the order of their rows. */
  function AllSpawns(waves: seq<ParsedWave>): seq<ParsedSpawn> {
    if waves == [] then [] else AllSpawns(waves[..|waves| - 1]) + waves[|waves| - 1].spawns
  }

  /** The row of one spawn, column by column: the keys are those under which the level's own routes and
      variants stand in their tables, which held `routes` and `variants` rows before. */
  ghost predicate IsSpawnRow(row: SpawnRow, s: ParsedSpawn, wavePk: nat, level: ParsedLevel, enemies: map<string, nat>,
                             routes: nat, variants: nat)
  {
    && row.wavePk == wavePk && s.enemyId in enemies && row.enemyPk == enemies[s.enemyId]
    && row.levelVariant == s.levelVariant && row.spawnTime == s.spawnTime && row.count == s.count
    && (forall j :: 0 <= j < |level.routes| && s.routeIndex == Some(level.routes[j]) ==>
          row.routePk == Some(routes + j + 1))
    && ((forall j :: 0 <= j < |level.routes| ==> s.routeIndex != Some(level.routes[j])) ==> row.routePk.None?)
    && (forall j :: 0 <= j < |level.variants| && s.variantId == Some(level.variants[j].variantId) ==>
          row.variantPk == Some(variants + j + 1))
    && ((forall j :: 0 <= j < |level.variants| ==> s.variantId != Some(level.variants[j].variantId)) ==>
          row.variantPk.None?)
  }

  /** One row for each spawn of each wave, in order; the waves stand under the keys from `wavePk` on. */
  ghost predicate AreSpawnRows(rows: seq<SpawnRow>, wavePk: nat, level: ParsedLevel, enemies: map<string, nat>,
                               routes: nat, variants: nat)
  {
    && |rows| == |AllSpawns(level.waves)|
    && forall w, i :: 0 <= w < |level.waves| && 0 <= i < |level.waves[w].spawns| ==>
         var k := |AllSpawns(level.waves[..w])| + i;
         k < |rows|
         && IsSpawnRow(rows[k], level.waves[w].spawns[i], wavePk + w, level, enemies, routes, variants)
  }

  lemma {:induction false} ResolveAllAt(wavePk: nat, ss: seq<ParsedSpawn>, n: Names)
    ensures |ResolveAll(wavePk, ss, n)| == |ss|
    ensures forall i :: 0 <= i < |ss| ==> ResolveAll(wavePk, ss, n)[i] == Resolve(wavePk, ss[i], n)
  {
    if ss != [] {
      ResolveAllAt(wavePk, ss[..|ss| - 1], n);
    }
  }

  lemma {:induction false} ResolveWavesSize(wavePk: nat, waves: seq<ParsedWave>, n: Names)
    ensures |ResolveWaves(wavePk, waves, n)| == |AllSpawns(waves)|
  {
    if waves != [] {
      ResolveWavesSize(wavePk, waves[..|waves| - 1], n);
      ResolveAllAt(wavePk + |waves| - 1, waves[|waves| - 1].spawns, n);
    }
  }

  lemma {:induction false} ResolveWavesAt(wavePk: nat, waves: seq<ParsedWave>, n: Names, w: nat, i: nat)
    requires w < |waves| && i < |waves[w].spawns|
    ensures var k, rows := |AllSpawns(waves[..w])| + i, ResolveWaves(wavePk, waves, n);
            k < |rows| && rows[k] == Resolve(wavePk + w, waves[w].spawns[i], n)
    decreases |waves|
  {
    var init := waves[..|waves| - 1];
    ResolveWavesSize(wavePk, init, n);
    ResolveAllAt(wavePk + |waves| - 1, waves[|waves| - 1].spawns, n);
    if w < |waves| - 1 {
      ResolveWavesAt(wavePk, init, n, w, i);
      assert init[..w] == waves[..w];
    }
  }

  lemma ResolveIsSpawnRow(wavePk: nat, s: ParsedSpawn, n: Names, level: ParsedLevel, routes: nat, variants: nat)
    requires s.enemyId in n.enemies && Numbered(n.routes, level.routes, routes)
    requires Numbered(n.variants, IdsOf(level.variants), variants)
    ensures IsSpawnRow(Resolve(wavePk, s, n), s, wavePk, level, n.enemies, routes, variants)
  {
    forall j | 0 <= j < |level.variants| && s.variantId == Some(level.variants[j].variantId)
      ensures Resolve(wavePk, s, n).variantPk == Some(variants + j + 1)
    {
      assert IdsOf(level.variants)[j] == level.variants[j].variantId;
    }
    if s.variantId.Some? && s.variantId.value in n.variants {
      var j :| 0 <= j < |level.variants| && IdsOf(level.variants)[j] == s.variantId.value;
      assert s.variantId == Some(level.variants[j].variantId);
    }
    if s.routeIndex.Some? && s.routeIndex.value in n.routes {
      assert s.routeIndex.value in Elements(level.routes);
    }
  }

  /** What resolving a level's spawns comes to, on the level's own routes and variants. */
  lemma ResolvedAreSpawnRows(wavePk: nat, n: Names, level: ParsedLevel, routes: nat, variants: nat)
    requires AllKnown(level.waves, n.enemies) && Numbered(n.routes, level.routes, routes)
    requires Numbered(n.variants, IdsOf(level.variants), variants)
    ensures AreSpawnRows(ResolveWaves(wavePk, level.waves, n), wavePk, level, n.enemies, routes, variants)
  {
    var rows := ResolveWaves(wavePk, level.waves, n);
    ResolveWavesSize(wavePk, level.waves, n);
    forall w, i | 0 <= w < |level.waves| && 0 <= i < |level.waves[w].spawns|
      ensures var k := |AllSpawns(level.waves[..w])| + i;
              k < |rows|
              && IsSpawnRow(rows[k], level.waves[w].spawns[i], wavePk + w, level, n.enemies, routes, variants)
    {
      ResolveWavesAt(wavePk, level.waves, n, w, i);
      ResolveIsSpawnRow(wavePk + w, level.waves[w].spawns[i], n, level, routes, variants);
    }
  }

  predicate Known(ss: seq<ParsedSpawn>, enemies: map<string, nat>) {
    forall i :: 0 <= i < |ss| ==> ss[i].enemyId in enemies
  }

  predicate AllKnown(waves: seq<ParsedWave>, enemies: map<string, nat>) {
    forall w :: 0 <= w < |waves| ==> Known(waves[w].spawns, enemies)
  }

  /** Primary keys of rows appended after `base` rows, by unique name. */
  ghost predicate Numbered<K>(pks: map<K, nat>, names: seq<K>, base: nat) {
    && Distinct(names)
    && pks.Keys == Elements(names)
    && forall i :: 0 <= i < |names| ==> pks[names[i]] == base + i + 1
  }

  // ---------------------------------------------------------------- uniqueness

  /** Rows that may be appended under a UNIQUE constraint. */
  predicate AllNew<T(==)>(added: seq<T>, base: seq<T>) {
    Distinct(added) && forall i :: 0 <= i < |added| ==> added[i] !in base
  }

  lemma AllNewNext<T>(added: seq<T>, x: T, base: seq<T>)
    ensures AllNew(added + [x], base) <==> AllNew(added, base) && x !in base + added
  {
    var more := added + [x];
    assert more[|added|] == x && forall i :: 0 <= i < |added| ==> more[i] == added[i];
  }

  lemma PrefixIsNew<T>(added: seq<T>, i: nat, base: seq<T>)
    requires i <= |added| && AllNew(added, base)
    ensures AllNew(added[..i], base)
  {
  }

  /** One element more: its row clashes exactly when the rows of all elements are not new. */
  lemma {:induction false} NextNew<A, B>(s: seq<A>, i: nat, f: A -> B, base: seq<B>)
    requires i < |s| && AllNew(Map(s[..i], f), base)
    ensures Map(s[..i + 1], f) == Map(s[..i], f) + [f(s[i])]
    ensures f(s[i]) in base + Map(s[..i], f) ==> !AllNew(Map(s, f), base)
    ensures f(s[i]) !in base + Map(s[..i], f) ==> AllNew(Map(s[..i + 1], f), base)
  {
    assert s[..i + 1] == s[..i] + [s[i]];
    MapSnoc(s[..i], s[i], f);
    AllNewNext(Map(s[..i], f), f(s[i]), base);
    if AllNew(Map(s, f), base) {
      MapPrefix(s, i + 1, f);
      PrefixIsNew(Map(s, f), i + 1, base);
    }
  }

  function ShapeTile(stage: int): LevelNormalization.Tile -> TileRow {
    (t: LevelNormalization.Tile) => TileRow(stage, t.x, t.y)
  }

  function TileRows(stage: int, ts: seq<LevelNormalization.Tile>): seq<TileRow> { Map(ts, ShapeTile(stage)) }

  function ShapeRoute(stage: int): int -> RouteRow { (index: int) => RouteRow(stage, index) }

  function ShapeWave(stage: int): ParsedWave -> WaveRow { (w: ParsedWave) => WaveRow(stage, w.waveIndex) }

  function RouteRows(stage: int, indices: seq<int>): (rows: seq<RouteRow>)
    ensures |rows| == |indices|
  {
    MapAt(indices, ShapeRoute(stage));
    Map(indices, ShapeRoute(stage))
  }

  function WaveRows(stage: int, ws: seq<ParsedWave>): (rows: seq<WaveRow>)
    ensures |rows| == |ws|
  {
    MapAt(ws, ShapeWave(stage));
    Map(ws, ShapeWave(stage))
  }

  /** The names of variants that the schema keeps unique. */
  function NameIn(stage: int): ParsedVariant -> (int, string) { (v: ParsedVariant) => (stage, v.variantId) }

  function NameOf(): VariantRow -> (int, string) { (v: VariantRow) => (v.stage, v.variantId) }

  function NamesIn(stage: int, vs: seq<ParsedVariant>): seq<(int, string)> { Map(vs, NameIn(stage)) }

  function NamesOf(rows: seq<VariantRow>): seq<(int, string)> { Map(rows, NameOf()) }

  lemma HasVariantByName(rows: seq<VariantRow>, stage: int, id: string)
    ensures HasVariant(rows, stage, id) <==> (stage, id) in NamesOf(rows)
  {
    MapAt(rows, NameOf());
    if HasVariant(rows, stage, id) {
      var i :| 0 <= i < |rows| && rows[i].stage == stage && rows[i].variantId == id;
      assert NamesOf(rows)[i] == (stage, id);
    }
  }

  lemma NewIndex(stage: int, indices: seq<int>, i: nat)
    requires i < |indices|
    ensures RouteRow(stage, indices[i]) !in RouteRows(stage, indices[..i]) ==> indices[i] !in indices[..i]
  {
    MapAt(indices[..i], ShapeRoute(stage));
    if indices[i] in indices[..i] {
      var j :| 0 <= j < i && indices[j] == indices[i];
      assert RouteRows(stage, indices[..i])[j] == RouteRow(stage, indices[i]);
    }
  }

  /** The rows of some variants, and the keys recorded for them. */
  function VariantRows(stage: int, vs: seq<ParsedVariant>, enemies: map<string, nat>): (rows: seq<VariantRow>)
    ensures |rows| == |vs|
  {
    if vs == [] then []
    else
      var v := vs[|vs| - 1];
      VariantRows(stage, vs[..|vs| - 1], enemies)
      + [VariantRow(stage, v.variantId, if v.prefabBase in enemies then enemies[v.prefabBase] else 0)]
  }

  function VariantKeys(vs: seq<ParsedVariant>, base: nat): map<string, nat> {
    if vs == [] then map[] else VariantKeys(vs[..|vs| - 1], base)[vs[|vs| - 1].variantId := base + |vs|]
  }

  /** Each variant in turn is accepted after the ones before it. */
  predicate VariantsFit(stage: int, vs: seq<ParsedVariant>, enemies: map<string, nat>, before: seq<VariantRow>) {
    vs == []
    || (VariantsFit(stage, vs[..|vs| - 1], enemies, before)
        && vs[|vs| - 1].prefabBase in enemies
        && !HasVariant(before + VariantRows(stage, vs[..|vs| - 1], enemies), stage, vs[|vs| - 1].variantId))
  }

  lemma {:induction false} FitPrefix(stage: int, vs: seq<ParsedVariant>, enemies: map<string, nat>,
                                     before: seq<VariantRow>, i: nat)
    requires i <= |vs| && VariantsFit(stage, vs, enemies, before)
    ensures VariantsFit(stage, vs[..i], enemies, before)
    decreases |vs|
  {
    if i < |vs| {
      FitPrefix(stage, vs[..|vs| - 1], enemies, before, i);
      assert vs[..|vs| - 1][..i] == vs[..i];
    } else {
      assert vs[..i] == vs;
    }
  }

  lemma {:induction false} NamesOfAdded(stage: int, vs: seq<ParsedVariant>, enemies: map<string, nat>,
                                        before: seq<VariantRow>)
    ensures NamesOf(before + VariantRows(stage, vs, enemies)) == NamesOf(before) + NamesIn(stage, vs)
  {
    if vs == [] {
      assert before + [] == before && NamesOf(before) + [] == NamesOf(before);
    } else {
      var init := vs[..|vs| - 1];
      var rows := VariantRows(stage, init, enemies);
      var row := VariantRows(stage, vs, enemies)[|rows|];
      NamesOfAdded(stage, init, enemies, before);
      MapSnoc(before + rows, row, NameOf());
      Associate(before, rows, [row]);
      Associate(NamesOf(before), NamesIn(stage, init), [(stage, vs[|vs| - 1].variantId)]);
    }
  }

  lemma {:induction false} VariantsFitExactly(stage: int, vs: seq<ParsedVariant>, enemies: map<string, nat>,
                                              before: seq<VariantRow>)
    ensures VariantsFit(stage, vs, enemies, before)
            <==> BasesKnown(vs, enemies) && AllNew(NamesIn(stage, vs), NamesOf(before))
  {
    if vs != [] {
      var init, v := vs[..|vs| - 1], vs[|vs| - 1];
      VariantsFitExactly(stage, init, enemies, before);
      NamesOfAdded(stage, init, enemies, before);
      HasVariantByName(before + VariantRows(stage, init, enemies), stage, v.variantId);
      AllNewNext(NamesIn(stage, init), (stage, v.variantId), NamesOf(before));
      assert BasesKnown(vs, enemies) <==> BasesKnown(init, enemies) && v.prefabBase in enemies;
    }
  }

  lemma Refused(stage: int, vs: seq<ParsedVariant>, enemies: map<string, nat>, before: seq<VariantRow>, i: nat)
    requires i < |vs| && !VariantsFit(stage, vs[..i + 1], enemies, before)
    ensures !(BasesKnown(vs, enemies) && AllNew(NamesIn(stage, vs), NamesOf(before)))
  {
    if VariantsFit(stage, vs, enemies, before) {
      FitPrefix(stage, vs, enemies, before, i + 1);
    }
    VariantsFitExactly(stage, vs, enemies, before);
  }

  lemma {:induction false} VariantRowsAt(stage: int, vs: seq<ParsedVariant>, enemies: map<string, nat>, j: nat)
    requires j < |vs| && vs[j].prefabBase in enemies
    ensures VariantRows(stage, vs, enemies)[j] == VariantRow(stage, vs[j].variantId, enemies[vs[j].prefabBase])
    decreases |vs|
  {
    if j < |vs| - 1 {
      VariantRowsAt(stage, vs[..|vs| - 1], enemies, j);
    }
  }

  lemma {:induction false} KeysAreNumbered(vs: seq<ParsedVariant>, base: nat)
    requires Distinct(IdsOf(vs))
    ensures Numbered(VariantKeys(vs, base), IdsOf(vs), base)
  {
    if vs != [] {
      var i, ids := |vs| - 1, IdsOf(vs);
      assert ids[..i] == IdsOf(vs[..i]) && ids[..i + 1] == ids;
      KeysAreNumbered(vs[..i], base);
      NumberedStep(VariantKeys(vs[..i], base), ids, i, base);
    }
  }

  lemma IdsAreDistinct(stage: int, vs: seq<ParsedVariant>)
    requires Distinct(NamesIn(stage, vs))
    ensures Distinct(IdsOf(vs))
  {
    MapAt(vs, NameIn(stage));
    forall i, j | 0 <= i < j < |vs| ensures IdsOf(vs)[i] != IdsOf(vs)[j] {
      assert NamesIn(stage, vs)[i] != NamesIn(stage, vs)[j];
    }
  }

  predicate BasesKnown(vs: seq<ParsedVariant>, enemies: map<string, nat>) {
    forall i :: 0 <= i < |vs| ==> vs[i].prefabBase in enemies
  }

  /** Each wave in turn is accepted after the ones before it. */
  predicate WavesFit(stage: int, ws: seq<ParsedWave>, enemies: map<string, nat>, before: seq<WaveRow>) {
    ws == []
    || (WavesFit(stage, ws[..|ws| - 1], enemies, before)
        && WaveRow(stage, ws[|ws| - 1].waveIndex) !in before + WaveRows(stage, ws[..|ws| - 1])
        && Known(ws[|ws| - 1].spawns, enemies))
  }

  lemma {:induction false} WavesFitPrefix(stage: int, ws: seq<ParsedWave>, enemies: map<string, nat>,
                                          before: seq<WaveRow>, i: nat)
    requires i <= |ws| && WavesFit(stage, ws, enemies, before)
    ensures WavesFit(stage, ws[..i], enemies, before)
    decreases |ws|
  {
    if i < |ws| {
      WavesFitPrefix(stage, ws[..|ws| - 1], enemies, before, i);
      assert ws[..|ws| - 1][..i] == ws[..i];
    } else {
      assert ws[..i] == ws;
    }
  }

  lemma {:induction false} WavesFitExactly(stage: int, ws: seq<ParsedWave>, enemies: map<string, nat>,
                                           before: seq<WaveRow>)
    ensures WavesFit(stage, ws, enemies, before) <==> AllKnown(ws, enemies) && AllNew(WaveRows(stage, ws), before)
  {
    if ws != [] {
      var init, w := ws[..|ws| - 1], ws[|ws| - 1];
      WavesFitExactly(stage, init, enemies, before);
      AllNewNext(WaveRows(stage, init), WaveRow(stage, w.waveIndex), before);
      assert AllKnown(ws, enemies) <==> AllKnown(init, enemies) && Known(w.spawns, enemies);
    }
  }

  lemma RefusedWave(stage: int, ws: seq<ParsedWave>, enemies: map<string, nat>, before: seq<WaveRow>, i: nat)
    requires i < |ws| && !WavesFit(stage, ws[..i + 1], enemies, before)
    ensures !WavesFit(stage, ws, enemies, before)
  {
    if WavesFit(stage, ws, enemies, before) {
      WavesFitPrefix(stage, ws, enemies, before, i + 1);
    }
  }

  /** What a level must meet to be inserted: new names and places, and every enemy known. */
  predicate Insertable(stage: int, level: ParsedLevel, enemies: map<string, nat>, maps: seq<int>, tiles: seq<TileRow>,
                       routes: seq<RouteRow>, variants: seq<VariantRow>, waves: seq<WaveRow>)
  {
    && stage !in maps && AllNew(TileRows(stage, level.tiles), tiles)
    && AllNew(RouteRows(stage, level.routes), routes)
    && AllNew(NamesIn(stage, level.variants), NamesOf(variants))
    && BasesKnown(level.variants, enemies)
    && AllNew(WaveRows(stage, level.waves), waves)
    && AllKnown(level.waves, enemies)
  }

  // ---------------------------------------------------------------- the code

  class Database {
    var maps: seq<int>
    var tiles: seq<TileRow>
    var routes: seq<RouteRow>
    var variants: seq<VariantRow>
    var waves: seq<WaveRow>
    var spawns: seq<SpawnRow>
    var stageEnemies: seq<StageEnemyRow>

    constructor ()
      ensures maps == [] && tiles == [] && routes == [] && variants == []
      ensures waves == [] && spawns == [] && stageEnemies == []
    {
      maps, tiles, routes, variants, waves, spawns, stageEnemies := [], [], [], [], [], [], [];
    }

    /** Lines 277-307; `PRIMARY KEY` on the stage, and on the stage and the place of a tile. */
    method InsertMap(stage: int, ts: seq<LevelNormalization.Tile>) returns (r: Result<nat, Error>)
      modifies this`maps, this`tiles
      ensures r.Ok? <==> stage !in old(maps) && AllNew(TileRows(stage, ts), old(tiles))
      ensures r.Ok? ==> maps == old(maps) + [stage] && tiles == old(tiles) + TileRows(stage, ts)
      ensures r.Err? ==> r.error == Duplicate
    {
      if stage in maps {
        return Err(Duplicate);
      }
      maps := maps + [stage];
      ghost var base := tiles;
      assert base + [] == base;
      for i := 0 to |ts|
        invariant maps == old(maps) + [stage]
        invariant tiles == base + TileRows(stage, ts[..i]) && AllNew(TileRows(stage, ts[..i]), base)
      {
        NextNew(ts, i, ShapeTile(stage), base);
        var row := TileRow(stage, ts[i].x, ts[i].y);
        if row in tiles {
          return Err(Duplicate);
        }
        Associate(base, TileRows(stage, ts[..i]), [row]);
        tiles := tiles + [row];
      }
      assert ts[..|ts|] == ts;
      return Ok(|ts|);
    }

    /** Lines 309-324; `UNIQUE (stage_pk, route_index)`. */
    method InsertRoutes(stage: int, indices: seq<int>) returns (r: Result<map<int, nat>, Error>)
      modifies this`routes
      ensures r.Ok? <==> AllNew(RouteRows(stage, indices), old(routes))
      ensures r.Ok? ==> Numbered(r.value, indices, |old(routes)|) && routes == old(routes) + RouteRows(stage, indices)
      ensures r.Err? ==> r.error == Duplicate
    {
      var pks: map<int, nat> := map[];
      ghost var base := routes;
      for i := 0 to |indices|
        invariant Numbered(pks, indices[..i], |base|)
        invariant routes == base + RouteRows(stage, indices[..i]) && AllNew(RouteRows(stage, indices[..i]), base)
      {
        NextNew(indices, i, ShapeRoute(stage), base);
        if RouteRow(stage, indices[i]) in routes {
          return Err(Duplicate);
        }
        NumberedStep(pks, indices, i, |base|);
        NewIndex(stage, indices, i);
        Associate(base, RouteRows(stage, indices[..i]), [RouteRow(stage, indices[i])]);
        routes := routes + [RouteRow(stage, indices[i])];
        pks := pks[indices[i] := |routes|];
      }
      assert indices[..|indices|] == indices;
      return Ok(pks);
    }

    /** Lines 330-360; `UNIQUE (stage_pk, variant_id)`. An unknown base fails closed. */
    method InsertVariants(stage: int, vs: seq<ParsedVariant>, enemies: map<string, nat>)
      returns (r: Result<map<string, nat>, Error>)
      modifies this`variants
      ensures r.Ok? ==> VariantsInserted(stage, vs, enemies, r.value, |old(variants)|, variants)
      ensures r.Ok? <==> BasesKnown(vs, enemies) && AllNew(NamesIn(stage, vs), NamesOf(old(variants)))
      ensures r.Err? ==> r.error == Duplicate || (r.error.UnknownBase? && r.error.base !in enemies)
      ensures old(variants) <= variants
    {
      var pks: map<string, nat> := map[];
      ghost var before := variants;
      assert before + [] == before;
      for i := 0 to |vs|
        invariant VariantsFit(stage, vs[..i], enemies, before)
        invariant variants == before + VariantRows(stage, vs[..i], enemies) && pks == VariantKeys(vs[..i], |before|)
      {
        var v := vs[i];
        assert vs[..i + 1][..i] == vs[..i];
        if v.prefabBase !in enemies || HasVariant(variants, stage, v.variantId) {
          Refused(stage, vs, enemies, before, i);
          return Err(if v.prefabBase !in enemies then UnknownBase(v.variantId, v.prefabBase) else Duplicate);
        }
        var row := VariantRow(stage, v.variantId, enemies[v.prefabBase]);
        Associate(before, VariantRows(stage, vs[..i], enemies), [row]);
        variants := variants + [row];
        pks := pks[v.variantId := |variants|];
      }
      assert vs[..|vs|] == vs;
      VariantsFitExactly(stage, vs, enemies, before);
      IdsAreDistinct(stage, vs);
      KeysAreNumbered(vs, |before|);
      assert variants[|before|..] == VariantRows(stage, vs, enemies);
      return Ok(pks);
    }

    /** Lines 375-408. */
    static method SpawnRowOf(wavePk: nat, s: ParsedSpawn, n: Names) returns (row: SpawnRow)
      requires s.enemyId in n.enemies
      ensures row == Resolve(wavePk, s, n)
    {
      var routePk := if s.routeIndex.Some? then Find(n.routes, s.routeIndex.value) else None;
      var variantPk := if s.variantId.Some? then Find(n.variants, s.variantId.value) else None;
      row := SpawnRow(wavePk, n.enemies[s.enemyId], s.levelVariant, variantPk, routePk, s.spawnTime, s.count);
    }

    /** Lines 374-422: the spawns of one wave, each added to its bucket. `before` is the rows the
        buckets hold so far. */
    method InsertSpawns(wavePk: nat, ss: seq<ParsedSpawn>, n: Names, start: map<Key, SpawnAgg>,
                        ghost before: seq<SpawnRow>)
      returns (r: Result<map<Key, SpawnAgg>, Error>)
      requires start == Tally(before)
      modifies this`spawns
      ensures r.Ok? <==> Known(ss, n.enemies)
      ensures r.Ok? ==> spawns == old(spawns) + ResolveAll(wavePk, ss, n)
      ensures r.Ok? ==> r.value == Tally(before + ResolveAll(wavePk, ss, n))
      ensures r.Err? ==> r.error.UnknownEnemy? && r.error.id !in n.enemies
    {
      var agg := start;
      ghost var spawns0, rows := spawns, ResolveAll(wavePk, ss[..0], n);
      assert before + [] == before;
      for i := 0 to |ss|
        invariant Known(ss[..i], n.enemies) && rows == ResolveAll(wavePk, ss[..i], n)
        invariant spawns == spawns0 + rows && agg == Tally(before + rows)
      {
        var s := ss[i];
        if s.enemyId !in n.enemies {
          return Err(UnknownEnemy(s.enemyId));
        }
        var row := SpawnRowOf(wavePk, s, n);
        assert ss[..i + 1][..i] == ss[..i];
        TallyNext(before + rows, row);
        Associate(before, rows, [row]);
        Associate(spawns0, rows, [row]);
        rows := rows + [row];
        spawns := spawns + [row];
        agg := agg[KeyOf(row) := Add(Bucket(agg, KeyOf(row)), row)];
      }
      assert ss[..|ss|] == ss;
      return Ok(agg);
    }

    /** Lines 367-373 and the spawns of the wave; `UNIQUE (stage_pk, wave_index)`. The waves before it are
        in their tables and buckets. */
    method InsertWave(stage: int, ws: seq<ParsedWave>, w: nat, n: Names, start: map<Key, SpawnAgg>,
                      ghost waves0: seq<WaveRow>, ghost spawns0: seq<SpawnRow>)
      returns (r: Result<map<Key, SpawnAgg>, Error>)
      requires w < |ws| && WavesFit(stage, ws[..w], n.enemies, waves0)
      requires waves == waves0 + WaveRows(stage, ws[..w])
      requires spawns == spawns0 + ResolveWaves(|waves0| + 1, ws[..w], n)
      requires start == Tally(ResolveWaves(|waves0| + 1, ws[..w], n))
      modifies this`spawns, this`waves
      ensures r.Ok? <==> WavesFit(stage, ws[..w + 1], n.enemies, waves0)
      ensures r.Ok? ==> waves == waves0 + WaveRows(stage, ws[..w + 1])
      ensures r.Ok? ==> spawns == spawns0 + ResolveWaves(|waves0| + 1, ws[..w + 1], n)
      ensures r.Ok? ==> r.value == Tally(ResolveWaves(|waves0| + 1, ws[..w + 1], n))
      ensures r.Err? ==> r.error == Duplicate || (r.error.UnknownEnemy? && r.error.id !in n.enemies)
    {
      NextWave(stage, ws, w, n, |waves0| + 1, waves0, spawns0);
      if WaveRow(stage, ws[w].waveIndex) in waves {
        return Err(Duplicate);
      }
      waves := waves + [WaveRow(stage, ws[w].waveIndex)];
      r := InsertSpawns(|waves|, ws[w].spawns, n, start, ResolveWaves(|waves0| + 1, ws[..w], n));
    }

    /** Lines 364-422. */
    method InsertWaves(stage: int, ws: seq<ParsedWave>, n: Names) returns (r: Result<map<Key, SpawnAgg>, Error>)
      modifies this`spawns, this`waves
      ensures r.Ok? <==> AllKnown(ws, n.enemies) && AllNew(WaveRows(stage, ws), old(waves))
      ensures r.Ok? ==> waves == old(waves) + WaveRows(stage, ws)
      ensures r.Ok? ==> spawns == old(spawns) + ResolveWaves(|old(waves)| + 1, ws, n)
      ensures r.Ok? ==> r.value == Tally(ResolveWaves(|old(waves)| + 1, ws, n))
      ensures r.Err? ==> r.error == Duplicate || (r.error.UnknownEnemy? && r.error.id !in n.enemies)
    {
      ghost var waves0, spawns0 := waves, spawns;
      assert waves0 + [] == waves0 && spawns0 + [] == spawns0;
      WavesFitExactly(stage, ws, n.enemies, waves0);
      var agg: map<Key, SpawnAgg> := map[];
      for w := 0 to |ws|
        invariant WavesFit(stage, ws[..w], n.enemies, waves0)
        invariant waves == waves0 + WaveRows(stage, ws[..w])
        invariant spawns == spawns0 + ResolveWaves(|waves0| + 1, ws[..w], n)
        invariant agg == Tally(ResolveWaves(|waves0| + 1, ws[..w], n))
      {
        var next := InsertWave(stage, ws, w, n, agg, waves0, spawns0);
        if next.Err? {
          RefusedWave(stage, ws, n.enemies, waves0, w);
          return next;
        }
        agg := next.value;
      }
      assert ws[..|ws|] == ws;
      return Ok(agg);
    }

    /** The keys of the buckets in the order of line 427. */
    static method SortedKeys(agg: map<Key, SpawnAgg>) returns (keys: seq<Key>)
      ensures Elements(keys) == agg.Keys && SortedBy(keys, KeyLe) && Distinct(keys) && |keys| == |agg|
    {
      var listing: seq<Key> := [];
      var pending := agg.Keys;
      while pending != {}
        invariant pending <= agg.Keys && Elements(listing) == agg.Keys - pending && Distinct(listing)
        invariant |listing| + |pending| == |agg|
        decreases pending
      {
        var k :| k in pending;
        pending := pending - {k};
        ElementsAppend(listing, [k]);
        listing := listing + [k];
      }
      keys := Sort(listing, KeyLe);
      SortSorts(listing, KeyLe);
      DistinctPermutes(listing, keys);
      PermutedElements(listing, keys);
    }

    /** Lines 426-444: the buckets, sorted, become the summary rows. */
    method InsertStageEnemies(stage: int, agg: map<Key, SpawnAgg>, ghost rows: seq<SpawnRow>)
      requires agg == Tally(rows)
      modifies this`stageEnemies
      ensures old(stageEnemies) <= stageEnemies && |stageEnemies| == |old(stageEnemies)| + |agg|
      ensures GroupBy(stage, rows, stageEnemies[|old(stageEnemies)|..])
    {
      var keys := SortedKeys(agg);
      assert forall i :: 0 <= i < |keys| ==> keys[i] in Elements(keys);
      ghost var out: seq<StageEnemyRow> := [];
      for i := 0 to |keys|
        invariant |out| == i && stageEnemies == old(stageEnemies) + out
        invariant forall j :: 0 <= j < i ==> out[j] == SummaryRow(stage, keys[j], agg[keys[j]])
      {
        var row := SummaryRow(stage, keys[i], agg[keys[i]]);
        Associate(old(stageEnemies), out, [row]);
        stageEnemies := stageEnemies + [row];
        out := out + [row];
      }
      TallyGroups(rows);
      SortedIncrease(keys);
      SortedKeysGroup(stage, rows, agg, keys, out);
      assert stageEnemies[|old(stageEnemies)|..] == out;
    }

    /** Lines 277-360: the map, and the routes and variants that spawns may name. */
    method InsertNames(stage: int, level: ParsedLevel, enemies: map<string, nat>) returns (r: Result<Names, Error>)
      modifies this`maps, this`tiles, this`routes, this`variants
      ensures r.Ok? <==> stage !in old(maps) && AllNew(TileRows(stage, level.tiles), old(tiles))
                         && AllNew(RouteRows(stage, level.routes), old(routes))
                         && BasesKnown(level.variants, enemies)
                         && AllNew(NamesIn(stage, level.variants), NamesOf(old(variants)))
      ensures r.Ok? ==> maps == old(maps) + [stage] && tiles == old(tiles) + TileRows(stage, level.tiles)
      ensures r.Ok? ==> r.value.enemies == enemies && Numbered(r.value.routes, level.routes, |old(routes)|)
      ensures r.Ok? ==> routes == old(routes) + RouteRows(stage, level.routes)
      ensures r.Ok? ==> VariantsInserted(stage, level.variants, enemies, r.value.variants, |old(variants)|, variants)
      ensures r.Ok? ==> old(variants) <= variants
    {
      var placed := InsertMap(stage, level.tiles);
      if placed.Err? {
        return Err(placed.error);
      }
      var rs := InsertRoutes(stage, level.routes);
      if rs.Err? {
        return Err(rs.error);
      }
      var vs := InsertVariants(stage, level.variants, enemies);
      if vs.Err? {
        return Err(vs.error);
      }
      return Ok(Names(enemies, rs.value, vs.value));
    }

    /** `_insert_level`, lines 270-453. */
    method InsertLevel(stage: int, level: ParsedLevel, enemies: map<string, nat>)
      returns (r: Result<nat, Error>, ghost n: Names)
      modifies this
      ensures r.Ok? <==> Insertable(stage, level, enemies, old(maps), old(tiles), old(routes), old(variants),
                                    old(waves))
      ensures r.Ok? ==> maps == old(maps) + [stage] && tiles == old(tiles) + TileRows(stage, level.tiles)
      ensures r.Ok? ==> n.enemies == enemies && Numbered(n.routes, level.routes, |old(routes)|)
      ensures r.Ok? ==> routes == old(routes) + RouteRows(stage, level.routes)
      ensures r.Ok? ==> waves == old(waves) + WaveRows(stage, level.waves)
      ensures r.Ok? ==> VariantsInserted(stage, level.variants, enemies, n.variants, |old(variants)|, variants)
      ensures r.Ok? ==> spawns == old(spawns) + ResolveWaves(|old(waves)| + 1, level.waves, n)
      ensures r.Ok? ==> AreSpawnRows(spawns[|old(spawns)|..], |old(waves)| + 1, level, enemies, |old(routes)|,
                                     |old(variants)|)
      ensures r.Ok? ==> |stageEnemies| == |old(stageEnemies)| + r.value && old(stageEnemies) <= stageEnemies
      ensures r.Ok? ==> GroupBy(stage, spawns[|old(spawns)|..], stageEnemies[|old(stageEnemies)|..])
    {
      n := Names(enemies, map[], map[]);
      var named := InsertNames(stage, level, enemies);
      if named.Err? {
        return Err(named.error), n;
      }
      var names := named.value;
      n := names;
      var agg := InsertWaves(stage, level.waves, names);
      if agg.Err? {
        return Err(agg.error), n;
      }
      ghost var rows := ResolveWaves(|old(waves)| + 1, level.waves, names);
      assert spawns[|old(spawns)|..] == rows;
      ResolvedAreSpawnRows(|old(waves)| + 1, names, level, |old(routes)|, |old(variants)|);
      InsertStageEnemies(stage, agg.value, rows);
      r := Ok(|agg.value|);
    }
  }

  predicate HasVariant(rows: seq<VariantRow>, stage: int, id: string)
    ensures HasVariant(rows, stage, id)
            <==> exists i :: 0 <= i < |rows| && rows[i].stage == stage && rows[i].variantId == id
  {
    exists i :: 0 <= i < |rows| && rows[i].stage == stage && rows[i].variantId == id
  }

  function IdsOf(vs: seq<ParsedVariant>): (ids: seq<string>)
    ensures |ids| == |vs| && forall i :: 0 <= i < |vs| ==> ids[i] == vs[i].variantId
  {
    seq(|vs|, i requires 0 <= i < |vs| => vs[i].variantId)
  }

  /** The variant rows a level added after `base` others, each based on its own prefab. */
  ghost predicate VariantsInserted(stage: int, vs: seq<ParsedVariant>, enemies: map<string, nat>, pks: map<string, nat>,
                                   base: nat, rows: seq<VariantRow>)
  {
    && Numbered(pks, IdsOf(vs), base)
    && BasesKnown(vs, enemies)
    && |rows| >= base && rows[base..] == VariantRows(stage, vs, enemies)
  }

  /** What one wave more adds. */
  lemma NextWave(stage: int, ws: seq<ParsedWave>, w: nat, n: Names, first: nat, waves0: seq<WaveRow>,
                 spawns0: seq<SpawnRow>)
    requires w < |ws|
    ensures var row, added := WaveRow(stage, ws[w].waveIndex), ResolveAll(first + w, ws[w].spawns, n);
            waves0 + WaveRows(stage, ws[..w + 1]) == waves0 + WaveRows(stage, ws[..w]) + [row]
            && ResolveWaves(first, ws[..w + 1], n) == ResolveWaves(first, ws[..w], n) + added
            && spawns0 + ResolveWaves(first, ws[..w + 1], n) == spawns0 + ResolveWaves(first, ws[..w], n) + added
            && (WavesFit(stage, ws[..w + 1], n.enemies, waves0) <==>
                  WavesFit(stage, ws[..w], n.enemies, waves0) && row !in waves0 + WaveRows(stage, ws[..w])
                  && Known(ws[w].spawns, n.enemies))
  {
    assert ws[..w + 1][..w] == ws[..w];
    Associate(waves0, WaveRows(stage, ws[..w]), [WaveRow(stage, ws[w].waveIndex)]);
    Associate(spawns0, ResolveWaves(first, ws[..w], n), ResolveAll(first + w, ws[w].spawns, n));
  }

  lemma NumberedStep<K>(pks: map<K, nat>, names: seq<K>, i: nat, base: nat)
    requires i < |names| && Numbered(pks, names[..i], base)
    ensures names[i] !in names[..i] ==> Numbered(pks[names[i] := base + i + 1], names[..i + 1], base)
  {
    assert names[..i + 1] == names[..i] + [names[i]];
    ElementsAppend(names[..i], [names[i]]);
  }

  // ---------------------------------------------------------------- conservation

  function SumTotals(out: seq<StageEnemyRow>): int {
    if out == [] then 0 else SumTotals(out[..|out| - 1]) + out[|out| - 1].total
  }

  function CountOf(r: SpawnRow): int { if r.count.Some? then r.count.value else 0 }

  function SumOver(keys: seq<Key>, f: Key -> int): int {
    if keys == [] then 0 else SumOver(keys[..|keys| - 1], f) + f(keys[|keys| - 1])
  }

  function GroupCount(rows: seq<SpawnRow>): Key -> int { (k: Key) => SumCounts(Group(rows, k)) }

  /** The counts of the groups of some keys. */
  function SumGroups(rows: seq<SpawnRow>, keys: seq<Key>): int { SumOver(keys, GroupCount(rows)) }

  lemma {:induction false} SumOverZero(keys: seq<Key>, f: Key -> int)
    requires forall k :: f(k) == 0
    ensures SumOver(keys, f) == 0
  {
    if keys != [] {
      SumOverZero(keys[..|keys| - 1], f);
    }
  }

  /** Raising one summand by c raises the sum by c, where it occurs. */
  lemma {:induction false} SumOverRaised(keys: seq<Key>, f: Key -> int, g: Key -> int, l: Key, c: int)
    requires Fresh(keys) && forall k :: g(k) == f(k) + (if k == l then c else 0)
    ensures SumOver(keys, g) == SumOver(keys, f) + (if l in keys then c else 0)
  {
    if keys != [] {
      var init, k := keys[..|keys| - 1], keys[|keys| - 1];
      SumOverRaised(init, f, g, l, c);
      assert keys == init + [k];
    }
  }

  /** Each key is new after the ones before it. */
  predicate Fresh(keys: seq<Key>) {
    keys == [] || (Fresh(keys[..|keys| - 1]) && keys[|keys| - 1] !in keys[..|keys| - 1])
  }

  lemma {:induction false} DistinctAreFresh(keys: seq<Key>)
    requires Distinct(keys)
    ensures Fresh(keys)
  {
    if keys != [] {
      DistinctAreFresh(keys[..|keys| - 1]);
    }
  }

  lemma {:induction false} GroupCountNext(rows: seq<SpawnRow>, k: Key)
    requires rows != []
    ensures var init, last := rows[..|rows| - 1], rows[|rows| - 1];
            GroupCount(rows)(k) == GroupCount(init)(k) + (if k == KeyOf(last) then CountOf(last) else 0)
  {
    var past, last := Group(rows[..|rows| - 1], k), rows[|rows| - 1];
    if KeyOf(last) == k {
      assert Group(rows, k) == past + [last] && (past + [last])[..|past|] == past;
    } else {
      assert Group(rows, k) == past;
    }
  }

  lemma {:induction false} SumGroupsNext(rows: seq<SpawnRow>, keys: seq<Key>)
    requires rows != [] && Fresh(keys)
    ensures var init, last := rows[..|rows| - 1], rows[|rows| - 1];
            SumGroups(rows, keys) == SumGroups(init, keys) + (if KeyOf(last) in keys then CountOf(last) else 0)
  {
    var init, last := rows[..|rows| - 1], rows[|rows| - 1];
    forall k ensures GroupCount(rows)(k) == GroupCount(init)(k) + (if k == KeyOf(last) then CountOf(last) else 0) {
      GroupCountNext(rows, k);
    }
    SumOverRaised(keys, GroupCount(init), GroupCount(rows), KeyOf(last), CountOf(last));
  }

  predicate Covered(rows: seq<SpawnRow>, keys: seq<Key>) {
    rows == [] || (Covered(rows[..|rows| - 1], keys) && KeyOf(rows[|rows| - 1]) in keys)
  }

  lemma {:induction false} CoveredIsForAll(rows: seq<SpawnRow>, keys: seq<Key>)
    requires forall r :: r in rows ==> KeyOf(r) in keys
    ensures Covered(rows, keys)
  {
    if rows != [] {
      CoveredIsForAll(rows[..|rows| - 1], keys);
    }
  }

  lemma {:induction false} GroupsCoverAll(rows: seq<SpawnRow>, keys: seq<Key>)
    requires Fresh(keys) && Covered(rows, keys)
    ensures SumGroups(rows, keys) == SumCounts(rows)
  {
    if rows == [] {
      SumOverZero(keys, GroupCount(rows));
    } else {
      GroupsCoverAll(rows[..|rows| - 1], keys);
      SumGroupsNext(rows, keys);
    }
  }

  function KeysOf(out: seq<StageEnemyRow>): (keys: seq<Key>)
    ensures |keys| == |out| && forall i :: 0 <= i < |out| ==> keys[i] == out[i].key
  {
    if out == [] then [] else KeysOf(out[..|out| - 1]) + [out[|out| - 1].key]
  }

  lemma {:induction false} TotalsAreGroups(stage: int, rows: seq<SpawnRow>, out: seq<StageEnemyRow>)
    requires forall i :: 0 <= i < |out| ==> RowIsRight(stage, rows, out[i])
    ensures SumTotals(out) == SumGroups(rows, KeysOf(out))
  {
    if out != [] {
      TotalsAreGroups(stage, rows, out[..|out| - 1]);
      assert KeysOf(out)[..|out| - 1] == KeysOf(out[..|out| - 1]);
      assert RowIsRight(stage, rows, out[|out| - 1]);
    }
  }

  /** Nothing is lost or counted twice: the totals of the summary add up to the counts of all spawns. */
  lemma TotalsAreConserved(stage: int, rows: seq<SpawnRow>, out: seq<StageEnemyRow>)
    requires GroupBy(stage, rows, out)
    ensures SumTotals(out) == SumCounts(rows)
  {
    var keys := KeysOf(out);
    TotalsAreGroups(stage, rows, out);
    forall i, j | 0 <= i < j < |keys| ensures keys[i] != keys[j] {
      assert KeyLt(out[i].key, out[j].key);
    }
    forall r | r in rows ensures KeyOf(r) in keys {
      var i :| 0 <= i < |out| && out[i].key == KeyOf(r);
      assert keys[i] == KeyOf(r);
    }
    CoveredIsForAll(rows, keys);
    DistinctAreFresh(keys);
    GroupsCoverAll(rows, keys);
  }

  lemma FirstIsLeast(s: seq<Key>, k: Key)
    requires Increasing(s) && k in s
    ensures k == s[0] || KeyLt(s[0], k)
  {
    var i :| 0 <= i < |s| && s[i] == k;
  }

  /** A strictly increasing sequence is determined by its elements. */
  lemma {:induction false} IncreasingIsUnique(s: seq<Key>, t: seq<Key>)
    requires Increasing(s) && Increasing(t) && forall k :: k in s <==> k in t
    ensures s == t
  {
    assert s == [] <==> t == [] by {
      if s != [] { assert s[0] in t; }
      if t != [] { assert t[0] in s; }
    }
    if s != [] {
      assert s[0] in t && t[0] in s;
      FirstIsLeast(s, t[0]);
      FirstIsLeast(t, s[0]);
      forall k ensures k in s[1..] <==> k in t[1..] {
        assert k in s <==> k == s[0] || k in s[1..];
        assert k in t <==> k == t[0] || k in t[1..];
        assert s[0] !in s[1..] && t[0] !in t[1..];
      }
      IncreasingIsUnique(s[1..], t[1..]);
      assert s == [s[0]] + s[1..] && t == [t[0]] + t[1..];
    }
  }

  lemma RowIsDetermined(stage: int, rows: seq<SpawnRow>, o: StageEnemyRow, p: StageEnemyRow)
    requires RowIsRight(stage, rows, o) && RowIsRight(stage, rows, p) && o.key == p.key
    ensures o == p
  {
  }

  lemma {:induction false} KeysAreThoseOfTheRows(stage: int, rows: seq<SpawnRow>, out: seq<StageEnemyRow>, k: Key)
    requires GroupBy(stage, rows, out)
    ensures k in KeysOf(out) <==> Group(rows, k) != []
  {
    GroupOccurs(rows, k);
    if k in KeysOf(out) {
      var i :| 0 <= i < |out| && KeysOf(out)[i] == k;
      assert RowIsRight(stage, rows, out[i]);
    }
    if Group(rows, k) != [] {
      var r :| r in rows && KeyOf(r) == k;
      var i :| 0 <= i < |out| && out[i].key == KeyOf(r);
      assert KeysOf(out)[i] == k;
    }
  }

  /** The group-by leaves no freedom: the same spawns have one summary. */
  lemma GroupByIsUnique(stage: int, rows: seq<SpawnRow>, out: seq<StageEnemyRow>, out': seq<StageEnemyRow>)
    requires GroupBy(stage, rows, out) && GroupBy(stage, rows, out')
    ensures out == out'
  {
    forall k ensures k in KeysOf(out) <==> k in KeysOf(out') {
      KeysAreThoseOfTheRows(stage, rows, out, k);
      KeysAreThoseOfTheRows(stage, rows, out', k);
    }
    IncreasingIsUnique(KeysOf(out), KeysOf(out'));
    forall i | 0 <= i < |out| ensures out[i] == out'[i] {
      assert KeysOf(out)[i] == KeysOf(out')[i];
      RowIsDetermined(stage, rows, out[i], out'[i]);
    }
  }

  // ---------------------------------------------------------------- no spawn dangles

  ghost predicate Declared(s: ParsedSpawn, vs: seq<ParsedVariant>) {
    s.variantId.Some? ==> ParsedVariant(s.variantId.value, s.enemyId) in vs
  }

  lemma {:induction false} WavesDeclared(raw: LevelNormalization.Fields)
    ensures var level := Parsed(LevelNormalization.Normal(raw));
            forall w :: w in level.waves ==> forall s :: s in w.spawns ==> Declared(s, level.variants)
  {
    var n, level := LevelNormalization.Normal(raw), Parsed(LevelNormalization.Normal(raw));
    LevelNormalization.LevelDeclares(LevelNormalization.Items(Get(raw, "waves")), raw);
    MapAt(n.waves, ParseWave);
    forall w, i | 0 <= w < |level.waves| && 0 <= i < |level.waves[w].spawns|
      ensures Declared(level.waves[w].spawns[i], level.variants)
    {
      ParsedKeepsAll(raw, w, i, 0);
      FlatDeclared(n.waves[w].fragments, n.variants, i);
      var s := Flatten(n.waves[w].fragments)[i];
      if s.variantId.Some? {
        var v :| 0 <= v < |n.variants| && n.variants[v] == LevelNormalization.Variant(s.variantId.value, s.enemyId);
        ParsedKeepsAll(raw, 0, 0, v);
        assert level.variants[v] == ParsedVariant(s.variantId.value, s.enemyId);
      }
    }
  }

  lemma {:induction false} FlatDeclared(fs: seq<seq<LevelNormalization.Spawn>>, vs: seq<LevelNormalization.Variant>,
                                        i: nat)
    requires LevelNormalization.AllDeclared(fs, vs) && i < |Flatten(fs)|
    ensures LevelNormalization.Declared(Flatten(fs)[i], vs)
  {
    var last := |fs| - 1;
    if i < |Flatten(fs[..last])| {
      FlatDeclared(fs[..last], vs, i);
    } else {
      assert Flatten(fs)[i] == fs[last][i - |Flatten(fs[..last])|];
    }
  }

  /** The row of a spawn is linked to the variant the spawn names, and that variant is based on the
      very enemy the row names; a spawn without variant is linked to none. */
  ghost predicate Linked(s: ParsedSpawn, row: SpawnRow, stage: int, variants: seq<VariantRow>) {
    if s.variantId.None? then row.variantPk.None?
    else
      row.variantPk.Some? && 1 <= row.variantPk.value <= |variants|
      && variants[row.variantPk.value - 1] == VariantRow(stage, s.variantId.value, row.enemyPk)
  }

  lemma DeclaredIsLinked(s: ParsedSpawn, vs: seq<ParsedVariant>, wavePk: nat, n: Names, stage: int, base: nat,
                         variants: seq<VariantRow>)
    requires Declared(s, vs) && s.enemyId in n.enemies
    requires VariantsInserted(stage, vs, n.enemies, n.variants, base, variants)
    ensures Linked(s, Resolve(wavePk, s, n), stage, variants)
  {
    if s.variantId.Some? {
      var i :| 0 <= i < |vs| && vs[i] == ParsedVariant(s.variantId.value, s.enemyId);
      assert IdsOf(vs)[i] == s.variantId.value;
      VariantRowsAt(stage, vs, n.enemies, i);
      assert variants[base + i] == variants[base..][i];
    }
  }

  ghost predicate LinkedRows(ss: seq<ParsedSpawn>, rows: seq<SpawnRow>, stage: int, variants: seq<VariantRow>) {
    |rows| == |ss| && forall k :: 0 <= k < |rows| ==> Linked(ss[k], rows[k], stage, variants)
  }

  lemma {:induction false} WaveLinked(wavePk: nat, ss: seq<ParsedSpawn>, vs: seq<ParsedVariant>, n: Names, stage: int,
                                      base: nat, variants: seq<VariantRow>)
    requires Known(ss, n.enemies) && forall s :: s in ss ==> Declared(s, vs)
    requires VariantsInserted(stage, vs, n.enemies, n.variants, base, variants)
    ensures LinkedRows(ss, ResolveAll(wavePk, ss, n), stage, variants)
  {
    if ss != [] {
      WaveLinked(wavePk, ss[..|ss| - 1], vs, n, stage, base, variants);
      DeclaredIsLinked(ss[|ss| - 1], vs, wavePk, n, stage, base, variants);
    }
  }

  lemma {:induction false} WavesLinked(wavePk: nat, ws: seq<ParsedWave>, vs: seq<ParsedVariant>, n: Names, stage: int,
                                       base: nat, variants: seq<VariantRow>)
    requires AllKnown(ws, n.enemies) && forall w :: w in ws ==> forall s :: s in w.spawns ==> Declared(s, vs)
    requires VariantsInserted(stage, vs, n.enemies, n.variants, base, variants)
    ensures LinkedRows(AllSpawns(ws), ResolveWaves(wavePk, ws, n), stage, variants)
  {
    if ws != [] {
      var last := |ws| - 1;
      WavesLinked(wavePk, ws[..last], vs, n, stage, base, variants);
      assert ws[last] in ws;
      WaveLinked(wavePk + last, ws[last].spawns, vs, n, stage, base, variants);
    }
  }

  /** No spawn dangles after insertion: in a level that went through normalising and parsing, the row of
      every spawn that carries a variant id is linked to the inserted variant of that id, whose base is
      the row's own enemy, and no other row is linked to any. */
  lemma NoRowDangles(raw: LevelNormalization.Fields, n: Names, stage: int, base: nat, variants: seq<VariantRow>,
                     wavePk: nat)
    requires var level := Parsed(LevelNormalization.Normal(raw));
             AllKnown(level.waves, n.enemies)
             && VariantsInserted(stage, level.variants, n.enemies, n.variants, base, variants)
    ensures var level := Parsed(LevelNormalization.Normal(raw));
            LinkedRows(AllSpawns(level.waves), ResolveWaves(wavePk, level.waves, n), stage, variants)
  {
    var level := Parsed(LevelNormalization.Normal(raw));
    WavesDeclared(raw);
    WavesLinked(wavePk, level.waves, level.variants, n, stage, base, variants);
  }

  /** Normalising, parsing and inserting a level, as its importer does. */
  method ImportLevel(db: Database, stage: int, raw: LevelNormalization.Fields, enemies: map<string, nat>)
    returns (r: Result<nat, Error>)
    modifies db
    ensures r.Ok? <==> Insertable(stage, Parsed(LevelNormalization.Normal(raw)), enemies, old(db.maps), old(db.tiles),
                                  old(db.routes), old(db.variants), old(db.waves))
    ensures r.Ok? ==> |db.spawns| >= |old(db.spawns)| && |db.stageEnemies| >= |old(db.stageEnemies)|
    ensures r.Ok? ==> LinkedRows(AllSpawns(Parsed(LevelNormalization.Normal(raw)).waves), db.spawns[|old(db.spawns)|..],
                                 stage, db.variants)
    ensures r.Ok? ==> SumTotals(db.stageEnemies[|old(db.stageEnemies)|..]) == SumCounts(db.spawns[|old(db.spawns)|..])
  {
    var normal := LevelNormalization.NormalizeLevel(raw);
    var level := ParseLevel(normal);
    ghost var spawnsBefore, enemiesBefore := |db.spawns|, |db.stageEnemies|;
    ghost var variantsBefore, wavePk := |db.variants|, |db.waves| + 1;
    ghost var n;
    r, n := db.InsertLevel(stage, level, enemies);
    if r.Ok? {
      ghost var rows := ResolveWaves(wavePk, level.waves, n);
      assert db.spawns[spawnsBefore..] == rows;
      NoRowDangles(raw, n, stage, variantsBefore, db.variants, wavePk);
      TotalsAreConserved(stage, rows, db.stageEnemies[enemiesBefore..]);
    }
  }
}
