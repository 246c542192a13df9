/** Enemy references, inline variants and spawn actions of a raw level
    (src/arknights_mcp/importers/normalization.py). */
module LevelNormalization {
  import opened Json
  import opened Lists

  type Fields = seq<(string, Value)>

  /** A Python `int` (a `bool` is one), else 0. */
  function IntOrZero(v: Value): int {
    match v case Int(n) => n case Bool(b) => (if b then 1 else 0) case _ => 0
  }

  function OrElse(a: Value, b: Value): Value { if Truthy(a) then a else b }

  function NonEmptyText(v: Value): Option<string> { if v.Str? && v.text != "" then Some(v.text) else None }

  /** `ref.get("id") or ref.get("key")`, when it is a non-empty string. */
  function RefId(ref: Fields): Option<string> { NonEmptyText(OrElse(Get(ref, "id"), Get(ref, "key"))) }

  /** `_inline_prefab_key`, lines 130-143. */
  function InlinePrefabKey(ref: Fields): Option<string> {
    var overwritten := Get(ref, "overwrittenData");
    if !overwritten.Obj? then None
    else
      var prefab := Get(overwritten.fields, "prefabKey");
      if !prefab.Obj? then None else NonEmptyText(Get(prefab.fields, "m_value"))
  }

  /** The list both maps are built from, lines 167-171 and 216-220. */
  function RefsOf(level: Fields): seq<Value> {
    var refs := Get(level, "enemyDbRefs");
    if refs.Arr? then refs.items
    else if Get(level, "enemies").Arr? then Get(level, "enemies").items
    else []
  }

  datatype RefEntry = RefEntry(id: string, variantId: Option<string>, level: int)

  /** The base of an inline ref: `useDb` is the constant false and there is a prefab key. */
  function InlineBase(ref: Fields): Option<string> {
    var over := Get(ref, "overwrittenData");
    var prefab := if over.Obj? then Get(over.fields, "prefabKey") else Null;
    var base := if prefab.Obj? then Get(prefab.fields, "m_value") else Null;
    if Get(ref, "useDb") == Bool(false) && base.Str? && base.text != "" then Some(base.text) else None
  }

  function EntryOf(ref: Fields, rid: string): RefEntry {
    var level := IntOrZero(Get(ref, "level"));
    match InlineBase(ref)
    case Some(prefab) => RefEntry(prefab, Some(rid), level)
    case None => RefEntry(rid, None, level)
  }

  /** The last ref of an id wins, whatever its kind. */
  function RefMap(refs: seq<Value>): map<string, RefEntry> {
    if refs == [] then map[]
    else
      var past, ref := RefMap(refs[..|refs| - 1]), refs[|refs| - 1];
      if ref.Obj? && RefId(ref.fields).Some? then
        past[RefId(ref.fields).value := EntryOf(ref.fields, RefId(ref.fields).value)]
      else past
  }

  datatype Variant = Variant(variantId: string, prefabKey: string)

  /** Assignment to a dict entry: an existing key keeps its place. */
  function Put(vs: seq<Variant>, v: Variant): (r: seq<Variant>)
  {
    if vs == [] then [v] else if vs[0].variantId == v.variantId then [v] + vs[1..] else [vs[0]] + Put(vs[1..], v)
  }

  /** The last inline ref of an id wins. */
  function Variants(refs: seq<Value>): seq<Variant> {
    if refs == [] then []
    else
      var past, ref := Variants(refs[..|refs| - 1]), refs[|refs| - 1];
      if ref.Obj? && RefId(ref.fields).Some? && InlineBase(ref.fields).Some? then
        Put(past, Variant(RefId(ref.fields).value, InlineBase(ref.fields).value))
      else past
  }

  /** A normalised SPAWN action; the scheduling fields are passed through as they are. */
  datatype Spawn = Spawn(enemyId: string, levelVariant: int, routeIndex: Value, spawnTime: Value, count: Value,
                         interval: Value, spawnGroup: Value, hidden: bool, variantId: Option<string>)

  /** `_normalize_action`, lines 347-389. */
  function NormalizeAction(action: Fields, refMap: map<string, RefEntry>): Option<Spawn> {
    var key := NonEmptyText(Get(action, "key"));
    if Get(action, "actionType") != Str("SPAWN") || key.None? then None
    else
      var k := key.value;
      var known := k in refMap;
      Some(Spawn(
        if known then refMap[k].id else k,
        if known then refMap[k].level else IntOrZero(Get(action, "level")),
        Get(action, "routeIndex"),
        if Has(action, "spawnTime") then Get(action, "spawnTime") else Get(action, "preDelay"),
        Get(action, "count"),
        Get(action, "interval"),
        OrElse(OrElse(Get(action, "hiddenGroup"), Get(action, "randomSpawnGroupKey")), Null),
        Truthy(Get(action, "hiddenGroup")),
        if known then refMap[k].variantId else None))
  }

  /** The items of a list, nothing for anything else. */
  function Items(v: Value): seq<Value> { if v.Arr? then v.items else [] }

  /** `raw.get(key)` when it is an integer, else the position of `raw` in its list. */
  function IndexOr(v: Value, position: int): int {
    match v case Int(n) => n case Bool(b) => (if b then 1 else 0) case _ => position
  }

  /** The accepted elements of a list, in order; `f` sees each element with its position. */
  function Collect<T>(xs: seq<Value>, f: (Value, nat) -> Option<T>): seq<T> {
    if xs == [] then []
    else
      var past, last := Collect(xs[..|xs| - 1], f), f(xs[|xs| - 1], |xs| - 1);
      if last.Some? then past + [last.value] else past
  }

  function SpawnOf(refMap: map<string, RefEntry>): (Value, nat) -> Option<Spawn> {
    (v: Value, i: nat) => if v.Obj? then NormalizeAction(v.fields, refMap) else None
  }

  /** The normalised SPAWN actions of a fragment. */
  function Spawns(actions: seq<Value>, refMap: map<string, RefEntry>): seq<Spawn> { Collect(actions, SpawnOf(refMap)) }

  function FragmentOf(refMap: map<string, RefEntry>): (Value, nat) -> Option<seq<Spawn>> {
    (v: Value, i: nat) => if v.Obj? then Some(Spawns(Items(Get(v.fields, "actions")), refMap)) else None
  }

  function Fragments(fragments: seq<Value>, refMap: map<string, RefEntry>): seq<seq<Spawn>> {
    Collect(fragments, FragmentOf(refMap))
  }

  datatype Wave = Wave(waveIndex: int, fragments: seq<seq<Spawn>>)

  function WaveOf(refMap: map<string, RefEntry>): (Value, nat) -> Option<Wave> {
    (v: Value, i: nat) =>
      if v.Obj? then
        Some(Wave(IndexOr(Get(v.fields, "waveIndex"), i), Fragments(Items(Get(v.fields, "fragments")), refMap)))
      else None
  }

  function Waves(waves: seq<Value>, refMap: map<string, RefEntry>): seq<Wave> { Collect(waves, WaveOf(refMap)) }

  function RouteIndexOf(): (Value, nat) -> Option<int> {
    (v: Value, i: nat) => if v.Obj? then Some(IndexOr(Get(v.fields, "routeIndex"), i)) else None
  }

  function RouteIndices(routes: seq<Value>): seq<int> { Collect(routes, RouteIndexOf()) }

  /** The place of a tile; `y` counts rows from the top of the board. */
  datatype Tile = Tile(x: int, y: int)

  function TileOf(y: nat, defs: seq<Value>): (Value, nat) -> Option<Tile> {
    (v: Value, x: nat) => if v.Int? && 0 <= v.n < |defs| && defs[v.n].Obj? then Some(Tile(x, y)) else None
  }

  function Tiles(grid: seq<Value>, defs: seq<Value>): seq<Tile> {
    if grid == [] then []
    else Tiles(grid[..|grid| - 1], defs) + Collect(Items(grid[|grid| - 1]), TileOf(|grid| - 1, defs))
  }

  /** The tiles of a level, where its map and its tile definitions are lists. */
  function TilesOf(level: Fields): seq<Tile> {
    var mapData := Get(level, "mapData");
    if mapData.Obj? && Get(mapData.fields, "map").Arr? && Get(mapData.fields, "tiles").Arr?
      then Tiles(Get(mapData.fields, "map").items, Get(mapData.fields, "tiles").items)
    else []
  }

  datatype NormalLevel = NormalLevel(tiles: seq<Tile>, routes: seq<int>, waves: seq<Wave>, variants: seq<Variant>)

  function Normal(level: Fields): NormalLevel {
    var refs := RefsOf(level);
    NormalLevel(TilesOf(level), RouteIndices(Items(Get(level, "routes"))),
                Waves(Items(Get(level, "waves")), RefMap(refs)), Variants(refs))
  }

  // ---------------------------------------------------------------- which ref wins, and where

  /** A ref goes by its `id`, or by its `key` where the `id` is missing or empty. */
  ghost predicate IsRef(ref: Value, rid: string) {
    ref.Obj? && rid != ""
    && (Get(ref.fields, "id") == Str(rid)
        || (!Truthy(Get(ref.fields, "id")) && Get(ref.fields, "key") == Str(rid)))
  }

  ghost predicate IsInline(ref: Value, rid: string) { IsRef(ref, rid) && InlineBase(ref.fields).Some? }

  ghost predicate IsSomeInline(ref: Value) { ref.Obj? && RefId(ref.fields).Some? && InlineBase(ref.fields).Some? }

  ghost predicate IsLastRef(refs: seq<Value>, i: int, rid: string) {
    0 <= i < |refs| && IsRef(refs[i], rid) && forall j :: i < j < |refs| ==> !IsRef(refs[j], rid)
  }

  ghost predicate IsLastInline(refs: seq<Value>, i: int, rid: string) {
    0 <= i < |refs| && IsInline(refs[i], rid) && forall j :: i < j < |refs| ==> !IsInline(refs[j], rid)
  }

  ghost predicate IsFirstInline(refs: seq<Value>, i: int, rid: string) {
    0 <= i < |refs| && IsInline(refs[i], rid) && forall j :: 0 <= j < i ==> !IsInline(refs[j], rid)
  }

  /** The last ref of an id wins, whatever its kind. */
  lemma {:induction false} LastRefWins(refs: seq<Value>, i: int, rid: string)
    requires IsLastRef(refs, i, rid)
    ensures rid in RefMap(refs) && RefMap(refs)[rid] == EntryOf(refs[i].fields, rid)
    decreases |refs|
  {
    var n := |refs| - 1;
    if i < n {
      assert !IsRef(refs[n], rid);
      LastRefWins(refs[..n], i, rid);
    }
  }

  /** Every entry of the ref map is that of a last ref. */
  lemma {:induction false} EntryIsOfLastRef(refs: seq<Value>, rid: string)
    requires rid in RefMap(refs)
    ensures exists i :: IsLastRef(refs, i, rid)
  {
    var n := |refs| - 1;
    if IsRef(refs[n], rid) {
      assert IsLastRef(refs, n, rid);
    } else {
      EntryIsOfLastRef(refs[..n], rid);
      var i :| IsLastRef(refs[..n], i, rid);
      assert IsLastRef(refs, i, rid);
    }
  }

  /** The last inline ref of an id gives its variant, */
  lemma {:induction false} LastInlineWins(refs: seq<Value>, i: int, rid: string)
    requires IsLastInline(refs, i, rid)
    ensures Variant(rid, InlineBase(refs[i].fields).value) in Variants(refs)
    decreases |refs|
  {
    var n := |refs| - 1;
    if i < n {
      assert !IsInline(refs[n], rid);
      LastInlineWins(refs[..n], i, rid);
      OtherStays(refs, Variant(rid, InlineBase(refs[i].fields).value));
    } else {
      MapsAgree(refs[..n]);
      PutIsUpdate(Variants(refs[..n]), Variant(rid, InlineBase(refs[n].fields).value));
    }
  }

  lemma {:induction false} OtherStays(refs: seq<Value>, v: Variant)
    requires refs != [] && v in Variants(refs[..|refs| - 1]) && !IsInline(refs[|refs| - 1], v.variantId)
    ensures v in Variants(refs)
  {
    var ref := refs[|refs| - 1];
    if IsSomeInline(ref) {
      MapsAgree(refs[..|refs| - 1]);
      PutIsUpdate(Variants(refs[..|refs| - 1]), Variant(RefId(ref.fields).value, InlineBase(ref.fields).value));
    }
  }

  lemma StillLastInline(refs: seq<Value>, i: int, rid: string)
    requires refs != [] && IsLastInline(refs[..|refs| - 1], i, rid) && !IsInline(refs[|refs| - 1], rid)
    ensures IsLastInline(refs, i, rid)
  {
    var past := refs[..|refs| - 1];
    forall j | i < j < |refs| ensures !IsInline(refs[j], rid) {
      if j < |past| {
        assert refs[j] == past[j];
      }
    }
  }

  ghost predicate GivesVariant(refs: seq<Value>, i: int, v: Variant) {
    IsLastInline(refs, i, v.variantId) && InlineBase(refs[i].fields) == Some(v.prefabKey)
  }

  /** and there are no other variants. */
  lemma {:induction false} VariantIsOfLastInline(refs: seq<Value>, v: Variant)
    requires v in Variants(refs)
    ensures exists i :: GivesVariant(refs, i, v)
  {
    var n := |refs| - 1;
    var past, ref := refs[..n], refs[n];
    if IsSomeInline(ref) {
      var w := Variant(RefId(ref.fields).value, InlineBase(ref.fields).value);
      MapsAgree(past);
      PutIsUpdate(Variants(past), w);
      if v == w {
        assert GivesVariant(refs, n, v);
        return;
      }
      assert v in Variants(past) && v.variantId != w.variantId;
    }
    VariantIsOfLastInline(past, v);
    var i :| GivesVariant(past, i, v);
    StillLastInline(refs, i, v.variantId);
    assert GivesVariant(refs, i, v);
  }

  function IndexOf(vs: seq<Variant>, id: string): nat {
    if vs == [] || vs[0].variantId == id then 0 else 1 + IndexOf(vs[1..], id)
  }

  lemma {:induction false} PutKeepsPlaces(vs: seq<Variant>, v: Variant, id: string)
    ensures IndexOf(Put(vs, v), id)
         == if id == v.variantId || IndexOf(vs, id) < |vs| then IndexOf(vs, id) else |Put(vs, v)|
    ensures |Put(vs, v)| == if IndexOf(vs, v.variantId) < |vs| then |vs| else |vs| + 1
    ensures IndexOf(vs, id) <= |vs|
  {
    if vs != [] {
      PutKeepsPlaces(vs[1..], v, id);
      assert ([vs[0]] + Put(vs[1..], v))[1..] == Put(vs[1..], v) && ([v] + vs[1..])[1..] == vs[1..];
    }
  }

  /** Variants stand in the order in which their ids first had an inline ref. */
  lemma {:induction false} FirstInlineFirst(refs: seq<Value>, i: int, a: string, j: int, b: string)
    requires IsFirstInline(refs, i, a) && IsFirstInline(refs, j, b) && i < j
    ensures IndexOf(Variants(refs), a) < IndexOf(Variants(refs), b) < |Variants(refs)|
    decreases |refs|
  {
    var n := |refs| - 1;
    if j < n {
      FirstInlineFirst(refs[..n], i, a, j, b);
    } else {
      InlineIsPlaced(refs[..n], i, a);
      NoInlineNoPlace(refs[..n], b);
    }
    NextPlaces(refs, a);
    NextPlaces(refs, b);
  }

  /** One ref more leaves the ids where they are; a new one goes to the end. */
  lemma NextPlaces(refs: seq<Value>, id: string)
    requires refs != []
    ensures var past, all := Variants(refs[..|refs| - 1]), Variants(refs);
            IndexOf(past, id) <= |past| <= |all|
            && IndexOf(all, id) == if IndexOf(past, id) == |past| && !IsInline(refs[|refs| - 1], id) then |all|
                                   else IndexOf(past, id)
    ensures IsInline(refs[|refs| - 1], id) ==> IndexOf(Variants(refs), id) < |Variants(refs)|
  {
    var past, ref := Variants(refs[..|refs| - 1]), refs[|refs| - 1];
    PutKeepsPlaces(past, Variant("", ""), id);
    if IsSomeInline(ref) {
      PutKeepsPlaces(past, Variant(RefId(ref.fields).value, InlineBase(ref.fields).value), id);
    }
  }

  lemma {:induction false} InlineIsPlaced(refs: seq<Value>, i: int, id: string)
    requires 0 <= i < |refs| && IsInline(refs[i], id)
    ensures IndexOf(Variants(refs), id) < |Variants(refs)|
    decreases |refs|
  {
    var n := |refs| - 1;
    if i < n {
      InlineIsPlaced(refs[..n], i, id);
    }
    NextPlaces(refs, id);
  }

  lemma {:induction false} NoInlineNoPlace(refs: seq<Value>, id: string)
    requires forall i :: 0 <= i < |refs| ==> !IsInline(refs[i], id)
    ensures IndexOf(Variants(refs), id) == |Variants(refs)|
  {
    if refs != [] {
      NoInlineNoPlace(refs[..|refs| - 1], id);
      NextPlaces(refs, id);
    }
  }

  // ---------------------------------------------------------------- what is collected

  /** The positions of the accepted elements. */
  function Places<T>(xs: seq<Value>, f: (Value, nat) -> Option<T>): seq<nat> {
    if xs == [] then []
    else Places(xs[..|xs| - 1], f) + (if f(xs[|xs| - 1], |xs| - 1).Some? then [|xs| - 1] else [])
  }

  /** Nothing is added and the order is kept: the n-th element comes from the n-th accepted position. */
  lemma {:induction false} CollectInOrder<T>(xs: seq<Value>, f: (Value, nat) -> Option<T>)
    ensures |Places(xs, f)| == |Collect(xs, f)|
    ensures forall n :: 0 <= n < |Places(xs, f)| ==>
              Places(xs, f)[n] < |xs| && f(xs[Places(xs, f)[n]], Places(xs, f)[n]) == Some(Collect(xs, f)[n])
    ensures forall m, n :: 0 <= m < n < |Places(xs, f)| ==> Places(xs, f)[m] < Places(xs, f)[n]
  {
    if xs != [] {
      CollectInOrder(xs[..|xs| - 1], f);
    }
  }

  /** Nothing accepted is lost. */
  lemma {:induction false} AcceptedIsCollected<T>(xs: seq<Value>, f: (Value, nat) -> Option<T>, i: nat)
    requires i < |xs| && f(xs[i], i).Some?
    ensures i in Places(xs, f)
    decreases |xs|
  {
    if i < |xs| - 1 {
      AcceptedIsCollected(xs[..|xs| - 1], f, i);
    }
  }

  lemma {:induction false} TileRows(grid: seq<Value>, defs: seq<Value>)
    ensures forall t :: t in Tiles(grid, defs) ==> 0 <= t.y < |grid|
    ensures Distinct(Tiles(grid, defs))
  {
    if grid != [] {
      var y := |grid| - 1;
      TileRows(grid[..y], defs);
      var past, row := Tiles(grid[..y], defs), Collect(Items(grid[y]), TileOf(y, defs));
      var at := Places(Items(grid[y]), TileOf(y, defs));
      CollectInOrder(Items(grid[y]), TileOf(y, defs));
      forall n | 0 <= n < |row| ensures row[n] == Tile(at[n], y) {
      }
      forall i, j | 0 <= i < j < |past + row| ensures (past + row)[i] != (past + row)[j] {
        if i < |past| <= j {
          assert past[i] in Tiles(grid[..y], defs);
        }
      }
    }
  }

  /** No two tiles of a level share a place, so its tiles never clash with each other in the table. */
  lemma TilesAreDistinct(level: Fields)
    ensures Distinct(TilesOf(level))
  {
    var mapData := Get(level, "mapData");
    if mapData.Obj? && Get(mapData.fields, "map").Arr? && Get(mapData.fields, "tiles").Arr? {
      TileRows(Get(mapData.fields, "map").items, Get(mapData.fields, "tiles").items);
    }
  }

  // ---------------------------------------------------------------- the code

  /** `_enemy_ref_map`, lines 146-192. */
  method EnemyRefMap(level: Fields) returns (out: map<string, RefEntry>)
    ensures out == RefMap(RefsOf(level))
    ensures forall i, rid :: IsLastRef(RefsOf(level), i, rid) ==>
              rid in out && out[rid] == EntryOf(RefsOf(level)[i].fields, rid)
  {
    var listed := Get(level, "enemyDbRefs");
    if !listed.Arr? {
      listed := Get(level, "enemies");
    }
    if !listed.Arr? {
      return map[];
    }
    var refs := listed.items;
    out := map[];
    for i := 0 to |refs|
      invariant out == RefMap(refs[..i])
    {
      assert refs[..i + 1][..i] == refs[..i];
      if !refs[i].Obj? {
        continue;
      }
      var ref := refs[i].fields;
      var rid := RefId(ref);
      if rid.None? {
        continue;
      }
      var enemyId, variantId := rid.value, None;
      if Get(ref, "useDb") == Bool(false) {
        var prefab := InlinePrefabKey(ref);
        if prefab.Some? {
          enemyId, variantId := prefab.value, rid;
        }
      }
      out := out[rid.value := RefEntry(enemyId, variantId, IntOrZero(Get(ref, "level")))];
    }
    assert refs[..|refs|] == refs;
    forall i, rid | IsLastRef(refs, i, rid) ensures rid in out && out[rid] == EntryOf(refs[i].fields, rid) {
      LastRefWins(refs, i, rid);
    }
  }

  /** `_collect_variants`, lines 195-244. */
  method CollectVariants(level: Fields) returns (variants: seq<Variant>)
    ensures variants == Variants(RefsOf(level))
    ensures forall v :: v in variants <==> exists i :: GivesVariant(RefsOf(level), i, v)
  {
    var listed := Get(level, "enemyDbRefs");
    if !listed.Arr? {
      listed := Get(level, "enemies");
    }
    if !listed.Arr? {
      return [];
    }
    var refs := listed.items;
    variants := [];
    for i := 0 to |refs|
      invariant variants == Variants(refs[..i])
    {
      assert refs[..i + 1][..i] == refs[..i];
      if !refs[i].Obj? || Get(refs[i].fields, "useDb") != Bool(false) {
        continue;
      }
      var ref := refs[i].fields;
      var rid, prefab := RefId(ref), InlinePrefabKey(ref);
      if rid.None? || prefab.None? {
        continue;
      }
      variants := Put(variants, Variant(rid.value, prefab.value));
    }
    assert refs[..|refs|] == refs;
    forall v ensures v in variants <==> exists i :: GivesVariant(refs, i, v) {
      if v in variants {
        VariantIsOfLastInline(refs, v);
      }
      if i :| GivesVariant(refs, i, v) {
        LastInlineWins(refs, i, v.variantId);
      }
    }
  }

  /** The innermost loop of `_normalize_waves`, lines 410-415. */
  method NormalizeActions(actions: seq<Value>, refMap: map<string, RefEntry>) returns (out: seq<Spawn>)
    ensures out == Spawns(actions, refMap)
  {
    out := [];
    for i := 0 to |actions|
      invariant out == Spawns(actions[..i], refMap)
    {
      assert actions[..i + 1][..i] == actions[..i];
      if !actions[i].Obj? {
        continue;
      }
      var normalized := NormalizeAction(actions[i].fields, refMap);
      if normalized.Some? {
        out := out + [normalized.value];
      }
    }
    assert actions[..|actions|] == actions;
  }

  /** The loop over fragments, lines 405-416. */
  method NormalizeFragments(fragments: seq<Value>, refMap: map<string, RefEntry>) returns (out: seq<seq<Spawn>>)
    ensures out == Fragments(fragments, refMap)
  {
    out := [];
    for i := 0 to |fragments|
      invariant out == Fragments(fragments[..i], refMap)
    {
      assert fragments[..i + 1][..i] == fragments[..i];
      if !fragments[i].Obj? {
        continue;
      }
      var actions := NormalizeActions(Items(Get(fragments[i].fields, "actions")), refMap);
      out := out + [actions];
    }
    assert fragments[..|fragments|] == fragments;
  }

  /** `_normalize_waves`, lines 392-426. */
  method NormalizeWaves(level: Fields, refMap: map<string, RefEntry>) returns (out: seq<Wave>)
    ensures out == Waves(Items(Get(level, "waves")), refMap)
  {
    var listed := Get(level, "waves");
    if !listed.Arr? {
      return [];
    }
    var waves := listed.items;
    out := [];
    for i := 0 to |waves|
      invariant out == Waves(waves[..i], refMap)
    {
      assert waves[..i + 1][..i] == waves[..i];
      if !waves[i].Obj? {
        continue;
      }
      var fragments := NormalizeFragments(Items(Get(waves[i].fields, "fragments")), refMap);
      var index := Get(waves[i].fields, "waveIndex");
      out := out + [Wave(if index.Int? then index.n else if index.Bool? then (if index.flag then 1 else 0) else i,
                         fragments)];
    }
    assert waves[..|waves|] == waves;
  }

  /** The indices of `_normalize_routes`, lines 327-333. */
  method NormalizeRoutes(level: Fields) returns (out: seq<int>)
    ensures out == RouteIndices(Items(Get(level, "routes")))
  {
    var listed := Get(level, "routes");
    if !listed.Arr? {
      return [];
    }
    var routes := listed.items;
    out := [];
    for i := 0 to |routes|
      invariant out == RouteIndices(routes[..i])
    {
      assert routes[..i + 1][..i] == routes[..i];
      if routes[i].Obj? {
        var index := Get(routes[i].fields, "routeIndex");
        out := out + [if index.Int? then index.n else if index.Bool? then (if index.flag then 1 else 0) else i];
      }
    }
    assert routes[..|routes|] == routes;
  }

  /** The row loop of `_normalize_tiles`, lines 264-281. */
  method NormalizeTileRow(row: seq<Value>, y: nat, defs: seq<Value>) returns (out: seq<Tile>)
    ensures out == Collect(row, TileOf(y, defs))
  {
    out := [];
    for x := 0 to |row|
      invariant out == Collect(row[..x], TileOf(y, defs))
    {
      assert row[..x + 1][..x] == row[..x];
      if !row[x].Int? || !(0 <= row[x].n < |defs|) || !defs[row[x].n].Obj? {
        continue;
      }
      out := out + [Tile(x, y)];
    }
    assert row[..|row|] == row;
  }

  /** `_normalize_tiles`, lines 247-282; a row that is no list has no tiles. */
  method NormalizeTiles(level: Fields) returns (out: seq<Tile>)
    ensures out == TilesOf(level) && Distinct(out)
  {
    TilesAreDistinct(level);
    out := [];
    var mapData := Get(level, "mapData");
    if !mapData.Obj? || !Get(mapData.fields, "map").Arr? || !Get(mapData.fields, "tiles").Arr? {
      return;
    }
    var grid, defs := Get(mapData.fields, "map").items, Get(mapData.fields, "tiles").items;
    for y := 0 to |grid|
      invariant out == Tiles(grid[..y], defs)
    {
      assert grid[..y + 1][..y] == grid[..y];
      assert Tiles(grid[..y + 1], defs) == Tiles(grid[..y], defs) + Collect(Items(grid[y]), TileOf(y, defs));
      if !grid[y].Arr? {
        assert out + [] == out;
        continue;
      }
      var row := NormalizeTileRow(grid[y].items, y, defs);
      out := out + row;
    }
    assert grid[..|grid|] == grid;
  }

  /** `normalize_level` of a real level, lines 429-456. */
  method NormalizeLevel(level: Fields) returns (n: NormalLevel)
    ensures n == Normal(level)
    ensures Distinct(n.tiles) && OneEach(n.variants)
    ensures forall w :: w in n.waves ==> AllDeclared(w.fragments, n.variants)
  {
    TilesAreDistinct(level);
    MapsAgree(RefsOf(level));
    LevelDeclares(Items(Get(level, "waves")), level);
    var tiles := NormalizeTiles(level);
    var refMap := EnemyRefMap(level);
    var routes := NormalizeRoutes(level);
    var waves := NormalizeWaves(level, refMap);
    var variants := CollectVariants(level);
    n := NormalLevel(tiles, routes, waves, variants);
  }

  // ---------------------------------------------------------------- main results

  ghost predicate OneEach(vs: seq<Variant>) {
    forall i, j :: 0 <= i < j < |vs| ==> vs[i].variantId != vs[j].variantId
  }

  lemma {:induction false} PutIsUpdate(vs: seq<Variant>, v: Variant)
    requires OneEach(vs)
    ensures OneEach(Put(vs, v))
    ensures forall w :: w in Put(vs, v) <==> w == v || (w in vs && w.variantId != v.variantId)
  {
    if vs != [] {
      var rest := vs[1..];
      assert vs == [vs[0]] + rest;
      if vs[0].variantId != v.variantId {
        PutIsUpdate(rest, v);
      }
    }
  }

  /** No variant id is emitted twice, and every entry of the ref map that carries a variant id has
      its own id and the base of a collected variant, although the two last-wins maps are filled
      from different subsets of the refs. */
  lemma {:induction false} MapsAgree(refs: seq<Value>)
    ensures OneEach(Variants(refs))
    ensures forall rid :: rid in RefMap(refs) && RefMap(refs)[rid].variantId.Some? ==>
              RefMap(refs)[rid].variantId == Some(rid) && Variant(rid, RefMap(refs)[rid].id) in Variants(refs)
  {
    if refs != [] {
      var past, ref := refs[..|refs| - 1], refs[|refs| - 1];
      MapsAgree(past);
      if ref.Obj? && RefId(ref.fields).Some? && InlineBase(ref.fields).Some? {
        PutIsUpdate(Variants(past), Variant(RefId(ref.fields).value, InlineBase(ref.fields).value));
      }
    }
  }

  /** No spawn dangles: a normalised spawn that carries a variant id has exactly one collected
      variant with that id, and its prefab key is the spawn's own enemy. */
  lemma NoSpawnDangles(level: Fields, action: Fields)
    ensures var spawn, variants := NormalizeAction(action, RefMap(RefsOf(level))), Variants(RefsOf(level));
            spawn.Some? && spawn.value.variantId.Some? ==>
              var id := spawn.value.variantId.value;
              Variant(id, spawn.value.enemyId) in variants
              && forall i, j :: 0 <= i < j < |variants| ==> variants[i].variantId != id || variants[j].variantId != id
  {
    MapsAgree(RefsOf(level));
  }

  /** Exactly the SPAWN actions with a non-empty key become spawns. */
  lemma {:induction false} SpawnActionsExactly(actions: seq<Value>, refMap: map<string, RefEntry>, i: nat)
    requires i < |actions|
    ensures i in Places(actions, SpawnOf(refMap))
            <==> actions[i].Obj? && Get(actions[i].fields, "actionType") == Str("SPAWN")
                 && Get(actions[i].fields, "key").Str? && Get(actions[i].fields, "key") != Str("")
  {
    CollectInOrder(actions, SpawnOf(refMap));
    if SpawnOf(refMap)(actions[i], i).Some? {
      AcceptedIsCollected(actions, SpawnOf(refMap), i);
    }
  }

  /** A level number as it is stored: anything but an integer is 0. */
  ghost predicate IsLevel(v: Value, r: int) {
    (v.Int? ==> r == v.n) && (v == Bool(true) ==> r == 1) && (!v.Int? && v != Bool(true) ==> r == 0)
  }

  /** The spawn names enemy, level and variant as the last ref of the action's key says; a key without
      ref stands for itself. */
  ghost predicate FollowsTheLastRef(spawn: Spawn, action: Fields, refs: seq<Value>) {
    Get(action, "key").Str?
    && var key := Get(action, "key").text;
       var alone := forall i :: 0 <= i < |refs| ==> !IsRef(refs[i], key);
       (alone ==> spawn.enemyId == key && spawn.variantId.None? && IsLevel(Get(action, "level"), spawn.levelVariant))
       && forall i :: IsLastRef(refs, i, key) ==>
            IsLevel(Get(refs[i].fields, "level"), spawn.levelVariant)
            && match InlineBase(refs[i].fields)
               case Some(base) => spawn.variantId == Some(key) && spawn.enemyId == base
               case None => spawn.variantId.None? && spawn.enemyId == key
  }

  /** The schedule is the action's own, with the delay standing in for a missing time, and a hidden group
      before a random one. */
  ghost predicate KeepsTheSchedule(spawn: Spawn, action: Fields) {
    var hidden, random := Get(action, "hiddenGroup"), Get(action, "randomSpawnGroupKey");
    spawn.routeIndex == Get(action, "routeIndex") && spawn.count == Get(action, "count")
    && spawn.interval == Get(action, "interval")
    && (Has(action, "spawnTime") ==> spawn.spawnTime == Get(action, "spawnTime"))
    && (!Has(action, "spawnTime") ==> spawn.spawnTime == Get(action, "preDelay"))
    && (spawn.hidden <==> Truthy(hidden)) && (Truthy(hidden) ==> spawn.spawnGroup == hidden)
    && (!Truthy(hidden) && Truthy(random) ==> spawn.spawnGroup == random)
    && (!Truthy(hidden) && !Truthy(random) ==> spawn.spawnGroup == Null)
  }

  lemma ActionFollowsTheLastRef(action: Fields, refs: seq<Value>)
    ensures var spawn := NormalizeAction(action, RefMap(refs));
            spawn.Some? ==> FollowsTheLastRef(spawn.value, action, refs)
  {
    if NormalizeAction(action, RefMap(refs)).Some? {
      var key := Get(action, "key").text;
      if key in RefMap(refs) {
        EntryIsOfLastRef(refs, key);
      }
      forall i | IsLastRef(refs, i, key)
        ensures key in RefMap(refs) && RefMap(refs)[key] == EntryOf(refs[i].fields, key)
      {
        LastRefWins(refs, i, key);
      }
    }
  }

  lemma SpawnFollowsTheLastRef(level: Fields, actions: seq<Value>, n: nat)
    requires n < |Spawns(actions, RefMap(RefsOf(level)))|
    ensures var refs, at := RefsOf(level), Places(actions, SpawnOf(RefMap(RefsOf(level))));
            n < |at| && at[n] < |actions| && actions[at[n]].Obj?
            && FollowsTheLastRef(Spawns(actions, RefMap(refs))[n], actions[at[n]].fields, refs)
            && KeepsTheSchedule(Spawns(actions, RefMap(refs))[n], actions[at[n]].fields)
  {
    var refs, at := RefsOf(level), Places(actions, SpawnOf(RefMap(RefsOf(level))));
    CollectInOrder(actions, SpawnOf(RefMap(refs)));
    ActionFollowsTheLastRef(actions[at[n]].fields, refs);
  }

  predicate Carries(action: Fields, refs: seq<Value>, id: string) {
    var spawn := NormalizeAction(action, RefMap(refs));
    spawn.Some? && spawn.value.variantId == Some(id)
  }

  lemma SpawnActionFor(id: string)
    ensures exists action :: Get(action, "actionType") == Str("SPAWN") && Get(action, "key") == Str(id)
  {
    var kind, key := ("actionType", Str("SPAWN")), ("key", Str(id));
    var action := [kind, key];
    assert action[1..] == [key];
    assert Get(action, "key") == Get([key], "key");
    assert Get(action, "actionType") == Str("SPAWN");
  }

  /** A collected variant can be carried by a spawn if and only if the last ref of its id, of whatever
      kind, is an inline one. */
  lemma VariantIsCarriedExactly(refs: seq<Value>, v: Variant)
    requires v in Variants(refs)
    ensures (exists action :: Carries(action, refs, v.variantId))
            <==> (exists i :: IsLastRef(refs, i, v.variantId) && InlineBase(refs[i].fields).Some?)
  {
    MapsAgree(refs);
    VariantsNamed(refs);
    if action :| Carries(action, refs, v.variantId) {
      EntryIsOfLastRef(refs, v.variantId);
      var i :| IsLastRef(refs, i, v.variantId);
      LastRefWins(refs, i, v.variantId);
    }
    if i :| IsLastRef(refs, i, v.variantId) && InlineBase(refs[i].fields).Some? {
      LastRefWins(refs, i, v.variantId);
      SpawnActionFor(v.variantId);
      var action :| Get(action, "actionType") == Str("SPAWN") && Get(action, "key") == Str(v.variantId);
      assert Carries(action, refs, v.variantId);
    }
  }

  // ---------------------------------------------------------------- whole levels

  ghost predicate Declared(s: Spawn, vs: seq<Variant>) {
    s.variantId.Some? ==> Variant(s.variantId.value, s.enemyId) in vs
  }

  ghost predicate AllDeclared(fragments: seq<seq<Spawn>>, vs: seq<Variant>) {
    forall f, i :: 0 <= f < |fragments| && 0 <= i < |fragments[f]| ==> Declared(fragments[f][i], vs)
  }

  lemma SpawnsDeclared(actions: seq<Value>, level: Fields)
    ensures forall s :: s in Spawns(actions, RefMap(RefsOf(level))) ==> Declared(s, Variants(RefsOf(level)))
  {
    var spawns := Spawns(actions, RefMap(RefsOf(level)));
    var at := Places(actions, SpawnOf(RefMap(RefsOf(level))));
    CollectInOrder(actions, SpawnOf(RefMap(RefsOf(level))));
    forall n | 0 <= n < |spawns| ensures Declared(spawns[n], Variants(RefsOf(level))) {
      NoSpawnDangles(level, actions[at[n]].fields);
    }
  }

  lemma FragmentsDeclared(fragments: seq<Value>, level: Fields)
    ensures AllDeclared(Fragments(fragments, RefMap(RefsOf(level))), Variants(RefsOf(level)))
  {
    var out := Fragments(fragments, RefMap(RefsOf(level)));
    var at := Places(fragments, FragmentOf(RefMap(RefsOf(level))));
    CollectInOrder(fragments, FragmentOf(RefMap(RefsOf(level))));
    forall f, i | 0 <= f < |out| && 0 <= i < |out[f]| ensures Declared(out[f][i], Variants(RefsOf(level))) {
      SpawnsDeclared(Items(Get(fragments[at[f]].fields, "actions")), level);
    }
  }

  /** Every spawn of every wave of a level either has no variant or one the level declares, with the
      spawn's own enemy as its base. */
  lemma LevelDeclares(waves: seq<Value>, level: Fields)
    ensures forall w :: w in Waves(waves, RefMap(RefsOf(level))) ==> AllDeclared(w.fragments, Variants(RefsOf(level)))
  {
    var out := Waves(waves, RefMap(RefsOf(level)));
    var at := Places(waves, WaveOf(RefMap(RefsOf(level))));
    CollectInOrder(waves, WaveOf(RefMap(RefsOf(level))));
    forall n | 0 <= n < |out| ensures AllDeclared(out[n].fragments, Variants(RefsOf(level))) {
      FragmentsDeclared(Items(Get(waves[at[n]].fields, "fragments")), level);
    }
  }

  lemma {:induction false} VariantsNamed(refs: seq<Value>)
    ensures forall v :: v in Variants(refs) ==> v.variantId != "" && v.prefabKey != ""
  {
    MapsAgree(refs);
    if refs != [] {
      var past, ref := refs[..|refs| - 1], refs[|refs| - 1];
      VariantsNamed(past);
      MapsAgree(past);
      if ref.Obj? && RefId(ref.fields).Some? && InlineBase(ref.fields).Some? {
        PutIsUpdate(Variants(past), Variant(RefId(ref.fields).value, InlineBase(ref.fields).value));
      }
    }
  }

  lemma RefsPair(a: Value, b: Value)
    requires a.Obj? && RefId(a.fields).Some? && InlineBase(a.fields).Some?
    requires b.Obj? && RefId(b.fields) == RefId(a.fields) && InlineBase(b.fields).None?
    ensures Variants([a, b]) == [Variant(RefId(a.fields).value, InlineBase(a.fields).value)]
    ensures RefMap([a, b]) == map[RefId(a.fields).value := EntryOf(b.fields, RefId(a.fields).value)]
  {
    assert [a][..0] == [];
    assert Variants([a]) == Put(Variants([]), Variant(RefId(a.fields).value, InlineBase(a.fields).value));
    assert RefMap([a]) == RefMap([])[RefId(a.fields).value := EntryOf(a.fields, RefId(a.fields).value)];
    assert [a, b][..1] == [a];
    assert RefMap([a, b]) == RefMap([a])[RefId(b.fields).value := EntryOf(b.fields, RefId(b.fields).value)];
  }

  /** The converse of `NoSpawnDangles` is false: a later db-backed ref of the same id leaves a
      collected variant that no spawn of the level carries. */
  lemma VariantWithoutSpawn()
    ensures var prefab := Obj([("prefabKey", Obj([("m_value", Str("e"))]))]);
            var inline := Obj([("id", Str("a")), ("useDb", Bool(false)), ("overwrittenData", prefab)]);
            var refs := [inline, Obj([("id", Str("a"))])];
            Variants(refs) == [Variant("a", "e")] && "a" in RefMap(refs) && RefMap(refs)["a"].variantId.None?
  {
    var inner: Fields := [("m_value", Str("e"))];
    var over: Fields := [("prefabKey", Obj(inner))];
    var a: Fields := [("id", Str("a")), ("useDb", Bool(false)), ("overwrittenData", Obj(over))];
    var b: Fields := [("id", Str("a"))];
    assert a[1..] == [("useDb", Bool(false)), ("overwrittenData", Obj(over))];
    assert a[1..][1..] == [("overwrittenData", Obj(over))];
    assert b[1..] == [];
    assert Get(a, "useDb") == Get(a[1..], "useDb") == Bool(false);
    assert Get(a, "overwrittenData") == Get(a[1..], "overwrittenData");
    assert Get(a[1..], "overwrittenData") == Get(a[1..][1..], "overwrittenData") == Obj(over);
    assert InlinePrefabKey(a) == Some("e") && RefId(a) == Some("a") && RefId(b) == Some("a") && Get(b, "useDb") == Null;
    RefsPair(Obj(a), Obj(b));
  }
}
