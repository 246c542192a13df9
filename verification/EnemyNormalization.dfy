/** Enemy levels: extraction, inheritance from the base level and finalisation, in place
    (src/arknights_mcp/importers/enemy_normalization.py). */
module EnemyNormalization {
  import opened Json
  import opened Lists

  /** Source key and normalised key. */
  const STAT_MAP: seq<(string, string)> :=
    [("maxHp", "hp"), ("atk", "atk"), ("def", "def"), ("magicResistance", "res"),
     ("moveSpeed", "moveSpeed"), ("baseAttackTime", "attackInterval"), ("massLevel", "weight")]

  const SCALAR_MAP: seq<(string, string)> :=
    [("lifePointReduce", "lifePointReduction"), ("rangeRadius", "attackRange"), ("applyWay", "targeting")]

  const IMMUNITY_MAP: seq<(string, string)> :=
    [("stunImmune", "STUN"), ("silenceImmune", "SILENCE"), ("sleepImmune", "SLEEP"), ("frozenImmune", "FROZEN"),
     ("levitateImmune", "LEVITATE"), ("disarmedCombatImmune", "DISARMED_COMBAT"), ("fearedImmune", "FEARED"),
     ("palsyImmune", "PALSY"), ("attractImmune", "ATTRACT")]

  const INHERITED_KEYS: seq<string> :=
    ["hp", "atk", "def", "res", "moveSpeed", "attackInterval", "weight", "lifePointReduction", "attackRange",
     "targeting"]

  // ---------------------------------------------------------------- cells

  /** `_defined_m_value`, `None` when the cell is explicitly not defined. */
  function DefinedValue(cell: Value): Option<Value> {
    if cell.Obj? then
      if !Has(cell.fields, "m_defined") || Truthy(Get(cell.fields, "m_defined")) then Some(Get(cell.fields, "m_value"))
      else None
    else Some(cell)
  }

  /** The dictionary under `key`, or an empty one. */
  function Dict(v: Value, key: string): seq<(string, Value)> {
    if v.Obj? && Get(v.fields, key).Obj? then Get(v.fields, key).fields else []
  }

  /** What a dictionary of cells sets for one source key. */
  function Setting(cells: seq<(string, Value)>, source: string): Option<Value> {
    if !Has(cells, source) then None
    else match DefinedValue(Get(cells, source))
      case Some(v) => if v == Null then None else Some(v)
      case None => None
  }

  // ---------------------------------------------------------------- what a level means

  /** The source cell of a normalised key, and what the level itself defines there. */
  function SourceOf(table: seq<(string, string)>, key: string): Option<string> {
    if table == [] then None else if table[0].1 == key then Some(table[0].0) else SourceOf(table[1..], key)
  }

  function Own(raw: Value, key: string): Option<Value> {
    var data := Dict(raw, "enemyData");
    match SourceOf(STAT_MAP, key)
    case Some(source) => Setting(Dict(Obj(data), "attributes"), source)
    case None =>
      match SourceOf(SCALAR_MAP, key)
      case Some(source) => Setting(data, source)
      case None => None
  }

  function OwnFlag(raw: Value, token: string): Option<bool> {
    match SourceOf(IMMUNITY_MAP, token)
    case None => None
    case Some(source) =>
      match Setting(Dict(Obj(Dict(raw, "enemyData")), "attributes"), source)
      case Some(Bool(b)) => Some(b)
      case _ => None
  }

  function OwnLevel(raw: Value): Option<Value> {
    if raw.Obj? && IsNumber(Get(raw.fields, "level")) then Some(Get(raw.fields, "level")) else None
  }

  /** The base: the first level whose number equals 0 (`False` and `0.0` do), else the first level. */
  predicate IsLevelZero(raw: Value) { OwnLevel(raw).Some? && NumberOf(OwnLevel(raw).value) == 0.0 }

  function FirstZero(raws: seq<Value>, i: nat): (b: nat)
    requires i <= |raws|
    ensures raws != [] ==> b < |raws|
    decreases |raws| - i
  {
    if i == |raws| then 0 else if IsLevelZero(raws[i]) then i else FirstZero(raws, i + 1)
  }

  function OrElse<T>(own: Option<T>, base: Option<T>): Option<T> { if own.Some? then own else base }

  function Effective(raws: seq<Value>, i: nat, key: string): Option<Value>
    requires i < |raws|
  {
    OrElse(Own(raws[i], key), Own(raws[FirstZero(raws, 0)], key))
  }

  function EffectiveFlag(raws: seq<Value>, i: nat, token: string): Option<bool>
    requires i < |raws|
  {
    OrElse(OwnFlag(raws[i], token), OwnFlag(raws[FirstZero(raws, 0)], token))
  }

  /** The private `_immunityFlags` entry. */
  type Flags = Option<map<string, bool>>

  function FlagOf(flags: Flags, token: string): Option<bool> {
    match flags case None => None case Some(f) => Lookup(f, token)
  }

  /** The contents of one level dictionary: its mapped keys, its flags, and the keys that
      finalisation adds. */
  datatype LevelDict = LevelDict(level: Option<Value>, stats: map<string, Value>, flags: Flags,
                                 declaredNone: bool, immunities: Option<seq<string>>)

  predicate IsRadius(v: Value) { v.Int? || v.Real? }

  predicate DeclaresNone(v: Option<Value>) { v.Some? && IsRadius(v.value) && NumberOf(v.value) < 0.0 }

  function StoredRadius(radius: Option<Value>): Option<Value> {
    if radius.Some? && !(IsRadius(radius.value) && NumberOf(radius.value) >= 0.0) then None else radius
  }

  /** The stored value of a mapped key: a negative or unreadable radius is not stored. */
  function Stored(raws: seq<Value>, i: nat, key: string): Option<Value>
    requires i < |raws|
  {
    if key == "attackRange" then StoredRadius(Effective(raws, i, key)) else Effective(raws, i, key)
  }

  ghost predicate StatsAre(raws: seq<Value>, i: nat, stats: map<string, Value>)
    requires i < |raws|
  {
    forall key :: Lookup(stats, key) == Stored(raws, i, key)
  }

  /** The sorted list of the effectively true tokens; absent iff no flag is effective. */
  ghost predicate ImmunitiesAre(raws: seq<Value>, i: nat, immunities: Option<seq<string>>)
    requires i < |raws|
  {
    && (immunities.None? <==> forall token :: EffectiveFlag(raws, i, token).None?)
    && (immunities.Some? ==>
          StrictlySorted(immunities.value)
          && forall token :: token in immunities.value <==> EffectiveFlag(raws, i, token) == Some(true))
  }

  /** A finished level dictionary equals its declarative meaning. */
  ghost predicate Means(raws: seq<Value>, i: nat, l: LevelDict)
    requires i < |raws|
  {
    && l.level == OwnLevel(raws[i])
    && StatsAre(raws, i, l.stats)
    && (l.declaredNone <==> DeclaresNone(Effective(raws, i, "attackRange")))
    && ImmunitiesAre(raws, i, l.immunities)
  }

  ghost predicate StrictlySorted(s: seq<string>) {
    forall i, j :: 0 <= i < j < |s| ==> TextLt(s[i], s[j])
  }

  // ---------------------------------------------------------------- the code

  class Level {
    var level: Option<Value>
    var stats: map<string, Value>
    var flags: Flags
    var declaredNone: bool
    var immunities: Option<seq<string>>

    constructor ()
      ensures View() == LevelDict(None, map[], None, false, None)
    {
      level, stats, flags, declaredNone, immunities := None, map[], None, false, None;
    }

    function View(): LevelDict
      reads this
    {
      LevelDict(level, stats, flags, declaredNone, immunities)
    }
  }

  /** What extraction leaves: exactly what the level itself defines. */
  ghost predicate Extracted(l: LevelDict, raw: Value) {
    && l.level == OwnLevel(raw)
    && (forall key :: Lookup(l.stats, key) == Own(raw, key))
    && (forall token :: FlagOf(l.flags, token) == OwnFlag(raw, token))
    && (l.flags.Some? ==> l.flags.value != map[])
    && !l.declaredNone && l.immunities.None?
  }

  predicate DistinctTargets(table: seq<(string, string)>) {
    forall i, j :: 0 <= i < j < |table| ==> table[i].1 != table[j].1
  }

  lemma {:induction false} SourceOfAppend(table: seq<(string, string)>, e: (string, string), key: string)
    ensures SourceOf(table + [e], key) ==
            if SourceOf(table, key).Some? then SourceOf(table, key) else if e.1 == key then Some(e.0) else None
  {
    if table != [] {
      assert (table + [e])[1..] == table[1..] + [e];
      SourceOfAppend(table[1..], e, key);
    }
  }

  lemma {:induction false} SourceOfMember(table: seq<(string, string)>, key: string)
    ensures SourceOf(table, key).Some? <==> exists i :: 0 <= i < |table| && table[i].1 == key
  {
    if table != [] {
      SourceOfMember(table[1..], key);
      if exists i :: 0 <= i < |table[1..]| && table[1..][i].1 == key {
        var i :| 0 <= i < |table[1..]| && table[1..][i].1 == key;
        assert table[i + 1].1 == key;
      }
      if exists i :: 1 <= i < |table| && table[i].1 == key {
        var i :| 1 <= i < |table| && table[i].1 == key;
        assert table[1..][i - 1].1 == key;
      }
    }
  }

  /** What a table reads for one normalised key, by the readable values of its cells. */
  function TableSetting<T>(table: seq<(string, string)>, cells: seq<(string, Value)>, read: Value -> Option<T>,
                           key: string): Option<T>
  {
    match SourceOf(table, key)
    case None => None
    case Some(source) => match Setting(cells, source) case Some(v) => read(v) case None => None
  }

  function AnyValue(): Value -> Option<Value> { v => Some(v) }

  function BoolOnly(): Value -> Option<bool> { (v: Value) => if v.Bool? then Some(v.flag) else None }

  /** The loops of `_normalize_enemy_data_stats` and `_immunity_flags`, lines 150-160 and 188-195. */
  method Extract<T>(table: seq<(string, string)>, cells: seq<(string, Value)>, read: Value -> Option<T>,
                    start: map<string, T>)
    returns (out: map<string, T>)
    requires DistinctTargets(table)
    ensures forall key :: Lookup(out, key) == OrElse(TableSetting(table, cells, read, key), Lookup(start, key))
  {
    out := start;
    for i := 0 to |table|
      invariant forall key :: Lookup(out, key) == OrElse(TableSetting(table[..i], cells, read, key), Lookup(start, key))
    {
      var (source, target) := table[i];
      assert table[..i + 1] == table[..i] + [table[i]];
      forall key ensures SourceOf(table[..i + 1], key) ==
          if SourceOf(table[..i], key).Some? then SourceOf(table[..i], key)
          else if target == key then Some(source) else None
      {
        SourceOfAppend(table[..i], table[i], key);
      }
      SourceOfMember(table[..i], target);
      var setting := Setting(cells, source);
      if setting.Some? && read(setting.value).Some? {
        out := out[target := read(setting.value).value];
      }
    }
    assert table[..|table|] == table;
  }

  lemma TablesAreClean()
    ensures DistinctTargets(STAT_MAP) && DistinctTargets(SCALAR_MAP)
    ensures forall i, j :: 0 <= i < |STAT_MAP| && 0 <= j < |SCALAR_MAP| ==> STAT_MAP[i].1 != SCALAR_MAP[j].1
  {
  }

  lemma ImmunityTableIsClean()
    ensures DistinctTargets(IMMUNITY_MAP)
  {
  }

  lemma TablesAreDisjoint(key: string)
    ensures SourceOf(STAT_MAP, key).None? || SourceOf(SCALAR_MAP, key).None?
  {
    SourceOfMember(STAT_MAP, key);
    SourceOfMember(SCALAR_MAP, key);
    TablesAreClean();
  }

  /** `_INHERITED_LEVEL_KEYS` is what the two tables produce. */
  lemma OnlyInheritedKeys(raw: Value, key: string)
    requires Own(raw, key).Some?
    ensures key in INHERITED_KEYS
  {
    SourceOfMember(STAT_MAP, key);
    SourceOfMember(SCALAR_MAP, key);
    TablesAreInherited();
  }

  lemma TablesAreInherited()
    ensures forall i :: 0 <= i < |STAT_MAP| ==> STAT_MAP[i].1 in INHERITED_KEYS
    ensures forall i :: 0 <= i < |SCALAR_MAP| ==> SCALAR_MAP[i].1 in INHERITED_KEYS
  {
    assert forall i :: 0 <= i < |STAT_MAP| ==> STAT_MAP[i].1 == INHERITED_KEYS[i];
    assert forall i :: 0 <= i < |SCALAR_MAP| ==> SCALAR_MAP[i].1 == INHERITED_KEYS[i + 7];
  }

  lemma ReadFlag(cells: seq<(string, Value)>, token: string)
    ensures TableSetting(IMMUNITY_MAP, cells, BoolOnly(), token) ==
            match SourceOf(IMMUNITY_MAP, token)
            case None => None
            case Some(source) => (match Setting(cells, source) case Some(Bool(b)) => Some(b) case _ => None)
  {
  }

  /** `_normalize_enemy_level`, lines 198-213. */
  method NormalizeEnemyLevel(raw: Value) returns (l: Level)
    ensures fresh(l) && Extracted(l.View(), raw)
  {
    l := new Level();
    if !raw.Obj? {
      ForeignLevel(raw);
      return;
    }
    var level := Get(raw.fields, "level");
    if IsNumber(level) {
      l.level := Some(level);
    }
    var data := Get(raw.fields, "enemyData");
    if !data.Obj? {
      ForeignLevel(raw);
      return;
    }
    var attributes := Get(data.fields, "attributes");
    var cells := if attributes.Obj? then attributes.fields else [];
    assert cells == Dict(Obj(Dict(raw, "enemyData")), "attributes");
    TablesAreClean();
    ImmunityTableIsClean();
    var stats := Extract(STAT_MAP, cells, AnyValue(), map[]);
    stats := Extract(SCALAR_MAP, data.fields, AnyValue(), stats);
    forall key ensures Lookup(stats, key) == Own(raw, key) {
      TablesAreDisjoint(key);
    }
    l.stats := stats;
    var flags := Extract(IMMUNITY_MAP, cells, BoolOnly(), map[]);
    if flags != map[] {
      l.flags := Some(flags);
    }
    forall token ensures FlagOf(l.flags, token) == OwnFlag(raw, token) {
      assert FlagOf(l.flags, token) == Lookup(flags, token);
      ReadFlag(cells, token);
    }
  }

  /** Nothing is defined where there is no `enemyData`. */
  lemma ForeignLevel(raw: Value)
    requires !raw.Obj? || !Get(raw.fields, "enemyData").Obj?
    ensures forall key :: Own(raw, key).None?
    ensures forall token :: OwnFlag(raw, token).None?
  {
  }

  function MergedFlags(own: Flags, base: Flags): Flags {
    match base
    case None => own
    case Some(b) => Some(match own case None => b case Some(o) => b + o)
  }

  function MergedStats(own: map<string, Value>, base: map<string, Value>, keys: seq<string>): map<string, Value> {
    map key | key in own.Keys + base.Keys && (key in own || key in keys) :: if key in own then own[key] else base[key]
  }

  function WithDelta(own: LevelDict, base: LevelDict, keys: seq<string>): LevelDict {
    own.(stats := MergedStats(own.stats, base.stats, keys), flags := MergedFlags(own.flags, base.flags))
  }

  lemma MergedNext(own: map<string, Value>, base: map<string, Value>, keys: seq<string>, i: nat)
    requires i < |keys|
    ensures MergedStats(own, base, keys[..i + 1]) ==
            var m := MergedStats(own, base, keys[..i]);
            if keys[i] !in m && keys[i] in base then m[keys[i] := base[keys[i]]] else m
  {
    assert keys[..i + 1] == keys[..i] + [keys[i]];
  }

  /** The inner loop of `_apply_level_deltas`, lines 240-242. */
  method InheritStats(l: Level, base: Level, keys: seq<string>)
    requires l != base
    modifies l`stats
    ensures l.stats == MergedStats(old(l.stats), base.stats, keys)
  {
    assert MergedStats(l.stats, base.stats, keys[..0]) == l.stats;
    for i := 0 to |keys|
      invariant l.stats == MergedStats(old(l.stats), base.stats, keys[..i])
    {
      MergedNext(old(l.stats), base.stats, keys, i);
      if keys[i] !in l.stats && keys[i] in base.stats {
        l.stats := l.stats[keys[i] := base.stats[keys[i]]];
      }
    }
    assert keys[..|keys|] == keys;
  }

  /** The body of the loop over the levels, lines 240-248. */
  method InheritFrom(l: Level, base: Level, keys: seq<string>)
    requires l != base
    modifies l
    ensures l.View() == WithDelta(old(l.View()), base.View(), keys)
  {
    InheritStats(l, base, keys);
    if base.flags.Some? {
      var own := if l.flags.Some? then l.flags.value else map[];
      assert base.flags.value + map[] == base.flags.value;
      l.flags := Some(base.flags.value + own);
    }
  }

  predicate IsZero(level: Option<Value>) { level.Some? && IsNumber(level.value) && NumberOf(level.value) == 0.0 }

  /** `next((lvl for lvl in levels if lvl.get("level") == 0), levels[0])`. */
  function BaseIndex(levels: seq<LevelDict>, i: nat): (b: nat)
    requires i <= |levels|
    ensures levels != [] ==> b < |levels|
    decreases |levels| - i
  {
    if i == |levels| then 0 else if IsZero(levels[i].level) then i else BaseIndex(levels, i + 1)
  }

  ghost predicate Separate(levels: seq<Level>) {
    forall i, j :: 0 <= i < j < |levels| ==> levels[i] != levels[j]
  }

  function Views(levels: seq<Level>): (v: seq<LevelDict>)
    reads levels
    ensures |v| == |levels| && forall i :: 0 <= i < |levels| ==> v[i] == levels[i].View()
  {
    if levels == [] then [] else [levels[0].View()] + Views(levels[1..])
  }

  method FindBase(levels: seq<Level>) returns (b: nat)
    ensures b == BaseIndex(Views(levels), 0)
  {
    b := 0;
    while b < |levels| && !IsZero(levels[b].level)
      invariant b <= |levels| && BaseIndex(Views(levels), 0) == BaseIndex(Views(levels), b)
    {
      b := b + 1;
    }
    if b == |levels| {
      b := 0;
    }
  }

  /** `_apply_level_deltas`, lines 224-248: every level but the base takes its delta, in place.
      `keys` is `_INHERITED_LEVEL_KEYS`. */
  method ApplyLevelDeltas(levels: seq<Level>, keys: seq<string>)
    requires Separate(levels)
    modifies levels
    ensures levels != [] ==>
              var before := old(Views(levels));
              var b := BaseIndex(before, 0);
              Views(levels)[b] == before[b]
              && forall i :: 0 <= i < |levels| && i != b ==> Views(levels)[i] == WithDelta(before[i], before[b], keys)
  {
    if levels == [] {
      return;
    }
    var b := FindBase(levels);
    ghost var before := Views(levels);
    InheritAll(levels, b, keys, before);
    assert Views(levels) == Inherited(before, b, keys, |levels|);
    forall i | 0 <= i < |levels|
      ensures Views(levels)[i] == if i == b then before[b] else WithDelta(before[i], before[b], keys)
    {
      InheritedAt(before, b, keys, |levels|, i);
    }
  }

  /** The loop over the levels. */
  method InheritAll(levels: seq<Level>, b: nat, keys: seq<string>, ghost before: seq<LevelDict>)
    requires Separate(levels) && b < |levels| && Shows(levels, before)
    modifies levels
    ensures Shows(levels, Inherited(before, b, keys, |levels|))
  {
    for i := 0 to |levels|
      invariant Shows(levels, Inherited(before, b, keys, i))
    {
      if levels[i] != levels[b] {
        InheritedAt(before, b, keys, i, i);
        InheritedAt(before, b, keys, i, b);
        InheritAt(levels, i, b, keys, Inherited(before, b, keys, i));
      }
    }
  }

  ghost predicate Shows(levels: seq<Level>, views: seq<LevelDict>)
    reads levels
  {
    |views| == |levels| && forall j :: 0 <= j < |levels| ==> levels[j].View() == views[j]
  }

  /** The levels after the first n of them, but for the base, took their deltas. */
  function Inherited(before: seq<LevelDict>, b: nat, keys: seq<string>, n: nat): (after: seq<LevelDict>)
    requires b < |before| && n <= |before|
    ensures |after| == |before|
  {
    if n == 0 then before
    else
      var past := Inherited(before, b, keys, n - 1);
      if n - 1 == b then past else past[n - 1 := WithDelta(before[n - 1], before[b], keys)]
  }

  lemma {:induction false} InheritedAt(before: seq<LevelDict>, b: nat, keys: seq<string>, n: nat, i: nat)
    requires b < |before| && n <= |before| && i < |before|
    ensures Inherited(before, b, keys, n)[i]
         == if i < n && i != b then WithDelta(before[i], before[b], keys) else before[i]
  {
    if n > 0 {
      InheritedAt(before, b, keys, n - 1, i);
    }
  }

  /** One level takes its delta; the others stay as they are. */
  method InheritAt(levels: seq<Level>, i: nat, b: nat, keys: seq<string>, ghost views: seq<LevelDict>)
    requires Separate(levels) && i < |levels| && b < |levels| && i != b && Shows(levels, views)
    modifies levels[i]
    ensures Shows(levels, views[i := WithDelta(views[i], views[b], keys)])
  {
    InheritFrom(levels[i], levels[b], keys);
  }

  /** The sorted list of the tokens whose flag is true; a dictionary may be walked in any order. */
  method SortedTokens(flags: map<string, bool>) returns (tokens: seq<string>)
    ensures StrictlySorted(tokens)
    ensures forall token :: token in tokens <==> Lookup(flags, token) == Some(true)
  {
    var collected: seq<string> := [];
    var pending := flags.Keys;
    while pending != {}
      invariant pending <= flags.Keys && Distinct(collected)
      invariant forall token :: token in collected <==> token in flags && token !in pending && flags[token]
      decreases pending
    {
      var token :| token in pending;
      pending := pending - {token};
      if flags[token] {
        collected := collected + [token];
      }
    }
    tokens := Sort(collected, TextLe);
    forall a, b ensures TextLe(a, b) || TextLe(b, a) { TextTotal(a, b); }
    forall a, b, c | TextLe(a, b) && TextLe(b, c) ensures TextLe(a, c) { TextTransitive(a, b, c); }
    SortSorts(collected, TextLe);
    DistinctPermutes(collected, tokens);
    PermutedElements(collected, tokens);
    assert forall token :: token in tokens <==> token in Elements(tokens);
  }

  /** What finalisation makes of a level dictionary. */
  ghost predicate Finalized(before: LevelDict, after: LevelDict) {
    && after.level == before.level && after.flags == None
    && (forall key :: Lookup(after.stats, key) ==
          if key == "attackRange" then StoredRadius(Lookup(before.stats, key)) else Lookup(before.stats, key))
    && (after.declaredNone <==> before.declaredNone || DeclaresNone(Lookup(before.stats, "attackRange")))
    && (if before.flags.None? || before.flags.value == map[] then after.immunities == before.immunities
        else after.immunities.Some? && StrictlySorted(after.immunities.value)
             && forall token :: token in after.immunities.value <==> Lookup(before.flags.value, token) == Some(true))
  }

  /** `_finalize_level`, lines 251-296. */
  method FinalizeLevel(l: Level)
    modifies l
    ensures Finalized(old(l.View()), l.View())
  {
    if "attackRange" in l.stats {
      var radius := l.stats["attackRange"];
      if IsRadius(radius) {
        if NumberOf(radius) < 0.0 {
          l.stats := l.stats - {"attackRange"};
          l.declaredNone := true;
        }
      } else {
        l.stats := l.stats - {"attackRange"};
      }
    }
    var flags := l.flags;
    l.flags := None;
    if flags.Some? && flags.value != map[] {
      var tokens := SortedTokens(flags.value);
      l.immunities := Some(tokens);
    }
  }

  // ---------------------------------------------------------------- inheritance has its meaning

  /** What inheritance leaves: the effective value of every key and flag, nothing finalised yet. */
  ghost predicate IsEffective(l: LevelDict, raws: seq<Value>, i: nat)
    requires i < |raws|
  {
    && l.level == OwnLevel(raws[i])
    && (forall key :: Lookup(l.stats, key) == Effective(raws, i, key))
    && (forall token :: FlagOf(l.flags, token) == EffectiveFlag(raws, i, token))
    && (l.flags.Some? ==> l.flags.value != map[])
    && !l.declaredNone && l.immunities.None?
  }

  lemma MergedStatsAreOrElse(own: map<string, Value>, base: map<string, Value>, keys: seq<string>, key: string)
    requires key in base ==> key in keys
    ensures Lookup(MergedStats(own, base, keys), key) == OrElse(Lookup(own, key), Lookup(base, key))
  {
  }

  lemma MergedFlagsAreOrElse(own: Flags, base: Flags, token: string)
    ensures FlagOf(MergedFlags(own, base), token) == OrElse(FlagOf(own, token), FlagOf(base, token))
    ensures base.Some? && base.value != map[] ==> MergedFlags(own, base).Some? && MergedFlags(own, base).value != map[]
  {
    if base.Some? && base.value != map[] {
      var t :| t in base.value;
      assert t in MergedFlags(own, base).value;
    }
  }

  lemma {:induction false} DeltaIsEffective(own: LevelDict, base: LevelDict, raws: seq<Value>, i: nat)
    requires i < |raws| && Extracted(own, raws[i]) && Extracted(base, raws[FirstZero(raws, 0)])
    ensures IsEffective(WithDelta(own, base, INHERITED_KEYS), raws, i)
  {
    var d := WithDelta(own, base, INHERITED_KEYS);
    var rawBase := raws[FirstZero(raws, 0)];
    forall key ensures Lookup(d.stats, key) == Effective(raws, i, key) {
      assert Lookup(base.stats, key) == Own(rawBase, key) && Lookup(own.stats, key) == Own(raws[i], key);
      if key in base.stats {
        OnlyInheritedKeys(rawBase, key);
      }
      MergedStatsAreOrElse(own.stats, base.stats, INHERITED_KEYS, key);
    }
    forall token ensures FlagOf(d.flags, token) == EffectiveFlag(raws, i, token) {
      MergedFlagsAreOrElse(own.flags, base.flags, token);
    }
    MergedFlagsAreOrElse(own.flags, base.flags, "");
  }

  lemma {:induction false} SameBase(levels: seq<LevelDict>, raws: seq<Value>, i: nat)
    requires |levels| == |raws| && i <= |raws| && forall j :: 0 <= j < |raws| ==> Extracted(levels[j], raws[j])
    ensures BaseIndex(levels, i) == FirstZero(raws, i)
    decreases |raws| - i
  {
    if i < |raws| {
      assert Extracted(levels[i], raws[i]);
      SameBase(levels, raws, i + 1);
    }
  }

  lemma StatsMean(before: LevelDict, after: LevelDict, raws: seq<Value>, i: nat)
    requires i < |raws| && IsEffective(before, raws, i) && Finalized(before, after)
    ensures StatsAre(raws, i, after.stats)
    ensures after.declaredNone <==> DeclaresNone(Effective(raws, i, "attackRange"))
  {
    forall key ensures Lookup(after.stats, key) == Stored(raws, i, key) {
      StatMeans(before, after, raws, i, key);
    }
    DenialMeans(before, after, raws, i);
  }

  lemma DenialMeans(before: LevelDict, after: LevelDict, raws: seq<Value>, i: nat)
    requires i < |raws| && IsEffective(before, raws, i) && Finalized(before, after)
    ensures after.declaredNone <==> DeclaresNone(Effective(raws, i, "attackRange"))
  {
    assert Lookup(before.stats, "attackRange") == Effective(raws, i, "attackRange");
  }

  lemma StatMeans(before: LevelDict, after: LevelDict, raws: seq<Value>, i: nat, key: string)
    requires i < |raws| && IsEffective(before, raws, i) && Finalized(before, after)
    ensures Lookup(after.stats, key) == Stored(raws, i, key)
  {
    assert Lookup(before.stats, key) == Effective(raws, i, key);
  }

  lemma FlagsMean(before: LevelDict, after: LevelDict, raws: seq<Value>, i: nat)
    requires i < |raws| && IsEffective(before, raws, i) && Finalized(before, after)
    ensures ImmunitiesAre(raws, i, after.immunities)
  {
    forall t ensures FlagOf(before.flags, t) == EffectiveFlag(raws, i, t) { }
    if before.flags.Some? {
      var token :| token in before.flags.value;
      assert EffectiveFlag(raws, i, token) == Some(before.flags.value[token]);
    }
  }

  /** Line 318. */
  method ExtractLevels(raws: seq<Value>) returns (levels: seq<Level>)
    ensures |levels| == |raws| && Separate(levels)
    ensures forall i :: 0 <= i < |raws| ==> fresh(levels[i]) && Extracted(levels[i].View(), raws[i])
  {
    levels := [];
    for i := 0 to |raws|
      invariant |levels| == i && Separate(levels)
      invariant forall j :: 0 <= j < i ==> fresh(levels[j]) && Extracted(levels[j].View(), raws[j])
    {
      var l := NormalizeEnemyLevel(raws[i]);
      levels := levels + [l];
    }
  }

  /** Lines 320-321. */
  method FinalizeLevels(levels: seq<Level>)
    requires Separate(levels)
    modifies levels
    ensures forall i :: 0 <= i < |levels| ==> Finalized(old(Views(levels))[i], Views(levels)[i])
  {
    ghost var before := Views(levels);
    ghost var after := before;
    for i := 0 to |levels|
      invariant |after| == |before| && forall j :: i <= j < |before| ==> after[j] == before[j]
      invariant forall j :: 0 <= j < i ==> Finalized(before[j], after[j])
      invariant forall j :: 0 <= j < |levels| ==> levels[j].View() == after[j]
    {
      FinalizeLevel(levels[i]);
      after := after[i := levels[i].View()];
    }
    assert Views(levels) == after;
  }

  /** Lines 318-321: every level of one enemy, extracted, completed from the base level and finalised,
      all in place. Each ends as its declarative meaning. */
  method NormalizeLevels(raws: seq<Value>) returns (levels: seq<Level>)
    ensures |levels| == |raws|
    ensures forall i :: 0 <= i < |levels| ==> Means(raws, i, Views(levels)[i])
    ensures forall b :: IsBase(raws, b) ==> AllDecided(raws, b, Views(levels))
  {
    levels := ExtractLevels(raws);
    ghost var own := Views(levels);
    ApplyLevelDeltas(levels, INHERITED_KEYS);
    SameBase(own, raws, 0);
    ghost var effective := Views(levels);
    FinalizeLevels(levels);
    forall i | 0 <= i < |levels| ensures Means(raws, i, Views(levels)[i]) {
      if i != FirstZero(raws, 0) {
        DeltaIsEffective(own[i], own[FirstZero(raws, 0)], raws, i);
      }
      StatsMean(effective[i], Views(levels)[i], raws, i);
      FlagsMean(effective[i], Views(levels)[i], raws, i);
    }
    forall b | IsBase(raws, b) ensures AllDecided(raws, b, Views(levels)) {
      MeaningsAreDecided(raws, b, Views(levels));
    }
  }

  // ---------------------------------------------------------------- what the raw cells decide

  ghost predicate IsStat(source: string, target: string) {
    || (source == "maxHp" && target == "hp") || (source == "atk" && target == "atk")
    || (source == "def" && target == "def") || (source == "magicResistance" && target == "res")
    || (source == "moveSpeed" && target == "moveSpeed")
    || (source == "baseAttackTime" && target == "attackInterval") || (source == "massLevel" && target == "weight")
  }

  ghost predicate IsScalar(source: string, target: string) {
    (source == "lifePointReduce" && target == "lifePointReduction") || (source == "applyWay" && target == "targeting")
  }

  ghost predicate IsImmunity(source: string, token: string) {
    || (source == "stunImmune" && token == "STUN") || (source == "silenceImmune" && token == "SILENCE")
    || (source == "sleepImmune" && token == "SLEEP") || (source == "frozenImmune" && token == "FROZEN")
    || (source == "levitateImmune" && token == "LEVITATE")
    || (source == "disarmedCombatImmune" && token == "DISARMED_COMBAT")
    || (source == "fearedImmune" && token == "FEARED") || (source == "palsyImmune" && token == "PALSY")
    || (source == "attractImmune" && token == "ATTRACT")
  }

  /** The cell of a raw level among its scalars, if it has one. */
  ghost function DataCell(raw: Value, source: string): Option<Value> {
    if raw.Obj? && Get(raw.fields, "enemyData").Obj? && Has(Get(raw.fields, "enemyData").fields, source)
      then Some(Get(Get(raw.fields, "enemyData").fields, source))
    else None
  }

  /** The cell of a raw level among its attributes, if it has one. */
  ghost function AttributeCell(raw: Value, source: string): Option<Value> {
    match DataCell(raw, "attributes")
    case Some(Obj(cells)) => if Has(cells, source) then Some(Get(cells, source)) else None
    case _ => None
  }

  /** A cell that leaves the question to the base: absent, null, or marked as not defined. */
  ghost predicate Undefined(cell: Option<Value>) {
    || cell.None? || cell.value == Null
    || (cell.value.Obj? && Get(cell.value.fields, "m_value") == Null)
    || (cell.value.Obj? && Has(cell.value.fields, "m_defined") && !Truthy(Get(cell.value.fields, "m_defined")))
  }

  ghost function ValueIn(cell: Value): Value { if cell.Obj? then Get(cell.fields, "m_value") else cell }

  /** A defined cell is stored as it is, an undefined one takes what the base has. */
  ghost predicate Follows(cell: Option<Value>, stored: Option<Value>, base: Option<Value>) {
    if Undefined(cell) then stored == base else stored == Some(ValueIn(cell.value))
  }

  /** A defined radius is stored if it is a number of at least 0 and denied if it is negative. */
  ghost predicate RadiusFollows(cell: Option<Value>, l: LevelDict, base: LevelDict) {
    var stored := Lookup(l.stats, "attackRange");
    if Undefined(cell) then stored == Lookup(base.stats, "attackRange") && l.declaredNone == base.declaredNone
    else
      match ValueIn(cell.value)
      case Int(n) => l.declaredNone == (n < 0) && stored == if n < 0 then None else Some(Int(n))
      case Real(x) => l.declaredNone == (x < 0.0) && stored == if x < 0.0 then None else Some(Real(x))
      case _ => !l.declaredNone && stored.None?
  }

  ghost predicate Answers(cell: Option<Value>) { !Undefined(cell) && ValueIn(cell.value).Bool? }

  ghost predicate Immune(l: LevelDict, token: string) { l.immunities.Some? && token in l.immunities.value }

  /** A flag is answered by its own cell, otherwise by the base. */
  ghost predicate FlagFollows(cell: Option<Value>, token: string, l: LevelDict, base: LevelDict) {
    if Answers(cell) then l.immunities.Some? && (Immune(l, token) <==> ValueIn(cell.value) == Bool(true))
    else Immune(l, token) <==> Immune(base, token)
  }

  ghost predicate LevelFollows(raw: Value, level: Option<Value>) {
    if raw.Obj? && (Get(raw.fields, "level").Int? || Get(raw.fields, "level").Real? || Get(raw.fields, "level").Bool?)
      then level == Some(Get(raw.fields, "level"))
    else level.None?
  }

  /** The finished level, decided cell by cell; `base` is the finished base level. */
  ghost predicate Decided(raw: Value, l: LevelDict, base: LevelDict) {
    && LevelFollows(raw, l.level)
    && (forall source, target :: IsStat(source, target) ==>
          Follows(AttributeCell(raw, source), Lookup(l.stats, target), Lookup(base.stats, target)))
    && (forall source, target :: IsScalar(source, target) ==>
          Follows(DataCell(raw, source), Lookup(l.stats, target), Lookup(base.stats, target)))
    && RadiusFollows(DataCell(raw, "rangeRadius"), l, base)
    && (forall source, token :: IsImmunity(source, token) ==> FlagFollows(AttributeCell(raw, source), token, l, base))
    && (l.immunities.Some? ==> StrictlySorted(l.immunities.value))
    && (l.immunities.None? <==>
          base.immunities.None?
          && forall source, token :: IsImmunity(source, token) ==> !Answers(AttributeCell(raw, source)))
  }

  /** What the base level itself falls back on. */
  const NOTHING := LevelDict(None, map[], None, false, None)

  ghost predicate IsZeroLevel(raw: Value) {
    raw.Obj? && (Get(raw.fields, "level") == Int(0) || Get(raw.fields, "level") == Real(0.0)
                 || Get(raw.fields, "level") == Bool(false))
  }

  /** The first level numbered 0, or the first of all where none is. */
  ghost predicate IsBase(raws: seq<Value>, b: nat) {
    b < |raws|
    && if IsZeroLevel(raws[b]) then forall j :: 0 <= j < b ==> !IsZeroLevel(raws[j])
       else b == 0 && forall j :: 0 <= j < |raws| ==> !IsZeroLevel(raws[j])
  }

  ghost predicate AllDecided(raws: seq<Value>, b: nat, views: seq<LevelDict>) {
    b < |raws| == |views|
    && Decided(raws[b], views[b], NOTHING)
    && forall i :: 0 <= i < |raws| ==> Decided(raws[i], views[i], views[b])
  }

  lemma {:induction false} BaseIsFirstZero(raws: seq<Value>, b: nat, i: nat)
    requires IsBase(raws, b) && i <= |raws| && forall j :: 0 <= j < i ==> !IsZeroLevel(raws[j])
    ensures FirstZero(raws, i) == b
    decreases |raws| - i
  {
    if i < |raws| && !IsZeroLevel(raws[i]) {
      BaseIsFirstZero(raws, b, i + 1);
    }
  }

  lemma {:induction false} SourceAt(table: seq<(string, string)>, i: nat)
    requires i < |table| && DistinctTargets(table)
    ensures SourceOf(table, table[i].1) == Some(table[i].0)
  {
    if i > 0 {
      assert table[0].1 != table[i].1;
      SourceAt(table[1..], i - 1);
    }
  }

  ghost function Said(cell: Option<Value>): Option<Value> {
    if Undefined(cell) then None else Some(ValueIn(cell.value))
  }

  lemma SettingSays(cells: seq<(string, Value)>, source: string)
    ensures Setting(cells, source) == Said(if Has(cells, source) then Some(Get(cells, source)) else None)
  {
  }

  lemma AttributeSays(raw: Value, source: string)
    ensures Setting(Dict(Obj(Dict(raw, "enemyData")), "attributes"), source) == Said(AttributeCell(raw, source))
  {
    SettingSays(Dict(Obj(Dict(raw, "enemyData")), "attributes"), source);
    if !Has(Dict(raw, "enemyData"), "attributes") {
      GetAbsent(Dict(raw, "enemyData"), "attributes");
    }
  }

  lemma DataSays(raw: Value, source: string)
    ensures Setting(Dict(raw, "enemyData"), source) == Said(DataCell(raw, source))
  {
    SettingSays(Dict(raw, "enemyData"), source);
  }

  lemma {:induction false} GetAbsent(cells: seq<(string, Value)>, key: string)
    requires !Has(cells, key)
    ensures Get(cells, key) == Null
  {
    if cells != [] {
      assert cells[0].0 != key;
      assert forall i :: 0 <= i < |cells[1..]| ==> cells[1..][i] == cells[i + 1];
      GetAbsent(cells[1..], key);
    }
  }

  lemma ImmunityIs(source: string, token: string)
    requires IsImmunity(source, token)
    ensures SourceOf(IMMUNITY_MAP, token) == Some(source)
  {
    ImmunityTableIsClean();
    var i := if token == "STUN" then 0 else if token == "SILENCE" then 1 else if token == "SLEEP" then 2
             else if token == "FROZEN" then 3 else if token == "LEVITATE" then 4
             else if token == "DISARMED_COMBAT" then 5 else if token == "FEARED" then 6
             else if token == "PALSY" then 7 else 8;
    SourceAt(IMMUNITY_MAP, i);
  }

  lemma TokenHasSource(token: string)
    requires SourceOf(IMMUNITY_MAP, token).Some?
    ensures exists source :: IsImmunity(source, token)
  {
    SourceOfMember(IMMUNITY_MAP, token);
    var i :| 0 <= i < |IMMUNITY_MAP| && IMMUNITY_MAP[i].1 == token;
    assert IsImmunity(IMMUNITY_MAP[i].0, token);
  }

  lemma OwnStatSays(raw: Value, source: string, target: string)
    requires IsStat(source, target)
    ensures Own(raw, target) == Said(AttributeCell(raw, source)) && target != "attackRange"
  {
    var i := if target == "hp" then 0 else if target == "atk" then 1 else if target == "def" then 2
             else if target == "res" then 3 else if target == "moveSpeed" then 4
             else if target == "attackInterval" then 5 else 6;
    TablesAreClean();
    SourceAt(STAT_MAP, i);
    AttributeSays(raw, source);
  }

  lemma OwnScalarSays(raw: Value, source: string, target: string)
    requires IsScalar(source, target) || (source == "rangeRadius" && target == "attackRange")
    ensures Own(raw, target) == Said(DataCell(raw, source))
  {
    TablesAreClean();
    SourceAt(SCALAR_MAP, if target == "lifePointReduction" then 0 else if target == "attackRange" then 1 else 2);
    TablesAreDisjoint(target);
    DataSays(raw, source);
  }

  /** What extraction reads: the defined cells of the level itself and no others. */
  ghost predicate Reads(raw: Value, l: LevelDict) {
    && LevelFollows(raw, l.level)
    && (forall source, target :: IsStat(source, target) ==>
          Follows(AttributeCell(raw, source), Lookup(l.stats, target), None))
    && (forall source, target :: IsScalar(source, target) ==>
          Follows(DataCell(raw, source), Lookup(l.stats, target), None))
    && Follows(DataCell(raw, "rangeRadius"), Lookup(l.stats, "attackRange"), None)
    && (forall source, token :: IsImmunity(source, token) ==>
          var cell := AttributeCell(raw, source);
          FlagOf(l.flags, token) == if Answers(cell) then Some(ValueIn(cell.value) == Bool(true)) else None)
  }

  lemma {:induction false} ExtractedReads(raw: Value, l: LevelDict)
    requires Extracted(l, raw)
    ensures Reads(raw, l)
  {
    forall source, target | IsStat(source, target)
      ensures Follows(AttributeCell(raw, source), Lookup(l.stats, target), None)
    {
      OwnStatSays(raw, source, target);
    }
    forall source, target | IsScalar(source, target)
      ensures Follows(DataCell(raw, source), Lookup(l.stats, target), None)
    {
      OwnScalarSays(raw, source, target);
    }
    OwnScalarSays(raw, "rangeRadius", "attackRange");
    forall source, token | IsImmunity(source, token)
      ensures var cell := AttributeCell(raw, source);
              FlagOf(l.flags, token) == if Answers(cell) then Some(ValueIn(cell.value) == Bool(true)) else None
    {
      OwnFlagSays(raw, source, token);
    }
  }

  /** What a level takes from: the finished base level or, for the base itself, nothing. */
  ghost predicate TakesFrom(raws: seq<Value>, i: nat, base: LevelDict)
    requires i < |raws|
  {
    var b := FirstZero(raws, 0);
    (base == NOTHING && i == b) || Means(raws, b, base)
  }

  lemma KeyFollows(raws: seq<Value>, i: nat, l: LevelDict, base: LevelDict, key: string, cell: Option<Value>)
    requires i < |raws| && Means(raws, i, l) && TakesFrom(raws, i, base) && key != "attackRange"
    requires Own(raws[i], key) == Said(cell)
    ensures Follows(cell, Lookup(l.stats, key), Lookup(base.stats, key))
  {
    var b := FirstZero(raws, 0);
    assert Lookup(l.stats, key) == Stored(raws, i, key);
    if Means(raws, b, base) {
      assert Lookup(base.stats, key) == Stored(raws, b, key);
    }
  }

  lemma RadiusDecided(raws: seq<Value>, i: nat, l: LevelDict, base: LevelDict)
    requires i < |raws| && Means(raws, i, l) && TakesFrom(raws, i, base)
    ensures RadiusFollows(DataCell(raws[i], "rangeRadius"), l, base)
  {
    var b := FirstZero(raws, 0);
    OwnScalarSays(raws[i], "rangeRadius", "attackRange");
    assert Lookup(l.stats, "attackRange") == Stored(raws, i, "attackRange");
    if Means(raws, b, base) {
      assert Lookup(base.stats, "attackRange") == Stored(raws, b, "attackRange");
    }
  }

  lemma OwnFlagSays(raw: Value, source: string, token: string)
    requires IsImmunity(source, token)
    ensures var cell := AttributeCell(raw, source);
            OwnFlag(raw, token) == if Answers(cell) then Some(ValueIn(cell.value).flag) else None
  {
    ImmunityIs(source, token);
    AttributeSays(raw, source);
  }

  /** The flags a level may take over: those of the finished base, or none. */
  ghost predicate TakesFlags(raws: seq<Value>, i: nat, base: Option<seq<string>>)
    requires i < |raws|
  {
    var b := FirstZero(raws, 0);
    (base.None? && i == b) || ImmunitiesAre(raws, b, base)
  }

  lemma {:induction false} FlagDecided(raws: seq<Value>, i: nat, l: LevelDict, base: LevelDict, token: string)
    requires i < |raws| && ImmunitiesAre(raws, i, l.immunities) && TakesFlags(raws, i, base.immunities)
    ensures var own := OwnFlag(raws[i], token);
            if own.Some? then l.immunities.Some? && (Immune(l, token) <==> own == Some(true))
            else Immune(l, token) <==> Immune(base, token)
  {
    var b := FirstZero(raws, 0);
    assert EffectiveFlag(raws, i, token) == OrElse(OwnFlag(raws[i], token), OwnFlag(raws[b], token));
    assert EffectiveFlag(raws, b, token) == OwnFlag(raws[b], token);
  }

  lemma {:induction false} SilenceDecided(raws: seq<Value>, i: nat, l: LevelDict, base: LevelDict)
    requires i < |raws| && ImmunitiesAre(raws, i, l.immunities) && TakesFlags(raws, i, base.immunities)
    ensures l.immunities.None? <==> base.immunities.None? && forall token :: OwnFlag(raws[i], token).None?
  {
    var b := FirstZero(raws, 0);
    forall token ensures EffectiveFlag(raws, i, token) == OrElse(OwnFlag(raws[i], token), OwnFlag(raws[b], token))
                 ensures EffectiveFlag(raws, b, token) == OwnFlag(raws[b], token)
    {
    }
  }

  lemma {:induction false} SilentCells(raw: Value)
    ensures (forall token :: OwnFlag(raw, token).None?)
            <==> (forall source, token :: IsImmunity(source, token) ==> !Answers(AttributeCell(raw, source)))
  {
    forall source, token | IsImmunity(source, token)
      ensures OwnFlag(raw, token).None? <==> !Answers(AttributeCell(raw, source))
    {
      OwnFlagSays(raw, source, token);
    }
    forall token | OwnFlag(raw, token).Some?
      ensures exists source :: IsImmunity(source, token) && Answers(AttributeCell(raw, source))
    {
      TokenHasSource(token);
    }
  }

  lemma {:induction false} MeaningIsDecided(raws: seq<Value>, i: nat, l: LevelDict, base: LevelDict)
    requires i < |raws| && Means(raws, i, l) && TakesFrom(raws, i, base)
    ensures Decided(raws[i], l, base)
  {
    forall source, target | IsStat(source, target)
      ensures Follows(AttributeCell(raws[i], source), Lookup(l.stats, target), Lookup(base.stats, target))
    {
      OwnStatSays(raws[i], source, target);
      KeyFollows(raws, i, l, base, target, AttributeCell(raws[i], source));
    }
    forall source, target | IsScalar(source, target)
      ensures Follows(DataCell(raws[i], source), Lookup(l.stats, target), Lookup(base.stats, target))
    {
      OwnScalarSays(raws[i], source, target);
      KeyFollows(raws, i, l, base, target, DataCell(raws[i], source));
    }
    RadiusDecided(raws, i, l, base);
    forall source, token | IsImmunity(source, token)
      ensures FlagFollows(AttributeCell(raws[i], source), token, l, base)
    {
      OwnFlagSays(raws[i], source, token);
      FlagDecided(raws, i, l, base, token);
    }
    SilenceDecided(raws, i, l, base);
    SilentCells(raws[i]);
  }

  lemma {:induction false} MeaningsAreDecided(raws: seq<Value>, b: nat, views: seq<LevelDict>)
    requires IsBase(raws, b) && |views| == |raws| && forall i :: 0 <= i < |raws| ==> Means(raws, i, views[i])
    ensures AllDecided(raws, b, views)
  {
    BaseIsFirstZero(raws, b, 0);
    MeaningIsDecided(raws, b, views[b], NOTHING);
    forall i | 0 <= i < |raws| ensures Decided(raws[i], views[i], views[b]) {
      MeaningIsDecided(raws, i, views[i], views[b]);
    }
  }
}
