/** Deduplication of talent/trait change bundles (src/arknights_mcp/services/effect_changes.py). */
module EffectChanges {
  import opened Json

  type Fields = map<string, Value>

  /** An element of a change list: a dictionary, or anything else the source put there. */
  datatype Entry = Bundle(fields: Fields) | Other(value: Value)

  datatype Changes = ChangeList(entries: seq<Entry>) | NotAList(value: Value)

  const IDENTITY_ORDER: seq<string> := ["talentIndex", "requiredPotentialRank", "unlockCondition", "isToken"]

  function FieldOf(f: Fields, key: string): Value { if key in f then f[key] else Null }

  predicate Empty(v: Value) { v == Null || v == Arr([]) || v == Obj([]) || v == Str("") }

  function IdentityValues(f: Fields): seq<Value> {
    seq(|IDENTITY_ORDER|, i requires 0 <= i < |IDENTITY_ORDER| => FieldOf(f, IDENTITY_ORDER[i]))
  }

  /** `_effect_identity`; `canonical` stands for `_canonical`, and any function will do. */
  function Identity(canonical: Value -> string, f: Fields): string { canonical(Arr(IdentityValues(f))) }

  /** `_effect_conflict`. */
  predicate Conflict(a: Fields, b: Fields) {
    exists key :: key in a.Keys + b.Keys && key !in IDENTITY_ORDER
      && !Empty(FieldOf(a, key)) && !Empty(FieldOf(b, key)) && !PyEq(FieldOf(a, key), FieldOf(b, key))
  }

  /** Whether `_merge_effect` writes `key` of `entry` into `target`. */
  predicate Fills(target: Fields, entry: Fields, key: string) {
    key in entry && key !in IDENTITY_ORDER && Empty(FieldOf(target, key)) && !Empty(entry[key])
  }

  function Merged(target: Fields, entry: Fields): Fields {
    map key | key in target.Keys + entry.Keys && (key in target || Fills(target, entry, key))
      :: if Fills(target, entry, key) then entry[key] else target[key]
  }

  predicate Accepts(canonical: Value -> string, group: Entry, f: Fields) {
    group.Bundle? && Identity(canonical, group.fields) == Identity(canonical, f) && !Conflict(group.fields, f)
  }

  /** The first group from position i on that takes f, or the number of groups. */
  function Home(canonical: Value -> string, groups: seq<Entry>, f: Fields, i: nat): (h: nat)
    requires i <= |groups|
    ensures i <= h <= |groups|
    ensures forall k :: i <= k < h ==> !Accepts(canonical, groups[k], f)
    ensures h < |groups| ==> Accepts(canonical, groups[h], f)
    decreases |groups| - i
  {
    if i == |groups| || Accepts(canonical, groups[i], f) then i else Home(canonical, groups, f, i + 1)
  }

  /** Output rows, and for every input entry the row it went to. */
  datatype Grouping = Grouping(rows: seq<Entry>, homes: seq<nat>)

  function Place(canonical: Value -> string, g: Grouping, e: Entry): Grouping {
    match e
    case Other(_) => Grouping(g.rows + [e], g.homes + [|g.rows|])
    case Bundle(f) =>
      var h := Home(canonical, g.rows, f, 0);
      if h < |g.rows| then Grouping(g.rows[h := Bundle(Merged(g.rows[h].fields, f))], g.homes + [h])
      else Grouping(g.rows + [e], g.homes + [|g.rows|])
  }

  function Dedup(canonical: Value -> string, changes: seq<Entry>): (g: Grouping)
    ensures |g.homes| == |changes|
  {
    if changes == [] then Grouping([], [])
    else Place(canonical, Dedup(canonical, changes[..|changes| - 1]), changes[|changes| - 1])
  }

  // ---------------------------------------------------------------- the code

  /** A row of the output list while it is being built: `dict(entry)` is a fresh, mutable copy. */
  class Row {
    var fields: Fields

    constructor (entry: Fields)
      ensures fields == entry
    {
      fields := entry;
    }

    /** `_merge_effect`, lines 97-108; the items are visited in any order. */
    method MergeEffect(entry: Fields)
      modifies this
      ensures fields == Merged(old(fields), entry)
    {
      ghost var before := fields;
      var pending := entry.Keys;
      while pending != {}
        invariant pending <= entry.Keys
        invariant forall key :: key in fields.Keys <==> key in before || (key !in pending && Fills(before, entry, key))
        invariant forall key :: key in fields.Keys ==>
                    fields[key] == if key !in pending && Fills(before, entry, key) then entry[key] else before[key]
        decreases pending
      {
        var key :| key in pending;
        pending := pending - {key};
        if key !in IDENTITY_ORDER && Empty(FieldOf(fields, key)) && !Empty(entry[key]) {
          fields := fields[key := entry[key]];
        }
      }
    }
  }

  datatype Slot = RowAt(row: Row) | Kept(value: Value)

  ghost predicate Separate(slots: seq<Slot>) {
    forall i, j :: 0 <= i < j < |slots| && slots[i].RowAt? && slots[j].RowAt? ==> slots[i].row != slots[j].row
  }

  function RowsOf(slots: seq<Slot>): set<Row> {
    set i | 0 <= i < |slots| && slots[i].RowAt? :: slots[i].row
  }

  function View(slots: seq<Slot>): seq<Entry>
    reads RowsOf(slots)
  {
    seq(|slots|, i requires 0 <= i < |slots| reads RowsOf(slots) =>
      match slots[i] case RowAt(r) => Bundle(r.fields) case Kept(v) => Other(v))
  }

  /** `identities` runs beside the rows, and no row stands at two places. */
  ghost predicate Consistent(canonical: Value -> string, groups: seq<Slot>, identities: seq<Option<string>>)
    reads RowsOf(groups)
  {
    && Separate(groups)
    && |identities| == |groups|
    && forall i :: 0 <= i < |groups| ==>
         identities[i] == if groups[i].RowAt? then Some(Identity(canonical, groups[i].row.fields)) else None
  }

  /** The inner loop: the first row of the same identity that does not conflict. */
  method FirstFit(canonical: Value -> string, groups: seq<Slot>, identities: seq<Option<string>>, f: Fields)
    returns (i: nat)
    requires Consistent(canonical, groups, identities)
    ensures i == Home(canonical, View(groups), f, 0) <= |groups|
  {
    var identity := Identity(canonical, f);
    i := 0;
    while i < |groups| && !(identities[i] == Some(identity) && groups[i].RowAt? && !Conflict(groups[i].row.fields, f))
      invariant i <= |groups| && Home(canonical, View(groups), f, 0) == Home(canonical, View(groups), f, i)
    {
      i := i + 1;
    }
  }

  /** One round of the outer loop, lines 128-144: merge into the first fitting row, or open a new one. */
  method PlaceEntry(canonical: Value -> string, groups: seq<Slot>, identities: seq<Option<string>>, entry: Entry,
                    ghost g: Grouping)
    returns (groups': seq<Slot>, identities': seq<Option<string>>)
    requires Consistent(canonical, groups, identities) && View(groups) == g.rows
    modifies RowsOf(groups)
    ensures Consistent(canonical, groups', identities') && View(groups') == Place(canonical, g, entry).rows
    ensures forall r :: r in RowsOf(groups') ==> r in RowsOf(groups) || fresh(r)
  {
    groups', identities' := groups, identities;
    match entry
    case Other(v) =>
      groups', identities' := groups + [Kept(v)], identities + [None];
    case Bundle(f) =>
      var i := FirstFit(canonical, groups, identities, f);
      if i < |groups| {
        assert groups[i].row in RowsOf(groups);
        groups[i].row.MergeEffect(f);
        SameIdentity(canonical, Merged(g.rows[i].fields, f), g.rows[i].fields);
      } else {
        var row := new Row(f);
        groups', identities' := groups + [RowAt(row)], identities + [Some(Identity(canonical, f))];
      }
  }

  /** `dedup_effect_changes`, lines 111-145. */
  method DedupEffectChanges(canonical: Value -> string, changes: Changes) returns (out: Changes)
    ensures changes.NotAList? ==> out == changes
    ensures changes.ChangeList? ==> out == ChangeList(Dedup(canonical, changes.entries).rows)
  {
    if changes.NotAList? {
      return changes;
    }
    var entries := changes.entries;
    var groups: seq<Slot>, identities: seq<Option<string>> := [], [];
    for n := 0 to |entries|
      invariant forall r :: r in RowsOf(groups) ==> fresh(r)
      invariant Consistent(canonical, groups, identities)
      invariant View(groups) == Dedup(canonical, entries[..n]).rows
    {
      assert entries[..n + 1][..n] == entries[..n];
      groups, identities := PlaceEntry(canonical, groups, identities, entries[n], Dedup(canonical, entries[..n]));
    }
    assert entries[..|entries|] == entries;
    out := ChangeList(View(groups));
  }

  lemma SameIdentity(canonical: Value -> string, a: Fields, b: Fields)
    requires forall key :: key in IDENTITY_ORDER ==> FieldOf(a, key) == FieldOf(b, key)
    ensures Identity(canonical, a) == Identity(canonical, b)
  {
    assert IdentityValues(a) == IdentityValues(b);
  }

  // ---------------------------------------------------------------- what survives a merge

  /** f is a non-empty field of `held` up to Python equality, for every non-empty field of f. */
  predicate Subsumes(held: Fields, f: Fields) {
    forall key :: key in f && key !in IDENTITY_ORDER && !Empty(f[key]) ==>
      key in held && !Empty(held[key]) && PyEq(held[key], f[key])
  }

  /** The same, byte for byte. */
  predicate Holds(held: Fields, f: Fields) {
    forall key :: key in f && key !in IDENTITY_ORDER && !Empty(f[key]) ==> key in held && held[key] == f[key]
  }

  /** later came from earlier by filling empty fields: nothing non-empty changed, nor did the identity. */
  predicate Grew(earlier: Entry, later: Entry) {
    match earlier
    case Other(_) => later == earlier
    case Bundle(a) =>
      later.Bundle?
      && (forall key :: key in a ==> key in later.fields)
      && (forall key :: key in a && !Empty(a[key]) ==> later.fields[key] == a[key])
      && (forall key :: key in IDENTITY_ORDER ==> FieldOf(a, key) == FieldOf(later.fields, key))
  }

  lemma {:induction false} PyEqRefl(v: Value)
    ensures PyEq(v, v)
    decreases v
  {
    match v
    case Arr(xs) =>
      forall i | 0 <= i < |xs| ensures PyEq(xs[i], xs[i]) { PyEqRefl(xs[i]); }
    case Obj(xs) =>
      forall i | 0 <= i < |xs| ensures HasItem(xs[i].0, xs[i].1, xs) { PyEqRefl(xs[i].1); }
    case _ =>
  }

  ghost predicate Good(canonical: Value -> string, changes: seq<Entry>, g: Grouping)
    requires |g.homes| == |changes|
  {
    && (forall n :: 0 <= n < |changes| ==>
          g.homes[n] < |g.rows| && Survives(canonical, changes[n], g.rows[g.homes[n]]))
    && (forall j :: 0 <= j < |g.rows| ==> Sourced(changes, g, j))
    && Apart(canonical, g.rows)
  }

  /** Nothing is lost: the row an entry went to has its identity and subsumes it. */
  ghost predicate Survives(canonical: Value -> string, e: Entry, row: Entry) {
    match e
    case Other(_) => row == e
    case Bundle(f) =>
      row.Bundle? && Identity(canonical, row.fields) == Identity(canonical, f) && Subsumes(row.fields, f)
  }

  /** Nothing is invented: every field of row j is a field of an entry that went to row j. */
  ghost predicate Sourced(changes: seq<Entry>, g: Grouping, j: nat)
    requires |g.homes| == |changes| && j < |g.rows|
  {
    && (exists n :: 0 <= n < |changes| && g.homes[n] == j)
    && (g.rows[j].Bundle? ==> forall key :: key in g.rows[j].fields ==>
         exists n :: 0 <= n < |changes| && g.homes[n] == j && changes[n].Bundle?
           && key in changes[n].fields && changes[n].fields[key] == g.rows[j].fields[key])
  }

  /** Rows that share an identity conflict, pairwise. */
  ghost predicate Apart(canonical: Value -> string, rows: seq<Entry>) {
    forall i, j :: 0 <= i < j < |rows| && rows[j].Bundle? ==> !Accepts(canonical, rows[i], rows[j].fields)
  }

  lemma GrewKeepsIdentity(canonical: Value -> string, a: Entry, b: Entry)
    requires Grew(a, b) && a.Bundle?
    ensures Identity(canonical, a.fields) == Identity(canonical, b.fields)
  {
    SameIdentity(canonical, a.fields, b.fields);
  }

  lemma MergeGrows(target: Fields, entry: Fields)
    requires !Conflict(target, entry)
    ensures Grew(Bundle(target), Bundle(Merged(target, entry)))
    ensures Subsumes(Merged(target, entry), entry)
  {
    forall key | key in entry && key !in IDENTITY_ORDER && !Empty(entry[key])
      ensures var m := Merged(target, entry); key in m && !Empty(m[key]) && PyEq(m[key], entry[key])
    {
      PyEqRefl(entry[key]);
    }
  }

  /** One entry is placed: every row grows, and the entry's own row survives it. */
  lemma PlaceGrows(canonical: Value -> string, g: Grouping, e: Entry)
    ensures var p := Place(canonical, g, e);
            |g.rows| <= |p.rows| <= |g.rows| + 1 && |p.homes| == |g.homes| + 1 && p.homes[..|g.homes|] == g.homes
            && p.homes[|g.homes|] < |p.rows| && (|p.rows| > |g.rows| <==> p.homes[|g.homes|] == |g.rows|)
            && (forall i :: 0 <= i < |g.rows| ==> Grew(g.rows[i], p.rows[i]))
            && Survives(canonical, e, p.rows[p.homes[|g.homes|]])
  {
    var p := Place(canonical, g, e);
    if e.Bundle? {
      var h := Home(canonical, g.rows, e.fields, 0);
      if h < |g.rows| {
        MergeGrows(g.rows[h].fields, e.fields);
        GrewKeepsIdentity(canonical, g.rows[h], p.rows[h]);
      } else {
        forall key | key in e.fields ensures PyEq(e.fields[key], e.fields[key]) { PyEqRefl(e.fields[key]); }
      }
    }
  }

  lemma GrewSurvives(canonical: Value -> string, e: Entry, a: Entry, b: Entry)
    requires Survives(canonical, e, a) && Grew(a, b)
    ensures Survives(canonical, e, b)
  {
    if a.Bundle? {
      GrewKeepsIdentity(canonical, a, b);
    }
  }

  lemma GrewStaysApart(canonical: Value -> string, a: Entry, b: Entry, a': Entry, b': Entry)
    requires Grew(a, a') && Grew(b, b') && b.Bundle? && !Accepts(canonical, a, b.fields)
    ensures !Accepts(canonical, a', b'.fields)
  {
    if a.Bundle? {
      GrewKeepsIdentity(canonical, a, a');
      GrewKeepsIdentity(canonical, b, b');
      if Conflict(a.fields, b.fields) {
        var key :| key in a.fields.Keys + b.fields.Keys && key !in IDENTITY_ORDER
          && !Empty(FieldOf(a.fields, key)) && !Empty(FieldOf(b.fields, key))
          && !PyEq(FieldOf(a.fields, key), FieldOf(b.fields, key));
        assert key in a'.fields.Keys + b'.fields.Keys;
      }
    }
  }

  lemma {:induction false} PlaceSources(canonical: Value -> string, changes: seq<Entry>, g: Grouping, e: Entry, j: nat)
    requires |g.homes| == |changes| && Good(canonical, changes, g) && j < |Place(canonical, g, e).rows|
    ensures |Place(canonical, g, e).homes| == |changes| + 1
    ensures Sourced(changes + [e], Place(canonical, g, e), j)
  {
    var p := Place(canonical, g, e);
    var all := changes + [e];
    assert p.homes == g.homes + [p.homes[|changes|]] by { PlaceGrows(canonical, g, e); }
    if j < |g.rows| {
      assert Sourced(changes, g, j);
      var n :| 0 <= n < |changes| && g.homes[n] == j;
      assert p.homes[n] == j;
      if g.rows[j].Bundle? {
        forall key | key in p.rows[j].fields
          ensures exists n :: 0 <= n < |all| && p.homes[n] == j && all[n].Bundle?
                    && key in all[n].fields && all[n].fields[key] == p.rows[j].fields[key]
        {
          if key in g.rows[j].fields && p.rows[j].fields[key] == g.rows[j].fields[key] {
            var n :| 0 <= n < |changes| && g.homes[n] == j && changes[n].Bundle?
              && key in changes[n].fields && changes[n].fields[key] == g.rows[j].fields[key];
            assert all[n] == changes[n] && p.homes[n] == j;
          } else {
            assert all[|changes|] == e;
          }
        }
      }
    } else {
      assert all[|changes|] == e && p.homes[|changes|] == j;
    }
  }

  lemma PlaceKeepsGood(canonical: Value -> string, changes: seq<Entry>, g: Grouping, e: Entry)
    requires |g.homes| == |changes| && Good(canonical, changes, g)
    ensures |Place(canonical, g, e).homes| == |changes| + 1
    ensures Good(canonical, changes + [e], Place(canonical, g, e))
  {
    PlaceGrows(canonical, g, e);
    var p, all := Place(canonical, g, e), changes + [e];
    forall n | 0 <= n < |all|
      ensures p.homes[n] < |p.rows| && Survives(canonical, all[n], p.rows[p.homes[n]])
    {
      if n < |changes| {
        assert p.homes[n] == g.homes[n];
        GrewSurvives(canonical, changes[n], g.rows[g.homes[n]], p.rows[p.homes[n]]);
      }
    }
    forall j | 0 <= j < |p.rows| ensures Sourced(all, p, j) {
      PlaceSources(canonical, changes, g, e, j);
    }
    forall i, j | 0 <= i < j < |p.rows| && p.rows[j].Bundle?
      ensures !Accepts(canonical, p.rows[i], p.rows[j].fields)
    {
      if j < |g.rows| {
        GrewStaysApart(canonical, g.rows[i], g.rows[j], p.rows[i], p.rows[j]);
      }
    }
  }

  // ---------------------------------------------------------------- main results

  /** Nothing lost, nothing invented, no two output rows mergeable: for every change list. */
  lemma {:induction false} DedupIsGood(canonical: Value -> string, changes: seq<Entry>)
    ensures Good(canonical, changes, Dedup(canonical, changes))
  {
    if changes != [] {
      var past := changes[..|changes| - 1];
      DedupIsGood(canonical, past);
      PlaceKeepsGood(canonical, past, Dedup(canonical, past), changes[|changes| - 1]);
      assert past + [changes[|changes| - 1]] == changes;
    }
  }

  // ---------------------------------------------------------------- the same, in the fields themselves

  /** `canonical` renders two lists alike exactly when their elements are the same, one by one. */
  ghost predicate Renders(canonical: Value -> string, same: (Value, Value) -> bool) {
    forall xs, ys {:trigger canonical(Arr(xs)), canonical(Arr(ys))} :: canonical(Arr(xs)) == canonical(Arr(ys))
                     <==> |xs| == |ys| && forall i :: 0 <= i < |xs| ==> same(xs[i], ys[i])
  }

  /** What names a change: the talent, the potential rank, the unlock condition and the subject. */
  lemma IdentityKeys()
    ensures IDENTITY_ORDER == ["talentIndex", "requiredPotentialRank", "unlockCondition", "isToken"]
  {
  }

  /** The two bundles name the same change; a missing key counts as null. */
  ghost predicate Agree(same: (Value, Value) -> bool, a: Fields, b: Fields) {
    forall i :: 0 <= i < |IDENTITY_ORDER| ==> same(FieldOf(a, IDENTITY_ORDER[i]), FieldOf(b, IDENTITY_ORDER[i]))
  }

  /** There is something under a key that does not name the change. */
  ghost predicate Carries(f: Fields, key: string) {
    key in f && key !in IDENTITY_ORDER && f[key] != Null && f[key] != Arr([]) && f[key] != Obj([]) && f[key] != Str("")
  }

  ghost predicate Joined(same: (Value, Value) -> bool, row: Entry, e: Entry) {
    match e
    case Other(_) => row == e
    case Bundle(f) =>
      row.Bundle? && Agree(same, row.fields, f)
      && forall key :: Carries(f, key) ==> key in row.fields && PyEq(row.fields[key], f[key])
  }

  /** Two rows stand apart for one of two reasons. */
  ghost predicate MustStandApart(same: (Value, Value) -> bool, a: Fields, b: Fields) {
    || !Agree(same, a, b)
    || exists key :: Carries(a, key) && Carries(b, key) && !PyEq(a[key], b[key])
  }

  lemma {:induction false} IdentityIsAgreement(canonical: Value -> string, same: (Value, Value) -> bool, a: Fields,
                                               b: Fields)
    requires Renders(canonical, same)
    ensures Identity(canonical, a) == Identity(canonical, b) <==> Agree(same, a, b)
  {
    var xs, ys := IdentityValues(a), IdentityValues(b);
    assert Identity(canonical, a) == canonical(Arr(xs)) && Identity(canonical, b) == canonical(Arr(ys));
    forall i | 0 <= i < |IDENTITY_ORDER|
      ensures same(xs[i], ys[i]) <==> same(FieldOf(a, IDENTITY_ORDER[i]), FieldOf(b, IDENTITY_ORDER[i]))
    {
    }
  }

  /** Each entry is in the row it went to, which names the same change and carries all that it carries. */
  lemma {:induction false} EntryIsJoined(canonical: Value -> string, same: (Value, Value) -> bool, changes: seq<Entry>,
                                         n: nat)
    requires Renders(canonical, same) && n < |changes|
    ensures var g := Dedup(canonical, changes);
            g.homes[n] < |g.rows| && Joined(same, g.rows[g.homes[n]], changes[n])
  {
    var g := Dedup(canonical, changes);
    DedupIsGood(canonical, changes);
    assert Survives(canonical, changes[n], g.rows[g.homes[n]]);
    if changes[n].Bundle? {
      var row, f := g.rows[g.homes[n]].fields, changes[n].fields;
      IdentityIsAgreement(canonical, same, row, f);
    }
  }

  /** Two rows stand apart only if they name different changes or carry different values under one key. */
  lemma {:induction false} RowsStandApart(canonical: Value -> string, same: (Value, Value) -> bool, changes: seq<Entry>,
                                          i: nat, j: nat)
    requires Renders(canonical, same) && i < j < |Dedup(canonical, changes).rows|
    ensures var rows := Dedup(canonical, changes).rows;
            rows[i].Bundle? && rows[j].Bundle? ==> MustStandApart(same, rows[i].fields, rows[j].fields)
  {
    var rows := Dedup(canonical, changes).rows;
    DedupIsGood(canonical, changes);
    if rows[i].Bundle? && rows[j].Bundle? {
      var a, b := rows[i].fields, rows[j].fields;
      IdentityIsAgreement(canonical, same, a, b);
      assert !Accepts(canonical, rows[i], b);
      if Conflict(a, b) {
        var key :| key in a.Keys + b.Keys && key !in IDENTITY_ORDER
          && !Empty(FieldOf(a, key)) && !Empty(FieldOf(b, key)) && !PyEq(FieldOf(a, key), FieldOf(b, key));
        assert Carries(a, key) && Carries(b, key);
      }
    }
  }

  /** Running it again changes nothing: a list whose rows are already apart is its own result. */
  lemma {:induction false} ApartIsFixed(canonical: Value -> string, rows: seq<Entry>)
    requires Apart(canonical, rows)
    ensures Dedup(canonical, rows).rows == rows
  {
    if rows != [] {
      var past, e := rows[..|rows| - 1], rows[|rows| - 1];
      ApartIsFixed(canonical, past);
      assert past + [e] == rows;
    }
  }

  lemma DedupIsIdempotent(canonical: Value -> string, changes: seq<Entry>)
    ensures Dedup(canonical, Dedup(canonical, changes).rows).rows == Dedup(canonical, changes).rows
  {
    DedupIsGood(canonical, changes);
    ApartIsFixed(canonical, Dedup(canonical, changes).rows);
  }

  lemma GrewTransitive(a: Entry, b: Entry, c: Entry)
    requires Grew(a, b) && Grew(b, c)
    ensures Grew(a, c)
  {
  }

  /** Row order follows first appearance: entry n either opens the next new row or joins one that an
      earlier entry opened, and the rows opened so far only grow, where they are. */
  lemma {:induction false} OrderOfFirstAppearance(canonical: Value -> string, changes: seq<Entry>, n: nat)
    requires n < |changes|
    ensures var before, g := Dedup(canonical, changes[..n]), Dedup(canonical, changes);
            |before.rows| <= |g.rows| && before.homes == g.homes[..n]
            && g.homes[n] <= |before.rows| && g.homes[n] < |g.rows|
            && (forall j :: 0 <= j < |before.rows| ==> Grew(before.rows[j], g.rows[j]))
            && (g.homes[n] == |before.rows| ==>  Grew(changes[n], g.rows[g.homes[n]]))
  {
    var past, e := changes[..|changes| - 1], changes[|changes| - 1];
    PlaceGrows(canonical, Dedup(canonical, past), e);
    if n == |past| {
      assert changes[..n] == past;
    } else {
      OrderOfFirstAppearance(canonical, past, n);
      assert past[..n] == changes[..n];
      var before, mid, g := Dedup(canonical, past[..n]), Dedup(canonical, past), Dedup(canonical, changes);
      assert g == Place(canonical, mid, e);
      assert g.homes[..n] == mid.homes[..n] && g.homes[n] == mid.homes[n];
      forall j | 0 <= j < |before.rows| ensures Grew(before.rows[j], g.rows[j]) {
        GrewTransitive(before.rows[j], mid.rows[j], g.rows[j]);
      }
      if g.homes[n] == |before.rows| {
        GrewTransitive(changes[n], mid.rows[g.homes[n]], g.rows[g.homes[n]]);
      }
    }
  }

  /** A field that Python calls equal but that is not the same JSON, such as 1 and True. */
  predicate Blurs(target: Fields, entry: Fields) {
    exists key :: key in target && key in entry && key !in IDENTITY_ORDER
      && !Empty(target[key]) && !Empty(entry[key]) && target[key] != entry[key]
  }

  /** Entry n is folded into a row that it does not conflict with and yet is not identical to. */
  predicate FoldedBlurred(canonical: Value -> string, changes: seq<Entry>, n: nat)
    requires n < |changes|
  {
    var before := Dedup(canonical, changes[..n]).rows;
    changes[n].Bundle?
    && var h := Home(canonical, before, changes[n].fields, 0);
       h < |before| && Blurs(before[h].fields, changes[n].fields)
  }

  predicate RowHolds(row: Entry, e: Entry) { e.Bundle? ==> row.Bundle? && Holds(row.fields, e.fields) }

  lemma {:induction false} HoldsUnlessBlurred(canonical: Value -> string, changes: seq<Entry>, n: nat)
    requires n < |changes|
    ensures Dedup(canonical, changes).homes[n] < |Dedup(canonical, changes).rows|
    ensures RowHolds(Dedup(canonical, changes).rows[Dedup(canonical, changes).homes[n]], changes[n])
            <==> !FoldedBlurred(canonical, changes, n)
  {
    var upTo := changes[..n + 1];
    assert upTo[..n] == changes[..n];
    var before, after, g := Dedup(canonical, changes[..n]), Dedup(canonical, upTo), Dedup(canonical, changes);
    PlaceGrows(canonical, before, changes[n]);
    if n + 1 < |changes| {
      OrderOfFirstAppearance(canonical, changes, n + 1);
    } else {
      assert upTo == changes;
    }
    OrderOfFirstAppearance(canonical, changes, n);
    assert g.homes[n] == after.homes[n];
  }

  /** Every entry is in its row byte for byte: what lines 82-121 call byte-lossless. */
  predicate ByteLossless(canonical: Value -> string, changes: seq<Entry>) {
    var g := Dedup(canonical, changes);
    forall n :: 0 <= n < |changes| ==> g.homes[n] < |g.rows| && RowHolds(g.rows[g.homes[n]], changes[n])
  }

  /** Two bundles of one identity hold values under a shared key that Python calls equal and that are
      not the same JSON. */
  predicate Ambiguous(canonical: Value -> string, a: Entry, b: Entry) {
    a.Bundle? && b.Bundle? && Identity(canonical, a.fields) == Identity(canonical, b.fields)
    && exists key :: key in a.fields && key in b.fields && key !in IDENTITY_ORDER
         && !Empty(a.fields[key]) && !Empty(b.fields[key])
         && PyEq(a.fields[key], b.fields[key]) && a.fields[key] != b.fields[key]
  }

  predicate AnyAmbiguous(canonical: Value -> string, changes: seq<Entry>) {
    exists m, n :: 0 <= m < |changes| && 0 <= n < |changes| && Ambiguous(canonical, changes[m], changes[n])
  }

  /** No two bundles of this identity conflict. */
  predicate ConflictFree(canonical: Value -> string, changes: seq<Entry>, identity: string) {
    forall m, n :: 0 <= m < |changes| && 0 <= n < |changes| && changes[m].Bundle? && changes[n].Bundle?
      && Identity(canonical, changes[m].fields) == Identity(canonical, changes[n].fields) == identity
      ==> !Conflict(changes[m].fields, changes[n].fields)
  }

  /** Entry m has the row's identity and the very value the row holds under the key. */
  predicate IsSource(canonical: Value -> string, changes: seq<Entry>, row: Fields, key: string, m: int) {
    0 <= m < |changes| && changes[m].Bundle? && key in changes[m].fields && key in row
    && changes[m].fields[key] == row[key] && Identity(canonical, changes[m].fields) == Identity(canonical, row)
  }

  lemma RowValueComesFrom(canonical: Value -> string, changes: seq<Entry>, j: nat, key: string)
    requires j < |Dedup(canonical, changes).rows|
    requires Dedup(canonical, changes).rows[j].Bundle? && key in Dedup(canonical, changes).rows[j].fields
    ensures exists m :: IsSource(canonical, changes, Dedup(canonical, changes).rows[j].fields, key, m)
  {
    var g := Dedup(canonical, changes);
    DedupIsGood(canonical, changes);
    assert Sourced(changes, g, j);
    var m :| 0 <= m < |changes| && g.homes[m] == j && changes[m].Bundle?
      && key in changes[m].fields && changes[m].fields[key] == g.rows[j].fields[key];
    assert Survives(canonical, changes[m], g.rows[g.homes[m]]);
    assert IsSource(canonical, changes, g.rows[j].fields, key, m);
  }

  /** Where no two bundles of one identity are ambiguous, every entry is held byte for byte. */
  lemma LosslessUnlessAmbiguous(canonical: Value -> string, changes: seq<Entry>)
    requires !AnyAmbiguous(canonical, changes)
    ensures ByteLossless(canonical, changes)
  {
    var g := Dedup(canonical, changes);
    DedupIsGood(canonical, changes);
    forall n | 0 <= n < |changes| ensures g.homes[n] < |g.rows| && RowHolds(g.rows[g.homes[n]], changes[n]) {
      assert Survives(canonical, changes[n], g.rows[g.homes[n]]);
      if changes[n].Bundle? {
        var f, row := changes[n].fields, g.rows[g.homes[n]].fields;
        forall key | key in f && key !in IDENTITY_ORDER && !Empty(f[key]) ensures key in row && row[key] == f[key] {
          RowValueComesFrom(canonical, changes, g.homes[n], key);
          var m :| IsSource(canonical, changes, row, key, m);
          assert !Ambiguous(canonical, changes[m], changes[n]);
        }
      }
    }
  }

  /** Bundles of one identity without conflicts share a row. */
  lemma OneRowEach(canonical: Value -> string, changes: seq<Entry>, m: nat, n: nat)
    requires m < |changes| && n < |changes| && changes[m].Bundle? && changes[n].Bundle?
    requires ConflictFree(canonical, changes, Identity(canonical, changes[m].fields))
    requires Identity(canonical, changes[m].fields) == Identity(canonical, changes[n].fields)
    ensures Dedup(canonical, changes).homes[m] == Dedup(canonical, changes).homes[n]
  {
    var g := Dedup(canonical, changes);
    DedupIsGood(canonical, changes);
    assert Survives(canonical, changes[m], g.rows[g.homes[m]]) && Survives(canonical, changes[n], g.rows[g.homes[n]]);
    if g.homes[m] < g.homes[n] {
      RowsDoNotConflict(canonical, changes, g.homes[m], g.homes[n]);
    } else if g.homes[n] < g.homes[m] {
      RowsDoNotConflict(canonical, changes, g.homes[n], g.homes[m]);
    }
  }

  lemma RowsDoNotConflict(canonical: Value -> string, changes: seq<Entry>, i: nat, j: nat)
    requires i < j < |Dedup(canonical, changes).rows|
    requires var rows := Dedup(canonical, changes).rows;
             rows[i].Bundle? && rows[j].Bundle? && ConflictFree(canonical, changes, Identity(canonical, rows[i].fields))
    ensures var rows := Dedup(canonical, changes).rows;
            Identity(canonical, rows[i].fields) != Identity(canonical, rows[j].fields)
  {
    var a, b := Dedup(canonical, changes).rows[i].fields, Dedup(canonical, changes).rows[j].fields;
    DedupIsGood(canonical, changes);
    if Identity(canonical, a) == Identity(canonical, b) {
      assert !Accepts(canonical, Bundle(a), b);
      var key :| key in a.Keys + b.Keys && key !in IDENTITY_ORDER
        && !Empty(FieldOf(a, key)) && !Empty(FieldOf(b, key)) && !PyEq(FieldOf(a, key), FieldOf(b, key));
      RowValueComesFrom(canonical, changes, i, key);
      RowValueComesFrom(canonical, changes, j, key);
    }
  }

  /** And exactly so, unless one identity has an ambiguous pair and a conflict as well: such a list is
      merged byte for byte if and only if no two of its bundles are ambiguous. */
  lemma LosslessIffUnambiguous(canonical: Value -> string, changes: seq<Entry>)
    requires forall m, n :: 0 <= m < |changes| && 0 <= n < |changes| && Ambiguous(canonical, changes[m], changes[n])
               ==> ConflictFree(canonical, changes, Identity(canonical, changes[m].fields))
    ensures ByteLossless(canonical, changes) <==> !AnyAmbiguous(canonical, changes)
  {
    if AnyAmbiguous(canonical, changes) {
      var m, n :| 0 <= m < |changes| && 0 <= n < |changes| && Ambiguous(canonical, changes[m], changes[n]);
      OneRowEach(canonical, changes, m, n);
    } else {
      LosslessUnlessAmbiguous(canonical, changes);
    }
  }

  /** Beyond that an ambiguous pair decides nothing: two bundles that conflict under another key stay apart,
      and nothing is lost although they are ambiguous. */
  lemma AmbiguousYetLossless(canonical: Value -> string, k: string, v: Value, w: Value, l: string, x: Value, y: Value)
    requires k != l && k !in IDENTITY_ORDER && l !in IDENTITY_ORDER && !Empty(v) && !Empty(w) && !Empty(x) && !Empty(y)
    requires PyEq(v, w) && v != w && !PyEq(x, y)
    ensures var a, b := map[k := v, l := x], map[k := w, l := y];
            Ambiguous(canonical, Bundle(a), Bundle(b)) && ByteLossless(canonical, [Bundle(a), Bundle(b)])
  {
    var a, b := map[k := v, l := x], map[k := w, l := y];
    assert a[k] == v && b[k] == w && a[l] == x && b[l] == y;
    SameIdentity(canonical, a, b);
    assert Conflict(a, b) by { assert l in a.Keys + b.Keys; }
    ConflictKeepsApart(canonical, a, b);
  }

  lemma ConflictKeepsApart(canonical: Value -> string, a: Fields, b: Fields)
    requires Conflict(a, b)
    ensures Dedup(canonical, [Bundle(a), Bundle(b)]) == Grouping([Bundle(a), Bundle(b)], [0, 1])
    ensures ByteLossless(canonical, [Bundle(a), Bundle(b)])
  {
    var list := [Bundle(a), Bundle(b)];
    assert list[..1] == [Bundle(a)] && list[..1][..0] == [];
    assert Dedup(canonical, [Bundle(a)]) == Grouping([Bundle(a)], [0]);
  }

  /** Entry by entry, for every list: an entry is lost in part exactly when it is folded into a row with
      an equal but different field. */
  lemma ByteLosslessExactly(canonical: Value -> string, changes: seq<Entry>)
    ensures ByteLossless(canonical, changes)
            <==> (forall n :: 0 <= n < |changes| ==> !FoldedBlurred(canonical, changes, n))
  {
    forall n | 0 <= n < |changes|
      ensures var g := Dedup(canonical, changes);
              g.homes[n] < |g.rows|
              && (RowHolds(g.rows[g.homes[n]], changes[n]) <==> !FoldedBlurred(canonical, changes, n))
    {
      HoldsUnlessBlurred(canonical, changes, n);
    }
  }

  /** Of two rows with equal but different values under one key only the first is left. */
  lemma {:induction false} FirstIsLeft(canonical: Value -> string, key: string, v: Value, w: Value)
    requires key !in IDENTITY_ORDER && PyEq(v, w) && !Empty(v) && !Empty(w)
    ensures Dedup(canonical, [Bundle(map[key := v]), Bundle(map[key := w])]).rows == [Bundle(map[key := v])]
  {
    var a, b := map[key := v], map[key := w];
    assert [Bundle(a), Bundle(b)][..1] == [Bundle(a)] && [Bundle(a)][..0] == [];
    assert Dedup(canonical, [Bundle(a)]).rows == [Bundle(a)];
    SameIdentity(canonical, a, b);
    assert Merged(a, b) == a;
  }

  /** ... and not for all lists: the second of these rows is in no output row. */
  lemma NotByteLossless(canonical: Value -> string)
    ensures var one, yes := map["blackboard" := Int(1)], map["blackboard" := Bool(true)];
            Dedup(canonical, [Bundle(one), Bundle(yes)]).rows == [Bundle(one)] && !Holds(one, yes)
  {
    FirstIsLeft(canonical, "blackboard", Int(1), Bool(true));
    var yes := map["blackboard" := Bool(true)];
    assert yes["blackboard"] != Int(1);
  }
}
