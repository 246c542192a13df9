/** Immutable builds and the atomic `current.json` swap (src/arknights_mcp/db/promotion.py).

    One writer; replacing a file is atomic.  The directory is a map from build names to contents and
    modification times.  Every file operation of a promotion is one step, and the process may stop
    after any of them. */
module Promotion {
  import opened Json
  import opened JsonText
  import opened Lists

  type Name = string
  type Blob = string

  datatype Build = Build(blob: Blob, mtime: int)

  type Builds = map<Name, Build>

  /** What `read_schema_version` and `_read_snapshots` find in a readable candidate. */
  datatype DbContents = DbContents(schemaVersion: string, snapshots: seq<string>)

  datatype CurrentManifest = CurrentManifest(databaseFilename: Name, databaseHash: string, contentHash: string,
                                             schemaVersion: string, snapshots: seq<string>, createdAt: string)

  /** Reading a database (`None`: unreadable, or without migrations or snapshots) and the two hashes. */
  datatype Tools = Tools(inspect: Blob -> Option<DbContents>, sha256: Blob -> string, contentHash: DbContents -> string)

  datatype Request = Request(candidate: Option<Blob>, validationPassed: bool, base: Name, createdAt: string,
                             retainVersions: int, mtime: int)

  datatype PromotionResult = Refused | NoOp | Promoted(name: Name, pruned: seq<Name>)

  datatype Dir = Dir(builds: Builds, manifest: Option<CurrentManifest>)

  /** `resolve_active_database`: the build the manifest names, if the file is there. */
  function ResolveActive(d: Dir): Option<Build> {
    match d.manifest
    case None => None
    case Some(m) => if m.databaseFilename in d.builds then Some(d.builds[m.databaseFilename]) else None
  }

  /** The manifest written for a blob that is readable. */
  function ManifestFor(t: Tools, name: Name, blob: Blob, c: DbContents, createdAt: string): CurrentManifest {
    CurrentManifest(name, t.sha256(blob), t.contentHash(c), c.schemaVersion, c.snapshots, createdAt)
  }

  // ---------------------------------------------------------------- steps

  datatype Op = WriteBuild(name: Name, build: Build) | SwapManifest(m: CurrentManifest) | Unlink(name: Name)

  function Apply(d: Dir, op: Op): Dir {
    match op
    case WriteBuild(n, b) => d.(builds := d.builds[n := b])
    case SwapManifest(m) => d.(manifest := Some(m))
    case Unlink(n) => d.(builds := d.builds - {n})
  }

  function Run(d: Dir, ops: seq<Op>): Dir {
    if ops == [] then d else Apply(Run(d, ops[..|ops| - 1]), ops[|ops| - 1])
  }

  // ---------------------------------------------------------------- names

  function VersionedName(base: Name, k: nat): Name {
    if k <= 1 then base + ".sqlite" else base + "-" + Digits(k) + ".sqlite"
  }

  lemma Middle(base: Name, mid: string)
    ensures var n := base + "-" + mid + ".sqlite"; |n| == |base| + |mid| + 8 && n[|base| + 1..|n| - 7] == mid
  {
  }

  lemma NamesDiffer(base: Name, j: nat, k: nat)
    requires 1 <= j < k
    ensures VersionedName(base, j) != VersionedName(base, k)
  {
    DigitsAreTheNumber(j);
    DigitsAreTheNumber(k);
    Middle(base, Digits(j));
    Middle(base, Digits(k));
  }

  /** The first k-1 names cannot all be taken in a directory of fewer than k-1 builds. */
  lemma {:induction false} Pigeonhole(builds: Builds, base: Name, k: nat)
    requires k >= 1 && forall j :: 1 <= j < k ==> VersionedName(base, j) in builds
    ensures k - 1 <= |builds|
  {
    if k > 1 {
      var last := VersionedName(base, k - 1);
      var fewer := builds - {last};
      forall j | 1 <= j < k - 1 ensures VersionedName(base, j) in fewer {
        NamesDiffer(base, j, k - 1);
      }
      Pigeonhole(fewer, base, k - 1);
      assert fewer.Keys == builds.Keys - {last};
    }
  }

  // ---------------------------------------------------------------- retention

  /** The sort key of lines 213-217. */
  type Key = (int, Name)

  predicate Newer(a: Key, b: Key) { a.0 > b.0 || (a.0 == b.0 && TextLt(b.1, a.1)) }

  function KeyOf(builds: Builds, n: Name): Key
    requires n in builds
  {
    (builds[n].mtime, n)
  }

  /** The order of builds by that key. */
  function NewerIn(builds: Builds): (Name, Name) -> bool {
    (a, b) => a in builds && b in builds && Newer(KeyOf(builds, a), KeyOf(builds, b))
  }

  /** The names, other than the one just promoted, that are newer than x. */
  function Rivals(newer: (Name, Name) -> bool, names: set<Name>, keep: Name, x: Name): set<Name> {
    set y | y in names && y != keep && newer(y, x)
  }

  function Retain(retainVersions: int): int { if retainVersions > 1 then retainVersions else 1 }

  /** What retention removes: everything but `keep` and the newest retain-1 others. */
  function Doomed(newer: (Name, Name) -> bool, names: set<Name>, keep: Name, retain: int): set<Name> {
    set x | x in names && x != keep && |Rivals(newer, names, keep, x)| >= retain - 1
  }

  ghost predicate NewestFirst(newer: (Name, Name) -> bool, order: seq<Name>) {
    forall i, j :: 0 <= i < j < |order| ==> newer(order[i], order[j])
  }

  function Unlinks(names: seq<Name>): seq<Op> {
    seq(|names|, i requires 0 <= i < |names| => Unlink(names[i]))
  }

  // ---------------------------------------------------------------- what a promotion does

  predicate IsNoOp(t: Tools, d: Dir, c: DbContents) {
    d.manifest.Some?
    && d.manifest.value.contentHash == t.contentHash(c) && d.manifest.value.databaseFilename in d.builds
  }

  ghost predicate IsFreshName(builds: Builds, base: Name, name: Name) {
    name !in builds
    && exists k: nat :: k >= 1 && name == VersionedName(base, k)
         && forall j :: 1 <= j < k ==> VersionedName(base, j) in builds
  }

  function AfterWrite(d: Dir, name: Name, blob: Blob, mtime: int): Builds { d.builds[name := Build(blob, mtime)] }

  function WriteOp(r: Request, name: Name, blob: Blob): Op { WriteBuild(name, Build(blob, r.mtime)) }

  function SwapOp(t: Tools, r: Request, name: Name, blob: Blob, c: DbContents): Op {
    SwapManifest(ManifestFor(t, name, blob, c, r.createdAt))
  }

  /** Copy, swap, prune: under a fresh name, and only what retention dooms is removed, newest first. */
  ghost predicate Installs(t: Tools, d: Dir, r: Request, blob: Blob, c: DbContents, name: Name, pruned: seq<Name>,
                           ops: seq<Op>)
  {
    IsFreshName(d.builds, r.base, name)
    && var builds := AfterWrite(d, name, blob, r.mtime);
       NewestFirst(NewerIn(builds), pruned)
       && Elements(pruned) == Doomed(NewerIn(builds), builds.Keys, name, Retain(r.retainVersions))
       && ops == [WriteOp(r, name, blob), SwapOp(t, r, name, blob, c)] + Unlinks(pruned)
  }

  /** The file operations of one call, in order, and its result. */
  ghost predicate Performs(t: Tools, d: Dir, r: Request, ops: seq<Op>, result: PromotionResult) {
    if !r.validationPassed || r.candidate.None? || t.inspect(r.candidate.value).None? then
      ops == [] && result == Refused
    else
      var blob, c := r.candidate.value, t.inspect(r.candidate.value).value;
      if IsNoOp(t, d, c) then ops == [] && result == NoOp
      else result.Promoted? && Installs(t, d, r, blob, c, result.name, result.pruned, ops)
  }

  // ---------------------------------------------------------------- the code

  class BuildStore {
    const tools: Tools
    var builds: Builds
    var manifest: Option<CurrentManifest>
    ghost var journal: seq<Op>

    constructor (tools: Tools, d: Dir)
      ensures this.tools == tools && View() == d && journal == []
    {
      this.tools := tools;
      builds, manifest, journal := d.builds, d.manifest, [];
    }

    ghost function View(): Dir
      reads this
    {
      Dir(builds, manifest)
    }

    /** `atomic_write_bytes` and `os.replace` on a build, the manifest swap, and `unlink`. */
    method Do(op: Op)
      modifies this
      ensures View() == Apply(old(View()), op)
      ensures journal == old(journal) + [op]
    {
      match op {
        case WriteBuild(n, b) => builds := builds[n := b];
        case SwapManifest(m) => manifest := Some(m);
        case Unlink(n) => builds := builds - {n};
      }
      journal := journal + [op];
    }

    /** `_versioned_filename`, lines 190-200. */
    method VersionedFilename(base: Name) returns (name: Name)
      ensures IsFreshName(builds, base, name)
    {
      name := base + ".sqlite";
      var counter := 2;
      while name in builds
        invariant counter >= 2 && name == VersionedName(base, counter - 1)
        invariant forall j :: 1 <= j < counter - 1 ==> VersionedName(base, j) in builds
        decreases |builds| + 2 - counter
      {
        Pigeonhole(builds, base, counter);
        name := base + "-" + Digits(counter) + ".sqlite";
        counter := counter + 1;
      }
    }

    /** `_prune_old_builds`, lines 203-228; `listing` is whatever order `glob` yields. */
    method PruneOldBuilds(keepName: Name, retainVersions: int, listing: seq<Name>) returns (pruned: seq<Name>)
      requires keepName in builds && IsListing(builds, listing)
      modifies this
      ensures NewestFirst(NewerIn(old(builds)), pruned)
      ensures Elements(pruned) == Doomed(NewerIn(old(builds)), old(builds).Keys, keepName, Retain(retainVersions))
      ensures journal == old(journal) + Unlinks(pruned)
      ensures View() == Run(old(View()), Unlinks(pruned))
    {
      var allBuilds := SortNewestFirst(builds, listing);
      ghost var newer := NewerIn(builds);
      SortedListing(builds, listing);
      NewerInIsStrict(builds);
      var keep := KeepNewest(newer, builds.Keys, allBuilds, keepName, Retain(retainVersions));
      assert forall x :: x in allBuilds <==> x in Elements(allBuilds);
      pruned := RemoveOthers(newer, allBuilds, keep);
    }

    /** The first loop of `_prune_old_builds`. */
    static method KeepNewest(ghost newer: (Name, Name) -> bool, ghost names: set<Name>, allBuilds: seq<Name>,
                             keepName: Name, retain: int) returns (keep: set<Name>)
      requires StrictOrder(newer, names) && NewestFirst(newer, allBuilds) && Elements(allBuilds) == names
      requires keepName in names && retain >= 1
      ensures Doomed(newer, names, keepName, retain) == names - keep
    {
      keep := {keepName};
      var n := 0;
      while n < |allBuilds| && |keep| < retain
        invariant n <= |allBuilds|
        invariant keep == Kept(allBuilds, keepName, n) && |keep| == 1 + Others(allBuilds, keepName, n)
        invariant n > 0 ==> 1 + Others(allBuilds, keepName, n - 1) < retain
      {
        keep := keep + {allBuilds[n]};
        n := n + 1;
        KeptCount(allBuilds, keepName, n);
      }
      KeepIsTheRest(newer, names, allBuilds, keepName, retain, n);
    }

    /** The second loop of `_prune_old_builds`. */
    method RemoveOthers(ghost newer: (Name, Name) -> bool, allBuilds: seq<Name>, keep: set<Name>)
      returns (pruned: seq<Name>)
      requires NewestFirst(newer, allBuilds)
      modifies this
      ensures NewestFirst(newer, pruned)
      ensures forall x :: x in pruned <==> x in allBuilds && x !in keep
      ensures journal == old(journal) + Unlinks(pruned)
      ensures View() == Run(old(View()), Unlinks(pruned))
    {
      pruned := [];
      for i := 0 to |allBuilds|
        invariant pruned == Unkept(allBuilds, keep, i)
        invariant journal == old(journal) + Unlinks(pruned)
        invariant View() == Run(old(View()), Unlinks(pruned))
      {
        if allBuilds[i] !in keep {
          Do(Unlink(allBuilds[i]));
          UnlinksAppend(old(View()), pruned, allBuilds[i]);
          pruned := pruned + [allBuilds[i]];
        }
      }
      UnkeptInOrder(newer, allBuilds, keep, |allBuilds|);
      assert allBuilds[..|allBuilds|] == allBuilds;
    }

    /** `glob`: every build once, in any order. */
    method Glob() returns (listing: seq<Name>)
      ensures IsListing(builds, listing)
    {
      listing := [];
      var pending := builds.Keys;
      while pending != {}
        invariant pending <= builds.Keys
        invariant Elements(listing) == builds.Keys - pending && Distinct(listing)
        decreases pending
      {
        var x :| x in pending;
        pending := pending - {x};
        ElementsAppend(listing, [x]);
        listing := listing + [x];
      }
    }

    /** Lines 278-300: the name, the copy, the manifest swap and the pruning. */
    method Install(r: Request, blob: Blob, c: DbContents) returns (name: Name, pruned: seq<Name>, ghost ops: seq<Op>)
      modifies this
      ensures Installs(tools, old(View()), r, blob, c, name, pruned, ops)
      ensures journal == old(journal) + ops && View() == Run(old(View()), ops)
    {
      ghost var d, log := View(), journal;
      name := VersionedFilename(r.base);
      Do(WriteOp(r, name, blob));
      Do(SwapOp(tools, r, name, blob, c));
      ghost var first := [WriteOp(r, name, blob), SwapOp(tools, r, name, blob, c)];
      RunTwo(d, WriteOp(r, name, blob), SwapOp(tools, r, name, blob, c));
      assert journal == log + first && builds == AfterWrite(d, name, blob, r.mtime);
      var listing := Glob();
      pruned := PruneOldBuilds(name, r.retainVersions, listing);
      ops := first + Unlinks(pruned);
      RunAppend(d, first, Unlinks(pruned));
      Associate(log, first, Unlinks(pruned));
    }

    /** `promote_candidate`, lines 231-303. `ops` are the file operations it performed, in order. */
    method Promote(r: Request) returns (result: PromotionResult, ghost ops: seq<Op>)
      modifies this
      ensures Performs(tools, old(View()), r, ops, result)
      ensures journal == old(journal) + ops && View() == Run(old(View()), ops)
    {
      if !r.validationPassed || r.candidate.None? {
        return Refused, [];
      }
      var blob := r.candidate.value;
      var contents := tools.inspect(blob);
      if contents.None? {
        return Refused, [];
      }
      if IsNoOp(tools, Dir(builds, manifest), contents.value) {
        return NoOp, [];
      }
      var name, pruned, installed := Install(r, blob, contents.value);
      return Promoted(name, pruned), installed;
    }
  }

  /** The first n names without the kept ones, in order. */
  function Unkept(order: seq<Name>, keep: set<Name>, n: nat): seq<Name>
    requires n <= |order|
  {
    if n == 0 then []
    else Unkept(order, keep, n - 1) + (if order[n - 1] in keep then [] else [order[n - 1]])
  }

  lemma {:induction false} UnkeptInOrder(newer: (Name, Name) -> bool, order: seq<Name>, keep: set<Name>, n: nat)
    requires n <= |order| && NewestFirst(newer, order)
    ensures NewestFirst(newer, Unkept(order, keep, n))
    ensures forall x :: x in Unkept(order, keep, n) <==> x in order[..n] && x !in keep
  {
    if n > 0 {
      UnkeptInOrder(newer, order, keep, n - 1);
      assert order[..n] == order[..n - 1] + [order[n - 1]];
      var past := Unkept(order, keep, n - 1);
      forall k | 0 <= k < |past| ensures newer(past[k], order[n - 1]) {
        assert past[k] in order[..n - 1];
      }
    }
  }

  lemma RunTwo(d: Dir, a: Op, b: Op)
    ensures Run(d, [a]) == Apply(d, a) && Run(d, [a, b]) == Apply(Apply(d, a), b)
  {
    assert [a][..0] == [];
    assert [a, b][..1] == [a];
  }

  lemma {:induction false} RunAppend(d: Dir, a: seq<Op>, b: seq<Op>)
    ensures Run(d, a + b) == Run(Run(d, a), b)
    decreases |b|
  {
    if b == [] {
      assert a + b == a;
    } else {
      var past, last := b[..|b| - 1], b[|b| - 1];
      RunAppend(d, a, past);
      assert (a + b)[..|a + b| - 1] == a + past;
    }
  }

  lemma UnlinksAppend(d: Dir, names: seq<Name>, n: Name)
    ensures Unlinks(names + [n]) == Unlinks(names) + [Unlink(n)]
    ensures Run(d, Unlinks(names + [n])) == Apply(Run(d, Unlinks(names)), Unlink(n))
  {
    var all := Unlinks(names + [n]);
    assert all == Unlinks(names) + [Unlink(n)];
    assert all[..|all| - 1] == Unlinks(names);
  }

  predicate IsListing(builds: Builds, listing: seq<Name>) {
    Elements(listing) == builds.Keys && Distinct(listing)
  }

  function KeysOf(builds: Builds, names: seq<Name>): seq<Key>
    requires forall i :: 0 <= i < |names| ==> names[i] in builds
  {
    seq(|names|, i requires 0 <= i < |names| => KeyOf(builds, names[i]))
  }

  function NamesOf(keys: seq<Key>): seq<Name> { seq(|keys|, i requires 0 <= i < |keys| => keys[i].1) }

  function NewestFirstOrder(): (Key, Key) -> bool { (a, b) => a == b || Newer(a, b) }

  function SortNewestFirst(builds: Builds, listing: seq<Name>): seq<Name>
    requires IsListing(builds, listing)
  {
    NamesOf(Sort(KeysOf(builds, listing), NewestFirstOrder()))
  }

  lemma NewerTransitive(a: Key, b: Key, c: Key)
    requires a == b || Newer(a, b)
    requires b == c || Newer(b, c)
    ensures a == c || Newer(a, c)
  {
    if a != b && b != c && a.0 == b.0 == c.0 {
      TextTransitive(c.1, b.1, a.1);
      TextTotal(a.1, b.1);
    }
  }

  lemma NewerIsStrict(a: Key, b: Key)
    ensures !(Newer(a, b) && Newer(b, a)) && !Newer(a, a)
    ensures a == b || Newer(a, b) || Newer(b, a)
  {
    TextTotal(a.1, b.1);
  }

  /** `newer` orders the names strictly and totally. */
  ghost predicate StrictOrder(newer: (Name, Name) -> bool, names: set<Name>) {
    && (forall a, b :: a in names && b in names && newer(a, b) ==> a != b && !newer(b, a))
    && (forall a, b :: a in names && b in names ==> a == b || newer(a, b) || newer(b, a))
    && (forall a, b, c :: a in names && b in names && c in names && newer(a, b) && newer(b, c) ==> newer(a, c))
  }

  lemma NewerInIsStrict(builds: Builds)
    ensures StrictOrder(NewerIn(builds), builds.Keys)
  {
    var newer := NewerIn(builds);
    forall a, b | a in builds && b in builds
      ensures (newer(a, b) ==> a != b && !newer(b, a)) && (a == b || newer(a, b) || newer(b, a))
    {
      NewerIsStrict(KeyOf(builds, a), KeyOf(builds, b));
    }
    forall a, b, c | a in builds && b in builds && c in builds && newer(a, b) && newer(b, c) ensures newer(a, c) {
      NewerTransitive(KeyOf(builds, a), KeyOf(builds, b), KeyOf(builds, c));
      NewerIsStrict(KeyOf(builds, a), KeyOf(builds, b));
    }
  }

  /** The sorted listing is every build once, each newer than the next. */
  lemma {:induction false} SortedListing(builds: Builds, listing: seq<Name>)
    requires IsListing(builds, listing)
    ensures NewestFirst(NewerIn(builds), SortNewestFirst(builds, listing))
    ensures Elements(SortNewestFirst(builds, listing)) == builds.Keys
  {
    var keys, le := KeysOf(builds, listing), NewestFirstOrder();
    var sorted, newer := Sort(keys, le), NewerIn(builds);
    forall a: Key, b: Key ensures le(a, b) || le(b, a) {
      TextTotal(a.1, b.1);
    }
    forall a: Key, b: Key, c: Key | le(a, b) && le(b, c) ensures le(a, c) {
      NewerTransitive(a, b, c);
    }
    SortSorts(keys, le);
    DistinctPermutes(keys, sorted);
    PermutedElements(keys, sorted);
    ElementsOfKeys(builds, listing);
    assert forall i :: 0 <= i < |sorted| ==> sorted[i] in Elements(keys);
    forall i, j | 0 <= i < j < |sorted| ensures newer(sorted[i].1, sorted[j].1) {
      assert le(sorted[i], sorted[j]) && sorted[i] != sorted[j];
    }
    NamesOfElements(builds, sorted);
  }

  lemma ElementsOfKeys(builds: Builds, listing: seq<Name>)
    requires IsListing(builds, listing)
    ensures forall k: Key :: k in Elements(KeysOf(builds, listing)) <==> k.1 in builds && k == KeyOf(builds, k.1)
  {
    var keys := KeysOf(builds, listing);
    forall k: Key | k.1 in builds && k == KeyOf(builds, k.1) ensures k in keys {
      assert k.1 in Elements(listing);
      var i :| 0 <= i < |listing| && listing[i] == k.1;
      assert keys[i] == k;
    }
  }

  lemma NamesOfElements(builds: Builds, keys: seq<Key>)
    requires forall k: Key :: k in Elements(keys) <==> k.1 in builds && k == KeyOf(builds, k.1)
    ensures Elements(NamesOf(keys)) == builds.Keys
  {
    forall n ensures n in NamesOf(keys) <==> n in builds {
      if n in builds {
        assert KeyOf(builds, n) in Elements(keys);
        var i :| 0 <= i < |keys| && keys[i] == KeyOf(builds, n);
        assert NamesOf(keys)[i] == n;
      }
      if n in NamesOf(keys) {
        var i :| 0 <= i < |keys| && NamesOf(keys)[i] == n;
        assert keys[i] in Elements(keys);
      }
    }
  }

  // ---------------------------------------------------------------- what retention keeps

  /** How many of the first n names are not `keep`. */
  function Others(order: seq<Name>, keep: Name, n: nat): nat
    requires n <= |order|
  {
    if n == 0 then 0 else Others(order, keep, n - 1) + (if order[n - 1] == keep then 0 else 1)
  }

  /** The `keep` set of the code after n names. */
  function Kept(order: seq<Name>, keep: Name, n: nat): set<Name>
    requires n <= |order|
  {
    if n == 0 then {keep} else Kept(order, keep, n - 1) + {order[n - 1]}
  }

  lemma {:induction false} InKept(order: seq<Name>, keep: Name, n: nat, x: Name)
    requires n <= |order|
    ensures x in Kept(order, keep, n) <==> x == keep || x in order[..n]
  {
    if n > 0 {
      InKept(order, keep, n - 1, x);
      assert order[..n] == order[..n - 1] + [order[n - 1]];
    }
  }

  lemma AddOne<T>(s: set<T>, x: T)
    ensures |s + {x}| == |s| + (if x in s then 0 else 1)
  {
    if x in s {
      assert s + {x} == s;
    }
  }

  lemma {:induction false} KeptCount(order: seq<Name>, keep: Name, n: nat)
    requires n <= |order| && Distinct(order)
    ensures |Kept(order, keep, n)| == 1 + Others(order, keep, n)
  {
    if n > 0 {
      KeptCount(order, keep, n - 1);
      InKept(order, keep, n - 1, order[n - 1]);
      AddOne(Kept(order, keep, n - 1), order[n - 1]);
    }
  }

  lemma {:induction false} OthersGrow(order: seq<Name>, keep: Name, m: nat, n: nat)
    requires m <= n <= |order|
    ensures Others(order, keep, m) <= Others(order, keep, n)
  {
    if m < n {
      OthersGrow(order, keep, m, n - 1);
    }
  }

  lemma RivalsAreFirsts(newer: (Name, Name) -> bool, names: set<Name>, order: seq<Name>, keep: Name, i: nat)
    requires StrictOrder(newer, names) && NewestFirst(newer, order) && Elements(order) == names && i < |order|
    ensures |Rivals(newer, names, keep, order[i])| == Others(order, keep, i)
  {
    var rivals := Rivals(newer, names, keep, order[i]);
    forall y ensures y in Kept(order, keep, i) <==> y in rivals + {keep} {
      InKept(order, keep, i, y);
    }
    assert Kept(order, keep, i) == rivals + {keep};
    KeptCount(order, keep, i);
    AddOne(rivals, keep);
  }

  /** Keeping from the newest on until `retain` names are kept leaves exactly the doomed ones. */
  lemma {:induction false} KeepIsTheRest(newer: (Name, Name) -> bool, names: set<Name>, order: seq<Name>, keep: Name,
                                         retain: int, n: nat)
    requires StrictOrder(newer, names) && NewestFirst(newer, order) && Elements(order) == names
    requires n <= |order| && keep in names
    requires n < |order| ==> 1 + Others(order, keep, n) >= retain
    requires n > 0 ==> 1 + Others(order, keep, n - 1) < retain
    ensures Doomed(newer, names, keep, retain) == names - Kept(order, keep, n)
    ensures Kept(order, keep, n) <= names
  {
    forall x ensures x in Doomed(newer, names, keep, retain) <==> x in names && x !in Kept(order, keep, n)
             ensures x in Kept(order, keep, n) ==> x in names
    {
      InKept(order, keep, n, x);
      if x in order[..n] {
        assert x in Elements(order);
      }
      if x in names {
        assert x in Elements(order);
        var i :| 0 <= i < |order| && order[i] == x;
        DoomedByPlace(newer, names, order, keep, retain, n, i);
      }
    }
  }

  lemma DoomedByPlace(newer: (Name, Name) -> bool, names: set<Name>, order: seq<Name>, keep: Name, retain: int,
                      n: nat, i: nat)
    requires StrictOrder(newer, names) && NewestFirst(newer, order) && Elements(order) == names
    requires n <= |order| && i < |order|
    requires n < |order| ==> 1 + Others(order, keep, n) >= retain
    requires n > 0 ==> 1 + Others(order, keep, n - 1) < retain
    ensures |Rivals(newer, names, keep, order[i])| >= retain - 1 <==> order[i] !in order[..n]
  {
    RivalsAreFirsts(newer, names, order, keep, i);
    if i >= n {
      OthersGrow(order, keep, n, i);
    } else {
      OthersGrow(order, keep, i, n - 1);
      assert order[..n][i] == order[i];
    }
  }

  lemma SubsetSize<T>(a: set<T>, b: set<T>)
    requires a <= b
    ensures |a| <= |b|
  {
    assert b == a + (b - a);
  }

  /** The code stops after n names: with fewer names kept it would go on, with more it would have stopped. */
  predicate Stops(order: seq<Name>, keep: Name, retain: int, n: int) {
    0 <= n <= |order| && 1 + Others(order, keep, n) <= retain
    && (n < |order| ==> 1 + Others(order, keep, n) >= retain) && (n > 0 ==> 1 + Others(order, keep, n - 1) < retain)
  }

  lemma {:induction false} KeepUntil(order: seq<Name>, keep: Name, retain: int, from: nat)
    requires from <= |order| && 1 + Others(order, keep, from) <= retain
    requires from > 0 ==> 1 + Others(order, keep, from - 1) < retain
    ensures exists n :: Stops(order, keep, retain, n)
    decreases |order| - from
  {
    if from < |order| && 1 + Others(order, keep, from) < retain {
      KeepUntil(order, keep, retain, from + 1);
    } else {
      assert Stops(order, keep, retain, from);
    }
  }

  /** Retention leaves exactly min(retain, n) builds, the kept one among them. */
  lemma RetentionCount(builds: Builds, keep: Name, retain: int, listing: seq<Name>)
    requires IsListing(builds, listing) && keep in builds && retain >= 1
    ensures var left := builds.Keys - Doomed(NewerIn(builds), builds.Keys, keep, retain);
            keep in left && |left| == if |builds| < retain then |builds| else retain
  {
    NewerInIsStrict(builds);
    SortedListing(builds, listing);
    LeftCount(NewerIn(builds), builds.Keys, SortNewestFirst(builds, listing), keep, retain);
  }

  lemma {:induction false} LeftCount(newer: (Name, Name) -> bool, names: set<Name>, order: seq<Name>, keep: Name,
                                     retain: int)
    requires StrictOrder(newer, names) && NewestFirst(newer, order) && Elements(order) == names
    requires keep in names && retain >= 1
    ensures |names - Doomed(newer, names, keep, retain)| == if |names| < retain then |names| else retain
  {
    KeepUntil(order, keep, retain, 0);
    var n :| Stops(order, keep, retain, n);
    KeepIsTheRest(newer, names, order, keep, retain, n);
    KeptCount(order, keep, n);
    var kept := Kept(order, keep, n);
    assert names - (names - kept) == kept;
    SubsetSize(kept, names);
    if n == |order| {
      AllKept(order, keep, names);
    }
  }

  lemma AllKept(order: seq<Name>, keep: Name, names: set<Name>)
    requires Elements(order) == names && keep in names
    ensures Kept(order, keep, |order|) == names
  {
    forall x ensures x in Kept(order, keep, |order|) <==> x in names {
      InKept(order, keep, |order|, x);
      assert order[..|order|] == order;
      assert x in names <==> x in Elements(order);
    }
  }

  /** Every build that retention removes is older than every survivor other than the kept one. */
  lemma DoomedAreOlder(newer: (Name, Name) -> bool, names: set<Name>, keep: Name, retain: int, x: Name, y: Name)
    requires StrictOrder(newer, names)
    requires x in Doomed(newer, names, keep, retain)
    requires y in names && y != keep && y !in Doomed(newer, names, keep, retain)
    ensures newer(y, x)
  {
    if newer(x, y) {
      assert Rivals(newer, names, keep, x) <= Rivals(newer, names, keep, y);
      SubsetSize(Rivals(newer, names, keep, x), Rivals(newer, names, keep, y));
    }
  }

  // ---------------------------------------------------------------- runs with crashes

  /** One call of a promotion of which the first `steps` file operations took place, at most all. */
  datatype Attempt = Attempt(request: Request, ops: seq<Op>, result: PromotionResult, steps: nat)

  ghost predicate Happens(t: Tools, d: Dir, a: Attempt) {
    Performs(t, d, a.request, a.ops, a.result) && a.steps <= |a.ops|
  }

  function After(d: Dir, a: Attempt): Dir { Run(d, if a.steps < |a.ops| then a.ops[..a.steps] else a.ops) }

  ghost predicate IsRun(t: Tools, d: Dir, attempts: seq<Attempt>)
    decreases |attempts|
  {
    attempts == [] || (Happens(t, d, attempts[0]) && IsRun(t, After(d, attempts[0]), attempts[1..]))
  }

  function Final(d: Dir, attempts: seq<Attempt>): Dir
    decreases |attempts|
  {
    if attempts == [] then d else Final(After(d, attempts[0]), attempts[1..])
  }

  /** The manifest, if present, names an existing build, and agrees with its bytes in everything it records
      about them.  Which bytes those are is said by `ServesWhatWasPromoted`. */
  ghost predicate Sound(t: Tools, d: Dir) {
    forall m :: d.manifest == Some(m) ==>
      m.databaseFilename in d.builds && Describes(t, m, d.builds[m.databaseFilename].blob)
  }

  /** The manifest's fields, one by one: the database hash is that of the bytes, everything else is that of
      the contents found in them. */
  ghost predicate Describes(t: Tools, m: CurrentManifest, blob: Blob) {
    t.inspect(blob).Some?
    && var found := t.inspect(blob).value;
       m == m.(databaseHash := t.sha256(blob), contentHash := t.contentHash(found),
               schemaVersion := found.schemaVersion, snapshots := found.snapshots)
  }

  /** The manifest is that of a promotion. */
  ghost predicate IsManifestOf(t: Tools, m: CurrentManifest, a: Attempt) {
    a.result.Promoted? && a.request.candidate.Some? && t.inspect(a.request.candidate.value).Some?
    && var (blob, found) := (a.request.candidate.value, t.inspect(a.request.candidate.value).value);
       m == CurrentManifest(databaseFilename := a.result.name, databaseHash := t.sha256(blob),
                            contentHash := t.contentHash(found), schemaVersion := found.schemaVersion,
                            snapshots := found.snapshots, createdAt := a.request.createdAt)
  }

  /** Nothing that stays is altered, and what was readable stays readable. */
  ghost predicate Preserves(d: Dir, d': Dir) {
    && (forall n :: n in d.builds && n in d'.builds ==> d'.builds[n] == d.builds[n])
    && (d.manifest.Some? ==> d'.manifest.Some?)
  }

  lemma {:induction false} UnlinksRemove(d: Dir, names: seq<Name>)
    ensures Run(d, Unlinks(names)).manifest == d.manifest
    ensures Run(d, Unlinks(names)).builds == d.builds - Elements(names)
  {
    if names != [] {
      var past, n := names[..|names| - 1], names[|names| - 1];
      UnlinksRemove(d, past);
      UnlinksAppend(d, past, n);
      assert past + [n] == names;
      assert Elements(names) == Elements(past) + {n};
    }
  }

  /** The builds once the new one is written, and the manifest once it is swapped. */
  function Wrote(d: Dir, a: Attempt): Builds
    requires a.result.Promoted? && a.request.candidate.Some?
  {
    AfterWrite(d, a.result.name, a.request.candidate.value, a.request.mtime)
  }

  function NewManifest(t: Tools, a: Attempt): CurrentManifest
    requires a.result.Promoted? && a.request.candidate.Some? && t.inspect(a.request.candidate.value).Some?
  {
    var blob := a.request.candidate.value;
    ManifestFor(t, a.result.name, blob, t.inspect(blob).value, a.request.createdAt)
  }

  /** Where a promotion stands after some of its file operations. */
  function Stage(t: Tools, d: Dir, a: Attempt): Dir
    requires a.result.Promoted? ==> a.request.candidate.Some? && t.inspect(a.request.candidate.value).Some?
    requires a.result.Promoted? && a.steps > 1 ==> a.steps - 2 <= |a.result.pruned|
  {
    if !a.result.Promoted? || a.steps == 0 then d
    else if a.steps == 1 then d.(builds := Wrote(d, a))
    else Dir(Wrote(d, a) - Elements(a.result.pruned[..a.steps - 2]), Some(NewManifest(t, a)))
  }

  lemma AfterSteps(t: Tools, d: Dir, a: Attempt)
    requires Happens(t, d, a)
    ensures a.result.Promoted? ==>
              a.request.candidate.Some? && t.inspect(a.request.candidate.value).Some? && a.result.name !in d.builds
              && |a.ops| == 2 + |a.result.pruned|
              && Elements(a.result.pruned)
                 == Doomed(NewerIn(Wrote(d, a)), Wrote(d, a).Keys, a.result.name, Retain(a.request.retainVersions))
    ensures After(d, a) == Stage(t, d, a)
  {
    assert a.ops[..|a.ops|] == a.ops;
    assert After(d, a) == Run(d, a.ops[..a.steps]);
    if a.result.Promoted? && a.steps > 0 {
      var blob := a.request.candidate.value;
      var write := WriteOp(a.request, a.result.name, blob);
      var swap := SwapOp(t, a.request, a.result.name, blob, t.inspect(blob).value);
      assert a.ops == [write, swap] + Unlinks(a.result.pruned);
      RunTwo(d, write, swap);
      if a.steps == 1 {
        assert a.ops[..1] == [write];
      } else {
        var gone := a.result.pruned[..a.steps - 2];
        assert a.ops[..a.steps] == [write, swap] + Unlinks(gone);
        RunAppend(d, [write, swap], Unlinks(gone));
        UnlinksRemove(Run(d, [write, swap]), gone);
      }
    } else {
      assert a.ops[..a.steps] == [];
    }
  }

  lemma PrunedSoFar(a: Attempt)
    requires a.result.Promoted? && 2 <= a.steps <= 2 + |a.result.pruned|
    ensures Elements(a.result.pruned[..a.steps - 2]) <= Elements(a.result.pruned)
  {
  }

  lemma AttemptIsSafe(t: Tools, d: Dir, a: Attempt)
    requires Sound(t, d) && Happens(t, d, a)
    ensures Sound(t, After(d, a)) && Preserves(d, After(d, a))
    ensures !a.result.Promoted? ==> After(d, a) == d
  {
    AfterSteps(t, d, a);
    if a.result.Promoted? && a.steps >= 2 {
      PrunedSoFar(a);
    }
  }

  ghost predicate PreservedAlong(d: Dir, attempts: seq<Attempt>)
    decreases |attempts|
  {
    attempts == [] || (Preserves(d, After(d, attempts[0])) && PreservedAlong(After(d, attempts[0]), attempts[1..]))
  }

  // ---------------------------------------------------------------- main results

  /** The attempt got as far as swapping the manifest. */
  predicate Swaps(a: Attempt) { a.result.Promoted? && a.steps >= 2 }

  /** Attempts that swap nothing leave the manifest and every build as they are; at most they add some. */
  lemma {:induction false} WithoutSwaps(t: Tools, d: Dir, attempts: seq<Attempt>)
    requires IsRun(t, d, attempts) && forall i :: 0 <= i < |attempts| ==> !Swaps(attempts[i])
    ensures Final(d, attempts).manifest == d.manifest
    ensures forall n :: n in d.builds ==> n in Final(d, attempts).builds && Final(d, attempts).builds[n] == d.builds[n]
    decreases |attempts|
  {
    if attempts != [] {
      AfterSteps(t, d, attempts[0]);
      WithoutSwaps(t, After(d, attempts[0]), attempts[1..]);
    }
  }

  /** Over every run of promotions, each stopped after any of its file operations: the manifest is that of
      the last attempt that swapped it, and the build it names holds exactly the bytes promoted then.
      Nothing is assumed of the hashes. */
  lemma {:induction false} ServesWhatWasPromoted(t: Tools, d: Dir, attempts: seq<Attempt>, i: nat)
    requires IsRun(t, d, attempts) && i < |attempts| && Swaps(attempts[i])
    requires forall j :: i < j < |attempts| ==> !Swaps(attempts[j])
    ensures Final(d, attempts).manifest.Some? && IsManifestOf(t, Final(d, attempts).manifest.value, attempts[i])
    ensures ResolveActive(Final(d, attempts))
         == Some(Build(attempts[i].request.candidate.value, attempts[i].request.mtime))
    decreases |attempts|
  {
    if i > 0 {
      ServesWhatWasPromoted(t, After(d, attempts[0]), attempts[1..], i - 1);
    } else {
      AfterSteps(t, d, attempts[0]);
      PrunedSoFar(attempts[0]);
      WithoutSwaps(t, After(d, attempts[0]), attempts[1..]);
    }
  }

  /** In such a run readers that could resolve a build still can, no attempt alters a build that it leaves
      in place, and the manifest agrees with the build it names. */
  lemma {:induction false} EveryRunIsSafe(t: Tools, d: Dir, attempts: seq<Attempt>)
    requires Sound(t, d) && IsRun(t, d, attempts)
    ensures Sound(t, Final(d, attempts)) && PreservedAlong(d, attempts)
    ensures d.manifest.Some? ==> ResolveActive(Final(d, attempts)).Some?
    decreases |attempts|
  {
    if attempts != [] {
      AttemptIsSafe(t, d, attempts[0]);
      EveryRunIsSafe(t, After(d, attempts[0]), attempts[1..]);
    }
  }

  /** The builds written later, and of those written at the same time the ones with the greater name. */
  function NewerBuilds(builds: Builds, x: Name): set<Name>
    requires x in builds
  {
    set y | y in builds && (builds[y].mtime > builds[x].mtime || (builds[y].mtime == builds[x].mtime && TextLt(x, y)))
  }

  /** A call is a no-op exactly when its candidate has the contents of the active build, as far as the hash
      can tell; then it performs no operation. */
  lemma NoOpExactly(t: Tools, d: Dir, r: Request, ops: seq<Op>, result: PromotionResult)
    requires Sound(t, d) && Performs(t, d, r, ops, result)
    requires r.validationPassed && r.candidate.Some? && t.inspect(r.candidate.value).Some?
    ensures result.NoOp? <==>
              ResolveActive(d).Some? && t.inspect(ResolveActive(d).value.blob).Some?
              && t.contentHash(t.inspect(ResolveActive(d).value.blob).value)
                 == t.contentHash(t.inspect(r.candidate.value).value)
    ensures result.NoOp? ==> ops == []
    ensures !result.NoOp? ==> result.Promoted?
  {
  }

  /** Promoting the same contents again, while no other promotion got through, is a no-op; and if the hash
      tells contents apart, nothing else is. */
  lemma RepeatIsNoOp(t: Tools, d: Dir, attempts: seq<Attempt>, i: nat, next: Attempt)
    requires IsRun(t, d, attempts) && i < |attempts| && Swaps(attempts[i])
    requires forall j :: i < j < |attempts| ==> !Swaps(attempts[j])
    requires Happens(t, Final(d, attempts), next) && next.request.validationPassed
    requires next.request.candidate.Some? && t.inspect(next.request.candidate.value).Some?
    ensures attempts[i].request.candidate.Some? && t.inspect(attempts[i].request.candidate.value).Some?
    ensures var first, again := t.inspect(attempts[i].request.candidate.value), t.inspect(next.request.candidate.value);
            (again == first ==> next.result.NoOp? && next.ops == [])
            && ((forall c, e :: t.contentHash(c) == t.contentHash(e) ==> c == e) ==>
                  next.result.NoOp? ==> again == first)
  {
    ServesWhatWasPromoted(t, d, attempts, i);
    NoOpExactly(t, Final(d, attempts), next.request, next.ops, next.result);
  }

  /** A build survives a completed promotion exactly when fewer than retain-1 of the builds there
      before are newer than it. */
  lemma SurvivesExactly(t: Tools, d: Dir, a: Attempt, x: Name)
    requires Happens(t, d, a) && a.result.Promoted? && a.steps == |a.ops| && x in d.builds
    ensures x in After(d, a).builds
            <==> |NewerBuilds(d.builds, x)| < (if a.request.retainVersions > 1 then a.request.retainVersions - 1 else 0)
  {
    AfterSteps(t, d, a);
    var wrote := Wrote(d, a);
    assert a.result.pruned[..a.steps - 2] == a.result.pruned;
    assert Rivals(NewerIn(wrote), wrote.Keys, a.result.name, x) == NewerBuilds(d.builds, x);
    assert x in a.result.pruned <==> x in Elements(a.result.pruned);
  }

  /** The active build is the newest there is. */
  ghost predicate ActiveIsNewest(d: Dir) {
    d.manifest.Some? ==>
      d.manifest.value.databaseFilename in d.builds
      && forall n :: n in d.builds && n != d.manifest.value.databaseFilename ==>
           d.builds[n].mtime < d.builds[d.manifest.value.databaseFilename].mtime
  }

  /** Modification times grow in write order, and the call does not stop between the build and the
      manifest (which would leave an orphan build). */
  ghost predicate Orderly(d: Dir, a: Attempt) {
    (forall n :: n in d.builds ==> d.builds[n].mtime < a.request.mtime) && a.steps != 1
  }

  lemma PreviousActiveSurvives(t: Tools, d: Dir, a: Attempt)
    requires Happens(t, d, a) && ActiveIsNewest(d) && Orderly(d, a)
    ensures ActiveIsNewest(After(d, a))
    ensures d.manifest.Some? && a.request.retainVersions >= 2 ==>
              d.manifest.value.databaseFilename in After(d, a).builds
  {
    AfterSteps(t, d, a);
    if a.result.Promoted? && a.steps >= 2 {
      PrunedSoFar(a);
      if d.manifest.Some? {
        assert Rivals(NewerIn(Wrote(d, a)), Wrote(d, a).Keys, a.result.name, d.manifest.value.databaseFilename) == {};
      }
    }
  }

  ghost predicate OrderlyRun(d: Dir, attempts: seq<Attempt>)
    decreases |attempts|
  {
    attempts == [] || (Orderly(d, attempts[0]) && OrderlyRun(After(d, attempts[0]), attempts[1..]))
  }

  /** Over every orderly run (from an empty directory, say), each promotion that retains at least two
      versions leaves the build that was active before it in place. */
  lemma {:induction false} OrderlyRunKeepsPrevious(t: Tools, d: Dir, attempts: seq<Attempt>, next: Attempt)
    requires IsRun(t, d, attempts)
    requires ActiveIsNewest(d) && OrderlyRun(d, attempts)
    requires Happens(t, Final(d, attempts), next) && Orderly(Final(d, attempts), next)
    requires next.request.retainVersions >= 2
    ensures var before := Final(d, attempts);
            before.manifest.Some? ==> before.manifest.value.databaseFilename in After(before, next).builds
    decreases |attempts|
  {
    if attempts == [] {
      PreviousActiveSurvives(t, d, next);
    } else {
      PreviousActiveSurvives(t, d, attempts[0]);
      OrderlyRunKeepsPrevious(t, After(d, attempts[0]), attempts[1..], next);
    }
  }
}
