/** replaceDependencies of the migration tool: moves dependencies to new package names and versions. */
module ReplaceDependencies {
  import opened Base

  /** Field names and version ranges of one of the dependency objects of a package.json. */
  type Dependencies = map<string, string>

  datatype Replacement = Replacement(fromName: string, fromRange: string, toName: Option<string>, toVersion: string)

  datatype PeerMeta = PeerMeta(optional: Option<bool>)

  /** The entries of "peerDependenciesMeta", in the order in which Object.entries lists them. */
  type MetaEntries = seq<(string, PeerMeta)>

  /** The dependency objects ("dependencies", "devDependencies" and "peerDependencies", a missing one being
      empty), the lists of bundled dependencies, and what is said of peer dependencies. */
  datatype Package = Package(deps: seq<Dependencies>, bundled: seq<seq<string>>, meta: MetaEntries)

  /** The package semver: intersects raises an error (None) for a range it cannot parse; satisfies does not. */
  datatype Semver = Semver(intersects: (string, string) -> Option<bool>, satisfies: (string, string) -> bool)

  /** The copy that is modified, the names that were found, and the names that were replaced. */
  datatype Progress = Progress(deps: seq<Dependencies>, modified: set<string>, replaced: map<string, string>)

  // ---- specification -----------------------------------------------------

  function NewName(r: Replacement): string {
    if r.toName.Some? then r.toName.value else r.fromName
  }

  function NewRange(r: Replacement, range: string, semver: Semver): string {
    if semver.satisfies(r.toVersion, range) then range else "^" + r.toVersion
  }

  predicate Matches(r: Replacement, deps: Dependencies, semver: Semver) {
    r.fromName in deps && semver.intersects(r.fromRange, deps[r.fromName]) == Some(true)
  }

  predicate Unparsable(r: Replacement, deps: Dependencies, semver: Semver) {
    r.fromName in deps && semver.intersects(r.fromRange, deps[r.fromName]) == None
  }

  function Replaced(r: Replacement, deps: Dependencies, semver: Semver): Dependencies
    requires r.fromName in deps
  {
    var added := deps[NewName(r) := NewRange(r, deps[r.fromName], semver)];
    if NewName(r) != r.fromName then added - {r.fromName} else added
  }

  /** One replacement in one dependency object; None if semver raises an error. */
  function ReplaceIn(s: Progress, p: nat, r: Replacement, semver: Semver): (t: Option<Progress>)
    requires p < |s.deps|
    ensures t.Some? ==> |t.value.deps| == |s.deps|
  {
    var deps := s.deps[p];
    if Unparsable(r, deps, semver) then None
    else if !Matches(r, deps, semver) then Some(s)
    else Some(Progress(
      s.deps[p := Replaced(r, deps, semver)],
      s.modified + {r.fromName},
      if NewName(r) != r.fromName then s.replaced[r.fromName := NewName(r)] else s.replaced))
  }

  /** One replacement in the dependency objects from `p` on. */
  function ReplaceFrom(s: Progress, p: nat, r: Replacement, semver: Semver): (t: Option<Progress>)
    requires p <= |s.deps|
    ensures t.Some? ==> |t.value.deps| == |s.deps|
    decreases |s.deps| - p
  {
    if p == |s.deps| then Some(s)
    else match ReplaceIn(s, p, r, semver)
      case Some(s') => ReplaceFrom(s', p + 1, r, semver)
      case None => None
  }

  function ReplaceAll(s: Progress, table: seq<Replacement>, semver: Semver): (t: Option<Progress>)
    ensures t.Some? ==> |t.value.deps| == |s.deps|
    decreases |table|
  {
    if table == [] then Some(s)
    else match ReplaceFrom(s, 0, table[0], semver)
      case Some(s') => ReplaceAll(s', table[1..], semver)
      case None => None
  }

  function Rename(names: seq<string>, replaced: map<string, string>): (r: seq<string>)
    ensures |r| == |names| && forall i :: 0 <= i < |r| ==> r[i] == if names[i] in replaced then replaced[names[i]] else names[i]
  {
    seq(|names|, i requires 0 <= i < |names| => if names[i] in replaced then replaced[names[i]] else names[i])
  }

  function RenameLists(lists: seq<seq<string>>, replaced: map<string, string>): (r: seq<seq<string>>)
    ensures |r| == |lists| && forall i :: 0 <= i < |r| ==> r[i] == Rename(lists[i], replaced)
  {
    seq(|lists|, i requires 0 <= i < |lists| => Rename(lists[i], replaced))
  }

  function Lookup(entries: MetaEntries, name: string): Option<PeerMeta> {
    if entries == [] then None
    else if entries[0].0 == name then Some(entries[0].1)
    else Lookup(entries[1..], name)
  }

  /** `delete meta[name]` */
  function Without(entries: MetaEntries, name: string): MetaEntries {
    if entries == [] then []
    else (if entries[0].0 == name then [] else [entries[0]]) + Without(entries[1..], name)
  }

  /** `meta[name] = value` */
  function With(entries: MetaEntries, name: string, value: PeerMeta): MetaEntries {
    if entries == [] then [(name, value)]
    else if entries[0].0 == name then [(name, value)] + entries[1..]
    else [entries[0]] + With(entries[1..], name, value)
  }

  /** Moves the listed entries, one after the other, to the names that replaced theirs. */
  function MoveMeta(meta: MetaEntries, listed: MetaEntries, replaced: map<string, string>): MetaEntries
    decreases |listed|
  {
    if listed == [] then meta
    else
      var (name, value) := listed[0];
      var moved := if name in replaced then With(Without(meta, name), replaced[name], value) else meta;
      MoveMeta(moved, listed[1..], replaced)
  }

  /** The three outcomes: an error of semver, null, or the modified copy. */
  datatype Outcome = Throws | Null | Modified(pkg: Package)

  function Start(pkg: Package): Progress {
    Progress(pkg.deps, {}, map[])
  }

  function Replace(pkg: Package, table: seq<Replacement>, semver: Semver): Outcome {
    match ReplaceAll(Start(pkg), table, semver)
    case None => Throws
    case Some(t) => if t.modified == {} then Null
      else Modified(Package(t.deps, RenameLists(pkg.bundled, t.replaced), MoveMeta(pkg.meta, pkg.meta, t.replaced)))
  }

  // ---- the method --------------------------------------------------------

  /** The innermost loop, over the entries in whatever order; all but one are skipped. */
  method ReplaceEntries(s: Progress, p: nat, r: Replacement, semver: Semver) returns (t: Option<Progress>)
    requires p < |s.deps|
    ensures t == ReplaceIn(s, p, r, semver)
  {
    var names := s.deps[p].Keys;
    var now := s;
    while names != {}
      invariant names <= s.deps[p].Keys
      invariant if r.fromName in names || r.fromName !in s.deps[p] then now == s else Some(now) == ReplaceIn(s, p, r, semver)
      decreases names
    {
      var packageName :| packageName in names;
      names := names - {packageName};
      if packageName != r.fromName {
        continue;
      }
      var versionRange := s.deps[p][packageName];
      var intersects := semver.intersects(r.fromRange, versionRange);
      if intersects.None? {
        return None;
      }
      if !intersects.value {
        continue;
      }
      var deps := now.deps[p];
      var modified, replaced := now.modified + {packageName}, now.replaced;
      var newPackageName := if r.toName.Some? then r.toName.value else packageName;
      if semver.satisfies(r.toVersion, versionRange) {
        deps := deps[newPackageName := deps[packageName]];
      } else {
        deps := deps[newPackageName := "^" + r.toVersion];
      }
      if newPackageName != packageName {
        deps := deps - {packageName};
        replaced := replaced[packageName := newPackageName];
      }
      now := Progress(now.deps[p := deps], modified, replaced);
    }
    return Some(now);
  }

  method ReplaceDependencies(pkg: Package, table: seq<Replacement>, semver: Semver) returns (outcome: Outcome)
    ensures outcome == Replace(pkg, table, semver)
  {
    var s := Start(pkg);
    for i := 0 to |table|
      invariant |s.deps| == |pkg.deps|
      invariant ReplaceAll(Start(pkg), table, semver) == ReplaceAll(s, table[i..], semver)
    {
      assert table[i..][0] == table[i] && table[i..][1..] == table[i + 1..];
      ghost var start := s;
      for p := 0 to |pkg.deps|
        invariant |s.deps| == |pkg.deps|
        invariant ReplaceFrom(start, 0, table[i], semver) == ReplaceFrom(s, p, table[i], semver)
      {
        var t := ReplaceEntries(s, p, table[i], semver);
        if t.None? {
          return Throws;
        }
        s := t.value;
      }
    }
    assert table[|table|..] == [];
    if s.modified == {} {
      return Null;
    }
    var meta := MoveEntries(pkg.meta, s.replaced);
    return Modified(Package(s.deps, RenameLists(pkg.bundled, s.replaced), meta));
  }

  /** The last loop: over the entries as they were listed before it, while the object changes. */
  method MoveEntries(entries: MetaEntries, replaced: map<string, string>) returns (meta: MetaEntries)
    ensures meta == MoveMeta(entries, entries, replaced)
  {
    meta := entries;
    for i := 0 to |entries|
      invariant MoveMeta(entries, entries, replaced) == MoveMeta(meta, entries[i..], replaced)
    {
      var (name, value) := entries[i];
      assert entries[i..][0] == entries[i] && entries[i..][1..] == entries[i + 1..];
      if name !in replaced {
        continue;
      }
      meta := Without(meta, name);
      meta := With(meta, replaced[name], value);
    }
    assert entries[|entries|..] == [];
  }

  // ---- idempotence -------------------------------------------------------

  /** No replacement moves to a name that it, or one before it, moves away from. */
  predicate Ordered(table: seq<Replacement>) {
    forall i, j :: 0 <= i <= j < |table| ==> NewName(table[j]) != table[i].fromName
  }

  /** The object has no entry that the replacement matches, or cannot judge. */
  predicate Settled(r: Replacement, deps: Dependencies, semver: Semver) {
    !Matches(r, deps, semver) && !Unparsable(r, deps, semver)
  }

  predicate AllSettled(r: Replacement, deps: seq<Dependencies>, semver: Semver) {
    forall p :: 0 <= p < |deps| ==> Settled(r, deps[p], semver)
  }

  predicate IsTargetFrom(name: string, table: seq<Replacement>, k: nat) {
    exists j :: k <= j < |table| && NewName(table[j]) == name
  }

  /** Nothing has come, or changed, but under names that replacements from `k` on move to. */
  ghost predicate WritesTargets(d: seq<Dependencies>, e: seq<Dependencies>, table: seq<Replacement>, k: nat) {
    |e| == |d| && forall p, n :: 0 <= p < |d| && n in e[p] && !IsTargetFrom(n, table, k) ==> n in d[p] && e[p][n] == d[p][n]
  }

  lemma {:induction false} ReplaceFromSettles(s: Progress, p: nat, k: nat, table: seq<Replacement>, semver: Semver)
    requires Ordered(table) && k < |table| && p <= |s.deps|
    ensures
      var t := ReplaceFrom(s, p, table[k], semver);
      t.Some? ==>
        && WritesTargets(s.deps, t.value.deps, table, k)
        && (forall q :: 0 <= q < p ==> t.value.deps[q] == s.deps[q])
        && (forall q :: p <= q < |s.deps| ==> Settled(table[k], t.value.deps[q], semver))
    decreases |s.deps| - p
  {
    if p < |s.deps| {
      var next := ReplaceIn(s, p, table[k], semver);
      if next.Some? {
        assert IsTargetFrom(NewName(table[k]), table, k);
        ReplaceFromSettles(next.value, p + 1, k, table, semver);
      }
    }
  }

  /** What is settled for a replacement stays so, because later replacements do not move to its source name. */
  lemma SettledStays(k: nat, d: seq<Dependencies>, e: seq<Dependencies>, table: seq<Replacement>, semver: Semver)
    requires Ordered(table) && k < |table| && WritesTargets(d, e, table, k + 1) && AllSettled(table[k], d, semver)
    ensures AllSettled(table[k], e, semver)
  {
    forall p | 0 <= p < |e| ensures Settled(table[k], e[p], semver) {
      assert Settled(table[k], d[p], semver) && !IsTargetFrom(table[k].fromName, table, k + 1);
    }
  }

  lemma WritesCompose(d: seq<Dependencies>, e: seq<Dependencies>, f: seq<Dependencies>, table: seq<Replacement>, k: nat)
    requires WritesTargets(d, e, table, k) && WritesTargets(e, f, table, k + 1)
    ensures WritesTargets(d, f, table, k)
  {
    forall p, n | 0 <= p < |d| && n in f[p] && !IsTargetFrom(n, table, k) ensures n in d[p] && f[p][n] == d[p][n] {
      assert !IsTargetFrom(n, table, k + 1);
      assert n in e[p];
    }
  }

  lemma {:induction false} ReplaceAllSettles(s: Progress, k: nat, table: seq<Replacement>, semver: Semver)
    requires Ordered(table) && k <= |table|
    ensures
      var t := ReplaceAll(s, table[k..], semver);
      t.Some? ==>
        && WritesTargets(s.deps, t.value.deps, table, k)
        && forall i :: k <= i < |table| ==> AllSettled(table[i], t.value.deps, semver)
    decreases |table| - k
  {
    if k < |table| {
      var rest := table[k..];
      assert rest[0] == table[k] && rest[1..] == table[k + 1..];
      ReplaceFromSettles(s, 0, k, table, semver);
      var next := ReplaceFrom(s, 0, table[k], semver);
      if next.Some? {
        ReplaceAllSettles(next.value, k + 1, table, semver);
        var t := ReplaceAll(s, rest, semver);
        if t.Some? {
          SettledStays(k, next.value.deps, t.value.deps, table, semver);
          WritesCompose(s.deps, next.value.deps, t.value.deps, table, k);
        }
      }
    }
  }

  lemma {:induction false} NothingToReplaceFrom(s: Progress, p: nat, r: Replacement, semver: Semver)
    requires p <= |s.deps| && AllSettled(r, s.deps, semver)
    ensures ReplaceFrom(s, p, r, semver) == Some(s)
    decreases |s.deps| - p
  {
    if p < |s.deps| {
      assert Settled(r, s.deps[p], semver);
      NothingToReplaceFrom(s, p + 1, r, semver);
    }
  }

  lemma {:induction false} NothingToReplace(s: Progress, table: seq<Replacement>, semver: Semver)
    requires forall i :: 0 <= i < |table| ==> AllSettled(table[i], s.deps, semver)
    ensures ReplaceAll(s, table, semver) == Some(s)
    decreases |table|
  {
    if table != [] {
      NothingToReplaceFrom(s, 0, table[0], semver);
      NothingToReplace(s, table[1..], semver);
    }
  }

  /** The result of a migration has no entry that a replacement still matches, and a second run returns null. */
  lemma MigrationIsIdempotent(pkg: Package, table: seq<Replacement>, semver: Semver)
    requires Ordered(table)
    ensures
      var outcome := Replace(pkg, table, semver);
      outcome.Modified? ==>
        && (forall i :: 0 <= i < |table| ==> AllSettled(table[i], outcome.pkg.deps, semver))
        && Replace(outcome.pkg, table, semver) == Null
  {
    assert table[0..] == table;
    ReplaceAllSettles(Start(pkg), 0, table, semver);
    var outcome := Replace(pkg, table, semver);
    if outcome.Modified? {
      NothingToReplace(Start(outcome.pkg), table, semver);
    }
  }

  ghost predicate Idempotent(table: seq<Replacement>, semver: Semver) {
    forall pkg :: Replace(pkg, table, semver).Modified? ==> Replace(Replace(pkg, table, semver).pkg, table, semver) == Null
  }

  predicate DistinctSources(table: seq<Replacement>) {
    forall i, j :: 0 <= i < j < |table| ==> table[i].fromName != table[j].fromName
  }

  /** A range that every replacement matches and every new version satisfies, as "*" is for releases. */
  predicate SuitsAll(range: string, table: seq<Replacement>, semver: Semver) {
    forall i :: 0 <= i < |table| ==>
      semver.intersects(table[i].fromRange, range) == Some(true) && semver.satisfies(table[i].toVersion, range)
  }

  /** A package with a single dependency. */
  function Single(name: string, range: string): Dependencies {
    map[name := range]
  }

  lemma ReplaceSingle(s: Progress, r: Replacement, range: string, semver: Semver)
    requires s.deps == [Single(r.fromName, range)]
    requires semver.intersects(r.fromRange, range) == Some(true) && semver.satisfies(r.toVersion, range)
    ensures
      var t := ReplaceFrom(s, 0, r, semver);
      t.Some? && t.value.deps == [Single(NewName(r), range)] && r.fromName in t.value.modified
  {
    var d := Replaced(r, s.deps[0], semver);
    assert d == Single(NewName(r), range);
    var t := ReplaceIn(s, 0, r, semver).value;
    assert ReplaceFrom(t, 1, r, semver) == Some(t);
  }

  /** The replacements before the one that has the name of the dependency as its source do nothing. */
  lemma {:induction false} UpTo(s: Progress, k: nat, j: nat, range: string, table: seq<Replacement>, semver: Semver)
    requires k <= j < |table| && DistinctSources(table) && s.deps == [Single(table[j].fromName, range)]
    ensures ReplaceAll(s, table[k..], semver) == ReplaceAll(s, table[j..], semver)
    decreases j - k
  {
    if k < j {
      assert table[k..][0] == table[k] && table[k..][1..] == table[k + 1..];
      NothingToReplaceFrom(s, 0, table[k], semver);
      UpTo(s, k + 1, j, range, table, semver);
    }
  }

  /** Replacing a single dependency, up to and including the replacement that matches it. */
  lemma ThroughRow(s: Progress, j: nat, range: string, table: seq<Replacement>, semver: Semver) returns (t: Progress)
    requires j < |table| && DistinctSources(table) && s.deps == [Single(table[j].fromName, range)]
    requires SuitsAll(range, table, semver)
    ensures t.deps == [Single(NewName(table[j]), range)] && table[j].fromName in t.modified
    ensures ReplaceAll(s, table, semver) == ReplaceAll(t, table[j + 1..], semver)
  {
    assert table[0..] == table && table[j..][0] == table[j] && table[j..][1..] == table[j + 1..];
    UpTo(s, 0, j, range, table, semver);
    ReplaceSingle(s, table[j], range, semver);
    t := ReplaceFrom(s, 0, table[j], semver).value;
  }

  lemma {:induction false} ModifiedStays(s: Progress, table: seq<Replacement>, semver: Semver)
    ensures ReplaceAll(s, table, semver).Some? ==> s.modified <= ReplaceAll(s, table, semver).value.modified
    decreases |table|
  {
    if table != [] && ReplaceFrom(s, 0, table[0], semver).Some? {
      ModifiedStaysFrom(s, 0, table[0], semver);
      ModifiedStays(ReplaceFrom(s, 0, table[0], semver).value, table[1..], semver);
    }
  }

  lemma {:induction false} ModifiedStaysFrom(s: Progress, p: nat, r: Replacement, semver: Semver)
    requires p <= |s.deps|
    ensures ReplaceFrom(s, p, r, semver).Some? ==> s.modified <= ReplaceFrom(s, p, r, semver).value.modified
    decreases |s.deps| - p
  {
    if p < |s.deps| && ReplaceIn(s, p, r, semver).Some? {
      ModifiedStaysFrom(ReplaceIn(s, p, r, semver).value, p + 1, r, semver);
    }
  }

  lemma {:induction false} UnmodifiedFrom(s: Progress, p: nat, r: Replacement, semver: Semver)
    requires p <= |s.deps| && ReplaceFrom(s, p, r, semver).Some? && ReplaceFrom(s, p, r, semver).value.modified == {}
    ensures ReplaceFrom(s, p, r, semver) == Some(s) && forall q :: p <= q < |s.deps| ==> Settled(r, s.deps[q], semver)
    decreases |s.deps| - p
  {
    if p < |s.deps| {
      var t := ReplaceIn(s, p, r, semver).value;
      ModifiedStaysFrom(t, p + 1, r, semver);
      UnmodifiedFrom(s, p + 1, r, semver);
    }
  }

  lemma {:induction false} Unmodified(s: Progress, table: seq<Replacement>, semver: Semver)
    requires ReplaceAll(s, table, semver).Some? && ReplaceAll(s, table, semver).value.modified == {}
    ensures forall i :: 0 <= i < |table| ==> AllSettled(table[i], s.deps, semver)
    decreases |table|
  {
    if table != [] {
      ModifiedStays(ReplaceFrom(s, 0, table[0], semver).value, table[1..], semver);
      UnmodifiedFrom(s, 0, table[0], semver);
      Unmodified(s, table[1..], semver);
      assert forall i :: 0 < i < |table| ==> table[i] == table[1..][i - 1];
    }
  }

  /** Null is returned exactly if no replacement matches any dependency, and all their ranges can be parsed. */
  lemma NullIff(pkg: Package, table: seq<Replacement>, semver: Semver)
    ensures Replace(pkg, table, semver) == Null <==>
      forall i, p :: 0 <= i < |table| && 0 <= p < |pkg.deps| && table[i].fromName in pkg.deps[p] ==>
        semver.intersects(table[i].fromRange, pkg.deps[p][table[i].fromName]) == Some(false)
  {
    if Replace(pkg, table, semver) == Null {
      Unmodified(Start(pkg), table, semver);
      forall i, p | 0 <= i < |table| && 0 <= p < |pkg.deps| && table[i].fromName in pkg.deps[p]
        ensures semver.intersects(table[i].fromRange, pkg.deps[p][table[i].fromName]) == Some(false)
      {
        assert AllSettled(table[i], pkg.deps, semver) && Settled(table[i], pkg.deps[p], semver);
        var answer := semver.intersects(table[i].fromRange, pkg.deps[p][table[i].fromName]);
        assert answer.Some? && answer == Some(answer.value) && !answer.value;
      }
    } else if forall i, p :: 0 <= i < |table| && 0 <= p < |pkg.deps| && table[i].fromName in pkg.deps[p] ==>
        semver.intersects(table[i].fromRange, pkg.deps[p][table[i].fromName]) == Some(false) {
      forall i | 0 <= i < |table| ensures AllSettled(table[i], pkg.deps, semver) {
      }
      NothingToReplace(Start(pkg), table, semver);
    }
  }

  /** What a single replacement makes of one dependency object: the range is kept if it admits the new version, and the new
      version with a caret takes its place otherwise. */
  ghost predicate ReplacedOnce(r: Replacement, d: Dependencies, e: Dependencies, semver: Semver) {
    if r.fromName in d && semver.intersects(r.fromRange, d[r.fromName]) == Some(true) then
      var range, target := d[r.fromName], match r.toName case Some(name) => name case None => r.fromName;
      && target in e && e[target] == (if semver.satisfies(r.toVersion, range) then range else "^" + r.toVersion)
      && (r.fromName in e <==> r.fromName == target)
      && forall name :: name != r.fromName && name != target ==> (name in e <==> name in d) && (name in d ==> e[name] == d[name])
    else e == d
  }

  lemma {:induction false} ReplacedFrom(s: Progress, p: nat, r: Replacement, semver: Semver)
    requires p <= |s.deps|
    ensures
      var t := ReplaceFrom(s, p, r, semver);
      && (t == None <==> exists q :: p <= q < |s.deps| && Unparsable(r, s.deps[q], semver))
      && (t.Some? ==>
            && (forall q :: 0 <= q < p ==> t.value.deps[q] == s.deps[q])
            && forall q :: p <= q < |s.deps| ==> ReplacedOnce(r, s.deps[q], t.value.deps[q], semver))
    decreases |s.deps| - p
  {
    if p < |s.deps| && !Unparsable(r, s.deps[p], semver) {
      var s' := ReplaceIn(s, p, r, semver).value;
      ReplacedFrom(s', p + 1, r, semver);
      assert forall q :: p < q < |s.deps| ==> s'.deps[q] == s.deps[q];
      assert ReplacedOnce(r, s.deps[p], s'.deps[p], semver);
    }
  }

  /** A table with one replacement: all dependency objects are treated alike, and the call fails exactly if a range under the
      name to replace cannot be parsed. */
  lemma SingleReplacement(pkg: Package, r: Replacement, semver: Semver)
    ensures
      var outcome := Replace(pkg, [r], semver);
      && (outcome == Throws <==>
            exists q :: 0 <= q < |pkg.deps| && r.fromName in pkg.deps[q] && semver.intersects(r.fromRange, pkg.deps[q][r.fromName]) == None)
      && (outcome.Modified? ==>
            && |outcome.pkg.deps| == |pkg.deps|
            && forall q :: 0 <= q < |pkg.deps| ==> ReplacedOnce(r, pkg.deps[q], outcome.pkg.deps[q], semver))
  {
    ReplacedFrom(Start(pkg), 0, r, semver);
    var t := ReplaceFrom(Start(pkg), 0, r, semver);
    assert [r][1..] == [];
    assert ReplaceAll(Start(pkg), [r], semver) == t by {
      if t.Some? {
        assert ReplaceAll(t.value, [], semver) == t;
      }
    }
    if exists q :: 0 <= q < |pkg.deps| && r.fromName in pkg.deps[q] && semver.intersects(r.fromRange, pkg.deps[q][r.fromName]) == None {
      var q :| 0 <= q < |pkg.deps| && r.fromName in pkg.deps[q] && semver.intersects(r.fromRange, pkg.deps[q][r.fromName]) == None;
      assert Unparsable(r, pkg.deps[q], semver);
    }
  }

  /** A replacement that moves to the source of an earlier one, or to its own, leaves work for a second run. */
  lemma DisorderRepeats(i: nat, j: nat, range: string, table: seq<Replacement>, semver: Semver)
    requires i <= j < |table| && NewName(table[j]) == table[i].fromName
    requires DistinctSources(table) && SuitsAll(range, table, semver)
    ensures !Idempotent(table, semver)
  {
    var pkg := Package([Single(table[j].fromName, range)], [], []);
    var t := ThroughRow(Start(pkg), j, range, table, semver);
    var rest := table[j + 1..];
    assert forall l :: 0 <= l < |rest| ==> rest[l] == table[j + 1 + l] && AllSettled(rest[l], t.deps, semver);
    NothingToReplace(t, rest, semver);
    var again := Replace(pkg, table, semver).pkg;
    var u := ThroughRow(Start(again), i, range, table, semver);
    ModifiedStays(u, table[i + 1..], semver);
    assert Replace(again, table, semver) != Null;
  }

  /** Migration is idempotent, on every package, if and only if no replacement moves to a name that it, or one before
      it, moves away from; given a table with distinct sources, and any range that suits all of it. */
  lemma IdempotentIff(table: seq<Replacement>, range: string, semver: Semver)
    requires DistinctSources(table) && SuitsAll(range, table, semver)
    ensures Idempotent(table, semver) <==> Ordered(table)
  {
    if Ordered(table) {
      forall pkg | Replace(pkg, table, semver).Modified?
        ensures Replace(Replace(pkg, table, semver).pkg, table, semver) == Null
      {
        MigrationIsIdempotent(pkg, table, semver);
      }
    } else {
      var i, j :| 0 <= i <= j < |table| && NewName(table[j]) == table[i].fromName;
      DisorderRepeats(i, j, range, table, semver);
    }
  }

  /** A single replacement is idempotent if and only if it changes the name: in place, it matches its own result. */
  lemma InPlaceReplacementRepeats(r: Replacement, range: string, semver: Semver)
    requires semver.intersects(r.fromRange, range) == Some(true) && semver.satisfies(r.toVersion, range)
    ensures Idempotent([r], semver) <==> NewName(r) != r.fromName
  {
    IdempotentIff([r], range, semver);
    assert Ordered([r]) <==> NewName([r][0]) != [r][0].fromName;
  }

  // ---- what stays --------------------------------------------------------

  /** Every replacement sets a target name, and no target is the source of a replacement. */
  predicate Separated(table: seq<Replacement>) {
    forall i, j :: 0 <= i < |table| && 0 <= j < |table| ==>
      table[i].toName.Some? && table[i].toName.value != table[j].fromName
  }

  lemma SeparatedIsOrdered(table: seq<Replacement>)
    requires Separated(table)
    ensures Ordered(table)
  {
  }

  predicate IsSource(name: string, table: seq<Replacement>) {
    exists i :: 0 <= i < |table| && table[i].fromName == name
  }

  predicate IsTarget(name: string, table: seq<Replacement>) {
    exists i :: 0 <= i < |table| && table[i].toName == Some(name)
  }

  /** How dependency objects may change under a table of separated replacements: source entries stay or go, and
      when one goes a target has come; targets never go; and entries under other names stay as they are. */
  ghost predicate Evolves(before: seq<Dependencies>, after: seq<Dependencies>, table: seq<Replacement>) {
    |after| == |before| && forall p :: 0 <= p < |before| ==> EvolvesAt(before[p], after[p], table)
  }

  ghost predicate EvolvesAt(d: Dependencies, e: Dependencies, table: seq<Replacement>) {
    && (forall n :: n in e && !IsTarget(n, table) ==> n in d && e[n] == d[n])
    && (forall n :: n in d && !IsSource(n, table) ==> n in e)
    && (forall n :: n in d && n !in e ==> exists i :: 0 <= i < |table| && table[i].fromName == n && NewName(table[i]) in e)
  }

  lemma AllEvolveTransitively(d: seq<Dependencies>, e: seq<Dependencies>, f: seq<Dependencies>, table: seq<Replacement>)
    requires Separated(table) && Evolves(d, e, table) && Evolves(e, f, table)
    ensures Evolves(d, f, table)
  {
  }

  lemma ReplaceInEvolves(s: Progress, p: nat, k: nat, table: seq<Replacement>, semver: Semver)
    requires Separated(table) && k < |table| && p < |s.deps|
    ensures
      var t := ReplaceIn(s, p, table[k], semver);
      t.Some? ==> Evolves(s.deps, t.value.deps, table)
  {
  }

  lemma {:induction false} ReplaceFromEvolves(s: Progress, p: nat, k: nat, table: seq<Replacement>, semver: Semver)
    requires Separated(table) && k < |table| && p <= |s.deps|
    ensures
      var t := ReplaceFrom(s, p, table[k], semver);
      t.Some? ==> Evolves(s.deps, t.value.deps, table)
    decreases |s.deps| - p
  {
    if p < |s.deps| {
      ReplaceInEvolves(s, p, k, table, semver);
      var next := ReplaceIn(s, p, table[k], semver);
      if next.Some? {
        ReplaceFromEvolves(next.value, p + 1, k, table, semver);
        var t := ReplaceFrom(s, p, table[k], semver);
        if t.Some? {
          AllEvolveTransitively(s.deps, next.value.deps, t.value.deps, table);
        }
      }
    }
  }

  lemma {:induction false} ReplaceAllEvolves(s: Progress, k: nat, table: seq<Replacement>, semver: Semver)
    requires Separated(table) && k <= |table|
    ensures
      var t := ReplaceAll(s, table[k..], semver);
      t.Some? ==> Evolves(s.deps, t.value.deps, table)
    decreases |table| - k
  {
    if k < |table| {
      var rest := table[k..];
      assert rest[0] == table[k] && rest[1..] == table[k + 1..];
      ReplaceFromEvolves(s, 0, k, table, semver);
      var next := ReplaceFrom(s, 0, table[k], semver);
      if next.Some? {
        ReplaceAllEvolves(next.value, k + 1, table, semver);
        var t := ReplaceAll(s, rest, semver);
        if t.Some? {
          AllEvolveTransitively(s.deps, next.value.deps, t.value.deps, table);
        }
      }
    }
  }

  /** No dependency is lost, or touched beyond the source and target names of the table. */
  lemma NothingElseChanges(pkg: Package, table: seq<Replacement>, semver: Semver)
    requires Separated(table)
    ensures Replace(pkg, table, semver).Modified? ==> Evolves(pkg.deps, Replace(pkg, table, semver).pkg.deps, table)
  {
    assert table[0..] == table;
    ReplaceAllEvolves(Start(pkg), 0, table, semver);
  }

  /** What the names that were replaced record: each is a source, mapped to the target of its replacement, and
      every entry that is gone is among them. */
  ghost predicate Records(start: seq<Dependencies>, s: Progress, table: seq<Replacement>) {
    && |s.deps| == |start|
    && (forall n :: n in s.replaced ==> HasRow(n, s.replaced[n], table))
    && (forall p, n :: 0 <= p < |start| && n in start[p] && n !in s.deps[p] ==> n in s.replaced)
  }

  predicate HasRow(fromName: string, toName: string, table: seq<Replacement>) {
    exists i :: 0 <= i < |table| && table[i].fromName == fromName && NewName(table[i]) == toName
  }

  lemma ReplaceInRecords(start: seq<Dependencies>, s: Progress, p: nat, r: Replacement, k: nat, table: seq<Replacement>, semver: Semver)
    requires k < |table| && table[k] == r && p < |s.deps| && Records(start, s, table)
    ensures ReplaceIn(s, p, r, semver).Some? ==> Records(start, ReplaceIn(s, p, r, semver).value, table)
  {
  }

  lemma {:induction false} ReplaceFromRecords(start: seq<Dependencies>, s: Progress, p: nat, r: Replacement, k: nat, table: seq<Replacement>, semver: Semver)
    requires k < |table| && table[k] == r && p <= |s.deps| && Records(start, s, table)
    ensures ReplaceFrom(s, p, r, semver).Some? ==> Records(start, ReplaceFrom(s, p, r, semver).value, table)
    decreases |s.deps| - p
  {
    if p < |s.deps| {
      ReplaceInRecords(start, s, p, r, k, table, semver);
      var next := ReplaceIn(s, p, r, semver);
      if next.Some? {
        ReplaceFromRecords(start, next.value, p + 1, r, k, table, semver);
      }
    }
  }

  lemma {:induction false} ReplaceAllRecords(start: seq<Dependencies>, s: Progress, k: nat, table: seq<Replacement>, semver: Semver)
    requires k <= |table| && Records(start, s, table)
    ensures ReplaceAll(s, table[k..], semver).Some? ==> Records(start, ReplaceAll(s, table[k..], semver).value, table)
    decreases |table| - k
  {
    if k < |table| {
      var rest := table[k..];
      assert rest[0] == table[k] && rest[1..] == table[k + 1..];
      ReplaceFromRecords(start, s, 0, table[k], k, table, semver);
      var next := ReplaceFrom(s, 0, table[k], semver);
      if next.Some? {
        ReplaceAllRecords(start, next.value, k + 1, table, semver);
      }
    }
  }

  /** Bundled dependencies follow, whatever the table: each name either stays, or becomes the target of a
      replacement of it; and one whose entry was dropped does not stay behind unless that is a target as well. */
  lemma BundledFollow(pkg: Package, table: seq<Replacement>, semver: Semver, i: nat, j: nat)
    requires Replace(pkg, table, semver).Modified? && i < |pkg.bundled| && j < |pkg.bundled[i]|
    ensures
      var result := Replace(pkg, table, semver).pkg;
      var name := pkg.bundled[i][j];
      && |result.bundled| == |pkg.bundled| && |result.bundled[i]| == |pkg.bundled[i]| && |result.deps| == |pkg.deps|
      && (result.bundled[i][j] == name || HasRow(name, result.bundled[i][j], table))
      && (forall p :: 0 <= p < |pkg.deps| && name in pkg.deps[p] && name !in result.deps[p] ==> HasRow(name, result.bundled[i][j], table))
  {
    assert table[0..] == table;
    ReplaceAllRecords(pkg.deps, Start(pkg), 0, table, semver);
  }

  // ---- what is said of peer dependencies ---------------------------------

  lemma {:induction false} LookupWithout(entries: MetaEntries, name: string, other: string)
    ensures Lookup(Without(entries, name), other) == if other == name then None else Lookup(entries, other)
  {
    if entries != [] {
      LookupWithout(entries[1..], name, other);
      var rest := Without(entries[1..], name);
      assert ([entries[0]] + rest)[1..] == rest && [] + rest == rest;
    }
  }

  lemma {:induction false} LookupWith(entries: MetaEntries, name: string, value: PeerMeta, other: string)
    ensures Lookup(With(entries, name, value), other) == if other == name then Some(value) else Lookup(entries, other)
  {
    if entries != [] {
      LookupWith(entries[1..], name, value, other);
    }
  }

  predicate IsListed(name: string, entries: MetaEntries) {
    exists i :: 0 <= i < |entries| && entries[i].0 == name
  }

  /** The value of the last entry that moves to a name. */
  function LastMoved(listed: MetaEntries, name: string, replaced: map<string, string>): Option<PeerMeta> {
    if listed == [] then None
    else
      var (from, value) := listed[0];
      var later := LastMoved(listed[1..], name, replaced);
      if later.Some? then later else if from in replaced && replaced[from] == name then Some(value) else None
  }

  /** What is said under a name in the end: nothing under one that was replaced, the last value that was moved to it,
      or what was said before. */
  lemma {:induction false} MoveMetaIs(meta: MetaEntries, listed: MetaEntries, replaced: map<string, string>, name: string)
    requires forall n :: n in replaced ==> replaced[n] !in replaced
    ensures Lookup(MoveMeta(meta, listed, replaced), name)
         == if name in replaced then (if IsListed(name, listed) then None else Lookup(meta, name))
            else match LastMoved(listed, name, replaced)
              case Some(value) => Some(value)
              case None => Lookup(meta, name)
    decreases |listed|
  {
    if listed != [] {
      var (from, value) := listed[0];
      var rest := listed[1..];
      assert IsListed(name, listed) <==> from == name || IsListed(name, rest) by {
        assert listed == [listed[0]] + rest;
        if IsListed(name, rest) {
          var i :| 0 <= i < |rest| && rest[i].0 == name;
          assert listed[i + 1].0 == name;
        }
      }
      if from in replaced {
        LookupWithout(meta, from, name);
        LookupWith(Without(meta, from), replaced[from], value, name);
        MoveMetaIs(With(Without(meta, from), replaced[from], value), rest, replaced, name);
        if name in replaced {
          NeverMovedTo(rest, replaced, name);
        }
      } else {
        MoveMetaIs(meta, rest, replaced, name);
      }
    }
  }

  lemma {:induction false} NeverMovedTo(listed: MetaEntries, replaced: map<string, string>, name: string)
    requires name in replaced && forall n :: n in replaced ==> replaced[n] !in replaced
    ensures LastMoved(listed, name, replaced) == None
  {
    if listed != [] {
      NeverMovedTo(listed[1..], replaced, name);
    }
  }

  lemma {:induction false} MovedIsFound(listed: MetaEntries, replaced: map<string, string>, name: string)
    requires IsListed(name, listed) && name in replaced
    ensures LastMoved(listed, replaced[name], replaced).Some?
  {
    if listed[0].0 != name {
      var i :| 0 <= i < |listed| && listed[i].0 == name;
      assert listed[1..][i - 1].0 == name;
      MovedIsFound(listed[1..], replaced, name);
    }
  }

  lemma {:induction false} OnlyTargetsMovedTo(listed: MetaEntries, replaced: map<string, string>, name: string)
    requires forall n :: n in replaced ==> replaced[n] != name
    ensures LastMoved(listed, name, replaced) == None
  {
    if listed != [] {
      OnlyTargetsMovedTo(listed[1..], replaced, name);
    }
  }

  /** What is said of a peer dependency follows it: nothing is said any more of one whose entry was dropped, but
      something of its target; and what is said under other names than sources and targets stays. */
  lemma MetaFollows(pkg: Package, table: seq<Replacement>, semver: Semver, name: string)
    requires Separated(table) && Replace(pkg, table, semver).Modified?
    ensures
      var result := Replace(pkg, table, semver).pkg;
      && |result.deps| == |pkg.deps|
      && (forall p :: 0 <= p < |pkg.deps| && name in pkg.deps[p] && name !in result.deps[p] && IsListed(name, pkg.meta) ==>
            Lookup(result.meta, name) == None
            && exists i :: 0 <= i < |table| && table[i].fromName == name && Lookup(result.meta, NewName(table[i])).Some?)
      && (!IsSource(name, table) && !IsTarget(name, table) ==> Lookup(result.meta, name) == Lookup(pkg.meta, name))
  {
    assert table[0..] == table;
    ReplaceAllRecords(pkg.deps, Start(pkg), 0, table, semver);
    var t := ReplaceAll(Start(pkg), table, semver).value;
    forall n | n in t.replaced ensures t.replaced[n] !in t.replaced && IsSource(n, table) && IsTarget(t.replaced[n], table) {
      assert HasRow(n, t.replaced[n], table);
    }
    MoveMetaIs(pkg.meta, pkg.meta, t.replaced, name);
    if name in t.replaced {
      var i :| 0 <= i < |table| && table[i].fromName == name && NewName(table[i]) == t.replaced[name];
      MoveMetaIs(pkg.meta, pkg.meta, t.replaced, NewName(table[i]));
      if IsListed(name, pkg.meta) {
        MovedIsFound(pkg.meta, t.replaced, name);
      }
    } else if !IsTarget(name, table) {
      OnlyTargetsMovedTo(pkg.meta, t.replaced, name);
    }
  }

  // ---- the new ranges ----------------------------------------------------

  /** Replacements with the same target agree on its version. */
  predicate VersionsAgree(table: seq<Replacement>) {
    forall i, j :: 0 <= i < |table| && 0 <= j < |table| && NewName(table[i]) == NewName(table[j]) ==>
      table[i].toVersion == table[j].toVersion
  }

  /** The caret range of a version in the table admits that version. */
  predicate CaretAdmits(table: seq<Replacement>, semver: Semver) {
    forall i :: 0 <= i < |table| ==> semver.satisfies(table[i].toVersion, "^" + table[i].toVersion)
  }

  /** An object has a target of a replacement of `name`, under a range that admits the version moved to. */
  predicate Admitted(name: string, e: Dependencies, table: seq<Replacement>, semver: Semver) {
    exists i :: 0 <= i < |table| && table[i].fromName == name && NewName(table[i]) in e
      && semver.satisfies(table[i].toVersion, e[NewName(table[i])])
  }

  ghost predicate AllAdmitted(start: seq<Dependencies>, deps: seq<Dependencies>, table: seq<Replacement>, semver: Semver) {
    |deps| == |start| &&
    forall p, n :: 0 <= p < |start| && n in start[p] && n !in deps[p] ==> Admitted(n, deps[p], table, semver)
  }

  lemma ReplacedAdmits(r: Replacement, k: nat, d: Dependencies, table: seq<Replacement>, semver: Semver, name: string)
    requires Separated(table) && VersionsAgree(table) && CaretAdmits(table, semver)
    requires k < |table| && table[k] == r && r.fromName in d
    requires name == r.fromName || Admitted(name, d, table, semver)
    ensures Admitted(name, Replaced(r, d, semver), table, semver)
  {
    var e := Replaced(r, d, semver);
    assert semver.satisfies(r.toVersion, "^" + r.toVersion);
    assert NewName(r) in e && semver.satisfies(r.toVersion, e[NewName(r)]);
    if name == r.fromName {
      assert table[k].fromName == name;
    } else {
      var i :| 0 <= i < |table| && table[i].fromName == name && NewName(table[i]) in d
        && semver.satisfies(table[i].toVersion, d[NewName(table[i])]);
      assert NewName(table[i]) in e;
    }
  }

  lemma ReplaceInAdmits(start: seq<Dependencies>, s: Progress, p: nat, r: Replacement, k: nat,
                        table: seq<Replacement>, semver: Semver)
    requires Separated(table) && VersionsAgree(table) && CaretAdmits(table, semver)
    requires k < |table| && table[k] == r && p < |s.deps| && AllAdmitted(start, s.deps, table, semver)
    ensures ReplaceIn(s, p, r, semver).Some? ==> AllAdmitted(start, ReplaceIn(s, p, r, semver).value.deps, table, semver)
  {
    if Matches(r, s.deps[p], semver) {
      var e := Replaced(r, s.deps[p], semver);
      forall n | n in start[p] && n !in e ensures Admitted(n, e, table, semver) {
        ReplacedAdmits(r, k, s.deps[p], table, semver, n);
      }
    }
  }

  lemma {:induction false} ReplaceFromAdmits(start: seq<Dependencies>, s: Progress, p: nat, r: Replacement, k: nat,
                                             table: seq<Replacement>, semver: Semver)
    requires Separated(table) && VersionsAgree(table) && CaretAdmits(table, semver)
    requires k < |table| && table[k] == r && p <= |s.deps| && AllAdmitted(start, s.deps, table, semver)
    ensures ReplaceFrom(s, p, r, semver).Some? ==> AllAdmitted(start, ReplaceFrom(s, p, r, semver).value.deps, table, semver)
    decreases |s.deps| - p
  {
    if p < |s.deps| {
      ReplaceInAdmits(start, s, p, r, k, table, semver);
      var next := ReplaceIn(s, p, r, semver);
      if next.Some? {
        ReplaceFromAdmits(start, next.value, p + 1, r, k, table, semver);
      }
    }
  }

  lemma {:induction false} ReplaceAllAdmits(start: seq<Dependencies>, s: Progress, k: nat,
                                            table: seq<Replacement>, semver: Semver)
    requires Separated(table) && VersionsAgree(table) && CaretAdmits(table, semver)
    requires k <= |table| && AllAdmitted(start, s.deps, table, semver)
    ensures
      var t := ReplaceAll(s, table[k..], semver);
      t.Some? ==> AllAdmitted(start, t.value.deps, table, semver)
    decreases |table| - k
  {
    if k < |table| {
      var rest := table[k..];
      assert rest[0] == table[k] && rest[1..] == table[k + 1..];
      ReplaceFromAdmits(start, s, 0, table[k], k, table, semver);
      var next := ReplaceFrom(s, 0, table[k], semver);
      if next.Some? {
        ReplaceAllAdmits(start, next.value, k + 1, table, semver);
      }
    }
  }

  /** Every dependency that was moved can be resolved to the version it was moved to: its target is there, under a
      range that admits that version, even if further replacements have the same target. */
  lemma MovedAdmitsVersion(pkg: Package, table: seq<Replacement>, semver: Semver)
    requires Separated(table) && VersionsAgree(table) && CaretAdmits(table, semver)
    ensures
      var outcome := Replace(pkg, table, semver);
      outcome.Modified? ==> AllAdmitted(pkg.deps, outcome.pkg.deps, table, semver)
  {
    assert table[0..] == table;
    ReplaceAllAdmits(pkg.deps, Start(pkg), 0, table, semver);
  }

  // ---- the shipped table -------------------------------------------------

  const TARGET_CONNECT_ES := "1.0.0-rc1"
  const TARGET_CONNECT_QUERY := "0.4.3"

  function Move(fromName: string, fromRange: string, toName: string, toVersion: string): Replacement {
    Replacement("@bufbuild/" + fromName, fromRange, Some("@connectrpc/" + toName), toVersion)
  }

  const SHIPPED: seq<Replacement> := [
    Move("protoc-gen-connect-web", "*", "protoc-gen-connect-es", TARGET_CONNECT_ES),
    Move("connect-web", "<0.9.0", "connect-web", TARGET_CONNECT_ES),
    Move("connect", "*", "connect", TARGET_CONNECT_ES),
    Move("connect-core", "*", "connect", TARGET_CONNECT_ES),
    Move("connect-web", "*", "connect-web", TARGET_CONNECT_ES),
    Move("connect-fastify", "*", "connect-fastify", TARGET_CONNECT_ES),
    Move("connect-node", "*", "connect-node", TARGET_CONNECT_ES),
    Move("connect-next", "*", "connect-next", TARGET_CONNECT_ES),
    Move("connect-express", "*", "connect-express", TARGET_CONNECT_ES),
    Move("protoc-gen-connect-es", "*", "protoc-gen-connect-es", TARGET_CONNECT_ES),
    Move("connect-query", "*", "connect-query", TARGET_CONNECT_QUERY),
    Move("protoc-gen-connect-query", "*", "protoc-gen-connect-query", TARGET_CONNECT_QUERY),
    Move("protoc-gen-connect-query-react", "*", "protoc-gen-connect-query-react", TARGET_CONNECT_QUERY)]

  /** The table of the migration to 0.13.1 meets the conditions. */
  lemma ShippedTableIsSeparated()
    ensures Separated(SHIPPED) && Ordered(SHIPPED)
  {
    forall i | 0 <= i < |SHIPPED|
      ensures SHIPPED[i].toName.Some? && |SHIPPED[i].toName.value| > 1 && SHIPPED[i].toName.value[1] == 'c'
      ensures |SHIPPED[i].fromName| > 1 && SHIPPED[i].fromName[1] == 'b'
    {
    }
    SeparatedIsOrdered(SHIPPED);
  }

  /** So do its versions: targets of the connect-query family differ in length from all others. */
  lemma ShippedVersionsAgree()
    ensures VersionsAgree(SHIPPED)
  {
    forall i | 0 <= i < |SHIPPED|
      ensures SHIPPED[i].toVersion == TARGET_CONNECT_QUERY <==> |NewName(SHIPPED[i])| in {25, 36, 42}
      ensures SHIPPED[i].toVersion == TARGET_CONNECT_QUERY || SHIPPED[i].toVersion == TARGET_CONNECT_ES
    {
    }
  }
}
