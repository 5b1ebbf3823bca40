/** discover in preload/discovery.php: which files of a project are preloaded. */
module Discovery {
  import opened Basics
  import opened Paths
  import opened Glob
  import opened Bags
  import opened FileTree
  import opened TreeFilter

  // ---- What the metadata declare

  datatype Autoload = Autoload(
    classmap: seq<string>, psr0: seq<seq<string>>, psr4: seq<seq<string>>, exclusions: seq<string>)
  datatype Package = Package(name: string, kind: string, installPath: Option<string>, autoload: Autoload)
  datatype Composer = Composer(vendor: Option<string>, autoload: Autoload)
  datatype Installed = Installed(packages: seq<Package>, development: seq<string>)

  /** The two kinds of file that are read, once their JSON is understood. */
  datatype Metadata = Metadata(composer: string -> Option<Composer>, installed: string -> Option<Installed>)

  /** A directory and what is loaded from it. */
  datatype Source = Source(base: string, autoload: Autoload)

  const NOTHING := Autoload([], [], [], [])

  function Absolute(path: string, base: string): string {
    if path != "" && path[0] == '/' then path else base + "/" + path
  }

  function InstallPath(p: Package): string {
    if p.installPath.Some? then p.installPath.value else "../" + p.name
  }

  /** Neither a development dependency nor a Drupal extension. */
  predicate IsProduction(p: Package, installed: Installed) {
    p.name !in installed.development && !("drupal-" <= p.kind)
  }

  function Targets(autoload: Autoload): seq<string> {
    autoload.classmap + Concat(autoload.psr0) + Concat(autoload.psr4)
  }

  /** Every directory or file an autoload section names. */
  ghost predicate Declares(autoload: Autoload, target: string) {
    target in autoload.classmap || exists ds :: (ds in autoload.psr0 || ds in autoload.psr4) && target in ds
  }

  lemma {:induction false} ConcatMember(parts: seq<seq<string>>, x: string)
    ensures x in Concat(parts) <==> exists part :: part in parts && x in part
  {
    if parts == [] {
    } else {
      ConcatMember(parts[1..], x);
      assert forall part :: part in parts <==> part == parts[0] || part in parts[1..];
    }
  }

  lemma TargetsAreDeclared(autoload: Autoload, target: string)
    ensures target in Targets(autoload) <==> Declares(autoload, target)
  {
    ConcatMember(autoload.psr0, target);
    ConcatMember(autoload.psr4, target);
  }

  /** How often x is named by the parts together. */
  function Count(parts: seq<seq<string>>, x: string): nat {
    if parts == [] then 0 else multiset(parts[0])[x] + Count(parts[1..], x)
  }

  lemma {:induction false} ConcatCounts(parts: seq<seq<string>>, x: string)
    ensures multiset(Concat(parts))[x] == Count(parts, x)
  {
    if parts == [] {
    } else {
      ConcatCounts(parts[1..], x);
    }
  }

  /** Each is visited as often as the classmap and the two standards name it. */
  lemma {:induction false} TargetsCount(autoload: Autoload, target: string)
    ensures multiset(Targets(autoload))[target] ==
      multiset(autoload.classmap)[target] + Count(autoload.psr0, target) + Count(autoload.psr4, target)
  {
    ConcatCounts(autoload.psr0, target);
    ConcatCounts(autoload.psr4, target);
  }

  predicate IsDir(fs: Disk, path: string) {
    var actual := fs.realpath(path);
    actual.Some? && fs.node(actual.value).Some? && fs.node(actual.value).value.Directory?
  }

  function CoresOf(root: string): seq<string> {
    [root + "/web/core/lib", root + "/docroot/core/lib", root + "/core/lib"]
  }

  function ComposerOf(meta: Metadata, root: string): Composer {
    var composer := meta.composer(root + "/composer.json");
    if composer.Some? then composer.value else Composer(None, NOTHING)
  }

  function VendorOf(fs: Disk, meta: Metadata, root: string): Option<string> {
    var setting := ComposerOf(meta, root).vendor;
    fs.realpath(Absolute(if setting.Some? then setting.value else "vendor", root))
  }

  function InstalledOf(fs: Disk, meta: Metadata, root: string): Installed {
    var vendor := VendorOf(fs, meta, root);
    var installed := if vendor.Some? then meta.installed(vendor.value + "/composer/installed.json") else None;
    if installed.Some? then installed.value else Installed([], [])
  }

  /** A package installed in a directory that exists. */
  ghost predicate InstalledAt(fs: Disk, vendor: string, p: Package, source: Source) {
    && fs.realpath(Absolute(InstallPath(p), vendor + "/composer")) == Some(source.base)
    && source.autoload == p.autoload
  }

  function Packages(fs: Disk, vendor: string, ps: seq<Package>, installed: Installed): seq<Source> {
    if ps == [] then []
    else
      var base := fs.realpath(Absolute(InstallPath(ps[0]), vendor + "/composer"));
      (if IsProduction(ps[0], installed) && base.Some? then [Source(base.value, ps[0].autoload)] else [])
      + Packages(fs, vendor, ps[1..], installed)
  }

  function Cores(fs: Disk, paths: seq<string>): seq<Source> {
    if paths == [] then []
    else
      (if IsDir(fs, paths[0]) then [Source(paths[0], NOTHING.(classmap := ["."]))] else [])
      + Cores(fs, paths[1..])
  }

  function Sources(fs: Disk, meta: Metadata, root: string): seq<Source> {
    var vendor, installed := VendorOf(fs, meta, root), InstalledOf(fs, meta, root);
    (if vendor.Some? then Packages(fs, vendor.value, installed.packages, installed) else [])
    + [Source(root, ComposerOf(meta, root).autoload)]
    + Cores(fs, CoresOf(root))
  }

  lemma {:induction false} PackageMember(fs: Disk, vendor: string, ps: seq<Package>, installed: Installed, source: Source)
    ensures source in Packages(fs, vendor, ps, installed) <==>
      exists p :: p in ps && IsProduction(p, installed) && InstalledAt(fs, vendor, p, source)
  {
    if ps == [] {
    } else {
      PackageMember(fs, vendor, ps[1..], installed, source);
      assert forall p :: p in ps <==> p == ps[0] || p in ps[1..];
    }
  }

  lemma {:induction false} CoreMember(fs: Disk, paths: seq<string>, source: Source)
    ensures source in Cores(fs, paths) <==>
      source.base in paths && IsDir(fs, source.base) && source.autoload == NOTHING.(classmap := ["."])
  {
    if paths == [] {
    } else {
      CoreMember(fs, paths[1..], source);
    }
  }

  // ---- What the sources are

  /** A path as it is written leads, from a base directory, to an existing file or directory. */
  ghost predicate Resolves(fs: Disk, base: string, path: string, actual: string) {
    fs.realpath(if "/" <= path then path else base + "/" + path) == Some(actual)
  }

  ghost predicate IsVendor(fs: Disk, meta: Metadata, root: string, vendor: string) {
    var composer := meta.composer(root + "/composer.json");
    Resolves(fs, root,
      if composer.Some? && composer.value.vendor.Some? then composer.value.vendor.value else "vendor", vendor)
  }

  /** A package that is neither a development dependency nor a Drupal extension, in the directory it is
      installed in. */
  ghost predicate IsPackage(fs: Disk, vendor: string, installed: Installed, p: Package, source: Source) {
    && p in installed.packages && p.name !in installed.development && !("drupal-" <= p.kind)
    && Resolves(fs, vendor + "/composer",
         if p.installPath.Some? then p.installPath.value else "../" + p.name, source.base)
    && source.autoload == p.autoload
  }

  /** The sources of a project: its production packages, itself, and Drupal's core. */
  ghost predicate IsSource(fs: Disk, meta: Metadata, root: string, source: Source) {
    || (exists vendor, installed, p ::
          && IsVendor(fs, meta, root, vendor)
          && meta.installed(vendor + "/composer/installed.json") == Some(installed)
          && IsPackage(fs, vendor, installed, p, source))
    || (source.base == root
        && var composer := meta.composer(root + "/composer.json");
           source.autoload == if composer.Some? then composer.value.autoload else Autoload([], [], [], []))
    || (source.base in {root + "/web/core/lib", root + "/docroot/core/lib", root + "/core/lib"}
        && source.autoload == Autoload(["."], [], [], [])
        && exists actual, entries :: fs.realpath(source.base) == Some(actual) && fs.node(actual) == Some(Directory(entries)))
  }

  lemma AbsoluteIs(path: string, base: string)
    ensures Absolute(path, base) == if "/" <= path then path else base + "/" + path
  {
    assert "/" <= path <==> path != "" && path[0] == '/';
  }

  lemma AbsoluteResolves(fs: Disk, base: string, path: string, actual: string)
    ensures fs.realpath(Absolute(path, base)) == Some(actual) <==> Resolves(fs, base, path, actual)
  {
    AbsoluteIs(path, base);
  }

  lemma VendorIs(fs: Disk, meta: Metadata, root: string, vendor: string)
    ensures VendorOf(fs, meta, root) == Some(vendor) <==> IsVendor(fs, meta, root, vendor)
  {
    var setting := ComposerOf(meta, root).vendor;
    AbsoluteResolves(fs, root, if setting.Some? then setting.value else "vendor", vendor);
  }

  lemma PackageIs(fs: Disk, vendor: string, installed: Installed, p: Package, source: Source)
    ensures p in installed.packages && IsProduction(p, installed) && InstalledAt(fs, vendor, p, source) <==>
      IsPackage(fs, vendor, installed, p, source)
  {
    hide Absolute, Resolves;
    AbsoluteResolves(fs, vendor + "/composer", InstallPath(p), source.base);
  }

  lemma PackagesAre(fs: Disk, meta: Metadata, root: string, source: Source)
    ensures var vendor, installed := VendorOf(fs, meta, root), InstalledOf(fs, meta, root);
      (vendor.Some? && source in Packages(fs, vendor.value, installed.packages, installed)) <==>
        exists v, i, p :: IsVendor(fs, meta, root, v) && meta.installed(v + "/composer/installed.json") == Some(i)
          && IsPackage(fs, v, i, p, source)
  {
    hide VendorOf, IsVendor, IsProduction, InstalledAt, IsPackage;
    var vendor, installed := VendorOf(fs, meta, root), InstalledOf(fs, meta, root);
    forall v ensures vendor == Some(v) <==> IsVendor(fs, meta, root, v) { VendorIs(fs, meta, root, v); }
    if vendor.Some? {
      PackageMember(fs, vendor.value, installed.packages, installed, source);
      forall p
        ensures p in installed.packages && IsProduction(p, installed) && InstalledAt(fs, vendor.value, p, source) <==>
          IsPackage(fs, vendor.value, installed, p, source)
      {
        PackageIs(fs, vendor.value, installed, p, source);
      }
      NoPackages(fs, vendor.value, source);
    }
  }

  lemma NoPackages(fs: Disk, vendor: string, source: Source)
    ensures forall p :: !IsPackage(fs, vendor, Installed([], []), p, source)
  {}

  lemma CoresAre(fs: Disk, root: string, source: Source)
    ensures source in Cores(fs, CoresOf(root)) <==>
      && source.base in {root + "/web/core/lib", root + "/docroot/core/lib", root + "/core/lib"}
      && source.autoload == Autoload(["."], [], [], [])
      && exists actual, entries :: fs.realpath(source.base) == Some(actual) && fs.node(actual) == Some(Directory(entries))
  {
    CoreMember(fs, CoresOf(root), source);
  }

  lemma {:induction false} SourceMember(fs: Disk, meta: Metadata, root: string, source: Source)
    ensures source in Sources(fs, meta, root) <==> IsSource(fs, meta, root, source)
  {
    hide CoresOf, VendorOf, InstalledOf, IsVendor, IsPackage, Packages, Cores;
    PackagesAre(fs, meta, root, source);
    CoresAre(fs, root, source);
  }

  // ---- Filters

  /** A file a package reaches is left out silently, skipped and counted, or taken. */
  datatype Verdict = Ignored | Skipped | Taken(file: string)

  predicate Filtered(file: string, root: string) {
    InSkippedTree(Relative(file, root)) || IsIndex(file)
  }

  predicate Excluded(file: string, base: string, exclusions: seq<string>) {
    exists i :: 0 <= i < |exclusions| && Excludes(exclusions[i], base, file)
  }

  function Judge(root: string, base: string, exclusions: seq<string>, file: string, isFile: bool): Verdict {
    if !isFile || !IsPhp(file) || !Within(file, root) then Ignored
    else if Filtered(file, root) then Skipped
    else if Excluded(file, base, exclusions) then Skipped
    else Taken(file)
  }

  // ---- What the nested loops judge, counted without regard to order

  function JudgeLeaf(root: string, source: Source): Leaf -> multiset<Verdict> {
    (leaf: Leaf) => multiset{Judge(root, source.base, source.autoload.exclusions, leaf.0, leaf.1)}
  }

  /** A candidate that is a directory is walked; anything else stands for itself. */
  function Entries(fs: Disk, actual: string): seq<Leaf> {
    match fs.node(actual)
    case Some(Directory(entries)) => Walk(fs, Stem(actual), Directory(entries))
    case node => [(actual, node == Some(File))]
  }

  function JudgeCandidate(fs: Disk, root: string, source: Source): string -> multiset<Verdict> {
    candidate =>
      var actual := fs.realpath(candidate);
      if actual.None? || !Within(actual.value, root) then multiset{Skipped}
      else Sum(JudgeLeaf(root, source), Entries(fs, actual.value))
  }

  function JudgeTarget(fs: Disk, root: string, source: Source): string -> multiset<Verdict> {
    target => Sum(JudgeCandidate(fs, root, source), fs.glob(Absolute(target, source.base)))
  }

  function JudgeSource(fs: Disk, root: string): Source -> multiset<Verdict> {
    source => Sum(JudgeTarget(fs, root, source), Targets(source.autoload))
  }

  function Verdicts(fs: Disk, meta: Metadata, root: string): multiset<Verdict> {
    Sum(JudgeSource(fs, root), Sources(fs, meta, root))
  }

  // ---- Sorting

  /** strcmp */
  predicate Below(a: string, b: string) {
    b != "" && (a == "" || a[0] < b[0] || (a[0] == b[0] && Below(a[1..], b[1..])))
  }

  /** The order of strcmp: at the first difference one ends or has the smaller character. */
  ghost predicate Before(a: string, b: string) {
    exists n: nat :: Splits(a, b, n)
  }

  /** a and b agree up to n, and there a comes first. */
  ghost predicate Splits(a: string, b: string, n: nat) {
    n <= |a| && n < |b| && a[..n] == b[..n] && (n == |a| || a[n] < b[n])
  }

  lemma SplitsBehind(a: string, b: string, n: nat)
    requires a != "" && b != "" && Splits(a, b, n) && n > 0
    ensures a[0] == b[0] && Splits(a[1..], b[1..], n - 1)
  {
    assert a[..n][0] == a[0] && b[..n][0] == b[0];
    assert a[1..][..n - 1] == a[..n][1..] && b[1..][..n - 1] == b[..n][1..];
  }

  lemma SplitsInFront(a: string, b: string, n: nat)
    requires a != "" && b != "" && a[0] == b[0] && Splits(a[1..], b[1..], n)
    ensures Splits(a, b, n + 1)
  {
    assert a[..n + 1] == [a[0]] + a[1..][..n] && b[..n + 1] == [b[0]] + b[1..][..n];
  }

  lemma SplitsAtOnce(a: string, b: string)
    ensures Splits(a, b, 0) <==> b != "" && (a == "" || a[0] < b[0])
  {
    assert a[..0] == b[..0];
  }

  lemma {:induction false} BelowIs(a: string, b: string)
    ensures Below(a, b) <==> Before(a, b)
  {
    hide Splits;
    SplitsAtOnce(a, b);
    if a == "" || b == "" {
      NothingSplits(a, b);
    } else {
      BelowIs(a[1..], b[1..]);
      if n: nat :| Splits(a, b, n) {
        if n > 0 { SplitsBehind(a, b, n); }
      }
      if a[0] == b[0] && Before(a[1..], b[1..]) {
        var m: nat :| Splits(a[1..], b[1..], m);
        SplitsInFront(a, b, m);
      }
    }
  }

  lemma NothingSplits(a: string, b: string)
    requires a == "" || b == ""
    ensures forall n: nat :: Splits(a, b, n) ==> n == 0
  {}

  ghost predicate StrictlySorted(s: seq<string>) {
    forall i, j :: 0 <= i < j < |s| ==> Below(s[i], s[j])
  }

  lemma {:induction false} BelowIsTransitive(a: string, b: string, c: string)
    requires Below(a, b) && Below(b, c)
    ensures Below(a, c)
  {
    if a == "" || a[0] != b[0] || b[0] != c[0] {
    } else {
      BelowIsTransitive(a[1..], b[1..], c[1..]);
    }
  }

  lemma {:induction false} BelowIsTotal(a: string, b: string)
    ensures Below(a, b) || a == b || Below(b, a)
    ensures !(Below(a, b) && Below(b, a)) && !Below(a, a)
  {
    if a != "" && b != "" {
      BelowIsTotal(a[1..], b[1..]);
      if a[0] == b[0] && a[1..] == b[1..] { assert a == [a[0]] + a[1..] && b == [b[0]] + b[1..]; }
    }
    if a == "" {
    } else {
      BelowIsTotal(a[1..], a[1..]);
    }
  }

  /** A strictly sorted list is determined by what it holds. */
  lemma {:induction false} SortedIsUnique(a: seq<string>, b: seq<string>)
    requires StrictlySorted(a) && StrictlySorted(b)
    requires forall x :: x in a <==> x in b
    ensures a == b
  {
    hide Below;
    assert forall i :: 0 <= i < |a| ==> a[i] in b;
    assert forall i :: 0 <= i < |b| ==> b[i] in a;
    if a == [] || b == [] {
    } else {
      assert a[0] in b && b[0] in a;
      var i :| 0 <= i < |b| && b[i] == a[0];
      var j :| 0 <= j < |a| && a[j] == b[0];
      BelowIsTotal(a[0], b[0]);
      assert a[0] == b[0];
      forall x ensures x in a[1..] <==> x in b[1..] {
        BelowIsTotal(a[0], a[0]);
        assert x in a <==> x == a[0] || x in a[1..];
        assert x in b <==> x == b[0] || x in b[1..];
      }
      SortedIsUnique(a[1..], b[1..]);
      assert a == [a[0]] + a[1..] && b == [b[0]] + b[1..];
    }
  }

  /** Insertion into a sorted list. */
  function Insert(x: string, s: seq<string>): (r: seq<string>)
    requires StrictlySorted(s) && x !in s
    ensures StrictlySorted(r) && multiset(r) == multiset{x} + multiset(s)
  {
    if s == [] then [x]
    else if Below(x, s[0]) then
      assert StrictlySorted([x] + s) by { InFront(x, s); }
      [x] + s
    else
      assert s == [s[0]] + s[1..];
      var rest := Insert(x, s[1..]);
      assert StrictlySorted([s[0]] + rest) by { StaysInFront(x, s, rest); }
      [s[0]] + rest
  }

  lemma InFront(x: string, s: seq<string>)
    requires s != [] && StrictlySorted(s) && Below(x, s[0])
    ensures StrictlySorted([x] + s)
  {
    hide Below;
    forall j | 0 <= j < |s| ensures Below(x, s[j]) {
      if j > 0 { BelowIsTransitive(x, s[0], s[j]); }
    }
  }

  lemma StaysInFront(x: string, s: seq<string>, rest: seq<string>)
    requires s != [] && StrictlySorted(s) && x !in s && !Below(x, s[0])
    requires StrictlySorted(rest) && multiset(rest) == multiset{x} + multiset(s[1..])
    ensures StrictlySorted([s[0]] + rest)
  {
    hide Below;
    BelowIsTotal(x, s[0]);
    forall j | 0 <= j < |rest| ensures Below(s[0], rest[j]) {
      assert rest[j] in multiset(rest);
      if rest[j] != x {
        assert rest[j] in multiset(s[1..]);
        var k :| 0 <= k < |s[1..]| && s[1..][k] == rest[j];
        assert s[k + 1] == rest[j];
      }
    }
  }

  ghost predicate NoDuplicates(s: seq<string>) {
    forall i, j :: 0 <= i < j < |s| ==> s[i] != s[j]
  }

  /** sort(array_keys($files), SORT_STRING) */
  function Sort(s: seq<string>): (r: seq<string>)
    requires NoDuplicates(s)
    ensures StrictlySorted(r) && multiset(r) == multiset(s)
  {
    if s == [] then []
    else
      assert s == [s[0]] + s[1..];
      var rest := Sort(s[1..]);
      SameMembers(rest, s[1..]);
      Insert(s[0], rest)
  }

  // ---- The nested loops

  /** What has been collected after these verdicts. */
  ghost predicate Tally(files: seq<string>, skipped: nat, seen: multiset<Verdict>) {
    && NoDuplicates(files)
    && (forall f :: f in files <==> Taken(f) in seen)
    && skipped == seen[Skipped]
  }

  method VisitLeaf(root: string, source: Source, leaf: Leaf,
    files: seq<string>, skipped: nat, ghost seen: multiset<Verdict>)
    returns (f: seq<string>, n: nat)
    requires Tally(files, skipped, seen)
    ensures Tally(f, n, seen + JudgeLeaf(root, source)(leaf))
  {
    hide Excludes, Within, Filtered, IsPhp;
    f, n := files, skipped;
    var file := leaf.0;
    if !leaf.1 || !IsPhp(file) || !Within(file, root) { return; }
    if Filtered(file, root) { n := n + 1; return; }
    for i := 0 to |source.autoload.exclusions|
      invariant forall j :: 0 <= j < i ==> !Excludes(source.autoload.exclusions[j], source.base, file)
    {
      if Excludes(source.autoload.exclusions[i], source.base, file) { n := n + 1; return; }
    }
    if file !in f { f := f + [file]; }
  }

  method VisitCandidate(fs: Disk, root: string, source: Source, candidate: string,
    files: seq<string>, skipped: nat, ghost seen: multiset<Verdict>)
    returns (f: seq<string>, n: nat)
    requires Tally(files, skipped, seen)
    ensures Tally(f, n, seen + JudgeCandidate(fs, root, source)(candidate))
  {
    hide Tally, Within, Entries, JudgeLeaf;
    f, n := files, skipped;
    var actual := fs.realpath(candidate);
    if actual.None? || !Within(actual.value, root) {
      n := n + 1;
      TallySkip(files, skipped, seen);
      return;
    }
    var entries := Entries(fs, actual.value);
    ghost var judge := JudgeLeaf(root, source);
    assert seen + Sum(judge, entries[..0]) == seen;
    for i := 0 to |entries|
      invariant Tally(f, n, seen + Sum(judge, entries[..i]))
    {
      SumSnoc(judge, entries, i);
      ghost var so := seen + Sum(judge, entries[..i]);
      f, n := VisitLeaf(root, source, entries[i], f, n, so);
      assert seen + Sum(judge, entries[..i + 1]) == so + judge(entries[i]);
    }
    assert entries[..|entries|] == entries;
  }

  lemma TallySkip(files: seq<string>, skipped: nat, seen: multiset<Verdict>)
    requires Tally(files, skipped, seen)
    ensures Tally(files, skipped + 1, seen + multiset{Skipped})
  {}

  method VisitTarget(fs: Disk, root: string, source: Source, target: string,
    files: seq<string>, skipped: nat, ghost seen: multiset<Verdict>)
    returns (f: seq<string>, n: nat)
    requires Tally(files, skipped, seen)
    ensures Tally(f, n, seen + JudgeTarget(fs, root, source)(target))
  {
    hide Tally, JudgeCandidate, Absolute;
    f, n := files, skipped;
    var candidates := fs.glob(Absolute(target, source.base));
    ghost var judge := JudgeCandidate(fs, root, source);
    assert seen + Sum(judge, candidates[..0]) == seen;
    for i := 0 to |candidates|
      invariant Tally(f, n, seen + Sum(judge, candidates[..i]))
    {
      SumSnoc(judge, candidates, i);
      ghost var so := seen + Sum(judge, candidates[..i]);
      f, n := VisitCandidate(fs, root, source, candidates[i], f, n, so);
      assert seen + Sum(judge, candidates[..i + 1]) == so + judge(candidates[i]);
    }
    assert candidates[..|candidates|] == candidates;
  }

  /** The classmap, then the directories of psr-0 and of psr-4. */
  method CollectTargets(autoload: Autoload) returns (targets: seq<string>)
    ensures targets == Targets(autoload)
  {
    hide Concat;
    targets := autoload.classmap;
    for i := 0 to 2
      invariant targets == autoload.classmap
        + (if i > 0 then Concat(autoload.psr0) else []) + (if i > 1 then Concat(autoload.psr4) else [])
    {
      var standard := if i == 0 then autoload.psr0 else autoload.psr4;
      ghost var before := targets;
      assert before + Concat(standard[..0]) == before by { NoParts(standard); }
      for j := 0 to |standard|
        invariant targets == before + Concat(standard[..j])
      {
        ConcatSnoc(standard, j);
        targets := targets + standard[j];
      }
      assert standard[..|standard|] == standard;
    }
  }

  lemma NoParts(parts: seq<seq<string>>)
    ensures Concat(parts[..0]) == []
  {}

  lemma ConcatSnoc(parts: seq<seq<string>>, i: nat)
    requires i < |parts|
    ensures Concat(parts[..i + 1]) == Concat(parts[..i]) + parts[i]
  {
    assert parts[..i + 1] == parts[..i] + [parts[i]];
    ConcatJoin(parts[..i], [parts[i]]);
    assert [parts[i]][1..] == [];
    assert Concat([parts[i]]) == parts[i] + Concat([]);
  }

  method VisitSource(fs: Disk, root: string, source: Source,
    files: seq<string>, skipped: nat, ghost seen: multiset<Verdict>)
    returns (f: seq<string>, n: nat)
    requires Tally(files, skipped, seen)
    ensures Tally(f, n, seen + JudgeSource(fs, root)(source))
  {
    hide Tally, JudgeTarget, Targets;
    f, n := files, skipped;
    var targets := CollectTargets(source.autoload);
    ghost var judge := JudgeTarget(fs, root, source);
    assert seen + Sum(judge, targets[..0]) == seen;
    for i := 0 to |targets|
      invariant Tally(f, n, seen + Sum(judge, targets[..i]))
    {
      SumSnoc(judge, targets, i);
      ghost var so := seen + Sum(judge, targets[..i]);
      f, n := VisitTarget(fs, root, source, targets[i], f, n, so);
      assert seen + Sum(judge, targets[..i + 1]) == so + judge(targets[i]);
    }
    assert targets[..|targets|] == targets;
  }

  method CollectPackages(fs: Disk, vendor: string, installed: Installed) returns (sources: seq<Source>)
    ensures sources == Packages(fs, vendor, installed.packages, installed)
  {
    hide IsProduction, Absolute, InstallPath;
    var ps := installed.packages;
    sources := [];
    for i := 0 to |ps|
      invariant sources + Packages(fs, vendor, ps[i..], installed) == Packages(fs, vendor, ps, installed)
    {
      var base := fs.realpath(Absolute(InstallPath(ps[i]), vendor + "/composer"));
      assert ps[i..][1..] == ps[i + 1..];
      if IsProduction(ps[i], installed) && base.Some? {
        sources := sources + [Source(base.value, ps[i].autoload)];
      }
    }
  }

  method CollectCores(fs: Disk, paths: seq<string>) returns (sources: seq<Source>)
    ensures sources == Cores(fs, paths)
  {
    hide IsDir, Cores;
    sources := [];
    assert paths[0..] == paths;
    for i := 0 to |paths|
      invariant sources + Cores(fs, paths[i..]) == Cores(fs, paths)
    {
      CoresFrom(fs, paths, i);
      if IsDir(fs, paths[i]) {
        sources := sources + [Source(paths[i], NOTHING.(classmap := ["."]))];
      }
    }
    NoCores(fs);
    assert paths[|paths|..] == [];
    assert sources + [] == sources;
  }

  lemma CoresFrom(fs: Disk, paths: seq<string>, i: nat)
    requires i < |paths|
    ensures Cores(fs, paths[i..]) ==
      (if IsDir(fs, paths[i]) then [Source(paths[i], NOTHING.(classmap := ["."]))] else []) + Cores(fs, paths[i + 1..])
  {
    assert paths[i..][1..] == paths[i + 1..];
  }

  lemma NoCores(fs: Disk)
    ensures Cores(fs, []) == []
  {}

  /** The packages in the order they are listed, then the project, then Drupal's core. */
  method CollectSources(fs: Disk, meta: Metadata, root: string) returns (sources: seq<Source>)
    ensures sources == Sources(fs, meta, root)
  {
    hide Packages, Cores, CoresOf;
    sources := [];
    var vendor := VendorOf(fs, meta, root);
    if vendor.Some? {
      sources := CollectPackages(fs, vendor.value, InstalledOf(fs, meta, root));
    }
    var cores := CollectCores(fs, CoresOf(root));
    sources := sources + [Source(root, ComposerOf(meta, root).autoload)] + cores;
  }

  /** The list of files and the number skipped, or nothing if the root does not exist. */
  ghost predicate Discovered(fs: Disk, meta: Metadata, start: string, result: Option<(seq<string>, nat)>) {
    var root := fs.realpath(start);
    if root.None? then result == None
    else
      var verdicts := Verdicts(fs, meta, root.value);
      && result.Some?
      && StrictlySorted(result.value.0)
      && (forall f :: f in result.value.0 <==> Taken(f) in verdicts)
      && result.value.1 == verdicts[Skipped]
  }

  method Discover(fs: Disk, meta: Metadata, start: string) returns (result: Option<(seq<string>, nat)>)
    ensures Discovered(fs, meta, start, result)
  {
    hide JudgeSource, Sources;
    var found := fs.realpath(start);
    if found.None? { return None; }
    var root := found.value;
    var sources := CollectSources(fs, meta, root);
    var files, skipped := [], 0;
    ghost var judge := JudgeSource(fs, root);
    for i := 0 to |sources|
      invariant Tally(files, skipped, Sum(judge, sources[..i]))
    {
      SumSnoc(judge, sources, i);
      files, skipped := VisitSource(fs, root, sources[i], files, skipped, Sum(judge, sources[..i]));
    }
    assert sources[..|sources|] == sources;
    var sorted := Sort(files);
    SameMembers(sorted, files);
    result := Some((sorted, skipped));
  }

  // ---- What is discovered

  /** A source reaches a file: over a target and one of its candidates within the root, which is
      the file or a directory with the file below it. */
  ghost predicate Reaches(fs: Disk, root: string, source: Source, file: string) {
    exists target, candidate ::
      && Declares(source.autoload, target)
      && candidate in fs.glob(if "/" <= target then target else source.base + "/" + target)
      && LeadsTo(fs, root, candidate, file)
  }

  ghost predicate LeadsTo(fs: Disk, root: string, candidate: string, file: string) {
    var actual := fs.realpath(candidate);
    && actual.Some? && Within(actual.value, root)
    && match fs.node(actual.value)
       case Some(File) => file == actual.value
       case Some(node) => exists names :: Descends(node, names) && file == Stem(actual.value) + Join(names)
       case None => false
  }

  lemma EntriesReach(fs: Disk, root: string, candidate: string, file: string)
    ensures LeadsTo(fs, root, candidate, file) <==>
      var actual := fs.realpath(candidate);
      actual.Some? && Within(actual.value, root) && (file, true) in Entries(fs, actual.value)
  {
    hide Walk, Leaves, Descends, Join, Within, Stem;
    var actual := fs.realpath(candidate);
    if actual.Some? && fs.node(actual.value).Some? && fs.node(actual.value).value.Directory? {
      var node, stem := fs.node(actual.value).value, Stem(actual.value);
      WalkLeaves(fs, stem, node);
      assert (file, true) in Walk(fs, stem, node) <==> (file, true) in multiset(Walk(fs, stem, node));
      if (file, true) in Leaves(stem, node) {
        var names := LeafIsReached(stem, node, file);
      }
      if names :| Descends(node, names) && file == stem + Join(names) {
        ReachedIsLeaf(stem, node, names);
      }
    } else if actual.Some? && fs.node(actual.value).Some? {
      OnlyDirectoriesDescend(fs.node(actual.value).value);
    }
  }

  lemma OnlyDirectoriesDescend(node: Node)
    requires !node.Directory?
    ensures forall names :: !Descends(node, names)
  {}

  /** A file passes the filters and no exclusion of the source matches it. */
  ghost predicate Allowed(root: string, source: Source, file: string) {
    && IsPhp(file) && Within(file, root) && !Filtered(file, root)
    && !Excluded(file, source.base, source.autoload.exclusions)
  }

  lemma TakenFromLeaf(root: string, source: Source, leaf: Leaf, file: string)
    ensures Taken(file) in JudgeLeaf(root, source)(leaf) <==> leaf == (file, true) && Allowed(root, source, file)
  {
    hide IsPhp, Within, Filtered, Excluded;
  }

  lemma TakenFromCandidate(fs: Disk, root: string, source: Source, candidate: string, file: string)
    ensures Taken(file) in JudgeCandidate(fs, root, source)(candidate) <==>
      LeadsTo(fs, root, candidate, file) && Allowed(root, source, file)
  {
    hide JudgeLeaf, Entries, Within, LeadsTo, Allowed, Sum;
    EntriesReach(fs, root, candidate, file);
    var actual := fs.realpath(candidate);
    if actual.Some? && Within(actual.value, root) {
      SumMember(JudgeLeaf(root, source), Entries(fs, actual.value), Taken(file));
      forall leaf ensures Taken(file) in JudgeLeaf(root, source)(leaf) <==> leaf == (file, true) && Allowed(root, source, file) {
        TakenFromLeaf(root, source, leaf, file);
      }
    }
  }

  lemma TakenFromSource(fs: Disk, root: string, source: Source, file: string)
    ensures Taken(file) in JudgeSource(fs, root)(source) <==>
      Reaches(fs, root, source, file) && Allowed(root, source, file)
  {
    hide JudgeCandidate, LeadsTo, Allowed, Absolute, Targets, Declares, Sum;
    SumMember(JudgeTarget(fs, root, source), Targets(source.autoload), Taken(file));
    forall target
      ensures Taken(file) in JudgeTarget(fs, root, source)(target) <==>
        exists c :: c in fs.glob(Absolute(target, source.base)) && Taken(file) in JudgeCandidate(fs, root, source)(c)
      ensures target in Targets(source.autoload) <==> Declares(source.autoload, target)
      ensures Absolute(target, source.base) == if "/" <= target then target else source.base + "/" + target
    {
      TargetsAreDeclared(source.autoload, target);
      AbsoluteIs(target, source.base);
      SumMember(JudgeCandidate(fs, root, source), fs.glob(Absolute(target, source.base)), Taken(file));
    }
    forall c
      ensures Taken(file) in JudgeCandidate(fs, root, source)(c) <==> LeadsTo(fs, root, c, file) && Allowed(root, source, file)
    {
      TakenFromCandidate(fs, root, source, c, file);
    }
  }

  /** A file is discovered exactly if some source reaches it and it passes the filters and that
      source's own exclusions; the list is strictly sorted, hence free of duplicates. */
  lemma {:induction false} Characterisation(fs: Disk, meta: Metadata, start: string, root: string,
    files: seq<string>, skipped: nat)
    requires fs.realpath(start) == Some(root)
    requires Discovered(fs, meta, start, Some((files, skipped)))
    ensures forall i, j :: 0 <= i < j < |files| ==> Before(files[i], files[j])
    ensures forall file :: file in files <==>
      exists source :: IsSource(fs, meta, root, source) && Reaches(fs, root, source, file) && Allowed(root, source, file)
  {
    hide JudgeSource, Sources, IsSource, Reaches, Allowed, Sum, Below, Before;
    forall i, j | 0 <= i < j < |files| ensures Before(files[i], files[j]) { BelowIs(files[i], files[j]); }
    forall file
      ensures file in files <==>
        exists source :: IsSource(fs, meta, root, source) && Reaches(fs, root, source, file) && Allowed(root, source, file)
    {
      SumMember(JudgeSource(fs, root), Sources(fs, meta, root), Taken(file));
      forall source
        ensures source in Sources(fs, meta, root) <==> IsSource(fs, meta, root, source)
        ensures Taken(file) in JudgeSource(fs, root)(source) <==> Reaches(fs, root, source, file) && Allowed(root, source, file)
      {
        SourceMember(fs, meta, root, source);
        TakenFromSource(fs, root, source, file);
      }
    }
  }

  /** What passes, component by component, for a file below the root. */
  lemma {:induction false} AllowedMeans(root: seq<string>, names: seq<string>, source: Source)
    requires Components(root) && Components(names) && names != []
    ensures var file, last := Render(root + names), names[|names| - 1];
      Allowed(Render(root), source, file) <==>
        && EndsIn(last, ".php") && last != "index.php" && !Named(SeenBelow(root, names))
        && forall pattern :: pattern in source.autoload.exclusions ==> !Excludes(pattern, source.base, file)
  {
    hide InSkippedTree, IsPhp, IsIndex, Relative, Render, Named, Excludes, Within;
    FiltersMean(root, names);
    ExcludedIs(Render(root + names), source);
  }

  lemma ExcludedIs(file: string, source: Source)
    ensures Excluded(file, source.base, source.autoload.exclusions) <==>
      exists pattern :: pattern in source.autoload.exclusions && Excludes(pattern, source.base, file)
  {
    hide Excludes;
  }

  // ---- What is skipped

  /** A candidate that is counted as skipped, or leads to a PHP file that is. */
  ghost predicate SkipsSome(fs: Disk, root: string, source: Source, candidate: string) {
    var actual := fs.realpath(candidate);
    || actual.None? || !Within(actual.value, root)
    || exists file :: LeadsTo(fs, root, candidate, file) && IsPhp(file) && Within(file, root) && !Allowed(root, source, file)
  }

  /** A source with a target that has such a candidate. */
  ghost predicate SourceSkips(fs: Disk, root: string, source: Source) {
    exists target, candidate ::
      && Declares(source.autoload, target)
      && candidate in fs.glob(if "/" <= target then target else source.base + "/" + target)
      && SkipsSome(fs, root, source, candidate)
  }

  lemma SkippedLeaf(root: string, source: Source, leaf: Leaf)
    ensures Skipped in JudgeLeaf(root, source)(leaf) <==>
      leaf.1 && IsPhp(leaf.0) && Within(leaf.0, root) && !Allowed(root, source, leaf.0)
  {
    hide IsPhp, Within, Filtered, Excluded;
  }

  lemma SkippedCandidate(fs: Disk, root: string, source: Source, candidate: string)
    ensures Skipped in JudgeCandidate(fs, root, source)(candidate) <==> SkipsSome(fs, root, source, candidate)
  {
    hide JudgeLeaf, Entries, Within, LeadsTo, Allowed, Sum, IsPhp;
    var actual := fs.realpath(candidate);
    if actual.Some? && Within(actual.value, root) {
      var entries := Entries(fs, actual.value);
      SumMember(JudgeLeaf(root, source), entries, Skipped);
      forall leaf
        ensures Skipped in JudgeLeaf(root, source)(leaf) <==>
          leaf.1 && IsPhp(leaf.0) && Within(leaf.0, root) && !Allowed(root, source, leaf.0)
      {
        SkippedLeaf(root, source, leaf);
      }
      forall file ensures LeadsTo(fs, root, candidate, file) <==> (file, true) in entries {
        EntriesReach(fs, root, candidate, file);
      }
      if leaf :| leaf in entries && Skipped in JudgeLeaf(root, source)(leaf) {
        assert leaf == (leaf.0, true);
      }
    }
  }

  lemma SkippedSource(fs: Disk, root: string, source: Source)
    ensures Skipped in JudgeSource(fs, root)(source) <==> SourceSkips(fs, root, source)
  {
    hide JudgeCandidate, SkipsSome, Absolute, Targets, Declares, Sum;
    SumMember(JudgeTarget(fs, root, source), Targets(source.autoload), Skipped);
    forall target
      ensures Skipped in JudgeTarget(fs, root, source)(target) <==>
        exists c :: c in fs.glob(Absolute(target, source.base)) && Skipped in JudgeCandidate(fs, root, source)(c)
      ensures target in Targets(source.autoload) <==> Declares(source.autoload, target)
      ensures Absolute(target, source.base) == if "/" <= target then target else source.base + "/" + target
    {
      TargetsAreDeclared(source.autoload, target);
      AbsoluteIs(target, source.base);
      SumMember(JudgeCandidate(fs, root, source), fs.glob(Absolute(target, source.base)), Skipped);
    }
    forall c ensures Skipped in JudgeCandidate(fs, root, source)(c) <==> SkipsSome(fs, root, source, c) {
      SkippedCandidate(fs, root, source, c);
    }
  }

  /** Nothing is counted as skipped exactly if every candidate of every source lies within the root and
      every PHP file it leads to is allowed. */
  lemma {:induction false} SkipsAreCounted(fs: Disk, meta: Metadata, start: string, root: string,
    files: seq<string>, skipped: nat)
    requires fs.realpath(start) == Some(root)
    requires Discovered(fs, meta, start, Some((files, skipped)))
    ensures skipped > 0 <==> exists source :: IsSource(fs, meta, root, source) && SourceSkips(fs, root, source)
  {
    hide JudgeSource, Sources, IsSource, SourceSkips, Sum;
    SumMember(JudgeSource(fs, root), Sources(fs, meta, root), Skipped);
    forall source
      ensures source in Sources(fs, meta, root) <==> IsSource(fs, meta, root, source)
      ensures Skipped in JudgeSource(fs, root)(source) <==> SourceSkips(fs, root, source)
    {
      SourceMember(fs, meta, root, source);
      SkippedSource(fs, root, source);
    }
  }

  // ---- The order of enumeration

  lemma SameEntries(a: Disk, b: Disk, actual: string)
    requires SameFiles(a, b)
    ensures multiset(Entries(a, actual)) == multiset(Entries(b, actual))
  {
    hide Walk;
    match a.node(actual)
    case Some(Directory(entries)) =>
      WalkLeaves(a, Stem(actual), Directory(entries));
      WalkLeaves(b, Stem(actual), Directory(entries));
    case _ =>
  }

  lemma SameCandidate(a: Disk, b: Disk, root: string, source: Source, candidate: string)
    requires SameFiles(a, b)
    ensures JudgeCandidate(a, root, source)(candidate) == JudgeCandidate(b, root, source)(candidate)
  {
    hide JudgeLeaf, Entries, Within, Sum;
    var actual := a.realpath(candidate);
    if actual.Some? && Within(actual.value, root) {
      SameEntries(a, b, actual.value);
      SumPermuted(JudgeLeaf(root, source), JudgeLeaf(root, source), Entries(a, actual.value), Entries(b, actual.value));
    }
  }

  lemma SameTarget(a: Disk, b: Disk, root: string, source: Source, target: string)
    requires SameFiles(a, b)
    ensures JudgeTarget(a, root, source)(target) == JudgeTarget(b, root, source)(target)
  {
    hide JudgeCandidate, Absolute, Sum;
    forall c ensures JudgeCandidate(a, root, source)(c) == JudgeCandidate(b, root, source)(c) {
      SameCandidate(a, b, root, source, c);
    }
    var path := Absolute(target, source.base);
    SumPermuted(JudgeCandidate(a, root, source), JudgeCandidate(b, root, source), a.glob(path), b.glob(path));
  }

  lemma SameSource(a: Disk, b: Disk, root: string, source: Source)
    requires SameFiles(a, b)
    ensures JudgeSource(a, root)(source) == JudgeSource(b, root)(source)
  {
    hide JudgeTarget, Targets, Sum;
    forall t ensures JudgeTarget(a, root, source)(t) == JudgeTarget(b, root, source)(t) {
      SameTarget(a, b, root, source, t);
    }
    SumPermuted(JudgeTarget(a, root, source), JudgeTarget(b, root, source), Targets(source.autoload), Targets(source.autoload));
  }

  lemma {:induction false} SamePackages(a: Disk, b: Disk, vendor: string, ps: seq<Package>, installed: Installed)
    requires SameFiles(a, b)
    ensures Packages(a, vendor, ps, installed) == Packages(b, vendor, ps, installed)
  {
    if ps == [] {
    } else {
      SamePackages(a, b, vendor, ps[1..], installed);
    }
  }

  lemma {:induction false} SameCores(a: Disk, b: Disk, paths: seq<string>)
    requires SameFiles(a, b)
    ensures Cores(a, paths) == Cores(b, paths)
  {
    if paths == [] {
    } else {
      SameCores(a, b, paths[1..]);
    }
  }

  lemma SameSources(a: Disk, b: Disk, meta: Metadata, root: string)
    requires SameFiles(a, b)
    ensures Sources(a, meta, root) == Sources(b, meta, root)
  {
    hide Packages, Cores, CoresOf;
    var vendor, installed := VendorOf(a, meta, root), InstalledOf(a, meta, root);
    if vendor.Some? { SamePackages(a, b, vendor.value, installed.packages, installed); }
    SameCores(a, b, CoresOf(root));
  }

  /** Neither the files nor the number skipped depends on the order in which glob and the directory
      iterators enumerate. */
  lemma {:induction false} OrderIndependence(a: Disk, b: Disk, meta: Metadata, start: string,
    x: Option<(seq<string>, nat)>, y: Option<(seq<string>, nat)>)
    requires SameFiles(a, b)
    requires Discovered(a, meta, start, x) && Discovered(b, meta, start, y)
    ensures x == y
  {
    hide JudgeSource, Sources, StrictlySorted, Sum;
    var root := a.realpath(start);
    if root.Some? {
      SameSources(a, b, meta, root.value);
      forall source ensures JudgeSource(a, root.value)(source) == JudgeSource(b, root.value)(source) {
        SameSource(a, b, root.value, source);
      }
      SumPermuted(JudgeSource(a, root.value), JudgeSource(b, root.value),
        Sources(a, meta, root.value), Sources(b, meta, root.value));
      SortedIsUnique(x.value.0, y.value.0);
    }
  }

  // ---- The root "/"

  const MISSED := "/tests/a.php"
  const TAKEN_FOR := "/xtests/a.php"

  /** A root directory with two trees, of which the first is to be skipped and the second is not. */
  function Top(): Disk {
    var leaf := [Entry("a.php", File)];
    FileSystem(
      p => if p == "/" || p == MISSED || p == TAKEN_FOR then Some(p) else None,
      p => if p == MISSED || p == TAKEN_FOR then [p] else [],
      p => if p == MISSED || p == TAKEN_FOR then Some(File)
           else if p == "/" then Some(Directory([Entry("tests", Directory(leaf)), Entry("xtests", Directory(leaf))]))
           else None,
      (p, es) => es)
  }

  const BOTH := Autoload([MISSED, TAKEN_FOR], [], [], [])

  function TopMetadata(): Metadata {
    Metadata(p => if p == "//composer.json" then Some(Composer(None, BOTH)) else None, p => None)
  }

  lemma TopSource()
    ensures IsSource(Top(), TopMetadata(), "/", Source("/", BOTH))
    ensures Reaches(Top(), "/", Source("/", BOTH), MISSED)
  {
    var source := Source("/", BOTH);
    assert "/" + "/composer.json" == "//composer.json";
    assert TrimRight("/") == "" by { assert "/"[..0] == ""; }
    assert LeadsTo(Top(), "/", MISSED, MISSED);
    assert BOTH.classmap[0] == MISSED;
    assert Declares(source.autoload, MISSED);
    assert MISSED in Top().glob(if "/" <= MISSED then MISSED else source.base + "/" + MISSED);
  }

  lemma TopPaths()
    ensures Render(["tests", "a.php"]) == MISSED && Render(["xtests", "a.php"]) == TAKEN_FOR
    ensures IsPhp(MISSED) && IsPhp(TAKEN_FOR) && !IsIndex(MISSED)
  {
    assert ["a.php"][1..] == [] && Join(["a.php"]) == "/a.php";
    assert ["tests", "a.php"][1..] == ["a.php"] == ["xtests", "a.php"][1..];
    assert MISSED[|MISSED| - 4..] == ".php" && TAKEN_FOR[|TAKEN_FOR| - 4..] == ".php";
    assert MISSED[|MISSED| - 10..][0] == 'e';
  }

  lemma TopNames()
    ensures Named(["tests", "a.php"]) && !Filtered(MISSED, "/")
    ensures !Named(["xtests", "a.php"]) && Filtered(TAKEN_FOR, "/")
  {
    hide Skips, InSkippedTree, Relative, Join, IsPhp, IsIndex, Render;
    var missed, taken := ["tests", "a.php"], ["xtests", "a.php"];
    TopPaths();
    TopSkips();
    assert missed[0] == "tests" && taken[0] == "xtests";
    assert Render([]) == "/" by { EmptyRender(); }
    assert [] + missed == missed && [] + taken == taken;
    FilterIsByComponent([], missed);
    FilterIsByComponent([], taken);
    assert SeenBelow([], missed) == ["ests", "a.php"];
    var seen := SeenBelow([], taken);
    assert seen[0] == "tests";
  }

  lemma TopSkips()
    ensures Skips("tests") && !Skips("ests") && !Skips("xtests") && !Skips("a.php")
  {
    assert SameLetters("tests", "tests");
    forall name, word | name in ["ests", "xtests", "a.php"] && word in PATH_NAMES ensures !SameLetters(name, word) {
      assert name[0] in "exa" && word[0] in "tfm";
    }
  }

  lemma EmptyRender()
    ensures Render([]) == "/"
  {}

  /** A file in a tests directory right below the root "/" is preloaded, and a file in a directory
      called xtests is not. */
  lemma {:induction false} TopTreeIsMissed()
    ensures forall files, skipped: nat :: Discovered(Top(), TopMetadata(), "/", Some((files, skipped))) ==>
      MISSED in files && TAKEN_FOR !in files
    ensures Named(["tests", "a.php"]) && Render(["tests", "a.php"]) == MISSED
    ensures !Named(["xtests", "a.php"]) && Render(["xtests", "a.php"]) == TAKEN_FOR
  {
    hide Discovered, IsSource, Reaches, Allowed, Named, Render, Top, TopMetadata;
    assert Top().realpath("/") == Some("/") by { TopRoot(); }
    TopSource();
    TopPaths();
    TopNames();
    TopPasses();
    forall files, skipped: nat | Discovered(Top(), TopMetadata(), "/", Some((files, skipped)))
      ensures MISSED in files && TAKEN_FOR !in files
    {
      Characterisation(Top(), TopMetadata(), "/", "/", files, skipped);
    }
  }

  lemma TopRoot()
    ensures Top().realpath("/") == Some("/")
  {}

  lemma TopPasses()
    ensures Allowed("/", Source("/", BOTH), MISSED)
    ensures forall source :: !Allowed("/", source, TAKEN_FOR)
  {
    hide Filtered, IsPhp;
    TopPaths();
    TopNames();
    assert TrimRight("/") == "" by { assert "/"[..0] == ""; }
    assert Within(MISSED, "/");
  }
}
