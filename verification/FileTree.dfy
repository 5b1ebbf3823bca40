/** The file system preload/discovery.php sees: a tree with links in it. In which order glob and the
    directory iterators enumerate it is left open, and shown not to matter for what a walk finds. */
module FileTree {
  import opened Basics
  import opened Paths
  import opened Bags

  // ---- The file system

  /** A link may point anywhere, also back up the tree. */
  datatype Node = File | Directory(entries: seq<Entry>) | Link(target: string) | Special
  datatype Entry = Entry(name: string, node: Node)

  /** What realpath, glob and stat answer, and how a directory is enumerated. */
  datatype FileSystem = FileSystem(
    realpath: string -> Option<string>,
    glob: string -> seq<string>,
    node: string -> Option<Node>,
    order: (string, seq<Entry>) -> seq<Entry>)

  /** An enumeration yields every entry once. */
  ghost predicate Enumerates(fs: FileSystem) {
    forall path, entries :: multiset(fs.order(path, entries)) == multiset(entries)
  }

  type Disk = fs: FileSystem | Enumerates(fs)
    ghost witness FileSystem(p => None, p => [], p => None, (p, es) => es)

  /** The same files, enumerated in any order. */
  ghost predicate SameFiles(a: Disk, b: Disk) {
    && (forall p :: a.realpath(p) == b.realpath(p))
    && (forall p :: a.node(p) == b.node(p))
    && (forall p :: multiset(a.glob(p)) == multiset(b.glob(p)))
  }

  // ---- Pruned directories

  function LowerChar(c: char): char {
    if 'A' <= c <= 'Z' then (c as int + 32) as char else c
  }

  function Lower(s: string): string {
    if s == "" then "" else [LowerChar(s[0])] + Lower(s[1..])
  }

  /** A final "$" also accepts one newline at the very end. */
  function Chomp(s: string): string {
    if s != "" && s[|s| - 1] == '\n' then s[..|s| - 1] else s
  }

  const TREE_NAMES := ["test", "tests", "fixture", "fixtures", "modules", "themes", "node_modules", "vendor", ".git"]

  /** ~^(?:tests?|fixtures?|modules|themes|node_modules|vendor|\.git)$~i */
  predicate Pruned(name: string) {
    Lower(name) in TREE_NAMES || Lower(Chomp(name)) in TREE_NAMES
  }

  /** The same word up to the case of ASCII letters; `word` is in lower case. */
  ghost predicate SameLetters(name: string, word: string) {
    && |name| == |word|
    && forall i :: 0 <= i < |name| ==>
         name[i] == word[i] || ('A' <= name[i] <= 'Z' && name[i] as int + 32 == word[i] as int)
  }

  predicate LowerCase(word: string) {
    forall i :: 0 <= i < |word| ==> !('A' <= word[i] <= 'Z')
  }

  lemma {:induction false} LowerIsSame(name: string, word: string)
    requires LowerCase(word)
    ensures Lower(name) == word <==> SameLetters(name, word)
  {
    if name == "" || word == "" {
      assert |Lower(name)| > 0 <==> name != "";
    } else {
      LowerIsSame(name[1..], word[1..]);
      assert Lower(name) == word <==> LowerChar(name[0]) == word[0] && Lower(name[1..]) == word[1..] by {
        assert word == [word[0]] + word[1..];
      }
      assert SameLetters(name, word) <==>
        SameLetters(name[1..], word[1..]) && (name[0] == word[0] || ('A' <= name[0] <= 'Z' && name[0] as int + 32 == word[0] as int))
      by {
        assert forall i :: 0 <= i < |name[1..]| ==> name[1..][i] == name[i + 1];
        assert forall i :: 0 <= i < |word[1..]| ==> word[1..][i] == word[i + 1];
        assert forall i :: 0 < i < |name| ==> name[i] == name[1..][i - 1];
        assert forall i :: 0 < i < |word| ==> word[i] == word[1..][i - 1];
      }
    }
  }

  /** The trees that are left out: tests, fixtures, extensions, and what others have installed. */
  ghost predicate Avoided(name: string) {
    exists word :: word in ["test", "tests", "fixture", "fixtures", "modules", "themes", "node_modules", "vendor", ".git"]
      && (SameLetters(name, word) || (name != "" && name[|name| - 1] == '\n' && SameLetters(name[..|name| - 1], word)))
  }

  lemma PrunedIsAvoided(name: string)
    ensures Pruned(name) <==> Avoided(name)
  {
    hide Lower, SameLetters;
    forall word | word in TREE_NAMES
      ensures Lower(name) == word <==> SameLetters(name, word)
      ensures Lower(Chomp(name)) == word <==> SameLetters(Chomp(name), word)
    {
      TreeNamesAreLower(word);
      LowerIsSame(name, word);
      LowerIsSame(Chomp(name), word);
    }
  }

  lemma TreeNamesAreLower(word: string)
    requires word in TREE_NAMES
    ensures LowerCase(word)
  {}

  // ---- The directory walk

  /** A leaf the iterator yields, and whether it is a regular file. */
  type Leaf = (string, bool)

  /** RecursiveIteratorIterator over the filtered directory, in the order of enumeration. */
  function Walk(fs: Disk, path: string, node: Node): seq<Leaf>
    decreases node, 1, 0
  {
    if !node.Directory? then []
    else
      var es := fs.order(path, node.entries);
      SameMembers(es, node.entries);
      WalkAll(fs, path, es, node)
  }

  function WalkAll(fs: Disk, path: string, es: seq<Entry>, parent: Node): seq<Leaf>
    requires parent.Directory? && forall e :: e in es ==> e in parent.entries
    decreases parent, 0, |es|
  {
    if es == [] then []
    else
      assert es[0] in parent.entries;
      WalkOne(fs, path, es[0], parent) + WalkAll(fs, path, es[1..], parent)
  }

  function WalkOne(fs: Disk, path: string, e: Entry, parent: Node): seq<Leaf>
    requires parent.Directory? && e in parent.entries
    decreases parent, 0, 0
  {
    if e.node.Link? || Pruned(e.name) then []
    else
      var below := path + "/" + e.name;
      match e.node
      case Directory(_) => Walk(fs, below, e.node)
      case File => [(below, true)]
      case _ => [(below, false)]
  }

  /** The same leaves, counted without regard to order. */
  function Leaves(path: string, node: Node): multiset<Leaf>
    decreases node, 1
  {
    if !node.Directory? then multiset{} else LeavesAll(path, node.entries)
  }

  function LeavesAll(path: string, es: seq<Entry>): multiset<Leaf>
    decreases es, 0
  {
    if es == [] then multiset{} else LeavesOne(path, es[0]) + LeavesAll(path, es[1..])
  }

  function LeavesOne(path: string, e: Entry): multiset<Leaf>
    decreases e, 0
  {
    if e.node.Link? || Pruned(e.name) then multiset{}
    else
      var below := path + "/" + e.name;
      match e.node
      case Directory(_) => Leaves(below, e.node)
      case File => multiset{(below, true)}
      case _ => multiset{(below, false)}
  }

  lemma {:induction false} LeavesAllJoin(path: string, a: seq<Entry>, b: seq<Entry>)
    ensures LeavesAll(path, a + b) == LeavesAll(path, a) + LeavesAll(path, b)
  {
    if a == [] {
      assert a + b == b;
    } else {
      LeavesAllJoin(path, a[1..], b);
      assert (a + b)[1..] == a[1..] + b;
    }
  }

  lemma {:induction false} LeavesAllPermuted(path: string, a: seq<Entry>, b: seq<Entry>)
    requires multiset(a) == multiset(b)
    ensures LeavesAll(path, a) == LeavesAll(path, b)
    decreases |a|
  {
    if a == [] {
      assert |multiset(b)| == 0;
    } else {
      var i := HeadMoves(a, b);
      LeavesAllPermuted(path, a[1..], b[..i] + b[i + 1..]);
      LeavesAllJoin(path, b[..i], [a[0]] + b[i + 1..]);
      LeavesAllJoin(path, b[..i], b[i + 1..]);
      assert ([a[0]] + b[i + 1..])[1..] == b[i + 1..];
    }
  }

  /** However directories are enumerated, the walk yields the same leaves equally often. */
  lemma {:induction false} WalkLeaves(fs: Disk, path: string, node: Node)
    ensures multiset(Walk(fs, path, node)) == Leaves(path, node)
    decreases node, 1, 0
  {
    if node.Directory? {
      var es := fs.order(path, node.entries);
      SameMembers(es, node.entries);
      WalkAllLeaves(fs, path, es, node);
      LeavesAllPermuted(path, es, node.entries);
    }
  }

  lemma {:induction false} WalkAllLeaves(fs: Disk, path: string, es: seq<Entry>, parent: Node)
    requires parent.Directory? && forall e :: e in es ==> e in parent.entries
    ensures multiset(WalkAll(fs, path, es, parent)) == LeavesAll(path, es)
    decreases parent, 0, |es|
  {
    if es == [] {
    } else {
      assert es[0] in parent.entries;
      if es[0].node.Directory? { WalkLeaves(fs, path + "/" + es[0].name, es[0].node); }
      WalkAllLeaves(fs, path, es[1..], parent);
    }
  }

  /** The names lead from this directory, over directories that are neither links nor pruned, to a
      regular file. */
  ghost predicate Descends(node: Node, names: seq<string>) {
    && node.Directory? && names != [] && !Avoided(names[0])
    && exists e :: e in node.entries && e.name == names[0]
         && if |names| == 1 then e.node.File? else Descends(e.node, names[1..])
  }

  /** One step down to a file, or to a directory and on from there. */
  lemma DescendsBy(node: Node, e: Entry, more: seq<string>)
    requires node.Directory? && e in node.entries && !Avoided(e.name)
    requires if more == [] then e.node.File? else Descends(e.node, more)
    ensures Descends(node, [e.name] + more)
  {
    assert ([e.name] + more)[1..] == more;
  }

  lemma {:induction false} LeafIsReached(path: string, node: Node, file: string) returns (names: seq<string>)
    requires (file, true) in Leaves(path, node)
    ensures Descends(node, names) && file == path + Join(names)
    decreases node, 1
  {
    hide Descends, Pruned, Avoided;
    var e := LeafEntry(path, node.entries, file);
    PrunedIsAvoided(e.name);
    if e.node.File? {
      DescendsBy(node, e, []);
      names := [e.name] + [];
    } else {
      var more := LeafIsReached(path + "/" + e.name, e.node, file);
      assert more != [] by { DescendsSomewhere(e.node, more); }
      DescendsBy(node, e, more);
      names := [e.name] + more;
      assert names[1..] == more;
    }
  }

  lemma DescendsSomewhere(node: Node, names: seq<string>)
    requires Descends(node, names)
    ensures names != []
  {}

  /** The entry a leaf comes from. */
  lemma {:induction false} LeafEntry(path: string, es: seq<Entry>, file: string) returns (e: Entry)
    requires (file, true) in LeavesAll(path, es)
    ensures e in es && !e.node.Link? && !Pruned(e.name)
    ensures var below := path + "/" + e.name;
      (e.node.File? && file == below) || (e.node.Directory? && (file, true) in Leaves(below, e.node))
  {
    if (file, true) in LeavesOne(path, es[0]) {
      e := es[0];
    } else {
      e := LeafEntry(path, es[1..], file);
    }
  }

  lemma {:induction false} ReachedIsLeaf(path: string, node: Node, names: seq<string>)
    requires Descends(node, names)
    ensures (path + Join(names), true) in Leaves(path, node)
    decreases |names|
  {
    hide Pruned, Avoided;
    var e :| e in node.entries && e.name == names[0]
      && if |names| == 1 then e.node.File? else Descends(e.node, names[1..]);
    PrunedIsAvoided(names[0]);
    var below := path + "/" + e.name;
    if |names| == 1 {
      assert names[1..] == [] && path + Join(names) == below;
    } else {
      ReachedIsLeaf(below, e.node, names[1..]);
      assert path + Join(names) == below + Join(names[1..]);
    }
    EntryLeaves(path, node.entries, e, (path + Join(names), true));
  }

  lemma {:induction false} EntryLeaves(path: string, es: seq<Entry>, e: Entry, leaf: Leaf)
    requires e in es && leaf in LeavesOne(path, e)
    ensures leaf in LeavesAll(path, es)
  {
    if es[0] == e {
    } else {
      EntryLeaves(path, es[1..], e, leaf);
    }
  }

  // ---- Links

  /** The tree with every link taken out of it. */
  function Unlinked(node: Node): Node {
    match node
    case Directory(entries) => Directory(UnlinkedAll(entries))
    case _ => node
  }

  function UnlinkedAll(es: seq<Entry>): seq<Entry> {
    if es == [] then []
    else (if es[0].node.Link? then [] else [Entry(es[0].name, Unlinked(es[0].node))]) + UnlinkedAll(es[1..])
  }

  /** The walk finds what it would find if there were no links, wherever they point: up the tree, in
      circles or nowhere. */
  lemma {:induction false} LinksAreNotFollowed(path: string, node: Node)
    ensures Leaves(path, Unlinked(node)) == Leaves(path, node)
    decreases node, 1
  {
    match node
    case Directory(entries) => LinksAreNotFollowedAll(path, entries);
    case _ =>
  }

  lemma {:induction false} LinksAreNotFollowedAll(path: string, es: seq<Entry>)
    ensures LeavesAll(path, UnlinkedAll(es)) == LeavesAll(path, es)
    decreases es, 0
  {
    if es == [] {
    } else {
      var e := es[0];
      LinksAreNotFollowedAll(path, es[1..]);
      if e.node.Link? {
        assert UnlinkedAll(es) == UnlinkedAll(es[1..]);
        assert LeavesOne(path, e) == multiset{};
      } else {
        var u := Entry(e.name, Unlinked(e.node));
        LinksAreNotFollowed(path + "/" + e.name, e.node);
        assert LeavesOne(path, u) == LeavesOne(path, e);
        assert UnlinkedAll(es) == [u] + UnlinkedAll(es[1..]);
      }
    }
  }
}
