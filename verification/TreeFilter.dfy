/** The tree filter of discover in preload/discovery.php: a regular expression on the text of a path,
    and what it means for the components of the path. */
module TreeFilter {
  import opened Paths
  import opened FileTree

  const PATH_NAMES := ["test", "tests", "fixture", "fixtures", "modules", "themes"]

  /** A word of the filter starts at i and ends at a slash or at the end. */
  predicate WordAt(path: string, i: nat, word: string) {
    && i + |word| <= |path|
    && (i == 0 || path[i - 1] == '/')
    && Lower(path[i..i + |word|]) == word
    && (i + |word| == |Chomp(path)| || i + |word| == |path| || path[i + |word|] == '/')
  }

  /** ~(?:^|/)(?:tests?|fixtures?|modules|themes)(?:/|$)~i */
  predicate InSkippedTree(path: string) {
    exists i: nat, w: nat :: i <= |path| && w < |PATH_NAMES| && WordAt(path, i, PATH_NAMES[w])
  }

  /** basename(path) === 'index.php', for a path not ending in a slash. */
  predicate IsIndex(path: string) {
    path == "index.php" || (|path| > 9 && path[|path| - 10..] == "/index.php")
  }

  predicate IsPhp(path: string) {
    |path| >= 4 && path[|path| - 4..] == ".php"
  }

  /** substr(file, strlen(root) + 1) */
  function Relative(file: string, root: string): string {
    if |file| <= |root| then "" else file[|root| + 1..]
  }

  // ---- The filter by components

  /** One of the names the filter looks for, in letters of either case. */
  ghost predicate Skips(name: string) {
    exists word :: word in ["test", "tests", "fixture", "fixtures", "modules", "themes"] && SameLetters(name, word)
  }

  lemma SkipsIs(name: string)
    ensures Skips(name) <==> Lower(name) in PATH_NAMES
  {
    hide Lower, SameLetters;
    forall word | word in PATH_NAMES ensures Lower(name) == word <==> SameLetters(name, word) {
      PathNamesAreLower(word);
      LowerIsSame(name, word);
    }
  }

  lemma PathNamesAreLower(word: string)
    requires word in PATH_NAMES
    ensures LowerCase(word)
  {}

  /** Some component is one of these names. */
  ghost predicate Named(names: seq<string>) {
    exists i :: 0 <= i < |names| && Skips(names[i])
  }

  lemma {:induction false} LowerLength(s: string)
    ensures |Lower(s)| == |s|
    ensures '/' in Lower(s) <==> '/' in s
  {
    if s == "" {
    } else {
      LowerLength(s[1..]);
    }
  }

  lemma PathNamesAreComponents()
    ensures forall w :: w in PATH_NAMES ==> Component(w)
  {}

  predicate NoFinalNewline(s: string) {
    s == "" || s[|s| - 1] != '\n'
  }

  lemma WordAtStart(name: string, rest: string, word: string)
    requires '/' !in name && Component(word) && (rest == "" || rest[0] == '/')
    requires NoFinalNewline(name + rest)
    ensures WordAt(name + rest, 0, word) <==> Lower(name) == word
  {
    hide Lower;
    var s, n := name + rest, |word|;
    LowerLength(name);
    if n <= |s| {
      LowerLength(s[0..n]);
      assert n > |name| ==> s[0..n][|name|] == '/';
      assert n < |name| ==> s[n] == name[n];
      assert n == |name| ==> s[0..n] == name;
    }
  }

  lemma NoWordInside(name: string, rest: string, i: nat, word: string)
    requires '/' !in name && 0 < i <= |name|
    ensures !WordAt(name + rest, i, word)
  {
    assert (name + rest)[i - 1] == name[i - 1];
  }

  lemma WordAtPlain(s: string, i: nat, word: string)
    requires NoFinalNewline(s)
    ensures WordAt(s, i, word) <==>
      var j := i + |word|;
      j <= |s| && (i == 0 || s[i - 1] == '/') && Lower(s[i..j]) == word && (j == |s| || s[j] == '/')
  {
    hide Lower;
  }

  lemma Shifted(name: string, rest: string)
    ensures var s := name + ("/" + rest);
      |s| == |name| + 1 + |rest| && s[|name|] == '/' && forall k :: 0 <= k < |rest| ==> s[|name| + 1 + k] == rest[k]
  {}

  lemma SliceBehind(name: string, rest: string, i: nat, j: nat)
    requires i <= j <= |rest|
    ensures (name + ("/" + rest))[|name| + 1 + i..|name| + 1 + j] == rest[i..j]
  {
    Shifted(name, rest);
  }

  lemma WordBehind(name: string, rest: string, i: nat, word: string)
    requires NoFinalNewline(name + ("/" + rest)) && NoFinalNewline(rest)
    requires i <= |rest|
    ensures WordAt(name + ("/" + rest), |name| + 1 + i, word) <==> WordAt(rest, i, word)
  {
    hide WordAt, Lower, NoFinalNewline;
    Shifted(name, rest);
    WordAtPlain(name + ("/" + rest), |name| + 1 + i, word);
    WordAtPlain(rest, i, word);
    if i + |word| <= |rest| { SliceBehind(name, rest, i, i + |word|); }
  }

  /** The filter looks at the first component, then behind the slash. */
  lemma SkippedStep(name: string, rest: string)
    requires '/' !in name && NoFinalNewline(rest) && NoFinalNewline(name + ("/" + rest))
    ensures InSkippedTree(name + ("/" + rest)) <==> Skips(name) || InSkippedTree(rest)
  {
    hide WordAt, Lower, Skips;
    SkipsIs(name);
    var s := name + ("/" + rest);
    PathNamesAreComponents();
    forall w: nat | w < |PATH_NAMES| ensures WordAt(s, 0, PATH_NAMES[w]) <==> Lower(name) == PATH_NAMES[w] {
      WordAtStart(name, "/" + rest, PATH_NAMES[w]);
    }
    if InSkippedTree(s) {
      var i: nat, w: nat :| i <= |s| && w < |PATH_NAMES| && WordAt(s, i, PATH_NAMES[w]);
      if 0 < i <= |name| {
        NoWordInside(name, "/" + rest, i, PATH_NAMES[w]);
      } else if i > |name| {
        WordBehind(name, rest, i - |name| - 1, PATH_NAMES[w]);
      }
    }
    if Lower(name) in PATH_NAMES {
      var w: nat :| w < |PATH_NAMES| && PATH_NAMES[w] == Lower(name);
      assert WordAt(s, 0, PATH_NAMES[w]);
    }
    if InSkippedTree(rest) {
      var i: nat, w: nat :| i <= |rest| && w < |PATH_NAMES| && WordAt(rest, i, PATH_NAMES[w]);
      WordBehind(name, rest, i, PATH_NAMES[w]);
    }
  }

  lemma SkippedAlone(name: string)
    requires '/' !in name && NoFinalNewline(name)
    ensures InSkippedTree(name) <==> Skips(name)
  {
    hide WordAt, Lower, Skips;
    SkipsIs(name);
    assert name + "" == name;
    PathNamesAreComponents();
    forall w: nat | w < |PATH_NAMES| ensures WordAt(name, 0, PATH_NAMES[w]) <==> Lower(name) == PATH_NAMES[w] {
      WordAtStart(name, "", PATH_NAMES[w]);
    }
    if InSkippedTree(name) {
      var i: nat, w: nat :| i <= |name| && w < |PATH_NAMES| && WordAt(name, i, PATH_NAMES[w]);
      if 0 < i { NoWordInside(name, "", i, PATH_NAMES[w]); }
    }
    if Lower(name) in PATH_NAMES {
      var w: nat :| w < |PATH_NAMES| && PATH_NAMES[w] == Lower(name);
      assert WordAt(name, 0, PATH_NAMES[w]);
    }
  }

  /** Components, of which the last does not end a line; the first may be empty. */
  ghost predicate Listed(names: seq<string>) {
    && names != []
    && (forall i :: 0 <= i < |names| ==> '/' !in names[i])
    && (forall i :: 0 < i < |names| ==> names[i] != "")
    && NoFinalNewline(names[|names| - 1])
  }

  lemma {:induction false} SkippedIsNamed(names: seq<string>)
    requires Listed(names)
    ensures NoFinalNewline(names[0] + Join(names[1..]))
    ensures InSkippedTree(names[0] + Join(names[1..])) <==> Named(names)
    decreases |names|
  {
    hide InSkippedTree, Skips;
    if |names| == 1 {
      assert names[0] + Join(names[1..]) == names[0];
      SkippedAlone(names[0]);
    } else {
      var more := names[1..];
      SkippedIsNamed(more);
      var rest := more[0] + Join(more[1..]);
      assert Join(more) == "/" + rest;
      assert rest != "";
      SkippedStep(names[0], rest);
      NamedStep(names);
    }
  }

  lemma NamedStep(names: seq<string>)
    requires names != []
    ensures Named(names) <==> Skips(names[0]) || Named(names[1..])
  {
    hide Skips;
    if Named(names) {
      var i :| 0 <= i < |names| && Skips(names[i]);
      if i > 0 { assert names[1..][i - 1] == names[i]; }
    }
    if Named(names[1..]) {
      var i :| 0 <= i < |names[1..]| && Skips(names[1..][i]);
      assert names[i + 1] == names[1..][i];
    }
  }

  /** The components the filter sees: those below the root, but for the root "/" the first of them
      without its first character. */
  function SeenBelow(root: seq<string>, names: seq<string>): seq<string>
    requires names != [] && names[0] != ""
  {
    if root != [] then names else [names[0][1..]] + names[1..]
  }

  lemma RelativeToDirectory(root: seq<string>, below: string)
    requires Components(root) && root != []
    ensures Relative(Join(root) + ("/" + below), Join(root)) == below
  {
    hide Join;
    var s := Join(root) + ("/" + below);
    assert s[|Join(root)| + 1..] == below;
  }

  lemma RelativeToTop(name: string, rest: string)
    requires name != ""
    ensures Relative("/" + (name + rest), "/") == name[1..] + rest
  {
    assert ("/" + (name + rest))[2..] == name[1..] + rest;
  }

  lemma RelativeIsSeen(root: seq<string>, names: seq<string>)
    requires Components(root) && Components(names) && names != []
    ensures var seen := SeenBelow(root, names);
      Relative(Render(root + names), Render(root)) == seen[0] + Join(seen[1..])
  {
    hide Relative;
    var below := names[0] + Join(names[1..]);
    assert Join(names) == "/" + below;
    if root == [] {
      assert root + names == names;
      RelativeToTop(names[0], Join(names[1..]));
    } else {
      JoinBehind(root, names);
      RelativeToDirectory(root, below);
    }
  }

  lemma {:induction false} EndsInLast(names: seq<string>)
    requires Components(names) && names != []
    ensures Join(names) != ""
    ensures Join(names)[|Join(names)| - 1] == names[|names| - 1][|names[|names| - 1]| - 1]
  {
    if |names| == 1 {
      assert names[1..] == [];
      assert Join(names) == "/" + names[0];
    } else {
      EndsInLast(names[1..]);
    }
  }

  lemma PhpEndsNoLine(names: seq<string>)
    requires Components(names) && names != [] && IsPhp(Join(names))
    ensures NoFinalNewline(names[|names| - 1])
  {
    hide Join;
    var s := Join(names);
    assert s[|s| - 1] == s[|s| - 4..][3];
    EndsInLast(names);
  }

  /** Of the files that get as far as the tree filter, those ending in ".php": the filter is by
      component, whatever the case of the letters. */
  lemma {:induction false} FilterIsByComponent(root: seq<string>, names: seq<string>)
    requires Components(root) && Components(names) && names != [] && IsPhp(Render(root + names))
    ensures InSkippedTree(Relative(Render(root + names), Render(root))) <==> Named(SeenBelow(root, names))
  {
    hide InSkippedTree, Named, Relative, Join, IsPhp;
    assert Render(root + names) == Join(root + names);
    PhpEndsNoLine(root + names);
    LastOfSeen(root, names);
    RelativeIsSeen(root, names);
    SkippedIsNamed(SeenBelow(root, names));
  }

  lemma LastOfSeen(root: seq<string>, names: seq<string>)
    requires Components(root) && Components(names) && names != [] && NoFinalNewline((root + names)[|root + names| - 1])
    ensures Listed(SeenBelow(root, names))
  {
    assert (root + names)[|root + names| - 1] == names[|names| - 1];
  }

  /** Below the root "/" the filter agrees with the components exactly if a later one is named or the
      first one is named with and without its first character, or neither. */
  lemma {:induction false} TopFilterAgrees(names: seq<string>)
    requires Components(names) && names != [] && IsPhp(Render(names))
    ensures (InSkippedTree(Relative(Render(names), "/")) <==> Named(names)) <==>
      Named(names[1..]) || (Skips(names[0]) <==> Skips(names[0][1..]))
  {
    hide InSkippedTree, Named, Relative, Join, IsPhp, Skips;
    assert [] + names == names;
    FilterIsByComponent([], names);
    var seen := SeenBelow([], names);
    assert seen[1..] == names[1..];
    NamedStep(names);
    NamedStep(seen);
  }

  // ---- The whole filter by components

  lemma {:induction false} JoinEnds(names: seq<string>)
    requires Components(names) && names != []
    ensures var last := names[|names| - 1];
      exists head :: Join(names) == head + "/" + last
  {
    var last := names[|names| - 1];
    if |names| == 1 {
      assert names[1..] == [];
      assert Join(names) == "" + "/" + last;
    } else {
      JoinEnds(names[1..]);
      var head :| Join(names[1..]) == head + "/" + last;
      assert Join(names) == ("/" + names[0] + head) + "/" + last;
    }
  }

  predicate EndsIn(s: string, suffix: string) {
    |suffix| <= |s| && s[|s| - |suffix|..] == suffix
  }

  /** A suffix without a slash is one of the last component. */
  lemma SuffixOfLast(head: string, last: string, suffix: string)
    requires '/' !in suffix
    ensures EndsIn(head + "/" + last, suffix) <==> EndsIn(last, suffix)
  {
    var s := head + "/" + last;
    if |suffix| <= |last| {
      assert s[|s| - |suffix|..] == last[|last| - |suffix|..];
    } else if |suffix| <= |s| {
      assert s[|s| - |suffix|..][|suffix| - |last| - 1] == '/';
    }
  }

  lemma IndexIsLast(head: string, last: string)
    requires '/' !in last
    ensures IsIndex(head + "/" + last) <==> last == "index.php"
  {
    var s := head + "/" + last;
    var word := "index.php";
    assert s[|head|] == '/' && '/' !in word;
    if |last| == 9 {
      assert s[|s| - 10..] == "/" + last;
      assert ("/" + last)[1..] == last && "/index.php"[1..] == word;
    } else if |last| < 9 && |s| >= 10 {
      assert s[|s| - 10..][10 - |last| - 1] == '/';
      assert "/index.php"[10 - |last| - 1] != '/';
    } else if |last| > 9 {
      assert s[|s| - 10..][0] == last[|last| - 10];
    }
  }

  /** What passes the filters, for a file below the root: a name ending in ".php" other than index.php,
      and no component, as far as the filter sees them, with one of the names. */
  lemma {:induction false} FiltersMean(root: seq<string>, names: seq<string>)
    requires Components(root) && Components(names) && names != []
    ensures var file, last := Render(root + names), names[|names| - 1];
      && Within(file, Render(root))
      && (IsPhp(file) <==> EndsIn(last, ".php"))
      && (IsIndex(file) <==> last == "index.php")
      && (IsPhp(file) ==> (InSkippedTree(Relative(file, Render(root))) <==> Named(SeenBelow(root, names))))
  {
    hide InSkippedTree, Relative, Named, Join;
    var file, last := Render(root + names), names[|names| - 1];
    WithinIsAncestry(root + names, root);
    JoinEnds(root + names);
    assert (root + names)[|root + names| - 1] == last;
    var head :| Join(root + names) == head + "/" + last;
    SuffixOfLast(head, last, ".php");
    IndexIsLast(head, last);
    if IsPhp(file) { FilterIsByComponent(root, names); }
  }
}
