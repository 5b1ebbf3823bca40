/** Path containment: within in preload/discovery.php and the prefix test of permitted_script in
    native/sapi.c, against ancestry of canonical absolute paths component by component. */
module Paths {

  /** rtrim(s, '/') */
  function TrimRight(s: string): (r: string)
    ensures r <= s && (r != "" ==> r[|r| - 1] != '/') && forall i :: |r| <= i < |s| ==> s[i] == '/'
  {
    if s != "" && s[|s| - 1] == '/' then TrimRight(s[..|s| - 1]) else s
  }

  predicate Within(path: string, directory: string) {
    path == directory || TrimRight(directory) + "/" <= path
  }

  /** strncmp over the root's length, then a slash unless the root is a single character. */
  predicate UnderRoot(path: string, root: string) {
    root <= path && (|root| > 1 ==> |path| > |root| && path[|root|] == '/')
  }

  // ---- Canonical paths

  predicate Component(name: string) {
    name != "" && '/' !in name
  }

  predicate Components(names: seq<string>) {
    forall i :: 0 <= i < |names| ==> Component(names[i])
  }

  function Join(names: seq<string>): string {
    if names == [] then "" else "/" + names[0] + Join(names[1..])
  }

  /** realpath's form: the root, or every component behind a slash. */
  function Render(names: seq<string>): string {
    if names == [] then "/" else Join(names)
  }

  lemma SlashEnds(a: string, x: string, b: string, y: string)
    requires '/' !in a && '/' !in b
    requires x != "" && x[0] == '/' && (y == "" || y[0] == '/')
    ensures a + x <= b + y <==> a == b && x <= y
  {
    var l, r := a + x, b + y;
    assert l[|a|] == '/';
    assert |a| < |b| ==> r[|a|] == b[|a|];
    assert |b| < |a| && |b| < |r| ==> r[|b|] == y[0] && l[|b|] == a[|b|];
    if |a| == |b| {
      assert l[..|a|] == a && l[|a|..] == x;
      assert r[..|a|] == b && r[|a|..] == y;
    }
  }

  lemma JoinShape(names: seq<string>)
    requires Components(names)
    ensures names != [] ==> Join(names) != "" && Join(names)[0] == '/'
    ensures Join(names) == "" <==> names == []
  {}

  /** A slash behind a directory starts exactly the paths below it. */
  lemma {:induction false} JoinPrefix(path: seq<string>, dir: seq<string>)
    requires Components(path) && Components(dir)
    ensures Join(dir) + "/" <= Join(path) <==> dir <= path && dir != path
    ensures Join(dir) == Join(path) <==> dir == path
  {
    JoinShape(path);
    JoinShape(dir);
    if dir == [] {
      if path != [] { assert "/" <= Join(path); }
    } else if path != [] {
      var p, d := path[1..], dir[1..];
      JoinPrefix(p, d);
      JoinShape(p);
      JoinShape(d);
      assert path == [path[0]] + p && dir == [dir[0]] + d;
      assert Join(dir) + "/" == "/" + (dir[0] + (Join(d) + "/"));
      assert Join(path) == "/" + (path[0] + Join(p));
      SlashEnds(dir[0], Join(d) + "/", path[0], Join(p));
      PrefixBehind("/", dir[0] + (Join(d) + "/"), path[0] + Join(p));
      SameBehind(dir, path);
    } else {
      assert !(dir <= path);
    }
  }

  lemma PrefixBehind(c: string, a: string, b: string)
    ensures c + a <= c + b <==> a <= b
  {
    assert (c + b)[|c|..] == b && (c + a)[|c|..] == a;
    if c + a <= c + b {
      assert (c + b)[..|c + a|] == c + a;
      assert b[..|a|] == (c + b)[|c|..|c + a|] == a;
    }
  }

  lemma Behind(name: string, rest: string)
    ensures (("/" + name + rest) + "/")[1..] == name + (rest + "/")
  {}

  lemma Shorter(x: string, y: string)
    requires x + "/" <= y + "/" && |x| == |y|
    ensures x == y
  {
    assert (x + "/")[..|x|] == x && (y + "/")[..|y|] == y;
  }

  /** Equal joins of non-empty lists agree on the first component. */
  lemma SameBehind(a: seq<string>, b: seq<string>)
    requires a != [] && b != [] && Components(a) && Components(b)
    ensures Join(a) == Join(b) <==> a[0] == b[0] && Join(a[1..]) == Join(b[1..])
  {
    JoinShape(a[1..]);
    JoinShape(b[1..]);
    var x, y := Join(a[1..]), Join(b[1..]);
    assert Join(a) == "/" + a[0] + x && Join(b) == "/" + b[0] + y;
    hide Join;
    if Join(a) == Join(b) {
      Behind(a[0], x);
      Behind(b[0], y);
      assert a[0] + (x + "/") == b[0] + (y + "/");
      SlashEnds(a[0], x + "/", b[0], y + "/");
      Shorter(x, y);
    }
  }

  lemma {:induction false} NoTrailingSlash(names: seq<string>)
    requires Components(names)
    ensures TrimRight(Join(names)) == Join(names)
  {
    if names != [] {
      LastIsNotSlash(names);
    }
  }

  lemma {:induction false} LastIsNotSlash(names: seq<string>)
    requires Components(names) && names != []
    ensures Join(names) != "" && Join(names)[|Join(names)| - 1] != '/'
  {
    if |names| == 1 {
      assert names[1..] == [];
      var s := Join(names);
      assert s == "/" + names[0] + "";
      assert s[|s| - 1] == names[0][|names[0]| - 1];
    } else {
      LastIsNotSlash(names[1..]);
    }
  }

  /** within is ancestry by components, for every directory including the root. */
  lemma {:induction false} WithinIsAncestry(path: seq<string>, dir: seq<string>)
    requires Components(path) && Components(dir)
    ensures Within(Render(path), Render(dir)) <==> dir <= path
  {
    JoinPrefix(path, dir);
    JoinShape(path);
    JoinShape(dir);
    NoTrailingSlash(dir);
    if dir == [] {
      assert TrimRight("/") == "" by { assert "/"[..0] == ""; }
      assert "/" <= Render(path);
    } else if path == [] {
      assert |TrimRight(Render(dir)) + "/"| > 1;
    }
  }

  /** The served script's test agrees with within for every root, except that it refuses a path
      equal to a root other than "/". */
  lemma {:induction false} UnderRootIsAncestry(path: seq<string>, root: seq<string>)
    requires Components(path) && Components(root)
    ensures UnderRoot(Render(path), Render(root)) <==> root <= path && (root == path ==> root == [])
    ensures UnderRoot(Render(path), Render(root)) <==>
      Within(Render(path), Render(root)) && !(path == root && root != [])
  {
    WithinIsAncestry(path, root);
    JoinPrefix(path, root);
    JoinShape(path);
    JoinShape(root);
    var p, r := Render(path), Render(root);
    if root == [] {
      assert "/" <= p;
    } else {
      assert |r| > 1;
      assert UnderRoot(p, r) <==> r + "/" <= p;
      if path == [] { assert !(r + "/" <= p) && !(root <= path); }
    }
  }

  // ---- Below a directory

  /** What stands before the slash in the paths below a directory. */
  function Stem(dir: string): string { if dir == "/" then "" else dir }

  lemma {:induction false} JoinBehind(a: seq<string>, b: seq<string>)
    ensures Join(a + b) == Join(a) + Join(b)
  {
    if a == [] {
      assert a + b == b;
    } else {
      JoinBehind(a[1..], b);
      assert (a + b)[1..] == a[1..] + b;
    }
  }

  /** The canonical path of what lies below a directory, the root included. */
  lemma StemIsCanonical(dir: seq<string>, names: seq<string>)
    requires Components(dir) && Components(names) && names != []
    ensures Stem(Render(dir)) + Join(names) == Render(dir + names)
  {
    JoinShape(dir);
    JoinBehind(dir, names);
    if dir == [] {
      assert dir + names == names;
    } else {
      LastIsNotSlash(dir);
    }
  }
}
