/**
 * Paths as pathlib sees them: a sequence of components. `Path("/a/b/")` has
 * the components ["a", "b"]; empty components and "." are dropped.
 */
module Paths {
  import opened Strings

  type Path = seq<string>

  /** The components pathlib keeps from the pieces between '/' separators. */
  function Clean(parts: seq<string>): (p: Path)
    ensures |p| <= |parts|
    ensures forall i :: 0 <= i < |p| ==> p[i] != "" && p[i] != "."
  {
    if parts == [] then []
    else (if parts[0] == "" || parts[0] == "." then [] else [parts[0]]) + Clean(parts[1..])
  }

  lemma {:induction false} CleanAppend(x: seq<string>, y: seq<string>)
    ensures Clean(x + y) == Clean(x) + Clean(y)
    decreases |x|
  {
    if x == [] {
      assert x + y == y;
    } else {
      var xy := x + y;
      assert xy[0] == x[0] && xy[1..] == x[1..] + y;
      CleanAppend(x[1..], y);
    }
  }

  /** `Path(s)`, as its components. */
  function ToPath(s: string): Path
  {
    Clean(Split(s, '/'))
  }

  /** Every component of `Path(s)` is a non-empty piece of `s` between separators, other than ".". */
  lemma ToPathComponents(s: string)
    ensures forall i :: 0 <= i < |ToPath(s)| ==> ToPath(s)[i] != "" && ToPath(s)[i] != "." && '/' !in ToPath(s)[i]
    ensures PlainName(s) ==> ToPath(s) == [s]
  {
    var parts := Split(s, '/');
    CleanKeepsPieces(parts);
    forall i | 0 <= i < |ToPath(s)| ensures '/' !in ToPath(s)[i] {
      var j :| 0 <= j < |parts| && parts[j] == ToPath(s)[i];
    }
    if PlainName(s) {
      PlainNameIsOneComponent(s);
    }
  }

  /** Cleaning only drops pieces: every component kept is one of the pieces. */
  lemma {:induction false} CleanKeepsPieces(parts: seq<string>)
    ensures forall i :: 0 <= i < |Clean(parts)| ==> Clean(parts)[i] in parts
    decreases |parts|
  {
    if parts != [] {
      var head := if parts[0] == "" || parts[0] == "." then [] else [parts[0]];
      var rest := Clean(parts[1..]);
      CleanKeepsPieces(parts[1..]);
      assert Clean(parts) == head + rest;
      forall i | 0 <= i < |Clean(parts)| ensures Clean(parts)[i] in parts {
        if i >= |head| {
          assert Clean(parts)[i] == rest[i - |head|];
          assert rest[i - |head|] in parts[1..];
        }
      }
    }
  }

  predicate IsAbsolute(name: string)
  {
    |name| > 0 && name[0] == '/'
  }

  predicate EndsWithSeparator(s: string)
  {
    |s| > 0 && s[|s| - 1] == '/'
  }

  /** `base / name`: an absolute name replaces the base. */
  function Join(base: Path, name: string): Path
  {
    if IsAbsolute(name) then ToPath(name) else base + ToPath(name)
  }

  /** `p.parent`; the root is its own parent. */
  function Parent(p: Path): Path
  {
    if p == [] then [] else p[..|p| - 1]
  }

  /**
   * An absolute name replaces the base; any other name extends it; a plain
   * name adds exactly itself as the last component.
   */
  lemma JoinShape(base: Path, name: string)
    ensures IsAbsolute(name) ==> Join(base, name) == ToPath(name)
    ensures !IsAbsolute(name) ==> |base| <= |Join(base, name)| && Join(base, name)[..|base|] == base
    ensures PlainName(name) ==> Join(base, name) == base + [name]
  {
    if PlainName(name) {
      PlainNameIsOneComponent(name);
    }
  }

  /** The parent drops the last component; the root stays the root. */
  lemma ParentShape(p: Path)
    ensures p == [] ==> Parent(p) == []
    ensures p != [] ==> Parent(p) + [p[|p| - 1]] == p
  {
  }

  /** A name that is exactly one path component. */
  predicate PlainName(n: string)
  {
    n != "" && n != "." && '/' !in n
  }

  lemma PlainNameIsOneComponent(n: string)
    requires PlainName(n)
    ensures ToPath(n) == [n]
  {
    SplitWithoutSeparator(n, '/');
  }

  /**
   * Gluing a name onto a directory string that ends in '/' names the same
   * path as pathlib's join of the two.
   */
  lemma ConcatenationIsJoin(dir: string, name: string)
    requires EndsWithSeparator(dir) && !IsAbsolute(name)
    ensures ToPath(dir + name) == Join(ToPath(dir), name)
  {
    var d := dir[..|dir| - 1];
    var pd, pn := Split(d, '/'), Split(name, '/');
    assert dir == d + ['/'] + "";
    assert dir + name == d + ['/'] + name;
    SplitAround(d, name, '/');
    SplitAround(d, "", '/');
    assert Split("", '/') == [""];
    assert Clean([""]) == [];
    CleanAppend(pd, pn);
    CleanAppend(pd, [""]);
    assert ToPath(dir) == Clean(pd);
  }

  /** Without the trailing separator the name is glued onto the last component instead. */
  lemma ConcatenationWithoutSeparator()
    ensures ToPath("/in" + "x.csv") != Join(ToPath("/in"), "x.csv")
  {
    RootedPlainName("in");
    RootedPlainName("inx.csv");
    assert "/in" + "x.csv" == "/" + "inx.csv";
    PlainNameIsOneComponent("x.csv");
    assert Join(["in"], "x.csv") == ["in", "x.csv"];
  }

  /** "/" followed by a plain name is the one-component path of that name. */
  lemma RootedPlainName(n: string)
    requires PlainName(n)
    ensures ToPath("/" + n) == [n]
  {
    SplitWithoutSeparator(n, '/');
    assert "/" + n == [] + ['/'] + n;
    SplitAround([], n, '/');
    assert Split([], '/') == [""];
    var parts := [""] + [n];
    assert Split("/" + n, '/') == parts;
    assert parts[1..] == [n] && [n][1..] == [];
    assert Clean(parts) == Clean([n]) == [n];
  }
}
