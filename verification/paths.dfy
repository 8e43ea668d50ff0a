/** Go's `path/filepath` on a Unix host ('/' separator, no volume names):
    `Clean`, `Join`, `Dir`, `Base` and `Ext`. The core uses them to build
    album and output directories, to decide whether a path sits directly in
    a root directory, and to classify files by extension. */
module Paths {
  import opened Runes

  predicate NoSlash(s: string) {
    forall i | 0 <= i < |s| :: s[i] != '/'
  }

  /** A single directory entry name: what `os.DirEntry.Name` yields. */
  predicate SimpleName(name: string) {
    |name| > 0 && NoSlash(name) && name != "." && name != ".."
  }

  predicate Rooted(p: string) {
    |p| > 0 && p[0] == '/'
  }

  /** `Clean`'s treatment of one path element: empty and "." elements vanish,
      ".." removes the previous element unless that is itself "..", and at the
      root ".." is dropped. */
  function CleanStep(stack: seq<string>, elem: string, rooted: bool): seq<string> {
    if elem == "" || elem == "." then stack
    else if elem == ".." then
      if |stack| > 0 && stack[|stack| - 1] != ".." then stack[..|stack| - 1]
      else if rooted then stack
      else stack + [".."]
    else stack + [elem]
  }

  function CleanElems(stack: seq<string>, elems: seq<string>, rooted: bool): seq<string>
    decreases |elems|
  {
    if |elems| == 0 then stack
    else CleanElems(CleanStep(stack, elems[0], rooted), elems[1..], rooted)
  }

  /** Spelling of a processed element stack: a rooted path starts with '/',
      and an empty unrooted path is ".". */
  function Render(stack: seq<string>, rooted: bool): string {
    if rooted then "/" + Join(stack, "/")
    else if |stack| == 0 then "."
    else Join(stack, "/")
  }

  /** The element stack of a clean path: no empty or "." element, no
      separator inside an element, ".." only as a leading run and never
      under the root. */
  predicate Normal(stack: seq<string>, rooted: bool) {
    && (forall i | 0 <= i < |stack| :: stack[i] != "" && stack[i] != "." && NoSlash(stack[i]))
    && (forall i, j | 0 <= i < j < |stack| :: stack[j] == ".." ==> stack[i] == "..")
    && (rooted ==> forall i | 0 <= i < |stack| :: stack[i] != "..")
  }

  function CleanStack(p: string): seq<string> {
    CleanElems([], Split(p, '/'), Rooted(p))
  }

  /** `filepath.Clean`: the shortest lexically equivalent path. */
  function Clean(p: string): string {
    Render(CleanStack(p), Rooted(p))
  }

  /** `filepath.Join(a, b)`: the non-empty elements joined by '/' and cleaned,
      or "" when both are empty. */
  function JoinPath(a: string, b: string): string {
    if a != "" then Clean(a + "/" + b)
    else if b != "" then Clean(b)
    else ""
  }

  /** `filepath.Dir`: everything up to the last separator, cleaned. */
  function Dir(p: string): string {
    Clean(p[..LastIndexOf(p, '/') + 1])
  }

  function TrimTrailingSlashes(p: string): (q: string)
    ensures |q| <= |p| && q == p[..|q|]
    ensures |q| > 0 ==> q[|q| - 1] != '/'
    ensures forall i | |q| <= i < |p| :: p[i] == '/'
    decreases |p|
  {
    if |p| > 0 && p[|p| - 1] == '/' then TrimTrailingSlashes(p[..|p| - 1]) else p
  }

  /** `filepath.Base`: the last element after trailing separators are
      removed; "." for the empty path and "/" for a path of separators. */
  function Base(p: string): (b: string)
    ensures |b| > 0
    ensures b == "/" || NoSlash(b)
  {
    if |p| == 0 then "."
    else
      var q := TrimTrailingSlashes(p);
      var b := q[LastIndexOf(q, '/') + 1..];
      if |b| == 0 then "/" else b
  }

  /** `filepath.Ext`: the suffix from the last '.' of the last element, or
      "" when that element has no '.'. */
  function Ext(p: string): string
    decreases |p|
  {
    if |p| == 0 then ""
    else
      var c := p[|p| - 1];
      if c == '/' then ""
      else if c == '.' then "."
      else
        var e := Ext(p[..|p| - 1]);
        if e == "" then "" else e + [c]
  }

  /** What `Ext` returns: a suffix of the path that starts with its only '.'
      and holds no separator, or "" exactly when the last element has no '.'. */
  lemma ExtShape(p: string)
    ensures var e := Ext(p);
      && (e != "" ==> e[0] == '.' && HasSuffix(p, e))
      && (e != "" ==> forall k | 1 <= k < |e| :: e[k] != '.' && e[k] != '/')
      && (e == "" <==> forall k | LastIndexOf(p, '/') < k < |p| :: p[k] != '.')
  {
    ExtSuffix(p);
    ExtEmpty(p);
  }

  lemma {:induction false} ExtSuffix(p: string)
    ensures var e := Ext(p);
      && (e != "" ==> e[0] == '.' && HasSuffix(p, e))
      && (e != "" ==> forall k | 1 <= k < |e| :: e[k] != '.' && e[k] != '/')
    decreases |p|
  {
    if |p| > 0 && p[|p| - 1] != '/' && p[|p| - 1] != '.' {
      var q := p[..|p| - 1];
      var c := p[|p| - 1];
      ExtSuffix(q);
      var e := Ext(q);
      if e != "" {
        assert p[|p| - |e + [c]|..] == q[|q| - |e|..] + [c];
        assert forall k | 1 <= k < |e| :: (e + [c])[k] == e[k];
      }
    }
  }

  lemma {:induction false} ExtEmpty(p: string)
    ensures Ext(p) == "" <==> forall k | LastIndexOf(p, '/') < k < |p| :: p[k] != '.'
    decreases |p|
  {
    if |p| > 0 && p[|p| - 1] != '/' && p[|p| - 1] != '.' {
      var q := p[..|p| - 1];
      ExtEmpty(q);
      assert LastIndexOf(p, '/') == LastIndexOf(q, '/');
      assert forall k | LastIndexOf(p, '/') < k < |p| - 1 :: p[k] == q[k];
    }
  }

  // ---------------------------------------------------------------------
  // Splitting and joining on '/'

  lemma {:induction false} JoinSnoc(ws: seq<string>, w: string, sep: string)
    requires |ws| > 0
    ensures Join(ws + [w], sep) == Join(ws, sep) + sep + w
    decreases |ws|
  {
    if |ws| > 1 {
      assert (ws + [w])[1..] == ws[1..] + [w];
      JoinSnoc(ws[1..], w, sep);
    }
  }

  lemma SplitJoinSlash(ws: seq<string>)
    requires |ws| > 0
    requires forall k | 0 <= k < |ws| :: NoSlash(ws[k])
    ensures Split(Join(ws, "/"), '/') == ws
  {
    assert "/" == ['/'];
    assert forall k | 0 <= k < |ws| :: forall i | 0 <= i < |ws[k]| :: ws[k][i] != '/';
    SplitJoin(ws, '/');
  }

  lemma JoinStartsWith(ws: seq<string>)
    requires |ws| > 0 && |ws[0]| > 0
    ensures |Join(ws, "/")| > 0 && Join(ws, "/")[0] == ws[0][0]
  {
  }

  // ---------------------------------------------------------------------
  // The element fold

  lemma {:induction false} CleanElemsAppend(stack: seq<string>, xs: seq<string>, ys: seq<string>, rooted: bool)
    ensures CleanElems(stack, xs + ys, rooted) == CleanElems(CleanElems(stack, xs, rooted), ys, rooted)
    decreases |xs|
  {
    if |xs| > 0 {
      assert (xs + ys)[0] == xs[0];
      assert (xs + ys)[1..] == xs[1..] + ys;
      CleanElemsAppend(CleanStep(stack, xs[0], rooted), xs[1..], ys, rooted);
    } else {
      assert xs + ys == ys;
    }
  }

  lemma CleanStepNormal(stack: seq<string>, elem: string, rooted: bool)
    requires Normal(stack, rooted) && NoSlash(elem)
    ensures Normal(CleanStep(stack, elem, rooted), rooted)
  {
    var r := CleanStep(stack, elem, rooted);
    if elem != "" && elem != "." && elem == ".." {
      if |stack| > 0 && stack[|stack| - 1] != ".." {
        assert r == stack[..|stack| - 1];
      } else if !rooted {
        assert r == stack + [".."];
        forall i, j | 0 <= i < j < |r| && r[j] == ".." ensures r[i] == ".." {
          if j < |stack| {
            assert r[j] == stack[j];
          } else {
            assert r[i] == stack[i];
            if |stack| > 0 {
              assert stack[|stack| - 1] == "..";
            }
          }
        }
      }
    }
  }

  lemma {:induction false} CleanElemsNormal(stack: seq<string>, elems: seq<string>, rooted: bool)
    requires Normal(stack, rooted)
    requires forall k | 0 <= k < |elems| :: NoSlash(elems[k])
    ensures Normal(CleanElems(stack, elems, rooted), rooted)
    decreases |elems|
  {
    if |elems| > 0 {
      CleanStepNormal(stack, elems[0], rooted);
      CleanElemsNormal(CleanStep(stack, elems[0], rooted), elems[1..], rooted);
    }
  }

  /** A clean stack passes through the fold unchanged. */
  lemma {:induction false} CleanElemsOfNormal(acc: seq<string>, st: seq<string>, rooted: bool)
    requires Normal(acc + st, rooted)
    ensures CleanElems(acc, st, rooted) == acc + st
    decreases |st|
  {
    if |st| == 0 {
      assert acc + st == acc;
    } else {
      var all := acc + st;
      assert all[|acc|] == st[0];
      assert CleanStep(acc, st[0], rooted) == acc + [st[0]] by {
        if st[0] == ".." && |acc| > 0 {
          assert all[|acc| - 1] == acc[|acc| - 1];
        }
      }
      assert (acc + [st[0]]) + st[1..] == all;
      CleanElemsOfNormal(acc + [st[0]], st[1..], rooted);
    }
  }

  // ---------------------------------------------------------------------
  // Properties of Clean

  /** Every path cleans to a normal element stack, and the result is never empty. */
  lemma CleanIsNormal(p: string)
    ensures Normal(CleanStack(p), Rooted(p))
    ensures |Clean(p)| > 0
  {
    SplitLacks(p, '/');
    CleanElemsNormal([], Split(p, '/'), Rooted(p));
    var st := CleanStack(p);
    if !Rooted(p) && |st| > 0 {
      JoinStartsWith(st);
    }
  }

  /** Reading a rendered normal stack gives the stack and the rootedness back. */
  lemma RenderReadsBack(st: seq<string>, rooted: bool)
    requires Normal(st, rooted)
    ensures Rooted(Render(st, rooted)) == rooted
    ensures CleanStack(Render(st, rooted)) == st
  {
    if rooted && |st| == 0 {
      RenderRoot();
    } else if rooted {
      RenderRooted(st);
    } else if |st| == 0 {
      RenderDot();
    } else {
      RenderRelative(st);
    }
  }

  lemma RenderRoot()
    ensures Rooted(Render([], true)) && CleanStack(Render([], true)) == []
  {
    assert Render([], true) == "/";
    assert "/" == "" + ['/'] + "";
    SplitCons("", "", '/');
    assert Split("", '/') == [""];
    assert CleanElems([], ["", ""], true) == [];
  }

  lemma RenderDot()
    ensures !Rooted(Render([], false)) && CleanStack(Render([], false)) == []
  {
    assert Render([], false) == ".";
    assert Split(".", '/') == ["."] by { assert IndexOf(".", '/') < 0; }
  }

  lemma RenderRooted(st: seq<string>)
    requires Normal(st, true) && |st| > 0
    ensures Rooted(Render(st, true)) && CleanStack(Render(st, true)) == st
  {
    var p := Render(st, true);
    assert [] + st == st;
    assert p == "" + ['/'] + Join(st, "/");
    SplitCons("", Join(st, "/"), '/');
    SplitJoinSlash(st);
    CleanElemsAppend([], [""], st, true);
    CleanElemsOfNormal([], st, true);
  }

  lemma RenderRelative(st: seq<string>)
    requires Normal(st, false) && |st| > 0
    ensures !Rooted(Render(st, false)) && CleanStack(Render(st, false)) == st
  {
    assert [] + st == st;
    JoinStartsWith(st);
    SplitJoinSlash(st);
    CleanElemsOfNormal([], st, false);
  }

  /** `Clean` is idempotent: a clean path is its own clean form. */
  lemma CleanIdempotent(p: string)
    ensures Clean(Clean(p)) == Clean(p)
  {
    CleanIsNormal(p);
    RenderReadsBack(CleanStack(p), Rooted(p));
  }

  /** A trailing separator does not change the clean form. */
  lemma CleanTrailingSlash(x: string)
    requires |x| > 0
    ensures Clean(x + "/") == Clean(x)
  {
    assert x + "/" == x + ['/'] + "";
    SplitAppend(x, "", '/');
    assert Split("", '/') == [""];
    CleanElemsAppend([], Split(x, '/'), [""], Rooted(x));
  }

  // ---------------------------------------------------------------------
  // Children of a directory

  /** What a rendered stack looks like before one more element: the
      rendering of the stack followed by a separator, or nothing for ".". */
  function ParentPrefix(st: seq<string>, rooted: bool): string {
    (if rooted then "/" else "") + (if |st| == 0 then "" else Join(st, "/") + "/")
  }

  lemma RenderChild(st: seq<string>, rooted: bool, name: string)
    ensures Render(st + [name], rooted) == ParentPrefix(st, rooted) + name
  {
    if |st| > 0 {
      JoinSnoc(st, name, "/");
    } else {
      assert st + [name] == [name];
    }
  }

  /** Joining a clean directory with an entry name appends one element. */
  lemma JoinChildStack(dir: string, name: string)
    requires dir != "" && Clean(dir) == dir
    requires SimpleName(name)
    ensures JoinPath(dir, name) == Render(CleanStack(dir) + [name], Rooted(dir))
  {
    var p := dir + "/" + name;
    assert p == dir + ['/'] + name;
    SplitAppend(dir, name, '/');
    assert Split(name, '/') == [name] by { assert IndexOf(name, '/') < 0; }
    CleanElemsAppend([], Split(dir, '/'), [name], Rooted(dir));
    assert Rooted(p) == Rooted(dir);
  }

  /** The prefix before a child element cleans back to the parent. */
  lemma CleanParentPrefix(st: seq<string>, rooted: bool)
    requires Normal(st, rooted)
    ensures Clean(ParentPrefix(st, rooted)) == Render(st, rooted)
  {
    var pre := ParentPrefix(st, rooted);
    if |st| == 0 {
      if rooted {
        assert pre == "/" + "";
        assert Split("/", '/') == ["", ""] by {
          SplitCons("", "", '/');
          assert "" + ['/'] + "" == "/";
        }
        assert CleanElems([], ["", ""], true) == [];
      }
    } else {
      var p := Render(st, rooted);
      assert pre == p + "/";
      RenderReadsBack(st, rooted);
      CleanTrailingSlash(p);
      CleanIdempotentRender(st, rooted);
    }
  }

  lemma CleanIdempotentRender(st: seq<string>, rooted: bool)
    requires Normal(st, rooted)
    ensures Clean(Render(st, rooted)) == Render(st, rooted)
  {
    RenderReadsBack(st, rooted);
  }

  lemma LastSlashOfChild(pre: string, name: string)
    requires NoSlash(name) && |name| > 0
    requires |pre| == 0 || pre[|pre| - 1] == '/'
    ensures LastIndexOf(pre + name, '/') == |pre| - 1
  {
    var s := pre + name;
    if |pre| > 0 {
      assert s[|pre| - 1] == '/';
    }
  }

  /** `Dir` and `Base` take apart what `Join` builds: joining a clean
      directory with an entry name gives a path whose parent is that
      directory and whose last element is that name. */
  lemma DirBaseOfJoin(dir: string, name: string)
    requires dir != "" && Clean(dir) == dir
    requires SimpleName(name)
    ensures Dir(JoinPath(dir, name)) == dir
    ensures Base(JoinPath(dir, name)) == name
  {
    var st := CleanStack(dir);
    var rooted := Rooted(dir);
    CleanIsNormal(dir);
    JoinChildStack(dir, name);
    RenderChild(st, rooted, name);
    var pre := ParentPrefix(st, rooted);
    var p := pre + name;
    assert JoinPath(dir, name) == p;
    LastSlashOfChild(pre, name);
    assert p[..|pre|] == pre;
    CleanParentPrefix(st, rooted);
    assert TrimTrailingSlashes(p) == p;
    assert p[|pre|..] == name;
  }

  /** A path two levels below a clean directory does not have it as parent. */
  lemma DirOfGrandchild(dir: string, sub: string, name: string)
    requires dir != "" && Clean(dir) == dir
    requires SimpleName(sub) && SimpleName(name)
    ensures Dir(JoinPath(JoinPath(dir, sub), name)) != dir
  {
    var st := CleanStack(dir);
    var rooted := Rooted(dir);
    var child := JoinPath(dir, sub);
    CleanIsNormal(dir);
    JoinChildStack(dir, sub);
    assert Normal(st + [sub], rooted);
    CleanIdempotentRender(st + [sub], rooted);
    assert child != "" by { CleanIsNormal(child); }
    DirBaseOfJoin(child, name);
    RenderChild(st, rooted, sub);
    if |st| == 0 && !rooted {
      assert dir == ".";
      assert child == sub;
    } else {
      assert |child| > |dir| by {
        if |st| > 0 {
          assert |ParentPrefix(st, rooted)| == |dir| + 1;
        }
      }
    }
  }

  /** The extension of a path is the extension of its last element. */
  lemma {:induction false} ExtOfChild(pre: string, name: string)
    requires |pre| == 0 || pre[|pre| - 1] == '/'
    requires NoSlash(name)
    ensures Ext(pre + name) == Ext(name)
    decreases |name|
  {
    if |name| == 0 {
      assert pre + name == pre;
    } else {
      var p := pre + name;
      var n := name[..|name| - 1];
      assert p[|p| - 1] == name[|name| - 1];
      assert p[..|p| - 1] == pre + n;
      ExtOfChild(pre, n);
    }
  }

  /** Joining a clean directory with an entry name keeps the name's extension. */
  lemma ExtOfJoin(dir: string, name: string)
    requires dir != "" && Clean(dir) == dir
    requires SimpleName(name)
    ensures Ext(JoinPath(dir, name)) == Ext(name)
    ensures Base(JoinPath(dir, name)) == name
  {
    var st := CleanStack(dir);
    JoinChildStack(dir, name);
    RenderChild(st, Rooted(dir), name);
    ExtOfChild(ParentPrefix(st, Rooted(dir)), name);
    DirBaseOfJoin(dir, name);
  }

  /** What `Join` returns from a non-empty directory is clean and not empty. */
  lemma JoinIsClean(dir: string, name: string)
    requires dir != ""
    ensures JoinPath(dir, name) != "" && Clean(JoinPath(dir, name)) == JoinPath(dir, name)
  {
    CleanIsNormal(dir + "/" + name);
    CleanIdempotent(dir + "/" + name);
  }
}
