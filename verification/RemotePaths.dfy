/**
 Device paths are strings of components separated by '/'.

 Rust compares `String`s byte by byte.  UTF-8 keeps code point order, so comparing
 character by character gives the same order.
 */
module RemotePaths {

  /** The order `String::cmp` gives, as "left is not after right". */
  predicate Before(a: string, b: string)
    decreases |a|
  {
    a == "" || (b != "" && (a[0] < b[0] || (a[0] == b[0] && Before(a[1..], b[1..]))))
  }

  /** One path stands before another if it is a prefix of it, or has the smaller character where they first differ. */
  lemma {:induction false} BeforeIsFirstDifference(a: string, b: string)
    ensures Before(a, b) <==> a <= b || exists k :: 0 <= k < |a| && k < |b| && a[..k] == b[..k] && a[k] < b[k]
    decreases |a|
  {
    if a != "" && b != "" {
      if a[0] == b[0] {
        BeforeIsFirstDifference(a[1..], b[1..]);
        SameHead(a, b);
      } else {
        assert a[..0] == b[..0];
        forall k | 0 < k < |a| && k < |b| ensures a[..k] != b[..k] {
          assert a[..k][0] != b[..k][0];
        }
      }
    }
  }

  lemma SameHead(a: string, b: string)
    requires a != "" && b != "" && a[0] == b[0]
    ensures a[1..] <= b[1..] <==> a <= b
    ensures (exists k :: 0 <= k < |a[1..]| && k < |b[1..]| && a[1..][..k] == b[1..][..k] && a[1..][k] < b[1..][k])
       <==> exists k :: 0 <= k < |a| && k < |b| && a[..k] == b[..k] && a[k] < b[k]
  {
    if k :| 0 <= k < |a[1..]| && k < |b[1..]| && a[1..][..k] == b[1..][..k] && a[1..][k] < b[1..][k] {
      assert a[..k + 1] == [a[0]] + a[1..][..k] && b[..k + 1] == [b[0]] + b[1..][..k];
      assert a[k + 1] < b[k + 1];
    }
    if k :| 0 <= k < |a| && k < |b| && a[..k] == b[..k] && a[k] < b[k] {
      assert k > 0;
      assert a[1..][..k - 1] == a[..k][1..] && b[1..][..k - 1] == b[..k][1..];
      assert a[1..][k - 1] < b[1..][k - 1];
    }
  }

  lemma {:induction false} BeforeTotal(a: string, b: string)
    ensures Before(a, b) || Before(b, a)
    decreases |a|
  {
    if a != "" && b != "" && a[0] == b[0] {
      BeforeTotal(a[1..], b[1..]);
    }
  }

  lemma {:induction false} BeforeTransitive(a: string, b: string, c: string)
    requires Before(a, b) && Before(b, c)
    ensures Before(a, c)
    decreases |a|
  {
    if a != "" && a[0] == b[0] && b[0] == c[0] {
      BeforeTransitive(a[1..], b[1..], c[1..]);
    }
  }

  lemma {:induction false} BeforeAntisymmetric(a: string, b: string)
    requires Before(a, b) && Before(b, a)
    ensures a == b
    decreases |a|
  {
    if a != "" {
      BeforeAntisymmetric(a[1..], b[1..]);
      assert a == [a[0]] + a[1..] && b == [b[0]] + b[1..];
    }
  }

  /** Everything that extends a path sorts after it: why sorting puts directories first. */
  lemma {:induction false} PrefixBefore(a: string, b: string)
    requires a <= b
    ensures Before(a, b)
    decreases |a|
  {
    if a != "" {
      PrefixBefore(a[1..], b[1..]);
    }
  }

  /** `parts.join("/")`. */
  function Join(parts: seq<string>): (joined: string)
  {
    if parts == [] then ""
    else if |parts| == 1 then parts[0]
    else Join(parts[..|parts| - 1]) + "/" + parts[|parts| - 1]
  }

  predicate Plain(part: string) {
    part != "" && '/' !in part
  }

  predicate AllPlain(parts: seq<string>) {
    forall i :: 0 <= i < |parts| ==> Plain(parts[i])
  }

  lemma NoSlashAfter(a: string, x: string, k: int)
    requires '/' !in x && |a| < k < |a + "/" + x|
    ensures (a + "/" + x)[k] != '/'
  {
    assert (a + "/" + x)[k] == x[k - |a| - 1];
  }

  lemma {:induction false} SplitAtLastSlash(a: string, x: string, b: string, y: string)
    requires '/' !in x && '/' !in y
    requires a + "/" + x == b + "/" + y
    ensures a == b && x == y
  {
    var s, t := a + "/" + x, b + "/" + y;
    assert s[|a|] == '/' && t[|b|] == '/';
    if |a| < |b| {
      NoSlashAfter(a, x, |b|);
    } else if |b| < |a| {
      NoSlashAfter(b, y, |a|);
    }
    assert a == s[..|a|] && b == t[..|b|];
    assert x == s[|a| + 1..] && y == t[|b| + 1..];
  }

  lemma JoinHasSlash(parts: seq<string>)
    requires |parts| > 1
    ensures '/' in Join(parts)
  {
    assert Join(parts)[|Join(parts[..|parts| - 1])|] == '/';
  }

  /** Two lists of plain names that join to one string are one list. */
  lemma {:induction false} JoinInjective(p: seq<string>, q: seq<string>)
    requires p != [] && q != [] && AllPlain(p) && AllPlain(q)
    requires Join(p) == Join(q)
    ensures p == q
    decreases |p|
  {
    var m, n := |p| - 1, |q| - 1;
    assert Plain(p[m]) && Plain(q[n]);
    if m > 0 { JoinHasSlash(p); }
    if n > 0 { JoinHasSlash(q); }
    if m > 0 && n > 0 {
      SplitAtLastSlash(Join(p[..m]), p[m], Join(q[..n]), q[n]);
      JoinInjective(p[..m], q[..n]);
    }
    assert p == p[..m] + [p[m]] && q == q[..n] + [q[n]];
  }

  /** `path` is `root` itself or lies below it. */
  predicate Within(root: string, path: string) {
    path == root || root + "/" <= path
  }

  lemma WithinTransitive(a: string, b: string, c: string)
    requires Within(a, b) && Within(b, c)
    ensures Within(a, c)
  {
    if a != b && b != c {
      assert a + "/" <= b <= b + "/" <= c;
    }
  }

  /** The directory a path names its entry in; none for a path with one component. */
  function Parent(path: string): (parent: string)
    requires '/' in path
    ensures |parent| < |path|
  {
    if path[|path| - 1] == '/' then path[..|path| - 1]
    else
      assert path == path[..|path| - 1] + [path[|path| - 1]];
      Parent(path[..|path| - 1])
  }

  lemma {:induction false} ParentOf(directory: string, name: string)
    requires '/' !in name
    ensures '/' in directory + "/" + name
    ensures Parent(directory + "/" + name) == directory
    decreases |name|
  {
    var path := directory + "/" + name;
    assert path[|directory|] == '/';
    if name == "" {
      assert path[..|path| - 1] == directory;
    } else {
      var shorter := name[..|name| - 1];
      assert path[..|path| - 1] == directory + "/" + shorter;
      assert path[|path| - 1] == name[|name| - 1];
      ParentOf(directory, shorter);
    }
  }

  lemma {:induction false} ParentIsPrefix(path: string)
    requires '/' in path
    ensures Parent(path) + "/" <= path
    decreases |path|
  {
    if path[|path| - 1] != '/' {
      assert path == path[..|path| - 1] + [path[|path| - 1]];
      ParentIsPrefix(path[..|path| - 1]);
    }
  }

  lemma WithinFromParent(root: string, path: string)
    requires '/' in path && Within(root, Parent(path))
    ensures Within(root, path)
  {
    ParentIsPrefix(path);
    WithinTransitive(root, Parent(path), path);
  }

  /** A path strictly below `root` has a parent that is still within `root`. */
  lemma {:induction false} ParentWithin(root: string, path: string)
    requires root + "/" <= path
    ensures '/' in path
    ensures Within(root, Parent(path))
    decreases |path|
  {
    assert path[|root|] == '/';
    var last := |path| - 1;
    if path[last] == '/' {
      if last == |root| {
        assert path[..last] == root;
      } else {
        assert root + "/" <= path[..last];
      }
    } else {
      assert last > |root|;
      assert root + "/" <= path[..last];
      ParentWithin(root, path[..last]);
    }
  }
}
