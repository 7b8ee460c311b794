/** Go's `filepath.Base` on '/'-separated paths (Unix: no volume names). */
module Paths {

  /** Drops every '/' at the end of `s`. */
  function TrimTrailingSlashes(s: string): string
    decreases |s|
  {
    if s != [] && s[|s| - 1] == '/' then TrimTrailingSlashes(s[..|s| - 1]) else s
  }

  /** The longest suffix of `s` that holds no '/'. */
  function LastElement(s: string): string
    decreases |s|
  {
    if s == [] || s[|s| - 1] == '/' then [] else LastElement(s[..|s| - 1]) + [s[|s| - 1]]
  }

  /** The last element of `path`: trailing slashes are removed first; an empty path
      gives ".", a path of slashes only gives "/". */
  function Base(path: string): string
  {
    if path == [] then "."
    else
      var last := LastElement(TrimTrailingSlashes(path));
      if last == [] then "/" else last
  }

  /** Trimming keeps a prefix that is empty or ends in another character than '/',
      and drops only '/'. */
  lemma {:induction false} TrimTrailingSlashesKeepsPrefix(s: string)
    ensures |TrimTrailingSlashes(s)| <= |s| && TrimTrailingSlashes(s) == s[..|TrimTrailingSlashes(s)|]
    ensures TrimTrailingSlashes(s) == [] || TrimTrailingSlashes(s)[|TrimTrailingSlashes(s)| - 1] != '/'
    ensures forall i :: |TrimTrailingSlashes(s)| <= i < |s| ==> s[i] == '/'
    decreases |s|
  {
    if s != [] && s[|s| - 1] == '/' {
      TrimTrailingSlashesKeepsPrefix(s[..|s| - 1]);
    }
  }

  /** The last element is a suffix of `s`. */
  lemma {:induction false} LastElementIsSuffix(s: string)
    ensures |LastElement(s)| <= |s| && LastElement(s) == s[|s| - |LastElement(s)|..]
    decreases |s|
  {
    if s != [] && s[|s| - 1] != '/' {
      var init := s[..|s| - 1];
      LastElementIsSuffix(init);
      var w := LastElement(init);
      assert s == init + [s[|s| - 1]];
      assert s[|s| - |w| - 1..] == init[|init| - |w|..] + [s[|s| - 1]];
    }
  }

  /** The last element is a slash-free suffix that starts the string or follows a '/'. */
  lemma {:induction false} LastElementIsMaximalSuffix(s: string)
    ensures |LastElement(s)| <= |s| && LastElement(s) == s[|s| - |LastElement(s)|..]
    ensures '/' !in LastElement(s)
    ensures |LastElement(s)| < |s| ==> s[|s| - |LastElement(s)| - 1] == '/'
    decreases |s|
  {
    LastElementIsSuffix(s);
    if s != [] && s[|s| - 1] != '/' {
      var init := s[..|s| - 1];
      LastElementIsMaximalSuffix(init);
      assert LastElement(s) == LastElement(init) + [s[|s| - 1]];
    }
  }

  /** Base is never empty and holds a '/' only when it is "/". */
  lemma BaseIsOneElement(path: string)
    ensures Base(path) != []
    ensures '/' in Base(path) ==> Base(path) == "/"
  {
    if path != [] {
      LastElementIsMaximalSuffix(TrimTrailingSlashes(path));
    }
  }

  /** `elem` sits in `path` at index `j` as its last element: it starts the path or
      follows a '/', and nothing but '/' comes after it. */
  predicate ElementAt(path: string, elem: string, j: int)
  {
    && 0 <= j && j + |elem| <= |path|
    && path[j..j + |elem|] == elem
    && (j == 0 || path[j - 1] == '/')
    && forall i :: j + |elem| <= i < |path| ==> path[i] == '/'
  }

  /** A prefix of `s` ending in a character other than '/' and followed only by
      '/' is what trimming leaves. */
  lemma TrimTrailingSlashesAt(s: string, k: int)
    requires 0 < k <= |s| && s[k - 1] != '/'
    requires forall i :: k <= i < |s| ==> s[i] == '/'
    ensures TrimTrailingSlashes(s) == s[..k]
  {
    TrimTrailingSlashesKeepsPrefix(s);
  }

  /** A slash-free suffix of `s` that starts `s` or follows a '/' is its last element. */
  lemma LastElementAt(s: string, w: string)
    requires |w| <= |s| && s[|s| - |w|..] == w && '/' !in w
    requires |w| < |s| ==> s[|s| - |w| - 1] == '/'
    ensures LastElement(s) == w
  {
    var r := LastElement(s);
    LastElementIsMaximalSuffix(s);
    if |r| > |w| {
      assert false;
    }
    if |r| < |w| {
      assert false;
    }
  }

  /** Whatever element Base yields sits at the end of the path. */
  lemma BaseFindsElement(path: string, elem: string)
    requires elem != [] && elem != "." && '/' !in elem
    requires Base(path) == elem
    ensures ElementAt(path, elem, |TrimTrailingSlashes(path)| - |elem|)
  {
    var t := TrimTrailingSlashes(path);
    var last := LastElement(t);
    TrimTrailingSlashesKeepsPrefix(path);
    LastElementIsMaximalSuffix(t);
    assert path != [] && last != [];
    assert last == elem;
    var j := |t| - |elem|;
    assert path[j..j + |elem|] == t[j..] == elem;
    assert j == 0 || path[j - 1] == t[j - 1] == '/';
    assert forall i :: j + |elem| <= i < |path| ==> path[i] == '/';
  }

  /** An element at the end of the path is what Base yields. */
  lemma ElementIsBase(path: string, elem: string, j: int)
    requires elem != [] && '/' !in elem
    requires ElementAt(path, elem, j)
    ensures Base(path) == elem
  {
    var k := j + |elem|;
    assert path[k - 1] == elem[|elem| - 1];
    TrimTrailingSlashesAt(path, k);
    var t := path[..k];
    assert t[k - |elem|..] == elem;
    LastElementAt(t, elem);
  }

  /** Base yields a given element (neither empty, nor ".", nor holding '/') exactly
      when the path ends in that element, possibly followed by slashes. */
  lemma BaseIsLastElement(path: string, elem: string)
    requires elem != [] && elem != "." && '/' !in elem
    ensures Base(path) == elem <==> exists j :: ElementAt(path, elem, j)
  {
    if Base(path) == elem {
      BaseFindsElement(path, elem);
    }
    if exists j :: ElementAt(path, elem, j) {
      var j :| ElementAt(path, elem, j);
      ElementIsBase(path, elem, j);
    }
  }

  /** Trailing slashes do not change the base of a non-empty path. */
  lemma BaseIgnoresTrailingSlash(path: string)
    requires path != []
    ensures Base(path + "/") == Base(path)
  {
  }
}
