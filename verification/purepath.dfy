/**
 POSIX path helpers with the meaning Python gives them: `str.rfind`, the
 final component `PurePath.name`, the extension `PurePath.suffix`, and
 `os.path.join` of a directory with a relative path.
 */
module PurePath {

  const SEP: char := '/'
  const DOT: char := '.'

  /** `s.rfind(c)`: the last index holding `c`, or -1 when there is none. */
  function LastIndexOf(s: string, c: char): (r: int)
    ensures -1 <= r < |s|
    ensures r >= 0 ==> s[r] == c
    decreases |s|
  {
    if |s| == 0 then -1
    else if s[|s| - 1] == c then |s| - 1
    else LastIndexOf(s[..|s| - 1], c)
  }

  /** No `c` follows the index `LastIndexOf` returns. */
  lemma {:induction false} LastIndexOfIsLast(s: string, c: char)
    ensures forall i | LastIndexOf(s, c) < i < |s| :: s[i] != c
    decreases |s|
  {
    if |s| > 0 && s[|s| - 1] != c {
      LastIndexOfIsLast(s[..|s| - 1], c);
    }
  }

  /** The final component of a path: what follows its last separator. */
  function Name(p: string): string {
    p[LastIndexOf(p, SEP) + 1..]
  }

  /** `Name(p)` holds no separator, ends `p`, and starts right after a
      separator or at the start of `p`. */
  lemma NameIsFinalComponent(p: string)
    ensures var r := Name(p);
            && SEP !in r
            && |r| <= |p| && p[|p| - |r|..] == r
            && (|r| == |p| || p[|p| - |r| - 1] == SEP)
  {
    LastIndexOfIsLast(p, SEP);
  }

  /** Index `i` of `n` holds the dot that starts a suffix: the last dot,
      neither the first character nor the last one. */
  predicate IsSuffixDot(n: string, i: int) {
    0 < i < |n| - 1 && n[i] == DOT && DOT !in n[i + 1..]
  }

  /** `PurePath(p).suffix`: the last `.`-segment of the final component,
      or "" when that component has no dot, starts with its only dot
      (".bashrc") or ends with a dot ("file."). */
  function Suffix(p: string): string {
    var n := Name(p);
    var i := LastIndexOf(n, DOT);
    if 0 < i < |n| - 1 then n[i..] else ""
  }

  /** The suffix is non-empty exactly when the final component has a
      suffix dot, and is then the segment starting at that dot: a dot
      followed by at least one character and no further dot. */
  lemma {:induction false} SuffixIsLastDotSegment(p: string)
    ensures Suffix(p) != "" <==> exists i :: IsSuffixDot(Name(p), i)
    ensures forall i :: IsSuffixDot(Name(p), i) ==> Suffix(p) == Name(p)[i..]
    ensures Suffix(p) != "" ==>
              2 <= |Suffix(p)| < |Name(p)| && Suffix(p)[0] == DOT && DOT !in Suffix(p)[1..]
  {
    var n := Name(p);
    var i := LastIndexOf(n, DOT);
    LastIndexOfIsLast(n, DOT);
    if 0 < i < |n| - 1 {
      assert IsSuffixDot(n, i);
    } else {
      forall j | 0 < j < |n| - 1 && n[j] == DOT
        ensures DOT in n[j + 1..]
      {
        assert j <= i;
        if j < i {
          assert n[j + 1..][i - j - 1] == DOT;
        } else {
          assert false;
        }
      }
    }
  }

  /** `os.path.join(root, rel)` for a relative `rel`: a separator is
      inserted unless `root` is empty or already ends with one. */
  function Join(root: string, rel: string): (r: string)
    ensures |r| >= |rel| && r[|r| - |rel|..] == rel
    ensures |r| == |rel| || r[|r| - |rel| - 1] == SEP
  {
    if root == "" || root[|root| - 1] == SEP then root + rel else root + [SEP] + rel
  }

  /** A suffix of `q` that holds no separator and starts right after one
      (or at the start of `q`) is the final component of `q`. */
  lemma NameIsUnique(q: string, a: string)
    requires |a| <= |q| && q[|q| - |a|..] == a && SEP !in a
    requires |a| == |q| || q[|q| - |a| - 1] == SEP
    ensures Name(q) == a
  {
    LastIndexOfIsLast(q, SEP);
  }

  /** Joining a directory in front of a relative path leaves its final
      component, hence its suffix, unchanged. */
  lemma {:induction false} NameOfJoin(root: string, rel: string)
    ensures Name(Join(root, rel)) == Name(rel)
    ensures Suffix(Join(root, rel)) == Suffix(rel)
  {
    var pre := if root == "" || root[|root| - 1] == SEP then root else root + [SEP];
    assert Join(root, rel) == pre + rel;
    EndsWithSeparator(pre);
    NameOfConcat(pre, rel);
  }

  lemma EndsWithSeparator(s: string)
    requires s == "" || s[|s| - 1] == SEP
    ensures LastIndexOf(s, SEP) == |s| - 1
  {
  }

  /** Behind a prefix that ends with its last separator, a path keeps its
      final component. */
  lemma NameOfConcat(pre: string, rel: string)
    requires LastIndexOf(pre, SEP) == |pre| - 1
    ensures Name(pre + rel) == Name(rel)
  {
    var k := LastIndexOf(rel, SEP);
    LastIndexOfConcat(pre, rel, SEP);
    assert LastIndexOf(pre + rel, SEP) == |pre| + k;
    DropConcat(pre, rel, k + 1);
  }

  lemma DropConcat(a: string, b: string, j: nat)
    requires j <= |b|
    ensures (a + b)[|a| + j..] == b[j..]
  {
  }

  /** The last `c` of `a + b` is the last one of `b`, shifted by `|a|`,
      or, when `b` holds none, the last one of `a`. */
  lemma {:induction false} LastIndexOfConcat(a: string, b: string, c: char)
    ensures LastIndexOf(a + b, c) ==
              if LastIndexOf(b, c) >= 0 then |a| + LastIndexOf(b, c) else LastIndexOf(a, c)
    decreases |b|
  {
    if b == [] {
      assert a + b == a;
    } else if b[|b| - 1] != c {
      assert (a + b)[..|a + b| - 1] == a + b[..|b| - 1];
      LastIndexOfConcat(a, b[..|b| - 1], c);
    }
  }
}
