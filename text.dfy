/**
 The string primitives the live-reload server relies on: prefix test, search
 for the first occurrence of a pattern and single replacement, with the
 meaning Go's strings.HasPrefix, strings.Index and strings.Replace(.., 1)
 give them. Characters stand for the bytes of a Go string.
 */
module Text {

  datatype Option<T> = None | Some(value: T)

  /** `p` occurs in `s` at index `i`. */
  predicate MatchAt(s: string, p: string, i: int)
  {
    0 <= i && i + |p| <= |s| && s[i..i + |p|] == p
  }

  /** `i` is the index of the first occurrence of `p` in `s`. */
  predicate FirstMatch(s: string, p: string, i: int)
  {
    MatchAt(s, p, i) && forall j :: 0 <= j < i ==> !MatchAt(s, p, j)
  }

  /** `p` occurs nowhere in `s`. */
  predicate Absent(s: string, p: string)
  {
    forall j :: 0 <= j <= |s| - |p| ==> !MatchAt(s, p, j)
  }

  predicate HasPrefix(s: string, prefix: string)
  {
    |prefix| <= |s| && s[..|prefix|] == prefix
  }

  /** An occurrence in `s[1..]` is an occurrence in `s` one place later. */
  lemma MatchAtTail(s: string, p: string, j: int)
    requires |s| > 0 && 0 <= j
    ensures MatchAt(s[1..], p, j) <==> MatchAt(s, p, j + 1)
  {
    if 0 <= j && j + |p| <= |s| - 1 {
      assert s[1..][j..j + |p|] == s[j + 1..j + 1 + |p|];
    }
  }

  /** The index of the first occurrence of `p` in `s`, or None when there is none. */
  function FindFirst(s: string, p: string): (r: Option<nat>)
    ensures r.Some? ==> FirstMatch(s, p, r.value)
    ensures r.None? ==> Absent(s, p)
    decreases |s|
  {
    if |s| < |p| then None
    else if s[..|p|] == p then Some(0)
    else
      var tail := FindFirst(s[1..], p);
      assert forall j {:trigger MatchAt(s, p, j)} :: 1 <= j ==> (MatchAt(s[1..], p, j - 1) <==> MatchAt(s, p, j)) by {
        forall j | 1 <= j ensures MatchAt(s[1..], p, j - 1) <==> MatchAt(s, p, j) {
          MatchAtTail(s, p, j - 1);
        }
      }
      match tail
      case None => None
      case Some(i) => Some(i + 1)
  }

  /** Where two texts share a suffix, an occurrence inside that suffix is an occurrence in both. */
  lemma MatchInSharedSuffix(s: string, t: string, a: nat, c: nat, p: string, j: int)
    requires a <= |s| && c <= |t| && s[a..] == t[c..]
    requires c <= j && MatchAt(t, p, j)
    ensures MatchAt(s, p, a + j - c)
  {
    var k := j - c;
    assert t[j..j + |p|] == t[c..][k..k + |p|];
    assert s[a + k..a + k + |p|] == s[a..][k..k + |p|];
  }

  /** There is at most one first occurrence. */
  lemma FirstMatchUnique(s: string, p: string, i: int, k: int)
    requires FirstMatch(s, p, i) && FirstMatch(s, p, k)
    ensures i == k
  {
  }

  /**
   `s` with its first occurrence of `p` replaced by `rep`, as Go's
   strings.Replace(s, p, rep, 1) computes it.
   */
  function ReplaceFirst(s: string, p: string, rep: string): (r: string)
    ensures forall i :: FirstMatch(s, p, i) ==> r == s[..i] + rep + s[i + |p|..]
    ensures Absent(s, p) ==> r == s
  {
    match FindFirst(s, p)
    case None => s
    case Some(i) => s[..i] + rep + s[i + |p|..]
  }

  /** `s` written `n` times in a row. */
  function Repeat(s: string, n: nat): string
  {
    if n == 0 then [] else s + Repeat(s, n - 1)
  }
}
