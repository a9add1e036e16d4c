/** Vocabulary shared by the models of the bookmark tool: optional values
    (C's NULL), the platform path limit, the result of probing a path with
    stat(), and the two sequence operations the bookmark list is specified by. */
module Basics {

  /** A value that may be absent, standing for a C pointer that may be NULL. */
  datatype Option<T> = None | Some(value: T)

  /** MAXPATHLEN as <sys/param.h> defines it on Linux: the size of the line
      buffer the list file is read into and of the operation-directory buffer. */
  const MAXPATHLEN: nat := 4096

  /** What stat() tells about a path. The probe itself is an oracle the caller
      passes in: Missing is a failure with errno == ENOENT, StatFailed any other
      failure, and the remaining two are the S_ISDIR test on a successful stat. */
  datatype PathKind = Missing | StatFailed | Directory | NotDirectory

  /** The sequence with element i taken out and every later element moved down
      by one place, in order. */
  function RemoveAt<T>(s: seq<T>, i: nat): (r: seq<T>)
    requires i < |s|
    ensures |r| == |s| - 1
    ensures forall k :: 0 <= k < i ==> r[k] == s[k]
    ensures forall k :: i <= k < |r| ==> r[k] == s[k + 1]
    ensures multiset(r) + multiset{s[i]} == multiset(s)
  {
    assert s == s[..i] + [s[i]] + s[i + 1..];
    s[..i] + s[i + 1..]
  }

  /** i is the lowest index holding x. */
  ghost predicate IsFirstIndex<T>(s: seq<T>, x: T, i: nat)
  {
    i < |s| && s[i] == x && forall k :: 0 <= k < i ==> s[k] != x
  }

  /** The lowest index holding x, if there is one. */
  function FirstIndex<T(==)>(s: seq<T>, x: T): (r: Option<nat>)
    ensures r.None? <==> x !in s
    ensures r.Some? ==> IsFirstIndex(s, x, r.value)
    decreases |s|
  {
    if s == [] then None
    else if s[0] == x then Some(0)
    else match FirstIndex(s[1..], x)
      case None => None
      case Some(i) => Some(i + 1)
  }

  /** Only one index can be the first one holding x. */
  lemma FirstIndexUnique<T>(s: seq<T>, x: T, i: nat, j: nat)
    requires IsFirstIndex(s, x, i) && IsFirstIndex(s, x, j)
    ensures i == j
  {
  }
}
