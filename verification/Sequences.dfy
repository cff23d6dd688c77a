/** What several models need of sequences and optional values. */
module Sequences {

  datatype Option<+T> = None | Some(value: T)

  /** The parts, end to end. */
  function Flatten<T>(parts: seq<seq<T>>): seq<T> {
    if parts == [] then [] else Flatten(parts[..|parts| - 1]) + parts[|parts| - 1]
  }

  lemma Assoc<T>(a: seq<T>, b: seq<T>, c: seq<T>)
    ensures a + (b + c) == (a + b) + c
  {
  }

  lemma DropLast<T>(a: seq<T>, x: T)
    ensures (a + [x])[..|a|] == a
  {
  }

  lemma Snoc<T>(s: seq<T>)
    requires s != []
    ensures s == s[..|s| - 1] + [s[|s| - 1]]
  {
  }

  lemma Nothing<T>(s: seq<T>)
    ensures s + [] == s && [] + s == s
  {
  }

  lemma Whole<T>(s: seq<T>)
    ensures s[..|s|] == s
  {
  }

  lemma Halves<T>(s: seq<T>, k: nat)
    requires k <= |s|
    ensures s == s[..k] + s[k..]
  {
  }

  /** `f` of each element, in order. */
  function Mapped<A, B>(f: A -> B, s: seq<A>): seq<B> {
    if s == [] then [] else Mapped(f, s[..|s| - 1]) + [f(s[|s| - 1])]
  }

  lemma {:induction false} MappedLength<A, B>(f: A -> B, s: seq<A>)
    ensures |Mapped(f, s)| == |s|
  {
    if s != [] {
      MappedLength(f, s[..|s| - 1]);
    }
  }

  lemma {:induction false} MappedAt<A, B>(f: A -> B, s: seq<A>, k: nat)
    requires k < |s|
    ensures |Mapped(f, s)| == |s| && Mapped(f, s)[k] == f(s[k])
  {
    MappedLength(f, s);
    MappedLength(f, s[..|s| - 1]);
    if k < |s| - 1 {
      MappedAt(f, s[..|s| - 1], k);
    }
  }

  lemma MappedMore<A, B>(f: A -> B, s: seq<A>, k: nat)
    requires k < |s|
    ensures Mapped(f, s[..k + 1]) == Mapped(f, s[..k]) + [f(s[k])]
  {
    assert s[..k + 1][..k] == s[..k];
  }

  lemma {:induction false} MappedDrop<A, B>(f: A -> B, s: seq<A>, k: nat)
    requires k <= |s|
    ensures |Mapped(f, s)| == |s| && Mapped(f, s)[k..] == Mapped(f, s[k..])
  {
    MappedLength(f, s);
    if k < |s| {
      var n := |s| - 1;
      MappedDrop(f, s[..n], k);
      assert s[k..][..n - k] == s[..n][k..];
      assert (Mapped(f, s[..n]) + [f(s[n])])[k..] == Mapped(f, s[..n])[k..] + [f(s[n])];
    }
  }
}
