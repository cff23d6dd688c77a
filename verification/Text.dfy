/** Strings as the source sees them: trimming, splitting on a separator, and the assembly of
    separated pieces out of arbitrary chunks. */
module Text {

  /** The characters `String.prototype.trim` removes. */
  predicate IsSpace(c: char) {
    || '\t' <= c <= '\r' || c == ' ' || c == '\U{00A0}' || c == '\U{1680}'
    || '\U{2000}' <= c <= '\U{200A}' || c == '\U{2028}' || c == '\U{2029}'
    || c == '\U{202F}' || c == '\U{205F}' || c == '\U{3000}' || c == '\U{FEFF}'
  }

  function TrimLeft(s: string): (r: string)
    ensures |r| <= |s| && r == s[|s| - |r|..]
    ensures r != [] ==> !IsSpace(r[0])
  {
    if s != [] && IsSpace(s[0]) then TrimLeft(s[1..]) else s
  }

  function TrimRight(s: string): (r: string)
    ensures r <= s
    ensures r != [] ==> !IsSpace(r[|r| - 1])
  {
    if s != [] && IsSpace(s[|s| - 1]) then TrimRight(s[..|s| - 1]) else s
  }

  function Trim(s: string): string {
    TrimRight(TrimLeft(s))
  }

  predicate IsTrimmed(s: string) {
    s != [] ==> !IsSpace(s[0]) && !IsSpace(s[|s| - 1])
  }

  lemma TrimIsTrimmed(s: string)
    ensures IsTrimmed(Trim(s))
  {
    var l := TrimLeft(s);
    var r := TrimRight(l);
    if r != [] {
      assert r[0] == l[0];
    }
  }

  lemma TrimFixesTrimmed(s: string)
    ensures IsTrimmed(s) <==> Trim(s) == s
  {
    if IsTrimmed(s) {
      assert TrimLeft(s) == s;
      assert TrimRight(s) == s;
    } else {
      TrimIsTrimmed(s);
    }
  }

  // ---------------------------------------------------------------- splitting

  /** One more character: it ends the last piece or extends it. */
  function Push(sep: char, pieces: seq<string>, c: char): (r: seq<string>)
    requires |pieces| >= 1
    ensures |r| >= 1
  {
    if c == sep then pieces + [""]
    else pieces[..|pieces| - 1] + [pieces[|pieces| - 1] + [c]]
  }

  /** `text.split(sep)`: always at least one piece. */
  function Split(sep: char, text: string): (r: seq<string>)
    ensures |r| >= 1
  {
    if text == [] then [""]
    else Push(sep, Split(sep, text[..|text| - 1]), text[|text| - 1])
  }

  lemma PushInFront(sep: char, front: seq<string>, tail: seq<string>, c: char)
    requires |tail| >= 1
    ensures Push(sep, front + tail, c) == front + Push(sep, tail, c)
  {
    assert (front + tail)[..|front + tail| - 1] == front + tail[..|tail| - 1];
  }

  lemma SplitMore(sep: char, text: string, c: char)
    ensures Split(sep, text + [c]) == Push(sep, Split(sep, text), c)
  {
    assert (text + [c])[..|text|] == text;
  }

  function Join(sep: char, pieces: seq<string>): string
    requires |pieces| >= 1
  {
    if |pieces| == 1 then pieces[0]
    else Join(sep, pieces[..|pieces| - 1]) + [sep] + pieces[|pieces| - 1]
  }

  lemma JoinMore(sep: char, pieces: seq<string>, piece: string)
    requires |pieces| >= 1
    ensures Join(sep, pieces + [piece]) == Join(sep, pieces) + [sep] + piece
  {
    assert (pieces + [piece])[..|pieces|] == pieces;
  }

  lemma WholeMore(sep: char, last: string, c: char)
    requires Split(sep, last) == [last] && c != sep
    ensures Split(sep, last + [c]) == [last + [c]]
  {
    SplitMore(sep, last, c);
  }

  /** The last piece holds no separator: it is its own split. */
  lemma {:induction false} LastIsWhole(sep: char, text: string)
    ensures var pieces := Split(sep, text); Split(sep, pieces[|pieces| - 1]) == [pieces[|pieces| - 1]]
  {
    if text != [] {
      var n := |text| - 1;
      var before := Split(sep, text[..n]);
      LastIsWhole(sep, text[..n]);
      if text[n] != sep {
        WholeMore(sep, before[|before| - 1], text[n]);
      }
    }
  }

  lemma SplitOfConcatMore(sep: char, a: string, b: string, c: char, front: seq<string>, last: string)
    requires Split(sep, a + b) == front + Split(sep, last + b)
    ensures Split(sep, a + (b + [c])) == front + Split(sep, last + (b + [c]))
  {
    assert a + (b + [c]) == (a + b) + [c];
    assert last + (b + [c]) == (last + b) + [c];
    SplitMore(sep, a + b, c);
    SplitMore(sep, last + b, c);
    PushInFront(sep, front, Split(sep, last + b), c);
  }

  /** Splitting a longer text redoes only the last piece. */
  lemma {:induction false} SplitOfConcat(sep: char, a: string, b: string)
    ensures var sa := Split(sep, a);
            Split(sep, a + b) == sa[..|sa| - 1] + Split(sep, sa[|sa| - 1] + b)
  {
    var sa := Split(sep, a);
    if b == [] {
      LastIsWhole(sep, a);
      assert a + b == a && sa[|sa| - 1] + b == sa[|sa| - 1];
    } else {
      var n := |b| - 1;
      SplitOfConcat(sep, a, b[..n]);
      SplitOfConcatMore(sep, a, b[..n], b[n], sa[..|sa| - 1], sa[|sa| - 1]);
      assert b == b[..n] + [b[n]];
    }
  }

  lemma {:induction false} SplitWhole(sep: char, s: string)
    requires sep !in s
    ensures Split(sep, s) == [s]
  {
    if s != [] {
      var n := |s| - 1;
      SplitWhole(sep, s[..n]);
      assert s == s[..n] + [s[n]];
      SplitMore(sep, s[..n], s[n]);
    }
  }

  /** What is already split, and the last piece still open: only the open piece is split again. */
  lemma SplitOpen(sep: char, text: string, front: seq<string>, last: string, more: string)
    requires Split(sep, text) == front + [last]
    ensures Split(sep, text + more) == front + Split(sep, last + more)
  {
    SplitOfConcat(sep, text, more);
    assert (front + [last])[..|front|] == front;
  }

  lemma SplitOfJoinMore(sep: char, text: string, pieces: seq<string>, piece: string)
    requires |pieces| >= 1 && Split(sep, text) == pieces && sep !in piece
    ensures Split(sep, text + [sep] + piece) == pieces + [piece]
  {
    SplitMore(sep, text, sep);
    SplitOpen(sep, text + [sep], pieces, "", piece);
    assert "" + piece == piece;
    SplitWhole(sep, piece);
  }

  lemma {:induction false} SplitOfJoin(sep: char, pieces: seq<string>)
    requires |pieces| >= 1
    requires forall i | 0 <= i < |pieces| :: sep !in pieces[i]
    ensures Split(sep, Join(sep, pieces)) == pieces
  {
    var n := |pieces| - 1;
    if n == 0 {
      SplitWhole(sep, pieces[0]);
    } else {
      SplitOfJoin(sep, pieces[..n]);
      SplitOfJoinMore(sep, Join(sep, pieces[..n]), pieces[..n], pieces[n]);
      assert pieces == pieces[..n] + [pieces[n]];
    }
  }

  /** The read loops' line buffer: text held back until its separator arrives. */
  class LineBuffer {
    const separator: char
    var leftover: string
    ghost var received: string

    /** What has been handed out plus what is held back is the split of everything received. */
    ghost predicate Valid(handedOut: seq<string>)
      reads this
    {
      Split(separator, received) == handedOut + [leftover]
    }

    constructor (sep: char)
      ensures separator == sep && Valid([]) && received == "" && leftover == ""
    {
      separator, leftover, received := sep, "", "";
    }

    method Feed(chunk: string, ghost handedOut: seq<string>) returns (lines: seq<string>)
      requires Valid(handedOut)
      modifies this
      ensures received == old(received) + chunk
      ensures Valid(handedOut + lines)
    {
      var pieces := Split(separator, leftover + chunk);
      SplitOpen(separator, received, handedOut, leftover, chunk);
      lines, leftover := pieces[..|pieces| - 1], pieces[|pieces| - 1];
      received := received + chunk;
      assert handedOut + pieces == (handedOut + lines) + [leftover];
    }
  }
}
