/** Dot-separated segments: `String.prototype.split('.')` and the template
    strings that join encoded parts with '.'. */
module Segments {
  import opened Common

  predicate DotFree(s: string) {
    forall i :: 0 <= i < |s| ==> s[i] != '.'
  }

  predicate AllDotFree(pieces: seq<string>) {
    forall k :: 0 <= k < |pieces| ==> DotFree(pieces[k])
  }

  /** The position of the first '.', or |s| when there is none. */
  function DotIndex(s: string): (i: nat)
    ensures i <= |s|
    ensures i < |s| ==> s[i] == '.'
    ensures forall j :: 0 <= j < i ==> s[j] != '.'
    decreases |s|
  {
    if |s| == 0 || s[0] == '.' then 0 else 1 + DotIndex(s[1..])
  }

  /** `s.split('.')`: the maximal dot-free pieces, in order; at least one. */
  function Split(s: string): (r: seq<string>)
    ensures |r| >= 1 && AllDotFree(r)
    decreases |s|
  {
    var i := DotIndex(s);
    if i == |s| then [s] else [s[..i]] + Split(s[i + 1..])
  }

  /** The pieces joined with '.' between neighbours. */
  function Join(pieces: seq<string>): string
    requires |pieces| >= 1
  {
    if |pieces| == 1 then pieces[0] else pieces[0] + "." + Join(pieces[1..])
  }

  /** Destructuring `const [a, b, c] = pieces`: a missing piece is undefined. */
  function At(pieces: seq<string>, k: nat): Option<string> {
    if k < |pieces| then Some(pieces[k]) else None
  }

  /** A dot-free string is a single piece. */
  lemma SplitDotFree(s: string)
    requires DotFree(s)
    ensures Split(s) == [s]
  {
    assert DotIndex(s) == |s|;
  }

  /** Splitting a dot-free head followed by '.' peels off the head. */
  lemma SplitCons(head: string, tail: string)
    requires DotFree(head)
    ensures Split(head + "." + tail) == [head] + Split(tail)
  {
    var s := head + "." + tail;
    assert s[|head|] == '.';
    assert forall j :: 0 <= j < |head| ==> s[j] == head[j];
    assert DotIndex(s) == |head|;
    assert s[..|head|] == head;
    assert s[|head| + 1..] == tail;
  }

  /** Splitting undoes joining when no piece contains a dot. */
  lemma {:induction false} SplitJoin(pieces: seq<string>)
    requires |pieces| >= 1 && AllDotFree(pieces)
    ensures Split(Join(pieces)) == pieces
    decreases |pieces|
  {
    if |pieces| == 1 {
      SplitDotFree(pieces[0]);
    } else {
      assert AllDotFree(pieces[1..]) by {
        forall k | 0 <= k < |pieces| - 1 ensures DotFree(pieces[1..][k]) {
          assert pieces[1..][k] == pieces[k + 1];
        }
      }
      SplitJoin(pieces[1..]);
      SplitCons(pieces[0], Join(pieces[1..]));
      assert [pieces[0]] + pieces[1..] == pieces;
    }
  }

  /** Joining undoes splitting, for every string. */
  lemma {:induction false} JoinSplit(s: string)
    ensures Join(Split(s)) == s
    decreases |s|
  {
    var i := DotIndex(s);
    if i < |s| {
      JoinSplit(s[i + 1..]);
      assert Split(s)[1..] == Split(s[i + 1..]);
      assert s == s[..i] + "." + s[i + 1..];
    }
  }

  lemma JoinAssociates(a: string, b: string, c: string)
    ensures a + "." + b + "." + c == a + "." + (b + "." + c)
  {
  }

  /** Three dot-free segments and whatever follows a third dot: the split
      starts with the three segments. */
  lemma SplitThreeThen(a: string, b: string, c: string, rest: string)
    requires DotFree(a) && DotFree(b) && DotFree(c)
    ensures Split(a + "." + b + "." + c + "." + rest) == [a, b, c] + Split(rest)
  {
    var cr := c + "." + rest;
    var bcr := b + "." + cr;
    var whole := a + "." + b + "." + c + "." + rest;
    JoinAssociates(a + "." + b, c, rest);
    JoinAssociates(a, b, cr);
    assert whole == a + "." + bcr;
    SplitCons(a, bcr);
    SplitCons(b, cr);
    SplitCons(c, rest);
    PrependThree(a, b, c, Split(rest));
  }

  lemma PrependThree<T>(a: T, b: T, c: T, tail: seq<T>)
    ensures [a] + ([b] + ([c] + tail)) == [a, b, c] + tail
  {
  }

  /** A three-segment string splits back into exactly its three segments. */
  lemma SplitThree(a: string, b: string, c: string)
    requires DotFree(a) && DotFree(b) && DotFree(c)
    ensures Split(a + "." + b + "." + c) == [a, b, c]
  {
    JoinAssociates(a, b, c);
    SplitDotFree(c);
    SplitCons(b, c);
    SplitCons(a, b + "." + c);
    PrependThree(a, b, c, []);
  }
}
