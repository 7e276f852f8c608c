/**
 * The text part of `appendOutput` in main.go: the output entry's text is a
 * Go string, i.e. a byte sequence whose `len` counts bytes. Each fragment is
 * appended, and when the result has grown past `MaxLen` bytes only its last
 * `KeepLen` bytes are kept.
 */
module OutputBuffer {

  newtype byte = b: int | 0 <= b < 256

  /** Longest text the entry may hold after an append. */
  const MaxLen: nat := 200000
  /** Length kept when an append overflows `MaxLen`. */
  const KeepLen: nat := 180000

  predicate IsSuffix(r: seq<byte>, s: seq<byte>)
  {
    |r| <= |s| && s[|s| - |r|..] == r
  }

  function Min(a: nat, b: nat): nat
  {
    if a <= b then a else b
  }

  /** The text that remains once `s` has been assembled by an append. */
  function Bounded(s: seq<byte>): (r: seq<byte>)
    ensures IsSuffix(r, s)
    ensures |r| <= MaxLen
    ensures |r| == Min(|s|, if |s| > MaxLen then KeepLen else MaxLen)
    ensures |s| <= MaxLen ==> r == s
  {
    if |s| > MaxLen then s[|s| - KeepLen..] else s
  }

  /** The output entry; `text` is its contents. */
  class OutputBox {
    var text: seq<byte>

    constructor ()
      ensures text == []
    {
      text := [];
    }

    /**
     * Appends `fragment`. The previous text may have any length (the entry
     * is user-editable), yet the result never exceeds `MaxLen` bytes and is
     * always the tail of the previous text followed by the fragment.
     */
    method Append(fragment: seq<byte>)
      modifies this
      ensures text == Bounded(old(text) + fragment)
      ensures IsSuffix(text, old(text) + fragment) && |text| <= MaxLen
      ensures |old(text) + fragment| <= MaxLen ==> text == old(text) + fragment
      ensures |old(text) + fragment| > MaxLen ==> text == (old(text) + fragment)[|old(text) + fragment| - KeepLen..]
    {
      var curr := text;
      curr := curr + fragment;
      if |curr| > MaxLen {
        curr := curr[|curr| - KeepLen..];
      }
      text := curr;
    }
  }

  /** All fragments, one after the other. */
  function Concat(fragments: seq<seq<byte>>): seq<byte>
  {
    if fragments == [] then [] else fragments[0] + Concat(fragments[1..])
  }

  /** The text after appending each of `fragments`, in order, to `start`. */
  function Replay(start: seq<byte>, fragments: seq<seq<byte>>): seq<byte>
    decreases |fragments|
  {
    if fragments == [] then start else Replay(Bounded(start + fragments[0]), fragments[1..])
  }

  lemma SuffixTransitive(a: seq<byte>, b: seq<byte>, c: seq<byte>)
    requires IsSuffix(a, b) && IsSuffix(b, c)
    ensures IsSuffix(a, c)
  {
    assert c[|c| - |a|..] == c[|c| - |b|..][|b| - |a|..];
  }

  lemma SuffixExtend(a: seq<byte>, b: seq<byte>, c: seq<byte>)
    requires IsSuffix(a, b)
    ensures IsSuffix(a + c, b + c)
  {
    assert (b + c)[|b + c| - |a + c|..] == b[|b| - |a|..] + c;
  }

  /** However many appends happen, the text is a tail of everything appended. */
  lemma {:induction false} ReplayIsSuffix(start: seq<byte>, fragments: seq<seq<byte>>)
    ensures IsSuffix(Replay(start, fragments), start + Concat(fragments))
    decreases |fragments|
  {
    if fragments == [] {
      assert start + Concat(fragments) == start;
    } else {
      var whole := start + fragments[0];
      var next := Bounded(whole);
      var rest := fragments[1..];
      assert Replay(start, fragments) == Replay(next, rest);
      assert Concat(fragments) == fragments[0] + Concat(rest);
      assert start + Concat(fragments) == whole + Concat(rest);
      ReplayIsSuffix(next, rest);
      SuffixExtend(next, whole, Concat(rest));
      SuffixTransitive(Replay(next, rest), next + Concat(rest), whole + Concat(rest));
    }
  }

  /** While the total stays within `MaxLen` bytes, nothing is ever dropped. */
  lemma {:induction false} ReplayLossless(start: seq<byte>, fragments: seq<seq<byte>>)
    requires |start + Concat(fragments)| <= MaxLen
    ensures Replay(start, fragments) == start + Concat(fragments)
    decreases |fragments|
  {
    if fragments != [] {
      var rest := fragments[1..];
      assert start + Concat(fragments) == start + fragments[0] + Concat(rest);
      ReplayLossless(start + fragments[0], rest);
    }
  }

  /** After at least one append the text is never longer than `MaxLen` bytes. */
  lemma {:induction false} ReplayBounded(start: seq<byte>, fragments: seq<seq<byte>>)
    requires fragments != []
    ensures |Replay(start, fragments)| <= MaxLen
    decreases |fragments|
  {
    if |fragments| > 1 {
      ReplayBounded(Bounded(start + fragments[0]), fragments[1..]);
    }
  }

  /** The most recent `KeepLen` bytes (or all of them, if fewer) are always retained. */
  lemma {:induction false} ReplayKeepsRecent(start: seq<byte>, fragments: seq<seq<byte>>)
    ensures |Replay(start, fragments)| >= Min(|start + Concat(fragments)|, KeepLen)
    decreases |fragments|
  {
    if fragments != [] {
      var whole := start + fragments[0];
      var next := Bounded(whole);
      var rest := fragments[1..];
      assert Replay(start, fragments) == Replay(next, rest);
      ReplayKeepsRecent(next, rest);
      assert |start + Concat(fragments)| == |whole| + |Concat(rest)| by {
        assert Concat(fragments) == fragments[0] + Concat(rest);
      }
      assert |next| >= Min(|whole|, KeepLen);
    }
  }
}
