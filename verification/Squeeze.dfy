/** The in-place white space squeezers modesetting_strip and umudev_strip: white bytes around and between
    words are reduced to single spaces. */
module Squeeze {

  /** A byte of a C string: 0..255 as unsigned char, -128..127 as plain char. */
  type Byte = int

  const NUL: Byte := 0
  const SPACE: Byte := 32

  predicate White(ch: Byte) { 0 < ch <= 32 }

  predicate Black(ch: Byte) { ch < 0 || ch > 32 }

  predicate EndsBlack(s: seq<Byte>) {
    s != [] && Black(s[|s| - 1])
  }

  /** The words of a text, i.e. its maximal runs of black bytes, in order. */
  function Words(s: seq<Byte>): (ws: seq<seq<Byte>>)
    ensures EndsBlack(s) ==> ws != []
  {
    if s == [] then []
    else
      var init, c := s[..|s| - 1], s[|s| - 1];
      var ws := Words(init);
      if !Black(c) then ws
      else if EndsBlack(init) then ws[..|ws| - 1] + [ws[|ws| - 1] + [c]]
      else ws + [[c]]
  }

  function Joined(ws: seq<seq<Byte>>): seq<Byte> {
    if |ws| == 0 then []
    else if |ws| == 1 then ws[0]
    else Joined(ws[..|ws| - 1]) + [SPACE] + ws[|ws| - 1]
  }

  function Squeezed(s: seq<Byte>): seq<Byte> {
    Joined(Words(s))
  }

  predicate IsWord(w: seq<Byte>) {
    w != [] && forall i :: 0 <= i < |w| ==> Black(w[i])
  }

  // ---- properties of the specification ------------------------------------------------------------

  lemma {:induction false} WordsAreWords(s: seq<Byte>)
    ensures forall i :: 0 <= i < |Words(s)| ==> IsWord(Words(s)[i])
  {
    if s != [] {
      WordsAreWords(s[..|s| - 1]);
    }
  }

  lemma {:induction false} WordsOfWordAppended(x: seq<Byte>, w: seq<Byte>)
    requires !EndsBlack(x) && IsWord(w)
    ensures Words(x + w) == Words(x) + [w]
  {
    var init, c := w[..|w| - 1], w[|w| - 1];
    assert (x + w)[..|x + w| - 1] == x + init;
    if init == [] {
      assert x + init == x && w == [c];
    } else {
      WordsOfWordAppended(x, init);
      assert w == init + [c];
    }
  }

  lemma WordsOfSpaced(s: seq<Byte>)
    ensures Words(s + [SPACE]) == Words(s) && !EndsBlack(s + [SPACE])
  {
    assert (s + [SPACE])[..|s|] == s;
  }

  lemma WordsOfOne(w: seq<Byte>)
    requires IsWord(w)
    ensures Words(w) == [w]
  {
    WordsOfWordAppended([], w);
    assert [] + w == w;
  }

  lemma WordsOfNext(text: seq<Byte>, w: seq<Byte>)
    requires IsWord(w)
    ensures Words(text + [SPACE] + w) == Words(text) + [w]
  {
    WordsOfSpaced(text);
    WordsOfWordAppended(text + [SPACE], w);
  }

  /** The words of words joined by single spaces are those words. */
  lemma {:induction false} WordsOfJoined(ws: seq<seq<Byte>>)
    requires forall i :: 0 <= i < |ws| ==> IsWord(ws[i])
    ensures Words(Joined(ws)) == ws
  {
    if |ws| == 1 {
      WordsOfOne(ws[0]);
    } else if |ws| > 1 {
      var init := ws[..|ws| - 1];
      WordsOfJoined(init);
      WordsOfNext(Joined(init), ws[|ws| - 1]);
      assert ws == init + [ws[|ws| - 1]];
    }
  }

  /** Squeezing keeps the words and nothing else, so doing it again changes nothing. */
  lemma SqueezeIsIdempotent(s: seq<Byte>)
    ensures Words(Squeezed(s)) == Words(s)
    ensures Squeezed(Squeezed(s)) == Squeezed(s)
  {
    WordsAreWords(s);
    WordsOfJoined(Words(s));
  }

  /** White bytes occur only as single spaces behind black bytes. */
  predicate Spaced(s: seq<Byte>) {
    forall i :: 0 <= i < |s| && !Black(s[i]) ==> s[i] == SPACE && i > 0 && Black(s[i - 1])
  }

  /** ...and not at the end: no white byte other than single spaces between words. */
  predicate Tidy(s: seq<Byte>) {
    Spaced(s) && (s != [] ==> EndsBlack(s))
  }

  lemma {:induction false} JoinedIsTidy(ws: seq<seq<Byte>>)
    requires forall i :: 0 <= i < |ws| ==> IsWord(ws[i])
    ensures Tidy(Joined(ws)) && (ws != [] ==> Joined(ws) != [])
  {
    if |ws| > 1 {
      JoinedIsTidy(ws[..|ws| - 1]);
    }
  }

  lemma {:induction false} SpacedHasWords(s: seq<Byte>)
    requires Spaced(s) && s != []
    ensures Words(s) != []
  {
    if !EndsBlack(s) {
      assert Black(s[|s| - 2]);
      assert EndsBlack(s[..|s| - 1]);
    }
  }

  /** Joining is compatible with the two ways a word list grows. */
  lemma JoinNewWord(ws: seq<seq<Byte>>, w: seq<Byte>)
    ensures Joined(ws + [w]) == if ws == [] then w else Joined(ws) + [SPACE] + w
  {
    assert (ws + [w])[..|ws|] == ws;
  }

  lemma JoinLongerWord(init: seq<seq<Byte>>, w: seq<Byte>, c: Byte)
    ensures Joined(init + [w + [c]]) == Joined(init + [w]) + [c]
  {
    JoinNewWord(init, w);
    JoinNewWord(init, w + [c]);
    if init != [] {
      assert Joined(init) + [SPACE] + (w + [c]) == Joined(init) + [SPACE] + w + [c];
    }
  }

  lemma JoinExtended(ws: seq<seq<Byte>>, c: Byte)
    ensures Joined(ws + [[c]]) == if ws == [] then [c] else Joined(ws) + [SPACE] + [c]
    ensures ws != [] ==> Joined(ws[..|ws| - 1] + [ws[|ws| - 1] + [c]]) == Joined(ws) + [c]
  {
    JoinNewWord(ws, [c]);
    if ws != [] {
      JoinLongerWord(ws[..|ws| - 1], ws[|ws| - 1], c);
      assert ws[..|ws| - 1] + [ws[|ws| - 1]] == ws;
    }
  }

  lemma {:induction false} SpacedIsSqueezed(s: seq<Byte>)
    requires Spaced(s)
    ensures s == if s == [] || EndsBlack(s) then Squeezed(s) else Squeezed(s) + [SPACE]
  {
    if s != [] {
      var init, c := s[..|s| - 1], s[|s| - 1];
      assert s == init + [c];
      SpacedIsSqueezed(init);
      if Black(c) {
        var ws := Words(init);
        JoinExtended(ws, c);
        if init != [] && !EndsBlack(init) {
          assert Black(init[|init| - 2]);
          SpacedHasWords(init);
        }
      }
    }
  }

  /** A text is left alone by squeezing exactly when it is tidy already. */
  lemma SqueezeFixesTidy(s: seq<Byte>)
    ensures Squeezed(s) == s <==> Tidy(s)
  {
    WordsAreWords(s);
    JoinedIsTidy(Words(s));
    if Tidy(s) {
      SpacedIsSqueezed(s);
    }
  }

  /** The bytes other than control characters and spaces. */
  function Visible(s: seq<Byte>): seq<Byte> {
    if s == [] then []
    else
      var c := s[|s| - 1];
      Visible(s[..|s| - 1]) + if c < 0 || c > 32 then [c] else []
  }

  lemma VisibleGrows(s: seq<Byte>, c: Byte)
    ensures Visible(s + [c]) == Visible(s) + if c < 0 || c > 32 then [c] else []
  {
    assert (s + [c])[..|s|] == s;
  }

  lemma WordsGrow(x: seq<Byte>, c: Byte)
    ensures var ws := Words(x);
            Words(x + [c]) == if !Black(c) then ws else if EndsBlack(x) then ws[..|ws| - 1] + [ws[|ws| - 1] + [c]] else ws + [[c]]
  {
    assert (x + [c])[..|x|] == x;
  }

  lemma SqueezedGrows(x: seq<Byte>, c: Byte)
    ensures Squeezed(x + [c]) == if !Black(c) then Squeezed(x)
                                 else if EndsBlack(x) || Words(x) == [] then Squeezed(x) + [c]
                                 else Squeezed(x) + [SPACE] + [c]
    ensures Words(x + [c]) == [] <==> Words(x) == [] && !Black(c)
  {
    WordsGrow(x, c);
    JoinExtended(Words(x), c);
  }

  lemma {:induction false} SqueezingKeepsVisible(s: seq<Byte>)
    ensures Visible(Squeezed(s)) == Visible(s)
  {
    if s != [] {
      var x, c := s[..|s| - 1], s[|s| - 1];
      SqueezingKeepsVisible(x);
      SqueezedGrows(x, c);
      assert s == x + [c];
      VisibleGrows(Squeezed(x), c);
      VisibleGrows(Squeezed(x), 32);
      VisibleGrows(Squeezed(x) + [32], c);
    }
  }

  /** Squeezing keeps every visible byte and their order; of control characters and spaces, single spaces between
      visible bytes are left. */
  lemma SqueezedBytes(s: seq<Byte>)
    ensures Visible(Squeezed(s)) == Visible(s)
    ensures forall i :: 0 <= i < |Squeezed(s)| && 0 <= Squeezed(s)[i] <= 32 ==>
              && Squeezed(s)[i] == 32 && 0 < i < |Squeezed(s)| - 1
              && !(0 <= Squeezed(s)[i - 1] <= 32) && !(0 <= Squeezed(s)[i + 1] <= 32)
  {
    SqueezingKeepsVisible(s);
    WordsAreWords(s);
    JoinedIsTidy(Words(s));
  }

  // ---- the buffer ---------------------------------------------------------------------------------

  /** Position of the terminator of the string in a buffer. */
  predicate TerminatedAt(a: seq<Byte>, end: nat) {
    end < |a| && a[end] == NUL && NUL !in a[..end]
  }

  /** What the first n bytes of s contribute to the output, byte by byte. */
  function Out(s: seq<Byte>, n: nat): seq<Byte>
    requires n <= |s|
  {
    if n == 0 then []
    else
      var before, c := Out(s, n - 1), s[n - 1];
      if !Black(c) then before
      else if (n > 1 && Black(s[n - 2])) || before == [] then before + [c]
      else before + [SPACE] + [c]
  }

  lemma {:induction false} OutIsSqueezed(s: seq<Byte>, n: nat)
    requires n <= |s|
    ensures Out(s, n) == Squeezed(s[..n])
    ensures Out(s, n) == [] <==> Words(s[..n]) == []
  {
    if n > 0 {
      var x, c := s[..n - 1], s[n - 1];
      OutIsSqueezed(s, n - 1);
      SqueezedGrows(x, c);
      assert s[..n] == x + [c];
      assert EndsBlack(x) <==> n > 1 && Black(s[n - 2]);
    }
  }

  function Spacing(out: seq<Byte>): seq<Byte> {
    if out == [] then out else out + [SPACE]
  }

  /** A word that starts at start, up to n. */
  lemma {:induction false} OutOfWord(s: seq<Byte>, start: nat, n: nat)
    requires start < n <= |s| && (start > 0 ==> !Black(s[start - 1]))
    requires forall i :: start <= i < n ==> Black(s[i])
    ensures Out(s, n) == Spacing(Out(s, start)) + s[start..n]
  {
    assert s[start..n] == s[start..n - 1] + [s[n - 1]];
    if n > start + 1 {
      OutOfWord(s, start, n - 1);
    }
  }

  method PutByte(a: array<Byte>, dst: nat, ch: Byte)
    requires dst < a.Length
    modifies a
    ensures a[..dst + 1] == old(a[..dst]) + [ch]
    ensures forall i :: dst < i < a.Length ==> a[i] == old(a[i])
  {
    a[dst] := ch;
    assert a[..dst] == old(a[..dst]);
  }

  method Terminate(a: array<Byte>, dst: nat, ghost orig: seq<Byte>, ghost end: nat)
    requires TerminatedAt(orig, end) && |orig| == a.Length && dst <= end
    requires forall i :: dst <= i < a.Length ==> a[i] == orig[i]
    requires a[..dst] == Out(orig, end)
    modifies a
    ensures var s := Squeezed(orig[..end]); |s| <= end && a[..] == s + [NUL] + orig[|s| + 1..]
  {
    OutIsSqueezed(orig, end);
    PutByte(a, dst, NUL);
    assert a[dst + 1..] == orig[dst + 1..];
    assert a[..] == a[..dst + 1] + a[dst + 1..];
  }

  /** The inner loop over black bytes: move one word down. orig is the buffer as it was at first. */
  method CopyBlack(a: array<Byte>, start: nat, to: nat, ghost orig: seq<Byte>, ghost end: nat) returns (src: nat, dst: nat)
    requires TerminatedAt(orig, end) && |orig| == a.Length && to <= start <= end
    requires start > 0 ==> !Black(orig[start - 1])
    requires forall i :: to <= i < a.Length ==> a[i] == orig[i]
    requires a[..to] == Spacing(Out(orig, start))
    modifies a
    ensures start <= src <= end && dst <= src
    ensures src > start <==> Black(orig[start])
    ensures !Black(orig[src])
    ensures forall i :: dst <= i < a.Length ==> a[i] == orig[i]
    ensures a[..dst] == if src == start then Spacing(Out(orig, src)) else Out(orig, src)
    ensures src > start ==> Out(orig, src) != []
  {
    src, dst := start, to;
    while Black(a[src])
      invariant start <= src <= end && dst - to == src - start
      invariant forall i :: start <= i < src ==> Black(orig[i])
      invariant forall i :: dst <= i < a.Length ==> a[i] == orig[i]
      invariant a[..dst] == Spacing(Out(orig, start)) + orig[start..src]
      decreases end - src
    {
      PutByte(a, dst, a[src]);
      assert orig[start..src] + [orig[src]] == orig[start..src + 1];
      dst, src := dst + 1, src + 1;
    }
    if src > start {
      OutOfWord(orig, start, src);
    }
  }

  /** The loops over white space: nothing is written. */
  method SkipWhite(a: array<Byte>, start: nat, ghost orig: seq<Byte>, ghost end: nat) returns (src: nat)
    requires TerminatedAt(orig, end) && |orig| == a.Length && start <= end
    requires forall i :: start <= i < a.Length ==> a[i] == orig[i]
    ensures start <= src <= end && Out(orig, src) == Out(orig, start)
    ensures !White(orig[src]) && (src > start ==> !Black(orig[src - 1]))
    ensures White(orig[start]) ==> src > start
  {
    src := start;
    while White(a[src])
      invariant start <= src <= end && Out(orig, src) == Out(orig, start)
      invariant src > start ==> !Black(orig[src - 1])
      decreases end - src
    {
      src := src + 1;
    }
  }

  /** modesetting_strip: squeeze the string in a, whose terminator is at end. */
  method Strip(a: array<Byte>, ghost end: nat)
    requires TerminatedAt(a[..], end)
    modifies a
    ensures var s := Squeezed(old(a[..end]));
            |s| <= end && a[..] == s + [NUL] + old(a[|s| + 1..])
  {
    ghost var orig := a[..];
    var dst: nat := 0;
    var src := SkipWhite(a, 0, orig, end);
    while true
      invariant dst <= src <= end && (src > 0 ==> !Black(orig[src - 1])) && !White(orig[src])
      invariant src == end ==> Out(orig, src) == []
      invariant forall i :: dst <= i < a.Length ==> a[i] == orig[i]
      invariant a[..dst] == Spacing(Out(orig, src))
      decreases end - src
    {
      src, dst := CopyBlack(a, src, dst, orig, end);
      src := SkipWhite(a, src, orig, end);
      if a[src] == NUL {
        break;
      }
      PutByte(a, dst, SPACE);
      dst := dst + 1;
    }
    Terminate(a, dst, orig, end);
  }

  /** umudev_strip: the same on plain chars, and on no string at all. */
  method UdevStrip(a: array?<Byte>, ghost end: nat)
    requires a != null ==> TerminatedAt(a[..], end)
    modifies a
    ensures a != null ==> var s := Squeezed(old(a[..end])); |s| <= end && a[..] == s + [NUL] + old(a[|s| + 1..])
  {
    if a != null {
      Strip(a, end);
    }
  }
}
