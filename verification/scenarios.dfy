/** Whole-stream properties of the driver, and the inputs that separate the
    driver as written from the corrected one. */
module Scenarios {
  import opened Tokens
  import opened Driver

  /** A character that is neither a marker nor part of a line ending. */
  predicate PlainChar(c: char) {
    !IsSingleSpecialChar(c) && !IsLineBreakChar(c)
  }

  predicate AllPlain(raw: string) {
    forall i :: 0 <= i < |raw| ==> PlainChar(raw[i])
  }

  /** A loop pass that emits nothing but moves the source on leaves
      `next_token` to carry on from the state it produced. */
  lemma SilentPass(lx: Lexer, rev: Revision, lx': Lexer)
    requires Valid(lx) && lx.curPosition + 1 < |lx.raw|
    requires Iterate(lx, rev) == Step(None, lx') && lx'.next > lx.next
    ensures NextToken(lx, rev) == NextToken(lx', rev)
  {
  }

  /** A loop pass over a character that is not a marker records it as a
      plain character at the cursor. */
  lemma PlainPass(lx: Lexer, rev: Revision)
    requires Valid(lx) && lx.next < |lx.raw| && lx.buffer != LINE_ENDING
    requires !IsSingleSpecialChar(lx.raw[lx.next])
    ensures Iterate(lx, rev) ==
              RecordPlainChar(lx.(curPosition := lx.next, next := lx.next + 1), lx.raw[lx.next], |lx.raw|)
  {
  }

  /** Inside plain input, each pass extends the open range by one offset
      until it reaches the end of the input, where it is emitted. */
  lemma {:induction false} PlainRunContinues(lx: Lexer, rev: Revision)
    requires AllPlain(lx.raw)
    requires 0 < lx.next < |lx.raw| && lx.curPosition == lx.next - 1
    requires lx.plainTextRange == Some(Range(0, lx.next)) && lx.buffer == []
    ensures NextToken(lx, rev) ==
              Emitted(Token(Text, Range(0, |lx.raw|)), Lexer(lx.raw, |lx.raw|, |lx.raw| - 1, None, []))
    decreases |lx.raw| - lx.next
  {
    var k := lx.next;
    assert PlainChar(lx.raw[k]);
    var lx1 := Lexer(lx.raw, k + 1, k, Some(Range(0, k + 1)), []);
    if k + 1 < |lx.raw| {
      assert Iterate(lx, rev) == Step(None, lx1);
      PlainRunContinues(lx1, rev);
    }
  }

  /** Input without markers or line endings is one `Text` token spanning it
      all, under both revisions, except that fewer than two characters give
      no token: the loop guard `cur_position + 1 < len` never admits them. */
  lemma PlainInputIsOneText(raw: string, rev: Revision)
    requires AllPlain(raw)
    ensures |raw| >= 2 ==>
              NextToken(New(raw), rev) ==
              Emitted(Token(Text, Range(0, |raw|)), Lexer(raw, |raw|, |raw| - 1, None, []))
    ensures |raw| >= 2 ==> Tokenize(raw) == [Token(Text, Range(0, |raw|))]
    ensures |raw| < 2 ==> Tokenize(raw) == []
  {
    if |raw| >= 2 {
      assert PlainChar(raw[0]);
      var lx1 := Lexer(raw, 1, 0, Some(Range(0, 1)), []);
      assert Iterate(New(raw), rev) == Step(None, lx1);
      PlainRunContinues(lx1, rev);
      var last := Lexer(raw, |raw|, |raw| - 1, None, []);
      PlainRunContinues(lx1, Corrected);
      assert Drain(last) == [];
      assert Tokenize(raw) == [Token(Text, Range(0, |raw|))] + Drain(last);
    }
  }

  /** As written, the first call on "### abc" reads the heading together with
      the space after it. */
  lemma TerminatorDroppedFirstCall()
    ensures NextToken(New("### abc"), AsWritten) ==
              Emitted(Token(Heading(3), Range(0, 3)), Lexer("### abc", 4, 0, None, []))
  {
    var raw := "### abc";
    assert Blocks.RunEnds(raw, 0, 3, '#');
    var t := Blocks.ReadHeader(raw, 0, Blocks.TakeWhile).token.value;
    Blocks.RunEndsUnique(raw, 0, 3, t.range.end, '#');
  }

  /** Finding: `take_while` drops the character after a marker run. On
      "### abc" the heading is read with the space, so the text starts at 4
      and offset 3 is in no token: the third call ends the stream. */
  lemma TerminatorDroppedAsWritten()
    ensures var p1 := NextToken(New("### abc"), AsWritten);
            && p1 == Emitted(Token(Heading(3), Range(0, 3)), Lexer("### abc", 4, 0, None, []))
            && NextToken(p1.lexer, AsWritten) ==
               Emitted(Token(Text, Range(4, 7)), Lexer("### abc", 7, 6, None, []))
            && NextToken(Lexer("### abc", 7, 6, None, []), AsWritten).Exhausted?
  {
    var raw := "### abc";
    TerminatorDroppedFirstCall();
    var lx1 := Lexer(raw, 4, 0, None, []);
    var lx2 := Lexer(raw, 5, 4, Some(Range(4, 5)), []);
    PlainPass(lx1, AsWritten);
    assert Iterate(lx1, AsWritten) == Step(None, lx2);
    var lx3 := Lexer(raw, 6, 5, Some(Range(4, 6)), []);
    PlainPass(lx2, AsWritten);
    assert Iterate(lx2, AsWritten) == Step(None, lx3);
    SilentPass(lx1, AsWritten, lx2);
    SilentPass(lx2, AsWritten, lx3);
  }

  /** The first call of the corrected lexer on "### abc". */
  lemma HeadingThenTextFirstCall()
    ensures NextToken(New("### abc"), Corrected) ==
              Emitted(Token(Heading(3), Range(0, 3)), Lexer("### abc", 3, 0, None, []))
  {
    var raw := "### abc";
    assert Blocks.RunEnds(raw, 0, 3, '#');
    var t := Blocks.ReadHeader(raw, 0, Blocks.NextIf).token.value;
    Blocks.RunEndsUnique(raw, 0, 3, t.range.end, '#');
  }

  /** The second call: the space is now the first character of the text. */
  lemma HeadingThenTextSecondCall()
    ensures NextToken(Lexer("### abc", 3, 0, None, []), Corrected) ==
              Emitted(Token(Text, Range(3, 7)), Lexer("### abc", 7, 6, None, []))
  {
    var raw := "### abc";
    var lx1 := Lexer(raw, 3, 0, None, []);
    var lx2 := Lexer(raw, 4, 3, Some(Range(3, 4)), []);
    PlainPass(lx1, Corrected);
    assert Iterate(lx1, Corrected) == Step(None, lx2);
    var lx3 := Lexer(raw, 5, 4, Some(Range(3, 5)), []);
    PlainPass(lx2, Corrected);
    assert Iterate(lx2, Corrected) == Step(None, lx3);
    var lx4 := Lexer(raw, 6, 5, Some(Range(3, 6)), []);
    PlainPass(lx3, Corrected);
    assert Iterate(lx3, Corrected) == Step(None, lx4);
    SilentPass(lx1, Corrected, lx2);
    SilentPass(lx2, Corrected, lx3);
    SilentPass(lx3, Corrected, lx4);
  }

  /** Corrected: the run is counted with `next_if`, so "### abc" is a level-3
      heading on [0, 3) and a text on [3, 7). */
  lemma HeadingThenTextCorrected()
    ensures Tokenize("### abc") == [Token(Heading(3), Range(0, 3)), Token(Text, Range(3, 7))]
  {
    var raw := "### abc";
    HeadingThenTextFirstCall();
    HeadingThenTextSecondCall();
    var lx1 := Lexer(raw, 3, 0, None, []);
    var lx5 := Lexer(raw, 7, 6, None, []);
    assert Drain(lx5) == [];
    assert Drain(lx1) == [Token(Text, Range(3, 7))] + Drain(lx5);
    assert Tokenize(raw) == [Token(Heading(3), Range(0, 3))] + Drain(lx1);
  }

  /** Finding: once a reader has pulled the source dry while the cursor is
      still short of the last offset, `next_token` loops forever. On "---"
      the first call returns the break; the second never returns. */
  lemma SpinsAfterTrailingBreakAsWritten()
    ensures var p1 := NextToken(New("---"), AsWritten);
            && p1 == Emitted(Token(Breaks, Range(0, 3)), Lexer("---", 3, 0, None, []))
            && NextToken(p1.lexer, AsWritten).Spins?
  {
    var raw := "---";
    assert Blocks.RunEnds(raw, 0, 3, '-');
    var t := Blocks.ReadBreaks(raw, 0, Blocks.TakeWhile).token.value;
    Blocks.RunEndsUnique(raw, 0, 3, t.range.end, '-');
  }

  /** Corrected: the loop stops when the source is exhausted, so "---" is one
      break and then the end of the stream. */
  lemma TrailingBreakCorrected()
    ensures Tokenize("---") == [Token(Breaks, Range(0, 3))]
  {
    var raw := "---";
    assert Blocks.RunEnds(raw, 0, 3, '-');
    var t := Blocks.ReadBreaks(raw, 0, Blocks.NextIf).token.value;
    Blocks.RunEndsUnique(raw, 0, 3, t.range.end, '-');
    var lx1 := Lexer(raw, 3, 0, None, []);
    assert NextToken(New(raw), Corrected) == Emitted(Token(Breaks, Range(0, 3)), lx1);
    assert NextToken(lx1, Corrected) == Exhausted(lx1);
  }

  /** Two dashes are too short for a break. As written, the reader drains
      the source while the cursor stays at 0, so the first call never
      returns; the corrected lexer finds the source exhausted and yields
      nothing. */
  lemma ShortBreakDropped()
    ensures NextToken(New("--"), AsWritten).Spins?
    ensures Tokenize("--") == []
  {
    var raw := "--";
    assert raw[1] == '-';
    var lx1 := Lexer(raw, 2, 0, None, []);
    assert Iterate(New(raw), Corrected) == Step(None, lx1);
    assert NextToken(lx1, Corrected) == Exhausted(lx1);
  }

  /** A Unix line ending between two characters: the text before it is
      emitted when the `\n` enters the buffer, the `EOL` on the next call. */
  lemma UnixNewlineExample()
    ensures Tokenize("a\nb") ==
              [Token(Text, Range(0, 1)), Token(EOL, Range(1, 2)), Token(Text, Range(2, 3))]
  {
    var raw := "a\nb";
    var lx1 := Lexer(raw, 1, 0, Some(Range(0, 1)), []);
    PlainPass(New(raw), Corrected);
    assert Iterate(New(raw), Corrected) == Step(None, lx1);
    var lx2 := Lexer(raw, 2, 1, None, "\n");
    assert NextToken(New(raw), Corrected) == Emitted(Token(Text, Range(0, 1)), lx2);
    var lx3 := Lexer(raw, 2, 1, None, []);
    assert NextToken(lx2, Corrected) == Emitted(Token(EOL, Range(1, 2)), lx3);
    var lx4 := Lexer(raw, 3, 2, None, []);
    assert NextToken(lx3, Corrected) == Emitted(Token(Text, Range(2, 3)), lx4);
    assert Drain(lx4) == [];
  }

  /** With the line ending fixed to `\n`, a `\r` stays in the buffer for
      good and every later plain character joins it: "a\r\nb" gives no token. */
  lemma CarriageReturnStallsBuffer()
    ensures Tokenize("a\r\nb") == []
  {
    var raw := "a\r\nb";
    var lx1 := Lexer(raw, 1, 0, Some(Range(0, 1)), []);
    PlainPass(New(raw), Corrected);
    assert Iterate(New(raw), Corrected) == Step(None, lx1);
    var lx2 := Lexer(raw, 2, 1, Some(Range(0, 1)), "\r");
    PlainPass(lx1, Corrected);
    assert Iterate(lx1, Corrected) == Step(None, lx2);
    var lx3 := Lexer(raw, 3, 2, Some(Range(0, 1)), "\r\n");
    PlainPass(lx2, Corrected);
    assert Iterate(lx2, Corrected) == Step(None, lx3);
    var lx4 := Lexer(raw, 4, 3, Some(Range(0, 1)), "\r\nb");
    PlainPass(lx3, Corrected);
    assert Iterate(lx3, Corrected) == Step(None, lx4);
    SilentPass(New(raw), Corrected, lx1);
    SilentPass(lx1, Corrected, lx2);
    SilentPass(lx2, Corrected, lx3);
    SilentPass(lx3, Corrected, lx4);
    assert NextToken(lx4, Corrected) == Exhausted(lx4);
  }

  /** The first call on "ab#cd" returns the heading and keeps the text open. */
  lemma TextSpansHeadingFirstCall()
    ensures NextToken(New("ab#cd"), Corrected) ==
              Emitted(Token(Heading(1), Range(2, 3)), Lexer("ab#cd", 3, 2, Some(Range(0, 2)), []))
  {
    var raw := "ab#cd";
    assert Blocks.RunEnds(raw, 2, 3, '#');
    var t := Blocks.ReadHeader(raw, 2, Blocks.NextIf).token.value;
    Blocks.RunEndsUnique(raw, 2, 3, t.range.end, '#');
    var lx1 := Lexer(raw, 1, 0, Some(Range(0, 1)), []);
    PlainPass(New(raw), Corrected);
    assert Iterate(New(raw), Corrected) == Step(None, lx1);
    var lx2 := Lexer(raw, 2, 1, Some(Range(0, 2)), []);
    PlainPass(lx1, Corrected);
    assert Iterate(lx1, Corrected) == Step(None, lx2);
  }

  /** Readers leave the plain-text range open, so text around a heading is
      one token whose range covers the heading too. */
  lemma TextSpansHeading()
    ensures Tokenize("ab#cd") == [Token(Heading(1), Range(2, 3)), Token(Text, Range(0, 5))]
  {
    var raw := "ab#cd";
    TextSpansHeadingFirstCall();
    var lx3 := Lexer(raw, 3, 2, Some(Range(0, 2)), []);
    var lx4 := Lexer(raw, 4, 3, Some(Range(0, 4)), []);
    PlainPass(lx3, Corrected);
    assert Iterate(lx3, Corrected) == Step(None, lx4);
    var lx5 := Lexer(raw, 5, 4, None, []);
    assert NextToken(lx3, Corrected) == Emitted(Token(Text, Range(0, 5)), lx5);
    assert Drain(lx5) == [];
    assert Drain(lx3) == [Token(Text, Range(0, 5))] + Drain(lx5);
    assert Tokenize(raw) == [Token(Heading(1), Range(2, 3))] + Drain(lx3);
  }
}
