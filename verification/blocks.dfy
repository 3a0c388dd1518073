/** The run readers of src/lexer/blocks.rs. Each is called right after the
    driver pulled the marker at `cur` from the source, so the source stands
    at `cur + 1`; each counts the marker run and builds a token whose range
    starts at `cur`. */
module Blocks {
  import opened Tokens
  import NextWhile

  /** The iterator adaptor that counts the run after the first marker. */
  datatype Adaptor =
    | TakeWhile  // `take_while(..).count()` on the borrowed source: the first non-marker is pulled and dropped
    | NextIf     // `next_while_count`: the first non-marker is only peeked and stays in the source

  /** What a reader gives back: its token, and where the source stands afterwards. */
  datatype Read = Read(token: Option<Token>, next: nat)

  /** `raw[cur..end]` is a maximal run of `mark`, apart from `raw[cur]`, which the
      driver already pulled and classified. */
  predicate RunEnds(raw: string, cur: nat, end: nat, mark: char) {
    && cur < end <= |raw|
    && (forall i :: cur < i < end ==> raw[i] == mark)
    && (end < |raw| ==> raw[end] != mark)
  }

  /** A run has one end only. */
  lemma RunEndsUnique(raw: string, cur: nat, e1: nat, e2: nat, mark: char)
    requires RunEnds(raw, cur, e1, mark) && RunEnds(raw, cur, e2, mark)
    ensures e1 == e2
  {
  }

  /** One plus the number of `mark`s right after `cur`. */
  function RunLength(raw: string, cur: nat, mark: char): (n: nat)
    requires cur < |raw|
    ensures RunEnds(raw, cur, cur + n, mark)
  {
    var rest := raw[cur + 1..];
    var k := NextWhile.PrefixCount(rest, c => c == mark);
    assert forall i :: cur < i < cur + 1 + k ==> raw[i] == rest[i - cur - 1];
    1 + k
  }

  /** Where the source stands once a run ending at `end` was counted. */
  function SourceAfter(raw: string, end: nat, adaptor: Adaptor): nat {
    if adaptor.TakeWhile? && end < |raw| then end + 1 else end
  }

  /** `read_breaks`: a run of at least three dashes is a `Breaks` token. */
  function ReadBreaks(raw: string, cur: nat, adaptor: Adaptor): (r: Read)
    requires cur < |raw|
    ensures r.token.Some? <==> cur + 2 < |raw| && raw[cur + 1] == '-' && raw[cur + 2] == '-'
    ensures r.token.Some? ==>
              && r.token.value.content == Breaks
              && r.token.value.range.start == cur
              && RunEnds(raw, cur, r.token.value.range.end, '-')
    ensures r.next == SourceAfter(raw, cur + RunLength(raw, cur, '-'), adaptor)
  {
    var count := RunLength(raw, cur, '-');
    var token := if count < 3 then None else Some(Token(Breaks, Range(cur, cur + count)));
    Read(token, SourceAfter(raw, cur + count, adaptor))
  }

  /** `read_code_block`: a run of at least three backticks is a `Code` token. */
  function ReadCodeBlock(raw: string, cur: nat, adaptor: Adaptor): (r: Read)
    requires cur < |raw|
    ensures r.token.Some? <==> cur + 2 < |raw| && raw[cur + 1] == '`' && raw[cur + 2] == '`'
    ensures r.token.Some? ==>
              && r.token.value.content == Code
              && r.token.value.range.start == cur
              && RunEnds(raw, cur, r.token.value.range.end, '`')
    ensures r.next == SourceAfter(raw, cur + RunLength(raw, cur, '`'), adaptor)
  {
    var count := RunLength(raw, cur, '`');
    var token := if count < 3 then None else Some(Token(Code, Range(cur, cur + count)));
    Read(token, SourceAfter(raw, cur + count, adaptor))
  }

  /** `read_header`: always a `Heading`, whose range spans the whole run but
      whose level is the run length cast to `u8`. */
  function ReadHeader(raw: string, cur: nat, adaptor: Adaptor): (r: Read)
    requires cur < |raw|
    ensures r.token.Some?
    ensures r.token.value.range.start == cur
    ensures RunEnds(raw, cur, r.token.value.range.end, '#')
    ensures r.token.value.content == Heading(((r.token.value.range.end - cur) % 256) as u8)
    ensures r.next == SourceAfter(raw, r.token.value.range.end, adaptor)
  {
    var level := RunLength(raw, cur, '#');
    Read(Some(Token(Heading((level % 256) as u8), Range(cur, cur + level))), SourceAfter(raw, cur + level, adaptor))
  }

  /** The stored level equals the range length exactly when the run is
      shorter than 256. */
  lemma HeadingLevelTruncated(raw: string, cur: nat, adaptor: Adaptor)
    requires cur < |raw|
    ensures var t := ReadHeader(raw, cur, adaptor).token.value;
            t.content.level as int == t.range.end - t.range.start <==> t.range.end - t.range.start < 256
  {
  }

  /** A run of 256 `#` is a heading of level 0 spanning 256 offsets. */
  lemma HeadingOf256Marks(adaptor: Adaptor)
    ensures var t := ReadHeader(seq(256, _ => '#'), 0, adaptor).token.value;
            t.content == Heading(0) && t.range == Range(0, 256)
  {
    var raw := seq(256, _ => '#');
    var e := ReadHeader(raw, 0, adaptor).token.value.range.end;
    assert RunEnds(raw, 0, 256, '#');
    RunEndsUnique(raw, 0, e, 256, '#');
  }

  /** The two adaptors make the same token. When the run stops before the
      end of the input, `take_while` leaves the source one offset further
      than `next_if`, and the offset it skips holds a character that is not
      the marker; when the run reaches the end, both leave it at the end. */
  lemma TerminatorHandling(raw: string, cur: nat)
    requires cur < |raw|
    ensures var h, h' := ReadHeader(raw, cur, TakeWhile), ReadHeader(raw, cur, NextIf);
            && h.token == h'.token
            && (h'.next < |raw| ==> h.next == h'.next + 1 && raw[h'.next] != '#')
            && (h'.next == |raw| ==> h.next == |raw|)
    ensures var b, b' := ReadBreaks(raw, cur, TakeWhile), ReadBreaks(raw, cur, NextIf);
            && b.token == b'.token
            && (b'.next < |raw| ==> b.next == b'.next + 1 && raw[b'.next] != '-')
            && (b'.next == |raw| ==> b.next == |raw|)
    ensures var c, c' := ReadCodeBlock(raw, cur, TakeWhile), ReadCodeBlock(raw, cur, NextIf);
            && c.token == c'.token
            && (c'.next < |raw| ==> c.next == c'.next + 1 && raw[c'.next] != '`')
            && (c'.next == |raw| ==> c.next == |raw|)
  {
  }
}
