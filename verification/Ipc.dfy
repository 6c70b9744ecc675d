/** Newline-delimited framing over a byte stream (common/ipc.py). The JSON codec is a parameter. */
module Ipc {
  import opened Schema
  import opened SeqLemmas

  newtype byte = x: int | 0 <= x < 256
  type bytes = seq<byte>

  const NEWLINE: byte := 10

  /** The whitespace bytes.strip() removes. */
  predicate IsSpace(b: byte) { 9 <= b <= 13 || b == 32 }

  predicate Blank(line: bytes) { forall i :: 0 <= i < |line| ==> IsSpace(line[i]) }

  /** `encode` gives a message's JSON body without the terminating newline; `decode` is None for a malformed line. */
  datatype Codec<!M> = Codec(encode: M -> bytes, decode: bytes -> Option<M>)

  ghost predicate Faithful<M(!new)>(c: Codec<M>) {
    forall m :: NEWLINE !in c.encode(m) && !Blank(c.encode(m)) && c.decode(c.encode(m)) == Some(m)
  }

  // ---- splitting into lines ----

  datatype Split = Split(lines: seq<bytes>, rest: bytes)

  function FirstNewline(b: bytes): (i: nat)
    requires NEWLINE in b
    ensures i < |b| && b[i] == NEWLINE && NEWLINE !in b[..i]
  {
    if b[0] == NEWLINE then 0
    else
      var j := FirstNewline(b[1..]);
      assert b[..j + 1] == [b[0]] + b[1..][..j];
      j + 1
  }

  /** Complete lines, and whatever follows the last newline. */
  function SplitLines(b: bytes): Split
    decreases |b|
  {
    if NEWLINE !in b then Split([], b)
    else
      var i := FirstNewline(b);
      var s := SplitLines(b[i + 1..]);
      Split([b[..i]] + s.lines, s.rest)
  }

  function Unlines(lines: seq<bytes>): bytes {
    if lines == [] then [] else lines[0] + [NEWLINE] + Unlines(lines[1..])
  }

  lemma FirstNewlineIs(b: bytes, i: nat)
    requires i < |b| && b[i] == NEWLINE && NEWLINE !in b[..i]
    ensures FirstNewline(b) == i
  {
    var j := FirstNewline(b);
    assert forall k :: 0 <= k < j ==> b[..j][k] == b[k];
    assert forall k :: 0 <= k < i ==> b[..i][k] == b[k];
    assert !(i < j) && !(j < i);
  }

  lemma UnlinesCons(line: bytes, lines: seq<bytes>)
    ensures Unlines([line] + lines) == line + [NEWLINE] + Unlines(lines)
  {
    assert ([line] + lines)[1..] == lines;
  }

  /** Nothing is lost or invented: lines plus residual spell out the input. */
  lemma {:induction false} SplitReassembles(b: bytes)
    ensures Unlines(SplitLines(b).lines) + SplitLines(b).rest == b
    decreases |b|
  {
    if NEWLINE in b {
      var i := FirstNewline(b);
      var s := SplitLines(b[i + 1..]);
      SplitReassembles(b[i + 1..]);
      UnlinesCons(b[..i], s.lines);
      CutAt(b, i);
      ConcatAssoc(b[..i] + [NEWLINE], Unlines(s.lines), s.rest);
    }
  }

  /** Neither a line nor the residual ever holds a newline. */
  lemma {:induction false} SplitHoldsNoNewline(b: bytes)
    ensures NEWLINE !in SplitLines(b).rest
    ensures forall k :: 0 <= k < |SplitLines(b).lines| ==> NEWLINE !in SplitLines(b).lines[k]
    decreases |b|
  {
    if NEWLINE in b {
      SplitHoldsNoNewline(b[FirstNewline(b) + 1..]);
    }
  }

  /** Cutting the input anywhere and carrying the residual over changes nothing. */
  lemma {:induction false} SplitConcat(a: bytes, b: bytes)
    ensures var s := SplitLines(a);
            var t := SplitLines(s.rest + b);
            SplitLines(a + b) == Split(s.lines + t.lines, t.rest)
    decreases |a|
  {
    if NEWLINE in a {
      var i := FirstNewline(a);
      var a1 := a[i + 1..];
      assert (a + b)[..i] == a[..i];
      FirstNewlineIs(a + b, i);
      assert (a + b)[i + 1..] == a1 + b;
      SplitConcat(a1, b);
      var s1 := SplitLines(a1);
      var t := SplitLines(s1.rest + b);
      assert SplitLines(a + b) == Split([a[..i]] + SplitLines(a1 + b).lines, SplitLines(a1 + b).rest);
      ConcatAssoc([a[..i]], s1.lines, t.lines);
    } else {
      assert SplitLines(a) == Split([], a);
    }
  }

  lemma SplitOneLine(line: bytes, b: bytes)
    requires NEWLINE !in line
    ensures SplitLines(line + [NEWLINE] + b) == Split([line] + SplitLines(b).lines, SplitLines(b).rest)
  {
    var all := line + [NEWLINE] + b;
    assert all[..|line|] == line;
    FirstNewlineIs(all, |line|);
    assert all[|line| + 1..] == b;
  }

  // ---- decoding ----

  function DecodeLine<M>(c: Codec<M>, line: bytes): seq<M> {
    if Blank(line) then []
    else match c.decode(line) case Some(m) => [m] case None => []
  }

  function DecodeLines<M>(c: Codec<M>, lines: seq<bytes>): seq<M> {
    if lines == [] then [] else DecodeLine(c, lines[0]) + DecodeLines(c, lines[1..])
  }

  /** A line of nothing but tab, line feed, vertical tab, form feed, carriage return and space yields nothing;
      any other what it decodes to, if it does. */
  lemma LineYields<M>(c: Codec<M>, line: bytes)
    ensures DecodeLines(c, [line]) ==
              if (forall i :: 0 <= i < |line| ==> line[i] in {9, 10, 11, 12, 13, 32}) || c.decode(line).None? then []
              else [c.decode(line).value]
  {
    assert [line][..0] == [] && [line][1..] == [];
    assert Blank(line) <==> forall i :: 0 <= i < |line| ==> line[i] in {9, 10, 11, 12, 13, 32};
  }

  lemma {:induction false} DecodeLinesConcat<M>(c: Codec<M>, a: seq<bytes>, b: seq<bytes>)
    ensures DecodeLines(c, a + b) == DecodeLines(c, a) + DecodeLines(c, b)
  {
    if a == [] {
      assert a + b == b;
    } else {
      DecodeLinesConcat(c, a[1..], b);
      assert (a + b)[1..] == a[1..] + b;
      ConcatAssoc(DecodeLine(c, a[0]), DecodeLines(c, a[1..]), DecodeLines(c, b));
    }
  }

  /** Messages delivered, and the partial line held back. */
  datatype Fed<M> = Fed(messages: seq<M>, residual: bytes)

  function Parse<M>(c: Codec<M>, b: bytes): Fed<M> {
    Fed(DecodeLines(c, SplitLines(b).lines), SplitLines(b).rest)
  }

  lemma DecodeCons<M>(c: Codec<M>, line: bytes, lines: seq<bytes>)
    ensures DecodeLines(c, [line] + lines) == DecodeLine(c, line) + DecodeLines(c, lines)
  {
    assert ([line] + lines)[1..] == lines;
  }

  lemma ParseFirstLine<M>(c: Codec<M>, b: bytes)
    requires NEWLINE in b
    ensures var i := FirstNewline(b);
            Parse(c, b) == Fed(DecodeLine(c, b[..i]) + Parse(c, b[i + 1..]).messages, Parse(c, b[i + 1..]).residual)
  {
    var i := FirstNewline(b);
    DecodeCons(c, b[..i], SplitLines(b[i + 1..]).lines);
  }

  lemma ParseConcat<M>(c: Codec<M>, a: bytes, b: bytes)
    ensures var s := Parse(c, a);
            var t := Parse(c, s.residual + b);
            Parse(c, a + b) == Fed(s.messages + t.messages, t.residual)
  {
    SplitConcat(a, b);
    DecodeLinesConcat(c, SplitLines(a).lines, SplitLines(SplitLines(a).rest + b).lines);
  }

  // ---- chunked delivery ----

  function Flatten(chunks: seq<bytes>): bytes {
    if chunks == [] then [] else chunks[0] + Flatten(chunks[1..])
  }

  /** One `feed` call per chunk, results concatenated. */
  function FeedAll<M>(c: Codec<M>, residual: bytes, chunks: seq<bytes>): Fed<M>
    decreases |chunks|
  {
    if chunks == [] then Fed([], residual)
    else
      var first := Parse(c, residual + chunks[0]);
      var rest := FeedAll(c, first.residual, chunks[1..]);
      Fed(first.messages + rest.messages, rest.residual)
  }

  /** However the stream is cut into reads, the messages and the residual are those of one big read. */
  lemma {:induction false} ChunkingInvariance<M>(c: Codec<M>, residual: bytes, chunks: seq<bytes>)
    requires NEWLINE !in residual
    ensures FeedAll(c, residual, chunks) == Parse(c, residual + Flatten(chunks))
    ensures NEWLINE !in FeedAll(c, residual, chunks).residual
    decreases |chunks|
  {
    if chunks == [] {
      assert residual + Flatten(chunks) == residual;
      assert SplitLines(residual) == Split([], residual);
    } else {
      var head := residual + chunks[0];
      SplitHoldsNoNewline(head);
      ChunkingInvariance(c, Parse(c, head).residual, chunks[1..]);
      ParseConcat(c, head, Flatten(chunks[1..]));
      ConcatAssoc(residual, chunks[0], Flatten(chunks[1..]));
    }
  }

  // ---- framing ----

  /** What may stand on one line of the stream: a message, or a line the reader must skip. */
  datatype Frame<M> = Body(message: M) | Noise(line: bytes)

  ghost predicate Skippable<M>(c: Codec<M>, line: bytes) {
    NEWLINE !in line && (Blank(line) || c.decode(line).None?)
  }

  function Stream<M>(c: Codec<M>, frames: seq<Frame<M>>): bytes {
    if frames == [] then []
    else (match frames[0] case Body(m) => c.encode(m) case Noise(l) => l) + [NEWLINE] + Stream(c, frames[1..])
  }

  function MessagesOf<M>(frames: seq<Frame<M>>): seq<M> {
    if frames == [] then []
    else (match frames[0] case Body(m) => [m] case Noise(_) => []) + MessagesOf(frames[1..])
  }

  lemma {:induction false} StreamParses<M(!new)>(c: Codec<M>, frames: seq<Frame<M>>)
    requires Faithful(c)
    requires forall f :: f in frames && f.Noise? ==> Skippable(c, f.line)
    ensures Parse(c, Stream(c, frames)) == Fed(MessagesOf(frames), [])
  {
    if frames != [] {
      var line := match frames[0] case Body(m) => c.encode(m) case Noise(l) => l;
      SplitOneLine(line, Stream(c, frames[1..]));
      StreamParses(c, frames[1..]);
      DecodeCons(c, line, SplitLines(Stream(c, frames[1..])).lines);
    }
  }

  /** Round trip: any messages, with any skippable lines among them, cut into any chunks, arrive
      exactly, in order, with nothing left over. */
  lemma FramingRoundTrip<M(!new)>(c: Codec<M>, frames: seq<Frame<M>>, chunks: seq<bytes>)
    requires Faithful(c)
    requires forall f :: f in frames && f.Noise? ==> Skippable(c, f.line)
    requires Flatten(chunks) == Stream(c, frames)
    ensures FeedAll(c, [], chunks) == Fed(MessagesOf(frames), [])
  {
    ChunkingInvariance(c, [], chunks);
    assert [] + Flatten(chunks) == Stream(c, frames);
    StreamParses(c, frames);
  }

  /** A stream cut mid-frame delivers a prefix of its messages, and the bytes not yet read, appended
      to the residual, deliver exactly the others. */
  lemma CutDeliversPrefix<M(!new)>(c: Codec<M>, frames: seq<Frame<M>>, chunks: seq<bytes>, n: nat)
    requires Faithful(c)
    requires forall f :: f in frames && f.Noise? ==> Skippable(c, f.line)
    requires n <= |Stream(c, frames)| && Flatten(chunks) == Stream(c, frames)[..n]
    ensures var fed := FeedAll(c, [], chunks);
            MessagesOf(frames) == fed.messages + Parse(c, fed.residual + Stream(c, frames)[n..]).messages
  {
    var s := Stream(c, frames);
    ChunkingInvariance(c, [], chunks);
    assert [] + Flatten(chunks) == s[..n] && s[..n] + s[n..] == s;
    ParseConcat(c, s[..n], s[n..]);
    StreamParses(c, frames);
  }

  // ---- message streams without noise, as the daemon writes them ----

  function Bodies<M>(ms: seq<M>): seq<Frame<M>> {
    seq(|ms|, i requires 0 <= i < |ms| => Body(ms[i]))
  }

  function Sent<M>(c: Codec<M>, ms: seq<M>): bytes {
    Stream(c, Bodies(ms))
  }

  lemma {:induction false} StreamConcat<M>(c: Codec<M>, a: seq<Frame<M>>, b: seq<Frame<M>>)
    ensures Stream(c, a + b) == Stream(c, a) + Stream(c, b)
  {
    if a == [] {
      assert a + b == b;
    } else {
      StreamConcat(c, a[1..], b);
      assert (a + b)[1..] == a[1..] + b;
      var line := (match a[0] case Body(m) => c.encode(m) case Noise(l) => l) + [NEWLINE];
      ConcatAssoc(line, Stream(c, a[1..]), Stream(c, b));
    }
  }

  lemma SentConcat<M>(c: Codec<M>, a: seq<M>, b: seq<M>)
    ensures Sent(c, a + b) == Sent(c, a) + Sent(c, b)
  {
    assert Bodies(a + b) == Bodies(a) + Bodies(b);
    StreamConcat(c, Bodies(a), Bodies(b));
  }

  lemma {:induction false} MessagesOfBodies<M>(ms: seq<M>)
    ensures MessagesOf(Bodies(ms)) == ms
  {
    if ms != [] {
      assert Bodies(ms)[1..] == Bodies(ms[1..]);
      MessagesOfBodies(ms[1..]);
      assert ms == [ms[0]] + ms[1..];
    }
  }

  lemma SentParses<M(!new)>(c: Codec<M>, ms: seq<M>)
    requires Faithful(c)
    ensures Parse(c, Sent(c, ms)) == Fed(ms, [])
  {
    StreamParses(c, Bodies(ms));
    MessagesOfBodies(ms);
  }

  // ---- the buffer object ----

  class NDJSONBuffer<M> {
    const codec: Codec<M>
    var buf: bytes

    constructor (codec: Codec<M>)
      ensures buf == [] && this.codec == codec
    {
      this.codec, buf := codec, [];
    }

    method Feed(data: bytes) returns (messages: seq<M>)
      modifies this
      ensures Fed(messages, buf) == Parse(codec, old(buf) + data)
      ensures NEWLINE !in buf
    {
      buf := buf + data;
      ghost var all := Parse(codec, buf);
      messages := [];
      while NEWLINE in buf
        invariant all == Fed(messages + Parse(codec, buf).messages, Parse(codec, buf).residual)
        decreases |buf|
      {
        var i := FirstNewline(buf);
        var line := buf[..i];
        ParseFirstLine(codec, buf);
        ghost var before, rest := messages, Parse(codec, buf[i + 1..]);
        buf := buf[i + 1..];
        if !Blank(line) {
          var obj := codec.decode(line);
          if obj.Some? { messages := messages + [obj.value]; }
        }
        assert messages == before + DecodeLine(codec, line);
        ConcatAssoc(before, DecodeLine(codec, line), rest.messages);
      }
      assert Parse(codec, buf) == Fed([], buf);
    }
  }
}
