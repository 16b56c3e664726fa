/** The layout of a replay file, written out: a serializer for every stretch the parse
    walks over, and the proof that the walk reads back what was written. */
module Writer {
  import opened Bytes
  import opened OsrTypes
  import Uleb128
  import opened Records
  import opened Parser

  /** The string marker and the length byte that precede each 32-byte hash. */
  const HASH_MARKER: seq<byte> := [0x0B, 0x20]
  /** The string marker before the player name and the life-bar payload. */
  const STRING_MARKER: byte := 0x0B

  /** `v` fits in `w` bytes of two's complement. */
  predicate Fits(v: int, w: nat)
    requires w > 0
  {
    -Half(w) <= v < Half(w)
  }

  /** `x` stands in `buf` at `at`. */
  predicate IsAt(buf: seq<byte>, at: nat, x: seq<byte>) {
    at + |x| <= |buf| && buf[at..at + |x|] == x
  }

  /** What stands at `at` splits into its two halves. */
  lemma IsAtSplit(buf: seq<byte>, at: nat, x: seq<byte>, y: seq<byte>)
    requires IsAt(buf, at, x + y)
    ensures IsAt(buf, at, x) && IsAt(buf, at + |x|, y)
  {
    assert buf[at..at + |x|] == (x + y)[..|x|];
    assert buf[at + |x|..at + |x| + |y|] == (x + y)[|x|..];
  }

  /** What stands at `at` splits into its two halves, the second at `p`. */
  lemma IsAtSplitAt(buf: seq<byte>, at: nat, x: seq<byte>, y: seq<byte>, p: nat)
    requires IsAt(buf, at, x + y) && p == at + |x|
    ensures IsAt(buf, at, x) && IsAt(buf, p, y)
  {
    IsAtSplit(buf, at, x, y);
  }

  /** What stands at `at` splits into its five parts. */
  lemma IsAtSplit5(buf: seq<byte>, at: nat, x1: seq<byte>, x2: seq<byte>, x3: seq<byte>, x4: seq<byte>, x5: seq<byte>)
    requires IsAt(buf, at, x1 + x2 + x3 + x4 + x5)
    ensures IsAt(buf, at, x1) && IsAt(buf, at + |x1|, x2) && IsAt(buf, at + |x1| + |x2|, x3)
    ensures IsAt(buf, at + |x1| + |x2| + |x3|, x4) && IsAt(buf, at + |x1| + |x2| + |x3| + |x4|, x5)
  {
    IsAtSplit(buf, at, x1 + x2 + x3 + x4, x5);
    IsAtSplit(buf, at, x1 + x2 + x3, x4);
    IsAtSplit(buf, at, x1 + x2, x3);
    IsAtSplit(buf, at, x1, x2);
  }

  /** A signed field stored at `at` reads back. */
  lemma SignedIsAt(buf: seq<byte>, at: nat, v: int, w: nat)
    requires w > 0 && Fits(v, w) && IsAt(buf, at, EncodeSigned(v, w))
    ensures SignedAt(buf, at, w) == v
  {
    var s := EncodeSigned(v, w);
    assert s[0..w] == s;
    SignedAtEncode(v, w);
    SignedAtMoved(buf, at, s, 0, w);
  }

  /** The header fields of `rep` fit the widths the file gives them. */
  predicate HeadWritable(rep: Replay) {
    && Fits(rep.mode, 1) && Fits(rep.version, 4)
    && |rep.beatmapHash| == 32 && |rep.playerName| <= MAX_NAME
  }

  predicate ScoreWritable(rep: Replay) {
    && |rep.replayHash| == 32
    && Fits(rep.threeHundreds, 2) && Fits(rep.hundreds, 2) && Fits(rep.fifties, 2)
    && Fits(rep.gekis, 2) && Fits(rep.katus, 2) && Fits(rep.misses, 2)
    && Fits(rep.totalScore, 4) && Fits(rep.greatestCombo, 2) && Fits(rep.perfectCombo, 1)
  }

  /** A replay the file format can hold: every field fits its width, the name is at
      most 255 bytes and its recorded size is its length. */
  predicate Writable(rep: Replay) {
    && HeadWritable(rep) && ScoreWritable(rep)
    && rep.playerNameSize == |rep.playerName|
    && Fits(rep.timeStamp, 8) && Fits(rep.onlineScoreId, 8)
  }

  /** Every life-bar point and action frame of `rep` can be written as record text. */
  predicate RecordsWritable(rep: Replay) {
    && (forall k :: 0 <= k < |rep.lifeBarGraph| ==> PointWritable(rep.lifeBarGraph[k]))
    && (forall k :: 0 <= k < |rep.replayData| ==> FrameWritable(rep.replayData[k]))
  }

  /** The compressed action stream as stored: the 5 property bytes, the 8-byte declared
      size and the compressed block, whose length must fit the 4-byte size field. */
  datatype Block = Block(props: seq<byte>, declared: seq<byte>, data: seq<byte>)

  predicate BlockWritable(b: Block) {
    |b.props| == 5 && |b.declared| == 8 && Fits(|b.data|, 4)
  }

  /** The decoder turns the block into `output`, consuming all of it. */
  predicate Decodes(lzma: LzmaDecoder, b: Block, output: seq<byte>)
    requires BlockWritable(b)
  {
    lzma(b.data, b.props, UnsignedAt(b.declared, 0, 8)) == LzmaOutcome(SZ_OK, output, |b.data|)
  }

  function HeadText(rep: Replay): seq<byte>
  {
    EncodeSigned(rep.mode, 1) + EncodeSigned(rep.version, 4) + HASH_MARKER + rep.beatmapHash
    + [STRING_MARKER] + Uleb128.Encode(|rep.playerName|) + rep.playerName
  }

  function ScoreText(rep: Replay): (s: seq<byte>)
    ensures |s| == 25 + |rep.replayHash|
  {
    HASH_MARKER + rep.replayHash
    + EncodeSigned(rep.threeHundreds, 2) + EncodeSigned(rep.hundreds, 2) + EncodeSigned(rep.fifties, 2)
    + EncodeSigned(rep.gekis, 2) + EncodeSigned(rep.katus, 2) + EncodeSigned(rep.misses, 2)
    + EncodeSigned(rep.totalScore, 4) + EncodeSigned(rep.greatestCombo, 2) + EncodeSigned(rep.perfectCombo, 1)
    + BytesOf32(rep.mods)
  }

  /** A string field: the marker, the ULEB128 length, then the bytes. */
  function Section(text: seq<byte>): seq<byte>
  {
    [STRING_MARKER] + Uleb128.Encode(|text|) + text
  }

  function StreamText(timeStamp: int, b: Block): (s: seq<byte>)
    ensures |s| == 12 + |b.props| + |b.declared| + |b.data|
  {
    EncodeSigned(timeStamp, 8) + EncodeSigned(|b.data|, 4) + b.props + b.declared + b.data
  }

  /** A whole replay file holding the fields of `rep`, with `lifeBar` as the life-bar
      payload and the action frames compressed into `b`. */
  function ReplayText(rep: Replay, lifeBar: seq<byte>, b: Block): seq<byte>
  {
    HeadText(rep) + ScoreText(rep) + Section(lifeBar) + StreamText(rep.timeStamp, b)
    + EncodeSigned(rep.onlineScoreId, 8)
  }

  /** The header fields of `rep`, as the first stage returns them. */
  function HeadOf(rep: Replay): Head {
    Head(rep.mode, rep.version, rep.beatmapHash, rep.playerName)
  }

  /** The score fields of `rep`, as the second stage returns them. */
  function ScoreOf(rep: Replay): Score {
    Score(rep.replayHash, rep.threeHundreds, rep.hundreds, rep.fifties, rep.gekis, rep.katus,
          rep.misses, rep.totalScore, rep.greatestCombo, rep.perfectCombo, rep.mods)
  }

  // ---- Each stage reads back what was written ----

  /** Where the header stands, each of its fields reads back. */
  lemma HeadLayout(buf: seq<byte>, rep: Replay)
    requires HeadWritable(rep) && IsAt(buf, 0, HeadText(rep))
    ensures var n := 40 + |Uleb128.Encode(|rep.playerName|)|;
      && |HeadText(rep)| == n + |rep.playerName|
      && SignedAt(buf, 0, 1) == rep.mode && SignedAt(buf, 1, 4) == rep.version
      && buf[7..39] == rep.beatmapHash
      && Uleb128.Decode(buf, 40) == Ok(Read(|rep.playerName|, n))
      && buf[n..n + |rep.playerName|] == rep.playerName
  {
    var m, v := EncodeSigned(rep.mode, 1), EncodeSigned(rep.version, 4);
    var len := Uleb128.Encode(|rep.playerName|);
    var p2 := m + v;
    var p3 := p2 + HASH_MARKER;
    var p4 := p3 + rep.beatmapHash;
    var p5 := p4 + [STRING_MARKER];
    var p6 := p5 + len;
    assert |p2| == 5 && |p3| == 7 && |p4| == 39 && |p5| == 40 && |p6| == 40 + |len|;
    IsAtSplit(buf, 0, p6, rep.playerName);
    IsAtSplit(buf, 0, p5, len);
    assert buf[40..40 + |len|] == len;
    IsAtSplit(buf, 0, p3, rep.beatmapHash);
    assert buf[7..39] == rep.beatmapHash;
    IsAtSplit(buf, 0, m, v);
    assert buf[1..5] == v;
    SignedIsAt(buf, 0, rep.mode, 1);
    SignedIsAt(buf, 1, rep.version, 4);
    Uleb128.DecodeEncode(buf, 40, |rep.playerName|);
  }

  lemma HeadRoundTrip(buf: seq<byte>, rep: Replay)
    requires HeadWritable(rep) && IsAt(buf, 0, HeadText(rep))
    ensures HeadStage(buf) == Ok(Read(HeadOf(rep), |HeadText(rep)|))
  {
    HeadLayout(buf, rep);
  }

  /** Where the score block stands at `c`, each of its fields reads back. */
  lemma ScoreLayout(buf: seq<byte>, c: nat, rep: Replay)
    requires ScoreWritable(rep) && IsAt(buf, c, ScoreText(rep))
    ensures c + 57 <= |buf| && buf[c + 2..c + 34] == rep.replayHash
    ensures SignedAt(buf, c + 34, 2) == rep.threeHundreds && SignedAt(buf, c + 36, 2) == rep.hundreds
    ensures SignedAt(buf, c + 38, 2) == rep.fifties && SignedAt(buf, c + 40, 2) == rep.gekis
    ensures SignedAt(buf, c + 42, 2) == rep.katus && SignedAt(buf, c + 44, 2) == rep.misses
    ensures SignedAt(buf, c + 46, 4) == rep.totalScore && SignedAt(buf, c + 50, 2) == rep.greatestCombo
    ensures SignedAt(buf, c + 52, 1) == rep.perfectCombo && Bits32At(buf, c + 53) == rep.mods
  {
    var a := HASH_MARKER + rep.replayHash;
    var b := a + EncodeSigned(rep.threeHundreds, 2);
    var d := b + EncodeSigned(rep.hundreds, 2);
    var e := d + EncodeSigned(rep.fifties, 2);
    var f := e + EncodeSigned(rep.gekis, 2);
    var g := f + EncodeSigned(rep.katus, 2);
    var h := g + EncodeSigned(rep.misses, 2);
    var i := h + EncodeSigned(rep.totalScore, 4);
    var j := i + EncodeSigned(rep.greatestCombo, 2);
    var k := j + EncodeSigned(rep.perfectCombo, 1);
    assert |a| == 34 && |b| == 36 && |d| == 38 && |e| == 40 && |f| == 42 && |g| == 44;
    assert |h| == 46 && |i| == 50 && |j| == 52 && |k| == 53;
    IsAtSplitAt(buf, c, k, BytesOf32(rep.mods), c + 53);
    ModsIsAt(buf, c + 53, rep.mods);
    IsAtSplitAt(buf, c, j, EncodeSigned(rep.perfectCombo, 1), c + 52);
    SignedIsAt(buf, c + 52, rep.perfectCombo, 1);
    IsAtSplitAt(buf, c, i, EncodeSigned(rep.greatestCombo, 2), c + 50);
    SignedIsAt(buf, c + 50, rep.greatestCombo, 2);
    IsAtSplitAt(buf, c, h, EncodeSigned(rep.totalScore, 4), c + 46);
    SignedIsAt(buf, c + 46, rep.totalScore, 4);
    IsAtSplitAt(buf, c, g, EncodeSigned(rep.misses, 2), c + 44);
    SignedIsAt(buf, c + 44, rep.misses, 2);
    IsAtSplitAt(buf, c, f, EncodeSigned(rep.katus, 2), c + 42);
    SignedIsAt(buf, c + 42, rep.katus, 2);
    IsAtSplitAt(buf, c, e, EncodeSigned(rep.gekis, 2), c + 40);
    SignedIsAt(buf, c + 40, rep.gekis, 2);
    IsAtSplitAt(buf, c, d, EncodeSigned(rep.fifties, 2), c + 38);
    SignedIsAt(buf, c + 38, rep.fifties, 2);
    IsAtSplitAt(buf, c, b, EncodeSigned(rep.hundreds, 2), c + 36);
    SignedIsAt(buf, c + 36, rep.hundreds, 2);
    IsAtSplitAt(buf, c, a, EncodeSigned(rep.threeHundreds, 2), c + 34);
    SignedIsAt(buf, c + 34, rep.threeHundreds, 2);
    IsAtSplit(buf, c, HASH_MARKER, rep.replayHash);
  }

  /** The score block written at `c` reads back as `rep`'s score fields; the stage
      stops at `end`, the 57 bytes of the block further on. */
  lemma ScoreRoundTrip(buf: seq<byte>, c: nat, end: nat, rep: Replay)
    requires ScoreWritable(rep) && IsAt(buf, c, ScoreText(rep)) && end == c + 57
    ensures ScoreStage(buf, c) == Ok(Read(ScoreOf(rep), end))
  {
    ScoreLayout(buf, c, rep);
  }

  /** The mods field stored at `at` reads back. */
  lemma ModsIsAt(buf: seq<byte>, at: nat, mods: bv32)
    requires IsAt(buf, at, BytesOf32(mods))
    ensures Bits32At(buf, at) == mods
  {
    var s := BytesOf32(mods);
    assert buf[at..at + 4] == s;
    Bits32Moved(buf, at, s);
  }

  /** A life-bar section written at `at` reads back as the points of its payload; the
      stage stops at `end`, just after the section. */
  lemma LifeBarSectionRoundTrip(buf: seq<byte>, at: nat, end: nat, text: seq<byte>, graph: seq<LifeBarPoint>)
    requires IsAt(buf, at, Section(text)) && LifeBarOf(text) == Ok(graph) && end == at + |Section(text)|
    ensures LifeBarStage(buf, at) == Ok(Read(graph, end))
  {
    var p := at + 1 + |Uleb128.Encode(|text|)|;
    SectionLayout(buf, at, p, text);
    SectionReads(buf, at, p, text, graph);
  }

  /** Where a marker, a length and a payload stand, the length reads back and the
      payload follows it, at `p`. */
  lemma SectionLayout(buf: seq<byte>, at: nat, p: nat, text: seq<byte>)
    requires IsAt(buf, at, Section(text)) && p == at + 1 + |Uleb128.Encode(|text|)|
    ensures Uleb128.Decode(buf, at + 1) == Ok(Read(|text|, p))
    ensures IsAt(buf, p, text) && at + |Section(text)| == p + |text|
  {
    var len := Uleb128.Encode(|text|);
    var p := [STRING_MARKER] + len;
    assert |p| == 1 + |len|;
    IsAtSplit(buf, at, p, text);
    IsAtSplit(buf, at, [STRING_MARKER], len);
    Uleb128.DecodeEncode(buf, at + 1, |text|);
  }

  /** A length-prefixed payload whose records read as `graph`. */
  lemma SectionReads(buf: seq<byte>, at: nat, p: nat, text: seq<byte>, graph: seq<LifeBarPoint>)
    requires Uleb128.Decode(buf, at + 1) == Ok(Read(|text|, p)) && IsAt(buf, p, text)
    requires LifeBarOf(text) == Ok(graph)
    ensures LifeBarStage(buf, at) == Ok(Read(graph, p + |text|))
  {
    var size := Uleb128.Decode(buf, at + 1).value;
    assert buf[size.next..size.next + size.value] == text;
    PayloadStage(buf, at, size, graph);
  }

  /** The life-bar stage is the records of the payload the length in front of it spans. */
  lemma PayloadStage(buf: seq<byte>, at: nat, size: Read<nat>, graph: seq<LifeBarPoint>)
    requires Uleb128.Decode(buf, at + 1) == Ok(size) && size.next + size.value <= |buf|
    requires LifeBarOf(buf[size.next..size.next + size.value]) == Ok(graph)
    ensures LifeBarStage(buf, at) == Ok(Read(graph, size.next + size.value))
  {
  }

  /** The stream written at `at` reads back: its time stamp, and the frames of the text
      the decoder makes of its block; the stage stops at `end`, just after the block. */
  lemma StreamRoundTrip(buf: seq<byte>, at: nat, end: nat, timeStamp: int, b: Block, output: seq<byte>,
                        frames: seq<ReplayFrame>, lzma: LzmaDecoder)
    requires Fits(timeStamp, 8) && BlockWritable(b) && Decodes(lzma, b, output) && FramesOf(output) == Ok(frames)
    requires IsAt(buf, at, StreamText(timeStamp, b)) && end == at + 25 + |b.data|
    ensures StreamStage(buf, at, lzma) == Ok(Read(Stream(timeStamp, frames), end))
  {
    StreamFields(buf, at, timeStamp, b);
    BlockReads(buf, at, end, timeStamp, b, output, frames, lzma);
  }

  /** The stream's fields, as the parse reads them at `at`. */
  predicate StreamAt(buf: seq<byte>, at: nat, timeStamp: int, b: Block)
    requires BlockWritable(b)
  {
    && at + 25 + |b.data| <= |buf|
    && SignedAt(buf, at, 8) == timeStamp && SignedAt(buf, at + 8, 4) == |b.data|
    && buf[at + 12..at + 17] == b.props && UnsignedAt(buf, at + 17, 8) == UnsignedAt(b.declared, 0, 8)
    && buf[at + 25..at + 25 + SignedAt(buf, at + 8, 4)] == b.data
  }

  /** Where the stream's text stands, its fields read back. */
  lemma StreamFields(buf: seq<byte>, at: nat, timeStamp: int, b: Block)
    requires Fits(timeStamp, 8) && BlockWritable(b)
    requires IsAt(buf, at, StreamText(timeStamp, b))
    ensures StreamAt(buf, at, timeStamp, b)
  {
    StreamPieces(buf, at, timeStamp, b);
    StreamNumbers(buf, at, timeStamp, b);
  }

  lemma StreamNumbers(buf: seq<byte>, at: nat, timeStamp: int, b: Block)
    requires Fits(timeStamp, 8) && BlockWritable(b)
    requires IsAt(buf, at, StreamText(timeStamp, b))
    ensures SignedAt(buf, at, 8) == timeStamp && SignedAt(buf, at + 8, 4) == |b.data|
    ensures UnsignedAt(buf, at + 17, 8) == UnsignedAt(b.declared, 0, 8)
  {
    StreamPieces(buf, at, timeStamp, b);
    SignedIsAt(buf, at, timeStamp, 8);
    SignedIsAt(buf, at + 8, |b.data|, 4);
    assert b.declared[0..8] == b.declared;
    UnsignedAtMoved(buf, at + 17, b.declared, 0, 8);
  }

  /** The stream's text split at its field boundaries. */
  lemma StreamPieces(buf: seq<byte>, at: nat, timeStamp: int, b: Block)
    requires Fits(timeStamp, 8) && BlockWritable(b)
    requires IsAt(buf, at, StreamText(timeStamp, b))
    ensures IsAt(buf, at, EncodeSigned(timeStamp, 8)) && IsAt(buf, at + 8, EncodeSigned(|b.data|, 4))
    ensures buf[at + 12..at + 17] == b.props && buf[at + 17..at + 25] == b.declared
    ensures at + 25 + |b.data| <= |buf| && buf[at + 25..at + 25 + |b.data|] == b.data
  {
    IsAtSplit5(buf, at, EncodeSigned(timeStamp, 8), EncodeSigned(|b.data|, 4), b.props, b.declared, b.data);
  }

  /** The stream parses once its fields read back and the decoder turns its block into
      text whose records read as `frames`. */
  lemma BlockReads(buf: seq<byte>, at: nat, end: nat, timeStamp: int, b: Block, output: seq<byte>,
                   frames: seq<ReplayFrame>, lzma: LzmaDecoder)
    requires BlockWritable(b) && StreamAt(buf, at, timeStamp, b) && end == at + 25 + |b.data|
    requires Decodes(lzma, b, output) && FramesOf(output) == Ok(frames)
    ensures StreamStage(buf, at, lzma) == Ok(Read(Stream(timeStamp, frames), end))
  {
    DecoderSeesBlock(buf, at, timeStamp, b, output, lzma);
  }

  /** The stage hands the decoder exactly the block, its properties and its declared
      size. */
  lemma DecoderSeesBlock(buf: seq<byte>, at: nat, timeStamp: int, b: Block, output: seq<byte>, lzma: LzmaDecoder)
    requires BlockWritable(b) && StreamAt(buf, at, timeStamp, b) && Decodes(lzma, b, output)
    ensures lzma(buf[at + 25..at + 25 + SignedAt(buf, at + 8, 4)], buf[at + 12..at + 17], UnsignedAt(buf, at + 17, 8))
      == LzmaOutcome(SZ_OK, output, |b.data|)
  {
  }

  /** The online score id written at `at` reads back; the stage stops after it, at
      `end`, and another 8 bytes on with Target Practice. */
  lemma TrailerRoundTrip(buf: seq<byte>, at: nat, end: nat, id: int, mods: bv32)
    requires Fits(id, 8) && IsAt(buf, at, EncodeSigned(id, 8)) && end == at + 8
    ensures TrailerStage(buf, at, mods) == Ok(Read(id, end + TrailerExtra(mods)))
  {
    SignedIsAt(buf, at, id, 8);
  }
}
