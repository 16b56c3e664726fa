/** `OsrLib__Parse` after the file has been read: one cursor walks the replay buffer
    from the front, field after field. The functions state what each stretch of the
    walk produces and where it leaves the cursor; the methods are the walk itself,
    over an array, each proved equal to its function. */
module Parser {
  import opened Bytes
  import opened OsrTypes
  import Uleb128
  import opened Records
  import opened Flags

  /** The largest player name the replay record has room for. */
  const MAX_NAME: nat := 255

  /** The fields read before the replay hash. */
  datatype Head = Head(mode: int, version: int, beatmapHash: seq<byte>, playerName: seq<byte>)

  /** The fields from the replay hash to the mods. */
  datatype Score = Score(
    replayHash: seq<byte>,
    threeHundreds: int, hundreds: int, fifties: int, gekis: int, katus: int, misses: int,
    totalScore: int, greatestCombo: int, perfectCombo: int, mods: bv32)

  /** The time stamp and the decoded action frames. */
  datatype Stream = Stream(timeStamp: int, frames: seq<ReplayFrame>)

  /** Mode at byte 0, version at bytes 1 to 4, two skipped marker bytes, the beatmap
      hash at bytes 7 to 38, one skipped marker byte, then the name's ULEB128 length at
      byte 40 and the name. A length over 255 ends the parse before the name is copied. */
  function HeadStage(buf: seq<byte>): (r: Result<Read<Head>>)
    ensures r.Ok? ==> |r.value.value.beatmapHash| == 32 && |r.value.value.playerName| <= MAX_NAME
    ensures r.Ok? ==> r.value.next <= |buf|
    ensures r == Err(PlayerNameTooLong) <==>
      39 <= |buf| && Uleb128.Decode(buf, 40).Ok? && Uleb128.Decode(buf, 40).value.value > MAX_NAME
    ensures r.Err? ==> r.error in {TruncatedInput, PlayerNameTooLong}
  {
    if |buf| < 39 then Err(TruncatedInput)
    else
      match Uleb128.Decode(buf, 40)
      case Err(e) => Err(e)
      case Ok(length) =>
        var c := length.next + length.value;
        if length.value > MAX_NAME then Err(PlayerNameTooLong)
        else if c > |buf| then Err(TruncatedInput)
        else Ok(Read(Head(SignedAt(buf, 0, 1), SignedAt(buf, 1, 4), buf[7..39], buf[length.next..c]), c))
  }

  /** From `c`: two skipped marker bytes, the 32-byte replay hash, the 16-byte stats
      block (six 2-byte counts and the 4-byte total score), the 2-byte combo, the 1-byte
      perfect-combo flag and the 4-byte mods: 57 bytes in all. */
  function ScoreStage(buf: seq<byte>, c: nat): (r: Result<Read<Score>>)
    ensures r.Ok? <==> c + 57 <= |buf|
    ensures r.Ok? ==> r.value.next == c + 57 && |r.value.value.replayHash| == 32
    ensures r.Err? ==> r.error == TruncatedInput
  {
    if |buf| < c + 57 then Err(TruncatedInput)
    else
      Ok(Read(Score(buf[c + 2..c + 34],
                    SignedAt(buf, c + 34, 2), SignedAt(buf, c + 36, 2), SignedAt(buf, c + 38, 2),
                    SignedAt(buf, c + 40, 2), SignedAt(buf, c + 42, 2), SignedAt(buf, c + 44, 2),
                    SignedAt(buf, c + 46, 4), SignedAt(buf, c + 50, 2), SignedAt(buf, c + 52, 1),
                    Bits32At(buf, c + 53)),
              c + 57))
  }

  /** From `at`: one skipped marker byte, the payload's ULEB128 byte length, then the
      payload of `time|hp,` records. The cursor ends at the payload's end. */
  function LifeBarStage(buf: seq<byte>, at: nat): (r: Result<Read<seq<LifeBarPoint>>>)
    ensures r.Ok? ==> at < r.value.next <= |buf|
    ensures r.Ok? ==> 2 * |r.value.value| <= r.value.next - at
    ensures r.Err? ==> r.error in {TruncatedInput, MalformedRecord}
  {
    match Uleb128.Decode(buf, at + 1)
    case Err(e) => Err(e)
    case Ok(size) =>
      var end := size.next + size.value;
      if end > |buf| then Err(TruncatedInput)
      else
        match LifeBarOf(buf[size.next..end])
        case Err(e) => Err(e)
        case Ok(graph) => Ok(Read(graph, end))
  }

  /** What a life-bar stage that succeeds has read: the length decodes, the cursor ends
      at the payload's end and the points are those of the payload. The stage reports a
      MalformedRecord exactly when the payload lies in the buffer and does not decode. */
  lemma LifeBarStageMeans(buf: seq<byte>, at: nat)
    ensures var r := LifeBarStage(buf, at);
      r.Ok? ==>
        && Uleb128.Decode(buf, at + 1).Ok?
        && var size := Uleb128.Decode(buf, at + 1).value;
           && r.value.next == size.next + size.value
           && LifeBarOf(buf[size.next..r.value.next]) == Ok(r.value.value)
    ensures LifeBarStage(buf, at) == Err(MalformedRecord) <==>
      && Uleb128.Decode(buf, at + 1).Ok?
      && var size := Uleb128.Decode(buf, at + 1).value;
         && size.next + size.value <= |buf|
         && LifeBarOf(buf[size.next..size.next + size.value]).Err?
  {
  }

  /** From `at`: the 8-byte time stamp, the 4-byte compressed size, the 5 property
      bytes, the 8-byte declared size, then the compressed block, which the decoder
      turns into the text of the action frames. The cursor moves past the 25 fixed
      bytes and then by the count of bytes the decoder says it consumed. */
  function StreamStage(buf: seq<byte>, at: nat, lzma: LzmaDecoder): (r: Result<Read<Stream>>)
    ensures r == Err(FailedToDecompressReplayData) <==>
      && at + 25 <= |buf|
      && 0 <= SignedAt(buf, at + 8, 4)
      && at + 25 + SignedAt(buf, at + 8, 4) <= |buf|
      && lzma(buf[at + 25..at + 25 + SignedAt(buf, at + 8, 4)], buf[at + 12..at + 17],
              UnsignedAt(buf, at + 17, 8)).status != SZ_OK
    ensures r.Ok? ==> r.value.next >= at + 25
    ensures r.Ok? ==>
      && at + 25 <= |buf|
      && 0 <= SignedAt(buf, at + 8, 4)
      && at + 25 + SignedAt(buf, at + 8, 4) <= |buf|
      && var o := lzma(buf[at + 25..at + 25 + SignedAt(buf, at + 8, 4)], buf[at + 12..at + 17],
                       UnsignedAt(buf, at + 17, 8));
         && o.status == SZ_OK
         && r.value.next == at + 25 + o.consumed
         && FramesOf(o.output) == Ok(r.value.value.frames)
         && r.value.value.timeStamp == SignedAt(buf, at, 8)
    ensures r == Err(MalformedRecord) <==>
      && at + 25 <= |buf|
      && 0 <= SignedAt(buf, at + 8, 4)
      && at + 25 + SignedAt(buf, at + 8, 4) <= |buf|
      && var o := lzma(buf[at + 25..at + 25 + SignedAt(buf, at + 8, 4)], buf[at + 12..at + 17],
                       UnsignedAt(buf, at + 17, 8));
         o.status == SZ_OK && FramesOf(o.output).Err?
    ensures r.Err? ==> r.error in {TruncatedInput, FailedToDecompressReplayData, MalformedRecord}
  {
    if |buf| < at + 25 then Err(TruncatedInput)
    else
      var size := SignedAt(buf, at + 8, 4);
      if size < 0 || |buf| < at + 25 + size then Err(TruncatedInput)
      else
        var outcome := lzma(buf[at + 25..at + 25 + size], buf[at + 12..at + 17], UnsignedAt(buf, at + 17, 8));
        if outcome.status != SZ_OK then Err(FailedToDecompressReplayData)
        else
          match FramesOf(outcome.output)
          case Err(e) => Err(e)
          case Ok(frames) => Ok(Read(Stream(SignedAt(buf, at, 8), frames), at + 25 + outcome.consumed))
  }

  /** The bytes that follow the online score id: 8 with Target Practice, else none. */
  function TrailerExtra(mods: bv32): nat
  {
    if mods & TARGET_PRACTICE != 0 then 8 else 0
  }

  /** From `at`: the 8-byte online score id, then the Target Practice bytes, which are
      skipped without being read. */
  function TrailerStage(buf: seq<byte>, at: nat, mods: bv32): (r: Result<Read<int>>)
    ensures r.Ok? <==> at + 8 <= |buf|
    ensures r.Ok? ==> r.value.next == at + 8 + TrailerExtra(mods)
    ensures r.Err? ==> r.error == TruncatedInput
  {
    if |buf| < at + 8 then Err(TruncatedInput)
    else Ok(Read(SignedAt(buf, at, 8), at + 8 + TrailerExtra(mods)))
  }

  /** The record the walk fills in, `player_name_size` being the name's length. */
  function Assemble(h: Head, s: Score, graph: seq<LifeBarPoint>, d: Stream, id: int): Replay
  {
    Replay(h.mode, h.version, h.beatmapHash, h.playerName, |h.playerName|, s.replayHash,
           s.threeHundreds, s.hundreds, s.fifties, s.gekis, s.katus, s.misses, s.totalScore,
           s.greatestCombo, s.perfectCombo, s.mods, graph, d.timeStamp, d.frames, id)
  }

  /** The whole walk: the first failing stage decides the error; on success the replay
      and the cursor position where the walk stopped. */
  function ParseSpec(buf: seq<byte>, lzma: LzmaDecoder): (r: Result<Parsed>)
    ensures r.Ok? ==> |r.value.replay.playerName| <= MAX_NAME && r.value.replay.playerNameSize == |r.value.replay.playerName|
    ensures r.Ok? ==> |r.value.replay.beatmapHash| == 32 && |r.value.replay.replayHash| == 32
    ensures r.Ok? ==> r.value.end <= |buf| + TrailerExtra(r.value.replay.mods)
  {
    match HeadStage(buf)
    case Err(e) => Err(e)
    case Ok(head) =>
      match ScoreStage(buf, head.next)
      case Err(e) => Err(e)
      case Ok(score) =>
        match LifeBarStage(buf, score.next)
        case Err(e) => Err(e)
        case Ok(graph) =>
          match StreamStage(buf, graph.next, lzma)
          case Err(e) => Err(e)
          case Ok(stream) =>
            match TrailerStage(buf, stream.next, score.value.mods)
            case Err(e) => Err(e)
            case Ok(trailer) =>
              Ok(Parsed(Assemble(head.value, score.value, graph.value, stream.value, trailer.value), trailer.next))
  }

  // ---- What the walk promises ----

  /** The walk succeeds with the record assembled from its stages once each stage
      succeeds where the one before it stopped. */
  lemma ParseOfStages(buf: seq<byte>, lzma: LzmaDecoder, h: Read<Head>, s: Read<Score>,
                      g: Read<seq<LifeBarPoint>>, d: Read<Stream>, t: Read<int>)
    requires HeadStage(buf) == Ok(h) && ScoreStage(buf, h.next) == Ok(s)
    requires LifeBarStage(buf, s.next) == Ok(g) && StreamStage(buf, g.next, lzma) == Ok(d)
    requires TrailerStage(buf, d.next, s.value.mods) == Ok(t)
    ensures ParseSpec(buf, lzma) == Ok(Parsed(Assemble(h.value, s.value, g.value, d.value, t.value), t.next))
  {
  }

  /** The name check: the parse fails with PlayerNameTooLong exactly when the buffer
      holds a complete header up to the length byte and the length exceeds 255. */
  lemma NameTooLong(buf: seq<byte>, lzma: LzmaDecoder)
    ensures ParseSpec(buf, lzma) == Err(PlayerNameTooLong) <==>
      39 <= |buf| && Uleb128.Decode(buf, 40).Ok? && Uleb128.Decode(buf, 40).value.value > MAX_NAME
  {
    var head := HeadStage(buf);
    if head.Ok? {
      var score := ScoreStage(buf, head.value.next);
      if score.Ok? {
        var graph := LifeBarStage(buf, score.value.next);
        if graph.Ok? {
          var stream := StreamStage(buf, graph.value.next, lzma);
          assert stream.Err? ==> stream.error != PlayerNameTooLong;
        }
      }
    }
  }

  /** A length of at most 255 whose bytes are present is accepted: exactly that many
      bytes become the name, and the cursor moves past them. */
  lemma NameAccepted(buf: seq<byte>)
    requires 39 <= |buf| && Uleb128.Decode(buf, 40).Ok?
    requires Uleb128.Decode(buf, 40).value.value <= MAX_NAME
    requires Uleb128.Decode(buf, 40).value.next + Uleb128.Decode(buf, 40).value.value <= |buf|
    ensures var length := Uleb128.Decode(buf, 40).value;
      && HeadStage(buf).Ok?
      && HeadStage(buf).value.value.playerName == buf[length.next..length.next + length.value]
      && HeadStage(buf).value.next == length.next + length.value
  {
  }

  /** The decoder check: the parse fails with FailedToDecompressReplayData exactly when
      every stage before the compressed block succeeds and the block's own stage reports
      that failure, which by its contract means the decoder returned a status other than
      SZ_OK. */
  lemma DecompressionFailure(buf: seq<byte>, lzma: LzmaDecoder)
    ensures ParseSpec(buf, lzma) == Err(FailedToDecompressReplayData) <==>
      && HeadStage(buf).Ok?
      && ScoreStage(buf, HeadStage(buf).value.next).Ok?
      && LifeBarStage(buf, ScoreStage(buf, HeadStage(buf).value.next).value.next).Ok?
      && StreamStage(buf, LifeBarStage(buf, ScoreStage(buf, HeadStage(buf).value.next).value.next).value.next, lzma)
         == Err(FailedToDecompressReplayData)
  {
  }

  // ---- The walk over the file buffer ----

  /** The walk from byte 0 to the end of the player name. */
  method ReadHead(a: array<byte>) returns (r: Result<Read<Head>>)
    ensures r == HeadStage(a[..])
  {
    if a.Length < 39 {
      return Err(TruncatedInput);
    }
    var i := 0;
    var mode := SignedAt(a[..], i, 1);
    i := i + 1;
    var version := SignedAt(a[..], i, 4);
    i := i + 4;
    i := i + 2;  // the hash's length marker
    var beatmapHash := a[i..i + 32];
    i := i + 32;
    i := i + 1;  // the name's string marker
    var length :- Uleb128.ReadUleb128(a, i);
    i := length.next;
    if length.value > MAX_NAME {
      return Err(PlayerNameTooLong);
    }
    if i + length.value > a.Length {
      return Err(TruncatedInput);
    }
    var name := a[i..i + length.value];
    i := i + length.value;
    return Ok(Read(Head(mode, version, beatmapHash, name), i));
  }

  /** The walk from the replay hash's marker to the end of the mods; the six counts
      and the total score are the 16 bytes the source copies in one go. */
  method ReadScore(a: array<byte>, c: nat) returns (r: Result<Read<Score>>)
    ensures r == ScoreStage(a[..], c)
  {
    if a.Length < c + 57 {
      return Err(TruncatedInput);
    }
    var i := c + 2;  // the hash's length marker
    var replayHash := a[i..i + 32];
    i := i + 32;
    var threeHundreds, hundreds, fifties := SignedAt(a[..], i, 2), SignedAt(a[..], i + 2, 2), SignedAt(a[..], i + 4, 2);
    var gekis, katus, misses := SignedAt(a[..], i + 6, 2), SignedAt(a[..], i + 8, 2), SignedAt(a[..], i + 10, 2);
    var totalScore := SignedAt(a[..], i + 12, 4);
    i := i + 16;
    var combo := SignedAt(a[..], i, 2);
    i := i + 2;
    var perfect := SignedAt(a[..], i, 1);
    i := i + 1;
    var mods := Bits32At(a[..], i);
    i := i + 4;
    var score := Score(replayHash, threeHundreds, hundreds, fifties, gekis, katus, misses,
                       totalScore, combo, perfect, mods);
    return Ok(Read(score, i));
  }

  /** The walk over the life-bar marker, length and payload. */
  method ReadLifeBarSection(a: array<byte>, at: nat) returns (r: Result<Read<seq<LifeBarPoint>>>)
    ensures r == LifeBarStage(a[..], at)
  {
    var size :- Uleb128.ReadUleb128(a, at + 1);
    var i := size.next;
    if i + size.value > a.Length {
      return Err(TruncatedInput);
    }
    var end := i + size.value;
    var graph :- ReadLifeBar(a, i, end);
    return Ok(Read(graph, end));
  }

  /** The walk over the time stamp and the compressed block, which the decoder
      expands into a new buffer that the action-record loop then reads. */
  method ReadStream(a: array<byte>, at: nat, lzma: LzmaDecoder) returns (r: Result<Read<Stream>>)
    ensures r == StreamStage(a[..], at, lzma)
  {
    if a.Length < at + 25 {
      return Err(TruncatedInput);
    }
    var i := at;
    var timeStamp := SignedAt(a[..], i, 8);
    i := i + 8;
    var size := SignedAt(a[..], i, 4);
    i := i + 4;
    var props := a[i..i + 5];
    i := i + 5;
    var declared := UnsignedAt(a[..], i, 8);
    i := i + 8;
    if size < 0 || a.Length < i + size {
      return Err(TruncatedInput);
    }
    assert i == at + 25 && size == SignedAt(a[..], at + 8, 4);
    assert props == a[..][at + 12..at + 17] && declared == UnsignedAt(a[..], at + 17, 8);
    assert a[i..i + size] == a[..][at + 25..at + 25 + SignedAt(a[..], at + 8, 4)];
    var outcome := lzma(a[i..i + size], props, declared);
    if outcome.status != SZ_OK {
      return Err(FailedToDecompressReplayData);
    }
    var frames :- ReadDecoded(outcome.output);
    i := i + outcome.consumed;
    return Ok(Read(Stream(timeStamp, frames), i));
  }

  /** The action-record loop over the buffer the decoder wrote. */
  method ReadDecoded(output: seq<byte>) returns (r: Result<seq<ReplayFrame>>)
    ensures r == FramesOf(output)
  {
    var data := new byte[|output|](k requires 0 <= k < |output| => output[k]);
    assert data[..] == output;
    r := ReadFrames(data);
  }

  /** The walk over the online score id and the Target Practice bytes. */
  method ReadTrailer(a: array<byte>, at: nat, mods: bv32) returns (r: Result<Read<int>>)
    ensures r == TrailerStage(a[..], at, mods)
  {
    if a.Length < at + 8 {
      return Err(TruncatedInput);
    }
    var i := at;
    var id := SignedAt(a[..], i, 8);
    i := i + 8;
    if mods & TARGET_PRACTICE != 0 {
      i := i + 8;
    }
    return Ok(Read(id, i));
  }

  /** `OsrLib__Parse` on a buffer already read from the file. */
  method Parse(a: array<byte>, lzma: LzmaDecoder) returns (r: Result<Parsed>)
    ensures r == ParseSpec(a[..], lzma)
  {
    var head :- ReadHead(a);
    var score :- ReadScore(a, head.next);
    var graph :- ReadLifeBarSection(a, score.next);
    var stream :- ReadStream(a, graph.next, lzma);
    var trailer :- ReadTrailer(a, stream.next, score.value.mods);
    var replay := Assemble(head.value, score.value, graph.value, stream.value, trailer.value);
    return Ok(Parsed(replay, trailer.next));
  }
}
