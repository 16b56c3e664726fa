/** The decoded replay (the `OsrLib__Replay` record) and the errors a parse can end in. */
module OsrTypes {
  import opened Bytes

  /** The ways a parse can fail. `PlayerNameTooLong` and `FailedToDecompressReplayData`
      are the source's own error codes; `TruncatedInput` (a field or a skipped byte lies
      past the end of the buffer) and `MalformedRecord` (a delimiter is missing before the
      end of a text payload) replace the source's unchecked reads. */
  datatype ParseError =
    | PlayerNameTooLong
    | FailedToDecompressReplayData
    | TruncatedInput
    | MalformedRecord

  /** Either a value or the first error met; usable with `:-`. */
  datatype Result<+T> = Ok(value: T) | Err(error: ParseError) {
    predicate IsFailure() {
      Err?
    }

    function PropagateFailure<U>(): Result<U>
      requires Err?
    {
      Err(error)
    }

    function Extract(): T
      requires Ok?
    {
      value
    }
  }

  /** A value read at some position, and the position just after it. */
  datatype Read<+T> = Read(value: T, next: nat)

  /** One sample of the health curve: `time` comes from atoi, `hp` is the raw text
      that the source hands to atof. */
  datatype LifeBarPoint = LifeBarPoint(time: int, hp: seq<byte>)

  /** One input frame: `time` comes from atoll, `keys` from atoi, and `x`, `y` are the
      raw texts that the source hands to atof. */
  datatype ReplayFrame = ReplayFrame(time: int, x: seq<byte>, y: seq<byte>, keys: int)

  /** The decoded replay, field for field as the source's record; the two arrays with
      their length fields become sequences. */
  datatype Replay = Replay(
    mode: int,
    version: int,
    beatmapHash: seq<byte>,
    playerName: seq<byte>,
    playerNameSize: nat,
    replayHash: seq<byte>,
    threeHundreds: int,
    hundreds: int,
    fifties: int,
    gekis: int,
    katus: int,
    misses: int,
    totalScore: int,
    greatestCombo: int,
    perfectCombo: int,
    mods: bv32,
    lifeBarGraph: seq<LifeBarPoint>,
    timeStamp: int,
    replayData: seq<ReplayFrame>,
    onlineScoreId: int)

  /** A successful parse: the replay and the cursor position where the walk stopped. */
  datatype Parsed = Parsed(replay: Replay, end: nat)

  /** SZ_OK, the decoder status that means success. */
  const SZ_OK: int := 0

  /** What the LZMA decoder reports: its status, the bytes it wrote (whose length is the
      updated `uncompressed_data_size`) and how many source bytes it consumed (written
      back into `compressed_data_size`). */
  datatype LzmaOutcome = LzmaOutcome(status: int, output: seq<byte>, consumed: nat)

  /** The external LZMA decoder, applied to the compressed bytes, the 5 property bytes
      and the declared uncompressed size. */
  type LzmaDecoder = (seq<byte>, seq<byte>, nat) -> LzmaOutcome
}
