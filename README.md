# OsrLib replay decoder, modelled in Dafny

OsrLib reads an osu! replay file (`.osr`) into an `OsrLib__Replay` record with one
function, `OsrLib__Parse`. Once the file is in memory, a single cursor walks the buffer
from the front and never goes back. Along the way it:

- reads fixed-width little-endian fields: the mode, the version, the two 32-byte hashes,
  the stats block, the combo, the perfect-combo flag, the mods, the time stamp and the
  online score id;
- decodes two ULEB128 lengths: the player name's and the life-bar payload's;
- splits two delimited text payloads into records. The life bar holds `time|hp,`
  records. The action stream, which the LZMA decoder expands, holds
  `time|x|y|keys,` records;
- skips 8 trailing bytes when the mods carry Target Practice.

The model follows the same shape.

- **Functions as specification.** Each stretch of the walk is a pure function of the
  buffer and the cursor: `Parser.HeadStage`, `ScoreStage`, `LifeBarStage`,
  `StreamStage` and `TrailerStage`. Each returns the value read and the new cursor, or
  the first error. `Parser.ParseSpec` chains the stages.
- **Methods as the walk.** `Parser.Parse` and its helpers do the walk over an
  `array<byte>`. The ULEB128 loop, the two record loops and the delimiter scans are
  `while` loops. Each method is proved equal to its function.
- **Errors.** The source reads with no bounds checks. The model stops instead:
  - a field or skipped byte past the end of the buffer gives `TruncatedInput`;
  - a delimiter missing before the payload ends gives `MalformedRecord`.
- **Round-trip partner.** `Writer` lays out a file from a `Replay`. `RoundTrip` proves
  that every replay that fits the format parses back from its file, field for field.
  The cursor stops right after the online score id, or 8 bytes later with Target
  Practice.

The LZMA decoder is a parameter of the parse: a function from the compressed bytes,
the 5 property bytes and the declared size to a status, the output bytes and the
number of input bytes consumed. Floating-point fields (`hp`, `x`, `y`) are kept as the
raw text that the source hands to `atof`.

Files, in dependency order:

- Bytes.dfy: little-endian fixed-width integers.
- OsrTypes.dfy: the replay record and the errors.
- Uleb128.dfy: the ULEB128 lengths.
- Text.dfy: `atoi`/`atoll` and the delimiter scan.
- Records.dfy: the two payloads.
- Flags.dfy: the mod and key flags.
- Parser.dfy: the walk.
- Writer.dfy: the file layout and each stage's round trip.
- RoundTrip.dfy: the whole-file round trip.
- Examples.dfy: concrete inputs.

Three points of the code's behaviour that are easy to miss:

- **The trailing ','.** The record loops scan for a ',' after the last field of every
  record, the last one included (OsrLib.h:219, OsrLib.h:258). So a payload that does not
  end in ',' is a `MalformedRecord` here. `Records.LifeBarEndsWithComma` and
  `Records.FramesEndWithComma` prove that every payload that decodes ends with one.
- **The cursor after the compressed block.** The decoder writes the count of input bytes
  it consumed back into `compressed_data_size` (OsrLib.h:240). The cursor then moves by
  that count (OsrLib.h:263), not by the stored block length. `Parser.StreamStage` states
  this for every decoder.
- **The Target Practice bytes.** They are skipped without being read (OsrLib.h:270). So
  the parse succeeds even when the file ends before them, and the reported cursor can
  lie up to 8 bytes past the end of the buffer.

## Model

| member | source | states |
|---|---|---|
| Bytes.UnsignedAt | OsrLib.h:232 | the `unsigned long long` load: the bytes at `at` as an unsigned number, least significant first; pinned down by UnsignedBound and EncodeUnsigned |
| Bytes.SignedAt | OsrLib.h:149-195 | the `char`, `short`, `int` and `long long` loads (also at OsrLib.h:224, 228 and 266): the bytes at `at`, least significant first, with the top byte signed; pinned down by SignedUnsigned, SignedBound and SignedAtEncode |
| Bytes.Bits32At | OsrLib.h:198 | the mods load: the 4 bytes at `at` as a 32-bit word, least significant first; pinned down by BytesOf32 and Writer.ModsIsAt |
| Bytes.UnsignedBound | OsrLib.h:232 | an `n`-byte unsigned field is below 256^n |
| Bytes.SignedUnsigned | OsrLib.h:149-153 | the signed reading of `n` bytes is their unsigned value, less 256^n when the top bit is set (two's complement) |
| Bytes.SignedBound | OsrLib.h:85-93 | an `n`-byte signed field lies in [-2^(8n-1), 2^(8n-1)) |
| Bytes.SignedAtEncode | OsrLib.h:149-153 | every value in the range of `w` bytes reads back from its little-endian bytes |
| Bytes.EncodeUnsigned | OsrLib.h:232 | the `w` bytes of `n` have length `w` and read back as `n` |
| Bytes.BytesOf32 | OsrLib.h:198-199 | the 4 bytes of a 32-bit flag word read back as that word |
| Uleb128.ValueAppend | OsrLib.h:164-172 | one loop step adds the byte's low 7 bits at weight 128^k, k being the bytes read so far |
| Uleb128.Decode | OsrLib.h:164-172 | decoding consumes at least one byte and stays in the buffer; its only failure is TruncatedInput |
| Uleb128.DecodeStops | OsrLib.h:164-172 | decoding stops at the first byte with the high bit clear, every byte before it continues, and the value is the sum of (b_k & 0x7F) * 128^k over the bytes read; it fails exactly when every remaining byte has the high bit set |
| Uleb128.DecodeEncode | OsrLib.h:164-172 | decoding the encoding of `n`, wherever it stands, yields `n` and stops right after it |
| Uleb128.EncodeLength32 | OsrLib.h:164-172 | a length below 2^32 takes at most 5 bytes |
| Uleb128.ReadUleb128 | OsrLib.h:204-212 | the source's loop over the buffer returns what Decode returns |
| Text.Atoi | OsrLib.h:216 | `atoi`/`atoll` (also at OsrLib.h:251 and 257): blanks, one optional sign, then the digits up to the first non-digit, with no digits giving 0; pinned down by SpaceRunSpec, DigitRunSpec and AtoiIntText |
| Text.SpaceRunSpec | OsrLib.h:216 | atoi's blank skipping stops at the first non-blank |
| Text.DigitRunSpec | OsrLib.h:216 | atoi's digit run stops at the first non-digit |
| Text.AtoiIntText | OsrLib.h:251 | atoi reads every integer back from its decimal text |
| Text.AtoiStopsAtDelimiter | OsrLib.h:216-217 | atoi on the buffer, which runs on past the field, reads the same number as atoi on the field alone |
| Text.FindIn | OsrLib.h:217 | the scan's position is within the text, and holds the delimiter when it is not the end |
| Text.FindInFirst | OsrLib.h:217 | no delimiter stands before the scan's position |
| Text.FindInAfter | OsrLib.h:217 | a field without the delimiter, then the delimiter: the scan stops right after the field |
| Text.ScanFor | OsrLib.h:217 | `while (*i != d) i++`, bounded by the payload end, stops at the first `d` or at the end |
| Records.Field | OsrLib.h:217 | a field, its delimiter and the rest account for the whole text; a text without the delimiter is MalformedRecord |
| Records.FieldAtFind | OsrLib.h:217 | the field ends exactly where the delimiter scan stops |
| Records.FieldSplits | OsrLib.h:217 | the text is the field, the delimiter and the rest, and the field holds no delimiter |
| Records.FieldText | OsrLib.h:217 | a delimiter-free field followed by the delimiter is cut off exactly |
| Records.Fields | OsrLib.h:250-258 | a record yields one field per delimiter, and each delimiter consumes a byte |
| Records.PointRecord | OsrLib.h:215-220 | a life-bar record consumes at least its field delimiter and its record delimiter |
| Records.FrameRecord | OsrLib.h:250-259 | an action record consumes at least three field delimiters and one record delimiter |
| Records.PointFromFields | OsrLib.h:216-219 | a life-bar record is the atoi of the first field and the text of the second |
| Records.FrameFromFields | OsrLib.h:251-258 | an action record is (atoll of field 1, field 2, field 3, atoi of field 4), in that order |
| Records.PointFieldsErr | OsrLib.h:217-219 | a missing delimiter makes the life-bar record malformed |
| Records.FrameFieldsErr | OsrLib.h:252-258 | a missing delimiter in any of the four fields makes the action record malformed |
| Records.LifeBarOf | OsrLib.h:213-222 | the record count is at most half the payload length, so within `life_bar_graph_size`; the only failure is MalformedRecord |
| Records.FramesOf | OsrLib.h:247-262 | the frame count is at most a quarter of the decompressed length, so within `uncompressed_data_size`; the only failure is MalformedRecord |
| Records.LifeBarStep | OsrLib.h:215-221 | one unfolding step of LifeBarOf: a payload's points are its first record's point followed by the points of the rest; the loop and round-trip proofs use it, and the input order is proved by LifeBarRoundTrip |
| Records.FramesStep | OsrLib.h:250-260 | one unfolding step of FramesOf: a stream's frames are its first record's frame followed by the frames of the rest; the loop and round-trip proofs use it, and the input order is proved by FramesRoundTrip |
| Records.LifeBarEndsWithComma | OsrLib.h:219 | a non-empty life-bar payload that decodes ends with ',' |
| Records.FramesEndWithComma | OsrLib.h:258 | a non-empty action stream that decodes ends with ',' |
| Records.PointRecordText | OsrLib.h:215-220 | the text of a point whose hp holds no ',' reads back as that point, leaving what follows |
| Records.FrameRecordText | OsrLib.h:250-259 | the text of a frame whose x and y hold no field delimiter reads back as that frame, leaving what follows |
| Records.LifeBarRoundTrip | OsrLib.h:213-222 | the text of writable points reads back as exactly those points, in order |
| Records.FramesRoundTrip | OsrLib.h:247-262 | the text of writable frames reads back as exactly those frames, in order |
| Records.FrameReadOn | OsrLib.h:250-260 | one pass of the loop either fails the whole stream or moves the cursor on by at least 4 bytes, adding its frame after those read so far |
| Records.ReadField | OsrLib.h:217 | the scan and the step past the delimiter yield the field Field cuts, and the cursor stands where the rest begins |
| Records.ReadPoint | OsrLib.h:216-219 | one pass of the life-bar loop body reads the record PointRecord cuts |
| Records.ReadFrame | OsrLib.h:251-258 | one pass of the action loop body reads the record FrameRecord cuts |
| Records.ReadLifeBar | OsrLib.h:213-222 | the life-bar loop, filling an array and counting, returns LifeBarOf of the payload |
| Records.ReadFrames | OsrLib.h:247-262 | the action loop, filling an array and counting, returns FramesOf of the decompressed bytes |
| Flags.KeepBit | OsrLib.h:33-67 | keeping a single-bit flag is masking with it |
| Flags.SingleModsMask | OsrLib.h:33-67 | the single-bit mods cover bits 0 to 30 except bit 9 |
| Flags.NightCoreIsDoubleTime | OsrLib.h:44 | NIGHT_CORE is 512 with DOUBLE_TIME, and carries DOUBLE_TIME |
| Flags.KeyModIsKeys | OsrLib.h:55 | KEY_MOD is KEY4 to KEY8 together |
| Flags.RecomposeLossless | OsrLib.h:33-67 | rebuilding a flag word from its named mods gives it back if and only if bit 31 is clear and bit 9 comes with DOUBLE_TIME |
| Flags.MaskKeys | OsrLib.h:50-55 | KEY_MOD adds nothing to the single-bit mods |
| Flags.MaskNightCore | OsrLib.h:44 | NIGHT_CORE adds back bit 9 |
| Flags.NoNightCore | OsrLib.h:44 | without NIGHT_CORE, bit 9 and DOUBLE_TIME are not both set |
| Flags.KeysRecompose | OsrLib.h:69-75 | rebuilding a keys word from the five key flags keeps exactly its bits 0 to 4, so it is lossless if and only if no higher bit is set |
| Parser.HeadStage | OsrLib.h:149-176 | the beatmap hash is 32 bytes and the name at most 255; the parse fails with PlayerNameTooLong if and only if the length decodes and exceeds 255; otherwise only TruncatedInput |
| Parser.ScoreStage | OsrLib.h:178-200 | succeeds if and only if 57 bytes remain, advancing the cursor by exactly 57 with a 32-byte replay hash |
| Parser.LifeBarStage | OsrLib.h:202-222 | the cursor moves forward within the buffer, at least 2 bytes per point |
| Parser.LifeBarStageMeans | OsrLib.h:202-222 | on success the length decodes, the cursor ends at the payload's end and the points are LifeBarOf of that payload; MalformedRecord if and only if the payload lies within the buffer and LifeBarOf fails on it |
| Parser.StreamStage | OsrLib.h:224-264 | fails with FailedToDecompressReplayData if and only if the block lies within the buffer and the decoder's status on it is not SZ_OK, and with MalformedRecord if and only if the decoder succeeds and its output does not decode; on success the block lies within the buffer with a non-negative size, the cursor moves past the 25 fixed bytes and then by the count the decoder reports consumed, the frames are the decoder's output decoded as action records, and the time stamp is the 8 bytes at the stage's start |
| Parser.TrailerStage | OsrLib.h:266-270 | succeeds if and only if the 8-byte id is present; the cursor moves 8 bytes, and 8 more exactly when TARGET_PRACTICE is set |
| Parser.ParseSpec | OsrLib.h:147-270 | a parsed replay has a name of at most 255 bytes whose size field is its length, and two 32-byte hashes |
| Parser.ParseOfStages | OsrLib.h:147-270 | one unfolding step of ParseSpec: stages that each succeed where the one before stopped give the assembled record; the round-trip proofs use it |
| Parser.NameTooLong | OsrLib.h:173 | the whole parse fails with PlayerNameTooLong if and only if the header is present and the name length exceeds 255 |
| Parser.NameAccepted | OsrLib.h:174-176 | a length of at most 255 whose bytes are present copies exactly those bytes as the name and moves the cursor past them |
| Parser.DecompressionFailure | OsrLib.h:236-246 | the parse fails with FailedToDecompressReplayData if and only if every earlier stage succeeds and the block's stage reports that failure |
| Parser.ReadHead | OsrLib.h:149-176 | the walk over the header returns what HeadStage returns |
| Parser.ReadScore | OsrLib.h:178-200 | the walk over the score block returns what ScoreStage returns |
| Parser.ReadLifeBarSection | OsrLib.h:202-222 | the walk over the life-bar section returns what LifeBarStage returns |
| Parser.ReadStream | OsrLib.h:224-264 | the walk over the time stamp and the block returns what StreamStage returns |
| Parser.ReadDecoded | OsrLib.h:247-262 | the action loop over the decoder's output buffer returns FramesOf that output |
| Parser.ReadTrailer | OsrLib.h:266-270 | the walk over the id and the Target Practice branch returns what TrailerStage returns |
| Parser.Parse | OsrLib.h:147-270 | the whole walk over the buffer returns what ParseSpec returns |
| Writer.SignedIsAt | OsrLib.h:149-153 | a signed field written at a position reads back there |
| Writer.HeadLayout | OsrLib.h:149-176 | in a written header, the mode, the version, the beatmap hash (bytes 7 to 38), the name length (from byte 40) and the name each read back |
| Writer.HeadRoundTrip | OsrLib.h:149-176 | the header stage reads back the written header and stops at its end |
| Writer.ScoreLayout | OsrLib.h:178-200 | in a written score block, the replay hash, the six counts, the total score, the combo, the flag and the mods each read back at their offsets |
| Writer.ScoreRoundTrip | OsrLib.h:178-200 | the score stage reads back the written block and stops 57 bytes on |
| Writer.ModsIsAt | OsrLib.h:198-199 | the written mods word reads back |
| Writer.SectionLayout | OsrLib.h:202-212 | in a written section, the length decodes as the payload's length and the payload follows it |
| Writer.SectionReads | OsrLib.h:213-222 | a payload whose length has been decoded is read as its points, and the cursor stops at its end |
| Writer.PayloadStage | OsrLib.h:202-222 | the converse of LifeBarStage's success clause, one unfolding step: a decoded length whose payload reads as points makes the stage return them and stop at the payload's end; the round-trip proofs use it |
| Writer.LifeBarSectionRoundTrip | OsrLib.h:202-222 | the life-bar stage reads back the points of the written payload and stops at its end |
| Writer.StreamPieces | OsrLib.h:224-239 | the written stream splits into time stamp, size, properties, declared size and block |
| Writer.StreamNumbers | OsrLib.h:224-233 | the time stamp, the size and the declared size read back |
| Writer.StreamFields | OsrLib.h:224-239 | all stream fields read back where the stage reads them |
| Writer.DecoderSeesBlock | OsrLib.h:236-246 | the stage hands the decoder exactly the written block, its properties and its declared size |
| Writer.BlockReads | OsrLib.h:236-264 | with the decoder succeeding on the block, the stream stage reads back the time stamp and the frames and stops after the block |
| Writer.StreamRoundTrip | OsrLib.h:224-264 | the stream stage reads back the written time stamp and the frames of the decoded text, and stops after the block |
| Writer.TrailerRoundTrip | OsrLib.h:266-270 | the trailer stage reads back the written id and stops after it, 8 bytes further with Target Practice |
| RoundTrip.FileParts | OsrLib.h:147-270 | a written file consists of the header, the 57-byte score block, the life-bar section, the stream and the 8-byte id, one after another |
| RoundTrip.FileLayout | OsrLib.h:147-270 | the five parts stand at the positions where the stages start |
| RoundTrip.HeadInFile | OsrLib.h:149-176 | the header stage reads back the header of a written file |
| RoundTrip.ScoreInFile | OsrLib.h:178-200 | the score stage reads back the score block of a written file |
| RoundTrip.LifeBarInFile | OsrLib.h:202-222 | the life-bar stage reads back the life bar of a written file |
| RoundTrip.StreamInFile | OsrLib.h:224-264 | the stream stage reads back the time stamp and frames of a written file |
| RoundTrip.TrailerInFile | OsrLib.h:266-270 | the trailer stage reads back the id of a written file and stops at its end, or 8 bytes on |
| RoundTrip.AssembleParts | OsrLib.h:77-110 | one unfolding step of Assemble: a replay whose name size is its name's length is the record assembled from its own parts; the round-trip proofs use it |
| RoundTrip.StagesAssemble | OsrLib.h:147-270 | stages that read back the parts of a replay make the parse return that replay |
| RoundTrip.ParseRoundTrip | OsrLib.h:147-270 | a buffer that starts with a written replay file parses back to exactly that replay; the cursor stops after the id, 8 bytes further with Target Practice |
| RoundTrip.ParseWritten | OsrLib.h:147-270 | the same for the record text written for the replay's own points and frames |
| Examples.EmptyName | OsrLib.h:173-176 | a name length of 0 gives the empty name |
| Examples.LongestName | OsrLib.h:173-176 | a name length of 255 is accepted and copies all 255 bytes |
| Examples.NameOf256 | OsrLib.h:173 | a name length of 256 ends the parse with PlayerNameTooLong |
| Examples.LifeBarExample | OsrLib.h:213-222 | the life-bar text `0|1.0,500|0.97,` reads as the points (0, "1.0") and (500, "0.97"), in that order |
| Examples.ActionExample | OsrLib.h:247-262 | the action text `-1|256|-500|0,` reads as one frame: time -1, x "256", y "-500", keys 0 |
| Examples.TargetPracticeAddsEight | OsrLib.h:270 | two files that differ only in the Target Practice bit: the parse with it stops exactly 8 bytes further on |
| Examples.MinimalFile | OsrLib.h:147-270 | a minimal file (mode 0, version 1, placeholder hashes, empty name, zero stats, no mods, empty payloads, id 0) parses to that all-empty replay, ending 133 bytes plus the block on |

## Left out

- File input (OsrLib.h:131-143) is not modelled: the parse starts from the buffer, so the open, seek, tell, read and close errors and the allocation error do not arise.
- The LZMA algorithm (`LzmaDecode`, modules/LZMADec.h) is a function parameter of the parse. modules/LZMADec.h is not part of this model.
- `atof` for `hp`, `x` and `y` is floating point; the model keeps the raw field text the source hands to it.
- The SIMD copies of the hashes and of the stats block are plain slices.
- `malloc`/`free`, the over-allocation of the two record arrays and `OsrLib__Free` are not modelled. The arrays that ReadLifeBar and ReadFrames fill are sized by the payload length, as in the source, and returned as sequences.
- The write-back of the consumed count through `(SizeT*)&compressed_data_size` (OsrLib.h:240) writes 8 bytes into a 4-byte `int` on 64-bit targets. The model keeps only the contract that the decoder reports how many bytes it consumed.
- Uleb128.Decode: the value is an unbounded natural number. A length whose encoding runs past 64 bits wraps or is undefined in the 64-bit `size_t` of the source.
- Text.Atoi: `atoi` and `atoll` overflow (undefined in C) is not modelled; the value is an unbounded integer.
- Records.Field: the source's delimiter scans run past the payload end when a delimiter is missing. The model's scans stop at the payload end with MalformedRecord.
- Parser.HeadStage, Parser.ScoreStage, Parser.StreamStage, Parser.TrailerStage: every fixed read must lie inside the buffer, or the parse fails with TruncatedInput. The source never checks.
- Parser.StreamStage: a negative compressed size, or a block that runs past the buffer, ends the parse with TruncatedInput. The source passes the size to the decoder unchecked.
- Writer.Decodes: the round trip assumes a decoder that succeeds on the written block and reports all of it consumed. What the decoder does on other inputs is left open.
- Parser.TrailerStage: the 8 Target Practice bytes are skipped without a bounds check, as in the source.
- Parser.ParseSpec: on an error the parse returns only the error, no partial record. The source has by then already written the fields it read into `*out`: mode, version and the beatmap hash before PlayerNameTooLong (OsrLib.h:149-173), everything up to the time stamp and the life-bar array before the decompression failure (OsrLib.h:149-246).
