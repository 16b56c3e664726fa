/** Concrete inputs: the boundaries of the name length, a life-bar payload and an action
    payload, the Target Practice trailer and a minimal replay file. */
module Examples {
  import opened Bytes
  import opened OsrTypes
  import Uleb128
  import opened Text
  import opened Records
  import opened Flags
  import opened Parser
  import opened Writer
  import opened RoundTrip

  // ---- The name length ----

  /** A length byte of 0 at offset 40 gives the empty name; the cursor moves on by the
      length byte alone. */
  lemma EmptyName(buf: seq<byte>)
    requires 41 <= |buf| && buf[40] == 0
    ensures HeadStage(buf).Ok? && HeadStage(buf).value.value.playerName == [] && HeadStage(buf).value.next == 41
  {
    assert Uleb128.Decode(buf, 40) == Ok(Read(0, 41));
  }

  /** 255, stored as 0xFF 0x01, is the longest name accepted: all 255 bytes after the
      length become the name. */
  lemma LongestName(buf: seq<byte>)
    requires 42 + MAX_NAME <= |buf| && buf[40] == 0xFF && buf[41] == 0x01
    ensures HeadStage(buf).Ok? && HeadStage(buf).value.value.playerName == buf[42..42 + MAX_NAME]
    ensures HeadStage(buf).value.next == 42 + MAX_NAME
  {
    assert Uleb128.Decode(buf, 41) == Ok(Read(1, 42));
    assert Uleb128.Decode(buf, 40) == Ok(Read(255, 42));
    NameAccepted(buf);
  }

  /** 256, stored as 0x80 0x02, ends the parse with PlayerNameTooLong, whatever follows. */
  lemma NameOf256(buf: seq<byte>, lzma: LzmaDecoder)
    requires 42 <= |buf| && buf[40] == 0x80 && buf[41] == 0x02
    ensures ParseSpec(buf, lzma) == Err(PlayerNameTooLong)
  {
    assert Uleb128.Decode(buf, 41) == Ok(Read(2, 42));
    assert Uleb128.Decode(buf, 40) == Ok(Read(256, 42));
    NameTooLong(buf, lzma);
  }

  // ---- The two record payloads ----

  /** `"0|1.0,500|0.97,"` holds two life-bar points, in this order; the final ',' ends
      the second record and adds none. */
  lemma LifeBarExample()
    ensures LifeBarOf([48, 124, 49, 46, 48, 44, 53, 48, 48, 124, 48, 46, 57, 55, 44])
         == Ok([LifeBarPoint(0, [49, 46, 48]), LifeBarPoint(500, [48, 46, 57, 55])])
  {
    var ps := [LifeBarPoint(0, [49, 46, 48]), LifeBarPoint(500, [48, 46, 57, 55])];
    assert NatText(500) == [53, 48, 48] by {
      assert NatText(50) == [53, 48];
    }
    assert PointText(ps[0]) == [48, 124, 49, 46, 48, 44];
    assert PointText(ps[1]) == [53, 48, 48, 124, 48, 46, 57, 55, 44];
    assert LifeBarText(ps[1..]) == PointText(ps[1]) + LifeBarText([]);
    assert LifeBarText(ps) == PointText(ps[0]) + LifeBarText(ps[1..]);
    assert LifeBarText(ps) == [48, 124, 49, 46, 48, 44, 53, 48, 48, 124, 48, 46, 57, 55, 44];
    LifeBarRoundTrip(ps);
  }

  /** `"-1|256|-500|0,"` holds one action frame: time -1, x "256", y "-500", no key. */
  lemma ActionExample()
    ensures FramesOf([45, 49, 124, 50, 53, 54, 124, 45, 53, 48, 48, 124, 48, 44])
         == Ok([ReplayFrame(-1, [50, 53, 54], [45, 53, 48, 48], 0)])
  {
    var fs := [ReplayFrame(-1, [50, 53, 54], [45, 53, 48, 48], 0)];
    assert IntText(-1) == [45, 49];
    assert FramesText(fs) == FrameText(fs[0]) + FramesText([]);
    assert FramesText(fs) == [45, 49, 124, 50, 53, 54, 124, 45, 53, 48, 48, 124, 48, 44];
    FramesRoundTrip(fs);
  }

  // ---- The Target Practice trailer ----

  /** Two files that differ only in the Target Practice bit of the mods: the parse of the
      one with the bit set stops exactly 8 bytes further on. */
  lemma TargetPracticeAddsEight(buf: seq<byte>, buf': seq<byte>, rep: Replay, lifeBar: seq<byte>, b: Block,
                                actions: seq<byte>, lzma: LzmaDecoder)
    requires rep.mods & TARGET_PRACTICE != 0
    requires Writes(buf, rep, lifeBar, b, actions, lzma)
    requires Writes(buf', rep.(mods := rep.mods & !TARGET_PRACTICE), lifeBar, b, actions, lzma)
    ensures ParseSpec(buf, lzma).Ok? && ParseSpec(buf', lzma).Ok?
    ensures ParseSpec(buf, lzma).value.end == ParseSpec(buf', lzma).value.end + 8
  {
    var rep' := rep.(mods := rep.mods & !TARGET_PRACTICE);
    assert rep'.mods & TARGET_PRACTICE == 0;
    assert HeadText(rep') == HeadText(rep);
    assert |ReplayText(rep', lifeBar, b)| == |ReplayText(rep, lifeBar, b)|;
    ParseRoundTrip(buf, rep, lifeBar, b, actions, lzma);
    ParseRoundTrip(buf', rep', lifeBar, b, actions, lzma);
  }

  // ---- A minimal file ----

  /** Placeholder bytes for a 32-byte hash. */
  const ZeroHash: seq<byte> := seq(32, _ => 0)

  /** The replay of a minimal file: mode 0, version 1, placeholder hashes, an empty
      name, zero counts, no mods, no life-bar points, no action frames, score id 0. */
  const MinimalReplay: Replay :=
    Replay(0, 1, ZeroHash, [], 0, ZeroHash, 0, 0, 0, 0, 0, 0, 0, 0, 0, 0, [], 0, [], 0)

  /** The minimal file, whose compressed block `b` the decoder turns into the empty
      action text, parses to MinimalReplay; the cursor stops at the end of the file,
      133 bytes plus the block. */
  lemma MinimalFile(b: Block, lzma: LzmaDecoder)
    requires BlockWritable(b) && Decodes(lzma, b, [])
    ensures |ReplayText(MinimalReplay, [], b)| == 133 + |b.data|
    ensures ParseSpec(ReplayText(MinimalReplay, [], b), lzma) == Ok(Parsed(MinimalReplay, 133 + |b.data|))
  {
    var buf := ReplayText(MinimalReplay, [], b);
    assert buf[0..|buf|] == buf;
    assert |HeadText(MinimalReplay)| == 41;
    assert |Section([])| == 2;
    ParseWritten(buf, MinimalReplay, [], b, [], lzma);
  }
}
