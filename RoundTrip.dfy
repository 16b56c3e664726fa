/** The whole file: a buffer that starts with a replay file parses back to the replay
    it holds.

    The proof goes stage by stage. The file is cut into its five parts (FileLayout),
    each stage's round trip (in Writer) is applied to its own part at the position
    where that part starts, and the stages are put together (StagesAssemble). The
    positions are named by functions of the replay (ScoreStart and the rest), so that
    each step states its facts in exactly the terms the next step needs. */
module RoundTrip {
  import opened Bytes
  import opened OsrTypes
  import opened Records
  import opened Parser
  import opened Writer

  /** `buf` starts with a file holding `rep`: its life-bar payload is text that reads as
      `rep`'s life bar, and its block is one that `lzma` turns into `actions`, text that
      reads as `rep`'s action frames. */
  predicate Writes(buf: seq<byte>, rep: Replay, lifeBar: seq<byte>, b: Block, actions: seq<byte>, lzma: LzmaDecoder) {
    && Writable(rep) && BlockWritable(b)
    && LifeBarOf(lifeBar) == Ok(rep.lifeBarGraph)
    && Decodes(lzma, b, actions) && FramesOf(actions) == Ok(rep.replayData)
    && IsAt(buf, 0, ReplayText(rep, lifeBar, b))
  }

  // ---- Where each part of the file starts ----

  function ScoreStart(rep: Replay): nat {
    |HeadText(rep)|
  }

  function LifeBarStart(rep: Replay): nat {
    ScoreStart(rep) + 57
  }

  function StreamStart(rep: Replay, lifeBar: seq<byte>): nat {
    LifeBarStart(rep) + |Section(lifeBar)|
  }

  function TrailerStart(rep: Replay, lifeBar: seq<byte>, b: Block): nat {
    StreamStart(rep, lifeBar) + 25 + |b.data|
  }

  /** The five parts of a file, found at the positions `p1` to `p4`. */
  lemma FileParts(buf: seq<byte>, rep: Replay, lifeBar: seq<byte>, b: Block, p1: nat, p2: nat, p3: nat, p4: nat)
    requires |rep.replayHash| == 32 && BlockWritable(b) && IsAt(buf, 0, ReplayText(rep, lifeBar, b))
    requires p1 == |HeadText(rep)| && p2 == p1 + 57 && p3 == p2 + |Section(lifeBar)| && p4 == p3 + 25 + |b.data|
    ensures IsAt(buf, 0, HeadText(rep)) && IsAt(buf, p1, ScoreText(rep)) && IsAt(buf, p2, Section(lifeBar))
    ensures IsAt(buf, p3, StreamText(rep.timeStamp, b)) && IsAt(buf, p4, EncodeSigned(rep.onlineScoreId, 8))
    ensures |ReplayText(rep, lifeBar, b)| == p4 + 8
  {
    var h, s, l, st, t := HeadText(rep), ScoreText(rep), Section(lifeBar), StreamText(rep.timeStamp, b),
                          EncodeSigned(rep.onlineScoreId, 8);
    IsAtSplitAt(buf, 0, h + s + l + st, t, p4);
    IsAtSplitAt(buf, 0, h + s + l, st, p3);
    IsAtSplitAt(buf, 0, h + s, l, p2);
    IsAtSplitAt(buf, 0, h, s, p1);
  }

  // ---- Each step below states its facts under the condition that makes them hold ----

  lemma FileLayout(buf: seq<byte>, rep: Replay, lifeBar: seq<byte>, b: Block)
    ensures Writable(rep) && BlockWritable(b) && IsAt(buf, 0, ReplayText(rep, lifeBar, b)) ==>
      && IsAt(buf, 0, HeadText(rep))
      && IsAt(buf, ScoreStart(rep), ScoreText(rep))
      && IsAt(buf, LifeBarStart(rep), Section(lifeBar))
      && IsAt(buf, StreamStart(rep, lifeBar), StreamText(rep.timeStamp, b))
      && IsAt(buf, TrailerStart(rep, lifeBar, b), EncodeSigned(rep.onlineScoreId, 8))
      && |ReplayText(rep, lifeBar, b)| == TrailerStart(rep, lifeBar, b) + 8
  {
    if Writable(rep) && BlockWritable(b) && IsAt(buf, 0, ReplayText(rep, lifeBar, b)) {
      FileParts(buf, rep, lifeBar, b, ScoreStart(rep), LifeBarStart(rep), StreamStart(rep, lifeBar),
                TrailerStart(rep, lifeBar, b));
    }
  }

  lemma HeadInFile(buf: seq<byte>, rep: Replay)
    ensures HeadWritable(rep) && IsAt(buf, 0, HeadText(rep)) ==>
      HeadStage(buf) == Ok(Read(HeadOf(rep), ScoreStart(rep)))
  {
    if HeadWritable(rep) && IsAt(buf, 0, HeadText(rep)) {
      HeadRoundTrip(buf, rep);
    }
  }

  lemma ScoreInFile(buf: seq<byte>, rep: Replay)
    ensures ScoreWritable(rep) && IsAt(buf, ScoreStart(rep), ScoreText(rep)) ==>
      ScoreStage(buf, ScoreStart(rep)) == Ok(Read(ScoreOf(rep), LifeBarStart(rep)))
  {
    if ScoreWritable(rep) && IsAt(buf, ScoreStart(rep), ScoreText(rep)) {
      ScoreRoundTrip(buf, ScoreStart(rep), LifeBarStart(rep), rep);
    }
  }

  lemma LifeBarInFile(buf: seq<byte>, rep: Replay, lifeBar: seq<byte>)
    ensures IsAt(buf, LifeBarStart(rep), Section(lifeBar)) && LifeBarOf(lifeBar) == Ok(rep.lifeBarGraph) ==>
      LifeBarStage(buf, LifeBarStart(rep)) == Ok(Read(rep.lifeBarGraph, StreamStart(rep, lifeBar)))
  {
    if IsAt(buf, LifeBarStart(rep), Section(lifeBar)) && LifeBarOf(lifeBar) == Ok(rep.lifeBarGraph) {
      LifeBarSectionRoundTrip(buf, LifeBarStart(rep), StreamStart(rep, lifeBar), lifeBar, rep.lifeBarGraph);
    }
  }

  lemma StreamInFile(buf: seq<byte>, rep: Replay, lifeBar: seq<byte>, b: Block, actions: seq<byte>, lzma: LzmaDecoder)
    ensures
      && Fits(rep.timeStamp, 8) && BlockWritable(b) && Decodes(lzma, b, actions) && FramesOf(actions) == Ok(rep.replayData)
      && IsAt(buf, StreamStart(rep, lifeBar), StreamText(rep.timeStamp, b))
      ==> StreamStage(buf, StreamStart(rep, lifeBar), lzma) ==
          Ok(Read(Stream(rep.timeStamp, rep.replayData), TrailerStart(rep, lifeBar, b)))
  {
    if && Fits(rep.timeStamp, 8) && BlockWritable(b) && Decodes(lzma, b, actions) && FramesOf(actions) == Ok(rep.replayData)
       && IsAt(buf, StreamStart(rep, lifeBar), StreamText(rep.timeStamp, b)) {
      StreamRoundTrip(buf, StreamStart(rep, lifeBar), TrailerStart(rep, lifeBar, b), rep.timeStamp, b, actions,
                      rep.replayData, lzma);
    }
  }

  lemma TrailerInFile(buf: seq<byte>, rep: Replay, lifeBar: seq<byte>, b: Block)
    ensures
      && Fits(rep.onlineScoreId, 8) && IsAt(buf, TrailerStart(rep, lifeBar, b), EncodeSigned(rep.onlineScoreId, 8))
      && |ReplayText(rep, lifeBar, b)| == TrailerStart(rep, lifeBar, b) + 8
      ==> TrailerStage(buf, TrailerStart(rep, lifeBar, b), rep.mods) ==
          Ok(Read(rep.onlineScoreId, |ReplayText(rep, lifeBar, b)| + TrailerExtra(rep.mods)))
  {
    if && Fits(rep.onlineScoreId, 8) && IsAt(buf, TrailerStart(rep, lifeBar, b), EncodeSigned(rep.onlineScoreId, 8))
       && |ReplayText(rep, lifeBar, b)| == TrailerStart(rep, lifeBar, b) + 8 {
      TrailerRoundTrip(buf, TrailerStart(rep, lifeBar, b), |ReplayText(rep, lifeBar, b)|, rep.onlineScoreId, rep.mods);
    }
  }

  /** A replay is the record assembled from its own parts. */
  lemma AssembleParts(rep: Replay)
    requires rep.playerNameSize == |rep.playerName|
    ensures Assemble(HeadOf(rep), ScoreOf(rep), rep.lifeBarGraph, Stream(rep.timeStamp, rep.replayData), rep.onlineScoreId) == rep
  {
  }

  /** Stages that succeed with the parts of `rep`, each where the one before it stopped,
      make the walk return `rep` itself. */
  lemma StagesAssemble(buf: seq<byte>, lzma: LzmaDecoder, rep: Replay, lifeBar: seq<byte>, b: Block)
    ensures
      && rep.playerNameSize == |rep.playerName|
      && HeadStage(buf) == Ok(Read(HeadOf(rep), ScoreStart(rep)))
      && ScoreStage(buf, ScoreStart(rep)) == Ok(Read(ScoreOf(rep), LifeBarStart(rep)))
      && LifeBarStage(buf, LifeBarStart(rep)) == Ok(Read(rep.lifeBarGraph, StreamStart(rep, lifeBar)))
      && StreamStage(buf, StreamStart(rep, lifeBar), lzma) ==
         Ok(Read(Stream(rep.timeStamp, rep.replayData), TrailerStart(rep, lifeBar, b)))
      && TrailerStage(buf, TrailerStart(rep, lifeBar, b), rep.mods) ==
         Ok(Read(rep.onlineScoreId, |ReplayText(rep, lifeBar, b)| + TrailerExtra(rep.mods)))
      ==> ParseSpec(buf, lzma) == Ok(Parsed(rep, |ReplayText(rep, lifeBar, b)| + TrailerExtra(rep.mods)))
  {
    if && rep.playerNameSize == |rep.playerName|
       && HeadStage(buf) == Ok(Read(HeadOf(rep), ScoreStart(rep)))
       && ScoreStage(buf, ScoreStart(rep)) == Ok(Read(ScoreOf(rep), LifeBarStart(rep)))
       && LifeBarStage(buf, LifeBarStart(rep)) == Ok(Read(rep.lifeBarGraph, StreamStart(rep, lifeBar)))
       && StreamStage(buf, StreamStart(rep, lifeBar), lzma) ==
          Ok(Read(Stream(rep.timeStamp, rep.replayData), TrailerStart(rep, lifeBar, b)))
       && TrailerStage(buf, TrailerStart(rep, lifeBar, b), rep.mods) ==
          Ok(Read(rep.onlineScoreId, |ReplayText(rep, lifeBar, b)| + TrailerExtra(rep.mods))) {
      AssembleParts(rep);
      ParseOfStages(buf, lzma, Read(HeadOf(rep), ScoreStart(rep)), Read(ScoreOf(rep), LifeBarStart(rep)),
                    Read(rep.lifeBarGraph, StreamStart(rep, lifeBar)),
                    Read(Stream(rep.timeStamp, rep.replayData), TrailerStart(rep, lifeBar, b)),
                    Read(rep.onlineScoreId, |ReplayText(rep, lifeBar, b)| + TrailerExtra(rep.mods)));
    }
  }

  // ---- The round trip ----

  /** Round trip: a buffer that starts with a file holding `rep` parses back to `rep`;
      the cursor stops after the online score id, and 8 bytes further with Target
      Practice. */
  lemma ParseRoundTrip(buf: seq<byte>, rep: Replay, lifeBar: seq<byte>, b: Block, actions: seq<byte>, lzma: LzmaDecoder)
    requires Writes(buf, rep, lifeBar, b, actions, lzma)
    ensures ParseSpec(buf, lzma) == Ok(Parsed(rep, |ReplayText(rep, lifeBar, b)| + TrailerExtra(rep.mods)))
  {
    FileLayout(buf, rep, lifeBar, b);
    HeadInFile(buf, rep);
    ScoreInFile(buf, rep);
    LifeBarInFile(buf, rep, lifeBar);
    StreamInFile(buf, rep, lifeBar, b, actions, lzma);
    TrailerInFile(buf, rep, lifeBar, b);
    StagesAssemble(buf, lzma, rep, lifeBar, b);
  }

  /** The same for the record text this model writes: every replay whose records can
      be written comes back from the file that holds `lifeBar` and `actions`, the texts
      written for its life bar and its action frames. */
  lemma ParseWritten(buf: seq<byte>, rep: Replay, lifeBar: seq<byte>, b: Block, actions: seq<byte>, lzma: LzmaDecoder)
    requires Writable(rep) && RecordsWritable(rep) && BlockWritable(b)
    requires lifeBar == LifeBarText(rep.lifeBarGraph) && actions == FramesText(rep.replayData)
    requires Decodes(lzma, b, actions) && IsAt(buf, 0, ReplayText(rep, lifeBar, b))
    ensures ParseSpec(buf, lzma) == Ok(Parsed(rep, |ReplayText(rep, lifeBar, b)| + TrailerExtra(rep.mods)))
  {
    LifeBarRoundTrip(rep.lifeBarGraph);
    FramesRoundTrip(rep.replayData);
    ParseRoundTrip(buf, rep, lifeBar, b, actions, lzma);
  }
}
