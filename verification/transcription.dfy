/** The transcriber's collector (`transcribe_file` in
    timestamped_transcription.py). The speech model's result arrives as its
    segments of timed words; running the model is not modelled. */
module Transcription {
  import opened Time

  /** A word of the speech model's result, with its times in seconds. */
  datatype AlignedWord = AlignedWord(word: string, start: real, end: real)

  /** A segment of the speech model's result. */
  datatype Segment = Segment(words: seq<AlignedWord>)

  /** An entry of the transcript list that main.py consumes: a dict with a
      `word` key, or one with a `caption` key. */
  datatype TranscriptEntry =
    | WordEntry(word: string, start: Stamp, end: Stamp)
    | CaptionEntry(caption: string, start: Stamp)

  /** The dict built for one word: its text as is, its times as `str()`. */
  function Entry(w: AlignedWord): (e: TranscriptEntry)
    ensures e.WordEntry? && e.word == w.word
    ensures e.start == Rendered(w.start) && e.end == Rendered(w.end)
  {
    WordEntry(w.word, Rendered(w.start), Rendered(w.end))
  }

  function SegmentEntries(words: seq<AlignedWord>): (r: seq<TranscriptEntry>)
    ensures |r| == |words|
    ensures forall j :: 0 <= j < |words| ==> r[j] == Entry(words[j])
  {
    if |words| == 0 then []
    else
      var rest := SegmentEntries(words[1..]);
      assert forall j :: 1 <= j < |words| ==> words[1..][j - 1] == words[j];
      [Entry(words[0])] + rest
  }

  /** The number of words over all segments. */
  function WordCount(segments: seq<Segment>): nat {
    if |segments| == 0 then 0 else |segments[0].words| + WordCount(segments[1..])
  }

  /** `transcribe_file` after transcription: every word of every segment,
      in segment order and then word order. */
  function TranscribeFile(segments: seq<Segment>): (r: seq<TranscriptEntry>)
    ensures |r| == WordCount(segments)
    ensures forall k :: 0 <= k < |r| ==> r[k].WordEntry?
  {
    if |segments| == 0 then []
    else SegmentEntries(segments[0].words) + TranscribeFile(segments[1..])
  }

  /** Flattening distributes over runs of segments: the entries of two runs
      are the entries of each, concatenated. */
  lemma {:induction false} TranscribeFileAppend(a: seq<Segment>, b: seq<Segment>)
    ensures TranscribeFile(a + b) == TranscribeFile(a) + TranscribeFile(b)
    decreases |a|
  {
    if |a| == 0 {
      assert a + b == b;
    } else {
      assert (a + b)[0] == a[0];
      assert (a + b)[1..] == a[1..] + b;
      TranscribeFileAppend(a[1..], b);
    }
  }

  /** Word `j` of segment `i` lands at position WordCount(segments[..i]) + j,
      with its text untrimmed and its times rendered as strings. */
  lemma {:induction false} TranscribeFilePosition(segments: seq<Segment>, i: nat, j: nat)
    requires i < |segments| && j < |segments[i].words|
    ensures WordCount(segments[..i]) + j < |TranscribeFile(segments)|
    ensures TranscribeFile(segments)[WordCount(segments[..i]) + j] == Entry(segments[i].words[j])
    decreases i
  {
    if i == 0 {
      assert segments[..0] == [];
    } else {
      var s1 := segments[1..];
      assert s1[i - 1] == segments[i];
      TranscribeFilePosition(s1, i - 1, j);
      assert segments[..i] == [segments[0]] + s1[..i - 1];
      assert segments[..i][1..] == s1[..i - 1];
    }
  }
}
