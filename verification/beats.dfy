/** The beat detector's collector (`analyze_beat` in beat_detection.py).
    The detector's output arrives as its (time in seconds, beat label)
    pairs; loading the audio and running the detector are not modelled. */
module Beats {
  import opened Time
  import opened Events

  /** The record `analyze_beat` appends for one `(key, value)` pair. */
  function BeatRecord(key: real, value: real): (e: Event)
    ensures e.kind == Beat && e.data == Label(value)
    ensures TruncatesTo(key * 1000.0, e.offset)
  {
    Event(Label(value), SecondsToMs(key), Beat)
  }

  /** `analyze_beat`: one BEAT record per detector pair, in detector order. */
  function AnalyzeBeat(output: seq<(real, real)>): (r: seq<Event>)
    ensures |r| == |output|
    ensures forall i :: 0 <= i < |r| ==>
      && r[i].kind == Beat
      && r[i].data == Label(output[i].1)
      && TruncatesTo(output[i].0 * 1000.0, r[i].offset)
  {
    if |output| == 0 then []
    else
      var rest := AnalyzeBeat(output[1..]);
      assert forall i :: 1 <= i < |output| ==> output[1..][i - 1] == output[i];
      [BeatRecord(output[0].0, output[0].1)] + rest
  }

  /** The mapping is order-preserving and element-wise: the records for two
      runs of detector output are the records of each, concatenated. */
  lemma {:induction false} AnalyzeBeatAppend(a: seq<(real, real)>, b: seq<(real, real)>)
    ensures AnalyzeBeat(a + b) == AnalyzeBeat(a) + AnalyzeBeat(b)
    decreases |a|
  {
    if |a| == 0 {
      assert a + b == b;
    } else {
      assert (a + b)[0] == a[0];
      assert (a + b)[1..] == a[1..] + b;
      AnalyzeBeatAppend(a[1..], b);
    }
  }
}
