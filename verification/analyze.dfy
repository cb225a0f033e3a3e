/** The `/analyze/` pipeline of main.py: the events of the three collectors
    merged into one timeline sorted by offset, and the envelope around that
    timeline and the uploaded WAV file's frames. Separating the vocals,
    running the three models and the temporary files are not modelled:
    the models' outputs are arguments. */
module Analyze {
  import opened Results
  import opened StructPack
  import opened Time
  import opened Events
  import opened Envelope
  import Text
  import Json
  import Visemes
  import Beats
  import Transcription

  // ---------------------------------------------------------------------
  // The timeline

  /** The event main.py appends for one transcript entry: a CAPTION with the
      caption text when the entry has a `caption` key, otherwise a WORD with
      the word stripped of surrounding whitespace; both at the entry's start. */
  function TranscriptEvent(t: Transcription.TranscriptEntry): (e: Event)
    ensures TruncatesTo(t.start.seconds * 1000.0, e.offset)
    ensures t.CaptionEntry? ==> e.kind == Caption && e.data == Text(t.caption)
    ensures t.WordEntry? ==> e.kind == Word && e.data == Text(Text.Strip(t.word))
  {
    match t
    case CaptionEntry(caption, start) => Event(Text(caption), ConvertToMs(start), Caption)
    case WordEntry(word, start, _) => Event(Text(Text.Strip(word)), ConvertToMs(start), Word)
  }

  function TranscriptEvents(ts: seq<Transcription.TranscriptEntry>): (r: seq<Event>)
    ensures |r| == |ts|
    ensures forall i :: 0 <= i < |ts| ==> r[i] == TranscriptEvent(ts[i])
  {
    if |ts| == 0 then []
    else
      var rest := TranscriptEvents(ts[1..]);
      assert forall i :: 1 <= i < |ts| ==> ts[1..][i - 1] == ts[i];
      [TranscriptEvent(ts[0])] + rest
  }

  /** The PHONE event of a recognized unit: its phoneme, at its start. */
  function PhoneEvent(u: Visemes.PhonemeUnit): (e: Event)
    ensures e.kind == Phone && e.data == Text(u.phoneme)
    ensures TruncatesTo(u.startTime * 1000.0, e.offset)
  {
    Event(Text(u.phoneme), ConvertToMs(Float(u.startTime)), Phone)
  }

  /** The VISEME event of a recognized unit: its viseme's name, at the same
      offset as the unit's PHONE event. */
  function VisemeEvent(u: Visemes.PhonemeUnit): (e: Event)
    ensures e.kind == Viseme && e.data == Text(Visemes.Name(u.viseme))
    ensures e.offset == PhoneEvent(u).offset
  {
    Event(Text(Visemes.Name(u.viseme)), ConvertToMs(Float(u.startTime)), Viseme)
  }

  /** `[f(x0), g(x0), f(x1), g(x1), ...]`: two items per element, in order. */
  function Interleave<T, U>(xs: seq<T>, f: T -> U, g: T -> U): (r: seq<U>)
    ensures |r| == 2 * |xs|
    ensures forall k :: 0 <= k < |xs| ==> r[2 * k] == f(xs[k]) && r[2 * k + 1] == g(xs[k])
  {
    if |xs| == 0 then []
    else
      var rest := Interleave(xs[1..], f, g);
      assert forall k :: 1 <= k < |xs| ==> xs[1..][k - 1] == xs[k];
      [f(xs[0]), g(xs[0])] + rest
  }

  /** Two events per unit, PHONE then VISEME, in unit order. */
  function UnitsEvents(units: seq<Visemes.PhonemeUnit>): (r: seq<Event>)
    ensures |r| == 2 * |units|
    ensures forall k :: 0 <= k < |units| ==> r[2 * k] == PhoneEvent(units[k]) && r[2 * k + 1] == VisemeEvent(units[k])
  {
    Interleave(units, PhoneEvent, VisemeEvent)
  }

  /** `data` before sorting: the beats, then the transcript events, then
      the phoneme and viseme events. */
  function Collect(beats: seq<Event>, ts: seq<Transcription.TranscriptEntry>, units: seq<Visemes.PhonemeUnit>): (r: seq<Event>)
    ensures |r| == |beats| + |ts| + 2 * |units|
    ensures r[..|beats|] == beats
    ensures forall i :: 0 <= i < |ts| ==> r[|beats| + i] == TranscriptEvent(ts[i])
    ensures forall k :: 0 <= k < |units| ==>
      r[|beats| + |ts| + 2 * k] == PhoneEvent(units[k]) && r[|beats| + |ts| + 2 * k + 1] == VisemeEvent(units[k])
  {
    beats + TranscriptEvents(ts) + UnitsEvents(units)
  }

  /** `data` after `data.sort(key=lambda x: x["offset"])`: every collected
      event exactly once, in non-decreasing offset order. */
  function Timeline(beats: seq<Event>, ts: seq<Transcription.TranscriptEntry>, units: seq<Visemes.PhonemeUnit>): (r: seq<Event>)
    ensures SortedByOffset(r)
    ensures |r| == |beats| + |ts| + 2 * |units|
    ensures multiset(r) == multiset(beats) + multiset(TranscriptEvents(ts)) + multiset(UnitsEvents(units))
  {
    SortByOffset(Collect(beats, ts, units))
  }

  /** Events that share an offset keep their collection order: all beats
      first, then transcript events, then phoneme and viseme events, each
      group in its own order. */
  lemma TimelineStable(beats: seq<Event>, ts: seq<Transcription.TranscriptEntry>, units: seq<Visemes.PhonemeUnit>, k: int)
    ensures WithOffset(Timeline(beats, ts, units), k)
         == WithOffset(beats, k) + WithOffset(TranscriptEvents(ts), k) + WithOffset(UnitsEvents(units), k)
  {
    SortIsStable(Collect(beats, ts, units), k);
    WithOffsetAppend(beats + TranscriptEvents(ts), UnitsEvents(units), k);
    WithOffsetAppend(beats, TranscriptEvents(ts), k);
  }

  /** Python's sort is some stable sort; any stable sort of the collected
      events yields this timeline, whatever algorithm it uses. */
  lemma TimelineIsTheStableSort(beats: seq<Event>, ts: seq<Transcription.TranscriptEntry>, units: seq<Visemes.PhonemeUnit>, r: seq<Event>)
    requires SortedByOffset(r)
    requires forall k :: WithOffset(r, k) == WithOffset(Collect(beats, ts, units), k)
    ensures r == Timeline(beats, ts, units)
  {
    var t := Timeline(beats, ts, units);
    forall k ensures WithOffset(r, k) == WithOffset(t, k) {
      SortIsStable(Collect(beats, ts, units), k);
    }
    StableSortIsUnique(r, t);
  }

  /** The VISEME event the table gives a PHONE event. */
  function VisemeAfter(e: Event): Event {
    Event(Text(Visemes.Name(Visemes.VisemeOf(if e.data.Text? then e.data.text else ""))), e.offset, Viseme)
  }

  lemma VisemeAfterKeepsOffset()
    ensures KeepsOffset(VisemeAfter)
  {
  }

  /** Before sorting, each PHONE is directly followed by its VISEME. */
  lemma CollectPhonesFollowed(beats: seq<Event>, ts: seq<Transcription.TranscriptEntry>, units: seq<Visemes.PhonemeUnit>)
    requires forall i :: 0 <= i < |beats| ==> beats[i].kind != Phone
    requires forall k :: 0 <= k < |units| ==> units[k].viseme == Visemes.VisemeOf(units[k].phoneme)
    ensures PhonesFollowedBy(Collect(beats, ts, units), VisemeAfter)
  {
    var c := Collect(beats, ts, units);
    var n := |beats| + |ts|;
    forall i | 0 <= i < |c| ensures c[i].kind == Phone ==> i + 1 < |c| && c[i + 1] == VisemeAfter(c[i]) {
      if i < |beats| {
        assert c[..|beats|][i] == beats[i];
      } else if i < n {
        assert c[|beats| + (i - |beats|)] == TranscriptEvent(ts[i - |beats|]);
      } else {
        var k := (i - n) / 2;
        if (i - n) % 2 == 1 {
          assert i == n + 2 * k + 1;
          assert c[i] == VisemeEvent(units[k]);
        } else {
          assert i == n + 2 * k;
          UnitPhoneFollowed(units[k]);
          assert c[i] == PhoneEvent(units[k]);
          assert c[i + 1] == VisemeEvent(units[k]);
        }
      }
    }
  }

  /** One unit's VISEME event is what VisemeAfter derives from its PHONE
      event, when the unit's viseme is its phoneme's table entry. */
  lemma UnitPhoneFollowed(u: Visemes.PhonemeUnit)
    requires u.viseme == Visemes.VisemeOf(u.phoneme)
    ensures VisemeEvent(u) == VisemeAfter(PhoneEvent(u))
  {
  }

  /** After sorting, each PHONE is still directly followed by the VISEME of
      the same unit, when the units come from the recognizer's collector. */
  lemma TimelinePhonesFollowed(beats: seq<Event>, ts: seq<Transcription.TranscriptEntry>, units: seq<Visemes.PhonemeUnit>)
    requires forall i :: 0 <= i < |beats| ==> beats[i].kind != Phone
    requires forall k :: 0 <= k < |units| ==> units[k].viseme == Visemes.VisemeOf(units[k].phoneme)
    ensures PhonesFollowedBy(Timeline(beats, ts, units), VisemeAfter)
  {
    CollectPhonesFollowed(beats, ts, units);
    VisemeAfterKeepsOffset();
    SortKeepsPhonesFollowed(Collect(beats, ts, units), VisemeAfter);
  }

  /** A word from the transcriber reaches the timeline as a WORD event with
      the stripped word, at its start: the `str()` rendering of the start
      time converts to the same milliseconds as the time itself. */
  lemma WordEntryEvent(w: Transcription.AlignedWord)
    ensures TranscriptEvent(Transcription.Entry(w)) == Event(Text(Text.Strip(w.word)), SecondsToMs(w.start), Word)
  {
    RenderingConvertsAlike(w.start);
  }

  /** The transcriber's collector never produces a `caption` entry, so with
      it every transcript event is a WORD and the CAPTION branch is never
      taken. */
  lemma TranscriberGivesOnlyWords(segments: seq<Transcription.Segment>)
    ensures forall e :: e in TranscriptEvents(Transcription.TranscribeFile(segments)) ==> e.kind == Word
  {
    var ts := Transcription.TranscribeFile(segments);
    var r := TranscriptEvents(ts);
    forall e | e in r ensures e.kind == Word {
      var i :| 0 <= i < |r| && r[i] == e;
      assert ts[i].WordEntry?;
    }
  }

  // ---------------------------------------------------------------------
  // The envelope

  /** The name main.py writes in a record's `type` field. */
  function KindName(k: Kind): (name: string)
    ensures |name| > 0
  {
    match k
    case Beat => "BEAT"
    case Caption => "CAPTION"
    case Word => "WORD"
    case Phone => "PHONE"
    case Viseme => "VISEME"
  }

  /** Distinct kinds are written under distinct names. */
  lemma KindNameInjective(a: Kind, b: Kind)
    requires KindName(a) == KindName(b)
    ensures a == b
  {
    assert KindName(a)[0] == KindName(b)[0];
    if KindName(a)[0] == 'V' || KindName(a)[0] == 'W' {
      assert |KindName(a)| == |KindName(b)|;
    }
  }

  /** The `data` value as `json.dumps` sees it: a number for a beat label,
      a string for text. */
  function DataJson(d: Datum): (v: Json.Value)
    ensures d.Label? ==> v.Real? && v.x == d.value
    ensures d.Text? ==> v.Str? && v.s == d.text
  {
    match d
    case Label(x) => Json.Real(x)
    case Text(t) => Json.Str(t)
  }

  /** Distinct `data` values serialize differently: a number never equals
      a string, and each side keeps its value. */
  lemma DataJsonInjective(a: Datum, b: Datum)
    requires DataJson(a) == DataJson(b)
    ensures a == b
  {
  }

  /** The dict of one event as `json.dumps` sees it. beat_detection.py
      builds its dicts in the key order offset, data, type; main.py builds
      the others in the order data, offset, type. */
  function EventJson(e: Event): (v: Json.Value)
    ensures v.Object? && |v.fields| == 3
    ensures ("data", DataJson(e.data)) in v.fields
    ensures ("offset", Json.Int(e.offset)) in v.fields
    ensures ("type", Json.Str(KindName(e.kind))) in v.fields
    ensures e.kind == Beat ==> v.fields[0].0 == "offset" && v.fields[1].0 == "data" && v.fields[2].0 == "type"
    ensures e.kind != Beat ==> v.fields[0].0 == "data" && v.fields[1].0 == "offset" && v.fields[2].0 == "type"
  {
    var data := DataJson(e.data);
    var offset := ("offset", Json.Int(e.offset));
    var kind := ("type", Json.Str(KindName(e.kind)));
    if e.kind == Beat then Json.Object([offset, ("data", data), kind])
    else Json.Object([("data", data), offset, kind])
  }

  /** The timeline list as `json.dumps` sees it; it is truthy exactly when
      the timeline is not empty. */
  function TimelineJson(data: seq<Event>): (v: Json.Value)
    ensures v.Array? && |v.items| == |data|
    ensures forall i :: 0 <= i < |data| ==> v.items[i] == EventJson(data[i])
    ensures Json.Truthy(v) <==> |data| > 0
  {
    Json.Array(seq(|data|, i requires 0 <= i < |data| => EventJson(data[i])))
  }

  /** Serializing loses nothing: two events with the same dict are the same
      event. */
  lemma EventJsonInjective(a: Event, b: Event)
    requires EventJson(a) == EventJson(b)
    ensures a == b
  {
    var va, vb := EventJson(a), EventJson(b);
    assert ("type", Json.Str(KindName(a.kind))) in vb.fields;
    assert ("offset", Json.Int(a.offset)) in vb.fields;
    assert ("data", DataJson(a.data)) in vb.fields;
    TypeFieldUnique(vb, b);
    KindNameInjective(a.kind, b.kind);
    OffsetFieldUnique(vb, b);
    DataFieldUnique(vb, b);
  }

  lemma TypeFieldUnique(v: Json.Value, e: Event)
    requires v == EventJson(e)
    ensures forall t :: ("type", t) in v.fields ==> t == Json.Str(KindName(e.kind))
  {
  }

  lemma OffsetFieldUnique(v: Json.Value, e: Event)
    requires v == EventJson(e)
    ensures forall t :: ("offset", t) in v.fields ==> t == Json.Int(e.offset)
  {
  }

  lemma DataFieldUnique(v: Json.Value, e: Event)
    requires v == EventJson(e)
    ensures forall t :: ("data", t) in v.fields ==> t == DataJson(e.data)
  {
  }

  /** The JSON section determines the timeline: two timelines with the same
      serialized list are the same list of events. */
  lemma TimelineJsonInjective(a: seq<Event>, b: seq<Event>)
    requires TimelineJson(a) == TimelineJson(b)
    ensures a == b
  {
    forall i | 0 <= i < |a| ensures a[i] == b[i] {
      EventJsonInjective(a[i], b[i]);
    }
  }

  /** A WAV file as `wave.open` parses it: the channel count and sample width
      from its format chunk, and the bytes of its data chunk. */
  datatype WavFile = WavFile(channels: nat, sampleWidth: nat, frameRate: nat, dataChunk: seq<byte>)

  /** `wave.Error` raised by `wave.open` for a zero sample width or channel count. */
  datatype WavError = BadSampleWidth | BadChannelCount

  /** `wav_file.readframes(params.nframes)`: the frames of the data chunk,
      `nframes` being the chunk size divided by the frame size. A trailing
      partial frame is dropped; the RIFF header is never part of it. */
  function ReadAllFrames(w: WavFile): (r: Result<seq<byte>, WavError>)
    ensures r.Success? <==> w.sampleWidth > 0 && w.channels > 0
    ensures r.Success? ==>
      var frameSize := w.channels * w.sampleWidth;
      && |r.value| <= |w.dataChunk|
      && r.value == w.dataChunk[..|r.value|]
      && |r.value| % frameSize == 0
      && |w.dataChunk| - |r.value| < frameSize
  {
    if w.sampleWidth == 0 then Failure(BadSampleWidth)
    else if w.channels == 0 then Failure(BadChannelCount)
    else
      var frameSize := w.channels * w.sampleWidth;
      var nframes := |w.dataChunk| / frameSize;
      WholeFrames(|w.dataChunk|, frameSize);
      Success(w.dataChunk[..nframes * frameSize])
  }

  /** Whole frames of size `m` fit in `n` bytes with less than a frame to spare. */
  lemma WholeFrames(n: nat, m: nat)
    requires m > 0
    ensures n / m * m <= n && n - n / m * m < m && (n / m * m) % m == 0
  {
    var q := n / m;
    assert n == q * m + n % m;
    MultipleMod(q, m);
  }

  /** Euclidean division of a multiple of `m` leaves nothing over. */
  lemma MultipleMod(q: nat, m: nat)
    requires m > 0
    ensures (q * m) % m == 0
  {
    var a := q * m;
    var d := q - a / m;
    assert d * m == a % m by {
      assert a == (a / m) * m + a % m;
      assert d * m == q * m - (a / m) * m;
    }
  }

  datatype EncodeError = Wav(wavError: WavError) | Struct(structError: StructError)

  /** `encode_json_and_file` in main.py, the copy `process_audio` calls:
      the envelope around the timeline's JSON and the WAV file's frames. */
  function EncodeJsonAndFrames(data: seq<Event>, dumps: Json.Value -> seq<byte>, wav: WavFile): (r: Result<seq<byte>, EncodeError>)
    ensures r.Success? <==>
      && ReadAllFrames(wav).Success?
      && |Json.JsonBytes(TimelineJson(data), dumps)| <= INT64_MAX
      && |ReadAllFrames(wav).value| <= INT64_MAX
    ensures r.Success? ==>
      var json, frames := Json.JsonBytes(TimelineJson(data), dumps), ReadAllFrames(wav).value;
      && |r.value| == HEADER_SIZE + |json| + |frames|
      && r.value[HEADER_SIZE..HEADER_SIZE + |json|] == json
      && r.value[HEADER_SIZE + |json|..] == frames
      && (HasBinary(r.value[0]) <==> |frames| > 0)
      && (HasJson(r.value[0]) <==> |json| > 0)
      && OnlyKnownFlags(r.value[0])
    ensures r.Success? && |data| == 0 ==>
      && UnpackInt64(r.value[1..9]) == 0
      && !HasJson(r.value[0])
  {
    var json := Json.JsonBytes(TimelineJson(data), dumps);
    match ReadAllFrames(wav)
    case Failure(e) => Failure(Wav(e))
    case Success(frames) =>
      match Encode(json, frames)
      case Failure(e) => Failure(Struct(e))
      case Success(b) => Success(b)
  }

  // ---------------------------------------------------------------------
  // The whole request

  datatype AnalyzeError = Recognizer(parseError: Visemes.ParseError) | Encoding(encodeError: EncodeError)

  /** `process_audio` from the models' outputs on: the phoneme units, the
      transcript and the beats, merged and sorted, then enveloped with the
      uploaded file's frames. `parse` is `float()` on a recognizer field and
      `dumps` is the JSON serializer. */
  function ProcessAudio(
    recognizerLines: seq<string>, parse: string -> Option<real>,
    segments: seq<Transcription.Segment>,
    beatOutput: seq<(real, real)>,
    dumps: Json.Value -> seq<byte>, upload: WavFile): (r: Result<seq<byte>, AnalyzeError>)
    ensures Visemes.TranscribeVisemes(recognizerLines, parse).Failure? ==>
      r == Failure(Recognizer(Visemes.TranscribeVisemes(recognizerLines, parse).error))
    ensures Visemes.TranscribeVisemes(recognizerLines, parse).Success? && ReadAllFrames(upload).Failure? ==>
      r == Failure(Encoding(Wav(ReadAllFrames(upload).error)))
    ensures r.Success? ==> |r.value| >= HEADER_SIZE + |ReadAllFrames(upload).value|
    ensures r.Success? <==>
      && Visemes.TranscribeVisemes(recognizerLines, parse).Success?
      && EncodeJsonAndFrames(
           Timeline(Beats.AnalyzeBeat(beatOutput), Transcription.TranscribeFile(segments), Visemes.TranscribeVisemes(recognizerLines, parse).value),
           dumps, upload).Success?
  {
    match Visemes.TranscribeVisemes(recognizerLines, parse)
    case Failure(e) => Failure(Recognizer(e))
    case Success(units) =>
      var data := Timeline(Beats.AnalyzeBeat(beatOutput), Transcription.TranscribeFile(segments), units);
      match EncodeJsonAndFrames(data, dumps, upload)
      case Failure(e) => Failure(Encoding(e))
      case Success(b) => Success(b)
  }

  /** A successful response decodes to the serialized timeline and the
      upload's frames, and that timeline is sorted, complete, and keeps every
      PHONE next to its VISEME. */
  lemma ProcessAudioResponse(
    recognizerLines: seq<string>, parse: string -> Option<real>,
    segments: seq<Transcription.Segment>,
    beatOutput: seq<(real, real)>,
    dumps: Json.Value -> seq<byte>, upload: WavFile)
    requires ProcessAudio(recognizerLines, parse, segments, beatOutput, dumps, upload).Success?
    ensures
      var units := Visemes.TranscribeVisemes(recognizerLines, parse).value;
      var data := Timeline(Beats.AnalyzeBeat(beatOutput), Transcription.TranscribeFile(segments), units);
      && Decode(ProcessAudio(recognizerLines, parse, segments, beatOutput, dumps, upload).value)
         == Success(Decoded(Json.JsonBytes(TimelineJson(data), dumps), ReadAllFrames(upload).value))
      && |data| == |beatOutput| + Transcription.WordCount(segments) + 2 * Visemes.UnitLineCount(recognizerLines)
      && SortedByOffset(data)
      && PhonesFollowedBy(data, VisemeAfter)
  {
    var units := Visemes.TranscribeVisemes(recognizerLines, parse).value;
    var beats := Beats.AnalyzeBeat(beatOutput);
    var ts := Transcription.TranscribeFile(segments);
    var data := Timeline(beats, ts, units);
    DecodeEncode(Json.JsonBytes(TimelineJson(data), dumps), ReadAllFrames(upload).value);
    TimelinePhonesFollowed(beats, ts, units);
  }
}
