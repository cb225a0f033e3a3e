# PythonMusicLipsync timeline and envelope, in Dafny

This project models the parts of the PythonMusicLipsync service that are plain logic.
Around them sit HTTP handlers and machine-learning calls, which are not modelled.
The modelled parts are:

- the binary envelope that ships the timeline JSON together with audio bytes. There are two
  copies: `app.py` sends the raw file bytes and `main.py` sends the WAV frame bytes;
- `convert_to_ms`, which turns seconds into integer milliseconds;
- the `/analyze/` timeline, which collects the beats, transcript entries and phoneme/viseme
  units into events and then sorts them stably by `offset`;
- the stream collectors:
  - the phoneme-to-viseme table and the recognizer-line parser (`transcribe_visemes.py`);
  - the beat-record loop (`beat_detection.py`);
  - the segment/word flattening (`timestamped_transcription.py`).

The outputs of the third-party models are arguments:

- the recognizer's output lines;
- the transcriber's segments;
- the beat detector's `(key, value)` pairs.

Python's `float()` on a string is a parameter `string -> Option<real>`, where `None` stands for
the `ValueError`. `json.dumps(...).encode('utf-8')` is a parameter `Json.Value -> seq<byte>`.

Modules, one per file:

| module | models |
|---|---|
| `Results` | `Result`/`Option` used for Python exceptions |
| `Text` | `str.split()` and `str.strip()` with Python's whitespace set |
| `Time` | `convert_to_ms`: `int(t * 1000)`, truncation toward zero |
| `Events` | the timeline record and Python's stable `list.sort(key=offset)` as an insertion sort |
| `Visemes` | the phoneme-to-viseme table and the recognizer-line loop |
| `Beats` | the `(key, value)` to BEAT record loop |
| `Transcription` | the segment/word flattening loop |
| `StructPack` | `struct.pack('q')` and the `'8s'` field (little-endian native order) |
| `Json` | JSON values as `json.dumps` sees them, Python truthiness |
| `Envelope` | the shared wire format and its decoder |
| `App` | `encode_json_and_file` in `app.py` (raw file bytes) |
| `Analyze` | `encode_json_and_file` in `main.py` (WAV frames) and the `process_audio` timeline |

Wire format, as both encoders produce it:

- byte 0 holds the flags. Bit 0 means there is a payload, bit 1 means there is JSON, and every
  other bit is zero;
- bytes 1..8 hold the JSON length and bytes 9..16 the payload length. Each is a signed 64-bit
  little-endian integer;
- then come the JSON bytes, then the payload.

The header is exactly 17 bytes, because `'B8s8s'` has no padding.

Assumptions:

- The native byte order of `struct.pack('q')` is taken to be little-endian.
- Timestamps are exact reals, and IEEE rounding is not modelled.
- The string rendering `str(float)` is modelled as carrying the same real. So `float(str(x)) == x`,
  which Python's shortest-repr rendering guarantees.

## Model

| member | source | states |
|---|---|---|
| Time.Trunc | main.py:59 | `int(x)` cuts off the fractional part toward zero: `n <= x < n+1` for x >= 0 and `n-1 < x <= n` for x < 0 |
| Time.SecondsToMs | main.py:59 | the milliseconds are `seconds*1000` truncated toward zero, and non-negative for a non-negative time |
| Time.ConvertToMs | main.py:55-59 | a finite float stamp or its rendered string both give `seconds*1000` truncated toward zero |
| Time.TruncationIsUnique | main.py:59 | the truncation of a value is unique, so the contracts above pin the result down |
| Time.RenderingConvertsAlike | main.py:57-58 | converting the string rendering of a time gives the same milliseconds as converting the float |
| Time.TruncatesTowardZero | main.py:54-59 | 0.9999 s gives 999 (not rounded to 1000), and -0.0015 s gives -1, truncated toward zero |
| Text.Strip | main.py:104 | `strip()` never grows the word and leaves no whitespace at either end |
| Text.StripIsTheTrimmedSlice | main.py:104 | `strip()` is the unique slice left after removing the leading and trailing whitespace runs |
| Text.StripAllSpace | main.py:104 | a string of whitespace only strips to the empty string |
| Text.StripAroundText | main.py:104 | with text between two whitespace runs, `strip()` cuts exactly at the runs' inner edges |
| Text.StripKeepsText | main.py:104 | `strip()` removes only whitespace: the non-space characters are unchanged and in order |
| Text.StripIdempotent | main.py:104 | stripping twice is stripping once |
| Text.Split | transcribe_visemes.py:76 | every token of `split()` is non-empty and contains no whitespace (with SplitLayout, the tokens are exactly the maximal non-whitespace runs) |
| Text.SplitKeepsText | transcribe_visemes.py:76 | the tokens of `split()`, concatenated, are the non-space characters of the line in order |
| Text.SplitLayout | transcribe_visemes.py:76 | `split()` returns exactly the words of any string made of non-empty whitespace-free words with non-empty whitespace runs between them and any whitespace before and after, so each maximal run of non-whitespace is one token |
| Text.SplitWord | transcribe_visemes.py:76 | a word followed by whitespace or the end is one token |
| Text.SplitSkipsSpace | transcribe_visemes.py:76 | leading whitespace yields no token |
| Text.LeadingSpace | main.py:104 | the leading whitespace run is all whitespace and ends at a non-space character or the end |
| Text.TrailingSpace | main.py:104 | the trailing whitespace run is all whitespace and starts after a non-space character or at the start |
| Text.WordLength | transcribe_visemes.py:76 | the first token runs up to the first whitespace character |
| Text.NonSpaceAppend | transcribe_visemes.py:76 | the non-space characters of a concatenation are the concatenation of each part's |
| Text.NonSpaceAllSpace | transcribe_visemes.py:76 | an all-whitespace string has no non-space characters |
| Text.NonSpaceNoSpace | transcribe_visemes.py:76 | a string without whitespace is its own non-space text |
| Text.WordLengthIs | transcribe_visemes.py:76 | the first-token length is the unique length whose prefix has no whitespace and is followed by whitespace or the end |
| Text.LeadingSpaceIs | main.py:104 | the leading-whitespace length is unique |
| Text.TrailingSpaceIs | main.py:104 | the trailing-whitespace length is unique |
| Events.Before | main.py:125 | the insertion point: every earlier event has a smaller offset and the next one does not |
| Events.BeforeIs | main.py:125 | the insertion point is the unique index with that property |
| Events.Insert | main.py:125 | a new event is spliced in at `Before(x.offset, s)`: after the leading run of smaller offsets and ahead of the first equal or larger one. InsertSorted shows that this keeps a sorted list sorted |
| Events.InsertSorted | main.py:125 | inserting into a sorted list keeps it sorted |
| Events.InsertAddsOne | main.py:125 | insertion adds exactly the new event to the multiset and to the length |
| Events.SpliceSorted | main.py:125 | splicing an event in at its insertion point keeps the sequence sorted |
| Events.SortByOffset | main.py:125 | the sorted list is non-decreasing by offset and is a permutation of its input (same length, same multiset) |
| Events.WithOffsetAppend | main.py:125 | the events with a given offset in a concatenation are those of each part, in order |
| Events.WithOffsetMember | main.py:125 | every event in the filter for offset k is an event of the list, and its offset is k |
| Events.InsertWithOffset | main.py:125 | inserting an event puts it first among the events of its offset and leaves other offsets' order alone |
| Events.SortIsStable | main.py:125 | for every offset, the sorted list holds the events of that offset in their input order (stability) |
| Events.StableSortIsUnique | main.py:125 | two sorted lists with the same events per offset, in the same order, are equal, so any stable sort gives this result |
| Events.HeadsAgree | main.py:125 | two sorted lists with the same events at their first offsets start with the same event |
| Events.WithOffsetOfHead | main.py:125 | the group of the first event's offset is never empty |
| Events.WithOffsetTail | main.py:125 | dropping the first event changes only its own offset's group |
| Events.SplicePhonesFollowed | main.py:111-121 | a block that keeps PHONEs followed and ends in a non-PHONE, spliced in after a non-PHONE event, keeps every PHONE followed by its VISEME |
| Events.NoPhoneAheadOfInsertion | main.py:111-121 | in a sorted list where each PHONE is followed by a same-offset event, the event just before an insertion point is never a PHONE |
| Events.PhonesFollowedInSuffix | main.py:111-121 | dropping the first event keeps every PHONE followed by its VISEME |
| Events.InsertKeepsPhonesFollowed | main.py:111-125 | inserting a non-PHONE event keeps every PHONE directly followed by its VISEME |
| Events.InsertTwoSameOffset | main.py:111-125 | inserting two events of the same offset places them next to each other, the later-inserted first |
| Events.InsertPairKeepsPhonesFollowed | main.py:111-125 | inserting a PHONE's VISEME and then the PHONE keeps the two adjacent |
| Events.SortKeepsPhonesFollowed | main.py:111-125 | if each PHONE is followed by its same-offset VISEME before sorting, it still is after sorting |
| Visemes.Name | transcribe_visemes.py:28-67 | each viseme is written as a capitalised name of one to seven letters |
| Visemes.NameInjective | transcribe_visemes.py:28-67 | distinct visemes have distinct names, so a VISEME event's text identifies its viseme |
| Visemes.VisemeOf | transcribe_visemes.py:82 | the lookup never fails: a symbol in the table gets that symbol's own viseme, and `Unknown` exactly for symbols missing from the table |
| Visemes.UnknownIsNotInTable | transcribe_visemes.py:28-67 | no table entry maps to `Unknown`, so `Unknown` always means a missing symbol |
| Visemes.UnknownNameIsDistinct | transcribe_visemes.py:28-67 | the name `Unknown` is distinct from every table viseme name |
| Visemes.Bilabials | transcribe_visemes.py:30-43 | `p`, `b` and `m` map to `BMP` |
| Visemes.Alveolars | transcribe_visemes.py:31-45 | `t` and `d` map to `D` |
| Visemes.ScriptG | transcribe_visemes.py:58 | script `ɡ` (U+0261) maps to `G`, and ASCII `g` is not in the table, so it maps to `Unknown` |
| Visemes.Affricates | transcribe_visemes.py:32-46 | the tie-barred `d͡ʒ` and `t͡ʃ` map to `Ch` |
| Visemes.ParseLine | transcribe_visemes.py:76-88 | a line that does not split into 3 tokens gives nothing. Otherwise: the phoneme is token 3 verbatim, the viseme is its table lookup, `end = start + duration`, and a bad number is an error |
| Visemes.UnitLineCount | transcribe_visemes.py:75-77 | at most one unit per line |
| Visemes.TranscribeVisemes | transcribe_visemes.py:74-90 | the call fails exactly when some three-token line has a bad number. Otherwise there is one unit per three-token line, each with the viseme of its own phoneme |
| Visemes.TranscribeVisemesAppend | transcribe_visemes.py:75-88 | the units follow line order: the units of two runs of lines are concatenated, and the first error wins |
| Visemes.TranscribeOneLine | transcribe_visemes.py:75-88 | one line gives exactly what its parse gives |
| Beats.BeatRecord | beat_detection.py:30-34 | a record has type BEAT, data equal to the value and offset `key*1000` truncated toward zero |
| Beats.AnalyzeBeat | beat_detection.py:28-36 | one BEAT record per pair at the same index, with that pair's value and truncated offset |
| Beats.AnalyzeBeatAppend | beat_detection.py:29-34 | records follow input order: the records of two runs are concatenated |
| Transcription.SegmentEntries | timestamped_transcription.py:28-33 | one entry per word of a segment, in word order |
| Transcription.TranscribeFile | timestamped_transcription.py:26-35 | the entry count is the total word count, and no entry has a caption |
| Transcription.TranscribeFileAppend | timestamped_transcription.py:27-33 | the entries follow segment order: the entries of two runs of segments are concatenated |
| Transcription.TranscribeFilePosition | timestamped_transcription.py:27-33 | word j of segment i lands at the words of earlier segments plus j |
| StructPack.ToLittleEndian | main.py:45-46 | little-endian packing gives exactly `width` bytes |
| StructPack.FromLittleEndian | main.py:45-46 | `width` little-endian bytes hold a value below 256^width |
| StructPack.FromToLittleEndian | main.py:45-46 | unpacking a packed value in range gives it back |
| StructPack.ToFromLittleEndian | main.py:45-46 | packing the value of some bytes gives those bytes back |
| StructPack.UnpackInt64 | main.py:45-46 | an 8-byte field holds a signed 64-bit value |
| StructPack.PackInt64 | main.py:45-46 | `pack('q', n)` succeeds exactly for signed 64-bit `n`, giving 8 bytes that unpack to `n` |
| StructPack.PackUnpackInt64 | main.py:45-46 | every 8-byte field is the packing of its value |
| StructPack.FixedBytes | main.py:42-43 | an `'8s'` field is the argument truncated or zero-padded to 8 bytes |
| Envelope.Flags | main.py:35-39 | bit 0 is set exactly for a non-empty payload, bit 1 exactly for non-empty JSON, and no other bit is set |
| Envelope.Encode | main.py:34-52 | the result is 17 + JSON length + payload length bytes. The flag byte is as above, bytes 1..8 and 9..16 unpack to the two lengths, and the JSON and payload follow verbatim. It fails exactly when a length exceeds the signed 64-bit range |
| Envelope.Assemble | main.py:42-50 | header, JSON and payload each sit at their fixed place: flag byte at 0, lengths at 1..8 and 9..16, JSON from 17, payload after it |
| Envelope.AssembleParts | app.py:37-45 | every byte string of at least 17 bytes is the assembly of its own flag byte, length fields and two sections |
| Envelope.Decode | main.py:42-50 | the reader of the layout written at these lines; the repository has no decoder of its own. A decoded envelope is exactly as long as its header plus its two sections |
| Envelope.DecodeEncode | app.py:37-47 | decoding an encoded envelope recovers the JSON bytes and payload bytes exactly |
| Envelope.EncodeDecode | app.py:37-47 | every byte string the decoder accepts is the encoding of what it decodes to |
| App.EncodeJsonAndFile | app.py:16-47 | the output is 17 + JSON length + file length bytes, the file bytes verbatim at offset 17 + JSON length, flags as above. Falsy JSON gives a zero JSON length and bit 1 clear |
| App.EncodeJsonAndFileRoundTrip | app.py:37-47 | decoding the output recovers the serialized JSON (empty when falsy) and the raw file bytes |
| Analyze.Collect | main.py:87-121 | the collected list is the beats, then one event per transcript entry, then a PHONE and a VISEME per unit, each at its fixed position, and nothing else |
| Analyze.PhoneEvent | main.py:112-116 | a PHONE event carries the unit's phoneme at `int(start_time*1000)` |
| Analyze.VisemeEvent | main.py:117-121 | a VISEME event carries the name of the unit's viseme at the same offset as its PHONE |
| Analyze.KindName | main.py:100-120 | each kind has a non-empty `type` name |
| Analyze.KindNameInjective | main.py:100-120 | distinct kinds have distinct `type` names (beat_detection.py:33 gives BEAT) |
| Analyze.TranscriptEvent | main.py:96-109 | a caption entry becomes a CAPTION with the caption text, and any other entry a WORD with the stripped word. Both are at the truncated start |
| Analyze.TranscriptEvents | main.py:94-109 | one event per transcript entry, at the same index |
| Analyze.UnitsEvents | main.py:111-121 | two events per unit, the PHONE and then the VISEME, in unit order |
| Analyze.Timeline | main.py:87-125 | the timeline is sorted by offset. It has exactly \|beats\| + \|transcript\| + 2·\|units\| events and is a permutation of the collected events |
| Analyze.TimelineStable | main.py:91-125 | events with equal offsets keep collection order: beats, then transcript events, then phone/viseme events |
| Analyze.TimelineIsTheStableSort | main.py:125 | any sorted arrangement that keeps each offset's collection order is this timeline |
| Analyze.VisemeAfterKeepsOffset | main.py:111-121 | the VISEME a PHONE calls for has the PHONE's offset and is not itself a PHONE |
| Analyze.CollectPhonesFollowed | main.py:91-121 | before sorting, each PHONE is directly followed by the VISEME of the same unit |
| Analyze.TimelinePhonesFollowed | main.py:91-125 | after sorting, each PHONE is still directly followed by the VISEME of the same unit |
| Analyze.WordEntryEvent | main.py:102-109 | a transcriber word (timestamped_transcription.py:29-33) reaches the timeline as a WORD with the stripped word at `int(start*1000)`: the `str()` rendering of the start converts like the float itself |
| Analyze.TranscriberGivesOnlyWords | main.py:96 | the transcriber's entries only ever produce WORD events, so the CAPTION branch is unreachable with it |
| Analyze.EventJson | main.py:97-121 | each record has exactly three keys, `data` holding the event's text or beat label, `offset` its milliseconds and `type` its kind name. A BEAT has the key order offset, data, type (beat_detection.py:30-34); every other event has data, offset, type |
| Analyze.DataJsonInjective | main.py:98-118 | distinct `data` values give distinct JSON values: a beat label is a number, text is a string, and each keeps its value |
| Analyze.EventJsonInjective | main.py:97-121 | two events with the same dict are the same event, so serializing a record loses nothing |
| Analyze.TimelineJson | main.py:20 | the JSON list holds, item by item, the dict of each timeline event in timeline order, and is truthy exactly when non-empty |
| Analyze.TimelineJsonInjective | main.py:20 | the serialized list determines the timeline: equal lists come from equal timelines |
| Analyze.ReadAllFrames | main.py:24-30 | the payload is a prefix of the data chunk made of whole frames, less than one frame short of the chunk. A zero sample width or channel count is an error |
| Analyze.WholeFrames | main.py:29-30 | whole frames fit in the chunk with less than a frame to spare |
| Analyze.EncodeJsonAndFrames | main.py:15-52 | the output is 17 + JSON length + frame length bytes, the JSON and then the frames verbatim, flags as above. An empty timeline gives a zero JSON length and bit 1 clear |
| Analyze.ProcessAudio | main.py:62-136 | a recognizer parse error aborts first, then a bad WAV file. Otherwise a response is returned exactly when the timeline and frames fit the envelope, and it always carries the whole header and frames |
| Analyze.ProcessAudioResponse | main.py:87-130 | a response decodes to the serialized timeline and the upload's frames. The timeline is sorted and complete, and keeps each PHONE next to its VISEME |

## Left out

- Model calls: separating the vocals, `recognizer.recognize`, `model.transcribe`, `estimator.process`
  and `librosa.load` are foreign calls. Their outputs are arguments. Their own failures, for example
  the beat detector's load error, are not modelled.
- The recognizer's `splitlines()` is not modelled. The parser takes the lines as given.
- I/O: reading the uploaded file, temporary files, `wave.open` header parsing, `open().read()`,
  `StreamingResponse`, `log` and `print`. The parsed WAV file is an argument: its channel count,
  sample width, frame rate and data-chunk bytes. The raw file in `app.py` is a byte sequence.
- `wave` reading a data chunk shorter than its header says is not modelled, since the data chunk is
  taken as given.
- async/await has no effect on the results and is not modelled.
- Floating point: `t * 1000`, `start + duration` and `str(float)` are computed on exact reals. A time
  whose binary rounding changes the truncated milliseconds, such as 1.001 s, is not modelled.
- The text `json.dumps` produces is a parameter. Only its falsy or truthy input and the dicts' key
  order and contents are modelled.
- Byte order: `struct.pack('q')` uses the machine's byte order, which is fixed here as little-endian.
- Time.ConvertToMs: the comment at main.py:54 says "round", but the code's `int()` truncates
  toward zero, which differs from rounding for fractions of .5 or more. The model follows the code.
- Time.ConvertToMs: times are finite reals, so `nan` and `inf` are not modelled. Python's `float()`
  accepts `"nan"`, `"inf"` and `"1e999"`, and `int()` then raises `ValueError` or `OverflowError` at
  main.py:59. That error path of `process_audio` is not modelled either: a recognizer line such as
  `inf 0.05 a` aborts the request in Python before the WAV file is read.
- Analyze.ProcessAudio: for the reason above, it never fails on a non-finite recognizer, beat or
  transcriber time, where `process_audio` raises.
- Visemes.TranscribeVisemes: `float()` is a parameter, so which strings Python accepts as numbers is
  not modelled.
- Events.SortByOffset: Python's sort algorithm (Timsort) is replaced by an insertion sort.
  `Analyze.TimelineIsTheStableSort` shows that every stable sort gives the same list.
- The rest of the repository is not part of this model: `vocal_remover/api.py`,
  `audio_separator.py` and the other HTTP endpoints.
