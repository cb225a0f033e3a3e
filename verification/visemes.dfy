/** The phoneme recognizer's collector (transcribe_visemes.py): the fixed
    phoneme-to-viseme table and the loop that turns the recognizer's text
    lines into phoneme units. The recognizer itself is not modelled: its
    output arrives as a sequence of lines. */
module Visemes {
  import opened Results
  import opened Text

  /** The viseme names of the table, and the `'Unknown'` marker that
      `dict.get` falls back to for a symbol outside it. */
  datatype Viseme =
    | Ah | BMP | Ch | D | Eh | F | G | H | Ih | L | N | Oh | R | S | Sh | Th | Uh | W | Y
    | Unknown

  /** The string a viseme is written as in the timeline: a capitalised
      name of one to seven letters. */
  function Name(v: Viseme): (name: string)
    ensures 1 <= |name| <= 7 && 'A' <= name[0] <= 'Z'
    ensures forall i :: 1 <= i < |name| ==> 'a' <= name[i] <= 'z' || 'A' <= name[i] <= 'Z'
  {
    match v
    case Ah => "Ah"
    case BMP => "BMP"
    case Ch => "Ch"
    case D => "D"
    case Eh => "Eh"
    case F => "F"
    case G => "G"
    case H => "H"
    case Ih => "Ih"
    case L => "L"
    case N => "N"
    case Oh => "Oh"
    case R => "R"
    case S => "S"
    case Sh => "Sh"
    case Th => "Th"
    case Uh => "Uh"
    case W => "W"
    case Y => "Y"
    case Unknown => "Unknown"
  }

  /** `phoneme_to_viseme`, keyed by the recognizer's IPA symbols. */
  const PhonemeToViseme: map<string, Viseme> := map[
    "a" := Ah,
    "b" := BMP,
    "d" := D,
    "d\U{0361}\U{0292}" := Ch,
    "e" := Eh,
    "f" := F,
    "h" := H,
    "i" := Ih,
    "j" := Y,
    "k" := G,
    "l" := L,
    "m" := BMP,
    "n" := N,
    "o" := Oh,
    "p" := BMP,
    "s" := S,
    "t" := D,
    "t\U{0361}\U{0283}" := Ch,
    "u" := Oh,
    "v" := F,
    "w" := W,
    "z" := S,
    "\U{00E6}" := Ah,
    "\U{00F0}" := Th,
    "\U{014B}" := N,
    "\U{0251}" := Ah,
    "\U{0254}" := Oh,
    "\U{0259}" := Uh,
    "\U{025B}" := Eh,
    "\U{0261}" := G,
    "\U{026A}" := Ih,
    "\U{0279}" := R,
    "\U{0279}\U{0329}" := R,
    "\U{0283}" := Sh,
    "\U{028A}" := Uh,
    "\U{028C}" := Uh,
    "\U{0292}" := Sh,
    "\U{03B8}" := Th
  ]

  /** `phoneme_to_viseme.get(phoneme, 'Unknown')`: total and never raises.
      The result is the table's value for `phoneme`, and Unknown exactly
      when the table has no row for it. */
  function VisemeOf(phoneme: string): (v: Viseme)
    ensures v == Unknown || v in PhonemeToViseme.Values
    ensures v == Unknown <==> phoneme !in PhonemeToViseme
    ensures phoneme in PhonemeToViseme ==> v == PhonemeToViseme[phoneme]
  {
    UnknownIsNotInTable();
    if phoneme in PhonemeToViseme then PhonemeToViseme[phoneme] else Unknown
  }

  /** No row of the table maps to the fallback marker. */
  lemma UnknownIsNotInTable()
    ensures Unknown !in PhonemeToViseme.Values
  {
  }

  /** The fallback marker is written differently from every viseme name, so
      a consumer can tell an unmapped symbol from a mapped one. */
  lemma UnknownNameIsDistinct(v: Viseme)
    ensures v != Unknown ==> Name(v) != Name(Unknown)
  {
  }

  /** Distinct visemes are written differently, so the name in a VISEME
      event identifies the viseme. */
  lemma NameInjective(a: Viseme, b: Viseme)
    requires Name(a) == Name(b)
    ensures a == b
  {
    var x, y := Name(a), Name(b);
    assert |x| == |y| && x[0] == y[0];
    if |x| > 1 {
      assert x[1] == y[1];
    }
  }

  /** The three bilabials share one viseme. */
  lemma Bilabials()
    ensures VisemeOf("p") == BMP && VisemeOf("b") == BMP && VisemeOf("m") == BMP
  {
    assert PhonemeToViseme["p"] == BMP;
    assert PhonemeToViseme["b"] == BMP;
    assert PhonemeToViseme["m"] == BMP;
  }

  /** `t` and `d` share one viseme. */
  lemma Alveolars()
    ensures VisemeOf("t") == D && VisemeOf("d") == D
  {
    assert PhonemeToViseme["t"] == D;
    assert PhonemeToViseme["d"] == D;
  }

  /** The IPA script g (U+0261) has a row; the Latin letter g has none. */
  lemma ScriptG()
    ensures VisemeOf("\U{0261}") == G && VisemeOf("g") == Unknown
  {
    assert PhonemeToViseme["\U{0261}"] == G;
  }

  /** Both tie-barred affricates map to Ch. */
  lemma Affricates()
    ensures VisemeOf("d\U{0361}\U{0292}") == Ch && VisemeOf("t\U{0361}\U{0283}") == Ch
  {
    assert PhonemeToViseme["d\U{0361}\U{0292}"] == Ch;
    assert PhonemeToViseme["t\U{0361}\U{0283}"] == Ch;
  }

  /** One entry of `phoneme_data`. */
  datatype PhonemeUnit = PhonemeUnit(phoneme: string, viseme: Viseme, startTime: real, endTime: real)

  /** `float()` refused a token: Python raises ValueError and the whole call fails. */
  datatype ParseError = InvalidNumber(token: string)

  /** True when `line.split()` has exactly three fields. */
  predicate IsUnitLine(line: string) {
    |Split(line)| == 3
  }

  /** The body of the loop over recognizer lines for one `line`: a line of
      three fields "start duration phoneme" gives one unit, any other line
      gives nothing. `parse` is Python's `float()` on a field; None stands
      for the ValueError it raises. */
  function ParseLine(line: string, parse: string -> Option<real>): (r: Result<Option<PhonemeUnit>, ParseError>)
    ensures !IsUnitLine(line) ==> r == Success(None)
    ensures r.Failure? <==> IsUnitLine(line) && (parse(Split(line)[0]).None? || parse(Split(line)[1]).None?)
    ensures r.Success? && r.value.Some? ==>
      var parts, u := Split(line), r.value.value;
      && IsUnitLine(line)
      && u.phoneme == parts[2]
      && u.viseme == VisemeOf(parts[2])
      && parse(parts[0]) == Some(u.startTime)
      && u.endTime == u.startTime + parse(parts[1]).value
    ensures IsUnitLine(line) && r.Success? ==> r.value.Some?
  {
    var parts := Split(line);
    if |parts| != 3 then Success(None)
    else
      match parse(parts[0])
      case None => Failure(InvalidNumber(parts[0]))
      case Some(start) =>
        match parse(parts[1])
        case None => Failure(InvalidNumber(parts[1]))
        case Some(duration) =>
          Success(Some(PhonemeUnit(parts[2], VisemeOf(parts[2]), start, start + duration)))
  }

  /** The number of lines that split into three fields. */
  function UnitLineCount(lines: seq<string>): (n: nat)
    ensures n <= |lines|
  {
    if |lines| == 0 then 0 else (if IsUnitLine(lines[0]) then 1 else 0) + UnitLineCount(lines[1..])
  }

  /** `transcribe_visemes` after recognition: the units of the three-field
      lines in line order, or the first ValueError. */
  function TranscribeVisemes(lines: seq<string>, parse: string -> Option<real>): (r: Result<seq<PhonemeUnit>, ParseError>)
    ensures r.Failure? <==> exists i :: 0 <= i < |lines| && ParseLine(lines[i], parse).Failure?
    ensures r.Success? ==> |r.value| == UnitLineCount(lines)
    ensures r.Success? ==> forall k :: 0 <= k < |r.value| ==>
      r.value[k].viseme == VisemeOf(r.value[k].phoneme) && |r.value[k].phoneme| > 0
  {
    if |lines| == 0 then Success([])
    else
      match ParseLine(lines[0], parse)
      case Failure(e) => Failure(e)
      case Success(first) =>
        var rest := TranscribeVisemes(lines[1..], parse);
        FailingLineShift(lines, parse);
        if rest.Failure? then rest
        else
          match first
          case None => rest
          case Some(u) => Success([u] + rest.value)
  }

  /** Some line of `lines` fails exactly when its first line or a line of
      its tail does. */
  lemma FailingLineShift(lines: seq<string>, parse: string -> Option<real>)
    requires |lines| > 0
    ensures (exists i :: 0 <= i < |lines| && ParseLine(lines[i], parse).Failure?)
        <==> ParseLine(lines[0], parse).Failure?
             || exists i :: 0 <= i < |lines[1..]| && ParseLine(lines[1..][i], parse).Failure?
  {
    if i :| 0 <= i < |lines[1..]| && ParseLine(lines[1..][i], parse).Failure? {
      assert lines[1..][i] == lines[i + 1];
    }
    if i :| 0 <= i < |lines| && ParseLine(lines[i], parse).Failure? {
      if i > 0 {
        assert lines[1..][i - 1] == lines[i];
      }
    }
  }

  /** Python's sequencing of two runs of the loop: the first error wins,
      otherwise the units are concatenated. */
  function Then(first: Result<seq<PhonemeUnit>, ParseError>, second: Result<seq<PhonemeUnit>, ParseError>): Result<seq<PhonemeUnit>, ParseError> {
    if first.Failure? then first
    else if second.Failure? then second
    else Success(first.value + second.value)
  }

  /** The collector is an order-preserving filter-map: the units of two runs
      of lines are the units of the first run followed by those of the
      second, and the first error wins. */
  lemma {:induction false} TranscribeVisemesAppend(a: seq<string>, b: seq<string>, parse: string -> Option<real>)
    ensures TranscribeVisemes(a + b, parse) == Then(TranscribeVisemes(a, parse), TranscribeVisemes(b, parse))
    decreases |a|
  {
    if |a| == 0 {
      assert a + b == b;
      var rb := TranscribeVisemes(b, parse);
      if rb.Success? {
        assert [] + rb.value == rb.value;
      }
    } else {
      assert (a + b)[0] == a[0];
      assert (a + b)[1..] == a[1..] + b;
      TranscribeVisemesAppend(a[1..], b, parse);
      var ra := TranscribeVisemes(a[1..], parse);
      var rb := TranscribeVisemes(b, parse);
      if ParseLine(a[0], parse).Success? && ra.Success? && rb.Success? && ParseLine(a[0], parse).value.Some? {
        var u := ParseLine(a[0], parse).value.value;
        assert [u] + (ra.value + rb.value) == ([u] + ra.value) + rb.value;
      }
    }
  }

  /** A single line yields exactly what ParseLine gives for it. */
  lemma TranscribeOneLine(line: string, parse: string -> Option<real>)
    ensures TranscribeVisemes([line], parse) ==
      match ParseLine(line, parse)
      case Failure(e) => Failure(e)
      case Success(None) => Success([])
      case Success(Some(u)) => Success([u])
  {
    assert [line][1..] == [];
    assert TranscribeVisemes([], parse) == Success([]);
    if ParseLine(line, parse).Success? && ParseLine(line, parse).value.Some? {
      var u := ParseLine(line, parse).value.value;
      assert [u] + [] == [u];
    }
  }
}
