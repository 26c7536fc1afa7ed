/**
 * The line protocol between the detection process and the monitor: five
 * markers, each followed by an integer, and how app.py extracts a marker's
 * value from one line of output.
 */
module OutputParser {
  import opened Wrappers
  import opened PyText

  const UniqueBeesMarker: string := "Unique bees:"
  const UniqueVarroaMarker: string := "Unique varroa:"
  const CurrentBeesMarker: string := "Current frame bees:"
  const CurrentVarroaMarker: string := "Current frame varroa:"
  const FrameCountMarker: string := "Frame count:"

  predicate IsMarker(m: string) {
    m == UniqueBeesMarker || m == UniqueVarroaMarker || m == CurrentBeesMarker ||
    m == CurrentVarroaMarker || m == FrameCountMarker
  }

  /** The value `marker` carries on `line`: `int(line.split(marker)[1].strip())`,
      or `None` when the marker is absent or the text after it is not an integer. */
  function FieldValue(line: string, marker: string): (r: Option<int>)
    requires marker != []
    ensures r.Some? ==> Contains(line, marker)
  {
    match SplitSecond(line, marker)
    case None => None
    case Some(piece) => IntOf(Strip(piece))
  }

  /** What one line says to the monitor: the value of each marker, where it parses. */
  datatype LineFields = LineFields(
    uniqueBees: Option<int>, uniqueVarroa: Option<int>,
    currentBees: Option<int>, currentVarroa: Option<int>,
    frameCount: Option<int>)

  const NoFields: LineFields := LineFields(None, None, None, None, None)

  /** The five markers looked for on the same line, each on its own. */
  function Fields(line: string): LineFields {
    LineFields(FieldValue(line, UniqueBeesMarker), FieldValue(line, UniqueVarroaMarker),
               FieldValue(line, CurrentBeesMarker), FieldValue(line, CurrentVarroaMarker),
               FieldValue(line, FrameCountMarker))
  }

  /** A line with no marker carries no value for any of them. */
  predicate Silent(line: string) {
    Fields(line) == NoFields
  }

  /** The line the detection process prints for a marker: `f"{marker} {n}"`. */
  function MarkerLine(marker: string, n: int): string {
    marker + " " + IntToString(n)
  }

  /** A marker whose first character cannot start a number or a blank. */
  predicate Wordlike(marker: string) {
    marker != [] && !IsDigit(marker[0]) && marker[0] != '-' && marker[0] != ' '
  }

  lemma MarkersAreWordlike(m: string)
    requires IsMarker(m)
    ensures Wordlike(m)
  {
  }

  /** Every marker holds a 'u', so a line without one is silent. */
  lemma {:induction false} NoUIsSilent(line: string)
    requires 'u' !in line
    ensures Silent(line)
  {
    assert UniqueBeesMarker[4] == 'u';
    assert UniqueVarroaMarker[4] == 'u';
    assert CurrentBeesMarker[1] == 'u';
    assert CurrentVarroaMarker[1] == 'u';
    assert FrameCountMarker[8] == 'u';
    MissingCharRulesOut(line, UniqueBeesMarker, 'u');
    MissingCharRulesOut(line, UniqueVarroaMarker, 'u');
    MissingCharRulesOut(line, CurrentBeesMarker, 'u');
    MissingCharRulesOut(line, CurrentVarroaMarker, 'u');
    MissingCharRulesOut(line, FrameCountMarker, 'u');
  }

  /** A marker one of whose characters is missing from the line yields nothing. */
  lemma {:induction false} AbsentMarker(line: string, marker: string, c: char)
    requires marker != [] && c in marker && c !in line
    ensures FieldValue(line, marker) == None
  {
    MissingCharRulesOut(line, marker, c);
  }

  /** The text after the marker on a marker line is a blank and the numeral. */
  lemma {:induction false} MarkerLineSplit(marker: string, n: int)
    requires Wordlike(marker)
    ensures SplitSecond(MarkerLine(marker, n), marker) == Some(" " + IntToString(n))
  {
    var line := MarkerLine(marker, n);
    var digits := IntToString(n);
    var rest := " " + digits;
    assert line == marker + rest;
    assert OccursAt(line, marker, 0);
    assert line[|marker|..] == rest;
    assert marker[0] !in rest by {
      forall k | 0 <= k < |rest| ensures rest[k] != marker[0] {
        if k > 0 {
          assert rest[k] == digits[k - 1];
        }
      }
    }
    MissingCharRulesOut(rest, marker, marker[0]);
  }

  lemma StripBlankNumeral(n: int)
    ensures Strip(" " + IntToString(n)) == IntToString(n)
  {
    var digits := IntToString(n);
    assert !IsSpace(digits[0]) && !IsSpace(digits[|digits| - 1]);
    assert IsSpace((" ")[0]);
    TrimLeftBlanks(" ", digits);
    assert TrimLeft(digits) == digits;
    TrimBothUnchanged(digits);
  }

  /** The value printed after a marker is the value parsed back. */
  lemma {:induction false} MarkerLineValue(marker: string, n: int)
    requires Wordlike(marker)
    ensures FieldValue(MarkerLine(marker, n), marker) == Some(n)
  {
    MarkerLineSplit(marker, n);
    StripBlankNumeral(n);
    StripKeepsNumeral(IntToString(n));
    IntRoundTrip(n);
  }
}
