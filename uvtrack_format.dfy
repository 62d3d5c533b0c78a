/**
 * The 3DEqualizer UV-track exporter's pure parts: the rolling-shutter
 * content distance kept in the project notes, the validity test for a 2D
 * position, the rolling-shutter time blend and the choice of file format
 * version. Calls into 3DEqualizer become parameters or are left out.
 */
module UvTrackFormat {
  import opened Wrappers
  import opened StringUtils

  const UvTrackFormatVersionUnknown: int := -1
  const UvTrackFormatVersion1: int := 1
  const UvTrackFormatVersion2: int := 2
  const UvTrackFormatVersion3: int := 3
  const UvTrackFormatVersion4: int := 4
  const UvTrackFormatVersionPreferred: int := UvTrackFormatVersion4

  const RsDistanceDefaultFallback: real := 100.0
  const RsDistanceKey: string := "rscontentdistance="

  /** Python's `float(text)`: the number, or None where it raises ValueError. */
  type ParseFloat = string -> Option<real>

  /** The characters removed from a notes line before it is searched: space, tab, CR, VT and FF. */
  const WhitespaceChars: seq<char> := [' ', '\t', '\r', '\U{000B}', '\U{000C}']

  /** Removes each character of `chars` in turn. */
  function RemoveChars(s: string, chars: seq<char>): (r: string)
    ensures forall c :: c in chars ==> c !in r
    ensures forall x :: x !in chars ==> (x in r <==> x in s)
    decreases |chars|
  {
    if |chars| == 0 then s else RemoveChars(RemoveChar(s, chars[0]), chars[1..])
  }

  /** The characters of `s` that are not in `cs`, in order. */
  function Keep(s: string, cs: seq<char>): string
  {
    if |s| == 0 then [] else (if s[0] in cs then [] else [s[0]]) + Keep(s[1..], cs)
  }

  /** Keeping leaves none of the dropped characters and every other character. */
  lemma {:induction false} KeepChars(s: string, cs: seq<char>)
    ensures forall c :: c in cs ==> c !in Keep(s, cs)
    ensures forall x :: x !in cs ==> (x in Keep(s, cs) <==> x in s)
  {
    if |s| > 0 {
      KeepChars(s[1..], cs);
      assert forall x :: x in s <==> x == s[0] || x in s[1..];
    }
  }

  /** Removing one character is keeping the others. */
  lemma {:induction false} RemoveCharIsKeep(s: string, c: char)
    ensures RemoveChar(s, c) == Keep(s, [c])
  {
    if |s| > 0 {
      RemoveCharIsKeep(s[1..], c);
    }
  }

  /** Dropping `a` and then `b` is dropping both at once. */
  lemma {:induction false} KeepKeep(s: string, a: seq<char>, b: seq<char>)
    ensures Keep(Keep(s, a), b) == Keep(s, a + b)
  {
    if |s| > 0 {
      KeepKeep(s[1..], a, b);
      var front := if s[0] in a then [] else [s[0]];
      KeepAppend(front, Keep(s[1..], a), b);
      assert s[0] in a + b <==> s[0] in a || s[0] in b;
    }
  }

  /** Keeping distributes over concatenation. */
  lemma {:induction false} KeepAppend(s: string, t: string, cs: seq<char>)
    ensures Keep(s + t, cs) == Keep(s, cs) + Keep(t, cs)
  {
    if |s| > 0 {
      KeepAppend(s[1..], t, cs);
      assert (s + t)[1..] == s[1..] + t;
    } else {
      assert s + t == t;
    }
  }

  /** Removing the characters one after another is keeping the others. */
  lemma {:induction false} RemoveCharsIsKeep(s: string, chars: seq<char>)
    ensures RemoveChars(s, chars) == Keep(s, chars)
    decreases |chars|
  {
    if |chars| == 0 {
      KeepNothing(s);
    } else {
      RemoveCharsIsKeep(RemoveChar(s, chars[0]), chars[1..]);
      RemoveCharIsKeep(s, chars[0]);
      KeepKeep(s, [chars[0]], chars[1..]);
      assert [chars[0]] + chars[1..] == chars;
    }
  }

  /** Dropping no character keeps the string. */
  lemma {:induction false} KeepNothing(s: string)
    ensures Keep(s, []) == s
  {
    if |s| > 0 {
      KeepNothing(s[1..]);
    }
  }

  /** A notes line as it is searched: lower-cased, with the whitespace characters removed. */
  function Filtered(line: string): string
  {
    Keep(ToLower(line), WhitespaceChars)
  }

  /** A filtered line has no whitespace character and no upper-case letter, and keeps every other character. */
  lemma FilteredChars(line: string)
    ensures forall c :: c in WhitespaceChars ==> c !in Filtered(line)
    ensures forall c :: 'A' <= c <= 'Z' ==> c !in Filtered(line)
    ensures forall x :: x !in WhitespaceChars ==> (x in Filtered(line) <==> x in ToLower(line))
  {
    var lower := ToLower(line);
    KeepChars(lower, WhitespaceChars);
    ToLowerAt(line);
    assert forall i :: 0 <= i < |lower| ==> !('A' <= lower[i] <= 'Z');
  }

  /** `_filter_project_notes_line`: lower-cases the line, then removes one whitespace character after another. */
  method FilterProjectNotesLine(line: string) returns (lineToParse: string)
    ensures lineToParse == Filtered(line)
  {
    lineToParse := ToLower(line);
    RemoveCharsIsKeep(lineToParse, WhitespaceChars);
    for i := 0 to |WhitespaceChars|
      invariant RemoveChars(lineToParse, WhitespaceChars[i..]) == Filtered(line)
    {
      assert WhitespaceChars[i..][1..] == WhitespaceChars[i + 1..];
      lineToParse := RemoveChar(lineToParse, WhitespaceChars[i]);
    }
  }

  /** `_parse_rs_distance_line`: the number after the first key, or None if the key is absent or the number is bad. */
  function ParseRsDistanceLine(line: string, parseFloat: ParseFloat): (r: Option<real>)
    ensures !Contains(line, RsDistanceKey) ==> r == None
    ensures r.Some? ==> Contains(line, RsDistanceKey)
  {
    var (_, sep, end) := Partition(line, RsDistanceKey);
    if |sep| > 0 then parseFloat(end) else None
  }

  /** A line that starts with the key parses to the number that follows it. */
  lemma ParseRsDistanceLineOfKey(text: string, parseFloat: ParseFloat)
    ensures ParseRsDistanceLine(RsDistanceKey + text, parseFloat) == parseFloat(text)
  {
    var line := RsDistanceKey + text;
    assert OccursAt(line, RsDistanceKey, 0);
    assert line[|RsDistanceKey|..] == text;
  }

  /** Whether a notes line holds the key once filtered. */
  predicate Matches(line: string)
  {
    Contains(Filtered(line), RsDistanceKey)
  }

  /** Whether some notes line matches. */
  predicate AnyMatch(lines: seq<string>)
  {
    exists i :: 0 <= i < |lines| && Matches(lines[i])
  }

  /**
   * The distance the notes lines give: the last matching line decides,
   * even when its number is bad; None when no line matches.
   */
  function LastRsDistance(lines: seq<string>, parseFloat: ParseFloat): Option<real>
  {
    if |lines| == 0 then None
    else if Matches(lines[|lines| - 1]) then ParseRsDistanceLine(Filtered(lines[|lines| - 1]), parseFloat)
    else LastRsDistance(lines[..|lines| - 1], parseFloat)
  }

  /** Notes without a matching line give no distance. */
  lemma {:induction false} LastRsDistanceWithoutMatch(lines: seq<string>, parseFloat: ParseFloat)
    requires forall i :: 0 <= i < |lines| ==> !Matches(lines[i])
    ensures LastRsDistance(lines, parseFloat) == None
  {
    if |lines| > 0 {
      var front := lines[..|lines| - 1];
      assert forall i :: 0 <= i < |front| ==> front[i] == lines[i];
      LastRsDistanceWithoutMatch(front, parseFloat);
    }
  }

  /** The matching line with no matching line after it decides the distance. */
  lemma {:induction false} LastRsDistanceOfLastMatch(lines: seq<string>, i: nat, parseFloat: ParseFloat)
    requires i < |lines| && Matches(lines[i])
    requires forall j :: i < j < |lines| ==> !Matches(lines[j])
    ensures LastRsDistance(lines, parseFloat) == ParseRsDistanceLine(Filtered(lines[i]), parseFloat)
  {
    if i < |lines| - 1 {
      var front := lines[..|lines| - 1];
      assert forall j :: 0 <= j < |front| ==> front[j] == lines[j];
      LastRsDistanceOfLastMatch(front, i, parseFloat);
    }
  }

  /** `_parse_rs_distance_from_project_notes`: every matching line overwrites the distance found so far. */
  method ParseRsDistanceFromProjectNotes(notes: string, parseFloat: ParseFloat) returns (rsDistance: Option<real>)
    ensures rsDistance == LastRsDistance(Split(notes, '\n'), parseFloat)
  {
    rsDistance := None;
    var lines := Split(notes, '\n');
    for i := 0 to |lines|
      invariant rsDistance == LastRsDistance(lines[..i], parseFloat)
    {
      assert lines[..i + 1][..i] == lines[..i];
      var lineToParse := FilterProjectNotesLine(lines[i]);
      if Contains(lineToParse, RsDistanceKey) {
        rsDistance := ParseRsDistanceLine(lineToParse, parseFloat);
      }
    }
    assert lines[..|lines|] == lines;
  }

  /** Lines after a matching one decide alone: what comes before them does not count. */
  lemma {:induction false} LastRsDistanceOfSuffix(front: seq<string>, back: seq<string>, parseFloat: ParseFloat)
    requires exists i :: 0 <= i < |back| && Matches(back[i])
    ensures LastRsDistance(front + back, parseFloat) == LastRsDistance(back, parseFloat)
    decreases |back|
  {
    var i :| 0 <= i < |back| && Matches(back[i]);
    var last := back[|back| - 1];
    AppendDropLast(front, back);
    LastRsDistanceAt(front + back, last, parseFloat);
    LastRsDistanceAt(back, last, parseFloat);
    if !Matches(last) {
      var backFront := back[..|back| - 1];
      assert i < |back| - 1 && backFront[i] == back[i];
      LastRsDistanceOfSuffix(front, backFront, parseFloat);
    }
  }

  /** Dropping the last element of `a + b` drops the last element of `b`. */
  lemma AppendDropLast<T>(a: seq<T>, b: seq<T>)
    requires |b| > 0
    ensures (a + b)[|a + b| - 1] == b[|b| - 1]
    ensures (a + b)[..|a + b| - 1] == a + b[..|b| - 1]
  {
  }

  /** The last line decides when it matches, and is passed over when not. */
  lemma LastRsDistanceAt(lines: seq<string>, last: string, parseFloat: ParseFloat)
    requires |lines| > 0 && lines[|lines| - 1] == last
    ensures Matches(last) ==> LastRsDistance(lines, parseFloat) == ParseRsDistanceLine(Filtered(last), parseFloat)
    ensures !Matches(last) ==> LastRsDistance(lines, parseFloat) == LastRsDistance(lines[..|lines| - 1], parseFloat)
  {
  }

  /** When every matching line is the same labelLine and one line matches, the label decides. */
  lemma {:induction false} LastRsDistanceOfLabels(lines: seq<string>, labelLine: string, parseFloat: ParseFloat)
    requires exists i :: 0 <= i < |lines| && Matches(lines[i])
    requires forall i :: 0 <= i < |lines| && Matches(lines[i]) ==> lines[i] == labelLine
    ensures LastRsDistance(lines, parseFloat) == ParseRsDistanceLine(Filtered(labelLine), parseFloat)
    decreases |lines|
  {
    var last := lines[|lines| - 1];
    if !Matches(last) {
      var front := lines[..|lines| - 1];
      var i :| 0 <= i < |lines| && Matches(lines[i]);
      assert i < |lines| - 1 && front[i] == lines[i];
      assert forall k :: 0 <= k < |front| ==> front[k] == lines[k];
      LastRsDistanceOfLabels(front, labelLine, parseFloat);
    }
  }

  /**
   * The distance `get_rs_distance` reports: the camera's own value where
   * 3DEqualizer supports it; otherwise the project notes' value where the
   * notes are supported and give one; otherwise the 100.0 fallback.
   */
  method GetRsDistance(supportRsDistance: bool, cameraRsDistance: real, supportProjectNotes: bool,
                       notes: string, parseFloat: ParseFloat) returns (rsDistance: real)
    ensures supportRsDistance ==> rsDistance == cameraRsDistance
    ensures !supportRsDistance && supportProjectNotes && LastRsDistance(Split(notes, '\n'), parseFloat).Some? ==>
              rsDistance == LastRsDistance(Split(notes, '\n'), parseFloat).value
    ensures !supportRsDistance && (!supportProjectNotes || LastRsDistance(Split(notes, '\n'), parseFloat).None?) ==>
              rsDistance == RsDistanceDefaultFallback
  {
    if supportRsDistance {
      return cameraRsDistance;
    }
    var fromNotes: Option<real> := None;
    if supportProjectNotes {
      fromNotes := ParseRsDistanceFromProjectNotes(notes, parseFloat);
    }
    rsDistance := if fromNotes.Some? then fromNotes.value else RsDistanceDefaultFallback;
  }

  /** The notes lines with every matching line replaced by `labelLine`. */
  function Replaced(lines: seq<string>, labelLine: string): (r: seq<string>)
    ensures |r| == |lines|
    ensures forall i :: 0 <= i < |lines| ==> r[i] == (if Matches(lines[i]) then labelLine else lines[i])
  {
    if |lines| == 0 then [] else [if Matches(lines[0]) then labelLine else lines[0]] + Replaced(lines[1..], labelLine)
  }

  /** One pass of the replacement loop: a matching line becomes the label line. */
  method ReplaceLine(line: string, labelLine: string) returns (r: string, matched: bool)
    ensures matched == Matches(line)
    ensures r == if matched then labelLine else line
  {
    var lineToParse := FilterProjectNotesLine(line);
    matched := Contains(lineToParse, RsDistanceKey);
    r := if matched then labelLine else line;
  }

  /** The replacement loop of `set_rs_distance_into_project_notes`; `found` tells whether any line matched. */
  method ReplaceMatchingLines(lines: seq<string>, labelLine: string) returns (newLines: seq<string>, found: bool)
    ensures newLines == Replaced(lines, labelLine)
    ensures found <==> AnyMatch(lines)
  {
    newLines := [];
    found := false;
    ghost var w := 0;
    for i := 0 to |lines|
      invariant |newLines| == i
      invariant forall k :: 0 <= k < i ==> newLines[k] == (if Matches(lines[k]) then labelLine else lines[k])
      invariant found ==> w < i && Matches(lines[w])
      invariant !found ==> forall k :: 0 <= k < i ==> !Matches(lines[k])
    {
      var line, matched := ReplaceLine(lines[i], labelLine);
      if matched {
        found, w := true, i;
      }
      newLines := newLines + [line];
    }
  }

  /**
   * The new project notes of `set_rs_distance_into_project_notes` as
   * written: the label goes on top when the notes give no distance, and
   * replaces the matching lines otherwise. A notes text whose matching
   * lines all have a bad number gives no distance, so the label goes on
   * top and the bad line below it still decides.
   */
  function NotesWithLabelAsWritten(notes: string, labelLine: string, parseFloat: ParseFloat): string
  {
    if LastRsDistance(Split(notes, '\n'), parseFloat).None? then labelLine + "\n" + notes
    else Join(Replaced(Split(notes, '\n'), labelLine), '\n')
  }

  /** `set_rs_distance_into_project_notes` as written, on the notes text; `labelLine` is the formatted label line. */
  method SetRsDistanceIntoNotesAsWritten(notes: string, labelLine: string, parseFloat: ParseFloat) returns (newNotes: string)
    ensures newNotes == NotesWithLabelAsWritten(notes, labelLine, parseFloat)
  {
    var existingValue := ParseRsDistanceFromProjectNotes(notes, parseFloat);
    if existingValue.None? {
      newNotes := labelLine + "\n" + notes;
    } else {
      var newLines, _ := ReplaceMatchingLines(Split(notes, '\n'), labelLine);
      newNotes := Join(newLines, '\n');
    }
  }

  /**
   * As written, setting a distance into notes whose only matching lines
   * have a bad number has no effect: reading the notes back still gives
   * None, so the fallback is used instead of the value set.
   */
  lemma SetAsWrittenIsLost(notes: string, labelLine: string, parseFloat: ParseFloat)
    requires '\n' !in labelLine
    requires AnyMatch(Split(notes, '\n'))
    requires LastRsDistance(Split(notes, '\n'), parseFloat).None?
    ensures LastRsDistance(Split(NotesWithLabelAsWritten(notes, labelLine, parseFloat), '\n'), parseFloat).None?
  {
    SplitCons(labelLine, notes, '\n');
    LastRsDistanceOfSuffix([labelLine], Split(notes, '\n'), parseFloat);
  }

  /** The new notes as intended: the label replaces the matching lines when there are any, and goes on top otherwise. */
  function NotesWithLabel(notes: string, labelLine: string): string
  {
    if !AnyMatch(Split(notes, '\n')) then labelLine + "\n" + notes
    else Join(Replaced(Split(notes, '\n'), labelLine), '\n')
  }

  /** `set_rs_distance_into_project_notes`, deciding on a matching line rather than on a parsed value. */
  method SetRsDistanceIntoNotes(notes: string, labelLine: string) returns (newNotes: string)
    ensures newNotes == NotesWithLabel(notes, labelLine)
  {
    var lines := Split(notes, '\n');
    var newLines, found := ReplaceMatchingLines(lines, labelLine);
    if !found {
      newNotes := labelLine + "\n" + notes;
    } else {
      newNotes := Join(newLines, '\n');
    }
  }

  /**
   * Setting then getting: once a label line whose filtered form parses to `x`
   * is set into any notes, the notes give `x`.
   */
  lemma SetThenGet(notes: string, labelLine: string, x: real, parseFloat: ParseFloat)
    requires '\n' !in labelLine
    requires Matches(labelLine)
    requires ParseRsDistanceLine(Filtered(labelLine), parseFloat) == Some(x)
    ensures LastRsDistance(Split(NotesWithLabel(notes, labelLine), '\n'), parseFloat) == Some(x)
  {
    if !AnyMatch(Split(notes, '\n')) {
      SetOnTop(notes, labelLine, parseFloat);
    } else {
      SetReplacing(notes, labelLine, parseFloat);
    }
  }

  /** Notes without a matching line: the label on top is the only match. */
  lemma SetOnTop(notes: string, labelLine: string, parseFloat: ParseFloat)
    requires '\n' !in labelLine
    requires Matches(labelLine)
    requires !AnyMatch(Split(notes, '\n'))
    ensures LastRsDistance(Split(labelLine + "\n" + notes, '\n'), parseFloat) == ParseRsDistanceLine(Filtered(labelLine), parseFloat)
  {
    var lines := Split(notes, '\n');
    SplitCons(labelLine, notes, '\n');
    var newLines := [labelLine] + lines;
    assert forall i :: 1 <= i < |newLines| ==> newLines[i] == lines[i - 1];
    LastRsDistanceOfLastMatch(newLines, 0, parseFloat);
  }

  /** Notes with a matching line: every matching line becomes the label. */
  lemma SetReplacing(notes: string, labelLine: string, parseFloat: ParseFloat)
    requires '\n' !in labelLine
    requires Matches(labelLine)
    requires AnyMatch(Split(notes, '\n'))
    ensures LastRsDistance(Split(Join(Replaced(Split(notes, '\n'), labelLine), '\n'), '\n'), parseFloat)
         == ParseRsDistanceLine(Filtered(labelLine), parseFloat)
  {
    var lines := Split(notes, '\n');
    var newLines := Replaced(lines, labelLine);
    ReplacedLines(lines, labelLine);
    SplitOfJoin(newLines, '\n');
    var i :| 0 <= i < |lines| && Matches(lines[i]);
    assert newLines[i] == labelLine;
    LastRsDistanceOfLabels(newLines, labelLine, parseFloat);
  }

  /**
   * The replaced lines have no line break when neither the lines nor the
   * label have one, and every matching line among them is the label.
   */
  lemma ReplacedLines(lines: seq<string>, labelLine: string)
    requires '\n' !in labelLine && forall k :: 0 <= k < |lines| ==> '\n' !in lines[k]
    ensures forall k :: 0 <= k < |lines| ==> '\n' !in Replaced(lines, labelLine)[k]
    ensures forall k :: 0 <= k < |lines| && Matches(Replaced(lines, labelLine)[k]) ==> Replaced(lines, labelLine)[k] == labelLine
  {
    var r := Replaced(lines, labelLine);
    forall k | 0 <= k < |lines|
      ensures '\n' !in r[k]
      ensures Matches(r[k]) ==> r[k] == labelLine
    {
      if !Matches(lines[k]) {
        assert r[k] == lines[k];
      }
    }
  }

  /** A 2D position. */
  datatype Pos2 = Pos2(x: real, y: real)

  /** A camera field of view as `left, right, bottom, top`. */
  datatype Fov = Fov(left: real, right: real, bottom: real, top: real)

  const PointValidAlways: string := "POINT_VALID_ALWAYS"
  const PointValidInsideFrame: string := "POINT_VALID_INSIDE_FRAME"
  const PointValidInsideFov: string := "POINT_VALID_INSIDE_FOV"

  /** `_is_valid_position`. */
  function IsValidPosition(pos: Pos2, cameraFov: Fov, validMode: string): bool
  {
    if validMode == PointValidAlways then true
    else if validMode == PointValidInsideFrame then
      !(pos.x < 0.0 || pos.x > 1.0 || pos.y < 0.0 || pos.y > 1.0)
    else if validMode == PointValidInsideFov then
      !(pos.x < cameraFov.left || pos.x > cameraFov.right || pos.y < cameraFov.bottom || pos.y > cameraFov.top)
    else true
  }

  /**
   * Every position is valid in the always mode and in any unknown mode;
   * inside-frame accepts exactly the unit square, inside-FOV exactly the
   * field-of-view box, edges included.
   */
  lemma IsValidPositionModes(pos: Pos2, cameraFov: Fov, validMode: string)
    ensures validMode != PointValidInsideFrame && validMode != PointValidInsideFov ==> IsValidPosition(pos, cameraFov, validMode)
    ensures validMode == PointValidInsideFrame ==>
              (IsValidPosition(pos, cameraFov, validMode) <==> 0.0 <= pos.x <= 1.0 && 0.0 <= pos.y <= 1.0)
    ensures validMode == PointValidInsideFov ==>
              (IsValidPosition(pos, cameraFov, validMode) <==>
                 cameraFov.left <= pos.x <= cameraFov.right && cameraFov.bottom <= pos.y <= cameraFov.top)
  {
  }

  /** The full-frame field of view makes inside-FOV and inside-frame agree. */
  lemma FullFovIsFrame(pos: Pos2)
    ensures IsValidPosition(pos, Fov(0.0, 1.0, 0.0, 1.0), PointValidInsideFov)
        == IsValidPosition(pos, Fov(0.0, 1.0, 0.0, 1.0), PointValidInsideFrame)
  {
  }

  /** A 3D position, `vec3d`. */
  datatype Vec3 = Vec3(x: real, y: real, z: real)

  function Add(a: Vec3, b: Vec3): Vec3 { Vec3(a.x + b.x, a.y + b.y, a.z + b.z) }
  function Sub(a: Vec3, b: Vec3): Vec3 { Vec3(a.x - b.x, a.y - b.y, a.z - b.z) }
  function Scale(k: real, a: Vec3): Vec3 { Vec3(k * a.x, k * a.y, k * a.z) }

  /**
   * `_apply_rs_correction`: the quadratic through the three positions,
   * `a + dt*b + dt*dt*c` with `a = q_center`, `b = (q_plus - q_minus)/2`
   * and `c = -q_center + (q_plus + q_minus)/2`.
   */
  function ApplyRsCorrection(dt: real, qMinus: Vec3, qCenter: Vec3, qPlus: Vec3): Vec3
  {
    var a := qCenter;
    var b := Scale(0.5, Sub(qPlus, qMinus));
    var c := Add(Scale(-1.0, qCenter), Scale(0.5, Add(qPlus, qMinus)));
    Add(Add(a, Scale(dt, b)), Scale(dt * dt, c))
  }

  /** The blend passes through the three positions: at -1 the first, at 0 the middle, at 1 the last. */
  lemma ApplyRsCorrectionInterpolates(qMinus: Vec3, qCenter: Vec3, qPlus: Vec3)
    ensures ApplyRsCorrection(0.0, qMinus, qCenter, qPlus) == qCenter
    ensures ApplyRsCorrection(-1.0, qMinus, qCenter, qPlus) == qMinus
    ensures ApplyRsCorrection(1.0, qMinus, qCenter, qPlus) == qPlus
  {
  }

  /** Three equal positions blend to that position at any time. */
  lemma ApplyRsCorrectionOfStill(dt: real, q: Vec3)
    ensures ApplyRsCorrection(dt, q, q, q) == q
  {
  }

  /**
   * `generate`: no format means the preferred one; versions 1 to 4 give
   * the text of their generator (computed from 3DEqualizer's scene, so
   * given here); any other version gives the empty text.
   */
  function Generate(fmt: Option<int>, v1Text: string, v2Text: string, v3Text: string, v4Text: string): (data: string)
    ensures fmt.None? ==> data == v4Text
    ensures fmt == Some(UvTrackFormatVersion1) ==> data == v1Text
    ensures fmt == Some(UvTrackFormatVersion2) ==> data == v2Text
    ensures fmt == Some(UvTrackFormatVersion3) ==> data == v3Text
    ensures fmt == Some(UvTrackFormatVersion4) ==> data == v4Text
    ensures fmt.Some? && !(1 <= fmt.value <= 4) ==> data == []
  {
    var f := if fmt.None? then UvTrackFormatVersionPreferred else fmt.value;
    if f == UvTrackFormatVersion1 then v1Text
    else if f == UvTrackFormatVersion2 then v2Text
    else if f == UvTrackFormatVersion3 then v3Text
    else if f == UvTrackFormatVersion4 then v4Text
    else []
  }
}
