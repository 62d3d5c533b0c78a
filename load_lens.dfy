/**
 * The Nuke lens-file reader of the "Load Lens" tool: a 3DEqualizer
 * lens-distortion node written as a Nuke script is read line by line into
 * a lens object (node name, node type and three tables of parameters).
 *
 * The file is given as its lines; Python's `float()` is the parameter
 * `parseFloat` (None where `float()` raises ValueError).
 */
module LoadLens {
  import opened Wrappers
  import opened StringUtils

  type ParseFloat = string -> Option<real>

  const CameraPrefix := "tde4_"
  const FovPrefix := "field_of_view_"

  /** A knob value: a static number, or the keys of an animation curve. */
  datatype Param = Static(value: real) | Curve(times: seq<int>, values: seq<real>)

  datatype LensObject = LensObject(
    name: string,
    nodeType: string,
    cameraParameters: map<string, Param>,
    fovParameters: map<string, Param>,
    lensParameters: map<string, Param>)

  /** The exceptions the reader lets escape: a failed `int()`/`float()`, or the curve-length assert. */
  datatype ParseError = ValueError(text: string) | AssertionError

  /** The line without its comment and surrounding whitespace. */
  function CleanLine(line: string): string
  {
    Strip(Partition(line, "#").0)
  }

  predicate IsNodeHeader(line: string)
  {
    (StartsWith(line, "LD_3DE_") || StartsWith(line, "LD_3DE4_")) && EndsWith(line, " {")
  }

  /** The node type named by a header line: the text before its first brace. */
  function NodeTypeOf(line: string): string
  {
    Strip(Partition(line, "{").0)
  }

  /** `s[0::2]`. */
  function Evens<T>(s: seq<T>): (r: seq<T>)
    ensures |r| == (|s| + 1) / 2
    ensures forall k :: 0 <= k < |r| ==> r[k] == s[2 * k]
  {
    if |s| <= 1 then s else [s[0]] + Evens(s[2..])
  }

  /** `s[1::2]`. */
  function Odds<T>(s: seq<T>): (r: seq<T>)
    ensures |r| == |s| / 2
    ensures forall k :: 0 <= k < |r| ==> r[k] == s[2 * k + 1]
  {
    if |s| == 0 then [] else Evens(s[1..])
  }

  /** `s.lstrip(c)`: the leading copies of `c` are dropped, and nothing else. */
  function StripCharLeft(s: string, c: char): (r: string)
    ensures |r| <= |s| && r == s[|s| - |r|..]
    ensures |r| > 0 ==> r[0] != c
    ensures forall i :: 0 <= i < |s| - |r| ==> s[i] == c
  {
    if |s| > 0 && s[0] == c then
      var r := StripCharLeft(s[1..], c);
      assert s[1..][|s| - 1 - |r|..] == s[|s| - |r|..];
      assert forall i :: 1 <= i < |s| - |r| ==> s[i] == s[1..][i - 1];
      r
    else s
  }

  /** `s.rstrip(c)`: the trailing copies of `c` are dropped, and nothing else. */
  function StripCharRight(s: string, c: char): (r: string)
    ensures |r| <= |s| && r == s[..|r|]
    ensures |r| > 0 ==> r[|r| - 1] != c
    ensures forall i :: |r| <= i < |s| ==> s[i] == c
  {
    if |s| > 0 && s[|s| - 1] == c then StripCharRight(s[..|s| - 1], c) else s
  }

  /** Python's `s.strip(c)`: the copies of `c` at both ends are dropped, and nothing else. */
  function StripChar(s: string, c: char): (r: string)
    ensures |r| > 0 ==> r[0] != c && r[|r| - 1] != c
    ensures var i := |s| - |StripCharLeft(s, c)|;
      && i + |r| <= |s| && (forall k :: 0 <= k < |r| ==> r[k] == s[i + k])
      && (forall k :: 0 <= k < i ==> s[k] == c) && (forall k :: i + |r| <= k < |s| ==> s[k] == c)
  {
    StripCharEnds(s, c);
    StripCharRight(StripCharLeft(s, c), c)
  }

  /** The two strips drop a prefix and a suffix of `s` of nothing but the stripped characters. */
  lemma StripCharEnds(s: string, c: char)
    ensures var l := StripCharLeft(s, c); var i := |s| - |l|; var r := StripCharRight(l, c);
      && i + |r| <= |s| && (forall k :: 0 <= k < |r| ==> r[k] == s[i + k])
      && (forall k :: 0 <= k < i ==> s[k] == c) && (forall k :: i + |r| <= k < |s| ==> s[k] == c)
  {
    var l := StripCharLeft(s, c);
    StripCharEndsSuffix(s, c, l, |s| - |l|);
  }

  /** The characters of `s` after the second strip's result are all stripped ones. */
  lemma StripCharEndsSuffix(s: string, c: char, l: string, i: nat)
    requires i <= |s| && l == s[i..]
    ensures var r := StripCharRight(l, c); forall k :: i + |r| <= k < |s| ==> s[k] == c
  {
    var r := StripCharRight(l, c);
    forall k | i + |r| <= k < |s|
      ensures s[k] == c
    {
      assert s[k] == l[k - i];
    }
  }

  /** The frame of a curve key: `int(t.strip('x'))`. */
  function ParseTime(t: string): Option<int>
  {
    ParseInt(StripChar(t, 'x'))
  }

  /**
   * A list comprehension that parses every token: the parsed values in
   * order, or the error for the first token that does not parse.
   */
  function ParseAll<T>(ts: seq<string>, parse: string -> Option<T>): (r: Result<seq<T>, ParseError>)
    ensures r.Ok? <==> forall k :: 0 <= k < |ts| ==> parse(ts[k]).Some?
    ensures r.Ok? ==> |r.value| == |ts| && forall k :: 0 <= k < |ts| ==> Some(r.value[k]) == parse(ts[k])
    ensures r.Err? ==> exists k :: 0 <= k < |ts| && r.error == ValueError(ts[k]) && parse(ts[k]).None?
                                    && forall j :: 0 <= j < k ==> parse(ts[j]).Some?
  {
    if |ts| == 0 then Ok([])
    else
      match parse(ts[0])
      case None => Err(ValueError(ts[0]))
      case Some(v) =>
        var rest := ParseAll(ts[1..], parse);
        assert forall k :: 1 <= k < |ts| ==> ts[k] == ts[1..][k - 1];
        match rest
        case Err(e) =>
          var k :| 0 <= k < |ts[1..]| && e == ValueError(ts[1..][k]) && parse(ts[1..][k]).None?
                   && forall j :: 0 <= j < k ==> parse(ts[1..][j]).Some?;
          assert ts[k + 1] == ts[1..][k];
          Err(e)
        case Ok(tail) =>
          Ok([v] + tail)
  }

  /** `[int(t.strip('x')) for t in ts]`. */
  function ParseTimes(ts: seq<string>): (r: Result<seq<int>, ParseError>)
  {
    ParseAll(ts, ParseTime)
  }

  /** `[float(v) for v in vs]`. */
  function ParseValues(vs: seq<string>, parseFloat: ParseFloat): (r: Result<seq<real>, ParseError>)
  {
    ParseAll(vs, parseFloat)
  }

  /**
   * The keys of a curve from the tokens between `{{curve` and `}}`:
   * frames and values alternate, and an odd count trips the assert.
   */
  function ParseCurve(tokens: seq<string>, parseFloat: ParseFloat): (r: Result<Param, ParseError>)
    ensures r.Ok? <==>
      |tokens| % 2 == 0
      && (forall k :: 0 <= k < |tokens| / 2 ==> ParseTime(tokens[2 * k]).Some? && parseFloat(tokens[2 * k + 1]).Some?)
    ensures r.Ok? ==>
      r.value.Curve?
      && |r.value.times| == |r.value.values| == |tokens| / 2
      && (forall k :: 0 <= k < |tokens| / 2 ==>
            Some(r.value.times[k]) == ParseTime(tokens[2 * k])
            && Some(r.value.values[k]) == parseFloat(tokens[2 * k + 1]))
    ensures r == Err(AssertionError) ==> |tokens| % 2 == 1
  {
    var evens := Evens(tokens);
    var odds := Odds(tokens);
    match ParseTimes(evens)
    case Err(e) =>
      assert exists k :: 0 <= k < |evens| && ParseTime(evens[k]).None?;
      Err(e)
    case Ok(times) =>
      match ParseValues(odds, parseFloat)
      case Err(e) =>
        assert exists k :: 0 <= k < |odds| && parseFloat(odds[k]).None?;
        Err(e)
      case Ok(values) =>
        if |times| != |values| then Err(AssertionError)
        else Ok(Curve(times, values))
  }

  /** What one line inside a node says. */
  datatype Knob = NodeName(nodeName: string) | Parameter(name: string, param: Param) | Ignored

  predicate IsCurveKnob(split: seq<string>)
  {
    |split| > 1 && Contains(split[1], "{{curve") && Contains(split[|split| - 1], "}}")
  }

  /** `split[2:-1]`. */
  function CurveTokens(split: seq<string>): seq<string>
  {
    if |split| >= 3 then split[2..|split| - 1] else []
  }

  /** The digits test a static value must pass: `v.replace('.', '').replace('-', '').isdigit()`. */
  predicate IsNumericText(v: string)
  {
    IsDigits(RemoveChar(RemoveChar(v, '.'), '-'))
  }

  /** Reads one cleaned line of a node's body. */
  function ParseKnob(line: string, parseFloat: ParseFloat): (r: Result<Knob, ParseError>)
    ensures r.Ok? && r.value.NodeName? ==>
      line == "name" + " " + r.value.nodeName && ' ' !in r.value.nodeName
    ensures r.Ok? && r.value.Parameter? && r.value.param.Static? ==>
      exists text ::
        line == r.value.name + " " + text && ' ' !in r.value.name && ' ' !in text
        && IsNumericText(text) && parseFloat(text) == Some(r.value.param.value)
    ensures r.Ok? && r.value.Parameter? && r.value.param.Curve? ==>
      var split := Split(line, ' ');
      IsCurveKnob(split) && r.value.name == split[0]
    ensures r.Err? ==> IsCurveKnob(Split(line, ' ')) || |Split(line, ' ')| == 2
  {
    var split := Split(line, ' ');
    if IsCurveKnob(split) then
      match ParseCurve(CurveTokens(split), parseFloat)
      case Err(e) => Err(e)
      case Ok(p) => Ok(Parameter(split[0], p))
    else if |split| == 2 then
      assert Join(split, ' ') == split[0] + [' '] + split[1];
      if split[0] == "name" then Ok(NodeName(split[1]))
      else if IsNumericText(split[1]) then
        match parseFloat(split[1])
        case None => Err(ValueError(split[1]))
        case Some(v) => Ok(Parameter(split[0], Static(v)))
      else Ok(Ignored)
    else Ok(Ignored)
  }

  /** The reader's variables after some lines. */
  datatype ParserState = ParserState(
    nodeType: Option<string>,
    nodeName: Option<string>,
    cam: map<string, Param>,
    fov: map<string, Param>,
    lens: map<string, Param>)

  const Start := ParserState(None, None, map[], map[], map[])

  /** Files a parameter under the camera, field-of-view or lens table by its prefix. */
  function AddParam(st: ParserState, name: string, p: Param): ParserState
  {
    if StartsWith(name, CameraPrefix) then st.(cam := st.cam[name := p])
    else if StartsWith(name, FovPrefix) then st.(fov := st.fov[name := p])
    else st.(lens := st.lens[name := p])
  }

  /** What a line inside a node does to the reader's variables. */
  function ApplyKnob(st: ParserState, knob: Knob): (r: ParserState)
    ensures r.nodeType == st.nodeType
  {
    match knob
    case NodeName(n) => st.(nodeName := Some(n))
    case Parameter(name, p) => AddParam(st, name, p)
    case Ignored => st
  }

  /** One iteration of the reading loop, on the cleaned line. */
  function StepClean(st: ParserState, line: string, parseFloat: ParseFloat): Result<ParserState, ParseError>
  {
    if IsNodeHeader(line) then Ok(st.(nodeType := Some(NodeTypeOf(line))))
    else if st.nodeType.None? then Ok(st)
    else
      var knob := ParseKnob(line, parseFloat);
      if knob.Err? then Err(knob.error) else Ok(ApplyKnob(st, knob.value))
  }

  /** One iteration of the reading loop. */
  function Step(st: ParserState, rawLine: string, parseFloat: ParseFloat): Result<ParserState, ParseError>
  {
    StepClean(st, CleanLine(rawLine), parseFloat)
  }

  /** The reader's state after the given lines, or the exception raised on the way. */
  function ParseLines(lines: seq<string>, parseFloat: ParseFloat): Result<ParserState, ParseError>
  {
    if |lines| == 0 then Ok(Start)
    else
      match ParseLines(lines[..|lines| - 1], parseFloat)
      case Err(e) => Err(e)
      case Ok(st) => Step(st, lines[|lines| - 1], parseFloat)
  }

  /** The lens object of a final state: None without a node type or without a node name. */
  function Finish(st: ParserState): (r: Option<LensObject>)
    ensures r.None? <==> st.nodeType.None? || st.nodeName.None?
    ensures r.Some? ==> r.value.name == st.nodeName.value && r.value.nodeType == st.nodeType.value
  {
    if st.nodeType.None? then None
    else if st.nodeName.None? then None
    else Some(LensObject(st.nodeName.value, st.nodeType.value, st.cam, st.fov, st.lens))
  }

  function ParseResult(lines: seq<string>, parseFloat: ParseFloat): Result<Option<LensObject>, ParseError>
  {
    match ParseLines(lines, parseFloat)
    case Err(e) => Err(e)
    case Ok(st) => Ok(Finish(st))
  }

  lemma ParseLinesSnoc(lines: seq<string>, i: nat, parseFloat: ParseFloat)
    requires i < |lines|
    ensures ParseLines(lines[..i + 1], parseFloat) ==
      match ParseLines(lines[..i], parseFloat)
      case Err(e) => Err(e)
      case Ok(st) => StepClean(st, CleanLine(lines[i]), parseFloat)
  {
    assert lines[..i + 1][..i] == lines[..i];
  }

  /** The first exception ends the reading: no later line is looked at. */
  lemma {:induction false} ErrorStops(lines: seq<string>, i: nat, e: ParseError, parseFloat: ParseFloat)
    requires i <= |lines|
    requires ParseLines(lines[..i], parseFloat) == Err(e)
    ensures ParseLines(lines, parseFloat) == Err(e)
    decreases |lines| - i
  {
    if i < |lines| {
      ParseLinesSnoc(lines, i, parseFloat);
      ErrorStops(lines, i + 1, e, parseFloat);
    } else {
      assert lines[..i] == lines;
    }
  }

  /** `parse_file` on the lines of a file. */
  method ParseFile(lines: seq<string>, parseFloat: ParseFloat) returns (r: Result<Option<LensObject>, ParseError>)
    ensures r == ParseResult(lines, parseFloat)
  {
    var nodeType: Option<string> := None;
    var nodeName: Option<string> := None;
    var cam: map<string, Param> := map[];
    var fov: map<string, Param> := map[];
    var lens: map<string, Param> := map[];
    var i := 0;
    while i < |lines|
      invariant 0 <= i <= |lines|
      invariant ParseLines(lines[..i], parseFloat) == Ok(ParserState(nodeType, nodeName, cam, fov, lens))
    {
      ParseLinesSnoc(lines, i, parseFloat);
      var line := CleanLine(lines[i]);
      var next := ReadLine(nodeType, nodeName, cam, fov, lens, line, parseFloat);
      i := i + 1;
      if next.Err? {
        ErrorStops(lines, i, next.error, parseFloat);
        return Err(next.error);
      }
      nodeType, nodeName, cam, fov, lens := next.value.nodeType, next.value.nodeName, next.value.cam, next.value.fov, next.value.lens;
    }
    assert lines[..i] == lines;
    if nodeType.None? {
      return Ok(None);
    }
    if nodeName.None? {
      return Ok(None);
    }
    return Ok(Some(LensObject(nodeName.value, nodeType.value, cam, fov, lens)));
  }

  /** One pass of the reading loop over a cleaned line: a header, a knob of the current node, or nothing. */
  method ReadLine(nodeType: Option<string>, nodeName: Option<string>, cam: map<string, Param>,
                  fov: map<string, Param>, lens: map<string, Param>, line: string, parseFloat: ParseFloat)
    returns (r: Result<ParserState, ParseError>)
    ensures r == StepClean(ParserState(nodeType, nodeName, cam, fov, lens), line, parseFloat)
  {
    if IsNodeHeader(line) {
      return Ok(ParserState(Some(NodeTypeOf(line)), nodeName, cam, fov, lens));
    }
    if nodeType.None? {
      return Ok(ParserState(nodeType, nodeName, cam, fov, lens));
    }
    var knob := ParseKnob(line, parseFloat);
    if knob.Err? {
      return Err(knob.error);
    }
    var nodeName', cam', fov', lens' := nodeName, cam, fov, lens;
    match knob.value {
      case NodeName(n) =>
        nodeName' := Some(n);
      case Parameter(name, p) =>
        if StartsWith(name, CameraPrefix) {
          cam' := cam[name := p];
        } else if StartsWith(name, FovPrefix) {
          fov' := fov[name := p];
        } else {
          lens' := lens[name := p];
        }
      case Ignored =>
    }
    r := Ok(ParserState(nodeType, nodeName', cam', fov', lens'));
  }

  /** A cleaned line has no comment left in it. */
  lemma CleanLineHasNoComment(line: string)
    ensures '#' !in CleanLine(line)
  {
    var p := Partition(line, "#");
    NoSepBeforePartition(line, '#');
    StripKeepsOut(p.0, '#');
  }

  /** Every parameter sits in the table its name's prefix selects. */
  predicate WellFiled(st: ParserState)
  {
    (forall name :: name in st.cam ==> StartsWith(name, CameraPrefix))
    && (forall name :: name in st.fov ==> StartsWith(name, FovPrefix) && !StartsWith(name, CameraPrefix))
    && (forall name :: name in st.lens ==> !StartsWith(name, FovPrefix) && !StartsWith(name, CameraPrefix))
  }

  lemma ApplyKnobKeepsFiled(st: ParserState, knob: Knob)
    requires WellFiled(st)
    ensures WellFiled(ApplyKnob(st, knob))
  {
    if knob.Parameter? {
      var r := ApplyKnob(st, knob);
      assert r == AddParam(st, knob.name, knob.param);
    }
  }

  lemma StepKeepsFiled(st: ParserState, rawLine: string, parseFloat: ParseFloat)
    requires WellFiled(st)
    ensures Step(st, rawLine, parseFloat).Ok? ==> WellFiled(Step(st, rawLine, parseFloat).value)
  {
    var line := CleanLine(rawLine);
    if !IsNodeHeader(line) && st.nodeType.Some? {
      var knob := ParseKnob(line, parseFloat);
      if knob.Ok? {
        ApplyKnobKeepsFiled(st, knob.value);
      }
    }
  }

  /** However the file reads, each table holds only names of its own prefix. */
  lemma {:induction false} ParseLinesFiled(lines: seq<string>, parseFloat: ParseFloat)
    ensures ParseLines(lines, parseFloat).Ok? ==> WellFiled(ParseLines(lines, parseFloat).value)
  {
    if |lines| > 0 {
      ParseLinesFiled(lines[..|lines| - 1], parseFloat);
      var prev := ParseLines(lines[..|lines| - 1], parseFloat);
      if prev.Ok? {
        StepKeepsFiled(prev.value, lines[|lines| - 1], parseFloat);
      }
    }
  }

  /** The node type named by the last header line, if any. */
  function LastHeaderType(lines: seq<string>): Option<string>
  {
    if |lines| == 0 then None
    else if IsNodeHeader(CleanLine(lines[|lines| - 1])) then Some(NodeTypeOf(CleanLine(lines[|lines| - 1])))
    else LastHeaderType(lines[..|lines| - 1])
  }

  /** The node type read is the one of the last header line: a later node replaces an earlier one. */
  lemma {:induction false} NodeTypeIsLastHeader(lines: seq<string>, parseFloat: ParseFloat)
    ensures ParseLines(lines, parseFloat).Ok? ==> ParseLines(lines, parseFloat).value.nodeType == LastHeaderType(lines)
  {
    if |lines| > 0 {
      NodeTypeIsLastHeader(lines[..|lines| - 1], parseFloat);
    }
  }

  /** Without a header line every line is ignored, and the file gives no lens. */
  lemma {:induction false} NoHeaderNoLens(lines: seq<string>, parseFloat: ParseFloat)
    requires forall k :: 0 <= k < |lines| ==> !IsNodeHeader(CleanLine(lines[k]))
    ensures ParseLines(lines, parseFloat) == Ok(Start)
    ensures ParseResult(lines, parseFloat) == Ok(None)
  {
    if |lines| > 0 {
      var prefix := lines[..|lines| - 1];
      assert forall k :: 0 <= k < |prefix| ==> prefix[k] == lines[k];
      NoHeaderNoLens(prefix, parseFloat);
    }
  }
}
