/**
 * The `.animation` text format as `Animation::LoadWithData` reads it: the data is
 * cut into lines, each line is handled by the first keyword it contains, and
 * every `animation` line closes the previous state's frame list and opens a new one.
 *
 * `atoi` and `atof` are parameters (`Numbers`); durations are reals. A `std::out_of_range`
 * thrown by `substr` or `vector::at` is `Err(OutOfRange)`; indexing the frame lists
 * with `-1` through `operator[]` is undefined behaviour and is `Err(Panic)`.
 */
module AnimationFile {
  import opened Wrappers

  // ---------------------------------------------------------------- text

  /** `key` occurs in `s` at position `k`. */
  predicate OccursAt(s: string, key: string, k: nat) {
    k + |key| <= |s| && s[k..k + |key|] == key
  }

  /** `std::string::find` from position `from`. */
  function FindFrom(s: string, key: string, from: nat): (r: Option<nat>)
    ensures r.Some? ==> (from <= r.value && OccursAt(s, key, r.value)
      && forall j :: from <= j < r.value ==> !OccursAt(s, key, j))
    ensures r.None? ==> forall j :: from <= j ==> !OccursAt(s, key, j)
    decreases |s| + 1 - from
  {
    if from + |key| > |s| then None
    else if s[from..from + |key|] == key then Some(from)
    else FindFrom(s, key, from + 1)
  }

  /** `std::string::find`: the first position of `key` in `s`. */
  function Find(s: string, key: string): (r: Option<nat>)
    ensures r.Some? ==> OccursAt(s, key, r.value) && forall j :: 0 <= j < r.value ==> !OccursAt(s, key, j)
    ensures r.None? ==> forall j: nat :: !OccursAt(s, key, j)
  {
    FindFrom(s, key, 0)
  }

  predicate Contains(s: string, key: string) {
    Find(s, key).Some?
  }

  /** The text before the first `"` of `s`, or all of `s` (`s.substr(0, s.find("\""))`). */
  function UpToQuote(s: string): (r: string)
    ensures '"' !in r
    ensures |r| <= |s| && r == s[..|r|]
    ensures |r| < |s| ==> s[|r|] == '"'
    decreases |s|
  {
    if s == [] then []
    else if s[0] == '"' then []
    else [s[0]] + UpToQuote(s[1..])
  }

  /**
   * `Animation::ValueOf`: the text starting two characters after the first
   * occurrence of `key` (past `key="`), up to the next `"`. A missing key gives the
   * position `-1` which, as an unsigned size, wraps so that reading starts at
   * `|key| + 1`; a start past the end of the line makes `substr` throw.
   */
  function ValueOf(key: string, line: string): (r: Result<string>)
    ensures r.Err? <==> (if Find(line, key).Some? then Find(line, key).value + |key| + 2 else |key| + 1) > |line|
    ensures r.Ok? ==> '"' !in r.value
    ensures r.Ok? && Find(line, key).Some? ==>
      var start := Find(line, key).value + |key| + 2;
      start + |r.value| <= |line| && r.value == line[start..start + |r.value|]
      && (start + |r.value| == |line| || line[start + |r.value|] == '"')
  {
    var start := match Find(line, key) case Some(k) => k + |key| + 2 case None => |key| + 1;
    if start > |line| then Err(OutOfRange) else Ok(UpToQuote(line[start..]))
  }

  /** Reading back a `key="value"` pair that starts the line. */
  lemma {:induction false} ValueOfRoundTrip(key: string, value: string, rest: string)
    requires '"' !in value
    ensures ValueOf(key, key + "=\"" + value + "\"" + rest) == Ok(value)
  {
    var line := key + "=\"" + value + "\"" + rest;
    assert line[0..|key|] == key;
    assert Find(line, key) == Some(0);
    var tail := line[|key| + 2..];
    assert tail == value + "\"" + rest;
    UpToQuoteOf(value, rest);
  }

  lemma {:induction false} UpToQuoteOf(value: string, rest: string)
    requires '"' !in value
    ensures UpToQuote(value + "\"" + rest) == value
    decreases |value|
  {
    if value == [] {
      assert (value + "\"" + rest)[0] == '"';
    } else {
      assert (value + "\"" + rest)[1..] == value[1..] + "\"" + rest;
      UpToQuoteOf(value[1..], rest);
      assert value == [value[0]] + value[1..];
    }
  }

  /** `::toupper` in the C locale: only `a`..`z` change. */
  function UpperChar(c: char): (r: char)
    ensures 'a' <= c <= 'z' ==> r as int == c as int - 32
    ensures !('a' <= c <= 'z') ==> r == c
    ensures !('a' <= r <= 'z')
  {
    if 'a' <= c <= 'z' then (c as int - 32) as char else c
  }

  function ToUpper(s: string): (r: string)
    ensures |r| == |s| && forall k :: 0 <= k < |s| ==> r[k] == UpperChar(s[k])
  {
    seq(|s|, k requires 0 <= k < |s| => UpperChar(s[k]))
  }

  /** Text with no lower-case letter. */
  predicate IsUpper(s: string) {
    forall k :: 0 <= k < |s| ==> !('a' <= s[k] <= 'z')
  }

  /** Upper-casing leaves no lower-case letter and changes nothing the second time. */
  lemma {:induction false} ToUpperIdempotent(s: string)
    ensures IsUpper(ToUpper(s))
    ensures ToUpper(ToUpper(s)) == ToUpper(s)
  {
  }

  /**
   * The lines the `do … while` loop reads: text up to each `\n`, the rest after the
   * last one, no trailing empty line after a final `\n`, and one empty line for empty data.
   */
  function Lines(data: string): (r: seq<string>)
    ensures |r| >= 1
    ensures forall k :: 0 <= k < |r| ==> '\n' !in r[k]
    decreases |data|
  {
    match Find(data, "\n")
    case None =>
      assert forall k :: 0 <= k < |data| ==> data[k] != '\n' by {
        forall k | 0 <= k < |data| ensures data[k] != '\n' { assert !OccursAt(data, "\n", k); }
      }
      [data]
    case Some(k) =>
      assert forall j :: 0 <= j < k ==> data[j] != '\n' by {
        forall j | 0 <= j < k ensures data[j] != '\n' { assert !OccursAt(data, "\n", j); }
      }
      [data[..k]] + (if k + 1 < |data| then Lines(data[k + 1..]) else [])
  }

  /** Joining the lines with `\n` gives the data back, up to a final `\n`. */
  lemma {:induction false} LinesJoin(data: string)
    ensures Join(Lines(data)) == data || Join(Lines(data)) + "\n" == data
    decreases |data|
  {
    match Find(data, "\n")
    case None =>
    case Some(k) =>
      var head, tail := data[..k], data[k + 1..];
      assert data == head + "\n" + tail by {
        assert data[k..k + 1] == "\n";
      }
      if k + 1 < |data| {
        LinesJoin(tail);
        JoinCons(head, Lines(tail));
      } else {
        assert Lines(data) == [head];
      }
  }

  /** The lines separated by `\n`. */
  function Join(lines: seq<string>): string
    decreases |lines|
  {
    if lines == [] then []
    else if |lines| == 1 then lines[0]
    else lines[0] + "\n" + Join(lines[1..])
  }

  lemma {:induction false} JoinCons(line: string, rest: seq<string>)
    requires rest != []
    ensures Join([line] + rest) == line + "\n" + Join(rest)
  {
    assert ([line] + rest)[1..] == rest;
  }

  // ---------------------------------------------------------------- line kinds

  datatype LineKind = VersionLine | ImagePathLine | AnimationLine | BlankLine | FrameLine | PointLine | OtherLine

  /** The first keyword, in the order the parser tests them, that the line contains. */
  function Classify(line: string): (r: LineKind)
    ensures r == VersionLine <==> Contains(line, "VERSION")
    ensures r == ImagePathLine <==> !Contains(line, "VERSION") && Contains(line, "imagePath")
    ensures r == AnimationLine <==> !Contains(line, "VERSION") && !Contains(line, "imagePath") && Contains(line, "animation")
    ensures r == BlankLine <==> (!Contains(line, "VERSION") && !Contains(line, "imagePath") && !Contains(line, "animation")
      && Contains(line, "blank"))
    ensures r == FrameLine <==> (!Contains(line, "VERSION") && !Contains(line, "imagePath") && !Contains(line, "animation")
      && !Contains(line, "blank") && Contains(line, "frame"))
    ensures r == PointLine <==> (!Contains(line, "VERSION") && !Contains(line, "imagePath") && !Contains(line, "animation")
      && !Contains(line, "blank") && !Contains(line, "frame") && Contains(line, "point"))
  {
    if Contains(line, "VERSION") then VersionLine
    else if Contains(line, "imagePath") then ImagePathLine
    else if Contains(line, "animation") then AnimationLine
    else if Contains(line, "blank") then BlankLine
    else if Contains(line, "frame") then FrameLine
    else if Contains(line, "point") then PointLine
    else OtherLine
  }

  // ---------------------------------------------------------------- frames

  /** `atoi` and `atof`, whose digit parsing is outside the model. */
  datatype Numbers = Numbers(atoi: string -> int, atof: string -> real)

  datatype Frame =
    | Frame(duration: real, x: int, y: int, w: int, h: int, originX: int, originY: int, flipX: bool, flipY: bool)
    | LegacyFrame(duration: real, x: int, y: int, w: int, h: int)

  /** A state's frames and the points set on it, in order. */
  datatype FrameList = FrameList(frames: seq<Frame>, points: seq<(string, int, int)>)

  /** `std::map::insert`: an existing entry is kept. */
  function Insert(m: map<string, FrameList>, key: string, list: FrameList): (r: map<string, FrameList>)
    ensures key in r && r.Keys == m.Keys + {key}
    ensures key in m ==> r == m
    ensures key !in m ==> r[key] == list
    ensures forall k :: k in m ==> r[k] == m[k]
  {
    if key in m then m else m[key := list]
  }

  /** The parser's locals, and the map it fills. */
  datatype Parser = Parser(
    legacy: bool,
    lists: seq<FrameList>,
    state: string,
    width: int,
    height: int,
    animations: map<string, FrameList>)

  /** `frameLists.at(frameAnimationIndex).Add(frame)`: the index is `|lists| - 1`, out of range when empty. */
  function AddFrame(p: Parser, f: Frame): (r: Result<Parser>)
    ensures r.Ok? <==> p.lists != []
    ensures r.Ok? ==> |r.value.lists| == |p.lists| && r.value.lists[|p.lists| - 1].frames == p.lists[|p.lists| - 1].frames + [f]
    ensures r.Ok? ==> r.value.animations == p.animations
  {
    if p.lists == [] then Err(OutOfRange)
    else
      var last := |p.lists| - 1;
      Ok(p.(lists := p.lists[last := p.lists[last].(frames := p.lists[last].frames + [f])]))
  }

  /** The flag text `true` or `1`. */
  predicate Flag(s: string) {
    s == "true" || s == "1"
  }

  /** A `blank` line: an empty frame whose duration is made non-negative. */
  function BlankFrame(n: Numbers, line: string): (r: Result<Frame>)
    ensures r.Ok? ==> r.value.duration >= 0.0 && r.value.Frame?
    ensures r.Ok? ==> r.value.x == 0 && r.value.y == 0 && r.value.w == 0 && r.value.h == 0
    ensures r.Ok? <==> ValueOf("duration", line).Ok?
  {
    var d :- ValueOf("duration", line);
    var v := n.atof(d);
    Ok(Frame(if v < 0.0 then -v else v, 0, 0, 0, 0, 0, 0, false, false))
  }

  /** A `frame` line; the current width and height come from the frame itself unless in legacy mode. */
  function ParseFrame(n: Numbers, p: Parser, line: string): (r: Result<(Frame, int, int)>)
    ensures r.Ok? ==> (p.legacy <==> r.value.0.LegacyFrame?)
    ensures r.Ok? && p.legacy ==> (r.value.1 == p.width && r.value.2 == p.height
      && r.value.0.w == p.width && r.value.0.h == p.height)
    ensures r.Ok? && !p.legacy ==> r.value.0.w == r.value.1 && r.value.0.h == r.value.2
  {
    var d :- ValueOf("duration", line);
    if p.legacy then
      var sx :- ValueOf("startx", line);
      var sy :- ValueOf("starty", line);
      Ok((LegacyFrame(n.atof(d), n.atoi(sx), n.atoi(sy), p.width, p.height), p.width, p.height))
    else
      var x :- ValueOf("x", line);
      var y :- ValueOf("y", line);
      var w :- ValueOf("w", line);
      var h :- ValueOf("h", line);
      var ox :- ValueOf("originx", line);
      var oy :- ValueOf("originy", line);
      var fx :- ValueOf("flipx", line);
      var fy :- ValueOf("flipy", line);
      Ok((Frame(n.atof(d), n.atoi(x), n.atoi(y), n.atoi(w), n.atoi(h), n.atoi(ox), n.atoi(oy), Flag(fx), Flag(fy)),
          n.atoi(w), n.atoi(h)))
  }

  /** An `animation` line: the open state is stored (first definition wins) and a new frame list opens. */
  function OpenState(n: Numbers, p: Parser, line: string): (r: Result<Parser>)
    ensures r.Ok? ==> |r.value.lists| == |p.lists| + 1 && r.value.lists[..|p.lists|] == p.lists
    ensures r.Ok? ==> r.value.lists[|p.lists|] == FrameList([], [])
    ensures r.Ok? ==> (r.value.animations ==
      if p.lists == [] then p.animations else Insert(p.animations, ToUpper(p.state), p.lists[|p.lists| - 1]))
    ensures r.Ok? ==> r.value.legacy == p.legacy
  {
    var animations := if p.lists == [] then p.animations else Insert(p.animations, ToUpper(p.state), p.lists[|p.lists| - 1]);
    var state :- ValueOf("state", line);
    var (width, height) :-
      if p.legacy then
        var w :- ValueOf("width", line);
        var h :- ValueOf("height", line);
        Ok((n.atoi(w), n.atoi(h)))
      else Ok((p.width, p.height));
    Ok(p.(lists := p.lists + [FrameList([], [])], state := state, width := width, height := height, animations := animations))
  }

  /** A `point` line: the upper-cased label is set on the open frame list. */
  function AddPoint(n: Numbers, p: Parser, line: string): (r: Result<Parser>)
    ensures r.Ok? ==> p.lists != [] && |r.value.lists| == |p.lists| && r.value.animations == p.animations
    ensures r.Ok? ==> var last := |p.lists| - 1;
      |r.value.lists[last].points| == |p.lists[last].points| + 1
      && IsUpper(r.value.lists[last].points[|p.lists[last].points|].0)
  {
    var name :- ValueOf("label", line);
    var x :- ValueOf("x", line);
    var y :- ValueOf("y", line);
    if p.lists == [] then Err(Panic)
    else
      var last := |p.lists| - 1;
      ToUpperIdempotent(name);
      Ok(p.(lists := p.lists[last := p.lists[last].(points := p.lists[last].points + [(ToUpper(name), n.atoi(x), n.atoi(y))])]))
  }

  /** One line of the loop. */
  function Step(n: Numbers, p: Parser, line: string): (r: Result<Parser>)
    ensures r.Ok? ==> |r.value.lists| == |p.lists| + (if Classify(line) == AnimationLine then 1 else 0)
    ensures r.Ok? && Classify(line) != AnimationLine ==> r.value.animations == p.animations
    ensures r.Ok? && Classify(line) == AnimationLine ==> (r.value.animations ==
      if p.lists == [] then p.animations else Insert(p.animations, ToUpper(p.state), p.lists[|p.lists| - 1]))
  {
    match Classify(line)
    case VersionLine =>
      var version :- ValueOf("VERSION", line);
      Ok(p.(legacy := p.legacy || version == "1.0"))
    case ImagePathLine => Ok(p)
    case AnimationLine => OpenState(n, p, line)
    case BlankLine =>
      var f :- BlankFrame(n, line);
      AddFrame(p, f)
    case FrameLine =>
      var (f, width, height) :- ParseFrame(n, p, line);
      AddFrame(p.(width := width, height := height), f)
    case PointLine => AddPoint(n, p, line)
    case OtherLine => Ok(p)
  }

  function Run(n: Numbers, p: Parser, lines: seq<string>): Result<Parser>
    decreases |lines|
  {
    if lines == [] then Ok(p)
    else
      var p1 :- Step(n, p, lines[0]);
      Run(n, p1, lines[1..])
  }

  /** After the loop, the open state is stored if an `animation` line opened one. */
  function Finish(p: Parser): (r: map<string, FrameList>)
    ensures p.lists == [] ==> r == p.animations
    ensures p.lists != [] ==> r == Insert(p.animations, ToUpper(p.state), p.lists[|p.lists| - 1])
  {
    if p.lists == [] then p.animations else Insert(p.animations, ToUpper(p.state), p.lists[|p.lists| - 1])
  }

  function InitialParser(animations: map<string, FrameList>): Parser {
    Parser(false, [], "", 0, 0, animations)
  }

  /** `Animation::LoadWithData`, adding to the states already loaded. */
  function LoadWithData(n: Numbers, animations: map<string, FrameList>, data: string): Result<map<string, FrameList>> {
    var p :- Run(n, InitialParser(animations), Lines(data));
    Ok(Finish(p))
  }

  // ---------------------------------------------------------------- properties

  /** The number of lines the parser treats as `animation` lines. */
  function CountStates(lines: seq<string>): nat
    decreases |lines|
  {
    if lines == [] then 0 else (if Classify(lines[0]) == AnimationLine then 1 else 0) + CountStates(lines[1..])
  }

  /** Entries are only ever added, and every added name is upper case. */
  ghost predicate Grows(before: map<string, FrameList>, after: map<string, FrameList>) {
    (forall k :: k in before ==> k in after && after[k] == before[k])
    && (forall k :: k in after && k !in before ==> IsUpper(k))
  }

  lemma {:induction false} GrowsTrans(a: map<string, FrameList>, b: map<string, FrameList>, c: map<string, FrameList>)
    requires Grows(a, b) && Grows(b, c)
    ensures Grows(a, c)
  {
  }

  lemma {:induction false} InsertGrows(m: map<string, FrameList>, state: string, list: FrameList)
    ensures Grows(m, Insert(m, ToUpper(state), list))
  {
    ToUpperIdempotent(state);
  }

  /** The loop opens one frame list per `animation` line and only adds upper-case states. */
  lemma {:induction false} RunEffect(n: Numbers, p: Parser, lines: seq<string>)
    requires Run(n, p, lines).Ok?
    ensures |Run(n, p, lines).value.lists| == |p.lists| + CountStates(lines)
    ensures Grows(p.animations, Run(n, p, lines).value.animations)
    ensures CountStates(lines) == 0 ==> Run(n, p, lines).value.animations == p.animations
    decreases |lines|
  {
    if lines != [] {
      var p1 := Step(n, p, lines[0]).value;
      RunEffect(n, p1, lines[1..]);
      if Classify(lines[0]) == AnimationLine && p.lists != [] {
        InsertGrows(p.animations, p.state, p.lists[|p.lists| - 1]);
        GrowsTrans(p.animations, p1.animations, Run(n, p1, lines[1..]).value.animations);
      }
    }
  }

  /**
   * A successful load keeps every state already loaded, names every new state in
   * upper case, keeps the first definition of a state defined twice, and adds
   * nothing when no line opens a state; otherwise the last open state is stored.
   */
  lemma {:induction false} LoadWithDataEffect(n: Numbers, animations: map<string, FrameList>, data: string)
    requires LoadWithData(n, animations, data).Ok?
    ensures Grows(animations, LoadWithData(n, animations, data).value)
    ensures CountStates(Lines(data)) == 0 ==> LoadWithData(n, animations, data).value == animations
    ensures CountStates(Lines(data)) > 0 ==>
      var p := Run(n, InitialParser(animations), Lines(data)).value;
      ToUpper(p.state) in LoadWithData(n, animations, data).value
  {
    var p := Run(n, InitialParser(animations), Lines(data)).value;
    RunEffect(n, InitialParser(animations), Lines(data));
    if p.lists != [] {
      InsertGrows(p.animations, p.state, p.lists[|p.lists| - 1]);
      GrowsTrans(animations, p.animations, Finish(p));
    }
  }
}
