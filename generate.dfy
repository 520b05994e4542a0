/** Code generation (src/generate.rs): a path becomes a `wolf.solve({...}, step)` call
    with one four-point segment per pair of adjacent anchors. Number formatting is not
    modelled: `fmt3` stands for Rust's `{:.3}` and `display` for `{}` of the step. */
module Generate {
  import opened Geometry
  import opened Bezier

  const Prologue: string := "std::vector<wolflib::Moment> = wolf.solve({\n"
  const Separator: string := ",\n"

  /** The text produced for a path of fewer than two points. */
  function EmptyProgram(step: real, display: real -> string): string
  {
    "std::vector<wolflib::Moment> = wolf.solve({}, " + display(step) + ");"
  }

  function Epilogue(step: real, display: real -> string): string
  {
    "}, " + display(step) + ");"
  }

  /** One coordinate pair: `{X_in, Y_in}`. */
  function Pair(x: real, y: real, fmt3: real -> string): string
  {
    "{" + fmt3(x) + "_in, " + fmt3(y) + "_in}"
  }

  /** The segment from `p1` to `p2`: its start, the start's `cp2`, the end's `cp1`, its end. */
  function Segment(p1: Anchor, p2: Anchor, fmt3: real -> string): string
  {
    "    {" + Pair(p1.pos.x, p1.pos.y, fmt3) + ", " + Pair(p1.cp2.x, p1.cp2.y, fmt3) + ", "
      + Pair(p2.cp1.x, p2.cp1.y, fmt3) + ", " + Pair(p2.pos.x, p2.pos.y, fmt3) + "}"
  }

  /** The segments of a path, one per adjacent pair, in path order. */
  function Segments(path: seq<Anchor>, fmt3: real -> string): (r: seq<string>)
    requires |path| >= 1
    ensures |r| == |path| - 1
    ensures forall i :: 0 <= i < |r| ==> r[i] == Segment(path[i], path[i + 1], fmt3)
  {
    seq(|path| - 1, i requires 0 <= i < |path| - 1 => Segment(path[i], path[i + 1], fmt3))
  }

  /** The parts separated by `sep`, with no separator after the last. */
  function Join(parts: seq<string>, sep: string): string
  {
    if |parts| == 0 then ""
    else if |parts| == 1 then parts[0]
    else Join(parts[..|parts| - 1], sep) + sep + parts[|parts| - 1]
  }

  /** The text of the first `k` parts as the loop of `generate` has written it: each part is
      followed by `sep` unless it is the last of all. */
  function Written(parts: seq<string>, sep: string, k: nat): string
    requires k <= |parts|
  {
    if k == 0 then "" else Join(parts[..k], sep) + (if k < |parts| then sep else "")
  }

  /** Once every part is written, the text is their join. */
  lemma WrittenAll(parts: seq<string>, sep: string)
    ensures Written(parts, sep, |parts|) == Join(parts, sep)
  {
    assert parts[..|parts|] == parts;
  }

  lemma AppendAssoc(a: string, b: string, c: string)
    ensures a + b + c == a + (b + c)
  {
  }

  /** Writing one more part appends it, with its separator unless it is the last. */
  lemma WrittenStep(parts: seq<string>, sep: string, k: nat)
    requires k < |parts|
    ensures Written(parts, sep, k + 1) == Written(parts, sep, k) + parts[k] + (if k + 1 < |parts| then sep else "")
  {
    assert parts[..k + 1][..k] == parts[..k];
  }

  function SumLengths(parts: seq<string>): nat
  {
    if parts == [] then 0 else SumLengths(parts[..|parts| - 1]) + |parts[|parts| - 1]|
  }

  /** Joining k >= 1 parts inserts exactly k - 1 separators. */
  lemma {:induction false} JoinLength(parts: seq<string>, sep: string)
    requires |parts| >= 1
    ensures |Join(parts, sep)| == SumLengths(parts) + (|parts| - 1) * |sep|
  {
    if |parts| > 1 {
      var init := parts[..|parts| - 1];
      JoinLength(init, sep);
      assert SumLengths(init) == SumLengths(init[..|init| - 1]) + |init[|init| - 1]| || |init| == 0;
    } else {
      assert parts[..0] == [];
    }
  }

  /** The header of a long path ends in a line break where the empty form closes its braces,
      so no text that starts with the header is the empty form. */
  lemma HeaderIsNotEmptyForm(text: string, step: real, display: real -> string)
    requires |text| >= |Prologue| && text[..|Prologue|] == Prologue
    ensures text != EmptyProgram(step, display)
  {
    var k := |Prologue| - 1;
    assert text[k] == Prologue[k] == '\n';
    assert EmptyProgram(step, display)[k] == '}';
  }

  /** The text `generate` returns for `path`: the empty form exactly when the path has fewer
      than two anchors. */
  function Program(path: seq<Anchor>, step: real, fmt3: real -> string, display: real -> string): (r: string)
    ensures r == EmptyProgram(step, display) <==> |path| < 2
  {
    if |path| < 2 then EmptyProgram(step, display)
    else
      var body := Join(Segments(path, fmt3), Separator);
      var r := Prologue + body + Epilogue(step, display);
      AppendAssoc(Prologue, body, Epilogue(step, display));
      assert (Prologue + (body + Epilogue(step, display)))[..|Prologue|] == Prologue;
      HeaderIsNotEmptyForm(r, step, display);
      r
  }

  /** A path of fewer than two anchors gives the empty form; any longer path gives a text
      that starts with the header and ends with the closing `}, step);`. */
  lemma ProgramFrame(path: seq<Anchor>, step: real, fmt3: real -> string, display: real -> string)
    ensures var r := Program(path, step, fmt3, display);
      && (|path| < 2 ==> r == EmptyProgram(step, display))
      && (|path| >= 2 ==>
            && |r| >= |Prologue| + |Epilogue(step, display)|
            && r[..|Prologue|] == Prologue
            && r[|r| - |Epilogue(step, display)|..] == Epilogue(step, display))
  {
    if |path| >= 2 {
      var body := Join(Segments(path, fmt3), Separator);
      var epi := Epilogue(step, display);
      AppendAssoc(Prologue, body, epi);
      assert (Prologue + (body + epi))[..|Prologue|] == Prologue;
      assert (Prologue + body + epi)[|Prologue + body|..] == epi;
    }
  }

  /** The text of a path of two or more anchors: the header, the joined segments, the closing. */
  lemma ProgramOfLongPath(path: seq<Anchor>, step: real, fmt3: real -> string, display: real -> string,
                          body: string)
    requires |path| >= 2 && body == Prologue + Join(Segments(path, fmt3), Separator)
    ensures Program(path, step, fmt3, display) == body + Epilogue(step, display)
  {
  }

  /** Writing segment `k` after the first `k`: the text of the first `k + 1`. */
  lemma WriteNext(parts: seq<string>, k: nat, text: string)
    requires k < |parts| && text == Prologue + Written(parts, Separator, k)
    ensures text + parts[k] + (if k + 1 < |parts| then Separator else "")
         == Prologue + Written(parts, Separator, k + 1)
  {
    WrittenStep(parts, Separator, k);
    var tail := if k + 1 < |parts| then Separator else "";
    AppendAssoc(Prologue, Written(parts, Separator, k), parts[k]);
    AppendAssoc(Prologue, Written(parts, Separator, k) + parts[k], tail);
  }

  /** `generate`: the header, then each segment followed by `",\n"` except the last, then the
      closing `}, step);`. */
  method Generate(path: seq<BezPoint>, step: real, fmt3: real -> string, display: real -> string)
    returns (result: string)
    ensures result == Program(Values(path), step, fmt3, display)
  {
    var anchors := Values(path);
    if |anchors| < 2 {
      return EmptyProgram(step, display);
    }
    ghost var segments := Segments(anchors, fmt3);
    result := Prologue;
    for idx := 0 to |anchors| - 1
      invariant result == Prologue + Written(segments, Separator, idx)
    {
      var segment := Segment(anchors[idx], anchors[idx + 1], fmt3);
      WriteNext(segments, idx, result);
      result := result + segment + (if idx < |anchors| - 2 then Separator else "");
    }
    assert Values(path) == anchors;
    WrittenAll(segments, Separator);
    ProgramOfLongPath(anchors, step, fmt3, display, result);
    result := result + Epilogue(step, display);
  }

  /** The generated text has |Prologue| + the segments' lengths + (n - 2) separators + the
      epilogue's length characters, for a path of n >= 2 anchors. */
  lemma ProgramLength(path: seq<Anchor>, step: real, fmt3: real -> string, display: real -> string)
    requires |path| >= 2
    ensures |Program(path, step, fmt3, display)|
         == |Prologue| + SumLengths(Segments(path, fmt3)) + (|path| - 2) * |Separator|
            + |Epilogue(step, display)|
  {
    JoinLength(Segments(path, fmt3), Separator);
  }

  /** Two anchors give exactly one segment between the header and the closing text. */
  lemma TwoAnchorProgram(a: Anchor, b: Anchor, step: real, fmt3: real -> string, display: real -> string)
    ensures Program([a, b], step, fmt3, display) == Prologue + Segment(a, b, fmt3) + Epilogue(step, display)
  {
    assert Segments([a, b], fmt3) == [Segment(a, b, fmt3)];
  }

  /** The anchors agree on the coordinates of all three of their points. */
  predicate SameGeometry(p: seq<Anchor>, q: seq<Anchor>)
  {
    && |p| == |q|
    && forall i :: 0 <= i < |p| ==>
         && p[i].pos.x == q[i].pos.x && p[i].pos.y == q[i].pos.y
         && p[i].cp1.x == q[i].cp1.x && p[i].cp1.y == q[i].cp1.y
         && p[i].cp2.x == q[i].cp2.x && p[i].cp2.y == q[i].cp2.y
  }

  /** The generated text reads only coordinates: identities, cusp flags, interaction flags
      and animation state never change it. */
  lemma ProgramReadsOnlyGeometry(p: seq<Anchor>, q: seq<Anchor>, step: real,
                                 fmt3: real -> string, display: real -> string)
    requires SameGeometry(p, q)
    ensures Program(p, step, fmt3, display) == Program(q, step, fmt3, display)
  {
    if |p| >= 2 {
      var sp, sq := Segments(p, fmt3), Segments(q, fmt3);
      forall i | 0 <= i < |sp| ensures sp[i] == sq[i] {
        assert p[i].pos.x == q[i].pos.x && p[i + 1].pos.x == q[i + 1].pos.x;
      }
      assert sp == sq;
    }
  }
}
