/**
 * One record per line of the index file: `path label [x1 y1 x2 y2]`, the
 * fields separated by single commas or spaces. This module is the
 * specification of `BaseDataSet._load_data`: how one line is read and what
 * the parallel lists and the box map are after a whole file.
 */
module IndexFile {
  import opened Results
  import opened PyText
  import opened PyInt

  /** A crop box `[x1, y1, x2, y2]`: left, upper, right, lower. */
  datatype Box = Box(x1: int, y1: int, x2: int, y2: int)

  /** What one line contributes: a path, a label and possibly a box. */
  datatype Record = Record(path: string, labelName: string, box: Option<Box>)

  /** The exceptions construction can raise. */
  datatype LoadError =
    | SourceNotFound(source: string)   // AssertionError "<source> NOT found."
    | NotEnoughValues(got: nat)        // unpacking `_path, _label, *_rest` of one token
    | InvalidLiteral(token: string)    // `int(v)` on a token that is not an integer

  /** The three collections `_load_data` fills. */
  datatype Loaded = Loaded(paths: seq<string>, labels: seq<string>, bboxes: map<string, Box>)

  const Empty := Loaded([], [], map[])

  /** The tokens of one line: stripped, then split on `,` and space. */
  function Tokens(line: string): (r: seq<string>)
    ensures |r| >= 1
  {
    Split(Strip(line))
  }

  /**
   * `[int(v) for v in ts]`: the tokens parsed in order; the first token that
   * is not an integer is the one reported.
   */
  function ParseInts(ts: seq<string>): (r: Result<seq<int>, LoadError>)
    ensures r.Success? ==> |r.value| == |ts|
  {
    if ts == [] then Success([])
    else match ParseInt(ts[0])
      case None => Failure(InvalidLiteral(ts[0]))
      case Some(v) =>
        match ParseInts(ts[1..])
        case Failure(e) => Failure(e)
        case Success(vs) => Success([v] + vs)
  }

  /**
   * The list comprehension succeeds exactly when every token is an integer,
   * and then holds their values in order; otherwise it reports the first
   * token that is not.
   */
  lemma {:induction false} ParseIntsSpec(ts: seq<string>)
    ensures var r := ParseInts(ts);
      r.Success? <==> forall k :: 0 <= k < |ts| ==> ParseInt(ts[k]).Some?
    ensures var r := ParseInts(ts);
      r.Success? ==> forall k :: 0 <= k < |ts| ==> ParseInt(ts[k]) == Some(r.value[k])
    ensures var r := ParseInts(ts);
      r.Failure? ==> exists k :: && 0 <= k < |ts| && r.error == InvalidLiteral(ts[k]) && ParseInt(ts[k]).None?
                                 && forall j :: 0 <= j < k ==> ParseInt(ts[j]).Some?
  {
    if ts != [] {
      ParseIntsSpec(ts[1..]);
      assert forall k :: 1 <= k < |ts| ==> ts[1..][k - 1] == ts[k];
      var r := ParseInts(ts);
      if ParseInt(ts[0]).Some? && r.Failure? {
        var k :| && 0 <= k < |ts| - 1 && r.error == InvalidLiteral(ts[1..][k]) && ParseInt(ts[1..][k]).None?
                 && forall j :: 0 <= j < k ==> ParseInt(ts[1..][j]).Some?;
        assert ParseInt(ts[k + 1]).None? && r.error == InvalidLiteral(ts[k + 1]);
        assert forall j :: 0 <= j < k + 1 ==> ParseInt(ts[j]).Some?;
      }
    }
  }

  /** One iteration of the loop body of `_load_data`, as a value. */
  function ParseLine(line: string): Result<Record, LoadError>
  {
    var t := Tokens(line);
    if |t| < 2 then Failure(NotEnoughValues(|t|))
    else if |t[2..]| == 4 then
      match ParseInts(t[2..])
      case Failure(e) => Failure(e)
      case Success(vs) => Success(Record(t[0], t[1], Some(Box(vs[0], vs[1], vs[2], vs[3]))))
    else Success(Record(t[0], t[1], None))
  }

  /**
   * A line is a record exactly when it has at least two tokens and, if it has
   * four more, all four are integers. The path and the label are the first
   * two tokens; the box is present exactly when four tokens follow and holds
   * their values; with one token the unpacking fails.
   */
  lemma ParseLineSpec(line: string)
    ensures var t, r := Tokens(line), ParseLine(line);
      r.Success? <==> |t| >= 2 && (|t| == 6 ==> forall k :: 2 <= k < 6 ==> ParseInt(t[k]).Some?)
    ensures var t, r := Tokens(line), ParseLine(line);
      |t| < 2 ==> r == Failure(NotEnoughValues(|t|))
    ensures var t, r := Tokens(line), ParseLine(line);
      r.Success? ==> && r.value.path == t[0] && r.value.labelName == t[1]
                     && (r.value.box.Some? <==> |t| == 6)
                     && (|t| == 6 ==> var b := r.value.box.value;
                           && ParseInt(t[2]) == Some(b.x1) && ParseInt(t[3]) == Some(b.y1)
                           && ParseInt(t[4]) == Some(b.x2) && ParseInt(t[5]) == Some(b.y2))
  {
    var t := Tokens(line);
    if |t| == 6 {
      ParseIntsSpec(t[2..]);
      assert forall k :: 2 <= k < 6 ==> t[2..][k - 2] == t[k];
    }
  }

  /** Appends one record to the collections; a box overwrites any earlier box of that path. */
  function Add(st: Loaded, rec: Record): Loaded {
    Loaded(st.paths + [rec.path], st.labels + [rec.labelName],
           if rec.box.Some? then st.bboxes[rec.path := rec.box.value] else st.bboxes)
  }

  /** The records appended one after the other, in order. */
  function AddAll(st: Loaded, rs: seq<Record>): Loaded
  {
    if rs == [] then st else Add(AddAll(st, rs[..|rs| - 1]), rs[|rs| - 1])
  }

  /** The parse of every line, in file order. */
  function ParseEach(lines: seq<string>): seq<Result<Record, LoadError>>
  {
    seq(|lines|, i requires 0 <= i < |lines| => ParseLine(lines[i]))
  }

  /** The records of `ps` in order, or the error of its first failure. */
  function Collect(ps: seq<Result<Record, LoadError>>): (r: Result<seq<Record>, LoadError>)
    ensures r.Success? ==> |r.value| == |ps|
  {
    if ps == [] then Success([])
    else match Collect(ps[..|ps| - 1])
      case Failure(e) => Failure(e)
      case Success(rs) =>
        match ps[|ps| - 1]
        case Failure(e) => Failure(e)
        case Success(rec) => Success(rs + [rec])
  }

  /**
   * The loop of `_load_data` over `lines`, started from the collections
   * `st`: every line is parsed and appended, and the first line that fails
   * ends the load with its error.
   */
  function Load(st: Loaded, lines: seq<string>): Result<Loaded, LoadError>
  {
    match Collect(ParseEach(lines))
    case Failure(e) => Failure(e)
    case Success(rs) => Success(AddAll(st, rs))
  }

  /** Once a prefix of the results fails, collecting all of them fails with the same error. */
  lemma {:induction false} CollectFailureSticks(ps: seq<Result<Record, LoadError>>, k: nat, e: LoadError)
    requires k <= |ps| && Collect(ps[..k]) == Failure(e)
    ensures Collect(ps) == Failure(e)
    decreases |ps| - k
  {
    if k < |ps| {
      assert ps[..k + 1][..k] == ps[..k];
      CollectFailureSticks(ps, k + 1, e);
    } else {
      assert ps[..k] == ps;
    }
  }

  /** One more success extends the collected records by its record. */
  lemma CollectStep(ps: seq<Result<Record, LoadError>>, i: nat, rs: seq<Record>)
    requires i < |ps| && Collect(ps[..i]) == Success(rs) && ps[i].Success?
    ensures Collect(ps[..i + 1]) == Success(rs + [ps[i].value])
  {
    assert ps[..i + 1][..i] == ps[..i];
  }

  /** A failure right after a run of successes is the outcome of collecting everything. */
  lemma CollectStepFails(ps: seq<Result<Record, LoadError>>, i: nat, rs: seq<Record>)
    requires i < |ps| && Collect(ps[..i]) == Success(rs) && ps[i].Failure?
    ensures Collect(ps) == Failure(ps[i].error)
  {
    assert ps[..i + 1][..i] == ps[..i];
    CollectFailureSticks(ps, i + 1, ps[i].error);
  }

  /** Appending one more record is one more `Add`. */
  lemma AddAllStep(st: Loaded, rs: seq<Record>, rec: Record)
    ensures AddAll(st, rs + [rec]) == Add(AddAll(st, rs), rec)
  {
    assert (rs + [rec])[..|rs|] == rs;
  }

  /** Collecting succeeds exactly when every result is a success, and then keeps them in order. */
  lemma {:induction false} CollectSucceeds(ps: seq<Result<Record, LoadError>>)
    ensures Collect(ps).Success? <==> forall i :: 0 <= i < |ps| ==> ps[i].Success?
    ensures Collect(ps).Success? ==> forall i :: 0 <= i < |ps| ==> ps[i] == Success(Collect(ps).value[i])
  {
    if ps != [] {
      var n := |ps| - 1;
      CollectSucceeds(ps[..n]);
      assert forall i :: 0 <= i < n ==> ps[..n][i] == ps[i];
    }
  }

  /** A failed collection carries the error of the first failure. */
  lemma {:induction false} CollectFailsAtFirst(ps: seq<Result<Record, LoadError>>)
    requires Collect(ps).Failure?
    ensures exists i :: && 0 <= i < |ps| && ps[i] == Failure(Collect(ps).error)
                        && forall j :: 0 <= j < i ==> ps[j].Success?
  {
    var n := |ps| - 1;
    var init := ps[..n];
    assert forall j :: 0 <= j < n ==> init[j] == ps[j];
    if Collect(init).Failure? {
      CollectFailsAtFirst(init);
      var i :| && 0 <= i < n && init[i] == Failure(Collect(init).error)
               && forall j :: 0 <= j < i ==> init[j].Success?;
      assert ps[i] == Failure(Collect(ps).error);
    } else {
      CollectSucceeds(init);
      assert ps[n] == Failure(Collect(ps).error);
    }
  }

  /**
   * Loading succeeds exactly when every line parses, and then the collections
   * are the parsed records appended in file order.
   */
  lemma LoadSucceedsIff(st: Loaded, lines: seq<string>)
    ensures Load(st, lines).Success? <==> forall i :: 0 <= i < |lines| ==> ParseLine(lines[i]).Success?
    ensures Load(st, lines).Success? ==>
      var rs := Collect(ParseEach(lines)).value;
      && Load(st, lines).value == AddAll(st, rs)
      && |rs| == |lines|
      && forall i :: 0 <= i < |lines| ==> ParseLine(lines[i]) == Success(rs[i])
  {
    var ps := ParseEach(lines);
    assert |ps| == |lines| && forall i :: 0 <= i < |lines| ==> ps[i] == ParseLine(lines[i]);
    CollectSucceeds(ps);
  }

  /** A failed load reports the error of the first line that does not parse. */
  lemma LoadFailsAtFirstBadLine(st: Loaded, lines: seq<string>)
    requires Load(st, lines).Failure?
    ensures exists i :: && 0 <= i < |lines| && ParseLine(lines[i]) == Failure(Load(st, lines).error)
                        && forall j :: 0 <= j < i ==> ParseLine(lines[j]).Success?
  {
    var ps := ParseEach(lines);
    CollectFailsAtFirst(ps);
    var i :| && 0 <= i < |ps| && ps[i] == Failure(Collect(ps).error)
             && forall j :: 0 <= j < i ==> ps[j].Success?;
    assert ParseLine(lines[i]) == ps[i];
    assert forall j :: 0 <= j < i ==> ParseLine(lines[j]) == ps[j];
  }

  /** After appending, there is one path and one label per record, in the records' order. */
  lemma {:induction false} AddAllParallelLists(rs: seq<Record>)
    ensures var st := AddAll(Empty, rs);
      && |st.paths| == |rs| && |st.labels| == |rs|
      && forall i :: 0 <= i < |rs| ==> st.paths[i] == rs[i].path && st.labels[i] == rs[i].labelName
  {
    if rs != [] {
      AddAllParallelLists(rs[..|rs| - 1]);
    }
  }

  /** Record `i` carries a box for path `p`. */
  predicate BoxAt(rs: seq<Record>, i: int, p: string)
    requires 0 <= i < |rs|
  {
    rs[i].path == p && rs[i].box.Some?
  }

  /** The box of the last record that gives path `p` a box, if any. */
  function LastBox(rs: seq<Record>, p: string): Option<Box>
  {
    if rs == [] then None
    else if BoxAt(rs, |rs| - 1, p) then rs[|rs| - 1].box
    else LastBox(rs[..|rs| - 1], p)
  }

  /** `LastBox` finds the last record with a box for `p`, and finds one whenever there is one. */
  lemma {:induction false} LastBoxSpec(rs: seq<Record>, p: string)
    ensures LastBox(rs, p).Some? <==> exists i :: 0 <= i < |rs| && BoxAt(rs, i, p)
    ensures LastBox(rs, p).Some? ==>
      exists i :: && 0 <= i < |rs| && BoxAt(rs, i, p) && rs[i].box == LastBox(rs, p)
                  && forall j :: i < j < |rs| ==> !BoxAt(rs, j, p)
  {
    if rs != [] {
      var n := |rs| - 1;
      var init := rs[..n];
      LastBoxSpec(init, p);
      assert forall i :: 0 <= i < n ==> BoxAt(init, i, p) == BoxAt(rs, i, p);
      if !BoxAt(rs, n, p) && LastBox(init, p).Some? {
        var i :| && 0 <= i < n && BoxAt(init, i, p) && init[i].box == LastBox(init, p)
                 && forall j :: i < j < n ==> !BoxAt(init, j, p);
        assert BoxAt(rs, i, p) && rs[i].box == LastBox(rs, p);
      }
    }
  }

  /** The box map after appending holds, for every path, exactly the box `LastBox` finds. */
  lemma {:induction false} AddAllBoxes(st: Loaded, rs: seq<Record>, p: string)
    requires st.bboxes == map[]
    ensures p in AddAll(st, rs).bboxes <==> LastBox(rs, p).Some?
    ensures p in AddAll(st, rs).bboxes ==> Some(AddAll(st, rs).bboxes[p]) == LastBox(rs, p)
  {
    if rs != [] {
      AddAllBoxes(st, rs[..|rs| - 1], p);
    }
  }

  /**
   * The box map holds a path exactly when some record gave that path a box,
   * and its box is the one of the last such record: a later line without a
   * box leaves an earlier box in place.
   */
  lemma AddAllBoxesLastWins(rs: seq<Record>)
    ensures var b := AddAll(Empty, rs).bboxes;
      forall p :: p in b <==> exists i :: 0 <= i < |rs| && BoxAt(rs, i, p)
    ensures var b := AddAll(Empty, rs).bboxes;
      forall p :: p in b ==> exists i :: && 0 <= i < |rs| && BoxAt(rs, i, p) && rs[i].box == Some(b[p])
                                         && forall j :: i < j < |rs| ==> !BoxAt(rs, j, p)
  {
    var b := AddAll(Empty, rs).bboxes;
    forall p
      ensures p in b <==> exists i :: 0 <= i < |rs| && BoxAt(rs, i, p)
      ensures p in b ==> exists i :: && 0 <= i < |rs| && BoxAt(rs, i, p) && rs[i].box == Some(b[p])
                                     && forall j :: i < j < |rs| ==> !BoxAt(rs, j, p)
    {
      AddAllBoxes(Empty, rs, p);
      LastBoxSpec(rs, p);
    }
  }

  /** Every path with a box is one of the loaded paths. */
  lemma BoxedPathsAreLoaded(rs: seq<Record>)
    ensures var st := AddAll(Empty, rs);
      forall p :: p in st.bboxes ==> p in st.paths
  {
    AddAllBoxesLastWins(rs);
    AddAllParallelLists(rs);
    var st := AddAll(Empty, rs);
    forall p | p in st.bboxes
      ensures p in st.paths
    {
      var i :| 0 <= i < |rs| && BoxAt(rs, i, p);
      assert st.paths[i] == p;
    }
  }

  /**
   * After a successful load there is one path and one label per line, and
   * they are the first two tokens of that line, in file order.
   */
  lemma LoadParallelLists(lines: seq<string>)
    requires Load(Empty, lines).Success?
    ensures var st := Load(Empty, lines).value;
      && |st.paths| == |lines| && |st.labels| == |lines|
      && forall i :: 0 <= i < |lines| ==>
           && |Tokens(lines[i])| >= 2
           && st.paths[i] == Tokens(lines[i])[0]
           && st.labels[i] == Tokens(lines[i])[1]
  {
    var rs := Collect(ParseEach(lines)).value;
    LoadSucceedsIff(Empty, lines);
    AddAllParallelLists(rs);
    forall i | 0 <= i < |lines|
      ensures |Tokens(lines[i])| >= 2 && rs[i].path == Tokens(lines[i])[0] && rs[i].labelName == Tokens(lines[i])[1]
    {
      ParseLineSpec(lines[i]);
    }
  }

  /** Line `line` has exactly four tokens after path `p`. */
  predicate BoxLine(line: string, p: string) {
    |Tokens(line)| == 6 && Tokens(line)[0] == p
  }

  /** The box of line `line` is `b`: its four trailing tokens are the integers of `b`. */
  predicate BoxOfLine(line: string, b: Box)
    requires |Tokens(line)| == 6
  {
    var t := Tokens(line);
    ParseInt(t[2]) == Some(b.x1) && ParseInt(t[3]) == Some(b.y1)
    && ParseInt(t[4]) == Some(b.x2) && ParseInt(t[5]) == Some(b.y2)
  }

  /** The box map after loading, for one path, in terms of the lines. */
  lemma LoadBoxesAt(lines: seq<string>, p: string)
    requires Load(Empty, lines).Success?
    ensures var b := Load(Empty, lines).value.bboxes;
      p in b <==> exists i :: 0 <= i < |lines| && BoxLine(lines[i], p)
    ensures var b := Load(Empty, lines).value.bboxes;
      p in b ==> exists i :: && 0 <= i < |lines| && BoxLine(lines[i], p) && BoxOfLine(lines[i], b[p])
                             && forall j :: i < j < |lines| ==> !BoxLine(lines[j], p)
  {
    LoadSucceedsIff(Empty, lines);
    var rs := Collect(ParseEach(lines)).value;
    AddAllBoxes(Empty, rs, p);
    LastBoxSpec(rs, p);
    forall i | 0 <= i < |lines|
      ensures BoxAt(rs, i, p) <==> BoxLine(lines[i], p)
      ensures BoxAt(rs, i, p) ==> BoxOfLine(lines[i], rs[i].box.value)
    {
      ParseLineSpec(lines[i]);
    }
  }

  /**
   * A path has a box after loading exactly when some line gives it four
   * trailing tokens, and the box holds the integers of the last such line;
   * lines with another number of trailing tokens add no box.
   */
  lemma LoadBoxesFromLastLine(lines: seq<string>)
    requires Load(Empty, lines).Success?
    ensures var b := Load(Empty, lines).value.bboxes;
      forall p :: p in b <==> exists i :: 0 <= i < |lines| && BoxLine(lines[i], p)
    ensures var b := Load(Empty, lines).value.bboxes;
      forall p :: p in b ==> exists i :: && 0 <= i < |lines| && BoxLine(lines[i], p) && BoxOfLine(lines[i], b[p])
                                         && forall j :: i < j < |lines| ==> !BoxLine(lines[j], p)
  {
    var b := Load(Empty, lines).value.bboxes;
    forall p
      ensures p in b <==> exists i :: 0 <= i < |lines| && BoxLine(lines[i], p)
      ensures p in b ==> exists i :: && 0 <= i < |lines| && BoxLine(lines[i], p) && BoxOfLine(lines[i], b[p])
                                     && forall j :: i < j < |lines| ==> !BoxLine(lines[j], p)
    {
      LoadBoxesAt(lines, p);
    }
  }

  /** The empty line and a line of whitespace alone have one token and fail to load. */
  lemma BlankLineFails(line: string)
    requires forall i :: 0 <= i < |line| ==> IsSpace(line[i])
    ensures ParseLine(line) == Failure(NotEnoughValues(1))
  {
    StripSpec(line);
    assert Split([]) == [[]];
  }

  /** A line without any separator cannot be unpacked into a path and a label. */
  lemma NoSeparatorLineFails(line: string)
    requires NoSep(Strip(line))
    ensures ParseLine(line) == Failure(NotEnoughValues(1))
  {
    SplitNoSep(Strip(line));
  }

  /** A file holding a blank line does not load, wherever the line is. */
  lemma FileWithBlankLineFails(lines: seq<string>, i: nat)
    requires i < |lines| && forall k :: 0 <= k < |lines[i]| ==> IsSpace(lines[i][k])
    ensures Load(Empty, lines).Failure?
  {
    BlankLineFails(lines[i]);
    LoadSucceedsIff(Empty, lines);
  }
}
