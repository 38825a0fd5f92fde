/** The worked example of an index file with three lines. */
module Example {
  import opened Results
  import opened PyText
  import opened PyInt
  import opened IndexFile
  import opened LabelIndex

  /** A line made of separator-free tokens, with no whitespace at its ends, splits into them. */
  lemma TokensOfJoin(line: string, ts: seq<string>, seps: seq<char>)
    requires |ts| == |seps| + 1
    requires forall k :: 0 <= k < |ts| ==> NoSep(ts[k])
    requires forall k :: 0 <= k < |seps| ==> IsSep(seps[k])
    requires Join(ts, seps) == line && Stripped(line)
    ensures Tokens(line) == ts
  {
    StripStripped(line);
    SplitJoin(ts, seps);
  }

  /** `a.jpg,cat` is the record of `a.jpg` labelled `cat`, without a box. */
  lemma FirstLine(line: string)
    requires line == "a.jpg,cat"
    ensures ParseLine(line) == Success(Record("a.jpg", "cat", None))
  {
    assert Join(["a.jpg", "cat"], [',']) == line;
    TokensOfJoin(line, ["a.jpg", "cat"], [',']);
  }

  /** `b.jpg,dog,10,10,50,50` has six tokens: path, label and four numbers. */
  lemma SecondLineTokens(line: string)
    requires line == "b.jpg,dog,10,10,50,50"
    ensures Tokens(line) == ["b.jpg", "dog", "10", "10", "50", "50"]
  {
    var t := ["b.jpg", "dog", "10", "10", "50", "50"];
    var seps := [',', ',', ',', ',', ','];
    assert Join(t[5..], seps[5..]) == "50";
    assert Join(t[4..], seps[4..]) == "50,50";
    assert Join(t[3..], seps[3..]) == "10,50,50";
    assert Join(t[2..], seps[2..]) == "10,10,50,50";
    assert Join(t[1..], seps[1..]) == "dog,10,10,50,50";
    assert Join(t, seps) == line;
    TokensOfJoin(line, t, seps);
  }

  /** `10` and `50` are integer literals. */
  lemma BoxNumbers()
    ensures ParseInt("10") == Some(10) && ParseInt("50") == Some(50)
  {
    assert FormatInt(10) == "10" && FormatInt(50) == "50";
    ParseFormatInt(10);
    ParseFormatInt(50);
  }

  /** A line of six tokens whose last four are integers is a record with that box. */
  lemma BoxedLine(line: string, x1: int, y1: int, x2: int, y2: int)
    requires |Tokens(line)| == 6
    requires ParseInt(Tokens(line)[2]) == Some(x1) && ParseInt(Tokens(line)[3]) == Some(y1)
    requires ParseInt(Tokens(line)[4]) == Some(x2) && ParseInt(Tokens(line)[5]) == Some(y2)
    ensures ParseLine(line) == Success(Record(Tokens(line)[0], Tokens(line)[1], Some(Box(x1, y1, x2, y2))))
  {
    ParseLineSpec(line);
  }

  /** `b.jpg,dog,10,10,50,50` is the record of `b.jpg` labelled `dog` with box `[10, 10, 50, 50]`. */
  lemma SecondLine(line: string)
    requires line == "b.jpg,dog,10,10,50,50"
    ensures ParseLine(line) == Success(Record("b.jpg", "dog", Some(Box(10, 10, 50, 50))))
  {
    SecondLineTokens(line);
    BoxNumbers();
    BoxedLine(line, 10, 10, 50, 50);
  }

  /** Three records, the first repeated last, load in order with the second one's box. */
  lemma LoadThree(lines: seq<string>, r0: Record, r1: Record)
    requires |lines| == 3 && lines[0] == lines[2]
    requires ParseLine(lines[0]) == Success(r0) && ParseLine(lines[1]) == Success(r1)
    ensures Load(Empty, lines) == Success(AddAll(Empty, [r0, r1, r0]))
  {
    var ps := ParseEach(lines);
    assert ps == [Success(r0), Success(r1), Success(r0)];
    CollectThree(ps, r0, r1);
  }

  /** Collecting three successes gives their three records. */
  lemma CollectThree(ps: seq<Result<Record, LoadError>>, r0: Record, r1: Record)
    requires ps == [Success(r0), Success(r1), Success(r0)]
    ensures Collect(ps) == Success([r0, r1, r0])
  {
    var p1, p2 := ps[..1], ps[..2];
    assert p1[..0] == [] && p2[..1] == p1 && ps[..2] == p2;
    assert Collect(p1[..0]) == Success([]);
    assert p1[0] == Success(r0);
    assert Collect(p1) == Success([] + [r0]);
    assert [] + [r0] == [r0];
    assert p2[1] == Success(r1);
    assert Collect(p2) == Success([r0] + [r1]);
    assert [r0] + [r1] == [r0, r1];
    assert ps[..|ps| - 1] == p2 && ps[|ps| - 1] == Success(r0);
    assert Collect(ps) == Success([r0, r1] + [r0]);
    assert [r0, r1] + [r0] == [r0, r1, r0];
  }

  /** The three records of the file, added to the empty state. */
  lemma AddThree(r0: Record, r1: Record)
    requires r0 == Record("a.jpg", "cat", None)
    requires r1 == Record("b.jpg", "dog", Some(Box(10, 10, 50, 50)))
    ensures AddAll(Empty, [r0, r1, r0])
         == Loaded(["a.jpg", "b.jpg", "a.jpg"], ["cat", "dog", "cat"], map["b.jpg" := Box(10, 10, 50, 50)])
  {
    var rs := [r0, r1, r0];
    assert rs[..2][..1] == [r0] && rs[..3][..2] == [r0, r1] && rs[..1][..0] == [];
    assert AddAll(Empty, [r0]) == Loaded(["a.jpg"], ["cat"], map[]);
    assert AddAll(Empty, [r0, r1]) == Loaded(["a.jpg", "b.jpg"], ["cat", "dog"], map["b.jpg" := Box(10, 10, 50, 50)]);
  }

  /**
   * `a.jpg,cat`, `b.jpg,dog,10,10,50,50`, `a.jpg,cat`: three entries, and
   * one box, for `b.jpg`.
   */
  lemma ThreeLineFile(lines: seq<string>)
    requires lines == ["a.jpg,cat", "b.jpg,dog,10,10,50,50", "a.jpg,cat"]
    ensures Load(Empty, lines)
         == Success(Loaded(["a.jpg", "b.jpg", "a.jpg"], ["cat", "dog", "cat"], map["b.jpg" := Box(10, 10, 50, 50)]))
  {
    var r0 := Record("a.jpg", "cat", None);
    var r1 := Record("b.jpg", "dog", Some(Box(10, 10, 50, 50)));
    FirstLine(lines[0]);
    SecondLine(lines[1]);
    LoadThree(lines, r0, r1);
    AddThree(r0, r1);
  }

  /** The labels `cat`, `dog`, `cat` group as `cat: [0, 2]`, `dog: [1]`, `cat` first. */
  lemma ThreeLineGrouping()
    ensures GroupingOf(["cat", "dog", "cat"]) == Grouping(["cat", "dog"], map["cat" := [0, 2], "dog" := [1]])
  {
    var labels := ["cat", "dog", "cat"];
    var l1, l2 := labels[..1], labels[..2];
    assert l1 == ["cat"] && l2 == ["cat", "dog"];
    assert l2[..1] == l1 && labels[..2] == l2 && l1[..0] == [];
    assert FirstOccurrences(l1) == ["cat"];
    assert FirstOccurrences(l2) == ["cat", "dog"];
    assert FirstOccurrences(labels) == ["cat", "dog"];
    assert IndicesOf(l1, "cat") == [0] && IndicesOf(l1, "dog") == [];
    assert IndicesOf(l2, "cat") == [0] && IndicesOf(l2, "dog") == [1];
    assert IndicesOf(labels, "cat") == [0, 2];
    assert IndicesOf(labels, "dog") == [1];
  }
}
