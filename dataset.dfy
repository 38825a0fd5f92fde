/**
 * `BaseDataSet`: reads an index file into parallel path and label lists and
 * a box map, groups the entries by label, and answers length, summary and
 * item queries. Reading and decoding images and running the transforms are
 * outside the model; an item query answers with what it would hand to them.
 */
module Dataset {
  import opened Results
  import opened PyText
  import opened PyInt
  import opened IndexFile
  import opened LabelIndex

  /**
   * What `__getitem__` does for one index: read the image at `path` in
   * `mode`, crop it to `crop` when there is one, run the transforms when
   * `transformed`, and return the result with `labelName`.
   */
  datatype Fetch = Fetch(path: string, mode: string, crop: Option<Box>, transformed: bool, labelName: string)

  /** `IndexError` raised by `list.__getitem__`. */
  datatype IndexError = IndexOutOfRange(index: int)

  /** The box as the Python list `[x1, y1, x2, y2]` that `bboxes` stores. */
  function BoxList(b: Box): seq<int> {
    [b.x1, b.y1, b.x2, b.y2]
  }

  /** `dict.get`: the value of `k`, or `None`. */
  function Get(m: map<string, Box>, k: string): Option<Box> {
    if k in m then Some(m[k]) else None
  }

  /** The text of `__str__` for the three counts it prints. */
  function Summary(datasize: int, numLabels: int, bbox: int): string {
    "| Dataset Info |datasize: " + FormatInt(datasize) + "|num_labels: " + FormatInt(numLabels)
      + "| bbox: " + FormatInt(bbox) + " |"
  }

  class BaseDataSet {
    var mode: string
    var hasTransforms: bool   // whether `transforms` is not None; the callable itself is opaque
    var imgSource: string
    var labelList: seq<string>
    var pathList: seq<string>
    var bboxes: map<string, Box>
    var labelIndexDict: Grouping

    /** The state construction leaves: parallel lists, boxes only for known paths, the grouping of the labels. */
    ghost predicate Valid()
      reads this
    {
      && |pathList| == |labelList|
      && (forall p :: p in bboxes ==> p in pathList)
      && labelIndexDict == GroupingOf(labelList)
    }

    /** The three collections `_load_data` fills. */
    function Snapshot(): Loaded
      reads this
    {
      Loaded(pathList, labelList, bboxes)
    }

    /** The field initialisation of `__init__`, before the file is read. */
    constructor (imgSource: string, hasTransforms: bool, mode: string)
      ensures this.imgSource == imgSource && this.hasTransforms == hasTransforms && this.mode == mode
      ensures Snapshot() == Empty && labelIndexDict == Grouping([], map[])
      ensures Valid()
    {
      this.mode := mode;
      this.hasTransforms := hasTransforms;
      this.imgSource := imgSource;
      labelList := [];
      pathList := [];
      bboxes := map[];
      labelIndexDict := Grouping([], map[]);
    }

    /**
     * `__init__`: the index file must exist in `fs` (the file system, path to
     * lines); its lines are loaded and the labels grouped. An exception
     * raised on the way is the `Failure`.
     */
    static method Open(fs: map<string, seq<string>>, imgSource: string, hasTransforms: bool, mode: string)
      returns (r: Result<BaseDataSet, LoadError>)
      ensures imgSource !in fs ==> r == Failure(SourceNotFound(imgSource))
      ensures imgSource in fs ==> (r.Success? <==> Load(Empty, fs[imgSource]).Success?)
      ensures imgSource in fs && r.Failure? ==> Load(Empty, fs[imgSource]) == Failure(r.error)
      ensures r.Success? ==>
        && fresh(r.value) && r.value.Valid()
        && r.value.Snapshot() == Load(Empty, fs[imgSource]).value
        && r.value.imgSource == imgSource && r.value.hasTransforms == hasTransforms && r.value.mode == mode
    {
      if imgSource !in fs {
        return Failure(SourceNotFound(imgSource));
      }
      var ds := new BaseDataSet(imgSource, hasTransforms, mode);
      var err := ds.LoadData(fs[imgSource]);
      if err.Some? {
        return Failure(err.value);
      }
      var g := ds.BuildLabelIndexDict();
      ds.labelIndexDict := g;
      LoadParallelLists(fs[imgSource]);
      LoadSucceedsIff(Empty, fs[imgSource]);
      BoxedPathsAreLoaded(Collect(ParseEach(fs[imgSource])).value);
      return Success(ds);
    }

    /**
     * `_load_data` over the lines of the index file: each line appends its
     * path and label and, with four trailing tokens, sets the box of its
     * path. The first line that cannot be unpacked or whose box is not
     * integers stops the load with that error.
     */
    method LoadData(lines: seq<string>) returns (err: Option<LoadError>)
      modifies this`pathList, this`labelList, this`bboxes
      ensures err.None? <==> Load(old(Snapshot()), lines).Success?
      ensures err.Some? ==> Load(old(Snapshot()), lines) == Failure(err.value)
      ensures err.None? ==> Snapshot() == Load(old(Snapshot()), lines).value
    {
      ghost var start := Snapshot();
      ghost var ps := ParseEach(lines);
      ghost var recs: seq<Record> := [];
      var i := 0;
      while i < |lines|
        invariant 0 <= i <= |lines|
        invariant Collect(ps[..i]) == Success(recs)
        invariant Snapshot() == AddAll(start, recs)
      {
        assert ps[i] == ParseLine(lines[i]);
        var toks := Split(Strip(lines[i]));
        if |toks| < 2 {
          err := Some(NotEnoughValues(|toks|));
          CollectStepFails(ps, i, recs);
          return;
        }
        var path, labelName, rest := toks[0], toks[1], toks[2..];
        pathList := pathList + [path];
        labelList := labelList + [labelName];
        if |rest| == 4 {
          var vs := ParseInts(rest);
          if vs.Failure? {
            err := Some(vs.error);
            CollectStepFails(ps, i, recs);
            return;
          }
          bboxes := bboxes[path := Box(vs.value[0], vs.value[1], vs.value[2], vs.value[3])];
        }
        CollectStep(ps, i, recs);
        AddAllStep(start, recs, ps[i].value);
        recs := recs + [ps[i].value];
        i := i + 1;
      }
      assert ps[..i] == ps;
      err := None;
    }

    /**
     * `_build_label_index_dict`: one pass over the labels; a label seen for
     * the first time gets an empty list (the `defaultdict`), then its index
     * is appended.
     */
    method BuildLabelIndexDict() returns (g: Grouping)
      ensures g == GroupingOf(labelList)
    {
      var keys: seq<string> := [];
      var lists: map<string, seq<nat>> := map[];
      for i := 0 to |labelList|
        invariant keys == FirstOccurrences(labelList[..i])
        invariant lists == GroupingOf(labelList[..i]).lists
      {
        var labelName := labelList[i];
        GroupingSnoc(labelList[..i + 1]);
        assert labelList[..i + 1][..i] == labelList[..i];
        if labelName !in lists {
          keys := keys + [labelName];
          lists := lists[labelName := []];
        }
        lists := lists[labelName := lists[labelName] + [i]];
      }
      assert labelList[..|labelList|] == labelList;
      g := Grouping(keys, lists);
    }

    /** `__len__`: the number of entries. */
    function Length(): (n: nat)
      reads this
      requires Valid()
      ensures n == |pathList| && n == |labelList|
    {
      |labelList|
    }

    /**
     * `__getitem__` without the image work: Python list indexing (negative
     * indices count from the end), the label at that index, and a crop
     * exactly when the path has a recorded box, since a four-element list is
     * always truthy.
     */
    function GetItem(index: int): (r: Result<Fetch, IndexError>)
      reads this
      requires Valid()
      ensures r.Success? <==> -|labelList| <= index < |labelList|
      ensures r.Failure? ==> r.error == IndexOutOfRange(index)
      ensures r.Success? ==>
        var k := if index < 0 then index + |labelList| else index;
        && r.value.labelName == labelList[k] && r.value.path == pathList[k]
        && r.value.crop == (if pathList[k] in bboxes then Some(bboxes[pathList[k]]) else None)
        && r.value.mode == mode && r.value.transformed == hasTransforms
    {
      if !(-|pathList| <= index < |pathList|) then Failure(IndexOutOfRange(index))
      else
        var k := if index < 0 then index + |pathList| else index;
        var path := pathList[k];
        var labelName := labelList[k];
        var box := Get(bboxes, path);
        var crop := if |bboxes| > 0 && box.Some? && |BoxList(box.value)| > 0 then box else None;
        Success(Fetch(path, mode, crop, hasTransforms, labelName))
    }

    /** `__str__` (and `__repr__`): "num_labels" is the entry count, the same number as "datasize". */
    function Str(): (s: string)
      reads this
      requires Valid()
      ensures s == Summary(|pathList|, |pathList|, |bboxes|)
    {
      Summary(Length(), |labelList|, |bboxes|)
    }
  }

  /** The records a successful load of `lines` appended, one per line. */
  function LoadedRecords(lines: seq<string>): seq<Record>
    requires Load(Empty, lines).Success?
  {
    Collect(ParseEach(lines)).value
  }

  /**
   * Item `i` of a dataset loaded from `lines` reads the path of line `i`,
   * returns its label, and crops to the box of the last line that gave that
   * path a box, if any line did.
   */
  lemma ItemOfLine(ds: BaseDataSet, lines: seq<string>, i: int)
    requires Load(Empty, lines).Success? && ds.Valid() && ds.Snapshot() == Load(Empty, lines).value
    requires 0 <= i < |lines|
    ensures ds.GetItem(i).Success? && |Tokens(lines[i])| >= 2
    ensures ds.GetItem(i).value.path == Tokens(lines[i])[0]
    ensures ds.GetItem(i).value.labelName == Tokens(lines[i])[1]
    ensures ds.GetItem(i).value.crop == LastBox(LoadedRecords(lines), Tokens(lines[i])[0])
  {
    LoadParallelLists(lines);
    LoadSucceedsIff(Empty, lines);
    AddAllBoxes(Empty, LoadedRecords(lines), Tokens(lines[i])[0]);
  }

  /** `__len__` of a dataset loaded from `lines` is the number of lines. */
  lemma LengthIsLineCount(ds: BaseDataSet, lines: seq<string>)
    requires Load(Empty, lines).Success? && ds.Valid() && ds.Snapshot() == Load(Empty, lines).value
    ensures ds.Length() == |lines|
    ensures ds.Str() == Summary(|lines|, |lines|, |ds.bboxes|)
  {
    LoadParallelLists(lines);
  }

  /**
   * The summary's "num_labels" is the entry count: it equals the number of
   * keys of the label grouping exactly when no label repeats.
   */
  lemma NumLabelsIsDistinctCountIffNoRepeat(ds: BaseDataSet)
    requires ds.Valid()
    ensures |ds.labelIndexDict.keys| <= ds.Length()
    ensures |ds.labelIndexDict.keys| == ds.Length() <==> Distinct(ds.labelList)
  {
    FirstOccurrencesSpec(ds.labelList);
    KeyCountIsEntryCountIffDistinct(ds.labelList);
  }
}
