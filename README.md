# BaseDataSet index-file model

A Dafny model of `BaseDataSet`, the dataset adapter of `ret_benchmark`. It
reads an index file whose lines have the form `path label [x1 y1 x2 y2]`, with
fields separated by a single comma or a single space. It keeps the paths and
labels as two parallel lists and the optional boxes as a map from path to box.
It groups the entry indices by label, and it answers length, summary and
item queries.

Modules, one file each:

- `Results` (`results.dfy`): `Option` and `Result`.
- `PyText` (`pytext.dfy`): Python's `str.strip()` and `re.split(r",| ", s)`.
  Splitting is proved to be the inverse of joining, in both directions.
- `PyInt` (`pyint.dfy`): Python's `int()` on a token and `str()` of an
  integer, with `int(str(n)) == n` proved. `int()` skips a smaller set of
  whitespace than `str.strip()`: the ASCII separators `\x1c` to `\x1f` are
  stripped from a line but make `int()` raise.
- `IndexFile` (`index_file.dfy`): the specification of `_load_data`. It says
  how one line becomes a record, which lines make the load fail, and what the
  lists and the box map hold after a whole file.
- `LabelIndex` (`label_index.dfy`): the specification of
  `_build_label_index_dict`. The result is a key order, which Python's dict
  keeps as first-insertion order, plus the index list of each key.
- `Dataset` (`dataset.dfy`): the class `BaseDataSet`. `Open` models
  `__init__`. `LoadData` and `BuildLabelIndexDict` are the two loops, each
  proved against its specification function. `Length`, `GetItem` and `Str`
  model `__len__`, `__getitem__` and `__str__`.
- `Example` (`example.dfy`): a three-line index file whose load and grouping
  are computed in full.

The file system is a parameter: a map from file name to the lines that
iterating the open file yields. An exception raised during construction is a
`Failure` of `Open`. The modelled exceptions are the failed existence assertion, an
unpacking of fewer than two tokens, and `int()` on a token that is not an
integer.

The model follows the code as written, including these easily missed
behaviours:

- Every line is parsed, including blank ones. A blank line splits to `[""]`,
  so it cannot be unpacked, and the load fails.
- Only a single `,` or a single space separates fields. A run of separators
  gives empty tokens, and a tab inside a line is part of a token.
- `__getitem__` accepts negative indices, as Python lists do. Any index in
  `-N .. N-1` is valid.
- A missing index file fails the `assert` of `__init__`.
- "num_labels" in the summary is `len(label_list)`, the entry count.
  `NumLabelsIsDistinctCountIffNoRepeat` proves it equals the number of
  distinct labels exactly when no label repeats.

## Model

| member | source | states |
|---|---|---|
| PyText.Split | ret_benchmark/data/datasets/base_dataset.py:47 | splitting on every `,` and every space gives one more token than `s` has separators, and no token contains `,` or a space |
| PyText.JoinSplit | ret_benchmark/data/datasets/base_dataset.py:47 | joining the tokens with the separators found in `s`, in order, gives back `s` |
| PyText.SplitJoin | ret_benchmark/data/datasets/base_dataset.py:47 | separator-free tokens joined by separators split back into the same tokens and separators |
| PyText.SplitNoSep | ret_benchmark/data/datasets/base_dataset.py:47 | a string with no separator splits into itself alone |
| PyText.TrimLeftSpec | ret_benchmark/data/datasets/base_dataset.py:47 | dropping leading whitespace keeps a suffix, drops only `str.isspace` characters and stops at a non-space |
| PyText.TrimRightSpec | ret_benchmark/data/datasets/base_dataset.py:47 | dropping trailing whitespace keeps a prefix, drops only whitespace and stops at a non-space |
| PyText.Strip | ret_benchmark/data/datasets/base_dataset.py:47 | `line.strip()`: whitespace in the `str.isspace` sense is dropped from both ends; its meaning is given by `StripSpec` |
| PyText.StripSpec | ret_benchmark/data/datasets/base_dataset.py:47 | `line.strip()` is the slice of the line between whitespace-only ends, and it has no whitespace at either end |
| PyText.StripStripped | ret_benchmark/data/datasets/base_dataset.py:47 | `strip()` leaves a string without whitespace at its ends unchanged |
| PyText.StripIdempotent | ret_benchmark/data/datasets/base_dataset.py:47 | stripping twice is stripping once |
| PyInt.ParseInt | ret_benchmark/data/datasets/base_dataset.py:51 | `int(v)`: after skipping `int()` whitespace, an optional sign and a digit part with single underscores between digits; anything else is the `ValueError` (`None`) |
| PyInt.IntTrimLeftSpec | ret_benchmark/data/datasets/base_dataset.py:51 | `int()` skips a leading run of its own whitespace, which leaves out `\x1c` to `\x1f`, and stops at the first character it does not skip |
| PyInt.IntTrimRightSpec | ret_benchmark/data/datasets/base_dataset.py:51 | the same at the end of the token |
| PyInt.IntStripSpec | ret_benchmark/data/datasets/base_dataset.py:51 | the literal `int()` reads is the slice of the token between runs of its whitespace, and neither of its ends is such whitespace |
| PyInt.IntStripKeeps | ret_benchmark/data/datasets/base_dataset.py:51 | a token whose ends `int()` does not skip is read as it stands |
| PyInt.FileSeparatorIsNotIntSpace | ret_benchmark/data/datasets/base_dataset.py:47-51 | `\x1c` is stripped from the ends of a line but not skipped by `int()`: `int("\x1c1")` raises |
| PyInt.FormatInt | ret_benchmark/data/datasets/base_dataset.py:42 | the integer formatting of the f-string: a `-` for negative numbers, then the digits of the magnitude; `ParseFormatInt` is its inverse |
| PyInt.FormatNat | ret_benchmark/data/datasets/base_dataset.py:42 | `str(n)` of a natural number is a non-empty string of decimal digits with no leading zero |
| PyInt.DigitsValueFormatNat | ret_benchmark/data/datasets/base_dataset.py:42 | the digits `str(n)` prints have the value `n` |
| PyInt.ParseFormatInt | ret_benchmark/data/datasets/base_dataset.py:51 | `int(str(n)) == n` for every integer, negative ones included |
| PyInt.ParseIntBlank | ret_benchmark/data/datasets/base_dataset.py:51 | `int()` of an empty or all-whitespace token is an error |
| IndexFile.Tokens | ret_benchmark/data/datasets/base_dataset.py:47 | a stripped line always splits into at least one token |
| IndexFile.ParseInts | ret_benchmark/data/datasets/base_dataset.py:51 | a successful `[int(v) for v in _rest]` has one value per token |
| IndexFile.ParseIntsSpec | ret_benchmark/data/datasets/base_dataset.py:51 | the comprehension succeeds iff every token is an integer, then holds their values in order, and otherwise reports the first bad token |
| IndexFile.ParseLineSpec | ret_benchmark/data/datasets/base_dataset.py:47-51 | a line is a record iff it has at least two tokens and, when four more follow, they are all integers; fewer than two tokens raise the unpacking error; path and label are tokens 0 and 1; the box exists iff there are exactly six tokens and holds the values of tokens 2-5 |
| IndexFile.ParseLine | ret_benchmark/data/datasets/base_dataset.py:47-51 | the body of the loop for one line: strip, split, unpack into path, label and the rest, and parse a four-token rest as the box; `ParseLineSpec` characterises it |
| IndexFile.Add | ret_benchmark/data/datasets/base_dataset.py:48-51 | one record appends its path and label and, when it has a box, assigns `bboxes[path]` |
| IndexFile.Load | ret_benchmark/data/datasets/base_dataset.py:44-51 | `_load_data`: the first line that raises is the error, otherwise all records are added in file order; `LoadSucceedsIff` and the lemmas after it characterise it |
| IndexFile.Collect | ret_benchmark/data/datasets/base_dataset.py:46-51 | a loop over lines that completes yields one record per line |
| IndexFile.CollectFailureSticks | ret_benchmark/data/datasets/base_dataset.py:46-51 | once a line has raised, the loop ends with that exception whatever the later lines are |
| IndexFile.CollectSucceeds | ret_benchmark/data/datasets/base_dataset.py:46-51 | the loop completes iff every line parses, and record `i` is the parse of line `i` |
| IndexFile.CollectFailsAtFirst | ret_benchmark/data/datasets/base_dataset.py:46-51 | a failed loop reports the exception of the first line that raised, all earlier lines having parsed |
| IndexFile.LoadSucceedsIff | ret_benchmark/data/datasets/base_dataset.py:44-51 | loading succeeds iff every line parses, and then the collections are the records of the lines added in file order |
| IndexFile.LoadFailsAtFirstBadLine | ret_benchmark/data/datasets/base_dataset.py:44-51 | a failed load raises the error of the first line that does not parse |
| IndexFile.AddAllParallelLists | ret_benchmark/data/datasets/base_dataset.py:48-49 | after appending, `path_list` and `label_list` have one entry per record, and entry `i` is record `i`'s path and label |
| IndexFile.LastBoxSpec | ret_benchmark/data/datasets/base_dataset.py:50-51 | the last record that gives a path a box exists iff some record does, and no later record gives that path a box |
| IndexFile.AddAllBoxes | ret_benchmark/data/datasets/base_dataset.py:50-51 | the box map holds a path iff some record gave it a box, and then holds the box of the last such record |
| IndexFile.AddAllBoxesLastWins | ret_benchmark/data/datasets/base_dataset.py:50-51 | for all paths at once: a box overwrites an earlier box of its path, and a record without a box leaves it in place |
| IndexFile.BoxedPathsAreLoaded | ret_benchmark/data/datasets/base_dataset.py:48-51 | every key of `bboxes` occurs in `path_list` |
| IndexFile.LoadParallelLists | ret_benchmark/data/datasets/base_dataset.py:46-49 | after a load, both lists have one entry per line, and entry `i` is the first or second token of line `i` |
| IndexFile.LoadBoxesAt | ret_benchmark/data/datasets/base_dataset.py:46-51 | one path has a box after a load iff some line gives it four trailing tokens; the box holds the integers of the last such line |
| IndexFile.LoadBoxesFromLastLine | ret_benchmark/data/datasets/base_dataset.py:46-51 | the same for all paths: lines with any other number of trailing tokens add no box |
| IndexFile.BlankLineFails | ret_benchmark/data/datasets/base_dataset.py:47 | an empty or all-whitespace line raises the unpacking error with one value |
| IndexFile.NoSeparatorLineFails | ret_benchmark/data/datasets/base_dataset.py:47 | a line with no `,` or space between its whitespace ends raises the unpacking error |
| IndexFile.FileWithBlankLineFails | ret_benchmark/data/datasets/base_dataset.py:46-47 | a file with an empty or all-whitespace line anywhere, such as `"\n"`, does not load |
| LabelIndex.GroupingOf | ret_benchmark/data/datasets/base_dataset.py:53-57 | the result of `_build_label_index_dict`: labels in order of first appearance, each with the list of its indices; `GroupingSpec`, `Partition` and `KeysInFirstAppearanceOrder` characterise it |
| LabelIndex.IndicesOfMembers | ret_benchmark/data/datasets/base_dataset.py:55-56 | the list of label `l` holds exactly the indices whose label is `l` |
| LabelIndex.IndicesOfIncreasing | ret_benchmark/data/datasets/base_dataset.py:55-56 | each list is strictly increasing, because indices are appended in enumeration order |
| LabelIndex.IndicesOfSpec | ret_benchmark/data/datasets/base_dataset.py:55-56 | both facts about a list, and a label that never occurs has the empty list |
| LabelIndex.FirstOccurrencesSpec | ret_benchmark/data/datasets/base_dataset.py:54-56 | the dict's keys are the distinct labels, each once, and there are at most as many as entries |
| LabelIndex.KeyOrderAt | ret_benchmark/data/datasets/base_dataset.py:54-56 | for two key positions `a < b`, the first index of key `a` is below the first index of key `b` |
| LabelIndex.KeysInFirstAppearanceOrder | ret_benchmark/data/datasets/base_dataset.py:54-56 | the keys come in the order their labels first appear |
| LabelIndex.LastNewLabel | ret_benchmark/data/datasets/base_dataset.py:55-56 | an entry with a new label gets a one-element list, after the first index of every earlier label |
| LabelIndex.PrefixKeepsFirst | ret_benchmark/data/datasets/base_dataset.py:55-56 | a later entry does not change the first index of an earlier label |
| LabelIndex.Partition | ret_benchmark/data/datasets/base_dataset.py:53-57 | the lists partition `0..N-1`: each index is in its own label's list and in no other list |
| LabelIndex.GroupingSpec | ret_benchmark/data/datasets/base_dataset.py:53-57 | keys and map domain are exactly the distinct labels; keys are distinct; each list is strictly increasing and holds exactly the indices carrying its key |
| LabelIndex.GroupingSnoc | ret_benchmark/data/datasets/base_dataset.py:55-56 | one more entry appends its index to its label's list and creates the list if the label is new, as `defaultdict(list)` does |
| LabelIndex.KeyCountIsEntryCountIffDistinct | ret_benchmark/data/datasets/base_dataset.py:53-57 | there are as many keys as entries iff no label repeats |
| Dataset.Summary | ret_benchmark/data/datasets/base_dataset.py:42 | the text of the f-string of `__str__` for given datasize, num_labels and bbox counts |
| Dataset.BaseDataSet.constructor | ret_benchmark/data/datasets/base_dataset.py:22-31 | the fields `__init__` sets before loading: mode, transforms, source, and empty collections, a valid state |
| Dataset.BaseDataSet.Open | ret_benchmark/data/datasets/base_dataset.py:22-33 | a missing index file fails with its name; otherwise construction succeeds iff the lines load, and a failure returns the load's error; a new dataset holds what loading the file gives and its grouping, with the given mode and transforms |
| Dataset.BaseDataSet.LoadData | ret_benchmark/data/datasets/base_dataset.py:44-51 | the loop succeeds iff `Load` of the lines succeeds, fails with the same error, and on success leaves exactly `Load`'s collections; other fields are unchanged |
| Dataset.BaseDataSet.BuildLabelIndexDict | ret_benchmark/data/datasets/base_dataset.py:53-57 | the loop returns exactly `GroupingOf(label_list)`: keys in first-insertion order and each label's index list |
| Dataset.BaseDataSet.Length | ret_benchmark/data/datasets/base_dataset.py:35-36 | `__len__` is the length of both parallel lists |
| Dataset.BaseDataSet.GetItem | ret_benchmark/data/datasets/base_dataset.py:59-67 | item access succeeds iff `-N <= index < N`, otherwise raises with that index; it returns the label at the resolved index and reads that path in the dataset's mode; it crops to `bboxes[path]` iff the path has a box; it transforms iff transforms are set |
| Dataset.BaseDataSet.Str | ret_benchmark/data/datasets/base_dataset.py:38-42 | the summary prints the entry count as both "datasize" and "num_labels", plus the number of boxes |
| Dataset.ItemOfLine | ret_benchmark/data/datasets/base_dataset.py:59-67 | item `i` of a loaded dataset returns the second token of line `i`, reads its first token, and crops to the box of the last line that boxed that path |
| Dataset.LengthIsLineCount | ret_benchmark/data/datasets/base_dataset.py:35-42 | a dataset loaded from `N` lines has length `N`, and its summary prints `N` twice |
| Dataset.NumLabelsIsDistinctCountIffNoRepeat | ret_benchmark/data/datasets/base_dataset.py:42 | the number of keys of `label_index_dict` is at most the number printed as "num_labels", and equals it iff no label repeats |
| Example.FirstLine | ret_benchmark/data/datasets/base_dataset.py:47-49 | `a.jpg,cat` is the record of path `a.jpg` with label `cat` and no box |
| Example.SecondLine | ret_benchmark/data/datasets/base_dataset.py:47-51 | `b.jpg,dog,10,10,50,50` is the record of `b.jpg` with label `dog` and box `[10, 10, 50, 50]` |
| Example.ThreeLineFile | ret_benchmark/data/datasets/base_dataset.py:44-51 | the lines `a.jpg,cat`, `b.jpg,dog,10,10,50,50`, `a.jpg,cat` load as three entries with one box, for `b.jpg` |
| Example.ThreeLineGrouping | ret_benchmark/data/datasets/base_dataset.py:53-57 | the labels `cat`, `dog`, `cat` group as `cat: [0, 2]` and `dog: [1]`, with `cat` the first key |

## Left out

- File I/O: opening and iterating the index file is a map from file name to
  the lines iteration yields. A trailing `"\n"` is whitespace, so `strip()`
  removes it. Other errors of the file system are not modelled: `open()`
  raising on an existing path, such as `IsADirectoryError` when `img_source`
  is a directory (`os.path.exists` is true for it); `UnicodeDecodeError`
  while iterating the lines; and, under `python -O`, the `assert` of
  `__init__` is removed, so a missing file makes `open` raise
  `FileNotFoundError` instead.
- `os.path.dirname` and `os.path.join`: `root` is not modelled. An item's
  `path` is the path as stored, relative to the index file's directory.
- `read_image`, PIL's `crop` and the `transforms` callable are foreign calls.
  An item is a `Fetch` record: the path and mode passed to the reader, the box
  passed to `crop` (if any), whether the transform runs, and the label. The
  image itself, its size after cropping, and errors raised while reading it
  are not modelled.
- PyInt.ParseInt: Python's `int()` also accepts Unicode decimal digits; the
  model accepts only ASCII digits, with an optional sign, single underscores
  between digits and surrounding `int()` whitespace.
- PyInt.ParseInt: from Python 3.11 on, `int()` raises on a literal of more
  than 4300 digits (`sys.int_info.default_max_str_digits`); the model has no
  such limit, as in earlier versions. The same limit on `str()` of a huge
  count in `__str__` is not modelled either.
- The `torch.utils.data.Dataset` base class and concurrent reads by data
  loader workers are not modelled. Nothing changes after construction.
- The default `mode="RGB"` and `transforms=None`: callers of `Open` pass both
  explicitly, and transforms are reduced to whether they are present.
- `__repr__` returns `__str__`; `Str` models both.
- Iteration order of `bboxes` is not modelled, since nothing in the class
  iterates it; it is a map.
- Dataset.BaseDataSet.LoadData: when a line raises, the contract gives the
  error but not the partly filled lists. Python loses them with the
  half-built object, and `Open` never returns a dataset in that state.
- Dataset.BaseDataSet.GetItem: returns what would be fetched, not the image;
  see `read_image` above.
