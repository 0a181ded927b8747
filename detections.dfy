/** The counting half of `photoInferenceAndGetInferenceResults`: the label
    file the detector leaves for the image is read, and the rows of class 0
    (person) and class 56 (chair) are counted. The file is modelled as the
    rows pandas would read from it, one per detection. */
module Detections {
  import opened Wrappers
  import LabelPaths

  /** One whitespace-separated row `class x y w h` of a label file. */
  datatype LabelRow = LabelRow(classId: int, x: real, y: real, w: real, h: real)

  /** What `labels_filepath.is_file()` finds. */
  datatype LabelFile = Missing | Found(rows: seq<LabelRow>)

  /** `pd.read_csv` raises EmptyDataError on a file with no rows; nothing in
      the function catches it. */
  datatype ReadError = EmptyLabelFile

  const PersonClass: int := 0
  const ChairClass: int := 56

  /** The label file at `path` among the files under the labels directory. */
  function LabelFileAt(files: map<string, seq<LabelRow>>, path: string): (f: LabelFile)
    ensures f.Found? <==> path in files
    ensures f.Found? ==> f.rows == files[path]
  {
    if path in files then Found(files[path]) else Missing
  }

  /** The number of rows whose class column equals `classId`
      (`len(df[df['Class'] == classId])`). */
  function CountClass(rows: seq<LabelRow>, classId: int): (n: nat)
    ensures n <= |rows|
  {
    if rows == [] then 0
    else CountClass(rows[..|rows| - 1], classId) + (if rows[|rows| - 1].classId == classId then 1 else 0)
  }

  /** The class column. */
  function ClassIds(rows: seq<LabelRow>): (ids: seq<int>)
    ensures |ids| == |rows|
    ensures forall i :: 0 <= i < |rows| ==> ids[i] == rows[i].classId
  {
    seq(|rows|, i requires 0 <= i < |rows| => rows[i].classId)
  }

  /** Counting agrees with the multiplicity of the class in the class column. */
  lemma {:induction false} CountIsMultiplicity(rows: seq<LabelRow>, classId: int)
    ensures CountClass(rows, classId) == multiset(ClassIds(rows))[classId]
  {
    if rows != [] {
      var init := rows[..|rows| - 1];
      CountIsMultiplicity(init, classId);
      assert ClassIds(rows) == ClassIds(init) + [rows[|rows| - 1].classId];
    }
  }

  /** Rows of two different classes never exceed the rows of the file. */
  lemma {:induction false} DistinctClassesBounded(rows: seq<LabelRow>, c1: int, c2: int)
    requires c1 != c2
    ensures CountClass(rows, c1) + CountClass(rows, c2) <= |rows|
  {
    if rows != [] {
      DistinctClassesBounded(rows[..|rows| - 1], c1, c2);
    }
  }

  /** `[number_of_persons, number_of_chairs]` read from the label file. */
  function InferenceResults(file: LabelFile): (r: Result<seq<nat>, ReadError>)
    ensures file.Missing? ==> r == Success([0, 0])
    ensures file.Found? && file.rows == [] ==> r == Failure(EmptyLabelFile)
    ensures r.Success? ==> |r.value| == 2
  {
    match file
    case Missing => Success([0, 0])
    case Found(rows) =>
      if rows == [] then Failure(EmptyLabelFile)
      else Success([CountClass(rows, PersonClass), CountClass(rows, ChairClass)])
  }

  /** The counting half of `photoInferenceAndGetInferenceResults(image_name)`:
      the label file is looked up at the derived path. */
  function DetectionCounts(scriptDir: string, imageName: string, labelFiles: map<string, seq<LabelRow>>)
    : (r: Result<seq<nat>, ReadError>)
  {
    InferenceResults(LabelFileAt(labelFiles, LabelPaths.LabelsFilePath(scriptDir, imageName)))
  }

  /** A label file with rows gives the person count first and the chair count
      second, each the multiplicity of its class, and together bounded by the
      number of rows. */
  lemma CountsOfFoundFile(rows: seq<LabelRow>)
    requires rows != []
    ensures var r := InferenceResults(Found(rows));
      && r.Success? && |r.value| == 2
      && r.value[0] == multiset(ClassIds(rows))[PersonClass]
      && r.value[1] == multiset(ClassIds(rows))[ChairClass]
      && r.value[0] + r.value[1] <= |rows|
  {
    CountIsMultiplicity(rows, PersonClass);
    CountIsMultiplicity(rows, ChairClass);
    DistinctClassesBounded(rows, PersonClass, ChairClass);
  }

  /** No label file at the derived path means zero persons and zero chairs,
      not an error. */
  lemma MissingLabelFileCountsZero(scriptDir: string, imageName: string, labelFiles: map<string, seq<LabelRow>>)
    requires LabelPaths.LabelsFilePath(scriptDir, imageName) !in labelFiles
    ensures DetectionCounts(scriptDir, imageName, labelFiles) == Success([0, 0])
  {
  }

  /** Rows of other classes (the detector is only asked for 0 and 56) are
      counted in neither total. */
  lemma OtherClassesIgnored(rows: seq<LabelRow>, row: LabelRow)
    requires row.classId != PersonClass && row.classId != ChairClass
    ensures CountClass(rows + [row], PersonClass) == CountClass(rows, PersonClass)
    ensures CountClass(rows + [row], ChairClass) == CountClass(rows, ChairClass)
  {
    assert (rows + [row])[..|rows + [row]| - 1] == rows;
  }
}
