/**
 * Attachment handling (src/utils/File.js): normalising browser file objects to the
 * PascalCase shape the record API uses, validating them against a field's
 * configuration, and shaping the attachment lists sent on create and update.
 */
module FileUtils {
  import opened Js
  import opened Seqs

  /**
   * The properties of a file object: the browser's camelCase ones, the PascalCase
   * ones the record API uses, and the `Id`/`Path` of an attachment already stored.
   * `fileType` is the browser's `type`; `LastModifiedDate` is a Date, held as its time.
   */
  datatype FileProps = FileProps(
    name: Field<string>, size: Field<real>, fileType: Field<string>,
    lastModified: Field<int>, lastModifiedDate: Field<int>, webkitRelativePath: Field<string>,
    Name: Field<string>, Size: Field<real>, Type: Field<string>,
    LastModified: Field<int>, LastModifiedDate: Field<int>, WebkitRelativePath: Field<string>,
    Id: Field<int>, Path: Field<string>)

  /** A file object; `transformFileToPascalCase` writes its properties in place. */
  class FileObject {
    var props: FileProps

    constructor (p: FileProps)
      ensures props == p
    {
      props := p;
    }
  }

  /** `file[pascal] !== undefined` for one of the six mapped PascalCase keys. */
  predicate HasPascalCase(p: FileProps)
  {
    p.Name != Absent || p.Size != Absent || p.Type != Absent ||
    p.LastModified != Absent || p.LastModifiedDate != Absent || p.WebkitRelativePath != Absent
  }

  predicate IdTruthy(id: Field<int>)
  {
    id.Val? && id.v != 0
  }

  /** `camel !== undefined ? camel : pascal`: one step of the key copying. */
  function CopyKey<T>(camel: Field<T>, pascal: Field<T>): Field<T>
  {
    if camel != Absent then camel else pascal
  }

  /** `size / 1024`, with `null` coerced to 0. */
  function SizeInKB(size: Field<real>): Field<real>
  {
    match size
    case Val(b) => Val(b / 1024.0)
    case _ => Val(0.0)
  }

  /**
   * The properties after `transformFileToPascalCase`: untouched when a PascalCase key is
   * already defined or the file has a truthy `Id` (it came from the server); otherwise
   * every defined camelCase key is copied to its PascalCase name, the size in KB.
   */
  function PascalCased(p: FileProps): FileProps
  {
    if HasPascalCase(p) || IdTruthy(p.Id) then p
    else p.(Name := CopyKey(p.name, p.Name),
            Size := if p.size != Absent then SizeInKB(p.size) else p.Size,
            Type := CopyKey(p.fileType, p.Type),
            LastModified := CopyKey(p.lastModified, p.LastModified),
            LastModifiedDate := CopyKey(p.lastModifiedDate, p.LastModifiedDate),
            WebkitRelativePath := CopyKey(p.webkitRelativePath, p.WebkitRelativePath))
  }

  /**
   * A file already in PascalCase, or one from the server, is left alone; any other has
   * its camelCase values under the PascalCase names, the size in KB, and nothing else changed.
   */
  lemma PascalCasedSpec(p: FileProps)
    ensures HasPascalCase(p) || IdTruthy(p.Id) ==> PascalCased(p) == p
    ensures !HasPascalCase(p) && !IdTruthy(p.Id) ==>
      var r := PascalCased(p);
      && r.Name == p.name && r.Type == p.fileType && r.LastModified == p.lastModified
      && r.LastModifiedDate == p.lastModifiedDate && r.WebkitRelativePath == p.webkitRelativePath
      && r.Size == (if p.size == Absent then Absent else SizeInKB(p.size))
    ensures PascalCased(p).(Name := p.Name, Size := p.Size, Type := p.Type, LastModified := p.LastModified,
               LastModifiedDate := p.LastModifiedDate, WebkitRelativePath := p.WebkitRelativePath) == p
  {
  }

  /** Transforming twice is transforming once, so a file listed twice is transformed once. */
  lemma PascalCasedIdempotent(p: FileProps)
    ensures PascalCased(PascalCased(p)) == PascalCased(p)
  {
  }

  /** `transformFileToPascalCase(file)`: rewrites the object in place and returns it. */
  method TransformFileToPascalCase(file: FileObject) returns (r: FileObject)
    modifies file
    ensures r == file
    ensures file.props == PascalCased(old(file.props))
  {
    var p := file.props;
    if !(HasPascalCase(p) || IdTruthy(p.Id)) {
      if p.name != Absent { file.props := file.props.(Name := p.name); }
      if p.size != Absent { file.props := file.props.(Size := SizeInKB(p.size)); }
      if p.fileType != Absent { file.props := file.props.(Type := p.fileType); }
      if p.lastModified != Absent { file.props := file.props.(LastModified := p.lastModified); }
      if p.lastModifiedDate != Absent { file.props := file.props.(LastModifiedDate := p.lastModifiedDate); }
      if p.webkitRelativePath != Absent {
        file.props := file.props.(WebkitRelativePath := p.webkitRelativePath);
      }
    }
    r := file;
  }

  // ---------------------------------------------------------------------------
  // Validation

  /**
   * A field's configuration as `transformAndValidate` reads it. `supportedExtensions`
   * is `None` when missing or not an array; `minValue`/`maxValue` are in KB.
   */
  datatype FieldConfig = FieldConfig(
    supportMultipleValues: bool,
    supportedExtensions: Option<seq<string>>,
    minValue: Option<real>,
    maxValue: Option<real>)

  /** The messages, by kind; `file` is the `File i: ` prefix, present only among several files. */
  datatype FileError =
    | OnlyOneFile
    | InvalidType(file: Option<nat>, allowed: seq<string>)
    | TooSmall(file: Option<nat>, minimum: real)
    | TooLarge(file: Option<nat>, maximum: real)

  /** `files` as passed: an array, or a single file that is wrapped into one. */
  datatype FilesArg = Many(list: seq<FileObject>) | One(file: FileObject)

  function FileArray(files: FilesArg): seq<FileObject>
  {
    match files
    case Many(l) => l
    case One(f) => [f]
  }

  function Objects(files: seq<FileObject>): set<object>
  {
    set f | f in files
  }

  /** The properties of each listed file in the current state. */
  function PropsOf(files: seq<FileObject>): (r: seq<FileProps>)
    reads Objects(files)
    ensures |r| == |files|
    ensures forall i :: 0 <= i < |files| ==> r[i] == files[i].props
  {
    seq(|files|, i reads Objects(files) requires 0 <= i < |files| => files[i].props)
  }

  /** The text after the last `.` (all of it when there is none). */
  function AfterLastDot(s: string): (r: string)
    ensures |r| <= |s| && r == s[|s| - |r|..]
    ensures forall i :: 0 <= i < |r| ==> r[i] != '.'
    ensures |r| < |s| ==> s[|s| - |r| - 1] == '.'
  {
    if s == [] || s[|s| - 1] == '.' then [] else AfterLastDot(s[..|s| - 1]) + [s[|s| - 1]]
  }

  /** `Name ? Name.split('.').pop().toLowerCase() : ''`. */
  function Extension(name: Field<string>): string
  {
    if TruthyStr(name) then ToLower(AfterLastDot(name.v)) else ""
  }

  predicate ExtensionAllowed(allowed: seq<string>, ext: string)
  {
    exists i | 0 <= i < |allowed| :: ToLower(allowed[i]) == ext
  }

  /** The size as `<` and `>` see it: `null` counts as 0, a missing size is NaN. */
  function SizeNumber(size: Field<real>): Option<real>
  {
    match size
    case Absent => None
    case Null => Some(0.0)
    case Val(x) => Some(x)
  }

  predicate TooSmallFor(config: FieldConfig, size: Field<real>)
  {
    config.minValue.Some? && config.minValue.value != 0.0 &&
    SizeNumber(size).Some? && SizeNumber(size).value < config.minValue.value
  }

  predicate TooLargeFor(config: FieldConfig, size: Field<real>)
  {
    config.maxValue.Some? && config.maxValue.value != 0.0 &&
    SizeNumber(size).Some? && SizeNumber(size).value > config.maxValue.value
  }

  predicate RestrictsExtensions(config: FieldConfig)
  {
    config.supportedExtensions.Some? && |config.supportedExtensions.value| > 0
  }

  /** The `File i: ` prefix: the 1-based position, only when there are several files. */
  function FileNumber(index: nat, count: nat): Option<nat>
  {
    if count > 1 then Some(index + 1) else None
  }

  /** The extension, minimum and maximum checks on one (already transformed) file. */
  function CheckFile(config: Option<FieldConfig>, p: FileProps, index: nat, count: nat): seq<FileError>
  {
    match config
    case None => []
    case Some(c) =>
      var n := FileNumber(index, count);
      (if RestrictsExtensions(c) && !ExtensionAllowed(c.supportedExtensions.value, Extension(p.Name))
       then [InvalidType(n, c.supportedExtensions.value)] else []) +
      (if TooSmallFor(c, p.Size) then [TooSmall(n, c.minValue.value)] else []) +
      (if TooLargeFor(c, p.Size) then [TooLarge(n, c.maxValue.value)] else [])
  }

  /**
   * A file gets at most one message of each kind, each exactly when its check fails,
   * all carrying the file's prefix; without a configuration nothing is checked.
   */
  lemma CheckFileReports(config: Option<FieldConfig>, p: FileProps, index: nat, count: nat)
    ensures |CheckFile(config, p, index, count)| <= 3
    ensures config.None? ==> CheckFile(config, p, index, count) == []
    ensures config.Some? ==>
      && ((exists e | e in CheckFile(config, p, index, count) :: e.InvalidType?) <==>
            RestrictsExtensions(config.value) &&
            !ExtensionAllowed(config.value.supportedExtensions.value, Extension(p.Name)))
      && ((exists e | e in CheckFile(config, p, index, count) :: e.TooSmall?) <==> TooSmallFor(config.value, p.Size))
      && ((exists e | e in CheckFile(config, p, index, count) :: e.TooLarge?) <==> TooLargeFor(config.value, p.Size))
    ensures forall e | e in CheckFile(config, p, index, count) :: !e.OnlyOneFile? && e.file == FileNumber(index, count)
  {
    if config.Some? {
      var c := config.value;
      var n := FileNumber(index, count);
      var badType: seq<FileError> :=
        if RestrictsExtensions(c) && !ExtensionAllowed(c.supportedExtensions.value, Extension(p.Name))
        then [InvalidType(n, c.supportedExtensions.value)] else [];
      var small: seq<FileError> := if TooSmallFor(c, p.Size) then [TooSmall(n, c.minValue.value)] else [];
      var large: seq<FileError> := if TooLargeFor(c, p.Size) then [TooLarge(n, c.maxValue.value)] else [];
      var r := CheckFile(config, p, index, count);
      assert r == badType + small + large;
      assert forall e | e in r :: e in badType || e in small || e in large;
      assert small != [] ==> small[0] in r;
      assert large != [] ==> large[0] in r;
      assert badType != [] ==> badType[0] in r;
    }
  }

  /** Whether more files were given than the field accepts (`!config?.supportMultipleValues`). */
  predicate TooManyFiles(config: Option<FieldConfig>, count: nat)
  {
    count > 1 && (config.None? || !config.value.supportMultipleValues)
  }

  /**
   * What is reported once the first n files are checked: the "only one file" message
   * first, then each file's messages, each file checked after its transformation.
   */
  function Reported(config: Option<FieldConfig>, before: seq<FileProps>, n: nat): seq<FileError>
    requires n <= |before|
  {
    if n == 0 then (if TooManyFiles(config, |before|) then [OnlyOneFile] else [])
    else Reported(config, before, n - 1) + CheckFile(config, PascalCased(before[n - 1]), n - 1, |before|)
  }

  /** Every error the validation reports for files whose properties were `before`. */
  function ValidationErrors(config: Option<FieldConfig>, before: seq<FileProps>): seq<FileError>
  {
    if before == [] then [] else Reported(config, before, |before|)
  }

  datatype Validation = Validation(isValid: bool, errors: seq<FileError>, transformedFiles: seq<FileObject>)

  /** What the files hold once the first i are transformed: a file listed twice is transformed once. */
  function Staged(files: seq<FileObject>, before: seq<FileProps>, i: nat): (r: seq<FileProps>)
    requires |before| == |files| && i <= |files|
    ensures |r| == |files|
  {
    seq(|files|, j requires 0 <= j < |files| =>
      if files[j] in files[..i] then PascalCased(before[j]) else before[j])
  }

  /** Listing the same object twice lists the same properties twice. */
  predicate AliasConsistent(files: seq<FileObject>, before: seq<FileProps>)
    requires |before| == |files|
  {
    forall j, k :: 0 <= j < |files| && 0 <= k < |files| && files[j] == files[k] ==> before[j] == before[k]
  }

  /** Every file holds the properties of stage i. */
  ghost predicate AtStage(files: seq<FileObject>, before: seq<FileProps>, i: nat)
    requires |before| == |files| && i <= |files|
    reads files
  {
    forall j | 0 <= j < |files| :: files[j].props == Staged(files, before, i)[j]
  }

  /** One step of the loop: transforming file i in place moves every alias of it one stage on. */
  lemma StagedStep(files: seq<FileObject>, before: seq<FileProps>, i: nat, j: nat)
    requires |before| == |files| && i < |files| && j < |files|
    requires AliasConsistent(files, before)
    ensures Staged(files, before, i + 1)[j] ==
      if files[j] == files[i] then PascalCased(Staged(files, before, i)[i]) else Staged(files, before, i)[j]
  {
    assert files[..i + 1] == files[..i] + [files[i]];
    PascalCasedIdempotent(before[i]);
    if files[j] == files[i] {
      assert before[j] == before[i];
    }
  }

  /** The properties a list of files was read with agree on aliases. */
  lemma PropsOfConsistent(files: seq<FileObject>, props: seq<FileProps>)
    requires |props| == |files|
    requires forall j :: 0 <= j < |files| ==> props[j] == files[j].props
    ensures AliasConsistent(files, props)
  {
  }

  /**
   * The callback `transformAndValidate` maps over the files: transforms file i in place
   * and returns the messages for it.
   */
  method TransformAndCheck(config: Option<FieldConfig>, fileArray: seq<FileObject>, ghost before: seq<FileProps>, i: nat)
    returns (t: FileObject, errs: seq<FileError>)
    requires |before| == |fileArray| && i < |fileArray|
    requires AliasConsistent(fileArray, before)
    requires AtStage(fileArray, before, i)
    modifies fileArray[i]
    ensures t == fileArray[i]
    ensures AtStage(fileArray, before, i + 1)
    ensures errs == CheckFile(config, PascalCased(before[i]), i, |fileArray|)
  {
    t := TransformFileToPascalCase(fileArray[i]);
    forall j | 0 <= j < |fileArray| ensures fileArray[j].props == Staged(fileArray, before, i + 1)[j] {
      StagedStep(fileArray, before, i, j);
    }
    assert fileArray[i] in fileArray[..i + 1];
    errs := CheckFile(config, t.props, i, |fileArray|);
  }

  /**
   * `transformAndValidate(config, files)`: transforms each file in place, in order, and
   * checks it right after; the result lists the same objects, in the same order.
   */
  method TransformAndValidate(config: Option<FieldConfig>, files: FilesArg) returns (v: Validation)
    modifies Objects(FileArray(files))
    ensures v.transformedFiles == FileArray(files)
    ensures forall i :: 0 <= i < |FileArray(files)| ==>
      FileArray(files)[i].props == PascalCased(old(FileArray(files)[i].props))
    ensures v.errors == ValidationErrors(config, old(PropsOf(FileArray(files))))
    ensures v.isValid <==> v.errors == []
  {
    var fileArray := FileArray(files);
    ghost var before := PropsOf(fileArray);
    if |fileArray| == 0 {
      return Validation(true, [], []);
    }
    var errors: seq<FileError> := [];
    if TooManyFiles(config, |fileArray|) {
      errors := errors + [OnlyOneFile];
    }
    PropsOfConsistent(fileArray, before);
    assert AtStage(fileArray, before, 0) by {
      assert fileArray[..0] == [];
    }
    var transformed;
    transformed, errors := TransformEach(config, fileArray, before, errors);
    LastStage(fileArray, before);
    v := Validation(|errors| == 0, errors, transformed);
  }

  /** The loop of `transformAndValidate`: each file in turn is transformed and checked. */
  method TransformEach(config: Option<FieldConfig>, fileArray: seq<FileObject>, ghost before: seq<FileProps>,
                       errors0: seq<FileError>)
    returns (transformed: seq<FileObject>, errors: seq<FileError>)
    requires |before| == |fileArray|
    requires AliasConsistent(fileArray, before) && AtStage(fileArray, before, 0)
    requires errors0 == Reported(config, before, 0)
    modifies Objects(fileArray)
    ensures transformed == fileArray
    ensures errors == Reported(config, before, |fileArray|)
    ensures AtStage(fileArray, before, |fileArray|)
  {
    errors := errors0;
    transformed := [];
    var i := 0;
    while i < |fileArray|
      invariant 0 <= i <= |fileArray|
      invariant transformed == fileArray[..i]
      invariant errors == Reported(config, before, i)
      invariant AtStage(fileArray, before, i)
    {
      assert fileArray[i] in Objects(fileArray);
      var t, errs := TransformAndCheck(config, fileArray, before, i);
      errors := errors + errs;
      transformed := transformed + [t];
      assert fileArray[..i + 1] == fileArray[..i] + [t];
      i := i + 1;
    }
    assert fileArray[..i] == fileArray;
  }

  /** After the last stage every file holds the transform of what it held before. */
  lemma LastStage(files: seq<FileObject>, before: seq<FileProps>)
    requires |before| == |files| && AtStage(files, before, |files|)
    ensures forall j :: 0 <= j < |files| ==> files[j].props == PascalCased(before[j])
  {
    forall j | 0 <= j < |files| ensures files[j].props == PascalCased(before[j]) {
      assert files[j] in files[..|files|];
    }
  }

  /** No files: valid, with nothing reported and nothing transformed. */
  lemma EmptyIsValid(config: Option<FieldConfig>)
    ensures ValidationErrors(config, []) == []
  {
  }

  lemma {:induction false} ReportedOnlyOne(config: Option<FieldConfig>, before: seq<FileProps>, n: nat)
    requires n <= |before|
    ensures OnlyOneFile in Reported(config, before, n) <==> TooManyFiles(config, |before|)
  {
    if n > 0 {
      ReportedOnlyOne(config, before, n - 1);
      CheckFileReports(config, PascalCased(before[n - 1]), n - 1, |before|);
    }
  }

  /** "Only one file is allowed" is reported exactly when several files reach a single-file field. */
  lemma OnlyOneFileIffTooMany(config: Option<FieldConfig>, before: seq<FileProps>)
    ensures OnlyOneFile in ValidationErrors(config, before) <==> TooManyFiles(config, |before|)
  {
    if before != [] {
      ReportedOnlyOne(config, before, |before|);
    }
  }

  /** A single file is checked without a `File i: ` prefix, and alone. */
  lemma SingleFileErrors(config: Option<FieldConfig>, p: FileProps)
    ensures ValidationErrors(config, [p]) == CheckFile(config, PascalCased(p), 0, 1)
    ensures forall e | e in ValidationErrors(config, [p]) :: !e.OnlyOneFile? && e.file == None
  {
    assert Reported(config, [p], 1) == [] + CheckFile(config, PascalCased(p), 0, 1);
    CheckFileReports(config, PascalCased(p), 0, 1);
  }

  /** Among several files, every message but "only one file" names one of the files checked so far. */
  lemma {:induction false} ReportedPrefixed(config: Option<FieldConfig>, before: seq<FileProps>, n: nat)
    requires n <= |before| && |before| > 1
    ensures forall e | e in Reported(config, before, n) ::
      e.OnlyOneFile? || (e.file.Some? && 1 <= e.file.value <= n)
  {
    if n > 0 {
      ReportedPrefixed(config, before, n - 1);
      var prev := Reported(config, before, n - 1);
      var cur := CheckFile(config, PascalCased(before[n - 1]), n - 1, |before|);
      CheckFileReports(config, PascalCased(before[n - 1]), n - 1, |before|);
      assert FileNumber(n - 1, |before|) == Some(n);
      forall e: FileError | e in prev + cur ensures e.OnlyOneFile? || (e.file.Some? && 1 <= e.file.value <= n) {
        if e !in prev {
          assert e in cur;
        }
      }
    }
  }

  // ---------------------------------------------------------------------------
  // Payload shaping

  /** An attachment entry of a create or update payload. */
  datatype PathRef = PathRef(Id: Field<int>, Path: Field<string>)

  function ListObjects(files: Field<MaybeArray<FileObject>>): set<object>
  {
    Objects(Items(files))
  }

  /**
   * `toCreateFormat(files)`: `null` for a missing, `null` or non-array value and for an
   * empty array, else `{Path}` for each file, in order.
   */
  function ToCreateFormat(files: Field<MaybeArray<FileObject>>): (r: Option<seq<PathRef>>)
    reads ListObjects(files)
    ensures !IsArray(files) ==> r.None?
    ensures r.None? <==> Items(files) == []
    ensures r.Some? ==> (|r.value| == |Items(files)| &&
      forall i :: 0 <= i < |Items(files)| ==> r.value[i] == PathRef(Absent, Items(files)[i].props.Path))
  {
    if !IsArray(files) || files.v.items == [] then None
    else
      var l := files.v.items;
      Some(seq(|l|, i reads ListObjects(files) requires 0 <= i < |l| => PathRef(Absent, l[i].props.Path)))
  }

  /** `toUpdateFormat(files)`: as for create, and an existing file (truthy `Id`) keeps its `Id`. */
  function ToUpdateFormat(files: Field<MaybeArray<FileObject>>): (r: Option<seq<PathRef>>)
    reads ListObjects(files)
    ensures !IsArray(files) ==> r.None?
    ensures r.None? <==> Items(files) == []
    ensures r.Some? ==> (|r.value| == |Items(files)| &&
      forall i :: 0 <= i < |Items(files)| ==>
        r.value[i].Path == Items(files)[i].props.Path &&
        (r.value[i].Id.Val? <==> IdTruthy(Items(files)[i].props.Id)) &&
        (r.value[i].Id.Val? ==> r.value[i].Id == Items(files)[i].props.Id))
  {
    if !IsArray(files) || files.v.items == [] then None
    else
      var l := files.v.items;
      Some(seq(|l|, i reads ListObjects(files) requires 0 <= i < |l| =>
        var p := l[i].props;
        PathRef(if IdTruthy(p.Id) then p.Id else Absent, p.Path)))
  }

  /** The two formats list the same paths; they differ only by the ids of existing files. */
  lemma UpdateFormatExtendsCreateFormat(files: Field<MaybeArray<FileObject>>)
    ensures ToCreateFormat(files).None? <==> ToUpdateFormat(files).None?
    ensures ToCreateFormat(files).Some? ==>
      forall i :: 0 <= i < |ToCreateFormat(files).value| ==>
        ToCreateFormat(files).value[i] == ToUpdateFormat(files).value[i].(Id := Absent)
    ensures (forall i :: 0 <= i < |Items(files)| ==> !IdTruthy(Items(files)[i].props.Id)) ==>
      ToCreateFormat(files) == ToUpdateFormat(files)
  {
    if Items(files) != [] && forall i :: 0 <= i < |Items(files)| ==> !IdTruthy(Items(files)[i].props.Id) {
      var c := ToCreateFormat(files).value;
      var u := ToUpdateFormat(files).value;
      assert c == u by {
        forall i | 0 <= i < |c| ensures c[i] == u[i] {
        }
      }
    }
  }
}
