/**
 * The attachment list editor (src/components/atoms/FileUploader.jsx): the list it shows
 * and the lists it hands to `onChange` when files are added or one is removed.
 */
module FileUploader {
  import opened Js
  import opened FileUtils

  /** `Array.isArray(value) ? value : []`, with `value = []` when it is not passed. */
  function Normalize(value: Field<MaybeArray<FileProps>>): (r: seq<FileProps>)
    ensures IsArray(value) ==> r == value.v.items
    ensures !IsArray(value) ==> r == []
  {
    if IsArray(value) then value.v.items else []
  }

  /** `handleFileChange`: appended to the shown files in multiple mode, replacing them otherwise. */
  function ChangedFiles(files: seq<FileProps>, newFiles: seq<FileProps>, multiple: bool): (r: seq<FileProps>)
    ensures multiple ==> |r| == |files| + |newFiles| && r[..|files|] == files && r[|files|..] == newFiles
    ensures !multiple ==> r == newFiles
  {
    if multiple then files + newFiles else newFiles
  }

  /** `files.filter((_, index) => index !== indexToRemove)`, walking from position `from`. */
  function DropIndex(files: seq<FileProps>, indexToRemove: int, from: int): (r: seq<FileProps>)
    decreases |files|
  {
    if files == [] then []
    else (if from != indexToRemove then [files[0]] else []) + DropIndex(files[1..], indexToRemove, from + 1)
  }

  /** `removeFile(indexToRemove)`. */
  function RemoveFile(files: seq<FileProps>, indexToRemove: int): seq<FileProps>
  {
    DropIndex(files, indexToRemove, 0)
  }

  /** Walking from `from`, the element at absolute position k is dropped and no other. */
  lemma {:induction false} DropIndexSpec(files: seq<FileProps>, k: int, from: int)
    ensures from <= k < from + |files| ==> DropIndex(files, k, from) == files[..k - from] + files[k - from + 1..]
    ensures !(from <= k < from + |files|) ==> DropIndex(files, k, from) == files
    decreases |files|
  {
    if files != [] {
      DropIndexSpec(files[1..], k, from + 1);
      if from == k {
        assert files[..0] + files[1..] == files[1..];
      } else if from < k < from + |files| {
        assert [files[0]] + (files[1..][..k - from - 1] + files[1..][k - from..]) == files[..k - from] + files[k - from + 1..];
      } else {
        assert [files[0]] + files[1..] == files;
      }
    }
  }

  /** `removeFile(i)` drops exactly the i-th file and keeps the rest in order; any other i changes nothing. */
  lemma RemoveFileSpec(files: seq<FileProps>, i: int)
    ensures 0 <= i < |files| ==> RemoveFile(files, i) == files[..i] + files[i + 1..]
    ensures 0 <= i < |files| ==> |RemoveFile(files, i)| == |files| - 1
    ensures !(0 <= i < |files|) ==> RemoveFile(files, i) == files
  {
    DropIndexSpec(files, i, 0);
  }
}
