/**
 * The loader loop: every file in a fixed list is tried in turn, the records of
 * each file that loads are appended to one accumulator, and each file that
 * fails is logged and skipped. Opening and parsing a file are not modelled:
 * each file comes with the outcome of that step.
 */
module Loader {
  import opened Wrappers
  import opened SleepRecords

  /** A file of the list: its path and either its records or a load failure. */
  datatype SourceFile = SourceFile(path: string, contents: Option<seq<SleepRecord>>)

  /** The accumulator after visiting `files` in order, one append per loaded file. */
  function LoadedRecords(files: seq<SourceFile>): seq<SleepRecord> {
    if |files| == 0 then []
    else
      var last := files[|files| - 1];
      LoadedRecords(files[..|files| - 1]) + (if last.contents.Some? then last.contents.value else [])
  }

  /** The paths reported as errors, in the order the files were visited. */
  function FailedPaths(files: seq<SourceFile>): seq<string> {
    if |files| == 0 then []
    else
      var last := files[|files| - 1];
      FailedPaths(files[..|files| - 1]) + (if last.contents.None? then [last.path] else [])
  }

  /** The record lists of the files that loaded, in file order. */
  function LoadedContents(files: seq<SourceFile>): seq<seq<SleepRecord>> {
    if |files| == 0 then []
    else (if files[0].contents.Some? then [files[0].contents.value] else []) + LoadedContents(files[1..])
  }

  function Flatten(parts: seq<seq<SleepRecord>>): seq<SleepRecord> {
    if |parts| == 0 then [] else parts[0] + Flatten(parts[1..])
  }

  /** The loader loop itself (`all_data.extend` inside try/except). */
  method LoadAll(files: seq<SourceFile>) returns (allData: seq<SleepRecord>, errors: seq<string>)
    ensures allData == LoadedRecords(files)
    ensures errors == FailedPaths(files)
  {
    allData, errors := [], [];
    for i := 0 to |files|
      invariant allData == LoadedRecords(files[..i])
      invariant errors == FailedPaths(files[..i])
    {
      assert files[..i + 1][..i] == files[..i];
      match files[i].contents {
        case Some(records) =>
          allData := allData + records;
        case None =>
          errors := errors + [files[i].path];
      }
    }
    assert files[..|files|] == files;
  }

  /** Loading a list in two parts gives the two accumulators one after the other. */
  lemma {:induction false} LoadedRecordsAppend(a: seq<SourceFile>, b: seq<SourceFile>)
    ensures LoadedRecords(a + b) == LoadedRecords(a) + LoadedRecords(b)
  {
    if |b| == 0 {
      assert a + b == a;
    } else {
      assert (a + b)[..|a + b| - 1] == a + b[..|b| - 1];
      LoadedRecordsAppend(a, b[..|b| - 1]);
    }
  }

  lemma {:induction false} FlattenAppend(a: seq<seq<SleepRecord>>, b: seq<seq<SleepRecord>>)
    ensures Flatten(a + b) == Flatten(a) + Flatten(b)
  {
    if |a| > 0 {
      assert (a + b)[1..] == a[1..] + b;
      FlattenAppend(a[1..], b);
    } else {
      assert a + b == b;
    }
  }

  /** The accumulator is exactly the in-order concatenation of the records of
      the files that loaded. */
  lemma {:induction false} LoadedRecordsAreLoadedFiles(files: seq<SourceFile>)
    ensures LoadedRecords(files) == Flatten(LoadedContents(files))
  {
    if |files| > 0 {
      var head := files[..1];
      assert files == head + files[1..];
      LoadedRecordsAppend(head, files[1..]);
      LoadedRecordsAreLoadedFiles(files[1..]);
      assert head[..0] == [];
      var part := if files[0].contents.Some? then [files[0].contents.value] else [];
      FlattenAppend(part, LoadedContents(files[1..]));
      assert part == [] ==> Flatten(part) == [];
      assert part != [] ==> Flatten(part) == files[0].contents.value + Flatten([]);
    }
  }

  /** A file that fails adds nothing: the result is the same as if it were not
      in the list, so every later file is still loaded. */
  lemma {:induction false} FailedFileAddsNothing(files: seq<SourceFile>, i: nat)
    requires i < |files| && files[i].contents.None?
    ensures LoadedRecords(files) == LoadedRecords(files[..i] + files[i + 1..])
  {
    var before, failed, after := files[..i], [files[i]], files[i + 1..];
    assert files == (before + failed) + after;
    assert failed[..0] == [];
    assert LoadedRecords(failed) == [];
    LoadedRecordsAppend(before + failed, after);
    LoadedRecordsAppend(before, failed);
    assert before + failed == files[..i + 1];
    LoadedRecordsAppend(before, after);
  }

  /** A record ends up in the accumulator exactly when some file that loaded holds it. */
  lemma {:induction false} LoadedRecordMembership(files: seq<SourceFile>, x: SleepRecord)
    ensures x in LoadedRecords(files)
      <==> exists i :: 0 <= i < |files| && files[i].contents.Some? && x in files[i].contents.value
  {
    if |files| > 0 {
      var n := |files| - 1;
      LoadedRecordMembership(files[..n], x);
      if x in LoadedRecords(files) {
        if x in LoadedRecords(files[..n]) {
          var i :| 0 <= i < n && files[..n][i].contents.Some? && x in files[..n][i].contents.value;
          assert files[i] == files[..n][i];
        }
      } else {
        forall i | 0 <= i < |files| && files[i].contents.Some?
          ensures x !in files[i].contents.value
        {
          if i < n { assert files[i] == files[..n][i]; }
        }
      }
    }
  }

  /** A path is logged exactly when a file with that path failed to load. */
  lemma {:induction false} FailedPathMembership(files: seq<SourceFile>, p: string)
    ensures p in FailedPaths(files)
      <==> exists i :: 0 <= i < |files| && files[i].contents.None? && files[i].path == p
  {
    if |files| > 0 {
      var n := |files| - 1;
      FailedPathMembership(files[..n], p);
      if p in FailedPaths(files) {
        if p in FailedPaths(files[..n]) {
          var i :| 0 <= i < n && files[..n][i].contents.None? && files[..n][i].path == p;
          assert files[i] == files[..n][i];
        }
      } else {
        forall i | 0 <= i < |files| && files[i].contents.None?
          ensures files[i].path != p
        {
          if i < n { assert files[i] == files[..n][i]; }
        }
      }
    }
  }

  /** Nothing is accumulated exactly when every file failed or was empty. */
  lemma {:induction false} NothingLoaded(files: seq<SourceFile>)
    ensures LoadedRecords(files) == []
      <==> forall i :: 0 <= i < |files| && files[i].contents.Some? ==> files[i].contents.value == []
  {
    if |files| > 0 {
      var n := |files| - 1;
      NothingLoaded(files[..n]);
      assert forall i :: 0 <= i < n ==> files[..n][i] == files[i];
    }
  }
}
