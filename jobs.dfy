/**
 * One conversion job (`process_single` in Version2.py, `prep_and_run` in
 * version.py): the uploaded video is written to `in_{index}.mp4` in the
 * batch's temporary directory, converted, and the job returns its output
 * path, or None when the conversion failed. Writing the files and running
 * the converter are not modelled; whether the conversion succeeded is a
 * parameter.
 */
module Jobs {
  import opened Wrappers
  import opened Decimal
  import opened Strings
  import opened Batch

  /** What `os.path.join(directory, name)` puts before a relative `name`. */
  function DirPrefix(directory: string): string
  {
    if directory == "" || EndsWith(directory, "/") then directory else directory + "/"
  }

  /** `os.path.join(directory, name)` with a single component. */
  function JoinPath(directory: string, name: string): (path: string)
    ensures name != "" ==> path != ""
    ensures name != "" && name[0] != '/' ==> path == DirPrefix(directory) + name
  {
    if name != "" && name[0] == '/' then name else DirPrefix(directory) + name
  }

  /** Joining one directory with relative names is one-to-one in the name. */
  lemma JoinPathInjective(directory: string, a: string, b: string)
    requires a != "" && a[0] != '/' && b != "" && b[0] != '/'
    requires JoinPath(directory, a) == JoinPath(directory, b)
    ensures a == b
  {
    var d := DirPrefix(directory);
    assert a == (d + a)[|d|..] && b == (d + b)[|d|..];
  }

  /** `os.path.join(temp_dir, f"in_{index}.mp4")`. */
  function InputPath(tempDir: string, index: int): (path: string)
  {
    JoinPath(tempDir, "in_" + IntToString(index) + ".mp4")
  }

  /** Every job writes its upload to a file of its own. */
  lemma InputPathsDistinct(tempDir: string, i: int, j: int)
    requires i != j
    ensures InputPath(tempDir, i) != InputPath(tempDir, j)
  {
    var a, b := "in_" + IntToString(i) + ".mp4", "in_" + IntToString(j) + ".mp4";
    if InputPath(tempDir, i) == InputPath(tempDir, j) {
      JoinPathInjective(tempDir, a, b);
      assert a[3..|a| - 4] == IntToString(i);
      assert b[3..|b| - 4] == IntToString(j);
      IntToStringInjective(i, j);
    }
  }

  /** `os.path.join(temp_dir, f"branded_{vid_file.name}")`, as written. */
  function OutputPath(tempDir: string, fileName: string): (path: string)
  {
    JoinPath(tempDir, "branded_" + fileName)
  }

  /**
   * The output path with the job's index in it, as `in_{index}.mp4` already
   * has: `branded_{index}_{name}`.
   */
  function UniqueOutputPath(tempDir: string, index: int, fileName: string): (path: string)
  {
    JoinPath(tempDir, "branded_" + IntToString(index) + "_" + fileName)
  }

  /** Reads the job index back out of an output path in `tempDir`. */
  function OutputIndex(tempDir: string, path: string): (r: Option<int>)
  {
    var d := DirPrefix(tempDir);
    if d <= path then NameIndex(path[|d|..]) else None
  }

  /** The index in a file name `branded_{index}_{name}`. */
  function NameIndex(name: string): (r: Option<int>)
  {
    if "branded_" <= name then LeadingIndex(name[|"branded_"|..]) else None
  }

  /** The integer before the first '_'. */
  function LeadingIndex(s: string): (r: Option<int>)
  {
    match SplitOnce(s, '_')
    case None => None
    case Some(parts) => ParseInt(parts.0)
  }

  /** The output path names its job: the index reads back from it. */
  lemma OutputIndexRoundTrip(tempDir: string, index: int, fileName: string)
    ensures OutputIndex(tempDir, UniqueOutputPath(tempDir, index, fileName)) == Some(index)
  {
    var d, s := DirPrefix(tempDir), IntToString(index);
    var name := "branded_" + s + "_" + fileName;
    assert LeadingIndex(s + ['_'] + fileName) == Some(index) by {
      SplitOnceJoin(s, '_', fileName);
      IntToStringRoundTrip(index);
    }
    assert NameIndex(name) == Some(index) by {
      assert name == "branded_" + (s + ['_'] + fileName);
      assert name[|"branded_"|..] == s + ['_'] + fileName;
    }
    assert name[0] == 'b';
    var path := UniqueOutputPath(tempDir, index, fileName);
    assert path == d + name;
    assert path[|d|..] == name;
  }

  /** Distinct jobs write distinct output files, whatever their file names. */
  lemma UniqueOutputPathsDistinct(tempDir: string, i: int, j: int, nameI: string, nameJ: string)
    requires i != j
    ensures UniqueOutputPath(tempDir, i, nameI) != UniqueOutputPath(tempDir, j, nameJ)
  {
    OutputIndexRoundTrip(tempDir, i, nameI);
    OutputIndexRoundTrip(tempDir, j, nameJ);
  }

  /**
   * How a job names its output file: `AsWritten` is `branded_{name}`, as
   * both variants do; `Indexed` is `branded_{index}_{name}`.
   */
  datatype Naming = AsWritten | Indexed

  /** The output file of job `index` under the given naming. */
  function JobOutputPath(naming: Naming, tempDir: string, index: int, fileName: string): (path: string)
  {
    match naming
    case AsWritten => OutputPath(tempDir, fileName)
    case Indexed => UniqueOutputPath(tempDir, index, fileName)
  }

  /**
   * One job's result: its output path when the conversion succeeded, else
   * None. A successful job's result is always truthy, so the collection loop
   * keeps it; with indexed naming the path names the job.
   */
  function WorkerOutcome(naming: Naming, tempDir: string, index: int, fileName: string, converted: bool): (r: Option<string>)
    ensures Truthy(r) <==> converted
    ensures r.Some? ==> r.value == JobOutputPath(naming, tempDir, index, fileName)
    ensures naming == Indexed && r.Some? ==> OutputIndex(tempDir, r.value) == Some(index)
  {
    if converted then
      OutputIndexRoundTrip(tempDir, index, fileName);
      assert |"branded_" + fileName| > 0;
      Some(JobOutputPath(naming, tempDir, index, fileName))
    else None
  }

  /** The outcomes of jobs 0 .. |names|-1, in submission order. */
  function JobOutcomes(naming: Naming, tempDir: string, names: seq<string>, converted: seq<bool>): (r: seq<Option<string>>)
    requires |names| == |converted|
    ensures |r| == |names|
    decreases |names|
  {
    if names == [] then []
    else
      var n := |names| - 1;
      JobOutcomes(naming, tempDir, names[..n], converted[..n]) + [WorkerOutcome(naming, tempDir, n, names[n], converted[n])]
  }

  /**
   * Two uploads with the same file name, as jobs 0 and 1 that both succeed
   * under the naming as written: their inputs are kept apart, but both
   * conversions write the same output file and the loop collects that one
   * path twice, so the archive gets two entries of the same name and one
   * conversion's result is lost.
   */
  lemma DuplicateUploadNamesCollide(tempDir: string, fileName: string)
    ensures InputPath(tempDir, 0) != InputPath(tempDir, 1)
    ensures var paths := Successes(JobOutcomes(AsWritten, tempDir, [fileName, fileName], [true, true]));
      |paths| == 2 && paths[0] == paths[1]
  {
    InputPathsDistinct(tempDir, 0, 1);
    var p := OutputPath(tempDir, fileName);
    var outcomes := JobOutcomes(AsWritten, tempDir, [fileName, fileName], [true, true]);
    assert [fileName, fileName][..1] == [fileName] && [true, true][..1] == [true];
    assert JobOutcomes(AsWritten, tempDir, [fileName], [true]) == [Some(p)] by {
      assert [fileName][..0] == [] && [true][..0] == [];
    }
    assert outcomes == [Some(p), Some(p)];
    assert outcomes[..1] == [Some(p)];
  }

  /** The number of jobs whose conversion succeeded. */
  function CountConverted(converted: seq<bool>): (count: nat)
    decreases |converted|
  {
    if converted == [] then 0
    else CountConverted(converted[..|converted| - 1]) + (if converted[|converted| - 1] then 1 else 0)
  }

  /** Every collected path is the output of one of the first `n` jobs. */
  predicate FromEarlierJobs(tempDir: string, paths: seq<string>, n: nat)
  {
    forall k :: 0 <= k < |paths| ==>
      OutputIndex(tempDir, paths[k]).Some? && 0 <= OutputIndex(tempDir, paths[k]).value < n
  }

  /**
   * Over a whole batch whose outputs are named by job index, the loop
   * collects one path per successful job, so "Processed N videos" counts the
   * successful conversions, and no path is collected twice, so the archive
   * holds one entry per converted video.
   */
  lemma {:induction false} BatchCollectsEachSuccessOnce(tempDir: string, names: seq<string>, converted: seq<bool>)
    requires |names| == |converted|
    ensures var paths := Successes(JobOutcomes(Indexed, tempDir, names, converted));
      && |paths| == CountConverted(converted)
      && FromEarlierJobs(tempDir, paths, |names|)
      && forall k, l :: 0 <= k < l < |paths| ==> paths[k] != paths[l]
    decreases |names|
  {
    if names != [] {
      var n := |names| - 1;
      var outcomes := JobOutcomes(Indexed, tempDir, names, converted);
      var earlier := JobOutcomes(Indexed, tempDir, names[..n], converted[..n]);
      var last := WorkerOutcome(Indexed, tempDir, n, names[n], converted[n]);
      BatchCollectsEachSuccessOnce(tempDir, names[..n], converted[..n]);
      assert outcomes == earlier + [last];
      SuccessesAppend(earlier, [last]);
      var prev := Successes(earlier);
      if converted[n] {
        var p := last.value;
        assert OutputIndex(tempDir, p) == Some(n);
        assert Successes([last]) == [p] by {
          assert [last][..0] == [];
        }
        assert Successes(outcomes) == prev + [p];
        forall k | 0 <= k < |prev| ensures prev[k] != p {
          assert OutputIndex(tempDir, prev[k]).value < n;
        }
      } else {
        assert Successes([last]) == [] by {
          assert [last][..0] == [];
        }
        assert Successes(outcomes) == prev;
      }
    }
  }
}
