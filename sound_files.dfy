/**
 * `src/sound.py`: naming of output files, and the two commands that write
 * audio files next to (or away from) an input file — splitting it into
 * non-silent clips and writing a noise-reduced copy.
 *
 * The disk is the map `AudioStore.files` from path to what `soundfile.write`
 * left there; `path.is_file()` is membership in that map. `librosa.load`,
 * `librosa.effects.split` and `noisereduce.reduce_noise` are parameters.
 */
module SoundFiles {
  import opened Wrappers
  import opened Text
  import opened Paths
  import opened Segmenter

  /** What `sf.write` stores: the samples, their rate and the container format. */
  datatype AudioFile<S> = AudioFile(samples: seq<S>, sampleRate: nat, format: string)

  /** A decoded file, as `librosa.load` returns it. */
  datatype Waveform<S> = Waveform(samples: seq<S>, sampleRate: nat)

  /** An input path that `with_stem` accepts, and a format that keeps the name one component. */
  predicate Nameable(input: Path, suffix: string, format: string) {
    Name(input) != "" && '/' !in Name(input) && '/' !in suffix && '/' !in format
  }

  /** The file name `"{stem}_{suffix}.{format}".lower()`. */
  function OutputName(input: Path, suffix: string, format: string): string {
    Lower(Stem(Name(input)) + "_" + suffix + "." + format)
  }

  lemma OutputNameIsComponent(input: Path, suffix: string, format: string)
    requires Nameable(input, suffix, format)
    ensures IsComponent(OutputName(input, suffix, format))
    ensures IsComponent(OutputName(input, suffix, format) + Suffix(Name(input)))
  {
    var raw := Stem(Name(input)) + "_" + suffix + "." + format;
    StemThenSuffix(Name(input));
    assert '/' !in Stem(Name(input)) by {
      assert Stem(Name(input)) == Name(input)[..|Stem(Name(input))|];
    }
    LowerKeepsAbsent(raw, '/');
    var name := OutputName(input, suffix, format);
    assert name[|Stem(Name(input))|] == '_';
    assert '/' !in Suffix(Name(input));
  }

  /** `_get_file_path`: into `output_dir` when given, else beside the input under a new stem. */
  function GetFilePath(input: Path, suffix: string, outputDir: Option<Path>, format: string): (r: Path)
    requires Nameable(input, suffix, format)
    ensures outputDir.Some? ==> Parent(r) == outputDir.value && Name(r) == OutputName(input, suffix, format)
    ensures outputDir.None? ==>
      Parent(r) == Parent(input) && Name(r) == OutputName(input, suffix, format) + Suffix(Name(input))
  {
    OutputNameIsComponent(input, suffix, format);
    var fileName := OutputName(input, suffix, format);
    match outputDir
    case Some(dir) => JoinComponent(dir, fileName); Join(dir, fileName)
    case None => WithStem(input, fileName)
  }

  /**
   * Without an output directory an input with an extension keeps it: the new
   * stem is the whole generated file name, format extension included.
   */
  lemma GetFilePathBesideInput(input: Path, suffix: string, format: string)
    requires Nameable(input, suffix, format) && Suffix(Name(input)) != ""
    ensures var r := GetFilePath(input, suffix, None, format);
      Parent(r) == Parent(input) &&
      Stem(Name(r)) == OutputName(input, suffix, format) &&
      Suffix(Name(r)) == Suffix(Name(input))
  {
    OutputNameIsComponent(input, suffix, format);
    WithStemKeepsSuffix(input, OutputName(input, suffix, format));
  }

  /**
   * Without an output directory, `stem.ext` becomes `{stem}_{suffix}.{format}` lower-cased,
   * followed by the original `.ext`, in the same directory.
   */
  lemma BesideDottedFile(dir: seq<string>, stem: string, ext: string, suffix: string, format: string)
    requires IsComponent(stem) && ext != "" && '.' !in ext && '/' !in ext && '/' !in suffix && '/' !in format
    ensures var input := Path(dir + [stem + ['.'] + ext]);
      && Nameable(input, suffix, format)
      && GetFilePath(input, suffix, None, format) == Path(dir + [Lower(stem + "_" + suffix + "." + format) + ['.'] + ext])
  {
    var name := stem + ['.'] + ext;
    var input := Path(dir + [name]);
    DottedComponent(stem, ext);
    assert name != "/" by { assert '/' in "/"; }
    assert input.parts[|input.parts| - 1] == name;
    assert Name(input) == name;
    RFindAfterLast(stem, '.', ext);
    assert Stem(name) == stem;
    SuffixOfDotted(stem, ext);
    OutputNameIsComponent(input, suffix, format);
    var fileName := OutputName(input, suffix, format);
    assert input.parts[..|input.parts| - 1] == dir;
    assert fileName + (['.'] + ext) == fileName + ['.'] + ext;
  }

  lemma DecimalNameable(input: Path, format: string, i: nat)
    requires Nameable(input, "", format)
    ensures Nameable(input, Decimal(i), format)
  {
    var d := Decimal(i);
    forall k | 0 <= k < |d| ensures d[k] != '/' {
      assert '0' <= d[k] <= '9';
    }
  }

  /** Distinct interval numbers give distinct file names. */
  lemma NumberedNamesDistinct(input: Path, format: string, i: nat, j: nat)
    requires i != j
    ensures OutputName(input, Decimal(i), format) != OutputName(input, Decimal(j), format)
  {
    var a, b := Stem(Name(input)) + "_", "." + format;
    assert Stem(Name(input)) + "_" + Decimal(i) + "." + format == a + Decimal(i) + b;
    assert Stem(Name(input)) + "_" + Decimal(j) + "." + format == a + Decimal(j) + b;
    LowerConcat(a + Decimal(i), b);
    LowerConcat(a, Decimal(i));
    LowerConcat(a + Decimal(j), b);
    LowerConcat(a, Decimal(j));
    LowerOfDecimal(i);
    LowerOfDecimal(j);
    DecimalInjective(i, j);
    DifferentMiddles(Lower(a), Decimal(i), Decimal(j), Lower(b));
  }

  /** `_get_file_path(input, f'{i}', output_dir, format)`. */
  function NumberedPath(input: Path, outputDir: Option<Path>, format: string, i: nat): Path
    requires Nameable(input, "", format)
  {
    DecimalNameable(input, format, i);
    GetFilePath(input, Decimal(i), outputDir, format)
  }

  /** Distinct interval numbers give distinct output paths, with or without an output directory. */
  lemma NumberedPathsDistinct(input: Path, outputDir: Option<Path>, format: string, i: nat, j: nat)
    requires Nameable(input, "", format) && i != j
    ensures NumberedPath(input, outputDir, format, i) != NumberedPath(input, outputDir, format, j)
  {
    NumberedNamesDistinct(input, format, i, j);
    match outputDir
    case Some(dir) => NumberedInDirDistinct(input, dir, format, i, j);
    case None => NumberedBesideDistinct(input, format, i, j);
  }

  lemma NumberedInDirDistinct(input: Path, dir: Path, format: string, i: nat, j: nat)
    requires Nameable(input, "", format)
    requires OutputName(input, Decimal(i), format) != OutputName(input, Decimal(j), format)
    ensures NumberedPath(input, Some(dir), format, i) != NumberedPath(input, Some(dir), format, j)
  {
    assert Name(NumberedPath(input, Some(dir), format, i)) == OutputName(input, Decimal(i), format);
  }

  lemma NumberedBesideDistinct(input: Path, format: string, i: nat, j: nat)
    requires Nameable(input, "", format)
    requires OutputName(input, Decimal(i), format) != OutputName(input, Decimal(j), format)
    ensures NumberedPath(input, None, format, i) != NumberedPath(input, None, format, j)
  {
    var ni, nj, suf := OutputName(input, Decimal(i), format), OutputName(input, Decimal(j), format), Suffix(Name(input));
    BesideName(input, format, i);
    BesideName(input, format, j);
    DifferentHeads(ni, nj, suf);
  }

  /** Beside the input, interval `i`'s file is named by the generated name and the input's suffix. */
  lemma BesideName(input: Path, format: string, i: nat)
    requires Nameable(input, "", format)
    ensures Name(NumberedPath(input, None, format, i)) == OutputName(input, Decimal(i), format) + Suffix(Name(input))
  {
    DecimalNameable(input, format, i);
  }

  /** The output path of every interval number below `n`: `_get_file_path(input, f'{i}', ...)`. */
  function NumberedPaths(input: Path, outputDir: Option<Path>, format: string, n: nat): (ps: seq<Path>)
    requires Nameable(input, "", format)
    ensures |ps| == n
    ensures forall i :: 0 <= i < n ==> ps[i] == NumberedPath(input, outputDir, format, i)
    ensures forall i, j :: 0 <= i < j < n ==> ps[i] != ps[j]
  {
    var ps := seq(n, i requires 0 <= i => NumberedPath(input, outputDir, format, i));
    forall i, j | 0 <= i < j < n ensures ps[i] != ps[j] {
      NumberedPathsDistinct(input, outputDir, format, i, j);
    }
    ps
  }

  // ---------------------------------------------------------------------------
  // split_into_non_silent, as a function of the state before the loop

  /** The fixed inputs of one `split_into_non_silent` loop, with each interval's output path. */
  datatype SplitJob<S> = SplitJob(
    lo: real, hi: real, format: string, force: bool,
    waveform: seq<S>, sampleRate: nat, intervals: seq<Interval>, targets: seq<Path>)

  predicate ValidJob<S>(job: SplitJob<S>) {
    job.sampleRate > 0 && |job.targets| == |job.intervals|
  }

  /** No two intervals share an output path. */
  predicate DistinctTargets<S>(job: SplitJob<S>) {
    forall i, j :: 0 <= i < j < |job.targets| ==> job.targets[i] != job.targets[j]
  }

  /** The samples of interval `i`, `waveform[intr[0]:intr[1]]`. */
  function ClipOf<S>(job: SplitJob<S>, i: nat): seq<S>
    requires i < |job.intervals|
  {
    Slice(job.waveform, job.intervals[i].start, job.intervals[i].stop)
  }

  /** Interval `i` is written unless its duration is below `threshold[0]` or above `threshold[1]`. */
  predicate Keeps<S>(job: SplitJob<S>, i: nat)
    requires ValidJob(job) && i < |job.intervals|
  {
    var duration := |ClipOf(job, i)| as real / job.sampleRate as real;
    !(duration < job.lo || duration > job.hi)
  }

  /** One iteration of the loop. */
  function WriteStep<S>(files: map<Path, AudioFile<S>>, job: SplitJob<S>, i: nat): map<Path, AudioFile<S>>
    requires ValidJob(job) && i < |job.intervals|
  {
    if !Keeps(job, i) then files
    else if job.targets[i] !in files || job.force
    then files[job.targets[i] := AudioFile(ClipOf(job, i), job.sampleRate, job.format)]
    else files
  }

  /** The disk after the first `n` iterations. */
  function FilesAfter<S>(files: map<Path, AudioFile<S>>, job: SplitJob<S>, n: nat): map<Path, AudioFile<S>>
    requires ValidJob(job) && n <= |job.intervals|
  {
    if n == 0 then files else WriteStep(FilesAfter(files, job, n - 1), job, n - 1)
  }

  /** Without `force`, a file that existed before is still there, unchanged. */
  lemma {:induction false} ExistingNeverOverwritten<S>(files: map<Path, AudioFile<S>>, job: SplitJob<S>, n: nat, p: Path)
    requires ValidJob(job) && n <= |job.intervals|
    requires !job.force && p in files
    ensures p in FilesAfter(files, job, n) && FilesAfter(files, job, n)[p] == files[p]
  {
    if n > 0 {
      ExistingNeverOverwritten(files, job, n - 1, p);
    }
  }

  /** A path that no kept interval targets keeps its state: absent stays absent, content stays. */
  lemma {:induction false} OnlyTargetsChange<S>(files: map<Path, AudioFile<S>>, job: SplitJob<S>, n: nat, p: Path)
    requires ValidJob(job) && n <= |job.intervals|
    requires forall i :: 0 <= i < n && Keeps(job, i) ==> job.targets[i] != p
    ensures p in FilesAfter(files, job, n) <==> p in files
    ensures p in files ==> FilesAfter(files, job, n)[p] == files[p]
  {
    if n > 0 {
      OnlyTargetsChange(files, job, n - 1, p);
    }
  }

  /**
   * A kept interval whose file was absent (or any kept interval under `force`)
   * ends up on disk holding exactly its slice of the waveform at the loaded rate.
   */
  lemma {:induction false} KeptIntervalWritten<S>(files: map<Path, AudioFile<S>>, job: SplitJob<S>, n: nat, i: nat)
    requires ValidJob(job) && DistinctTargets(job) && i < n <= |job.intervals|
    requires Keeps(job, i) && (job.targets[i] !in files || job.force)
    ensures var after := FilesAfter(files, job, n);
      job.targets[i] in after && after[job.targets[i]] == AudioFile(ClipOf(job, i), job.sampleRate, job.format)
  {
    if n - 1 == i {
      if !job.force {
        OnlyTargetsChange(files, job, i, job.targets[i]);
      }
    } else {
      KeptIntervalWritten(files, job, n - 1, i);
      assert job.targets[i] != job.targets[n - 1];
    }
  }

  /** A skipped interval's number is never used: its file is not created. */
  lemma SkippedIntervalLeavesGap<S>(files: map<Path, AudioFile<S>>, job: SplitJob<S>, i: nat)
    requires ValidJob(job) && DistinctTargets(job) && i < |job.intervals|
    requires !Keeps(job, i) && job.targets[i] !in files
    ensures job.targets[i] !in FilesAfter(files, job, |job.intervals|)
  {
    OnlyTargetsChange(files, job, |job.intervals|, job.targets[i]);
  }

  /** The job `split_into_non_silent` runs: its targets are the numbered paths, hence distinct. */
  function JobFor<S>(input: Path, outputDir: Option<Path>, lo: real, hi: real, format: string, force: bool,
                     w: Waveform<S>, intervals: seq<Interval>): (job: SplitJob<S>)
    requires Nameable(input, "", format) && w.sampleRate > 0
    ensures ValidJob(job) && DistinctTargets(job) && job.intervals == intervals
    ensures forall i :: 0 <= i < |intervals| ==> job.targets[i] == NumberedPath(input, outputDir, format, i)
  {
    SplitJob(lo, hi, format, force, w.samples, w.sampleRate, intervals,
             NumberedPaths(input, outputDir, format, |intervals|))
  }

  /** The suffix `reduce_background_noise` gives its output. */
  const NoiseSuffix: string := "noisered"

  class AudioStore<S> {
    /** The audio files on disk. */
    var files: map<Path, AudioFile<S>>

    constructor (initial: map<Path, AudioFile<S>>)
      ensures files == initial
    {
      files := initial;
    }

    /** `split_into_non_silent` with `threshold = [lo, hi]`. */
    method SplitIntoNonSilent(input: Path, outputDir: Option<Path>, lo: real, hi: real, format: string, force: bool,
                              load: Path -> Waveform<S>, detect: seq<S> -> seq<Interval>)
      requires Nameable(input, "", format) && load(input).sampleRate > 0
      modifies this
      ensures var w := load(input);
        files == FilesAfter(old(files), JobFor(input, outputDir, lo, hi, format, force, w, detect(w.samples)),
                            |detect(w.samples)|)
    {
      var loaded := load(input);
      var waveform, sampleRate := loaded.samples, loaded.sampleRate;
      var intervals := detect(waveform);
      ghost var job := JobFor(input, outputDir, lo, hi, format, force, loaded, intervals);
      for i := 0 to |intervals|
        invariant files == FilesAfter(old(files), job, i)
      {
        WriteInterval(input, outputDir, lo, hi, format, force, waveform, sampleRate, intervals[i], i, job);
      }
    }

    /** One pass of the `split_into_non_silent` loop: interval `i`, `intr`, written to its numbered path. */
    method WriteInterval(input: Path, outputDir: Option<Path>, lo: real, hi: real, format: string, force: bool,
                         waveform: seq<S>, sampleRate: nat, intr: Interval, i: nat, ghost job: SplitJob<S>)
      requires Nameable(input, "", format) && ValidJob(job) && i < |job.intervals|
      requires job == SplitJob(lo, hi, format, force, waveform, sampleRate, job.intervals, job.targets)
      requires intr == job.intervals[i] && job.targets[i] == NumberedPath(input, outputDir, format, i)
      modifies this
      ensures files == WriteStep(old(files), job, i)
    {
      var clip := Slice(waveform, intr.start, intr.stop);
      var duration := |clip| as real / sampleRate as real;
      if duration < lo || duration > hi {
        return;
      }
      var outputFilePath := NumberedPath(input, outputDir, format, i);
      if outputFilePath !in files || force {
        files := files[outputFilePath := AudioFile(clip, sampleRate, format)];
      }
    }

    /** `reduce_background_noise`: writes the denoised input unless its target exists and `force` is off. */
    method ReduceBackgroundNoise(input: Path, outputDir: Option<Path>, format: string, force: bool,
                                 load: Path -> Waveform<S>, denoise: (seq<S>, nat) -> seq<S>)
      requires Nameable(input, NoiseSuffix, format)
      modifies this
      ensures var target, w := GetFilePath(input, NoiseSuffix, outputDir, format), load(input);
        files == if target !in old(files) || force
                 then old(files)[target := AudioFile(denoise(w.samples, w.sampleRate), w.sampleRate, format)]
                 else old(files)
    {
      var outputFilePath := GetFilePath(input, NoiseSuffix, outputDir, format);
      if outputFilePath !in files || force {
        var loaded := load(input);
        var reduced := denoise(loaded.samples, loaded.sampleRate);
        files := files[outputFilePath := AudioFile(reduced, loaded.sampleRate, format)];
      }
    }
  }
}
