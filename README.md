# yellow-legged-alert: waveform splitting, output naming and the xeno-canto client, in Dafny

This project models the logic of three files of the yellow-legged-alert project,
a tool that gathers recordings of the yellow-legged gull and prepares them as
training clips.

- **`yellow_legged_alert/sound.py`** has two splitters.
  - `split_audio_on_silence` keeps the non-silent intervals that a detector finds in a waveform. It can optionally filter them by duration.
  - `split_audio_on_time` cuts a waveform into windows of equal duration.
  - Module `Segmenter`: pure functions over sequences of opaque samples, with lemmas.
- **`src/sound.py`** has three parts.
  - `_get_file_path` names output files.
  - `split_into_non_silent` writes one numbered file per kept interval.
  - `reduce_background_noise` writes a denoised copy.
  - Module `SoundFiles`: pure naming functions, plus a class `AudioStore` whose map `files` is the disk.
  - Both commands are methods. Each is proved equal to a specification over the disk before the call.
- **`src/xenocanto.py`** is the catalog client.
  - `Recording.from_dict` and `_generate_filename` read a catalog entry and derive its canonical file name.
  - `_to_recordings` and `get_recordings_list` turn the API's answer into recordings.
  - `download_recordings` fetches the files that are not on disk yet.
  - Module `XenoCanto`: a `Recording` datatype, and imperative methods for the two loops.
  - The download loop belongs to a class `LocalFiles` whose set `existing` is the disk.

Three helper modules model the Python built-ins the code relies on:
- `Wrappers`: `Option`, `Result`, and the two exceptions raised (`KeyError`, `ValueError`).
- `Text`: ASCII `str.lower`, `str(n)`, `split`, `strip` and `rfind`.
- `Paths`: `pathlib` parsing, `/`, `name`, `stem`, `suffix`, `with_name` and `with_stem`, with the Python 3.11 rules.

All audio and network primitives become function parameters:
- `librosa.load`, `librosa.effects.split`, `librosa.effects.trim` and `noisereduce.reduce_noise`.
- The API call, URL quoting and the download adapter.

The main results:
- The silence splitter returns the original waveform's slices at exactly the intervals that pass the limits, in detector order.
- With limits, every clip's duration lies within them, both ends included.
- The time splitter's windows concatenate back to the buffer. Their count is the ceiling of length over window size. Every window but the last is full.
- A window size of 0 raises `ValueError`, and a negative one gives no windows.
- Output file names for distinct interval numbers are distinct. So `split_into_non_silent` writes each kept interval's exact samples to its own file.
- Without `force` it never overwrites a file, and it leaves a gap in the numbering for a skipped interval.
- `from_dict` succeeds exactly when all six keys are present. Its file name is lower case, and it parses back into the (lower-cased) fields.
- `_to_recordings` keeps exactly the well-formed entries, in order.
- `download_recordings` maps every considered recording to a path. With an adapter that stores files where asked and without `force`, it counts exactly the distinct missing targets. With `force` it counts every considered recording.

## Model

| member | source | states |
|---|---|---|
| Segmenter.Slice | yellow_legged_alert/sound.py:38 | `waveform[start:stop]` clamps to the buffer: never longer than it, the k-th sample is `w[start + k]`, and the length is `min(stop, len) - start` or 0 |
| Segmenter.SliceLength | yellow_legged_alert/sound.py:38 | for an in-bounds interval the slice is exactly `w[start..stop]`, of length `stop - start` |
| Segmenter.ReduceNoise | yellow_legged_alert/sound.py:25-27 | `reduce_noise` returns the sample rate it was given, unchanged |
| Segmenter.InLimits | yellow_legged_alert/sound.py:40 | definition of the filter (no contract): true without limits; with `[lo, hi]`, true exactly when the rate is positive and `(stop - start) / sample_rate` lies in `[lo, hi]`, both ends included, because a zero rate gives numpy's inf or nan, which fail the test |
| Segmenter.DetectionBuffer | yellow_legged_alert/sound.py:34-36 | definition (no contract): the detector runs on the denoised buffer when `remove_noise` is set, otherwise on the waveform itself |
| Segmenter.SelectClips | yellow_legged_alert/sound.py:37-41 | the comprehension yields at most one clip per detected interval |
| Segmenter.KeptFrom | yellow_legged_alert/sound.py:40 | reference definition of the filter: its positions are strictly increasing and each one passes the limits test |
| Segmenter.KeptFromComplete | yellow_legged_alert/sound.py:40 | no position that passes the limits test is missed by the filter |
| Segmenter.SelectClipsFrom | yellow_legged_alert/sound.py:37-41 | the comprehension slices exactly the intervals at the reference filter's positions, in the same order |
| Segmenter.SplitOnSilence | yellow_legged_alert/sound.py:30-43 | `split_audio_on_silence` returns the sample rate it was given, and no more clips than the detector found intervals |
| Segmenter.SplitOnSilenceSlicesOriginal | yellow_legged_alert/sound.py:34-41 | the k-th clip is the original waveform (not the denoised one) sliced at the k-th interval that passes the filter, and there is one clip per such interval |
| Segmenter.KeptAllFrom | yellow_legged_alert/sound.py:40 | without limits (`not limits`) the filter keeps every position |
| Segmenter.SplitOnSilenceUnlimited | yellow_legged_alert/sound.py:37-41 | without limits there is exactly one clip per detected interval, the k-th being the k-th interval's slice |
| Segmenter.ZeroRateKeepsNothing | yellow_legged_alert/sound.py:37-41 | with limits and a sample rate of 0, no interval passes the filter and no clip is returned |
| Segmenter.SelectedDurations | yellow_legged_alert/sound.py:37-41 | for in-bounds intervals, each kept clip's duration lies in `[lo, hi]` |
| Segmenter.SplitOnSilenceDurations | yellow_legged_alert/sound.py:30-43 | with a length-preserving denoiser and a detector whose intervals are in bounds, every returned clip lasts between `limits[0]` and `limits[1]` seconds, both included |
| Segmenter.SegmentSize | yellow_legged_alert/sound.py:52 | `int(duration * sample_rate)` truncates toward zero: within one of the product and not above it in absolute value |
| Segmenter.Windows | yellow_legged_alert/sound.py:53-55 | definition of the comprehension (no contract): one slice `w[i:i + size]` for each `i` of `range(from, len(w), size)`; its properties are the next five rows |
| Segmenter.WindowsCount | yellow_legged_alert/sound.py:53-55 | `range(0, len, size)` gives no window for an empty buffer and otherwise n windows with `(n-1)*size < len <= n*size` |
| Segmenter.WindowAt | yellow_legged_alert/sound.py:54 | the j-th window is the slice that starts j whole windows after the first, `size` samples long (clamped) |
| Segmenter.WindowStartIs | yellow_legged_alert/sound.py:54 | j whole windows after `from` is position `from + j*size`, the j-th value of `range(0, len, size)` |
| Segmenter.ConcatWindows | yellow_legged_alert/sound.py:53-55 | concatenating the windows gives back the buffer: nothing is lost, duplicated or reordered |
| Segmenter.WindowLength | yellow_legged_alert/sound.py:54 | every window but the last has exactly `size` samples; the last holds the remainder |
| Segmenter.CountIsCeiling | yellow_legged_alert/sound.py:53-55 | the number of windows of `range(0, len, size)` is `ceil(len / size)`, written `(len + size - 1) / size` |
| Segmenter.SplitOnTime | yellow_legged_alert/sound.py:46-57 | a window size of 0 raises ValueError and a negative one gives no clips; otherwise the clips concatenate to the (optionally trimmed) buffer, number `ceil(len/size)`, are all full but the last, and the rate is returned unchanged |
| Segmenter.NineSecondsOnSilence | yellow_legged_alert/sound.py:30-43 | on the nine-second test signal with a one-second tone at 1–2 s and a two-second tone at 4–6 s, no limits give the two tones and limits `[0.5, 1.5]` keep only the one-second tone |
| Segmenter.NineSecondsOnTime | yellow_legged_alert/sound.py:46-57 | on the nine-second test signal one-second windows give nine full clips, two-second windows give four full clips and a last one of one second |
| Text.Lower | src/xenocanto.py:39-41 | `str.lower` keeps the length, leaves every non-capital unchanged and maps each capital `A`..`Z` to its own lower-case letter (code point plus 32); the result has no capitals |
| Text.Decimal | src/sound.py:31 | `f'{i}'` is a non-empty string of digits without a leading zero |
| Text.DecimalInjective | src/sound.py:31 | different interval numbers print differently (via the parse-back round trip) |
| Paths.Suffix | src/xenocanto.py:43 | `Path.suffix` is empty or a dot followed by a dot-free, non-empty tail of the name |
| Paths.SuffixOfDotted | src/xenocanto.py:43 | the suffix of `base.ext`, for a non-empty base and a non-empty, dot-free `ext`, is `.ext` |
| Paths.WithStem | src/sound.py:15 | definition (no contract): `with_stem` names the path by the new stem followed by the old suffix, through `with_name`, whose contract keeps the parent; the stem and suffix it yields are stated by WithStemKeepsSuffix |
| Paths.WithStemKeepsSuffix | src/sound.py:15 | `with_stem` keeps the parent and the old suffix and makes the given string the new stem |
| Paths.Join | src/sound.py:13 | definition (no contract): `dir / s` appends the parsed components of a relative `s` and is the parsed `s` when `s` is absolute; JoinComponent states the one-component case |
| Paths.JoinComponent | src/sound.py:13 | `output_dir / file_name` has parent `output_dir` and name `file_name` |
| SoundFiles.OutputName | src/sound.py:9 | definition (no contract): `"{stem}_{suffix}.{format}".lower()` of the input's stem; stated by OutputNameIsComponent and NumberedNamesDistinct |
| SoundFiles.OutputNameIsComponent | src/sound.py:9 | the generated name (and the name with the input's suffix appended) is a single valid path component |
| SoundFiles.GetFilePath | src/sound.py:7-17 | with an output directory the file goes there under `"{stem}_{suffix}.{format}".lower()`; without one it stays beside the input under that name followed by the input's own suffix |
| SoundFiles.GetFilePathBesideInput | src/sound.py:15 | without an output directory the new stem is the whole generated name and the input's extension is kept |
| SoundFiles.BesideDottedFile | src/sound.py:7-17 | without an output directory, `dir/stem.ext` becomes `dir/` + `"{stem}_{suffix}.{format}".lower()` + `.ext` (so `a.mp3` with `noisered` and `WAV` becomes `a_noisered.wav.mp3`) |
| SoundFiles.NumberedNamesDistinct | src/sound.py:31 | distinct interval numbers give distinct file names |
| SoundFiles.NumberedPathsDistinct | src/sound.py:31 | distinct interval numbers give distinct output paths, with or without an output directory |
| SoundFiles.NumberedPaths | src/sound.py:25-31 | the output path of each interval number below n is its `_get_file_path(input, f'{i}', ...)`, and no two of them coincide |
| SoundFiles.JobFor | src/sound.py:19-31 | the job the loop runs has one target per detected interval, the numbered output paths, all distinct |
| SoundFiles.Keeps | src/sound.py:27-29 | definition (no contract): interval i is written unless its duration, the slice length over the rate as `librosa.get_duration` computes it, is below `threshold[0]` or above `threshold[1]` |
| SoundFiles.WriteStep | src/sound.py:26-33 | definition (no contract): one loop pass on the disk, unchanged for a skipped interval or for an existing target without `force`, otherwise the target holds the slice, the rate and the format as `sf.write` stores them |
| SoundFiles.FilesAfter | src/sound.py:25-33 | definition (no contract): the disk after the first n passes, WriteStep folded over the intervals in `enumerate` order; stated by the next four rows |
| SoundFiles.ExistingNeverOverwritten | src/sound.py:32-33 | without `force`, a file that existed before the loop is still there with the same content |
| SoundFiles.OnlyTargetsChange | src/sound.py:25-33 | a path that no kept interval targets is neither created, deleted nor changed |
| SoundFiles.KeptIntervalWritten | src/sound.py:25-33 | a kept interval whose file was missing (or any kept interval under `force`) ends up on disk holding exactly its slice, the loaded sample rate and the format |
| SoundFiles.SkippedIntervalLeavesGap | src/sound.py:26-31 | an interval outside the threshold leaves its numbered file uncreated |
| SoundFiles.AudioStore.SplitIntoNonSilent | src/sound.py:19-33 | the disk after the loop is the fold of the per-interval write step over all detected intervals, applied to the disk before the call |
| SoundFiles.AudioStore.WriteInterval | src/sound.py:26-33 | one pass of the loop changes the disk exactly as the write step: nothing for an interval outside the threshold or an existing file without `force`, otherwise the interval's samples at its numbered path |
| SoundFiles.AudioStore.ReduceBackgroundNoise | src/sound.py:35-44 | when the target is missing or `force` is set, the denoised input (at the loaded rate and the given format) is stored at the target and nothing else changes; otherwise the disk is unchanged |
| XenoCanto.GenerateFilename | src/xenocanto.py:25-32 | the canonical file name has no capital letters |
| XenoCanto.AudioType | src/xenocanto.py:43 | the audio type has no dot and no capital letters |
| XenoCanto.AudioTypeOfExtension | src/xenocanto.py:43 | the audio type of `base.ext` is `ext` lower-cased |
| XenoCanto.FromDict | src/xenocanto.py:34-50 | succeeds exactly when `id`, `gen`, `sp`, `ssp`, `file` and `file-name` are all present, failing with KeyError otherwise; copies `id` and `file` verbatim, lower-cases `gen`, `sp`, `ssp`, takes the audio type from `file-name`, and sets `filename` to the canonical name of the record |
| XenoCanto.FilenameRoundTrip | src/xenocanto.py:25-32 | the canonical name parses back into the lower-cased genus, species, subspecies, id and extension when none of them contains `_` or `.` |
| XenoCanto.FromDictFilenameRoundTrip | src/xenocanto.py:34-50 | the file name of a record built from plain fields parses back into that record's genus, species, subspecies, id and audio type |
| XenoCanto.FromDictCatalogEntry | src/xenocanto.py:34-50 | the catalog's entry 541961 (Larus michahellis lusitanius, an mp3) becomes `larus_michahellis_lusitanius_541961.mp3` with id and URL copied |
| XenoCanto.FromDictMissingKeys | src/xenocanto.py:36-46 | an entry with only `id`, `genus` and `subspecies` is rejected with KeyError |
| XenoCanto.Successes | src/xenocanto.py:52-60 | the loop keeps at most as many values as there were entries |
| XenoCanto.RecordingsConcat | src/xenocanto.py:52-60 | converting two lists one after the other gives the conversions one after the other: input order is kept |
| XenoCanto.RecordingsCount | src/xenocanto.py:52-60 | there is one recording per entry carrying all six keys, never more than the entries |
| XenoCanto.RecordingsMembership | src/xenocanto.py:52-60 | a recording is returned exactly when some entry converts to it |
| XenoCanto.ToRecordings | src/xenocanto.py:52-60 | the loop returns the well-formed entries' recordings in input order, skipping entries that raise KeyError |
| XenoCanto.RawList | src/xenocanto.py:72-75 | definition (no contract): the answer's `recordings` list, or the empty list when the `KeyError` is caught |
| XenoCanto.RecordingsUrl | src/xenocanto.py:67-68 | the request URL starts with the API endpoint |
| XenoCanto.GetRecordingsList | src/xenocanto.py:65-77 | returns the recordings of the answer's `recordings` list, and no recordings when the answer has no such key |
| XenoCanto.Considered | src/xenocanto.py:90 | the considered recordings are the first `limit` when `0 < limit`, otherwise all of them |
| XenoCanto.TargetOf | src/xenocanto.py:91 | definition (no contract): `Path(output_dir) / rec.filename` |
| XenoCanto.DownloadStep | src/xenocanto.py:91-100 | definition (no contract): one loop pass; when the target is missing or `force` is set, the adapter's returned path is recorded, counted and on disk afterwards, otherwise the target is recorded and nothing is counted |
| XenoCanto.DownloadRun | src/xenocanto.py:88-100 | definition (no contract): the loop from an empty map and a zero counter, DownloadStep folded over the recordings in order; stated by the DownloadRun rows below |
| XenoCanto.DownloadRunKeys | src/xenocanto.py:90-100 | the returned map has an entry for the id of every considered recording, downloaded or not, and for no other id |
| XenoCanto.DownloadRunCount | src/xenocanto.py:93-95 | the counter never exceeds the number of considered recordings, equals it under `force`, and files on disk stay there |
| XenoCanto.DownloadRunExisting | src/xenocanto.py:91-94 | with an adapter that stores files where asked, every considered target is on disk afterwards |
| XenoCanto.DownloadRunMissingOnly | src/xenocanto.py:91-102 | with an adapter that stores files where asked and without `force`, the counter is the number of distinct targets that were missing at the start: existing files are not fetched again nor counted |
| XenoCanto.DownloadRunPaths | src/xenocanto.py:91-100 | with distinct ids and an adapter that stores in place, each id maps to its recording's target (`output_dir / filename` in the method) |
| XenoCanto.FreshRunFetchesAll | src/xenocanto.py:90-102 | two recordings with missing targets are both fetched and mapped to their targets |
| XenoCanto.RepeatedRunFetchesNothing | src/xenocanto.py:90-102 | once both targets exist, a run without `force` fetches nothing and still maps both ids |
| XenoCanto.LimitOneConsidersFirst | src/xenocanto.py:90 | a limit of one considers only the first recording |
| XenoCanto.LocalFiles.DownloadRecordings | src/xenocanto.py:82-102 | a wait under one second raises ValueError before anything happens; otherwise the returned map and counter and the files on disk are those of the download loop over the considered recordings |
| XenoCanto.RefuseShortWait | src/xenocanto.py:85-86 | a wait of 0 is refused with ValueError even for an empty list |

## Left out

- `librosa.load`, `librosa.effects.split`, `librosa.effects.trim` and `noisereduce.reduce_noise` are parameters with no behaviour of their own. Properties that need them carry preconditions: intervals in bounds, a length-preserving denoiser.
- `soundfile.write` and `librosa.get_duration` are given concrete behaviour. `sf.write` stores the samples, the rate and the format at the path in the disk map (`WriteStep`, `WriteInterval`, `ReduceBackgroundNoise`). `get_duration` is the sample count over the rate (`Keeps`). The encoded file contents and any resampling are not modelled.
- Samples are opaque values and durations are exact rationals. Floating-point rounding in `duration * sample_rate` and in the duration tests is not modelled.
- The test assertions about approximate durations (`assertAlmostEqual`) and the trimmed split's "5 or 6 clips" depend on librosa's detector and trimmer. They are not modelled. The scenario lemmas assume an exact detector instead.
- Segmenter.ReduceNoise: states only that the sample rate is passed through; the denoised samples are whatever the external denoiser returns.
- `open_waveform` and `save_waveform` (yellow_legged_alert/sound.py:9-22) are I/O wrappers and are not part of this model.
- A `limits` list with a single element: the chained comparison `limits[0] <= x <= limits[1]` reads `limits[1]` only when `limits[0] <= x` holds, so IndexError is raised once some interval's duration reaches `limits[0]`, and the call returns normally when there are no intervals or only shorter ones. `Limits` has no such value, so this case is not modelled.
- In `split_into_non_silent`, `threshold` is taken as the pair `(lo, hi)`. The loaded sample rate is required to be positive, as `librosa.load` guarantees; a zero rate would divide by zero in `get_duration`.
- The disk holds only what these functions write. `is_file()` is membership in `AudioStore.files` or `LocalFiles.existing`. Directories and other processes are not modelled.
- `time.sleep(wait)`, `requests.get`, `wget.download` and `urllib.parse.quote` are left out or passed in as parameters. The download adapter is assumed to leave a file at the path it returns.
- XenoCanto.FromDictFilenameRoundTrip: requires that the audio type derived from `file-name` contains no `_`, because a `_` there would make the name split into more than four fields.
- `download_recordings` returns a `defaultdict(Path)`: looking up an id that was not considered gives `Path('.')` rather than raising KeyError. The model returns a `map<string, Path>` and states only its entries; the default for missing keys is not modelled.
- JSON values are taken to be strings. An entry whose `gen` is not a string would raise AttributeError, which is not modelled.
- `str.lower` is modelled for ASCII only. Unicode case mapping is left out.
- Path names are assumed non-empty and free of `/`, as are the suffix and format. Under these assumptions `with_stem` cannot raise ValueError.
- Paths are kept as lists of components. Only the `Path.suffix` rules of Python 3.11 (last dot, not first, not last) are modelled.
- The window size of `split_audio_on_time` follows the code: `int(duration * sample_rate)` truncates toward zero rather than rounds.
- The duration filter of `split_audio_on_silence` divides exactly, without truncation. Limits are not validated, and they are finite: `float('inf')` as a limit is not modelled.
- With limits and a sample rate of 0, the filter divides numpy integers by zero, which gives inf or nan with a warning rather than an exception. The model keeps no interval then (`ZeroRateKeepsNothing`). A detector returning plain Python integers would raise ZeroDivisionError instead; that path is not modelled.
- Some tests no longer match the code.
  - `tests/test_xenocanto.py:95-112` treats the result of `download_recordings` as a dictionary, but the code returns a `(paths, count)` pair.
  - `tests/test_sound.py` imports the splitters from a module that no longer has them.
  - The model follows the code.
