/**
 * `src/xenocanto.py`: catalog records of the xeno-canto recordings API, their
 * canonical file names, and the download loop that fetches the files that
 * are not on disk yet.
 *
 * The HTTP call (`api_adapter`), URL quoting (`urllib.parse.quote`) and the
 * download (`download_adapter`) are parameters; the disk is the set of
 * existing paths held by `LocalFiles`.
 */
module XenoCanto {
  import opened Wrappers
  import opened Text
  import opened Paths

  /** A catalog entry as the JSON API returns it: field name to text. */
  type RawRecord = map<string, string>

  /** The decoded API response; only its `recordings` list is read. */
  type Response = map<string, seq<RawRecord>>

  const ApiEndpoint := "https://www.xeno-canto.org/api/2"

  /** The keys `from_dict` reads; a missing one raises KeyError. */
  const RequiredKeys: set<string> := {"id", "gen", "sp", "ssp", "file", "file-name"}

  datatype Recording = Recording(
    id: string, genus: string, species: string, subspecies: string,
    url: string, audioType: string, filename: string)

  /** `_generate_filename`: `"{genus}_{species}_{subspecies}_{id}.{ext}".lower()`. */
  function GenerateFilename(rec: Recording): (name: string)
    ensures IsLower(name)
  {
    Lower(rec.genus + "_" + rec.species + "_" + rec.subspecies + "_" + rec.id + "." + rec.audioType)
  }

  /** `Path(file_name).suffix.strip('.').lower()`: the extension, without its dot. */
  function AudioType(fileName: string): (t: string)
    ensures IsLower(t) && '.' !in t
  {
    var suffix := Suffix(Name(PathOf(fileName)));
    if suffix == "" then ""
    else
      StripLeading(suffix, '.');
      LowerKeepsAbsent(suffix[1..], '.');
      Lower(Strip(suffix, '.'))
  }

  /** The extension of `base.ext` is `ext`, lower-cased. */
  lemma AudioTypeOfExtension(base: string, ext: string)
    requires IsComponent(base) && ext != "" && '.' !in ext && '/' !in ext
    ensures AudioType(base + "." + ext) == Lower(ext)
  {
    var name := base + "." + ext;
    DottedComponent(base, ext);
    NameOfComponent(name);
    SuffixOfDotted(base, ext);
    StripLeading("." + ext, '.');
    assert ("." + ext)[1..] == ext;
  }

  /** The name of a path made of one component is that component. */
  lemma NameOfComponent(name: string)
    requires IsComponent(name)
    ensures Name(PathOf(name)) == name
  {
    ComponentsOfOne(name);
    assert name[0] != '/';
  }

  /** `Recording.from_dict`; the `filename` field is filled in after construction. */
  function FromDict(data: RawRecord): (r: Result<Recording>)
    ensures r.Failure? <==> !(RequiredKeys <= data.Keys)
    ensures r.Failure? ==> r.error == KeyError
    ensures r.Success? ==>
      && r.value.id == data["id"] && r.value.url == data["file"]
      && r.value.genus == Lower(data["gen"]) && r.value.species == Lower(data["sp"])
      && r.value.subspecies == Lower(data["ssp"])
      && r.value.audioType == AudioType(data["file-name"])
      && r.value.filename == GenerateFilename(r.value)
  {
    if !(RequiredKeys <= data.Keys) then Failure(KeyError)
    else
      var rec := Recording(
        id := data["id"],
        genus := Lower(data["gen"]),
        species := Lower(data["sp"]),
        subspecies := Lower(data["ssp"]),
        url := data["file"],
        audioType := AudioType(data["file-name"]),
        filename := "");
      Success(rec.(filename := GenerateFilename(rec)))
  }

  // ---------------------------------------------------------------------------
  // Reading a canonical file name back

  datatype FilenameFields = FilenameFields(genus: string, species: string, subspecies: string, id: string, ext: string)

  /** Splits `genus_species_subspecies_id.ext` back into its five fields. */
  function ParseFilename(name: string): Option<FilenameFields> {
    var parts := SplitOn(name, '_');
    if |parts| != 4 then None
    else
      var last := SplitOn(parts[3], '.');
      if |last| != 2 then None
      else Some(FilenameFields(parts[0], parts[1], parts[2], last[0], last[1]))
  }

  predicate PlainField(s: string) {
    '_' !in s && '.' !in s
  }

  /**
   * The canonical file name determines the (lower-cased) fields it was built from,
   * as long as none of them contains the separators `_` or `.`.
   */
  lemma FilenameRoundTrip(rec: Recording)
    requires PlainField(rec.genus) && PlainField(rec.species) && PlainField(rec.subspecies)
    requires PlainField(rec.id) && PlainField(rec.audioType)
    ensures ParseFilename(GenerateFilename(rec)) == Some(FilenameFields(
      Lower(rec.genus), Lower(rec.species), Lower(rec.subspecies), Lower(rec.id), Lower(rec.audioType)))
  {
    var g, s, ss, id, ext := Lower(rec.genus), Lower(rec.species), Lower(rec.subspecies), Lower(rec.id), Lower(rec.audioType);
    LowerKeepsAbsent(rec.genus, '_');
    LowerKeepsAbsent(rec.species, '_');
    LowerKeepsAbsent(rec.subspecies, '_');
    LowerKeepsAbsent(rec.id, '_');
    LowerKeepsAbsent(rec.audioType, '_');
    LowerKeepsAbsent(rec.id, '.');
    LowerKeepsAbsent(rec.audioType, '.');
    var tail := JoinWith([id, ext], '.');
    TailHasNoUnderscore(id, ext);
    LowerFilename(rec);
    JoinFour(g, s, ss, tail);
    SplitOfJoin([g, s, ss, tail], '_');
    SplitOfJoin([id, ext], '.');
  }

  /** Lower-casing the canonical name lower-cases each field. */
  lemma LowerFilename(rec: Recording)
    ensures GenerateFilename(rec) == JoinWith([Lower(rec.genus), Lower(rec.species), Lower(rec.subspecies),
                                               JoinWith([Lower(rec.id), Lower(rec.audioType)], '.')], '_')
  {
    var g, s, ss, id, ext := Lower(rec.genus), Lower(rec.species), Lower(rec.subspecies), Lower(rec.id), Lower(rec.audioType);
    var head := rec.genus + "_" + rec.species + "_" + rec.subspecies + "_";
    LowerHead(rec.genus, rec.species, rec.subspecies);
    LowerConcat(head, rec.id);
    LowerSeparator(head + rec.id, '.');
    LowerConcat(head + rec.id + ".", rec.audioType);
    JoinTwo(id, ext);
    JoinFour(g, s, ss, id + "." + ext);
  }

  lemma JoinTwo(a: string, b: string)
    ensures JoinWith([a, b], '.') == a + "." + b
  {
    assert [a, b][1..] == [b];
  }

  /** Lower-casing does not touch a separator that is not a letter. */
  lemma LowerSeparator(a: string, c: char)
    requires !('A' <= c <= 'Z')
    ensures Lower(a + [c]) == Lower(a) + [c]
  {
    LowerConcat(a, [c]);
    assert Lower([c])[0] == c;
  }

  lemma LowerHead(a: string, b: string, c: string)
    ensures Lower(a + "_" + b + "_" + c + "_") == Lower(a) + "_" + Lower(b) + "_" + Lower(c) + "_"
  {
    LowerSeparator(a, '_');
    LowerConcat(a + "_", b);
    LowerSeparator(a + "_" + b, '_');
    LowerConcat(a + "_" + b + "_", c);
    LowerSeparator(a + "_" + b + "_" + c, '_');
  }

  lemma JoinFour(a: string, b: string, c: string, d: string)
    ensures JoinWith([a, b, c, d], '_') == a + "_" + b + "_" + c + "_" + d
  {
    var parts := [a, b, c, d];
    assert parts[1..] == [b, c, d];
    assert parts[1..][1..] == [c, d];
    assert parts[1..][1..][1..] == [d];
    assert JoinWith([c, d], '_') == c + "_" + d;
    assert JoinWith([b, c, d], '_') == b + "_" + (c + "_" + d) == b + "_" + c + "_" + d;
    assert JoinWith(parts, '_') == a + "_" + (b + "_" + c + "_" + d) == a + "_" + b + "_" + c + "_" + d;
  }

  lemma TailHasNoUnderscore(id: string, ext: string)
    requires '_' !in id && '_' !in ext
    ensures '_' !in JoinWith([id, ext], '.')
  {
    assert [id, ext][1..] == [ext];
    var tail := id + "." + ext;
    forall k | 0 <= k < |tail| ensures tail[k] != '_' {
      if k < |id| { assert tail[k] == id[k]; }
      else if k > |id| { assert tail[k] == ext[k - |id| - 1]; }
    }
  }

  /** A recording built by `from_dict` from plain fields carries them in its file name. */
  lemma FromDictFilenameRoundTrip(data: RawRecord)
    requires RequiredKeys <= data.Keys
    requires PlainField(data["gen"]) && PlainField(data["sp"]) && PlainField(data["ssp"]) && PlainField(data["id"])
    requires '_' !in AudioType(data["file-name"])
    ensures var rec := FromDict(data).value;
      ParseFilename(rec.filename) == Some(FilenameFields(rec.genus, rec.species, rec.subspecies, Lower(rec.id), rec.audioType))
  {
    var rec := FromDict(data).value;
    LowerKeepsAbsent(data["gen"], '_');
    LowerKeepsAbsent(data["sp"], '_');
    LowerKeepsAbsent(data["ssp"], '_');
    LowerKeepsAbsent(data["gen"], '.');
    LowerKeepsAbsent(data["sp"], '.');
    LowerKeepsAbsent(data["ssp"], '.');
    FilenameRoundTrip(rec);
    LowerOfLower(rec.genus);
    LowerOfLower(rec.species);
    LowerOfLower(rec.subspecies);
    LowerOfLower(rec.audioType);
  }

  /**
   * The first entry of the catalog's answer for Larus michahellis lusitanius;
   * its `file-name` is some `<base>.mp3`.
   */
  function CatalogEntry(fileBase: string): RawRecord {
    map[
      "id" := "541961", "gen" := "Larus", "sp" := "michahellis", "ssp" := "lusitanius",
      "file" := "https://xeno-canto.org/541961/download", "file-name" := fileBase + ".mp3"]
  }

  lemma LowerOfEntryNames()
    ensures Lower("Larus") == "larus" && Lower("michahellis") == "michahellis"
    ensures Lower("lusitanius") == "lusitanius" && Lower("mp3") == "mp3"
  {
    LowerOfLower("michahellis");
    LowerOfLower("lusitanius");
    LowerOfLower("mp3");
  }

  lemma EntryPieces(g: string, s: string, ss: string, id: string, e: string)
    requires g == "larus" && s == "michahellis" && ss == "lusitanius" && id == "541961" && e == "mp3"
    ensures g + "_" + s + "_" + ss + "_" + id + "." + e == "larus_michahellis_lusitanius_541961.mp3"
  {
  }

  lemma CatalogEntryFilename(rec: Recording)
    requires rec.genus == "larus" && rec.species == "michahellis" && rec.subspecies == "lusitanius"
    requires rec.id == "541961" && rec.audioType == "mp3"
    ensures GenerateFilename(rec) == "larus_michahellis_lusitanius_541961.mp3"
  {
    var full := "larus_michahellis_lusitanius_541961.mp3";
    LowerOfLower(full);
    EntryPieces(rec.genus, rec.species, rec.subspecies, rec.id, rec.audioType);
  }

  /** `from_dict` on the catalog entry gives the recording the catalog describes. */
  lemma FromDictCatalogEntry(fileBase: string)
    requires IsComponent(fileBase)
    ensures var r := FromDict(CatalogEntry(fileBase));
      && r.Success?
      && r.value.id == "541961" && r.value.genus == "larus" && r.value.species == "michahellis"
      && r.value.subspecies == "lusitanius" && r.value.url == "https://xeno-canto.org/541961/download"
      && r.value.audioType == "mp3"
      && r.value.filename == "larus_michahellis_lusitanius_541961.mp3"
  {
    var data := CatalogEntry(fileBase);
    CatalogEntryFields(fileBase);
    LowerOfEntryNames();
    AudioTypeOfExtension(fileBase, "mp3");
    CatalogEntryFilename(FromDict(data).value);
  }

  lemma CatalogEntryFields(fileBase: string)
    ensures var data := CatalogEntry(fileBase);
      && RequiredKeys <= data.Keys
      && data["id"] == "541961" && data["gen"] == "Larus" && data["sp"] == "michahellis"
      && data["ssp"] == "lusitanius" && data["file"] == "https://xeno-canto.org/541961/download"
      && data["file-name"] == fileBase + "." + "mp3"
  {
  }

  /** An entry without `gen`, `sp`, `file` or `file-name` is rejected with KeyError. */
  lemma FromDictMissingKeys()
    ensures FromDict(map["id" := "541961", "genus" := "Larus", "subspecies" := "lusitanius"]) == Failure(KeyError)
  {
    assert "gen" !in map["id" := "541961", "genus" := "Larus", "subspecies" := "lusitanius"].Keys;
  }

  // ---------------------------------------------------------------------------
  // From raw catalog entries to recordings

  /** The values `convert` succeeds on, in input order; the entries it fails on are dropped. */
  function Successes<D, R>(raw: seq<D>, convert: D -> Result<R>): (kept: seq<R>)
    ensures |kept| <= |raw|
  {
    if raw == [] then []
    else
      var last := convert(raw[|raw| - 1]);
      Successes(raw[..|raw| - 1], convert) + (if last.Success? then [last.value] else [])
  }

  /** Number of entries `convert` succeeds on. */
  function SuccessCount<D, R>(raw: seq<D>, convert: D -> Result<R>): nat {
    if raw == [] then 0
    else SuccessCount(raw[..|raw| - 1], convert) + (if convert(raw[|raw| - 1]).Success? then 1 else 0)
  }

  /** The recordings `_to_recordings` keeps: the well-formed entries, in order. */
  function Recordings(raw: seq<RawRecord>): seq<Recording> {
    Successes(raw, FromDict)
  }

  /** Converting a concatenation converts each part: the input order is kept. */
  lemma {:induction false} SuccessesConcat<D, R>(a: seq<D>, b: seq<D>, convert: D -> Result<R>)
    ensures Successes(a + b, convert) == Successes(a, convert) + Successes(b, convert)
    decreases |b|
  {
    if b == [] {
      assert a + b == a;
    } else {
      var ab := a + b;
      assert ab[..|ab| - 1] == a + b[..|b| - 1];
      assert ab[|ab| - 1] == b[|b| - 1];
      SuccessesConcat(a, b[..|b| - 1], convert);
    }
  }

  lemma {:induction false} SuccessesCount<D, R>(raw: seq<D>, convert: D -> Result<R>)
    ensures |Successes(raw, convert)| == SuccessCount(raw, convert)
  {
    if raw != [] {
      SuccessesCount(raw[..|raw| - 1], convert);
    }
  }

  lemma {:induction false} SuccessesMembership<D, R>(raw: seq<D>, convert: D -> Result<R>, x: R)
    ensures x in Successes(raw, convert) <==> exists k :: 0 <= k < |raw| && convert(raw[k]) == Success(x)
  {
    if raw != [] {
      var init := raw[..|raw| - 1];
      SuccessesMembership(init, convert, x);
      if exists k :: 0 <= k < |raw| && convert(raw[k]) == Success(x) {
        var k :| 0 <= k < |raw| && convert(raw[k]) == Success(x);
        if k < |init| {
          assert init[k] == raw[k];
        }
      }
      if exists k :: 0 <= k < |init| && convert(init[k]) == Success(x) {
        var k :| 0 <= k < |init| && convert(init[k]) == Success(x);
        assert raw[k] == init[k];
      }
    }
  }

  /** Number of entries carrying every key `from_dict` reads. */
  function WellFormedCount(raw: seq<RawRecord>): nat {
    if raw == [] then 0
    else WellFormedCount(raw[..|raw| - 1]) + (if RequiredKeys <= raw[|raw| - 1].Keys then 1 else 0)
  }

  /** Converting a concatenation converts each part: the input order is kept. */
  lemma RecordingsConcat(a: seq<RawRecord>, b: seq<RawRecord>)
    ensures Recordings(a + b) == Recordings(a) + Recordings(b)
  {
    SuccessesConcat(a, b, FromDict);
  }

  /** One recording per well-formed entry, hence never more than there were entries. */
  lemma {:induction false} RecordingsCount(raw: seq<RawRecord>)
    ensures |Recordings(raw)| == WellFormedCount(raw) <= |raw|
  {
    SuccessesCount(raw, FromDict);
    WellFormedSuccesses(raw);
  }

  lemma {:induction false} WellFormedSuccesses(raw: seq<RawRecord>)
    ensures SuccessCount(raw, FromDict) == WellFormedCount(raw)
  {
    if raw != [] {
      WellFormedSuccesses(raw[..|raw| - 1]);
    }
  }

  /** A recording is kept exactly when some entry converts to it. */
  lemma RecordingsMembership(raw: seq<RawRecord>, rec: Recording)
    ensures rec in Recordings(raw) <==> exists k :: 0 <= k < |raw| && FromDict(raw[k]) == Success(rec)
  {
    SuccessesMembership(raw, FromDict, rec);
  }

  /** `_to_recordings`: a KeyError from `from_dict` drops the entry. */
  method ToRecordings(raw: seq<RawRecord>) returns (recordings: seq<Recording>)
    ensures recordings == Recordings(raw)
  {
    recordings := [];
    for i := 0 to |raw|
      invariant recordings == Recordings(raw[..i])
    {
      assert raw[..i + 1][..i] == raw[..i];
      assert raw[..i + 1][i] == raw[i];
      var r := FromDict(raw[i]);
      if r.Success? {
        recordings := recordings + [r.value];
      }
    }
    assert raw[..|raw|] == raw;
  }

  /** The list the catalog answered with; an answer without `recordings` counts as empty. */
  function RawList(response: Response): seq<RawRecord> {
    if "recordings" in response then response["recordings"] else []
  }

  /** The request URL: the endpoint, `/recordings?` and the quoted query. */
  function RecordingsUrl(genus: string, subspecies: string, quote: string -> string): (url: string)
    ensures |ApiEndpoint| <= |url| && url[..|ApiEndpoint|] == ApiEndpoint
  {
    ApiEndpoint + "/recordings?" + quote("query=ssp:\"" + subspecies + "\" gen:\"" + genus + "\"")
  }

  /** `get_recordings_list`: one call to the catalog, then the well-formed entries. */
  method GetRecordingsList(genus: string, subspecies: string, api: string -> Response, quote: string -> string)
    returns (recordings: seq<Recording>)
    ensures recordings == Recordings(RawList(api(RecordingsUrl(genus, subspecies, quote))))
    ensures "recordings" !in api(RecordingsUrl(genus, subspecies, quote)) ==> recordings == []
  {
    var query := quote("query=ssp:\"" + subspecies + "\" gen:\"" + genus + "\"");
    var url := ApiEndpoint + "/recordings?" + query;
    var response := api(url);
    var raw: seq<RawRecord>;
    if "recordings" in response {
      raw := response["recordings"];
    } else {
      raw := [];
    }
    recordings := ToRecordings(raw);
  }

  // ---------------------------------------------------------------------------
  // Downloading

  /** `recordings[:limit]` when `limit > 0`, otherwise every recording. */
  function Considered(recordings: seq<Recording>, limit: int): (c: seq<Recording>)
    ensures |c| == (if 0 < limit < |recordings| then limit else |recordings|)
    ensures c == recordings[..|c|]
  {
    if limit > 0 then recordings[..if limit < |recordings| then limit else |recordings|] else recordings
  }

  /** Where a recording is stored: `Path(output_dir) / rec.filename`. */
  function TargetOf(outputDir: Path, rec: Recording): Path {
    Join(outputDir, rec.filename)
  }

  /** The naming rule of one `download_recordings` call, as a function of the recording. */
  function TargetIn(outputDir: Path): Recording -> Path {
    rec => TargetOf(outputDir, rec)
  }

  /** The loop's state: paths by recording id, downloads so far, files on disk. */
  datatype Progress = Progress(paths: map<string, Path>, downloaded: nat, existing: set<Path>)

  /** One iteration: fetch unless the target exists (or `force`), then record the path. */
  function DownloadStep(st: Progress, rec: Recording, targetOf: Recording -> Path, force: bool,
                        fetch: (string, Path) -> Path): Progress
  {
    var target := targetOf(rec);
    if target !in st.existing || force then
      var got := fetch(rec.url, target);
      Progress(st.paths[rec.id := got], st.downloaded + 1, st.existing + {got})
    else
      Progress(st.paths[rec.id := target], st.downloaded, st.existing)
  }

  /** The loop over `recs`, starting from an empty map, no downloads and the files on disk. */
  function DownloadRun(existing: set<Path>, recs: seq<Recording>, targetOf: Recording -> Path, force: bool,
                       fetch: (string, Path) -> Path): Progress
  {
    if recs == [] then Progress(map[], 0, existing)
    else DownloadStep(DownloadRun(existing, recs[..|recs| - 1], targetOf, force, fetch),
                      recs[|recs| - 1], targetOf, force, fetch)
  }

  /** The run over one more recording is one more step. */
  lemma RunSnoc(existing: set<Path>, recs: seq<Recording>, i: nat, targetOf: Recording -> Path, force: bool,
                fetch: (string, Path) -> Path)
    requires i < |recs|
    ensures DownloadRun(existing, recs[..i + 1], targetOf, force, fetch)
            == DownloadStep(DownloadRun(existing, recs[..i], targetOf, force, fetch), recs[i], targetOf, force, fetch)
  {
    assert recs[..i + 1][..i] == recs[..i];
  }

  function Ids(recs: seq<Recording>): set<string> {
    set k | 0 <= k < |recs| :: recs[k].id
  }

  function Targets(targetOf: Recording -> Path, recs: seq<Recording>): set<Path> {
    set k | 0 <= k < |recs| :: targetOf(recs[k])
  }

  /** A download adapter that stores the file where it was asked to. */
  ghost predicate StoresInPlace(fetch: (string, Path) -> Path) {
    forall url, p :: fetch(url, p) == p
  }

  /** Every considered recording gets an entry, downloaded or not, and no other id does. */
  lemma {:induction false} DownloadRunKeys(existing: set<Path>, recs: seq<Recording>, targetOf: Recording -> Path,
                                           force: bool, fetch: (string, Path) -> Path)
    ensures DownloadRun(existing, recs, targetOf, force, fetch).paths.Keys == Ids(recs)
  {
    if recs != [] {
      var init := recs[..|recs| - 1];
      DownloadRunKeys(existing, init, targetOf, force, fetch);
      assert Ids(recs) == Ids(init) + {recs[|recs| - 1].id} by {
        forall id | id in Ids(recs) ensures id in Ids(init) + {recs[|recs| - 1].id} {
          var k :| 0 <= k < |recs| && recs[k].id == id;
          if k < |init| { assert init[k] == recs[k]; }
        }
        forall id | id in Ids(init) ensures id in Ids(recs) {
          var k :| 0 <= k < |init| && init[k].id == id;
          assert recs[k] == init[k];
        }
      }
    }
  }

  /** Never more downloads than recordings considered; with `force`, one per recording. */
  lemma {:induction false} DownloadRunCount(existing: set<Path>, recs: seq<Recording>, targetOf: Recording -> Path,
                                            force: bool, fetch: (string, Path) -> Path)
    ensures DownloadRun(existing, recs, targetOf, force, fetch).downloaded <= |recs|
    ensures force ==> DownloadRun(existing, recs, targetOf, force, fetch).downloaded == |recs|
    ensures existing <= DownloadRun(existing, recs, targetOf, force, fetch).existing
  {
    if recs != [] {
      DownloadRunCount(existing, recs[..|recs| - 1], targetOf, force, fetch);
    }
  }

  lemma TargetsSnoc(targetOf: Recording -> Path, recs: seq<Recording>)
    requires recs != []
    ensures Targets(targetOf, recs) == Targets(targetOf, recs[..|recs| - 1]) + {targetOf(recs[|recs| - 1])}
  {
    var init := recs[..|recs| - 1];
    forall p | p in Targets(targetOf, recs)
      ensures p in Targets(targetOf, init) + {targetOf(recs[|recs| - 1])}
    {
      var k :| 0 <= k < |recs| && targetOf(recs[k]) == p;
      if k < |init| { assert init[k] == recs[k]; }
    }
    forall p | p in Targets(targetOf, init) ensures p in Targets(targetOf, recs) {
      var k :| 0 <= k < |init| && targetOf(init[k]) == p;
      assert recs[k] == init[k];
    }
  }

  /** With an adapter that stores files where asked, every target is on disk afterwards. */
  lemma {:induction false} DownloadRunExisting(existing: set<Path>, recs: seq<Recording>, targetOf: Recording -> Path,
                                               force: bool, fetch: (string, Path) -> Path)
    requires StoresInPlace(fetch)
    ensures DownloadRun(existing, recs, targetOf, force, fetch).existing == existing + Targets(targetOf, recs)
  {
    if recs != [] {
      var init := recs[..|recs| - 1];
      var t := targetOf(recs[|recs| - 1]);
      DownloadRunExisting(existing, init, targetOf, force, fetch);
      TargetsSnoc(targetOf, recs);
      assert fetch(recs[|recs| - 1].url, t) == t;
    }
  }

  lemma NewTargetCount(existing: set<Path>, done: set<Path>, t: Path)
    ensures t in existing + done ==> (done + {t}) - existing == done - existing
    ensures t !in existing + done ==> |(done + {t}) - existing| == |done - existing| + 1
  {
    if t !in existing + done {
      assert (done + {t}) - existing == (done - existing) + {t};
    }
  }

  /**
   * Without `force`, and with an adapter that stores files where asked, the
   * counter is the number of distinct targets that were not on disk, and
   * afterwards every target is on disk.
   */
  lemma {:induction false} DownloadRunMissingOnly(existing: set<Path>, recs: seq<Recording>, targetOf: Recording -> Path,
                                                  fetch: (string, Path) -> Path)
    requires StoresInPlace(fetch)
    ensures var run := DownloadRun(existing, recs, targetOf, false, fetch);
      && run.existing == existing + Targets(targetOf, recs)
      && run.downloaded == |Targets(targetOf, recs) - existing|
  {
    if recs != [] {
      var init := recs[..|recs| - 1];
      var t := targetOf(recs[|recs| - 1]);
      DownloadRunMissingOnly(existing, init, targetOf, fetch);
      TargetsSnoc(targetOf, recs);
      var prev := DownloadRun(existing, init, targetOf, false, fetch);
      assert fetch(recs[|recs| - 1].url, t) == t;
      NewTargetCount(existing, Targets(targetOf, init), t);
    }
  }

  /** With distinct ids and an adapter that stores in place, each id maps to its target. */
  lemma {:induction false} DownloadRunPaths(existing: set<Path>, recs: seq<Recording>, targetOf: Recording -> Path,
                                            force: bool, fetch: (string, Path) -> Path)
    requires StoresInPlace(fetch)
    requires forall i, j :: 0 <= i < j < |recs| ==> recs[i].id != recs[j].id
    ensures forall k :: 0 <= k < |recs| ==>
      recs[k].id in DownloadRun(existing, recs, targetOf, force, fetch).paths &&
      DownloadRun(existing, recs, targetOf, force, fetch).paths[recs[k].id] == targetOf(recs[k])
  {
    if recs != [] {
      var init := recs[..|recs| - 1];
      DownloadRunPaths(existing, init, targetOf, force, fetch);
      forall k | 0 <= k < |init| ensures recs[k].id != recs[|recs| - 1].id && init[k] == recs[k] {
      }
    }
  }

  lemma PairSets(targetOf: Recording -> Path, a: Recording, b: Recording)
    ensures Targets(targetOf, [a, b]) == {targetOf(a), targetOf(b)}
    ensures Ids([a, b]) == {a.id, b.id} && Ids([a]) == {a.id}
  {
    var ab := [a, b];
    assert ab[0] == a && ab[1] == b && [a][0] == a;
    forall p | p in Targets(targetOf, ab) ensures p == targetOf(a) || p == targetOf(b) {
      var k :| 0 <= k < 2 && targetOf(ab[k]) == p;
    }
    forall id | id in Ids(ab) ensures id == a.id || id == b.id {
      var k :| 0 <= k < 2 && ab[k].id == id;
    }
  }

  /** Both recordings of an empty directory are fetched, each to its own target. */
  lemma FreshRunFetchesAll(existing: set<Path>, a: Recording, b: Recording, targetOf: Recording -> Path,
                           force: bool, fetch: (string, Path) -> Path)
    requires StoresInPlace(fetch)
    requires a.id != b.id && targetOf(a) != targetOf(b)
    requires targetOf(a) !in existing && targetOf(b) !in existing
    ensures var run := DownloadRun(existing, [a, b], targetOf, force, fetch);
      && run.downloaded == 2
      && run.paths.Keys == {a.id, b.id}
      && run.paths[a.id] == targetOf(a) && run.paths[b.id] == targetOf(b)
      && run.existing == existing + {targetOf(a), targetOf(b)}
  {
    FreshRunCount(existing, a, b, targetOf, force, fetch);
    PairSets(targetOf, a, b);
    DownloadRunExisting(existing, [a, b], targetOf, force, fetch);
    DownloadRunKeys(existing, [a, b], targetOf, force, fetch);
    DownloadRunPaths(existing, [a, b], targetOf, force, fetch);
    assert [a, b][0] == a && [a, b][1] == b;
  }

  lemma FreshRunCount(existing: set<Path>, a: Recording, b: Recording, targetOf: Recording -> Path,
                      force: bool, fetch: (string, Path) -> Path)
    requires StoresInPlace(fetch)
    requires targetOf(a) != targetOf(b)
    requires targetOf(a) !in existing && targetOf(b) !in existing
    ensures DownloadRun(existing, [a, b], targetOf, force, fetch).downloaded == 2
  {
    PairSets(targetOf, a, b);
    if force {
      DownloadRunCount(existing, [a, b], targetOf, force, fetch);
    } else {
      DownloadRunMissingOnly(existing, [a, b], targetOf, fetch);
      assert {targetOf(a), targetOf(b)} - existing == {targetOf(a), targetOf(b)};
    }
  }

  /** Once both targets are on disk, a run without `force` fetches nothing. */
  lemma RepeatedRunFetchesNothing(existing: set<Path>, a: Recording, b: Recording, targetOf: Recording -> Path,
                                  fetch: (string, Path) -> Path)
    requires StoresInPlace(fetch)
    requires a.id != b.id
    requires targetOf(a) in existing && targetOf(b) in existing
    ensures var run := DownloadRun(existing, [a, b], targetOf, false, fetch);
      && run.downloaded == 0
      && run.paths.Keys == {a.id, b.id}
      && run.paths[a.id] == targetOf(a) && run.paths[b.id] == targetOf(b)
  {
    PairSets(targetOf, a, b);
    DownloadRunMissingOnly(existing, [a, b], targetOf, fetch);
    assert Targets(targetOf, [a, b]) - existing == {};
    DownloadRunKeys(existing, [a, b], targetOf, false, fetch);
    DownloadRunPaths(existing, [a, b], targetOf, false, fetch);
    assert [a, b][0] == a && [a, b][1] == b;
    assert DownloadRun(existing, [a, b], targetOf, false, fetch).paths.Keys == {a.id, b.id};
  }

  /** A limit of one considers only the first recording. */
  lemma LimitOneConsidersFirst(existing: set<Path>, a: Recording, b: Recording, targetOf: Recording -> Path,
                               force: bool, fetch: (string, Path) -> Path)
    ensures DownloadRun(existing, Considered([a, b], 1), targetOf, force, fetch).paths.Keys == {a.id}
  {
    assert Considered([a, b], 1) == [a];
    PairSets(targetOf, a, b);
    DownloadRunKeys(existing, [a], targetOf, force, fetch);
  }

  /** The files on disk, as far as `download_recordings` can see them. */
  class LocalFiles {
    var existing: set<Path>

    constructor (files: set<Path>)
      ensures existing == files
    {
      existing := files;
    }

    /**
     * `download_recordings`: refuses a wait under one second, then walks the
     * considered recordings, fetching the missing files (or all with `force`).
     * Returns the path of every considered recording by id, and the number of
     * downloads.
     */
    method DownloadRecordings(recordings: seq<Recording>, outputDir: Path, limit: int, wait: int, force: bool,
                              fetch: (string, Path) -> Path)
      returns (r: Result<(map<string, Path>, nat)>)
      modifies this
      ensures wait < 1 ==> r == Failure(ValueError) && existing == old(existing)
      ensures wait >= 1 ==>
        var run := DownloadRun(old(existing), Considered(recordings, limit), TargetIn(outputDir), force, fetch);
        r == Success((run.paths, run.downloaded)) && existing == run.existing
    {
      if wait < 1 {
        return Failure(ValueError);
      }
      var considered := Considered(recordings, limit);
      var filePaths: map<string, Path> := map[];
      var downloaded: nat := 0;
      for i := 0 to |considered|
        invariant Progress(filePaths, downloaded, existing) == DownloadRun(old(existing), considered[..i], TargetIn(outputDir), force, fetch)
      {
        ghost var before := Progress(filePaths, downloaded, existing);
        RunSnoc(old(existing), considered, i, TargetIn(outputDir), force, fetch);
        var rec := considered[i];
        var filePath := Join(outputDir, rec.filename);
        assert filePath == TargetIn(outputDir)(rec);
        if filePath !in existing || force {
          filePath := fetch(rec.url, filePath);
          downloaded := downloaded + 1;
          existing := existing + {filePath};
        }
        filePaths := filePaths[rec.id := filePath];
        assert Progress(filePaths, downloaded, existing) == DownloadStep(before, rec, TargetIn(outputDir), force, fetch);
      }
      assert considered[..|considered|] == considered;
      r := Success((filePaths, downloaded));
    }
  }

  /** A wait under one second is refused before anything happens, even for no recordings. */
  method RefuseShortWait(outputDir: Path, fetch: (string, Path) -> Path) returns (r: Result<(map<string, Path>, nat)>)
    ensures r == Failure(ValueError)
  {
    var disk := new LocalFiles({});
    r := disk.DownloadRecordings([], outputDir, 0, 0, false, fetch);
  }
}
