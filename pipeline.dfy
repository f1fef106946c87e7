/**
 * The run of `main`: obtain a token, read every `.xml` metadata file of the
 * input folder, upload the documents in batches of 20, and move each
 * metadata/binary pair to the backup or the error folder according to the
 * outcome.
 *
 * The uploads of one batch run concurrently; here each document talks to
 * its own view of the server (`servers`), so the batch is a sequential map.
 */
module Pipeline {
  import opened Wrappers
  import opened XmlTree
  import opened PyText
  import Session
  import Extractor
  import Transfer

  const BatchSize: nat := 20

  // ---------------------------------------------------------------------------
  // Batches
  // ---------------------------------------------------------------------------

  /** `results[i:i + 20]` for `i` in `range(0, len(results), 20)`. */
  function Batches<T>(xs: seq<T>): seq<seq<T>>
    decreases |xs|
  {
    if xs == [] then []
    else if |xs| <= BatchSize then [xs]
    else [xs[..BatchSize]] + Batches(xs[BatchSize..])
  }

  function Flatten<T>(bs: seq<seq<T>>): seq<T> {
    if bs == [] then [] else bs[0] + Flatten(bs[1..])
  }

  /**
   * The batches are contiguous slices that put back together give the
   * records; every batch but the last has 20 records, the last between 1
   * and 20, so there are `ceil(n / 20)` of them.
   */
  lemma {:induction false} BatchesPartition<T>(xs: seq<T>)
    ensures Flatten(Batches(xs)) == xs
    ensures forall i :: 0 <= i < |Batches(xs)| ==> 0 < |Batches(xs)[i]| <= BatchSize
    ensures forall i :: 0 <= i < |Batches(xs)| - 1 ==> |Batches(xs)[i]| == BatchSize
    ensures (|Batches(xs)| - 1) * BatchSize < |xs| <= |Batches(xs)| * BatchSize
    decreases |xs|
  {
    if |xs| > BatchSize {
      var rest := xs[BatchSize..];
      BatchesPartition(rest);
      var bs := Batches(xs);
      assert bs[1..] == Batches(rest);
      assert xs == xs[..BatchSize] + rest;
    } else if xs != [] {
      assert Batches(xs)[1..] == [];
    }
  }

  // ---------------------------------------------------------------------------
  // Uploads
  // ---------------------------------------------------------------------------

  /** An entry of `uploaded_files`: the record and the `status_code` and `text` its upload returned. */
  datatype Uploaded = Uploaded(data: Extractor.Record, status: Transfer.Status, text: string)

  /**
   * How `upload_with_restapi` ends for each record. In a run this is
   * `Transfer.UploadSpec` with the token and the record's view of the
   * server (see `RunSpec`).
   */
  type Uploader = Extractor.Record -> Transfer.Outcome

  /** The entry of `uploaded_files` for a record whose upload returned. */
  function EntryOf(d: Extractor.Record, o: Transfer.Outcome): Uploaded
    requires o.Done?
  {
    Uploaded(d, o.status, o.text)
  }

  /**
   * Uploading the records one after the other: an entry per record, in
   * record order; an upload that raises makes `asyncio.gather`, and so the
   * run, raise (None).
   */
  function UploadAll(upload: Uploader, records: seq<Extractor.Record>): Option<seq<Uploaded>>
    decreases |records|
  {
    if records == [] then Some([])
    else
      var before := UploadAll(upload, records[..|records| - 1]);
      var d := records[|records| - 1];
      var o := upload(d);
      if before.None? || o.Raised? then None else Some(before.value + [EntryOf(d, o)])
  }

  function Combine(x: Option<seq<Uploaded>>, y: Option<seq<Uploaded>>): Option<seq<Uploaded>> {
    if x.None? || y.None? then None else Some(x.value + y.value)
  }

  lemma {:induction false} UploadAllAppend(upload: Uploader, a: seq<Extractor.Record>, b: seq<Extractor.Record>)
    ensures UploadAll(upload, a + b) == Combine(UploadAll(upload, a), UploadAll(upload, b))
    decreases |b|
  {
    if b == [] {
      assert a + b == a;
      if UploadAll(upload, a).Some? {
        assert UploadAll(upload, a).value + [] == UploadAll(upload, a).value;
      }
    } else {
      var init := b[..|b| - 1];
      assert (a + b)[..|a + b| - 1] == a + init;
      UploadAllAppend(upload, a, init);
      var x := UploadAll(upload, a);
      var y := UploadAll(upload, init);
      if x.Some? && y.Some? {
        var d := b[|b| - 1];
        var o := upload(d);
        if o.Done? {
          assert x.value + y.value + [EntryOf(d, o)] == x.value + (y.value + [EntryOf(d, o)]);
        }
      }
    }
  }

  /**
   * The uploads raise exactly when one record's upload raises; otherwise
   * there is one entry per record, in record order, carrying the record and
   * the status and text its upload returned.
   */
  lemma {:induction false} UploadAllMeaning(upload: Uploader, records: seq<Extractor.Record>)
    ensures UploadAll(upload, records).None?
            <==> exists j :: 0 <= j < |records| && upload(records[j]).Raised?
    ensures UploadAll(upload, records).Some? ==>
              var us := UploadAll(upload, records).value;
              && |us| == |records|
              && forall j :: 0 <= j < |records| ==>
                   upload(records[j]).Done?
                   && us[j] == EntryOf(records[j], upload(records[j]))
    decreases |records|
  {
    if records != [] {
      var init := records[..|records| - 1];
      UploadAllMeaning(upload, init);
      assert forall j :: 0 <= j < |init| ==> records[j] == init[j];
      if exists j :: 0 <= j < |init| && upload(init[j]).Raised? {
        var j :| 0 <= j < |init| && upload(init[j]).Raised?;
        assert records[j] == init[j];
      }
    }
  }

  /** One batch, its uploads awaited together. */
  method UploadBatch(upload: Uploader, batch: seq<Extractor.Record>) returns (r: Option<seq<Uploaded>>)
    ensures r == UploadAll(upload, batch)
  {
    var results: seq<Uploaded> := [];
    var i := 0;
    while i < |batch|
      invariant 0 <= i <= |batch|
      invariant UploadAll(upload, batch[..i]) == Some(results)
    {
      var outcome := upload(batch[i]);
      assert batch[..i + 1][..i] == batch[..i];
      if outcome.Raised? {
        UploadAllAppend(upload, batch[..i + 1], batch[i + 1..]);
        assert batch[..i + 1] + batch[i + 1..] == batch;
        return None;
      }
      results := results + [Uploaded(batch[i], outcome.status, outcome.text)];
      i := i + 1;
    }
    assert batch[..i] == batch;
    return Some(results);
  }

  lemma NextBatch<T>(xs: seq<T>, i: nat, end: nat)
    requires i < |xs| && end == (if i + BatchSize <= |xs| then i + BatchSize else |xs|)
    ensures Batches(xs[i..]) == [xs[i..end]] + Batches(xs[end..])
  {
    var rest := xs[i..];
    if |rest| <= BatchSize {
      assert xs[i..end] == rest;
      assert xs[end..] == [];
    } else {
      assert rest[..BatchSize] == xs[i..end];
      assert rest[BatchSize..] == xs[end..];
    }
  }

  lemma BatchStep(upload: Uploader, records: seq<Extractor.Record>, i: nat, end: nat, uploaded: seq<Uploaded>)
    requires i <= end <= |records|
    requires UploadAll(upload, records[..i]) == Some(uploaded)
    ensures UploadAll(upload, records[i..end]).None? ==> UploadAll(upload, records).None?
    ensures UploadAll(upload, records[i..end]).Some? ==>
              UploadAll(upload, records[..end]) == Some(uploaded + UploadAll(upload, records[i..end]).value)
  {
    assert records[..end] == records[..i] + records[i..end];
    UploadAllAppend(upload, records[..i], records[i..end]);
    UploadAllAppend(upload, records[..end], records[end..]);
    assert records[..end] + records[end..] == records;
  }

  /**
   * The batch loop of `main`: slices of 20 uploaded one after the other,
   * their results appended to `uploaded_files`; `sent` are the batches
   * dispatched.
   */
  method UploadInBatches(upload: Uploader, records: seq<Extractor.Record>)
    returns (r: Option<seq<Uploaded>>, sent: seq<seq<Extractor.Record>>)
    ensures r == UploadAll(upload, records)
    ensures r.Some? ==> sent == Batches(records)
  {
    var uploaded: seq<Uploaded> := [];
    sent := [];
    var i := 0;
    while i < |records|
      invariant 0 <= i <= |records|
      invariant UploadAll(upload, records[..i]) == Some(uploaded)
      invariant Batches(records) == sent + Batches(records[i..])
      decreases |records| - i
    {
      var end := if i + BatchSize <= |records| then i + BatchSize else |records|;
      var batch := records[i..end];
      var results := UploadBatch(upload, batch);
      BatchStep(upload, records, i, end, uploaded);
      if results.None? {
        return None, sent;
      }
      NextBatch(records, i, end);
      assert sent + Batches(records[i..]) == (sent + [batch]) + Batches(records[end..]);
      uploaded := uploaded + results.value;
      sent := sent + [batch];
      i := end;
    }
    assert records[..i] == records;
    return Some(uploaded), sent;
  }

  // ---------------------------------------------------------------------------
  // Moving the processed files
  // ---------------------------------------------------------------------------

  /** Where a metadata/binary pair goes after its upload. */
  datatype Place = Backup | ErrorArea | Stay

  /**
   * The move decision: nothing moves under `temp_solution`; a successful
   * extraction with status 200 goes to the backup folder, a failed
   * extraction or any other status to the error folder, each only when both
   * files exist; any other pair stays.
   */
  function Decide(tempSolution: bool, status: string, code: Transfer.Status, xmlExists: bool, binExists: bool): Place {
    if tempSolution then Stay
    else if status == "Success" && code == Transfer.Code(200) then (if xmlExists && binExists then Backup else Stay)
    else if status == "Failed" || code != Transfer.Code(200) then (if xmlExists && binExists then ErrorArea else Stay)
    else Stay
  }

  /**
   * Backup exactly for a present pair whose extraction succeeded and whose
   * upload returned 200; error exactly for a present pair whose extraction
   * failed or whose upload returned anything else; a pair with a missing
   * file, or any pair under `temp_solution`, stays.
   */
  lemma DecideRules(tempSolution: bool, status: string, code: Transfer.Status, xmlExists: bool, binExists: bool)
    ensures var place := Decide(tempSolution, status, code, xmlExists, binExists);
            && (place == Backup <==> !tempSolution && xmlExists && binExists && status == "Success" && code == Transfer.Code(200))
            && (place == ErrorArea <==> !tempSolution && xmlExists && binExists && (status == "Failed" || code != Transfer.Code(200)))
            && (tempSolution || !xmlExists || !binExists ==> place == Stay)
  {
  }

  datatype Move = Move(src: string, dst: string)

  /** The input folder and the time-stamped backup and error folders. */
  datatype Folders = Folders(source: string, backup: string, error: string)

  function PlaceDir(f: Folders, place: Place): string {
    if place == Backup then f.backup else f.error
  }

  /**
   * One entry of the reconciliation loop over the files present: the pair's
   * paths are joined (a `FileName` that is not a string raises inside the
   * guarded block, and nothing moves), the metadata file is moved, then the
   * binary file, whose move raises, and is skipped, when the first move
   * took it away.
   */
  function PairStep(u: Uploaded, tempSolution: bool, f: Folders, present: set<string>): (seq<Move>, set<string>) {
    if tempSolution || !u.data.fileName.Text? then ([], present)
    else
      var xml := Transfer.Join(f.source, u.data.originalFileName);
      var bin := Transfer.Join(f.source, u.data.fileName.s);
      var place := Decide(tempSolution, u.data.status, u.status, xml in present, bin in present);
      if place == Stay then ([], present)
      else
        var dir := PlaceDir(f, place);
        var xmlDst := Transfer.Join(dir, u.data.originalFileName);
        var afterXml := present - {xml} + {xmlDst};
        if bin in afterXml then
          var binDst := Transfer.Join(dir, u.data.fileName.s);
          ([Move(xml, xmlDst), Move(bin, binDst)], afterXml - {bin} + {binDst})
        else ([Move(xml, xmlDst)], afterXml)
  }

  function ReconcileSpec(us: seq<Uploaded>, tempSolution: bool, f: Folders, present: set<string>): (seq<Move>, set<string>)
    decreases |us|
  {
    if us == [] then ([], present)
    else
      var (moves, files) := ReconcileSpec(us[..|us| - 1], tempSolution, f, present);
      var (more, files') := PairStep(us[|us| - 1], tempSolution, f, files);
      (moves + more, files')
  }

  /** The guarded block of the last loop of `main` for one entry. */
  method MovePair(u: Uploaded, tempSolution: bool, f: Folders, present: set<string>) returns (moves: seq<Move>, files: set<string>)
    ensures (moves, files) == PairStep(u, tempSolution, f, present)
  {
    moves := [];
    files := present;
    if tempSolution || !u.data.fileName.Text? {
      return;
    }
    var xml := Transfer.Join(f.source, u.data.originalFileName);
    var bin := Transfer.Join(f.source, u.data.fileName.s);
    var place := Decide(tempSolution, u.data.status, u.status, xml in files, bin in files);
    if place != Stay {
      var dir := PlaceDir(f, place);
      var xmlDst := Transfer.Join(dir, u.data.originalFileName);
      moves := [Move(xml, xmlDst)];
      files := files - {xml} + {xmlDst};
      if bin in files {
        var binDst := Transfer.Join(dir, u.data.fileName.s);
        moves := [Move(xml, xmlDst), Move(bin, binDst)];
        files := files - {bin} + {binDst};
      }
    }
  }

  /** The last loop of `main`, moving files as it goes; `files` are the files present. */
  method Reconcile(us: seq<Uploaded>, tempSolution: bool, f: Folders, present: set<string>) returns (moves: seq<Move>, files: set<string>)
    ensures (moves, files) == ReconcileSpec(us, tempSolution, f, present)
  {
    moves := [];
    files := present;
    var i := 0;
    while i < |us|
      invariant 0 <= i <= |us|
      invariant (moves, files) == ReconcileSpec(us[..i], tempSolution, f, present)
    {
      assert us[..i + 1][..i] == us[..i];
      var more, files' := MovePair(us[i], tempSolution, f, files);
      moves := moves + more;
      files := files';
      i := i + 1;
    }
    assert us[..i] == us;
  }

  /** Under `temp_solution` nothing is moved. */
  lemma {:induction false} TempSolutionMovesNothing(us: seq<Uploaded>, f: Folders, present: set<string>)
    ensures ReconcileSpec(us, true, f, present) == ([], present)
    decreases |us|
  {
    if us != [] {
      TempSolutionMovesNothing(us[..|us| - 1], f, present);
      assert PairStep(us[|us| - 1], true, f, present) == ([], present);
      var none: seq<Move> := [];
      assert none + none == none;
    }
  }

  /**
   * A pair moves only as decided, and as one: its metadata file first,
   * both files into the same folder, the backup folder only for a
   * successful upload, and only files that are present move.
   */
  lemma PairMovesAsDecided(u: Uploaded, tempSolution: bool, f: Folders, present: set<string>)
    ensures var (moves, _) := PairStep(u, tempSolution, f, present);
            && |moves| <= 2
            && (moves != [] ==>
                  && u.data.fileName.Text?
                  && var xml := Transfer.Join(f.source, u.data.originalFileName);
                     var bin := Transfer.Join(f.source, u.data.fileName.s);
                     var place := Decide(tempSolution, u.data.status, u.status, xml in present, bin in present);
                     && place != Stay
                     && xml in present && bin in present
                     && moves[0] == Move(xml, Transfer.Join(PlaceDir(f, place), u.data.originalFileName))
                     && (|moves| == 2 ==> moves[1] == Move(bin, Transfer.Join(PlaceDir(f, place), u.data.fileName.s)))
                     && (place == Backup ==> u.data.status == "Success" && u.status == Transfer.Code(200)))
            && (moves == [] ==>
                  (!u.data.fileName.Text? ||
                   Decide(tempSolution, u.data.status, u.status,
                          Transfer.Join(f.source, u.data.originalFileName) in present,
                          Transfer.Join(f.source, u.data.fileName.s) in present) == Stay))
  {
  }

  /** The reconciliation moves at most two files per upload entry. */
  lemma {:induction false} ReconcileMovesAtMostTwoEach(us: seq<Uploaded>, tempSolution: bool, f: Folders, present: set<string>)
    ensures |ReconcileSpec(us, tempSolution, f, present).0| <= 2 * |us|
    decreases |us|
  {
    if us != [] {
      ReconcileMovesAtMostTwoEach(us[..|us| - 1], tempSolution, f, present);
      var files := ReconcileSpec(us[..|us| - 1], tempSolution, f, present).1;
      PairMovesAsDecided(us[|us| - 1], tempSolution, f, files);
    }
  }

  // ---------------------------------------------------------------------------
  // Reading the metadata files
  // ---------------------------------------------------------------------------

  /** The listed names ending in ".xml", in listing order. */
  function XmlFiles(listing: seq<string>): seq<string>
    decreases |listing|
  {
    if listing == [] then []
    else
      var last := listing[|listing| - 1];
      XmlFiles(listing[..|listing| - 1]) + (if EndsWith(last, ".xml") then [last] else [])
  }

  /** A name is read as metadata exactly when it is listed and ends in ".xml". */
  lemma {:induction false} XmlFilesAreTheXmlNames(listing: seq<string>)
    ensures forall f :: f in XmlFiles(listing) <==> f in listing && EndsWith(f, ".xml")
    ensures |XmlFiles(listing)| <= |listing|
    decreases |listing|
  {
    if listing != [] {
      var init := listing[..|listing| - 1];
      XmlFilesAreTheXmlNames(init);
      assert listing == init + [listing[|listing| - 1]];
    }
  }

  /** The loop of `main` that collects one extraction task per ".xml" name. */
  method CollectXmlFiles(listing: seq<string>) returns (names: seq<string>)
    ensures names == XmlFiles(listing)
  {
    names := [];
    var i := 0;
    while i < |listing|
      invariant 0 <= i <= |listing|
      invariant names == XmlFiles(listing[..i])
    {
      assert listing[..i + 1][..i] == listing[..i];
      if EndsWith(listing[i], ".xml") {
        names := names + [listing[i]];
      }
      i := i + 1;
    }
    assert listing[..i] == listing;
  }

  /** How `get_data_from_xml` ends for each metadata file name. */
  type Extract = string -> Extractor.Extraction

  /** `get_data_from_xml(folder, f)` on the parsed content of the joined path. */
  function ExtractorFor(folder: string, parse: string -> Option<map<string, XNode>>): Extract {
    f => Extractor.ExtractSpec(f, parse(Transfer.Join(folder, f)))
  }

  /**
   * `asyncio.gather` over `get_data_from_xml` for each name: the records in
   * order, or None when one extraction raised.
   */
  function ExtractAll(extract: Extract, names: seq<string>): Option<seq<Extractor.Record>>
    decreases |names|
  {
    if names == [] then Some([])
    else
      match ExtractAll(extract, names[..|names| - 1])
      case None => None
      case Some(rs) =>
        match extract(names[|names| - 1])
        case Crashed => None
        case Extracted(d) => Some(rs + [d])
  }

  /**
   * The gathered extraction fails exactly when one file's extraction
   * raises; otherwise it holds one record per name, in order, each the
   * extraction of that name.
   */
  lemma {:induction false} ExtractAllMeaning(extract: Extract, names: seq<string>)
    ensures ExtractAll(extract, names).None?
            <==> exists j :: 0 <= j < |names| && extract(names[j]).Crashed?
    ensures ExtractAll(extract, names).Some? ==>
              var rs := ExtractAll(extract, names).value;
              && |rs| == |names|
              && forall j :: 0 <= j < |names| ==>
                   extract(names[j]).Extracted? && rs[j] == extract(names[j]).record
    decreases |names|
  {
    if names != [] {
      var init := names[..|names| - 1];
      ExtractAllMeaning(extract, init);
      assert forall j :: 0 <= j < |init| ==> names[j] == init[j];
    }
  }

  /** The extraction tasks, awaited one after the other. */
  method ExtractAllFiles(folder: string, names: seq<string>, parse: string -> Option<map<string, XNode>>)
    returns (r: Option<seq<Extractor.Record>>)
    ensures r == ExtractAll(ExtractorFor(folder, parse), names)
  {
    ghost var extract := ExtractorFor(folder, parse);
    var records: seq<Extractor.Record> := [];
    var i := 0;
    while i < |names|
      invariant 0 <= i <= |names|
      invariant ExtractAll(extract, names[..i]) == Some(records)
    {
      assert names[..i + 1][..i] == names[..i];
      var e := Extractor.GetDataFromXml(names[i], parse(Transfer.Join(folder, names[i])));
      assert e == extract(names[i]);
      if e.Crashed? {
        ExtractionsStayFailed(extract, names, i + 1);
        return None;
      }
      records := records + [e.record];
      i := i + 1;
    }
    assert names[..i] == names;
    return Some(records);
  }

  /** Once a prefix of the names fails to extract, so does the whole list. */
  lemma {:induction false} ExtractionsStayFailed(extract: Extract, names: seq<string>, k: nat)
    requires k <= |names|
    requires ExtractAll(extract, names[..k]).None?
    ensures ExtractAll(extract, names).None?
    decreases |names| - k
  {
    if k < |names| {
      assert names[..k + 1][..k] == names[..k];
      ExtractionsStayFailed(extract, names, k + 1);
    } else {
      assert names[..k] == names;
    }
  }

  // ---------------------------------------------------------------------------
  // The run
  // ---------------------------------------------------------------------------

  /** The configuration entries `main` uses. */
  datatype Config = Config(
    companyUrl: string,
    fileCabinetGuid: string,
    folderPath: string,
    backupPath: string,
    errorPath: string,
    tempSolution: bool,
    chunkSize: int)

  /** The clock readings: `%Y%m%d%H%M%S` for the sub-folders and `%Y%m%d` for the temporary input folder. */
  datatype Clock = Clock(dateTime: string, date: string)

  /**
   * The file system: the listing of a folder (None when `os.listdir`
   * raises), the parsed content of a metadata file (None when reading or
   * parsing it raises) and the files present with their bytes.
   */
  datatype Disk = Disk(
    listdir: string -> Option<seq<string>>,
    parse: string -> Option<map<string, XNode>>,
    files: map<string, seq<Transfer.byte>>)

  function BaseUrl(cfg: Config): string {
    "https://" + cfg.companyUrl + "/"
  }

  function DocumentsUrl(cfg: Config): string {
    "https://" + cfg.companyUrl + "/docuware/platform/FileCabinets/" + cfg.fileCabinetGuid + "/Documents"
  }

  /** The input folder: the dated sub-folder under `temp_solution`. */
  function InputFolder(cfg: Config, clock: Clock): string {
    if cfg.tempSolution then Transfer.Join(cfg.folderPath, clock.date) else cfg.folderPath
  }

  function RunFolders(cfg: Config, clock: Clock): Folders {
    Folders(InputFolder(cfg, clock), Transfer.Join(cfg.backupPath, clock.dateTime), Transfer.Join(cfg.errorPath, clock.dateTime))
  }

  function RunEnv(cfg: Config, clock: Clock, disk: Disk): Transfer.Env {
    Transfer.Env(BaseUrl(cfg), InputFolder(cfg, clock), DocumentsUrl(cfg), cfg.chunkSize, disk.files)
  }

  /** `upload_with_restapi` for every record with the run's token, each record seeing its own view of the server. */
  function UploaderFor(env: Transfer.Env, servers: Extractor.Record -> Transfer.Server, token: Option<string>): Uploader {
    d => Transfer.UploadSpec(env, servers(d), d, token).outcome
  }

  /**
   * How a run ends: without a token, with an exception that escaped
   * (listing, extraction or upload), or with the upload entries, the
   * moves made and the files present afterwards.
   */
  datatype RunResult = NoToken | Crashed | Completed(uploaded: seq<Uploaded>, moves: seq<Move>, files: set<string>)

  function RunSpec(cfg: Config, clock: Clock, store: Session.TokenStore, disk: Disk,
                   servers: Extractor.Record -> Transfer.Server): RunResult
  {
    var token := Session.Ensure(store);
    if token.None? then NoToken
    else
      var folder := InputFolder(cfg, clock);
      match disk.listdir(folder)
      case None => Crashed
      case Some(listing) =>
        var records := ExtractAll(ExtractorFor(folder, disk.parse), XmlFiles(listing));
        if records.None? then Crashed
        else UploadStage(cfg, clock, disk, UploaderFor(RunEnv(cfg, clock, disk), servers, token.value.accessToken), records.value)
  }

  /** The run once the records are extracted: the batched uploads, then the moves. */
  function UploadStage(cfg: Config, clock: Clock, disk: Disk, upload: Uploader, records: seq<Extractor.Record>): RunResult {
    var us := UploadAll(upload, records);
    if us.None? then Crashed
    else
      var (moves, files) := ReconcileSpec(us.value, cfg.tempSolution, RunFolders(cfg, clock), disk.files.Keys);
      Completed(us.value, moves, files)
  }

  /** `main` after reading the configuration. */
  method RunPipeline(cfg: Config, clock: Clock, store: Session.TokenStore, disk: Disk,
                     servers: Extractor.Record -> Transfer.Server) returns (r: RunResult)
    ensures r == RunSpec(cfg, clock, store, disk, servers)
  {
    var token := Session.Ensure(store);
    if token.None? {
      return NoToken;
    }
    var folder := InputFolder(cfg, clock);
    var listing := disk.listdir(folder);
    if listing.None? {
      return Crashed;
    }
    var names := CollectXmlFiles(listing.value);
    var records := ExtractAllFiles(folder, names, disk.parse);
    if records.None? {
      return Crashed;
    }
    var upload := UploaderFor(RunEnv(cfg, clock, disk), servers, token.value.accessToken);
    var uploaded, _ := UploadInBatches(upload, records.value);
    if uploaded.None? {
      return Crashed;
    }
    var moves, files := Reconcile(uploaded.value, cfg.tempSolution, RunFolders(cfg, clock), disk.files.Keys);
    return Completed(uploaded.value, moves, files);
  }

  /**
   * A completed run holds one entry per ".xml" name of the input folder,
   * in listing order, each for the record extracted from that file, with
   * status "Success", and the outcome of that record's upload.
   */
  lemma CompletedRunCoversEveryXmlFile(cfg: Config, clock: Clock, store: Session.TokenStore, disk: Disk,
                                       servers: Extractor.Record -> Transfer.Server)
    requires RunSpec(cfg, clock, store, disk, servers).Completed?
    ensures Session.Ensure(store).Some?
    ensures disk.listdir(InputFolder(cfg, clock)).Some?
    ensures var folder := InputFolder(cfg, clock);
            var names := XmlFiles(disk.listdir(folder).value);
            var us := RunSpec(cfg, clock, store, disk, servers).uploaded;
            && |us| == |names|
            && forall j :: 0 <= j < |names| ==>
                 && Extractor.ExtractSpec(names[j], disk.parse(Transfer.Join(folder, names[j]))) == Extractor.Extracted(us[j].data)
                 && us[j].data.originalFileName == names[j]
                 && us[j].data.status == "Success"
                 && Transfer.UploadSpec(RunEnv(cfg, clock, disk), servers(us[j].data), us[j].data,
                                        Session.Ensure(store).value.accessToken).outcome
                    == Transfer.Done(us[j].status, us[j].text)
  {
    var folder := InputFolder(cfg, clock);
    var names := XmlFiles(disk.listdir(folder).value);
    var records := ExtractAll(ExtractorFor(folder, disk.parse), names).value;
    var upload := UploaderFor(RunEnv(cfg, clock, disk), servers, Session.Ensure(store).value.accessToken);
    UploadAllMeaning(upload, records);
    ExtractedRecordsFollowNames(folder, names, disk.parse);
  }

  /**
   * The extracted records follow the names: one per name, each the
   * extraction of that file, carrying its name and status "Success".
   */
  lemma ExtractedRecordsFollowNames(folder: string, names: seq<string>, parse: string -> Option<map<string, XNode>>)
    requires ExtractAll(ExtractorFor(folder, parse), names).Some?
    ensures var rs := ExtractAll(ExtractorFor(folder, parse), names).value;
            && |rs| == |names|
            && forall j :: 0 <= j < |names| ==>
                 && Extractor.ExtractSpec(names[j], parse(Transfer.Join(folder, names[j]))) == Extractor.Extracted(rs[j])
                 && rs[j].originalFileName == names[j]
                 && rs[j].status == "Success"
  {
    var rs := ExtractAll(ExtractorFor(folder, parse), names).value;
    ExtractAllMeaning(ExtractorFor(folder, parse), names);
    forall j | 0 <= j < |names|
      ensures rs[j].originalFileName == names[j] && rs[j].status == "Success"
    {
      Extractor.ExtractedRecordHeader(names[j], parse(Transfer.Join(folder, names[j])));
    }
  }

  /** No token, no work: the run ends before listing the folder exactly when `ensure_token` fails. */
  lemma RunNeedsToken(cfg: Config, clock: Clock, store: Session.TokenStore, disk: Disk,
                      servers: Extractor.Record -> Transfer.Server)
    ensures RunSpec(cfg, clock, store, disk, servers).NoToken? <==> Session.Ensure(store).None?
  {
  }

  /** Under `temp_solution` a completed run moves nothing and leaves the files as they were. */
  lemma TempSolutionRunKeepsFiles(cfg: Config, clock: Clock, store: Session.TokenStore, disk: Disk,
                                  servers: Extractor.Record -> Transfer.Server)
    requires cfg.tempSolution
    requires RunSpec(cfg, clock, store, disk, servers).Completed?
    ensures RunSpec(cfg, clock, store, disk, servers).moves == []
    ensures RunSpec(cfg, clock, store, disk, servers).files == disk.files.Keys
  {
    TempSolutionMovesNothing(RunSpec(cfg, clock, store, disk, servers).uploaded, RunFolders(cfg, clock), disk.files.Keys);
  }
}
