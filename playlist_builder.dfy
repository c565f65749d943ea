/**
 * The playlist builder: one entry per matched file, in match order, wrapped in
 * a document whose header fields are fixed. The configuration comes from the
 * command line; path joining, file-name parsing, file reading and the CRC-32
 * checksum are library or file-system calls and stay uninterpreted here.
 */
module PlaylistBuilder {
  import opened PathNormalization

  datatype Option<T> = None | Some(value: T)

  datatype Result<T, E> = Success(value: T) | Failure(error: E)

  /**
   * The command-line configuration. `outputBasePathOverride` is None when the
   * fourth argument is missing.
   */
  datatype Config = Config(
    basePath: string,
    playlistFileName: string,
    outputBasePathOverride: Option<string>)

  /** The calls the builder makes into libraries and the file system. */
  datatype Host = Host(
    pathJoin: (string, string) -> string,  // path.join
    parseName: string -> string,           // path.parse(p).name: the file name without its extension
    readFile: string -> Option<string>,    // fs.readFileSync(p, utf8); None when it throws
    crc32Hex: string -> string)            // crc32(text).toString(16)

  datatype PlaylistEntry = PlaylistEntry(
    coreName: string,
    corePath: string,
    crc32: string,
    dbName: string,
    displayLabel: string,  // serialised as "label"
    path: string)

  datatype Playlist = Playlist(
    version: string,
    defaultCorePath: string,
    defaultCoreName: string,
    labelDisplayMode: int,
    rightThumbnailMode: int,
    leftThumbnailMode: int,
    items: seq<PlaylistEntry>)

  const Detect := "DETECT"
  const PlaylistVersion := "1.2"

  /**
   * JavaScript truthiness of the override argument: an absent argument is
   * `undefined` and an empty string is falsy, so only a non-empty string counts.
   */
  predicate OverrideIsTruthy(cfg: Config) {
    match cfg.outputBasePathOverride
    case None => false
    case Some(dir) => dir != ""
  }

  /**
   * The absolute input path of a matched file: the base path joined with its
   * relative path. Of the configuration only the base path enters it; the
   * override and the playlist name do not.
   */
  function InputPath(cfg: Config, host: Host, rel: string): string {
    host.pathJoin(cfg.basePath, rel)
  }

  predicate Readable(cfg: Config, host: Host, rel: string) {
    host.readFile(InputPath(cfg, host, rel)).Some?
  }

  /** The output path before normalisation: joined onto the override when it is truthy, else the input path. */
  function OutputPathSource(cfg: Config, host: Host, rel: string): string {
    match cfg.outputBasePathOverride
    case Some(dir) => if dir != "" then host.pathJoin(dir, rel) else InputPath(cfg, host, rel)
    case None => InputPath(cfg, host, rel)
  }

  /**
   * The entry for one matched file. Reading the file is the only step that can
   * fail; its failure carries the absolute path that could not be read.
   */
  function BuildEntry(cfg: Config, host: Host, rel: string): (r: Result<PlaylistEntry, string>)
    ensures r.Success? <==> Readable(cfg, host, rel)
    ensures r.Failure? ==> r.error == InputPath(cfg, host, rel)
  {
    var filePathAbsolute := InputPath(cfg, host, rel);
    match host.readFile(filePathAbsolute)
    case None => Failure(filePathAbsolute)
    case Some(contents) =>
      Success(PlaylistEntry(
        coreName := Detect,
        corePath := Detect,
        crc32 := host.crc32Hex(contents),
        dbName := cfg.playlistFileName,
        displayLabel := host.parseName(filePathAbsolute),
        path := NormalizeOutputPath(OutputPathSource(cfg, host, rel))))
  }

  /**
   * The per-file mapping over the matched paths. The mapping stops at the
   * first file whose entry cannot be built, and then the whole build fails.
   */
  function BuildItems(cfg: Config, host: Host, paths: seq<string>): (r: Result<seq<PlaylistEntry>, string>)
    ensures r.Success? ==> |r.value| == |paths|
  {
    if paths == [] then Success([])
    else
      match BuildEntry(cfg, host, paths[0])
      case Failure(e) => Failure(e)
      case Success(entry) =>
        match BuildItems(cfg, host, paths[1..])
        case Failure(e) => Failure(e)
        case Success(rest) => Success([entry] + rest)
  }

  /** The playlist document for the matched relative paths. */
  function BuildPlaylist(cfg: Config, host: Host, targetFilePaths: seq<string>): (r: Result<Playlist, string>)
    ensures r.Success? ==> |r.value.items| == |targetFilePaths|
  {
    match BuildItems(cfg, host, targetFilePaths)
    case Failure(e) => Failure(e)
    case Success(entries) =>
      Success(Playlist(
        version := PlaylistVersion,
        defaultCorePath := "",
        defaultCoreName := "",
        labelDisplayMode := 0,
        rightThumbnailMode := 0,
        leftThumbnailMode := 0,
        items := entries))
  }

  // ---------------------------------------------------------------------------
  // Properties of the mapping
  // ---------------------------------------------------------------------------

  /** Entry `i` of a successful mapping is the entry built from matched path `i`. */
  lemma {:induction false} ItemsFollowInput(cfg: Config, host: Host, paths: seq<string>)
    ensures var r := BuildItems(cfg, host, paths);
      r.Success? ==> forall i :: 0 <= i < |paths| ==> BuildEntry(cfg, host, paths[i]) == Success(r.value[i])
  {
    if paths != [] {
      ItemsFollowInput(cfg, host, paths[1..]);
      var r := BuildItems(cfg, host, paths);
      if r.Success? {
        var rest := BuildItems(cfg, host, paths[1..]);
        assert r.value == [BuildEntry(cfg, host, paths[0]).value] + rest.value;
        forall i | 0 <= i < |paths|
          ensures BuildEntry(cfg, host, paths[i]) == Success(r.value[i])
        {
          if i > 0 {
            assert paths[i] == paths[1..][i - 1];
          }
        }
      }
    }
  }

  /**
   * The build fails exactly when some matched file cannot be read, and then
   * it reports the input path of the first such file.
   */
  lemma {:induction false} FailsOnFirstUnreadable(cfg: Config, host: Host, paths: seq<string>)
    ensures var r := BuildItems(cfg, host, paths);
      r.Failure? <==> exists i :: 0 <= i < |paths| && !Readable(cfg, host, paths[i])
    ensures var r := BuildItems(cfg, host, paths);
      r.Failure? ==> exists i :: (0 <= i < |paths| && !Readable(cfg, host, paths[i])
        && (forall j :: 0 <= j < i ==> Readable(cfg, host, paths[j]))
        && r.error == InputPath(cfg, host, paths[i]))
  {
    if paths != [] {
      FailsOnFirstUnreadable(cfg, host, paths[1..]);
      var r := BuildItems(cfg, host, paths);
      if !Readable(cfg, host, paths[0]) {
        assert r.Failure? && r.error == InputPath(cfg, host, paths[0]);
      } else {
        if exists i :: 0 <= i < |paths| && !Readable(cfg, host, paths[i]) {
          var i :| 0 <= i < |paths| && !Readable(cfg, host, paths[i]);
          assert paths[1..][i - 1] == paths[i];
        }
        if r.Failure? {
          var i :| 0 <= i < |paths| - 1 && !Readable(cfg, host, paths[1..][i])
            && (forall j :: 0 <= j < i ==> Readable(cfg, host, paths[1..][j]))
            && r.error == InputPath(cfg, host, paths[1..][i]);
          assert paths[i + 1] == paths[1..][i];
          forall j | 0 <= j < i + 1
            ensures Readable(cfg, host, paths[j])
          {
            if j > 0 {
              assert paths[j] == paths[1..][j - 1];
            }
          }
        }
      }
    }
  }

  // ---------------------------------------------------------------------------
  // Properties of the playlist document
  // ---------------------------------------------------------------------------

  /** No matched files give an empty item list under the fixed header. */
  lemma EmptyInputGivesEmptyItems(cfg: Config, host: Host)
    ensures BuildPlaylist(cfg, host, []) == Success(Playlist(PlaylistVersion, "", "", 0, 0, 0, []))
  {
  }

  /** A playlist is produced exactly when every matched file can be read; otherwise the first unreadable path is reported. */
  lemma PlaylistFailsIffUnreadable(cfg: Config, host: Host, paths: seq<string>)
    ensures BuildPlaylist(cfg, host, paths).Failure? <==> exists i :: 0 <= i < |paths| && !Readable(cfg, host, paths[i])
    ensures var r := BuildPlaylist(cfg, host, paths);
      r.Failure? ==> exists i :: (0 <= i < |paths| && !Readable(cfg, host, paths[i])
        && (forall j :: 0 <= j < i ==> Readable(cfg, host, paths[j]))
        && r.error == InputPath(cfg, host, paths[i]))
  {
    FailsOnFirstUnreadable(cfg, host, paths);
  }

  /** The document header is the same whatever the input. */
  lemma DocumentHeaderIsFixed(cfg: Config, host: Host, paths: seq<string>)
    ensures var r := BuildPlaylist(cfg, host, paths);
      r.Success? ==>
        && r.value.version == "1.2"
        && r.value.defaultCorePath == "" && r.value.defaultCoreName == ""
        && r.value.labelDisplayMode == 0 && r.value.rightThumbnailMode == 0 && r.value.leftThumbnailMode == 0
  {
  }

  /** Every entry names the playlist file as its database and leaves the core to detection. */
  lemma EveryEntryHasFixedFields(cfg: Config, host: Host, paths: seq<string>)
    ensures var r := BuildPlaylist(cfg, host, paths);
      r.Success? ==> forall i :: 0 <= i < |r.value.items| ==>
        && r.value.items[i].dbName == cfg.playlistFileName
        && r.value.items[i].coreName == "DETECT"
        && r.value.items[i].corePath == "DETECT"
  {
    ItemsFollowInput(cfg, host, paths);
  }

  /**
   * Entry `i` describes matched path `i`: its label and checksum come from the
   * input file, and its path is the normalised output path, joined onto the
   * override when that is truthy and otherwise the input path itself.
   */
  lemma EntryDescribesMatchedFile(cfg: Config, host: Host, paths: seq<string>, i: int)
    requires 0 <= i < |paths|
    ensures var r := BuildPlaylist(cfg, host, paths);
      r.Success? ==>
        var e := r.value.items[i];
        var input := host.pathJoin(cfg.basePath, paths[i]);
        && host.readFile(input).Some?
        && e.displayLabel == host.parseName(input)
        && e.crc32 == host.crc32Hex(host.readFile(input).value)
        && e.path == NormalizeOutputPath(
             if OverrideIsTruthy(cfg) then host.pathJoin(cfg.outputBasePathOverride.value, paths[i]) else input)
  {
    ItemsFollowInput(cfg, host, paths);
  }

  /**
   * The override moves only the output paths: two configurations that agree on
   * the base path and the playlist name fail alike or give entries with the same
   * label, checksum and fixed fields.
   */
  lemma OverrideAffectsOnlyPaths(cfg1: Config, cfg2: Config, host: Host, paths: seq<string>)
    requires cfg1.basePath == cfg2.basePath && cfg1.playlistFileName == cfg2.playlistFileName
    ensures var r1, r2 := BuildPlaylist(cfg1, host, paths), BuildPlaylist(cfg2, host, paths);
      && (r1.Failure? <==> r2.Failure?)
      && (r1.Failure? ==> r1.error == r2.error)
      && (r1.Success? ==> forall i :: 0 <= i < |paths| ==>
            && r1.value.items[i].displayLabel == r2.value.items[i].displayLabel
            && r1.value.items[i].crc32 == r2.value.items[i].crc32
            && r1.value.items[i].dbName == r2.value.items[i].dbName)
  {
    FailsOnFirstUnreadable(cfg1, host, paths);
    FailsOnFirstUnreadable(cfg2, host, paths);
    ItemsFollowInput(cfg1, host, paths);
    ItemsFollowInput(cfg2, host, paths);
    var r1, r2 := BuildPlaylist(cfg1, host, paths), BuildPlaylist(cfg2, host, paths);
    if r1.Failure? {
      var i :| 0 <= i < |paths| && !Readable(cfg1, host, paths[i])
        && (forall j :: 0 <= j < i ==> Readable(cfg1, host, paths[j]))
        && r1.error == InputPath(cfg1, host, paths[i]);
      var k :| 0 <= k < |paths| && !Readable(cfg2, host, paths[k])
        && (forall j :: 0 <= j < k ==> Readable(cfg2, host, paths[j]))
        && r2.error == InputPath(cfg2, host, paths[k]);
      assert forall rel :: Readable(cfg1, host, rel) == Readable(cfg2, host, rel);
      assert i == k;
    }
  }

  /** The input path depends on the base path alone: neither the override nor the playlist name enters it. */
  lemma InputPathIgnoresOverrideAndName(cfg: Config, host: Host, rel: string, o: Option<string>, n: string)
    ensures InputPath(cfg.(outputBasePathOverride := o, playlistFileName := n), host, rel) == InputPath(cfg, host, rel)
  {
  }

  /** Without a truthy override the output path before normalisation is the input path, whatever the override holds. */
  lemma FalsyOverrideUsesInputPath(cfg: Config, host: Host, rel: string)
    requires !OverrideIsTruthy(cfg)
    ensures OutputPathSource(cfg, host, rel) == OutputPathSource(cfg.(outputBasePathOverride := None), host, rel)
    ensures OutputPathSource(cfg, host, rel) == host.pathJoin(cfg.basePath, rel)
  {
  }

  /** With a truthy override the output path no longer depends on the base path. */
  lemma TruthyOverrideIgnoresBasePath(cfg: Config, host: Host, rel: string, otherBase: string)
    requires OverrideIsTruthy(cfg)
    ensures OutputPathSource(cfg, host, rel) == OutputPathSource(cfg.(basePath := otherBase), host, rel)
    ensures OutputPathSource(cfg, host, rel) == host.pathJoin(cfg.outputBasePathOverride.value, rel)
  {
  }
}
