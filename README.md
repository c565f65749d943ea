# RetroArch playlist builder — Dafny model

The tool scans a base directory for files that match glob patterns. It writes a
RetroArch playlist: a JSON document with a fixed header and one item per
matched file. Each item holds the file's label (its name without extension),
the hex CRC-32 of its contents, the playlist's own file name as `db_name`,
`"DETECT"` as core name and core path, and an output path.

This project models the step that builds the playlist from the list of matched
relative paths (`buildPlaylist` in `src/index.js`). It uses two modules:

- `PathNormalization` (`path_normalization.dfy`): the two chained
  `String.prototype.replace` calls that rewrite every output path.
  - Step 1 is the global regular expression `/\\\//g`. It replaces each
    backslash-slash pair by a single backslash, scanning left to right
    without overlaps.
  - Step 2 uses the plain string pattern `'/'`. In JavaScript this rewrites
    only the *first* remaining forward slash. Later slashes stay:
    `/u/a.bin` becomes `\u/a.bin`.
  - The module proves exactly what each step does to length and character
    counts, where it acts, when it is a no-op, and that step 1 is not
    idempotent.
- `PlaylistBuilder` (`playlist_builder.dfy`): the configuration
  (base path, playlist file name, optional output-path override) and the
  library calls (`path.join`, the `name` of `path.parse`, `fs.readFileSync`,
  the CRC-32 in hex). The library calls are fields of a `Host` record and stay
  uninterpreted. The module also holds the per-file entry, the `map` over the
  matched paths, and the document record.
  - A failed read (`readFileSync` throws) becomes `Failure(path)` of the first
    unreadable file, and no playlist is produced.
  - The override counts only when it is truthy in JavaScript: present and
    non-empty.

The JSON field `label` is called `displayLabel` in the model, because `label`
is a reserved word in Dafny.

The comment at src/index.js:55 calls the result a Windows-formatted path. But
step 2 (src/index.js:56) replaces only the first slash left after step 1, so
`/home/u/a.bin` becomes `\home/u/a.bin`. The model follows the code.
`PathNormalization.NormalizedHasNoSlashIff` states exactly when no forward slash
is left. `PathNormalization.PosixAbsolutePathKeepsLaterSlashes` shows that a POSIX
absolute path keeps all its later slashes.

## Model

| member | source | states |
|---|---|---|
| `PathNormalization.ReplaceEscapedSlashes` | src/index.js:55 | the result is shorter than the input by exactly the number of backslash-slash pairs in the input, counted one index at a time: the pair cannot overlap itself, so the left-to-right scan replaces every occurrence |
| `PathNormalization.ReplaceEscapedSlashesOnlyCollapses` | src/index.js:55 | step 1 only collapses backslash-slash pairs into a backslash; every other character is kept, in order |
| `PathNormalization.CollapsingEveryPairIsStep1` | src/index.js:55 | any way of collapsing some backslash-slash pairs leaves a string at least as long as step 1's result, and one exactly that short is step 1's result: together with `ReplaceEscapedSlashesOnlyCollapses`, step 1 is the collapse of every pair |
| `PathNormalization.ReplaceEscapedSlashesSlashCount` | src/index.js:55 | after step 1 the count of `/` is the input's count minus the number of pairs |
| `PathNormalization.ReplaceEscapedSlashesKeepsOthers` | src/index.js:55 | step 1 leaves the count of every character other than `/` unchanged |
| `PathNormalization.OccurrenceCountPositiveIff` | src/index.js:55 | step 1 has something to replace if and only if a backslash-slash pair occurs at some index |
| `PathNormalization.NoOccurrenceUnchanged` | src/index.js:55 | with no pair to replace, step 1 returns its input |
| `PathNormalization.ReplaceEscapedSlashesFixedIff` | src/index.js:55 | step 1 leaves a string unchanged if and only if the string holds no backslash-slash pair |
| `PathNormalization.ReplaceEscapedSlashesNotIdempotent` | src/index.js:55 | step 1 is not idempotent: `\//` becomes `\/`, which step 1 would change again |
| `PathNormalization.NoBackslashUnchanged` | src/index.js:55 | a path without backslashes passes step 1 unchanged |
| `PathNormalization.ReplaceFirstSlash` | src/index.js:56 | step 2 preserves length and returns a string without `/` unchanged |
| `PathNormalization.ReplaceFirstSlashAt` | src/index.js:56 | when the first `/` is at index i, exactly that character becomes `\`; the prefix and the suffix, later slashes included, are kept |
| `PathNormalization.ReplaceFirstSlashCounts` | src/index.js:56 | step 2 removes one `/` and adds one `\` when the input holds a `/`, changes nothing otherwise, and keeps the count of every other character |
| `PathNormalization.NormalizeOutputPath` | src/index.js:55-56 | the normalised path is shorter than its input by the number of backslash-slash pairs |
| `PathNormalization.NormalizedSlashCount` | src/index.js:55-56 | after both steps the count of `/` is one less than after step 1 when step 1 left any, and otherwise unchanged; in terms of the input, it is the slashes not collapsed by step 1, minus one, and never below zero |
| `PathNormalization.NormalizedHasNoSlashIff` | src/index.js:55-56 | the normalised path is free of `/` if and only if step 1 left at most one `/` |
| `PathNormalization.PosixAbsolutePathKeepsLaterSlashes` | src/index.js:55-56 | a path that is `/` followed by text without backslashes (a POSIX absolute path) comes out as `\` followed by that text unchanged, so it keeps all its later slashes: `/u/a.bin` becomes `\u/a.bin` |
| `PlaylistBuilder.InputPathIgnoresOverrideAndName` | src/index.js:47 | the input path (base path joined with the relative path) is the same whatever the override and the playlist name |
| `PlaylistBuilder.BuildEntry` | src/index.js:46-65 | an entry is built if and only if the input file (base path joined with the relative path) can be read; otherwise the failure names that input path |
| `PlaylistBuilder.BuildItems` | src/index.js:46-66 | a successful mapping has exactly one entry per matched path |
| `PlaylistBuilder.BuildPlaylist` | src/index.js:45-77 | a produced playlist has exactly one item per matched path |
| `PlaylistBuilder.ItemsFollowInput` | src/index.js:46-66 | entry i of a successful mapping is the entry built from matched path i: same order, nothing added or dropped |
| `PlaylistBuilder.FailsOnFirstUnreadable` | src/index.js:46-49 | the mapping fails if and only if some matched file cannot be read, and it then reports the input path of the first unreadable file |
| `PlaylistBuilder.PlaylistFailsIffUnreadable` | src/index.js:45-49 | the playlist is produced if and only if every matched file can be read; otherwise the first unreadable input path is reported |
| `PlaylistBuilder.EmptyInputGivesEmptyItems` | src/index.js:45-76 | no matched files give a playlist with the fixed header and `items == []` |
| `PlaylistBuilder.DocumentHeaderIsFixed` | src/index.js:68-74 | whatever the input, the header is version `1.2`, empty default core path and name, and all three display modes `0` |
| `PlaylistBuilder.EveryEntryHasFixedFields` | src/index.js:58-62 | every entry has `db_name` equal to the playlist file name, and core name and core path `DETECT` |
| `PlaylistBuilder.EntryDescribesMatchedFile` | src/index.js:47-64 | entry i has the label and checksum of the input file of matched path i, and its path is the normalised join of the override with the relative path when the override is truthy, else the normalised input path |
| `PlaylistBuilder.OverrideAffectsOnlyPaths` | src/index.js:47-63 | two configurations that differ only in the override fail alike, with the same error, or give entries with the same label, checksum and `db_name` |
| `PlaylistBuilder.FalsyOverrideUsesInputPath` | src/index.js:51-54 | a missing or empty override behaves like no override: the output path before normalisation is the input path |
| `PlaylistBuilder.TruthyOverrideIgnoresBasePath` | src/index.js:51-54 | with a truthy override the output path is the override joined with the relative path and does not depend on the base path |

## Left out

- Glob matching with `globby` and its options (src/index.js:24-28, 36-42). It is a library over the file system, so the matched relative paths are an input sequence.
- Reading the files (src/index.js:49). It is I/O, so `Host.readFile` gives the contents of a path, or `None` when the read throws. The UTF-8 decoding is part of that function.
- The CRC-32 algorithm and its hex formatting (src/index.js:50). They live in the `crc` package, which is not part of this model, so `Host.crc32Hex` is uninterpreted.
- `path.join` and `path.parse` (src/index.js:47-48). Their segment normalisation and extension splitting are Node library behaviour, so `Host.pathJoin` and `Host.parseName` are uninterpreted.
- `JSON.stringify` and writing the playlist to `./build/` (src/index.js:92-100). These are serialisation and I/O.
- Command-line handling: the argument-count check, splitting the patterns on commas, console output, the top-level catch and the exit codes (src/index.js:5-8, 20-30, 79-111). They are CLI glue. The configuration is a `Config` value.
- The `async` wrapper of `buildPlaylist`. The model returns the value the promise would resolve to, or `Failure` where it would reject.
- The default argument `targetFilePaths=[]`. The model always takes a sequence, and an omitted argument is the empty sequence.
- `PlaylistBuilder.BuildEntry`: a failure carries only the input path, not the whole exception object that Node raises.
