# MP3-Selector: the cache-validated scan-and-select pipeline

MP3-Selector picks a playlist out of a music library. It walks a folder
for `.mp3` files, reads their ID3 artist and title, groups the songs by
artist, selects a bounded subset, cuts the subset to a size budget and
copies or links the result into a destination folder. A scan is
expensive, so each scan is kept in a JSON cache file per music folder.
That cache is trusted only while the folder's *watermark* (the newest
modification time over the walked directories and `.mp3` files) is not
newer than the one recorded, and only while every cached file still
exists.

The repository has two copies of this pipeline:

- `mp3_selector.py`, a command-line script. It samples at random: artists
  with six or more songs give `songs_per_artist` songs each, and the
  other artists' pool gives `min(max(1, N/10), pool)` songs. It then
  shuffles the selection and packs it under a byte cap.
- `mp3_selector_gui.py`, a desktop script. It has a manual cache file
  that skips the folder and watermark checks, a two-phase scan the user
  can stop, grouping by the raw tag artist, a deterministic per-artist
  prefix, and a choice between copying (under a cap) and linking.

The model is one Dafny module per component:

| file | module | what it holds |
|---|---|---|
| `common.dfy` | `Common` | `Option`, Python's `s[:n]`, ASCII `lower`, `endswith`, duplicate-freedom |
| `snapshot.dfy` | `Snapshot` | the frozen file system (`os.walk`, `getmtime`, `getsize`, `exists`, the ID3 reader), the `.mp3` name tests and the watermark |
| `cache.dfy` | `Cache` | the song record, the cache file and the existence filter |
| `random.dfy` | `Random` | `random.sample` and `random.shuffle`, driven by a random source parameter |
| `grouping.dfy` | `Grouping` | `defaultdict(list)` with dict insertion order |
| `packing.dfy` | `Packing` | the greedy size budget, which both scripts share |
| `mp3_selector.dfy` | `Mp3Selector` | the command-line pipeline |
| `mp3_selector_gui.dfy` | `Mp3SelectorGui` | the desktop pipeline, up to the copy/link step |

The file system is a value (`FileSystem`). A path missing from one of its
maps is a path for which that call raises. The cache directory is a map
from cache-file path to content: it is passed in, and a new one comes
back. The name of a folder's cache file is the function parameter
`cacheName`. Loops in the source are methods with loop invariants. Each
method is proved equal to a specification function, and the properties
are proved about those functions as lemmas.

## Model

| member | source | states |
|---|---|---|
| `Common.SlicePrefix` | mp3_selector.py:143-144 | Python's `s[:n]` is a prefix of `s`, of length `n` capped at `len(s)` for `n >= 0`, and of length `len(s)+n` (at least 0) for a negative `n` |
| `Common.LimitTo` | mp3_selector_gui.py:221-222 | `if limit: s = s[:limit]` keeps everything for a falsy limit; for a positive limit the result is a prefix of at most `limit` items, exactly `limit` when there are enough |
| `Common.LowerIdempotent` | mp3_selector.py:31 | lower-casing (ASCII letters) twice is the same as once |
| `Common.LowerNoUpper` | mp3_selector.py:31 | the ASCII lower case of a string has no ASCII upper-case letter, and a string without one is its own lower case |
| `Common.AsciiOnlyIsAscii` | mp3_selector.py:30 | `.encode('ASCII', 'ignore')` leaves only ASCII characters and never lengthens the text |
| `Common.AsciiOnlyKeeps` | mp3_selector.py:30 | an ASCII string passes `.encode('ASCII', 'ignore')` unchanged |
| `Common.SubMultisetNoDuplicates` | mp3_selector.py:217 | items taken from distinct positions of a duplicate-free list are duplicate-free |
| `Snapshot.IsMp3NameSpec` | mp3_selector_gui.py:31 | the extension test is `name.endswith('.mp3')` (exact) or `name.lower().endswith('.mp3')` (ignoring case) |
| `Snapshot.UpperCaseExtension` | mp3_selector.py:182 | the command-line scan's exact test rejects `a.MP3`, while the watermark's case-blind test accepts it |
| `Snapshot.ExactImpliesIgnoreCase` | mp3_selector.py:47 | every name the scan reads also counts towards the watermark |
| `Snapshot.Mp3PathsMember` | mp3_selector_gui.py:203-210 | a path is collected exactly when some walked directory lists a file with the extension whose joined path it is |
| `Snapshot.DirsMaxIsMax` | mp3_selector.py:39-55 | the watermark fails exactly when a walked directory's mtime cannot be read; otherwise it is >= 0, >= every walked directory's mtime and every readable `.mp3` mtime, and equal to 0 or to one of them (unreadable `.mp3` mtimes are skipped) |
| `Snapshot.TouchRaisesWatermark` | mp3_selector.py:46-52 | raising any `.mp3` file's mtime above the watermark raises the watermark to at least that time |
| `Cache.PathsOf` | mp3_selector_gui.py:301 | `[song["path"] for song in songs]` has one path per song, position by position |
| `Cache.KeepPresentAll` | mp3_selector.py:114-120 | the existence filter loses nothing exactly when every stored path exists, and then it returns the list unchanged, so the length comparison is an all-or-nothing check |
| `Cache.KeepPresentSource` | mp3_selector_gui.py:132-134 | every song the filter keeps is a stored song whose path exists |
| `Cache.KeepPresentComplete` | mp3_selector_gui.py:132-134 | every stored song whose path exists is kept |
| `Cache.KeepPresentOrder` | mp3_selector_gui.py:132-134 | the filter's result is the stored songs at exactly the positions whose path exists, in increasing position order |
| `Cache.KeepPresentAfterDelete` | mp3_selector.py:118-120 | deleting the file of any stored song makes the filter drop something |
| `Random.Sample` | mp3_selector.py:217 | `random.sample(population, k)` returns `k` items taken from distinct positions of the population |
| `Random.Shuffle` | mp3_selector.py:237 | `random.shuffle` leaves the list a permutation of what it held |
| `Packing.BudgetIsLongestFit` | mp3_selector.py:239-245 | the greedy loop keeps the longest prefix whose sizes are all readable and whose total is within the cap; the next file, if any, overflows, and no longer prefix fits |
| `Packing.BudgetError` | mp3_selector.py:240 | the loop fails only when it reaches a file whose size cannot be read while everything before it fits |
| `Packing.BudgetExample` | mp3_selector_gui.py:365-369 | sizes 3, 4, 5 and 1 GiB under an 8 GiB cap keep the first two files, 7 GiB in all |
| `Grouping.GroupSpecWellFormed` | mp3_selector.py:199-202 | appending to a `defaultdict(list)` gives each key once, no empty list, and exactly the keys that occur |
| `Grouping.GroupSpecMembers` | mp3_selector.py:200-202 | each group holds exactly the items of its key, in input order |
| `Grouping.GroupSpecItems` | mp3_selector.py:199-202 | the groups together are a permutation of the grouped items, so the count is preserved |
| `Mp3Selector.NormalizeTextSpec` | mp3_selector.py:29-31 | `normalize_text` yields lower-case ASCII no longer than the folded text, and plain lower-casing when the folded text is ASCII |
| `Mp3Selector.NormalizeTextIdempotent` | mp3_selector.py:29-31 | normalizing a normalized artist changes nothing when the folding leaves plain ASCII alone |
| `Mp3Selector.ReadMetadataSpec` | mp3_selector.py:158-167 | `read_metadata` (`tags.get(key, [default])[0]` is `Snapshot.FirstValue`) fails exactly when the tags cannot be read or a field is an empty list; otherwise it returns the path, the normalized artist (default `Unknown`) and the title (default `Untitled`) |
| `Mp3Selector.UnknownArtist` | mp3_selector.py:161-163 | a missing artist tag normalizes to `unknown` |
| `Mp3Selector.FolderModificationTime` | mp3_selector.py:39-55 | the nested loop computes the watermark, and fails when a directory's mtime raises |
| `Mp3Selector.SaveCache` | mp3_selector.py:57-80 | the cache file of the folder is replaced by the record `Cache.Record` {folder, current watermark, songs} and no other file changes; when the watermark raises nothing is written |
| `Mp3Selector.LoadCache` | mp3_selector.py:82-132 | the method returns what the specification `LoadSpec` gives for the folder's cache file |
| `Mp3Selector.LoadSpecAccepts` | mp3_selector.py:87-128 | the cache is accepted exactly when the file exists and parses, names the folder, its recorded time (default 0) is not older than the watermark, and every stored path exists; the stored songs then come back unchanged and in order |
| `Mp3Selector.CacheRoundTrip` | mp3_selector.py:95-128 | saving and then loading on an unchanged file system with every path present returns exactly the saved list |
| `Mp3Selector.ForeignCacheRejected` | mp3_selector.py:94-97 | a cache written for another folder under the same file name is never accepted |
| `Mp3Selector.TouchInvalidatesCache` | mp3_selector.py:99-107 | touching any `.mp3` file of the folder after a save makes the next load fail |
| `Mp3Selector.DeleteInvalidatesCache` | mp3_selector.py:109-120 | deleting any saved song's file after a save makes the next load fail |
| `Mp3Selector.ReadAllMember` | mp3_selector.py:181-187 | a song is kept exactly when one of the candidate paths reads as it |
| `Mp3Selector.ScanIsLimitedRead` | mp3_selector.py:176-191 | the nested loop with its early return collects the successful reads of the exact-case `.mp3` paths in walk order, cut to a positive `limit` |
| `Mp3Selector.ListMp3Files` | mp3_selector.py:170-194 | `list_mp3_files` returns `ListMp3Spec`: the successful reads of the exact `.mp3` names in walk order, cut to the first `limit` when it is truthy |
| `Mp3Selector.ListMp3Guarantees` | mp3_selector.py:170-194 | the scan is at most `limit` songs long; every song comes from an exact `.mp3` name of the walk and is its own read; with no limit, no readable file is missed |
| `Mp3Selector.ListMp3FilesWithCache` | mp3_selector.py:134-155 | the cache is tried only with `use_cache` set and no forced rescan; a non-empty hit is returned cut to a truthy limit and nothing is written; otherwise the scan is returned and exactly that list is saved when it is non-empty and `use_cache` is set |
| `Mp3Selector.GroupByArtist` | mp3_selector.py:197-204 | the loop builds the grouping of the (artist, song) pairs |
| `Mp3Selector.GroupByArtistSpec` | mp3_selector.py:197-204 | the keys are the artists that occur; each group holds exactly that artist's songs in list order; the groups are a permutation of the songs |
| `Mp3Selector.SelectSongsBasedOnArtistCount` | mp3_selector.py:207-228 | the call fails exactly when some prolific artist exists and the count is negative or above its group size; otherwise it returns `k` songs from each prolific group in dict order, then `min(max(1, N/10), pool)` songs from the pool of the other groups |
| `Mp3Selector.TierPartition` | mp3_selector.py:211-213 | every artist lands in exactly one tier, the prolific one exactly when it has at least six songs |
| `Mp3Selector.SelectionLength` | mp3_selector.py:215-225 | the selection has `N = k * prolific` songs followed by `min(max(1, N/10), pool)` pool songs |
| `Mp3Selector.SelectionFromInput` | mp3_selector.py:217-225 | everything selected is drawn from the grouped songs, so a duplicate-free input gives a duplicate-free selection |
| `Mp3Selector.SelectionPool` | mp3_selector.py:224-225 | every pool song belongs to an artist with at most five songs |
| `Mp3Selector.SelectionPerArtist` | mp3_selector.py:216-217 | each prolific artist has exactly `songs_per_artist` songs in the selection |
| `Mp3Selector.TakeWithinBudget` | mp3_selector.py:239-245 | the accumulating loop with `break` returns the budget's prefix, and fails when a size read raises |
| `Mp3Selector.LimitSongsBySize` | mp3_selector.py:231-248 | the caller's array is permuted in place, and the result is the longest prefix of the new order that fits the cap |
| `Mp3Selector.WithinBudgetIsLongestFit` | mp3_selector.py:239-248 | the kept songs are a prefix that fits the cap, and the first overflowing song and everything after it are dropped |
| `Mp3SelectorGui.FolderModificationTime` | mp3_selector_gui.py:22-42 | the loop computes the watermark, and returns 0 when the walk raises |
| `Mp3SelectorGui.SaveCache` | mp3_selector_gui.py:44-92 | the folder's cache file becomes the record `Cache.Record` {folder, watermark (0 on failure), records} and no other file changes |
| `Mp3SelectorGui.LoadCache` | mp3_selector_gui.py:94-151 | the method returns what the specification `LoadSpec` gives, with or without a manual path |
| `Mp3SelectorGui.LoadAutomatic` | mp3_selector_gui.py:110-139 | without a manual path the cache is accepted exactly when the file exists and parses, names the folder, is not older than the watermark and every path exists; the stored songs come back unchanged |
| `Mp3SelectorGui.LoadManual` | mp3_selector_gui.py:97-139 | with an existing manual file, folder and watermark are not checked; the result is the existence filter `KeepPresent` of the stored songs (whose order `Cache.KeepPresentOrder` states), and a song is in it exactly when it is stored and its path exists |
| `Mp3SelectorGui.LoadManualMissing` | mp3_selector_gui.py:97-111 | a manual path that does not exist falls back to the folder's own file, but the folder and watermark checks stay skipped |
| `Mp3SelectorGui.UnreadableFolderTrustsCache` | mp3_selector_gui.py:40-42 | when a walked directory cannot be stamped the watermark is 0, so a cache for the folder stamped at 0 or later is accepted |
| `Mp3SelectorGui.CacheRoundTrip` | mp3_selector_gui.py:110-147 | saving and then loading automatically on an unchanged file system with every path present returns exactly the saved list |
| `Mp3SelectorGui.CollectMp3Files` | mp3_selector_gui.py:197-227 | phase 1 returns [] when the stop flag is set during the walk, and otherwise the case-blind `.mp3` paths in walk order, cut to a truthy `limit` |
| `Mp3SelectorGui.CollectGuarantees` | mp3_selector_gui.py:203-222 | the collected paths are all `.mp3` files of the walk, at most `limit` of them, and with no limit none is missed |
| `Mp3SelectorGui.GuiRecordCases` | mp3_selector_gui.py:234-253 | a record (`GuiRecord`, built with `Snapshot.FirstValue` for `tags.get(key, [default])[0]`) carries its path and an artist without ASCII upper-case letters; an unreadable tag (or an empty field list) gives `unknown`/`untitled`; missing fields give `unknown`/`Untitled`; otherwise it holds the ASCII-lower-cased first artist and the first title |
| `Mp3SelectorGui.RecordsPaths` | mp3_selector_gui.py:327 | the records of the collected paths (`RecordsOf`, one `GuiRecord` per path) carry exactly the collected paths, in order |
| `Mp3SelectorGui.ProcessMetadata` | mp3_selector_gui.py:256-270 | phase 2 takes in a sub-multiset of the records of the collected paths (`RecordsOf`); all of them without a stop, and `min(consumed, n)` after a stop; every record is its path's record |
| `Mp3SelectorGui.ListMp3FilesParallel` | mp3_selector_gui.py:192-279 | the scan returns nothing after a stop in the walk, and otherwise the records of the collected and limited paths, all of them without a stop |
| `Mp3SelectorGui.ListMp3FilesWithCache` | mp3_selector_gui.py:281-327 | the cache is tried only with `use_cache` set and no forced rescan; a non-empty hit gives its paths cut to a truthy limit and writes nothing; otherwise the scanned records' paths are returned, and the records are saved when non-empty and `use_cache` or `only_cache` is set, even after a stop |
| `Mp3SelectorGui.PartialCacheAccepted` | mp3_selector_gui.py:262-264 | as written, a stop after one of two records saves a one-song cache that the next automatic run accepts |
| `Mp3SelectorGui.ListMp3FilesWithCacheCorrected` | mp3_selector_gui.py:318-324 | the same orchestration with the save skipped after a stop |
| `Mp3SelectorGui.CorrectedSaveIsComplete` | mp3_selector_gui.py:318-324 | with the corrected save, a stopped run leaves the cache directory as it was, and anything saved holds the record of every collected path exactly once |
| `Mp3SelectorGui.GroupByArtist` | mp3_selector_gui.py:329-343 | the loop builds the grouping of the (raw artist, path) pairs, skipping unreadable files |
| `Mp3SelectorGui.GroupByArtistSpec` | mp3_selector_gui.py:329-343 | the keys are the readable raw artists (`TagArtist`, the first entry of a non-empty artist list of readable tags); each group holds exactly that artist's paths in order; the groups are a permutation of the readable paths, so an unreadable file is in no group |
| `Mp3SelectorGui.SelectSongsBasedOnArtistCount` | mp3_selector_gui.py:345-354 | the loop builds the first `songs_per_artist` paths of each group, in dict order |
| `Mp3SelectorGui.TakeEachLength` | mp3_selector_gui.py:348-352 | the selection has exactly the sum over groups of `min(len(group), songs_per_artist)` paths |
| `Mp3SelectorGui.TakeEachFromGroups` | mp3_selector_gui.py:352 | the selection is drawn from the grouped paths |
| `Mp3SelectorGui.TakeEachAll` | mp3_selector_gui.py:352 | when no group is longer than `songs_per_artist`, every grouped path is selected in group order |
| `Mp3SelectorGui.TakeEachMember` | mp3_selector_gui.py:352 | every selected path is among the first `songs_per_artist` paths of some group |
| `Mp3SelectorGui.LimitSongsBySize` | mp3_selector_gui.py:356-371 | the loop returns the budget's prefix in the given order, and fails when a size read raises |
| `Mp3SelectorGui.WithinBudgetIsLongestFit` | mp3_selector_gui.py:359-369 | the kept paths are a prefix that fits the cap, and the first overflowing path and everything after it are dropped |
| `Mp3SelectorGui.StartProcess` | mp3_selector_gui.py:409-480 | the scan is the as-written `ListMp3FilesWithCache`, so a stop still lets it save the partial records; the run then ends `Interrupted`; cache-only mode ends after the scan; otherwise the run ends as `AfterScan` says: no files, a size error, nothing within the cap, or the chosen paths handed to the copy or link step |
| `Mp3SelectorGui.StartProcessCorrected` | mp3_selector_gui.py:431-437 | the same run over `ListMp3FilesWithCacheCorrected`: a stop ends it `Interrupted` and leaves the cache directory as it was |
| `Mp3SelectorGui.FinishProcess` | mp3_selector_gui.py:439-476 | after a scan without a stop, cache-only mode reports the count (or no files), an empty scan reports no files, and otherwise grouping, selection and, in copy mode, the size cap give a size error, nothing within the cap, or the paths handed to the copy or link step, as `AfterScan` states |
| `Mp3SelectorGui.TransferGuarantees` | mp3_selector_gui.py:448-477 | what reaches the copy/link step is non-empty and drawn from the readable scanned paths; a copy is a prefix of the selection within `max_size_gb * 1024**3`; a link run gets the whole selection, of `sum min(len, k)` paths |
| `Mp3SelectorGui.SelectionFromTagged` | mp3_selector_gui.py:452-453 | the selection is drawn from the scanned paths whose artist can be read |
| `Mp3SelectorGui.TransferCopy` | mp3_selector_gui.py:454-455 | in copy mode, the chosen paths are a non-empty prefix of the selection that fits the cap |
| `Mp3SelectorGui.TransferLink` | mp3_selector_gui.py:456-457 | in link mode, the selection passes through whole, whatever the cap |

## Behaviour of the code worth noting

The model follows the code in each case below.

- Both scripts save the scan as it was returned, which is already cut to
  `limit`. They do not save the full, unlimited scan.
- The desktop script saves a partial scan after a stop in phase 2 (see
  Findings). `StartProcess` models this as written;
  `StartProcessCorrected` is the same run with the corrected save.
- The command-line scan tests the extension case-sensitively
  (`file.endswith(".mp3")`). Its watermark and the desktop script test it
  case-insensitively.
- A negative `limit` follows Python. `s[:-2]` drops the last two items.
  The command-line scan returns after the first `.mp3` name, whether or
  not that file could be read.

## Left out

- The Tkinter front-end is not modelled: widgets, progress bars, status
  labels and message boxes. They are presentation only.
- The thread pool is not modelled. Phase 2 is run in submission order.
- The global stop flag is an input (`Cancel`). It stops the walk, or phase
  2 after a given number of records. The flag checks inside grouping,
  selection, size limiting and copying are not modelled. In each of those
  places `start_process` raises right after the check and discards the
  result.
- `get_cache_filename` is the parameter `cacheName`, because Python's
  salted `hash()` is not a stable function.
- The JSON encoding, `time.time`/`time.ctime`, the `timestamp` and
  `total_songs` fields and all printing are left out. A file that does
  not parse is `Corrupt`.
- Cache write failures (`makedirs`, `open`) are left out. A watermark
  failure in the command-line `save_cache` is modelled: nothing is
  written.
- Unicode NFKD folding is the parameter `nfkd`. Only the ASCII filter and
  ASCII lower-casing after it are modelled.
- Modification times are integers. In Python they are floats.
- The copy, link and shortcut step is left out: `copy_or_link_selected_songs`
  in both scripts, `shutil.copy2`, `os.symlink`, the COM shortcut and the
  last-write-wins collisions on basenames. It is pure I/O.
- create_playlist.py is not part of this model. It resolves Windows
  shortcuts and writes a file.
- The module-level driver of the command-line script is left out.
- The desktop script's unused `list_mp3_files` and
  `count_folders_and_files` are left out. They are never called on the
  pipeline's path.
- The distributions of `random.sample` and `random.shuffle` are not
  modelled. A random source is a parameter, and the contracts hold for
  every source.
- Random.Shuffle: states only that the result is a permutation, which is
  all the callers rely on. Uniformity is not stated.
- Mp3Selector.SelectSongsBasedOnArtistCount: computes `int(N * 0.1)` as
  the integer division `N / 10`. The two are equal for any realistic song
  count, and floating-point rounding is not modelled.
- Mp3SelectorGui.GuiRecord: lower-cases the artist over ASCII letters
  only, while Python's `str.lower` also folds other letters ("ÉLAN" becomes
  "élan"). This field is only stored in the cache; grouping reads the raw
  tag artist, so the selection does not depend on it.
- Mp3SelectorGui.ProcessMetadata: states the records as a multiset,
  because `as_completed` yields futures in completion order and that
  order is not modelled.

## Findings

| source | as written | input that shows it | evidently intended | confidence | as-written member | corrected member |
|---|---|---|---|---|---|---|
| mp3_selector_gui.py:262-264 | after a stop during phase 2, the loop breaks with the records gathered so far, and `list_mp3_files_with_cache` saves them as the folder's cache (mp3_selector_gui.py:320-322) | a folder `m` with `a.mp3` and `b.mp3`, cache on, stop after one record: a one-song cache is saved, and the next automatic run on the unchanged folder accepts it and never sees `b.mp3` | a stop ends the run with the "Process interrupted by user." exception (mp3_selector_gui.py:436-437), so a stopped scan is a failed run and should not leave a partial list where the next run accepts it as the folder's cache | not executed | `Mp3SelectorGui.PartialCacheAccepted` | `Mp3SelectorGui.CorrectedSaveIsComplete` |
