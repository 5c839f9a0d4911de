# Drive versioning and bucket migration, modelled in Dafny

This project models the core of `elmpp/utils`, a PHP utility library:

- **The Drive versioner** (`Partridge\Utils\Google\DriveVersioner\DriveVersioner`).
  It keeps every version of a local file as a revision of a single Drive file named `versioned`.
  That file sits in a folder named after the file's namespace, inside a root folder fixed at construction.
  `version` finds or creates the folder and the container, then either does nothing (already versioned), updates the container (a new revision), or creates it (the first version).
  `list` returns a namespace's revisions. `updateAllRevisions` asks Drive to keep each of them forever.
  Query results go through a per-instance cache keyed `"<operation>-<namespace>"`.
- **The earlier versioner** (`src/Google/DriveVersioner.php`). It only finds or creates the namespace folder.
- **The bucket migration** (`GCEToDriveBackup`). It selects objects of a Cloud Storage bucket and picks the ones to back up. It reports both counts. Unless in dry-run, it downloads and versions each backupable object, then deletes every selected object.
- **The array helpers** of `src/ArrayUtil.php` and `src/ArrayUtilCopy.php`.

Files:

- `php.dfy` (module `Php`) models PHP values, ordered arrays with unique keys, truthiness, `basename` and integer-to-string.
- `array_util.dfy` and `array_util_copy.dfy` model the array helpers.
- `drive_store.dfy` (module `DriveStore`) models the Drive service as a class.
  - Its contents are one value: the files by id, each file's revision history, and the next fresh id.
  - Its failures come from a fixed map from operation to exception.
  - It keeps a ghost log of every call made to it.
- `drive_versioner.dfy`, `drive_versioner_early.dfy` and `gce_to_drive_backup.dfy` model the two versioners and the migration as classes whose methods change fields, the cache, the store and ghost logs.

A PHP exception that leaves a method is the `Err` of a `Result`. `die` is the failure `Died`. A PHP `TypeError` is a failure of its own.

## Model

| member | source | states |
|---|---|---|
| Php.Get | src/ArrayUtil.php:29-32 | `$a[$k]` finds a value exactly when the key is present, and the value is the one stored under it |
| Php.Assign | src/ArrayUtilCopy.php:28 | `$a[$k] = $v` makes k hold v, leaves every other key's lookup alone, adds at most one entry and keeps every existing position's key |
| Php.AssignAppendsOrKeepsLength | src/ArrayUtilCopy.php:28 | a fresh key is appended at the end; a present key is overwritten in place, so the length stays |
| Php.Unset | src/ArrayUtil.php:33 | `unset($a[$k])` removes exactly the entries under k; every other lookup is unchanged |
| Php.UnsetSubsequence | src/ArrayUtil.php:33 | unsetting keeps the remaining entries in their order |
| Php.FilterKeys | src/ArrayUtil.php:18 | `array_diff_key` keeps exactly the entries whose key passes the test |
| Php.FilterKeysGet | src/ArrayUtil.php:18 | a kept key's lookup is unchanged and a dropped key is absent |
| Php.FilterKeysUnique | src/ArrayUtil.php:18 | filtering keeps keys unique |
| Php.FilterKeysSubsequence | src/ArrayUtil.php:18 | filtering keeps the order |
| Php.Reindex | src/ArrayUtilCopy.php:211 | `array_values` gives the same values under keys 0, 1, 2, ... |
| Php.Basename | src/Google/DriveVersioner/DriveVersioner.php:119 | `basename` contains no '/' and is no longer than the path |
| Php.BasenameIsSuffix | src/Google/DriveVersioner/DriveVersioner.php:119 | the base name is the tail of the path |
| Php.ConcatString | src/Google/GCEToDriveBackup.php:109 | the `.` operator converts every scalar, null and array; an object converts through its `__toString` and fails exactly when it has none |
| Php.StringParam | src/Google/GCEToDriveBackup.php:119 | an option passed to `version`'s `String $ns` fails exactly for null, an array and an object without `__toString`; otherwise it is the text `.` would make |
| Php.BasenameOfJoin | src/Google/GCEToDriveBackup.php:109-115 | the base name of `dir/name` is name, so the regex sees the object's own base name |
| Php.NatToString | src/Google/GCEToDriveBackup.php:98-99 | the printed count is a non-empty string of decimal digits with no leading zero |
| Php.NatToStringRoundTrip | src/Google/GCEToDriveBackup.php:98-99 | the printed count reads back as the same number; PHP takes that text as the same integer key up to PHP_INT_MAX and as a string key past it |
| ArrayUtil.FlippedKeys | src/ArrayUtil.php:18 | the keys `array_flip($array2)` makes are exactly the integer and string values of array2, as keys |
| ArrayUtil.DiffKeyByValues | src/ArrayUtil.php:15-19 | the result holds exactly the entries of array1 whose key is not among array2's values, in array1's order, with unique keys |
| ArrayUtil.DiffKeyByValuesLookup | src/ArrayUtil.php:15-19 | a key spelled by a value of array2 is absent; any other key keeps its value |
| ArrayUtil.Pluck | src/ArrayUtil.php:27-35 | an unset or null key gives the default and the array unchanged; a set key gives its value and removes exactly that key, keeping the rest in order; the copy's `arrayPluck` (src/ArrayUtilCopy.php:233-241) is the same code and shares this member |
| ArrayUtilCopy.SetIfUnset | src/ArrayUtilCopy.php:23-29 | a key with a non-null value is left alone; otherwise the key ends up holding the value, in place or appended, with every other key unchanged and keys kept unique |
| ArrayUtilCopy.GetRecursive | src/ArrayUtilCopy.php:36-44 | the map fails exactly when reading some element throws; otherwise it has the input's length and keys |
| ArrayUtilCopy.GetRecursiveLookup | src/ArrayUtilCopy.php:36-44 | each key maps to `$item[$key]` of the original element, and only original keys are present |
| ArrayUtilCopy.StringOffset | src/ArrayUtilCopy.php:39 | a string element gives the character at an integer offset, a negative offset counting from the end, and "" past the end |
| ArrayUtilCopy.GetRecursiveOfString | src/ArrayUtilCopy.php:36-44 | `arrayGetRecursive(['abc'], 0)` gives `['a']` |
| ArrayUtilCopy.SearchRecursive | src/ArrayUtilCopy.php:51-58 | the first element whose `[$key]` is identical to expected is returned; an element whose read throws, before any match, makes the call throw; null when every read works and none matches |
| ArrayUtilCopy.Cast | src/ArrayUtilCopy.php:443-452 | null gives the default, a non-array-like value is wrapped as `[item]`, an array-like value comes back unchanged |
| ArrayUtilCopy.CastIdempotent | src/ArrayUtilCopy.php:443-461 | casting a non-null value gives something array-like, and casting that again changes nothing |
| ArrayUtilCopy.DeduplicateByProperty | src/ArrayUtilCopy.php:201-212 | the caller's array keeps the first element of each property value, and the result is those elements reindexed from 0 |
| ArrayUtilCopy.DeduplicateStep | src/ArrayUtilCopy.php:204-210 | one loop turn unsets the element exactly when its property value was seen before |
| ArrayUtilCopy.KeepFirstIn | src/ArrayUtilCopy.php:201-212 | every kept element is an element of the input |
| ArrayUtilCopy.KeepFirstOrdered | src/ArrayUtilCopy.php:201-212 | the kept elements are a subsequence of the input: unsetting keeps the survivors in their order |
| ArrayUtilCopy.KeepFirstDistinct | src/ArrayUtilCopy.php:201-212 | no two kept elements share a property value |
| ArrayUtilCopy.KeepFirstExactly | src/ArrayUtilCopy.php:201-212 | an element is kept exactly when no earlier element has its property value |
| ArrayUtilCopy.PartitionByDistinctProperty | src/ArrayUtilCopy.php:126-140 | the loop computes the bucket fold over the elements in order |
| ArrayUtilCopy.PartitionSucceeds | src/ArrayUtilCopy.php:130-137 | the partition fails exactly when some truthy property value is an illegal array offset |
| ArrayUtilCopy.PartitionFailureStays | src/ArrayUtilCopy.php:130-137 | once an element cannot be placed, the whole partition fails |
| ArrayUtilCopy.PartitionBuckets | src/ArrayUtilCopy.php:126-140 | each key holds exactly the elements whose truthy property value names it, in order and reindexed; a key no element names is absent |
| ArrayUtilCopy.DiffKey | src/ArrayUtilCopy.php:284 | `array_diff_key` is non-empty exactly when some key of the first array is missing from the second |
| ArrayUtilCopy.DiffKeyRecursive | src/ArrayUtilCopy.php:273-289 | the loop computes the difference fold over array2 |
| ArrayUtilCopy.DiffFailureStays | src/ArrayUtilCopy.php:278-287 | once an entry cannot be compared, the whole difference fails |
| ArrayUtilCopy.DiffKeyRecursiveMembers | src/ArrayUtilCopy.php:273-289 | the difference exists exactly when every shared key holds arrays on both sides; it is the entries of array2 whose key array1 lacks or whose value has a key array1's value lacks, in array2's order |
| ArrayUtilCopy.Padded | src/ArrayUtilCopy.php:301-307 | the padded values are as long as the longer of the two arrays |
| ArrayUtilCopy.CombineKeys | src/ArrayUtilCopy.php:299-323 | the combination stops when array1's keys run out (the corrected loop) |
| ArrayUtilCopy.CombineKeysPositional | src/ArrayUtilCopy.php:299-323 | an empty array2 gives an empty result; with array2 non-empty and free of `false`, the result has exactly array1's keys in order, each with array2's value at the same position, padded with array2's last value |
| ArrayUtilCopy.ZipAssignAppends | src/ArrayUtilCopy.php:314-320 | the `while` loop from any position over distinct fresh keys appends one entry per remaining key, in order |
| ArrayUtilCopy.CombineKeysAsWrittenExtraKey | src/ArrayUtilCopy.php:312-319 | with one key and two values, the loop as written adds an entry under "" |
| DriveStore.CreatedFresh | src/Google/DriveVersioner/DriveVersioner.php:400-403 | a create takes a fresh id, keeps the store well formed and leaves every existing file and history alone |
| DriveStore.CreatedMatching | src/Google/DriveVersioner/DriveVersioner.php:268-293 | after a create, a search finds what it found before plus the new file when the new file matches |
| DriveStore.CreatedIsOnlyMatch | src/Google/DriveVersioner/DriveVersioner.php:106-110 | a folder created because the search found none is the only match of the next search |
| DriveStore.UpdatedAppends | src/Google/DriveVersioner/DriveVersioner.php:324-328 | an update appends exactly one revision, carrying the original file name and keep-forever flag, and changes no other history |
| DriveStore.RevisionKeptChangesOne | src/Google/DriveVersioner/DriveVersioner.php:205-211 | a revision update changes only that revision's keep-forever flag |
| DriveStore.RevisionKeptMonotone | src/Google/DriveVersioner/DriveVersioner.php:193-195 | asking to keep a revision forever never un-keeps another, and keeps the one asked for |
| DriveStore.Store.ListFiles | src/Google/DriveVersioner/DriveVersioner.php:279-281 | a search logs one call and returns the matching files or the injected failure |
| DriveStore.Store.Create | src/Google/DriveVersioner/DriveVersioner.php:400-403 | a create logs one call and adds the file under a fresh id, or fails and changes nothing |
| DriveStore.Store.Update | src/Google/DriveVersioner/DriveVersioner.php:324-328 | an update logs one call and appends a revision, or fails and changes nothing |
| DriveStore.Store.ListRevisions | src/Google/DriveVersioner/DriveVersioner.php:229-234 | a listing logs one call and returns the file's history or the failure |
| DriveStore.Store.UpdateRevision | src/Google/DriveVersioner/DriveVersioner.php:205-211 | a revision update logs one call and sets the flag on that revision, or fails and changes nothing |
| DriveVersioner.Classify | src/Google/DriveVersioner/DriveVersioner.php:428-455 | a client exception is rethrown; a service exception with no errors returns normally; the three known reasons raise their message with the exception's code and the exception as previous; any other reason is `die` |
| DriveVersioner.KeyStringInjective | src/Google/DriveVersioner/DriveVersioner.php:153 | distinct (operation, namespace) pairs give distinct cache key strings (the keys at lines 223, 246 and 270 follow the same pattern) |
| DriveVersioner.MimeType | src/Google/DriveVersioner/DriveVersioner.php:457-471 | the detected type when detection gives a non-empty string, `application/octet-stream` otherwise; never empty |
| DriveVersioner.VersionedBody | src/Google/DriveVersioner/DriveVersioner.php:349-360 | the create body names the file `versioned`, puts it in the namespace folder, keeps the revision forever, records basename(file) and tags it with the discriminator and md5(ns . discriminator) |
| DriveVersioner.UpdateBody | src/Google/DriveVersioner/DriveVersioner.php:305-315 | the update body carries the same name, tags and original file name and has no parents |
| DriveVersioner.UpdateBodyIsVersionedBody | src/Google/DriveVersioner/DriveVersioner.php:305-315 | the update body is the create body without `parents` |
| DriveVersioner.Redacted | src/Google/DriveVersioner/DriveVersioner.php:473-478 | a truthy `data` entry is masked, a falsy one is dropped, every other entry is printed as it is |
| DriveVersioner.NamespaceDetail | src/Google/DriveVersioner/DriveVersioner.php:260 | the duplicate text ends with the name searched for |
| DriveVersioner.NamespaceDetailInjective | src/Google/DriveVersioner/DriveVersioner.php:260 | different namespaces give different duplicate texts |
| DriveVersioner.NamespaceDetailAsWritten | src/Google/DriveVersioner/DriveVersioner.php:287 | the directory duplicate text as written carries no namespace |
| DriveVersioner.NamespaceDetailAsWrittenLosesNamespace | src/Google/DriveVersioner/DriveVersioner.php:287 | two different namespaces get the same duplicate text as written, and different texts once corrected |
| DriveVersioner.KeepForeverCalls | src/Google/DriveVersioner/DriveVersioner.php:193-195 | one revision update per listed revision |
| DriveVersioner.KeepForeverCallsAt | src/Google/DriveVersioner/DriveVersioner.php:193-211 | the i-th call asks to keep the i-th listed revision forever |
| DriveVersioner.FirstKeepProblem | src/Google/DriveVersioner/DriveVersioner.php:193-195 | the first listed revision whose update fails on a given Drive: every earlier one succeeds, and it fails unless it is past the end |
| DriveVersioner.KeepMade | src/Google/DriveVersioner/DriveVersioner.php:193-195 | the loop makes at most one update per listed revision |
| DriveVersioner.KeepStep | src/Google/DriveVersioner/DriveVersioner.php:193-195 | an update fails on the Drive midway through the loop exactly as on the Drive at its start, a successful one moves the loop on by one kept revision, and the first failing position is where the loop stops |
| DriveVersioner.KeepRunEnds | src/Google/DriveVersioner/DriveVersioner.php:193-195 | the call log after the loop ends with exactly its updates |
| DriveVersioner.VersionedLookupFrame | src/Google/DriveVersioner/DriveVersioner.php:244-266 | the container lookup depends only on the namespace's container cache entry |
| DriveVersioner.Reads | src/Google/DriveVersioner/DriveVersioner.php:113-134 | the calls before a run's one upload are a prefix of its calls |
| DriveVersioner.ReadsAfter | src/Google/DriveVersioner/DriveVersioner.php:106-113 | calls with no upload at their end stay in front of the uploads of the calls made after them |
| DriveVersioner.ContainerEnds | src/Google/DriveVersioner/DriveVersioner.php:119-130 | the container step lists the history first and creates no file; when a revision already carries the file's name that listing is the only call and the Drive is unchanged; otherwise the calls are the listing then one update, and a successful update appends one revision to the container's history; the container comes back on both success paths |
| DriveVersioner.ContainerFoundEnds | src/Google/DriveVersioner/DriveVersioner.php:113-134 | after the container search, a container found or one created keeps the promises of `VersionIn`: only searches and listings before the one write, the right write for each path, and the Drive afterwards |
| DriveVersioner.InEndedAfter | src/Google/DriveVersioner/DriveVersioner.php:113-117 | searches made before the container step leave its promises in place |
| DriveVersioner.VersionedLookupNamed | src/Google/DriveVersioner/DriveVersioner.php:244-266 | a container the lookup finds, in the cache or by the search, is named `versioned` |
| DriveVersioner.DirectoryLookupMatches | src/Google/DriveVersioner/DriveVersioner.php:268-293 | a folder the lookup finds, in the cache or by the search, is the namespace's folder under the root |
| DriveVersioner.DirectoryCacheShaped | src/Google/DriveVersioner/DriveVersioner.php:290-291 | caching what the folder search found keeps the cache invariant |
| DriveVersioner.VersionInEnds | src/Google/DriveVersioner/DriveVersioner.php:113-134 | the run after the folder is known, whatever the container search returned, keeps the promises of `VersionIn` |
| DriveVersioner.InVersionEnded | src/Google/DriveVersioner/DriveVersioner.php:106-134 | harmless calls made first, on a Drive whose only change is the folder's creation, carry the promises of `VersionIn` over to those of `version` |
| DriveVersioner.DirectoryKnownEnds | src/Google/DriveVersioner/DriveVersioner.php:106-134 | a readable file's run once the folder is known keeps the promises of `version` |
| DriveVersioner.DirectoryCallsEnd | src/Google/DriveVersioner/DriveVersioner.php:106-111 | the folder step makes only searches and at most the one folder create, uploads nothing and leaves every history alone |
| DriveVersioner.DirectoryEnds | src/Google/DriveVersioner/DriveVersioner.php:106-111 | the folder step keeps the cache invariant, and the folder it returns is the namespace's folder under the root |
| DriveVersioner.VersionEnds | src/Google/DriveVersioner/DriveVersioner.php:95-137 | every outcome of `version` keeps the promises stated on `Versioner.Version`, on every path |
| DriveVersioner.ListCalls | src/Google/DriveVersioner/DriveVersioner.php:147-173 | the calls of `list` are only searches and listings, and a listing obtained without the cache ends with its one history listing |
| DriveVersioner.ListInFrame | src/Google/DriveVersioner/DriveVersioner.php:162-171 | what `list` does once the folder is known depends only on the namespace's container cache entry |
| DriveVersioner.ListInCache | src/Google/DriveVersioner/DriveVersioner.php:162-172 | the cache `list` leaves once the folder is known holds the namespace's listing exactly when `ListedIn` succeeds, and then that listing; on a failure the listing entry is untouched |
| DriveVersioner.ListCache | src/Google/DriveVersioner/DriveVersioner.php:153-172 | the cache `list(ns)` leaves holds the listing `Listed` returns exactly when it succeeds; on a failure the listing entry is untouched |
| DriveVersioner.ListInCacheFrame | src/Google/DriveVersioner/DriveVersioner.php:162-172 | past the folder, `list` changes no entry of another namespace and not the namespace's folder entry |
| DriveVersioner.ListCacheFrame | src/Google/DriveVersioner/DriveVersioner.php:153-172 | `list(ns)` changes no cache entry of another namespace |
| DriveVersioner.ListFromFolder | src/Google/DriveVersioner/DriveVersioner.php:157-172 | with no cached listing and a folder found, the result, calls and cache of `list` are the folder search followed by those of its second half, from the cache the search leaves |
| DriveVersioner.ListWithoutFolder | src/Google/DriveVersioner/DriveVersioner.php:157-160 | with no cached listing and no folder, `list` fails with the folder query's failure or DRIVE_CANNOT_LIST_VERSIONED_FILE, after the folder search alone, and caches only what that search found |
| DriveVersioner.KeptThrough | src/Google/DriveVersioner/DriveVersioner.php:193-195 | keep-forever updates change no file and neither add nor remove any revision |
| DriveVersioner.KeptThroughRevision | src/Google/DriveVersioner/DriveVersioner.php:193-211 | after the updates, each revision some update names is the old one kept forever, and every other revision is as it was |
| DriveVersioner.KeptThroughNext | src/Google/DriveVersioner/DriveVersioner.php:193-195 | one more successful update extends the updates' Drive by that one kept revision |
| DriveVersioner.KeptThroughLoop | src/Google/DriveVersioner/DriveVersioner.php:193-195 | up to the first failing update, every revision updated so far is kept forever and the files and history lengths are unchanged |
| DriveVersioner.KeepAdvance | src/Google/DriveVersioner/DriveVersioner.php:193-195 | the next update fails exactly as it would have at the start, and either extends the Drive and the call log by one kept revision or is the first failure |
| DriveVersioner.KeepAllKept | src/Google/DriveVersioner/DriveVersioner.php:193-195 | with no update failing, every listed revision ends kept forever |
| DriveVersioner.Versioner.VersionFound | src/Google/DriveVersioner/DriveVersioner.php:113-134 | after the container search, the result, path, Drive, cache and calls are those of `ContainerFound`: the container found is dealt with as `VersionContainer`, a missing one is created |
| DriveVersioner.Versioner.ListIn | src/Google/DriveVersioner/DriveVersioner.php:162-172 | once the folder is known: the result is `ListedIn` (the container's history, or a failure), the calls are exactly `ListInCalls`, the new cache is exactly `ListInCache` (the container search cached, the null a swallowed history exception leaves, the listing), and a listing found is cached next to its container |
| DriveVersioner.CacheListing | src/Google/DriveVersioner/DriveVersioner.php:171 | caching a listing keeps the cache invariant once the namespace's container is cached |
| DriveVersioner.Versioner.constructor | src/Google/DriveVersioner/DriveVersioner.php:62-77 | an empty cache, verbosity 2, version mode |
| DriveVersioner.Versioner.SetVerbosity | src/Google/DriveVersioner/DriveVersioner.php:487-490 | sets the verbosity |
| DriveVersioner.Versioner.Output | src/Google/DriveVersioner/DriveVersioner.php:480-485 | a line tagged with mode, namespace and discriminator is written only when the verbosity reaches the message's level |
| DriveVersioner.Versioner.Say | src/Google/DriveVersioner/DriveVersioner.php:480-485 | a message with its detail is written at level 2 |
| DriveVersioner.Versioner.OutputServiceParams | src/Google/DriveVersioner/DriveVersioner.php:473-478 | prints the redacted fields at level 3 |
| DriveVersioner.Versioner.CheckCache | src/Google/DriveVersioner/DriveVersioner.php:415-421 | returns the cached value, logging a hit only for a non-null one; a null entry is a miss |
| DriveVersioner.Versioner.FilterCommonExceptions | src/Google/DriveVersioner/DriveVersioner.php:428-455 | raises what `Classify` gives and logs the message of a known reason |
| DriveVersioner.Versioner.QueryForDirectory | src/Google/DriveVersioner/DriveVersioner.php:268-293 | a cached folder is returned with no store call; otherwise one search under the root, a duplicate fails (with the corrected text naming the namespace) and is not cached, and the result (a file or null) is cached; the cache and calls are `SearchCache` and `SearchCalls` at the folder key |
| DriveVersioner.Versioner.QueryForVersioned | src/Google/DriveVersioner/DriveVersioner.php:244-266 | the same for the container inside a folder, cached per namespace |
| DriveVersioner.Versioner.QueryForVersionList | src/Google/DriveVersioner/DriveVersioner.php:221-242 | always one listing call, never cached; a swallowed exception ends in a TypeError and leaves a null entry |
| DriveVersioner.Versioner.CreateDirectory | src/Google/DriveVersioner/DriveVersioner.php:387-413 | one create of a folder named after the namespace under the root; a 404 is "root not found", other failures pass through the classifier |
| DriveVersioner.Versioner.CreateVersioned | src/Google/DriveVersioner/DriveVersioner.php:348-378 | one create with the versioned body and the file's contents; its result is returned |
| DriveVersioner.Versioner.CreateUpdate | src/Google/DriveVersioner/DriveVersioner.php:303-334 | one update of the container with the update body and the file's contents |
| DriveVersioner.Versioner.Version | src/Google/DriveVersioner/DriveVersioner.php:95-137 | the result, the path taken, the Drive, the cache and the whole call log afterwards are those of `VersionOutcome` on the cache and Drive at the call, so every path, failed ones included, states its new state; and, as `VersionEnds` proves of that outcome: an unreadable file fails with its path before any call; otherwise a failed or duplicate folder search fails, a missing folder is created (a failed create is DirectoryFailure), and the rest is as `VersionIn`; an already-versioned file makes no write and returns the container, a new file is one update of the container, which is returned, and a missing container is one create whose result is returned |
| DriveVersioner.Versioner.NamespaceDirectory | src/Google/DriveVersioner/DriveVersioner.php:106-111 | the folder, the Drive, the cache and the calls afterwards are those of `DirectoryOutcome`: the folder the search finds, or, when it finds none, one folder created under the root; a failed create fails with DirectoryFailure and leaves the Drive unchanged; only harmless calls; the namespace's container cache entry is untouched |
| DriveVersioner.Versioner.VersionIn | src/Google/DriveVersioner/DriveVersioner.php:113-134 | the result, path, Drive, cache and call log afterwards are those of `VersionInOutcome`: a failed or duplicate container search fails with the search as the only call; a container found is dealt with as `VersionContainer`; none found is one create of the versioned body, whose failure is DRIVE_CANNOT_CREATE_VERSIONED_FILE with the Drive unchanged and whose success adds the new file and returns it |
| DriveVersioner.Versioner.VersionContainer | src/Google/DriveVersioner/DriveVersioner.php:119-130 | the result, path, Drive, cache and call log afterwards are those of `ContainerOutcome`: a failed listing fails after that one call, leaving the Drive as it was and a null history entry for a swallowed exception; a revision with basename(file) as original name means no write and the container back; otherwise exactly one update, whose failure is DRIVE_CANNOT_UPDATE_VERSIONED_FILE with the Drive unchanged and whose success appends one revision and returns the container |
| DriveVersioner.Versioner.List | src/Google/DriveVersioner/DriveVersioner.php:147-173 | a cached listing is returned with no store call; otherwise the result is the folder, container and history lookups on the Drive at the call (a missing folder or container is DRIVE_CANNOT_LIST_VERSIONED_FILE), the call log grows by exactly `ListCalls`, the new cache is exactly `ListCache` (the folder and container searches cached, the null of a swallowed history exception, the listing on success), and a listing found is cached next to its container; the namespace, an empty discriminator and the revisions mode are set |
| DriveVersioner.Versioner.ListUncached | src/Google/DriveVersioner/DriveVersioner.php:157-172 | past a listing cache miss: the result is `Listed`, the calls are exactly `ListCalls` and the new cache exactly `ListCache` of the state at the call |
| DriveVersioner.Versioner.UpdateAllRevisions | src/Google/DriveVersioner/DriveVersioner.php:182-196 | the namespace, an empty discriminator and the revisions mode are set, and the cache afterwards is exactly `ListCache` of the state at the call; a failed listing fails with no update and the Drive unchanged; an empty one succeeds with none; otherwise the listed revisions are asked, in order, to be kept forever up to and including the first update that fails: with no failure all are kept and the call succeeds, else it fails as that update; the call log grows by exactly the listing's calls then those updates, and the Drive afterwards is `KeptThrough` of the revisions before the first failure |
| DriveVersioner.Versioner.KeepAllForever | src/Google/DriveVersioner/DriveVersioner.php:193-195 | the call log grows by exactly the updates up to and including the first that fails on the Drive at the call; the Drive afterwards is `KeptThrough` of the revisions before that failure; with none failing every revision ends kept forever and the result is success, else the result is that update's failure |
| DriveVersioner.Versioner.UpdateRevision | src/Google/DriveVersioner/DriveVersioner.php:198-215 | one revision update with keepForever true; when Drive accepts it the revision comes back kept; when Drive fails it the Drive is unchanged and the failure is what the classifier raises, or a TypeError for a swallowed exception |
| EarlyDriveVersioner.EarlySearch | src/Google/DriveVersioner.php:59 | the search is for folders named ns under the root, trashed ones included |
| EarlyDriveVersioner.EarlySearchFindsMore | src/Google/DriveVersioner.php:59 | the early search finds every folder the current one finds |
| EarlyDriveVersioner.NewRuntimeException | src/Google/DriveVersioner.php:83 | an integer code makes a RuntimeException; an object in its place is a TypeError |
| EarlyDriveVersioner.CreateFailure | src/Google/DriveVersioner.php:83 | the corrected failure is a RuntimeException whose message is DRIVE_CANNOT_CREATE_DIR followed by the Google message, with the exception as previous |
| EarlyDriveVersioner.CreateFailureAsWrittenIsTypeError | src/Google/DriveVersioner.php:83 | as written, every create failure is the same TypeError; corrected, different messages stay apart |
| EarlyDriveVersioner.EarlyVersioner.Version | src/Google/DriveVersioner.php:45-54 | an unreadable file fails before any call; more than one folder fails as a duplicate naming ns; one folder is returned with no create; none means one create with MIME_DIR, name ns and parent root, whose result is returned |
| EarlyDriveVersioner.EarlyVersioner.QueryForDirectory | src/Google/DriveVersioner.php:56-66 | one search; a duplicate fails naming ns; otherwise the one folder or null |
| EarlyDriveVersioner.EarlyVersioner.CreateDirectory | src/Google/DriveVersioner.php:75-85 | one create of the folder; a failure is the corrected RuntimeException |
| EarlyDriveVersioner.SecondVersionFindsFolder | src/Google/DriveVersioner.php:49-53 | after the create, the next search finds exactly the created folder |
| GceToDriveBackup.MergeIntoGet | src/Google/GCEToDriveBackup.php:70-74 | in `array_merge`, a string key of the caller overrides the default and every other key keeps its default |
| GceToDriveBackup.MergedOptions | src/Google/GCEToDriveBackup.php:70-74 | each option is the caller's when given and the default otherwise |
| GceToDriveBackup.DefaultsApply | src/Google/GCEToDriveBackup.php:70-74 | a caller that leaves an option out gets dry-run false, tmp-dir `/tmp` and the default regex |
| GceToDriveBackup.Backup.New | src/Google/GCEToDriveBackup.php:67-78 | construction fails with "The NS must be specified" exactly when the caller's `ns` is not set; otherwise it stores the merged options |
| GceToDriveBackup.Backup.SetSelectFilter | src/Google/GCEToDriveBackup.php:80-83 | sets the select filter |
| GceToDriveBackup.Backup.SetBackupFilter | src/Google/GCEToDriveBackup.php:84-87 | sets the backup filter |
| GceToDriveBackup.FirstIndex | src/Google/GCEToDriveBackup.php:73 | the first position at or after a start that holds a character, or none |
| GceToDriveBackup.FirstIndexAt | src/Google/GCEToDriveBackup.php:73 | a position holding the character with none before it is the one found |
| GceToDriveBackup.DefaultCapture | src/Google/GCEToDriveBackup.php:73 | a capture of the default regex is non-empty and has no '.' |
| GceToDriveBackup.DefaultCaptureOf | src/Google/GCEToDriveBackup.php:73 | a name `prefix_capture.tail`, with no '_' in prefix, no '.' in a non-empty capture and a tail `.+$` accepts, gives capture |
| GceToDriveBackup.DefaultCaptureIff | src/Google/GCEToDriveBackup.php:73 | the scanner returns a capture exactly when the name has the shape the regex describes with that group 1 |
| GceToDriveBackup.DefaultCaptureExample | src/Google/GCEToDriveBackup.php:73 | `versionableFile_2017-01-01.txt` gives `2017-01-01` |
| GceToDriveBackup.DefaultCaptureNeedsUnderscore | src/Google/GCEToDriveBackup.php:73 | a name without '_' gives no capture |
| GceToDriveBackup.BackupOne | src/Google/GCEToDriveBackup.php:108-125 | one turn downloads to tmp-dir/basename(filename); a missing or falsy capture raises the RuntimeException naming the base name and regex, with no version call; otherwise version(path, ns, capture) is called |
| GceToDriveBackup.DeleteRun | src/Google/GCEToDriveBackup.php:129-134 | one delete per file, in order |
| GceToDriveBackup.BackupRunNoDeletes | src/Google/GCEToDriveBackup.php:107-127 | the backup deletes nothing |
| GceToDriveBackup.BackupRunComplete | src/Google/GCEToDriveBackup.php:107-127 | a backup that goes through downloads and then versions each file, in order, as `version(tmp-dir/basename(filename), ns, capture)` |
| GceToDriveBackup.BackupRunStops | src/Google/GCEToDriveBackup.php:123-126 | a backup that throws stops at the file that threw, after every earlier file went through |
| GceToDriveBackup.BackupRunPrefixFails | src/Google/GCEToDriveBackup.php:123-126 | once a turn throws, no later file is touched |
| GceToDriveBackup.Reports | src/Google/GCEToDriveBackup.php:98-99 | the two count lines, written only when an output is set |
| GceToDriveBackup.Backup.Run | src/Google/GCEToDriveBackup.php:93-105 | a missing filter fails; both counts are reported even in dry-run; dry-run makes no download, version or delete; otherwise the backup runs and, only when every backup went through, each selected object is deleted once, in order |
| GceToDriveBackup.Backup.Output | src/Traits/OutputtableTrait.php:29-35 | a line is written only when an output is set |
| GceToDriveBackup.Backup.DoBackup | src/Google/GCEToDriveBackup.php:107-127 | the loop makes exactly the calls of the backup run and ends with its failure |
| GceToDriveBackup.Backup.BackupStep | src/Google/GCEToDriveBackup.php:108-120 | the downloader and backuper for one file make exactly the calls of one turn |
| GceToDriveBackup.Backup.DoDelete | src/Google/GCEToDriveBackup.php:129-134 | the loop deletes each file once, in order |

## Left out

- The Google Drive and Cloud Storage SDKs are not modelled. The Drive service is the `Store` class. Its failures come from a fixed map from operation to exception, so one operation fails the same way every time in a run. Bucket calls are ghost events.
- `downloadToFile`, `file_get_contents`, `is_readable`, `finfo` MIME sniffing and `md5` are functions handed to the model. Downloads and deletes never fail in the model.
- `die` and `var_dump` for an unknown reason code are the failure `Died`. Process termination and the printed dump are not modelled.
- The console output is a ghost list of lines, not text. `Util::consolePrint` formatting is not modelled.
- GceToDriveBackup.Backup.Output: `setOutput` of the output trait is a flag given at construction.
- Only the default discriminator regex is implemented. Any other regex is a function handed to the backup. `filepathParser`, `PARSE_REGEX` and `arrayPluckByPattern` are not modelled.
- GceToDriveBackup.DefaultCapture: a name is a sequence of characters. PCRE without the `u` flag works on bytes. The two agree for ASCII names.
- The select and backup filters are total functions on sequences of objects. A filter that throws, or returns keys other than 0..n-1, is not modelled.
- GceToDriveBackup.Backup.New: models the constructor as a factory that returns a failure. PHP merges the options before the check, which is unobservable because the object is discarded.
- GceToDriveBackup.MergedOptions: integer keys of the caller are renumbered and appended, as `array_merge` does. The lookup lemmas speak only of string keys.
- Drive file ids are natural numbers from a counter, not opaque strings. The root id is printed as its decimal form.
- Drive query text and its escaping are a structured `Query`. Pagination of `listFiles` is not modelled: one call returns every match.
- DriveVersioner.VersionListLookup: pagination of `revisions->listRevisions` is not modelled: one call returns the whole history. The source asks for `fields => 'kind,revisions'`, which drops `nextPageToken`, so it sees only Drive's first page of revisions.
- Google error items are reduced to their reason strings.
- DriveVersioner.Text: `DriveVersioner.php` (line 12) imports `Partridge\Utils\Google\DriveVersioner\DriveVersionerMessages`, which is not part of this model. The texts are taken from the top-level `Partridge\Utils\Google\DriveVersionerMessages` (`src/Google/DriveVersionerMessages.php`), on the assumption that the two classes agree. That class has no `FIELD_NOT_WRITEABLE`, so that message is a tag without text.
- Cache keys are a datatype. `KeyStringInjective` shows this agrees with the source's strings.
- DriveVersioner.Versioner.QueryForDirectory: raises the corrected duplicate-folder text `Namespace: <ns>`. The source's text carries no namespace (see Findings).
- DriveVersioner.Versioner.CheckCache: Symfony's `ArrayCache` is not part of this model. It rejects a key containing one of `{}()/\@:` with an InvalidArgumentException. So `version`, `list` and `updateAllRevisions` throw at the first cache read for a namespace such as `db/backups`. The model accepts every namespace.
- PHP loose comparison (`in_array` without strict mode) is modelled as structural equality of values. Floats and resources are not modelled.
- PHP integers: the `Int` value is an unbounded integer, where PHP's is 64 bits. No modelled operation does arithmetic on a PHP integer, so this matters only for values PHP cannot hold. Numeric string keys follow the 64-bit bound: past PHP_INT_MAX they stay string keys.
- Where PHP 7 and 8 differ (illegal offsets, `array_diff_key` on non-arrays), the model follows PHP 8.
- `basename` of a path ending in '/' returns "" in the model. PHP strips trailing slashes first. Object file names have no trailing slash.
- EarlyDriveVersioner.EarlyVersioner.CreateDirectory: the source sets `parents` to the bare root id. The model sends it as a one-element list, as the current versioner does.
- `NamespaceDirectory`, `VersionIn`, `VersionFound`, `VersionContainer`, `ListUncached`, `ListIn`, `KeepAllForever`, `BackupStep` and `PadValues` are consecutive parts of `version`, `list`, `updateAllRevisions`, `doBackup` and `arrayCombineKeys`, split out so that each proof stays small.
- Concurrent namespace creation (two runs racing between search and create) is not modelled.
- The `DriveVersioner` a backup calls is a function from `(path, ns, discriminator)` to an optional failure. The backup log records each `version` call as an event. The versioner's own effects are modelled by `DriveVersioner.Versioner.Version`.
- Property access (`ObjectUtil` and Symfony PropertyAccess) is a function parameter.
- ArrayUtilCopy.Index: an object counts as answering `$item[$key]` through `offsetGet` only when it is array-like (ArrayAccess, Traversable and Countable together). An object with ArrayAccess alone is read as one that throws. `offsetGet` is a function handed to the model.
- ArrayUtilCopy.Index: a string offset that is not an integer key throws in the model. PHP 8 reads a leading-numeric string such as "1x" as its number, with a warning.
- These `ArrayUtilCopy` helpers wrap PropertyAccess, SPL recursive iterators or arbitrary sort callables, and are not part of this model:
  - `arraySearchAccessorRecursive`, `arrayGetByPath`, `arraySetMergeByProperty` and `arraySortByProperty`;
  - `arrayDeepSearchByKey`, `arrayDeepSearchByKeyAccessor`, `arrayIntersectKeyRecursive` and `getKeyByAggregateValue`.
- The credential and client factories, `src/Util.php` and the Robo tasks are not part of this model.

## Findings

| source | as written | input that shows it | evidently intended | confidence | as-written member | corrected member |
|---|---|---|---|---|---|---|
| src/ArrayUtilCopy.php:312-319 | `key($array1)` is null, never false, once array1 runs out, so the loop stops only on array2's values; extra values land under the key "" | array1 `['a' => 1]`, array2 `[10, 20]` gives `['a' => 10, '' => 20]` | stop when array1's keys run out: `['a' => 10]` | not executed | ArrayUtilCopy.CombineKeysAsWrittenExtraKey | ArrayUtilCopy.CombineKeysPositional |
| src/Google/DriveVersioner/DriveVersioner.php:287 | the duplicate-folder message interpolates an undefined `$ns`, so it reads "Namespace: " whatever the namespace | namespaces "photos" and "invoices" give the same text | name the namespace, as `$this->ns` | not executed | DriveVersioner.NamespaceDetailAsWrittenLosesNamespace | DriveVersioner.NamespaceDetailInjective |
| src/Google/DriveVersioner.php:83 | `new \RuntimeException($msg, $e)` passes the exception where the integer code goes, which raises a TypeError | any failing folder create | a RuntimeException with the message, code 0 and `$e` as previous | not executed | EarlyDriveVersioner.CreateFailureAsWrittenIsTypeError | EarlyDriveVersioner.CreateFailure |
