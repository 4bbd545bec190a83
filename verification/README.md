# Favus, modelled in Dafny

Favus uploads large files to Amazon S3 with the multipart-upload API. It has
three parts:

- **A Go command-line tool.**
  - It splits a file into numbered chunk files.
  - It uploads each chunk as one part, recording every completed part's ETag in a status file. An interrupted upload can be resumed from that file.
  - It completes the upload with the parts in ascending order.
  - It can skip files it has already uploaded. The duplicate check is a Cuckoo filter and a Count-Min sketch kept in Redis, plus a HEAD request to S3.
  - It reports progress as events to a local agent.
- **A small Python relay.** It forwards each WebSocket text to every other connected client.
- **A Next.js web UI.** It holds mock upload and batch stores, an upload queue page and two WebSocket providers that route events to subscribers.

Each source file of the core is one module (files are named after the module,
in lower case):

- **Imperative code becomes classes with invariants and loops.** This covers the chunk directory and reader, the progress meter, the status tracker, the reporters, the relay, the batch simulation, the upload page and the providers.
- **Pure decision code becomes functions with lemmas.** This covers the configuration parsing, the validator, the bucket-error classification, the duplicate decision chain, URL derivation and icon lookup.
- **Outside services are inputs.** S3, Redis, the file system, the local agent, standard input, the environment, clocks and `Math.random` all answer through parameters:
  - a value that says how a call ends, or
  - an object that holds the answers it will give, in order.
- **The drivers return their protocol.** `UploadFile` and `ResumeUpload` return the sequence of protocol steps they take. Their contracts state the order of those steps and their failure exits.

Two helper modules hold shared definitions:

- `Wrappers` holds Option and Result.
- `Text` holds the string functions of the Go and JavaScript libraries the code calls.

## Model

| member | source | states |
|---|---|---|
| BucketCheck.CheckS3BucketAccess | internal/uploader/bucket_check.go:16-30 | no error exactly when HeadBucket succeeds; error text containing "403" gives "access is denied"; otherwise "NotFound" or "404" gives "does not exist"; anything else is wrapped as unexpected |
| BucketCheck.DenialTakesPrecedence | internal/uploader/bucket_check.go:20-25 | an error text starting with 403 is reported as denied even when it also mentions NotFound or 404 |
| BucketCheck.MessagesDistinct | internal/uploader/bucket_check.go:21-26 | the three outcomes are told apart by their messages |
| Chunker.NewFileChunker | internal/chunker/chunker.go:47-64 | a failed stat is an error; otherwise the chunker keeps the path and file size, and a chunk size that is not positive is replaced by the default, so the chunk size is always positive |
| Chunker.ChunkNameInjective | internal/chunker/chunker.go:114 | different chunk numbers give different chunk file names |
| Chunker.ChunkNamesNext | internal/chunker/chunker.go:114-133 | writing chunk k adds exactly the one new name `<base>_chunk<k>` to the names of chunks 0..k-1 |
| Chunker.ChunkNameHasCleanupPrefix | internal/chunker/chunker.go:360 | every chunk file name starts with the prefix CleanupChunks removes, `<base>_chunk` |
| Chunker.FirstStop | internal/chunker/chunker.go:109-146 | the loop stops at the first read that returns an error (EOF or another), and every earlier read succeeded |
| Chunker.OffsetIsFilePosition | internal/chunker/chunker.go:128-130 | each chunk's offset (index-1)*chunkSize is the sum of the sizes before it, because every chunk but the last is full |
| Chunker.SumSizesBound | internal/chunker/chunker.go:111-134 | every chunk holds between 1 and chunkSize bytes, so the total is between the chunk count and chunkCount*chunkSize |
| Chunker.AppendChunk | internal/chunker/chunker.go:127-133 | appending chunk k+1 with offset k*chunkSize keeps the list well formed (indices 1..k+1, offsets, sizes 1..chunkSize) and adds its size to the total |
| Chunker.RollbackLeaves | internal/chunker/chunker.go:192-200 | removing the names written in this run, except those whose removal fails, leaves the files that were there before minus the removed names, plus the names whose removal failed and any partial chunk file |
| Chunker.RemovedOneMore | internal/chunker/chunker.go:192-200 | one more rollback step removes the next name exactly when it is there and its removal is not refused, and the files left are then those of the longer prefix of names |
| Chunker.ChunkFileNameRoundTrip | internal/chunker/chunker.go:316 | the name GetChunkReader opens for chunk j+1 is the name splitFileToChunks wrote for chunk number j |
| Chunker.ChunkDir.WriteChunk | internal/chunker/chunker.go:156-170 | a successful write adds the chunk file; a failed write may or may not leave a partial file, as the outcome says |
| Chunker.ChunkDir.Remove | internal/chunker/chunker.go:196-200 | os.Remove succeeds exactly when the file exists and the removal is not refused; a success removes just that file, and a failure, which is only logged, leaves every file |
| Chunker.ChunkDir.RollbackChunks | internal/chunker/chunker.go:186-211 | with chunkCount > 0, exactly the files `<base>_chunk0..chunkCount-1` whose removal is not refused are removed, and the directory stays; with 0 the chunk directory and its files are gone when RemoveAll succeeds, and otherwise it stays with at most its earlier files |
| Chunker.ChunkDir.WriteChunks | internal/chunker/chunker.go:108-146 | the loop stops at the first read error, carrying that error, or at the first failed write (and then says whether it left a partial file); the chunks written are those the reads so far make, every one of their writes succeeded, and the directory gains exactly their files (plus the partial one) |
| Chunker.ChunkDir.ReadStep | internal/chunker/chunker.go:112-134 | one pass either appends the chunk of read i (or nothing for an empty read) with its file written, or stops at a failed write of a non-empty read |
| Chunker.ChunkDir.WriteNextChunk | internal/chunker/chunker.go:112-133 | one read of n > 0 bytes either writes `<base>_chunk<k>` and appends chunk k+1 at offset k*chunkSize with size n, or fails the write and appends nothing |
| Chunker.ChunkDir.SplitFileToChunks | internal/chunker/chunker.go:95-148 | the error is ErrorFileOpen exactly when the open fails, and then nothing is touched; success exactly when every needed write succeeds and the reads end at EOF, returning the chunks the reads make, well formed, with sizes adding up to the file's bytes and exactly their files added; ErrorChunkWrite exactly when a needed write fails; ErrorFileRead exactly when the writes succeed and a read fails; an error returns no chunks and rolls back the chunk files written, except those whose removal fails, which stay with any partial chunk file |
| Chunker.ChunkDir.Chunks | internal/chunker/chunker.go:70-88 | the result is the chunks of a successful split and empty otherwise: well formed, with sizes summing to the bytes read before EOF and one chunk file each |
| Chunker.BuiltPrefix | internal/chunker/chunker.go:111-134 | the chunks of fewer reads are a prefix of the chunks of more |
| Chunker.WriteFailureStops | internal/chunker/chunker.go:117-123 | a write that fails before the reads stop is one of the writes the whole split needs, so the split cannot succeed |
| Chunker.StopClassified | internal/chunker/chunker.go:111-145 | the loop stops at EOF exactly when the split succeeds, at a failed write exactly when a needed write fails, and at a failed read otherwise; at EOF the chunks are all of the split's chunks |
| Chunker.BuiltCoversReads | internal/chunker/chunker.go:111-134 | the chunks the reads make are well formed and their sizes add up to every byte read |
| Chunker.SplitChunksCoverFile | internal/chunker/chunker.go:70-88 | the chunks of a successful split are well formed and hold every byte read before EOF |
| Chunker.ChunkDir.GetChunkReader | internal/chunker/chunker.go:314-334 | opens `<base>_chunk<index-1>`; fails exactly when that file is missing or cannot be opened; otherwise a reader at offset 0 with the chunk's size and nothing read |
| Chunker.ChunkDir.CleanupChunks | internal/chunker/chunker.go:341-395 | an unreadable directory is an error and changes nothing; otherwise the files with prefix `<base>_chunk` are removed in name order until the first removal that fails, which leaves exactly the files from that one on; the call succeeds exactly when no matching removal fails, and the directory itself is removed only when the re-listing succeeds, finds nothing and RemoveAll succeeds |
| Chunker.ChunkDir.RemoveMatching | internal/chunker/chunker.go:354-370 | the matching files are removed smallest name first; on success all of them are gone, and on a failure exactly those before the first failing name are gone |
| Chunker.ChunkDir.RemoveAll | internal/chunker/chunker.go:390-395 | a successful RemoveAll leaves the directory and every file in it gone; a failing one keeps the directory with at most its earlier files |
| Chunker.LeastName | internal/chunker/chunker.go:348 | a non-empty set of names has one that sorts before every other, as os.ReadDir lists them first |
| Chunker.NameLessTotal | internal/chunker/chunker.go:348 | any two different names are ordered one way or the other |
| Chunker.NameLessTransitive | internal/chunker/chunker.go:348 | the name order is transitive |
| Chunker.NameLessAsymmetric | internal/chunker/chunker.go:348 | no two names sort before each other |
| Chunker.NameLessIrreflexive | internal/chunker/chunker.go:348 | no name sorts before itself |
| Chunker.Before | internal/chunker/chunker.go:356-365 | the names removed before a failing one are exactly those that sort before it |
| Chunker.FirstFailureUnique | internal/chunker/chunker.go:356-365 | there is only one first failing name |
| Chunker.RemovedBefore | internal/chunker/chunker.go:356-365 | when the names visited are exactly those before the first failure, they are the names Before that failure |
| Chunker.Matching | internal/chunker/chunker.go:356-360 | the files the cleanup selects are exactly those with the prefix |
| Chunker.ChunkReader.constructor | internal/chunker/chunker.go:326-331 | a new reader has offset 0, the chunk's size and nothing read |
| Chunker.ChunkReader.Read | internal/chunker/chunker.go:257-270 | at or past the size: 0 bytes and EOF, read unchanged; otherwise read grows by the bytes returned and never passes size |
| Chunker.ChunkReader.Seek | internal/chunker/chunker.go:274-301 | fails exactly when the target from SeekStart/SeekCurrent/SeekEnd is outside [0, size] or the file seek fails, returning 0 with read unchanged; otherwise read becomes the target and is returned |
| Chunker.SeekTarget | internal/chunker/chunker.go:275-284 | the target is the offset itself, the current position plus offset, or size plus offset; an unknown whence keeps the current position |
| Duplicate.FrequencyCases | internal/duplicate/checker.go:127-143 | the CMS.QUERY reply gives a frequency unless its type is unexpected: an int64 or int reply is the frequency, an array whose first element is an int64 gives that element, any other array gives 0 |
| Duplicate.Frequency | internal/duplicate/checker.go:127-143 | the reply gives a frequency exactly when its type is not the unexpected kind |
| Duplicate.S3Key | internal/duplicate/checker.go:207-211 | the object key probed is the configured key when one is set, and the file path's base name otherwise |
| Duplicate.CheckS3Exists | internal/duplicate/checker.go:213-224 | the HEAD probe never reports an error: the object exists exactly when HEAD on the bucket and that key succeeds |
| Duplicate.FailOpen | internal/duplicate/checker.go:102-142 | CheckDuplicate returns an error exactly when hashing, the Cuckoo filter lookup, the sketch query or the reading of its reply fails, and every such error comes with the decision to upload |
| Duplicate.CheckDuplicate | internal/duplicate/checker.go:100-169 | every error comes with the decision to upload; a hashing failure is an upload with an error; a hash the filter lacks is "new file" with no error |
| Duplicate.NewFile | internal/duplicate/checker.go:115-119 | a hash missing from the Cuckoo filter is uploaded as "new file", whatever the sketch and S3 would say |
| Duplicate.SkipExactly | internal/duplicate/checker.go:100-169 | a file is skipped exactly when its hash is in the filter and counted more than 10 times, or in the filter, counted at most 10 times and present in S3; S3 is asked only in the second case |
| Duplicate.FrequentIgnoresS3 | internal/duplicate/checker.go:147-151 | a hash counted more than 10 times is skipped with "file uploaded N times already" and S3 is never consulted |
| Duplicate.NoS3CheckFailure | internal/duplicate/checker.go:155-160 | because the HEAD probe turns every error into "absent", the "s3 check failed" branch is never taken |
| Duplicate.InitializeTolerance | internal/duplicate/checker.go:65-96 | setup succeeds exactly when CF.RESERVE succeeds or reports an existing key or item and CMS.INITBYDIM succeeds or reports an existing key; CF.RESERVE file_hashes 1000000 is sent first, and CMS.INITBYDIM only when the filter step succeeded |
| Duplicate.InitializeRedisStructures | internal/duplicate/checker.go:65-96 | CF.RESERVE file_hashes 1000000 is always sent first, at most one more command follows, and a successful setup sends CF.RESERVE then CMS.INITBYDIM upload_frequency 1000 10 |
| Duplicate.ItemExistsOnlyForFilter | internal/duplicate/checker.go:72-86 | "ERR item exists" is tolerated from CF.RESERVE but is an error from CMS.INITBYDIM |
| Duplicate.RedisURL | internal/duplicate/checker.go:26-29 | the REDIS_URL environment value is used when set, and the default URL otherwise |
| Duplicate.NewDuplicateCheckerSucceeds | internal/duplicate/checker.go:25-62 | the checker is built exactly when the URL parses, the ping, the S3 client and the structure setup all succeed, and it then talks to the chosen URL |
| Duplicate.NewDuplicateChecker | internal/duplicate/checker.go:25-62 | a built checker talks to the URL chosen from REDIS_URL; a URL that does not parse, a failed ping or a failed S3 client means no checker |
| Duplicate.RecordUploadOrder | internal/duplicate/checker.go:172-192 | recording succeeds exactly when hashing, CF.ADD and CMS.INCRBY by 1 all succeed; the commands sent are a prefix of CF.ADD then CMS.INCRBY, stopping at the first failure, and none when hashing fails |
| Duplicate.RecordUpload | internal/duplicate/checker.go:172-192 | a successful recording has sent exactly CF.ADD of the hash and then CMS.INCRBY of it by 1; a hashing failure is an error with nothing sent |
| Duplicate.GetStatsEntries | internal/duplicate/checker.go:228-248 | GetStats never fails; it has a "cuckoo_filter" entry exactly when CF.INFO answers and a "count_min_sketch" entry exactly when CMS.INFO answers, holding those answers |
| Duplicate.GetStats | internal/duplicate/checker.go:228-248 | no error is ever returned, and the only entries are "cuckoo_filter" and "count_min_sketch" |
| FileIcon.FolderUnlisted | internal/web/ui/lib/utils/getFileIcon.ts:3-27 | the table gives the folder icon exactly to the extensions it does not list |
| FileIcon.GetFileIconAsWritten | internal/web/ui/lib/utils/getFileIcon.ts:1-28 | the lookup yields an inherited object property exactly when the lower-cased extension names one, and otherwise the table's icon for that extension |
| FileIcon.AsWrittenInheritedIcon | internal/web/ui/lib/utils/getFileIcon.ts:27 | "notes.constructor" yields the inherited `constructor` function instead of an icon |
| FileIcon.GetFileIcon | internal/web/ui/lib/utils/getFileIcon.ts:1-28 | the icon of a file name agrees with the code's lookup on every name whose extension is not an inherited property name |
| FileIcon.DottedName | internal/web/ui/lib/utils/getFileIcon.ts:2 | for a name with a dot, the icon is the table's icon for the lower-cased text after the last dot |
| FileIcon.UndottedName | internal/web/ui/lib/utils/getFileIcon.ts:2 | a name without a dot is looked up whole, lower-cased |
| FileIcon.TrailingDot | internal/web/ui/lib/utils/getFileIcon.ts:27 | a name ending in a dot gets the folder icon |
| FileIcon.CaseInsensitive | internal/web/ui/lib/utils/getFileIcon.ts:2 | lower-casing the file name first does not change its icon |
| FileIcon.AfterLastAppend | internal/web/ui/lib/utils/getFileIcon.ts:2 | the last piece of split('.') is the text after the last separator |
| FileIcon.AfterLastNone | internal/web/ui/lib/utils/getFileIcon.ts:2 | without a separator the last piece is the whole text |
| FileIcon.ToLowerAppend | internal/web/ui/lib/utils/getFileIcon.ts:2 | lower-casing distributes over concatenation |
| FileIcon.AfterLastLower | internal/web/ui/lib/utils/getFileIcon.ts:2 | splitting then lower-casing gives the same last piece as lower-casing then splitting |
| Progress.OnRead | internal/uploader/progress.go:20-31 | a read of n bytes moves the position by n; it reports at most once, a positive amount, exactly the bytes past what was reported, after which the reported count equals the position |
| Progress.OnSeekAsWritten | internal/uploader/progress.go:39-43 | a seek sets the position and lowers the reported count to it when it went back |
| Progress.OnSeek | internal/uploader/progress.go:34-45 | a seek sets the position and keeps the reported count as a high-water mark |
| Progress.SumAppend | internal/uploader/progress.go:27-28 | the total reported grows by the one new delta |
| Progress.RunCountsEachByteOnce | internal/uploader/progress.go:40-43 | with the corrected seek, the deltas over any run of reads and seeks add up to the furthest position read, so a retried byte is reported once |
| Progress.RunAsWrittenNeverUnderCounts | internal/uploader/progress.go:20-45 | with the code's seek, the reports never fall short of the furthest position read and the reported count never passes the position |
| Progress.ReadsOnlyReportEveryByte | internal/uploader/progress.go:20-31 | without seeks, the deltas add up to exactly the bytes read |
| Progress.SeekAsWrittenRecountsRetriedBytes | internal/uploader/progress.go:40-43 | reading 10 bytes, rewinding to 0 and reading them again reports 20 bytes as written and 10 with the corrected seek |
| Progress.ReadSeekCloserProgress.constructor | internal/uploader/progress.go:16-18 | a new wrapper is at position 0 with nothing reported |
| Progress.ReadSeekCloserProgress.Read | internal/uploader/progress.go:20-32 | Read returns the wrapped reader's count and error, keeps earlier deltas, and moves position, reported count and deltas as OnRead says |
| Progress.ReadSeekCloserProgress.Seek | internal/uploader/progress.go:34-45 | a failed seek returns 0 with the error and changes nothing; otherwise it returns the new position and updates the meter as OnSeekAsWritten says; no delta is reported |
| S3.Insert | internal/uploader/uploader.go:261-263 | inserting one part into an ascending list gives an ascending list holding the same parts plus the new one |
| S3.InsertBehindHead | internal/uploader/uploader.go:261-263 | inserting behind the head of an ascending list, when the part does not go first, keeps the list ascending and the same parts |
| S3.SortByPartNumber | internal/uploader/uploader.go:261-263 | the sort gives the same parts, as a permutation, in ascending order of part number |
| S3.SortAscendingIsIdentity | internal/uploader/uploader.go:261-263 | sorting a list already in ascending order changes nothing |
| S3.InsertAtEnd | internal/uploader/uploader.go:261-263 | a part numbered no lower than every part of an ascending list goes at its end |
| S3.AscendingDistinctIsStrict | internal/uploader/uploader.go:261-263 | an ascending list without a repeated number is strictly ascending |
| S3.SortKeepsNumbers | internal/uploader/uploader.go:261-263 | sorting keeps the set of part numbers, and a list with distinct numbers comes out strictly ascending |
| S3.DistinctPermutation | internal/uploader/uploader.go:261-263 | a permutation of a list with distinct part numbers has distinct part numbers |
| S3.OnlyOnce | internal/uploader/uploader.go:261-263 | in a list with distinct part numbers each entry occurs once |
| S3.TwiceInR | internal/uploader/uploader.go:261-263 | two positions holding the same entry make it occur twice |
| S3.NumbersAppend | internal/uploader/uploader.go:248-251 | appending a part adds its number to the list's numbers |
| S3.NumbersConcat | internal/uploader/uploader.go:248-251 | the numbers of two lists one after the other are the union of their numbers |
| S3.EntriesAppend | internal/uploader/uploader.go:248-251 | appending the entry of a part not yet recorded gives the entries of the map extended with it |
| S3.EntriesConcat | internal/uploader/resume.go:226-229 | the entries of two maps with no part in common, one list after the other, are the entries of their union |
| S3.SortedEntries | internal/uploader/uploader.go:261-274 | sorting the entries of a part map gives exactly that map's entries, each part once, in strictly ascending order: the list CompleteMultipartUpload is sent |
| Tracker.EncodeParts | internal/uploader/tracker.go:17 | the marshalled completedParts holds, under the decimal spelling of every part number, that part's ETag |
| Tracker.Encode | internal/uploader/tracker.go:11-21 | the marshalled status is an object, and has an "originalFilePath" member exactly when the original path is not empty |
| Tracker.StringField | internal/uploader/tracker.go:69-72 | a string member decodes to its string; a missing or null member gives ""; any other value is an error |
| Tracker.IntField | internal/uploader/tracker.go:69-72 | an integer member that decodes fits in 64 bits |
| Tracker.DecodeParts | internal/uploader/tracker.go:69-72 | the completedParts object fails to decode exactly when a member name is not a 64-bit integer, a value is neither a string nor null, or two names spell the same number with different strings; null stores ""; decoded keys fit in 64 bits |
| Tracker.NullPartDecodes | internal/uploader/tracker.go:69-72 | {"1": null} decodes to part 1 holding "" |
| Tracker.ConflictingSpellings | internal/uploader/tracker.go:69-72 | {"1": "a", "01": "b"} is the conflict the model does not decide |
| Tracker.DecodedEntries | internal/uploader/tracker.go:69-72 | a decoded map holds one entry per member, under the number its name spells, with its string, and nothing else |
| Tracker.PartsField | internal/uploader/tracker.go:69-72 | decoded part numbers fit in 64 bits |
| Tracker.Decode | internal/uploader/tracker.go:69-72 | a decoded status holds only 64-bit numbers, and a JSON value other than an object or null is an error |
| Tracker.EncodedKey | internal/uploader/tracker.go:17 | every member name of the marshalled map is the canonical spelling of one of the part numbers, holding its ETag |
| Tracker.DecodeCanonicalParts | internal/uploader/tracker.go:69-72 | an object named by exactly the canonical spellings of a part map's numbers decodes back to that map |
| Tracker.CanonicalNotBad | internal/uploader/tracker.go:69-72 | canonical spellings and string values never make a bad member |
| Tracker.CanonicalNotTwice | internal/uploader/tracker.go:69-72 | canonical spellings never name the same number twice |
| Tracker.CanonicalSameMap | internal/uploader/tracker.go:69-72 | the map decoded from canonical spellings is the original map |
| Tracker.DecodeEncodeParts | internal/uploader/tracker.go:52-75 | unmarshalling the marshalled completedParts gives back the map, for 64-bit part numbers |
| Tracker.StringMember | internal/uploader/tracker.go:69-72 | a string member decodes to that string |
| Tracker.EncodedStrings | internal/uploader/tracker.go:12-14 | filePath, originalFilePath (omitted when empty) and uploadId read back as written |
| Tracker.EncodedMoreStrings | internal/uploader/tracker.go:15-16 | bucket and key read back as written |
| Tracker.EncodedNumbers | internal/uploader/tracker.go:18-19 | totalParts and partSizeBytes read back as written |
| Tracker.EncodedParts | internal/uploader/tracker.go:17 | the completedParts member of the marshalled status is the marshalled map |
| Tracker.PartsFieldOfObject | internal/uploader/tracker.go:69-72 | an object completedParts member decodes as its members say |
| Tracker.DecodeEncode | internal/uploader/tracker.go:52-75 | LoadStatus reads back exactly the record SaveStatus wrote, for every record of 64-bit numbers |
| Tracker.DecodeOfFields | internal/uploader/tracker.go:69-72 | an object whose members decode to a record's fields decodes to that record |
| Tracker.StatusFiles.constructor | internal/uploader/tracker.go:60-65 | the status files start as given |
| Tracker.StatusFiles.Remove | internal/uploader/uploader.go:287-289 | os.Remove of a status file (here and at internal/uploader/resume.go:261-263) succeeds exactly when the file exists and the removal is not refused; a success removes just that file, and a failure leaves every file |
| Tracker.UploadStatus.constructor | internal/uploader/tracker.go:24-34 | a new status has the given fields, no original path and no completed part |
| Tracker.UploadStatus.FromRecord | internal/uploader/tracker.go:69-74 | a status rebuilt from a decoded record holds exactly that record |
| Tracker.UploadStatus.AddCompletedPart | internal/uploader/tracker.go:37-41 | afterwards the part is completed with the given ETag, and no other part and no other field changes |
| Tracker.UploadStatus.IsPartCompleted | internal/uploader/tracker.go:44-49 | a part is completed exactly when the status holds an ETag for it |
| Tracker.UploadStatus.SaveStatus | internal/uploader/tracker.go:52-61 | the save succeeds exactly when the write does, and then the file at the path holds the marshalled status; a failed write changes no file |
| Tracker.LoadStatus | internal/uploader/tracker.go:64-75 | loading fails exactly when the file is missing or does not unmarshal; otherwise it gives a new status holding the decoded record |
| Resume.NextMarker | internal/uploader/resume.go:300-315 | only a truncated page is followed: by its NextPartNumberMarker when present and non-empty, otherwise by the number of its last part; a truncated page with neither, or any other page, stops the listing |
| Resume.MergePage | internal/uploader/resume.go:293-298 | after a page the result holds the earlier part numbers and exactly the page's part numbers that came with an ETag |
| Resume.MergePageEntries | internal/uploader/resume.go:293-298 | an entry the page does not list with an ETag keeps its value; every other entry holds an ETag the page lists for that number |
| Resume.MergePageLast | internal/uploader/resume.go:293-298 | a part is listed with an ETag exactly when it has a last such listing, and the merged map holds that last ETag |
| Resume.MergePageAppend | internal/uploader/resume.go:277-316 | merging two pages one after the other is merging their parts in one run |
| Resume.FetchMerges | internal/uploader/resume.go:277-316 | a listing that succeeds is its starting map with the parts of every page it read merged in order |
| Resume.RequestsFrom | internal/uploader/resume.go:277-291 | a listing sends at least one request and at most one more than the answers; the first asks for 1000 parts after the given marker |
| Resume.RequestsFollowMarkers | internal/uploader/resume.go:277-316 | every request asks for 1000 parts, and each request after the first follows a truncated page with that page's next marker |
| Resume.FetchedParts | internal/uploader/resume.go:270-318 | a listing that succeeds holds exactly the parts it started with and the parts its pages listed with an ETag; each listed part holds the last ETag listed for it, every other entry keeps its value, and every ETag it holds for a listed part is one S3 listed for that number |
| Resume.LaterPagesKeep | internal/uploader/resume.go:293-298 | an entry a later page overwrites is still one S3 listed for that number |
| Resume.FetchStep | internal/uploader/resume.go:277-316 | one page: the rest of the listing continues from the merged map and the page's next marker exactly when there is one, and otherwise stops with the merged map |
| Resume.EnterPage | internal/uploader/resume.go:293-298 | the loop over a page's parts produces the merged map MergePage gives |
| Resume.FetchServerCompletedParts | internal/uploader/resume.go:270-318 | the paginated listing loop returns the listing's result and sends exactly the requests of RequestsFrom, the first without a marker |
| Resume.ApplyServerParts | internal/uploader/resume.go:49-51 | after the sync loop the status holds the server's ETag for every part the server lists and keeps every other part it held |
| Resume.CollectCompleted | internal/uploader/resume.go:76-82 | the collected completed parts are exactly the status map's entries, one per part number |
| Resume.CollectStep | internal/uploader/resume.go:77-81 | appending one more status entry keeps the list's numbers distinct and its entries those of the map |
| Resume.Pending | internal/uploader/resume.go:137-141 | the chunks still to send are no more than the chunks |
| Resume.PendingMembers | internal/uploader/resume.go:137-141 | the chunks still to send are exactly the chunks whose part is not completed |
| Resume.AlreadyAndPending | internal/uploader/resume.go:100-141 | the bytes already done plus the bytes of the chunks still to send are the file's bytes |
| Resume.PendingAscending | internal/uploader/resume.go:137-141 | with chunks numbered 1, 2, ..., the chunks still to send come in strictly ascending part order |
| Resume.PendingPrefix | internal/uploader/resume.go:137-141 | the chunks still to send among the first i chunks are a prefix of all chunks still to send |
| Resume.AlreadyBytes | internal/uploader/resume.go:100-106 | the loop sums the sizes of exactly the chunks whose part the status holds |
| Resume.PreSizeOfChunk | internal/uploader/resume.go:116-119 | with chunks numbered 1, 2, ..., the size preCompleted gives a chunk's part is that chunk's size |
| Resume.PreCompleted | internal/uploader/resume.go:112-125 | preCompleted has one entry per completed part, in the same order, each holding the part, its size (0 when the number names no chunk) and its ETag |
| Resume.ResumeFailEnd | internal/uploader/resume.go:204-216 | a failing part reports the error and a failed session end and never aborts the upload |
| Resume.ResumeCompletionEnd | internal/uploader/resume.go:235-258 | the completion is followed by a successful session end when it succeeds and by an error and a failed session end when it fails, without an abort |
| Resume.PrependToResumeEnd | internal/uploader/resume.go:137-233 | parts that go through, in front of a resumed run, keep how it finishes |
| Resume.ResumeRunShape | internal/uploader/resume.go:137-258 | every resumed run reports a part done only after recording it, never creates or aborts an upload, and ends last with the session end, successful exactly when every chunk still to send goes through and the completion succeeds |
| Resume.UploadedEntries | internal/uploader/resume.go:219-229 | the completed-part entries appended during the run are the entries of the uploaded ETags |
| Resume.EveryChunkListed | internal/uploader/resume.go:226-229 | the parts the status held and the parts uploaded in the run are disjoint and together cover every chunk |
| Resume.UploadedKeys | internal/uploader/resume.go:226-229 | a part number has an uploaded ETag exactly when one of the first n chunks still to send has that number |
| Resume.SyncWithServer | internal/uploader/resume.go:42-56 | the sync sends the listing's requests; a failing listing ends with "list parts: ..." and changes nothing; otherwise the server's parts are merged over the status, and a failing save ends with "save status after sync: ..." while a successful one writes the merged status |
| Resume.RecordResumedPart | internal/uploader/resume.go:218-232 | the status records the part's ETag and nothing else in it changes, and the reporter stays valid |
| Resume.ResumePart | internal/uploader/resume.go:143-232 | one part succeeds exactly when its upload gives an ETag; then the status records it and the part's steps are reported; otherwise an error and a failed session end are reported and the status is unchanged |
| Resume.PendingStep | internal/uploader/resume.go:137-141 | a completed chunk leaves the chunks still to send as they were; any other is the next of them |
| Resume.NotYetUploaded | internal/uploader/resume.go:137-141 | the next chunk's part is not among the parts uploaded so far |
| Resume.SkipStep | internal/uploader/resume.go:138-141 | a chunk whose part the status holds is skipped and the loop's progress is kept |
| Resume.UploadNext | internal/uploader/resume.go:143-232 | an uploaded chunk is the next chunk still to send, and the status then holds the earlier parts and the uploaded ones; a failure is the first failing chunk still to send and ends the loop |
| Resume.ResumeLoop | internal/uploader/resume.go:137-233 | the loop fails exactly when some chunk still to send fails, at the first one; otherwise every chunk still to send is uploaded in order, with the steps and entries they give |
| Resume.CompleteResumed | internal/uploader/resume.go:235-258 | the completion is sent with the parts sorted by part number, and succeeds exactly when CompleteMultipartUpload does |
| Resume.ResumeParts | internal/uploader/resume.go:136-258 | the run after the session start is ResumeRun and succeeds exactly when every part and the completion do; when every part goes through, the completion lists the held and uploaded parts once each, in strictly ascending order, covering every chunk |
| Resume.StartResumed | internal/uploader/resume.go:75-134 | the session start carries the status's parts sorted strictly ascending, the bytes already done and the preCompleted list, and the reporter's byte count starts from the bytes already done |
| Resume.ResumeSession | internal/uploader/resume.go:109-265 | the session reports its start and then ResumeRun; it succeeds exactly when every chunk still to send and the completion succeed, and then the completion covers every chunk once in ascending order and the status file is gone unless os.Remove refuses it, which is only logged |
| Resume.Loaded | internal/uploader/resume.go:33-37 | a status record is there exactly when the status file exists and decodes |
| Resume.StartedResumeShape | internal/uploader/resume.go:126-258 | a resumed session starts with its start report and then finishes as ResumeEnd says |
| Resume.AfterSync | internal/uploader/resume.go:59-91 | a failing chunker fails with no steps; a chunk count other than the status's total parts fails with "mismatch in total parts: expected N, got M from status"; a failing stat panics on the nil file info; otherwise the session goes on as ResumeSession says |
| Resume.ResumeUpload | internal/uploader/resume.go:32-266 | a status file that does not load fails with nothing sent; otherwise the listing's requests are sent, its failure ends the resume, and the rest goes as AfterSync says on the merged status |
| Uploader.CheckBucket | internal/uploader/uploader.go:38-55 | no error exactly when HeadBucket succeeds; NotFound and NoSuchBucket give "bucket B does not exist", Forbidden and AccessDenied "bucket B exists but access is denied", and any other error is wrapped as "failed to check bucket B: ..." |
| Uploader.LoopSteps | internal/uploader/uploader.go:166-257 | n uploaded parts take five steps each |
| Uploader.CompletedParts | internal/uploader/uploader.go:248-251 | the completed-part list of n parts has one entry per part, in chunk order, with the chunk's number and its ETag |
| Uploader.RecordedBeforeDoneAppend | internal/uploader/uploader.go:243-257 | joining two step lists in which each part is reported done right after it was recorded keeps that so |
| Uploader.FirstFailure | internal/uploader/uploader.go:166-257 | the first failing part from n on lies between n and the number of chunks |
| Uploader.FirstFailureSpec | internal/uploader/uploader.go:166-240 | every part before the first failure goes through, and the part there, if any, does not |
| Uploader.FirstFailureAt | internal/uploader/uploader.go:166-240 | when parts n to i-1 go through and part i does not, the first failure is i |
| Uploader.LoopStepsShape | internal/uploader/uploader.go:166-257 | the steps of parts that go through stay inside the session and report each part done right after recording it |
| Uploader.LoopStepsAt | internal/uploader/uploader.go:166-257 | step k of the loop belongs to chunk k / 5, so each chunk's part is sent once, after every chunk before it |
| Uploader.FailStepsEnd | internal/uploader/uploader.go:227-240 | a failing part reports the error, aborts the upload and then reports the session as failed |
| Uploader.CompletionEnd | internal/uploader/uploader.go:261-284 | the completion is followed by a successful session end when it succeeds, and by an error, an abort and a failed session end when it fails |
| Uploader.CreatedRunOutcome | internal/uploader/uploader.go:142-284 | after the creation and the session start, a failed run ends with an error, the abort and a failed session end, and a successful one completes every part in ascending order and ends the session as successful |
| Uploader.FinishedOutcome | internal/uploader/uploader.go:157-292 | a run that got past the upload id check ends as CreatedOutcome says |
| Uploader.PrependPartSteps | internal/uploader/uploader.go:166-257 | parts that go through, in front of a run, keep how it finishes |
| Uploader.PartStepsShape | internal/uploader/uploader.go:177-257 | one part's steps stay inside the session and report the part done right after recording it |
| Uploader.RunShape | internal/uploader/uploader.go:166-284 | every run reports parts done only after recording them, aborts only second-last, ends the session only last, and succeeds, with the completed parts of all chunks, exactly when every part goes through and the completion succeeds |
| Uploader.CreatedRunShape | internal/uploader/uploader.go:142-284 | once the upload is created, the creation and the session start come first and the run then ends as RunShape says |
| Uploader.PrependStart | internal/uploader/uploader.go:142-155 | putting the creation and the session start in front keeps how a run ends |
| Uploader.CompletedPartsAscending | internal/uploader/uploader.go:248-251 | chunks numbered from 1 give completed parts in strictly ascending order |
| Uploader.ReportDeltas | internal/uploader/uploader.go:190-203 | the callback's reports keep the reporter valid and never move the clock back |
| Uploader.FailPart | internal/uploader/uploader.go:229-231 | the failure reports keep the reporter valid and never move the clock back |
| Uploader.RecordPart | internal/uploader/uploader.go:243-257 | the tracker afterwards holds the part's ETag over what it held before |
| Uploader.UploadPart | internal/uploader/uploader.go:166-257 | one part succeeds exactly when its chunk opens and UploadPart answers with an ETag; then its steps are the part's steps and the tracker records it; otherwise its steps are the failure's |
| Uploader.PartLoop | internal/uploader/uploader.go:166-258 | the loop succeeds exactly when every part goes through, and then its steps and completed parts are those of all chunks in order; otherwise it stops at the first failing part |
| Uploader.LoopStepsNext | internal/uploader/uploader.go:166-257 | one more part that goes through extends the steps and the completed parts by that part's |
| Uploader.RunFailingAt | internal/uploader/uploader.go:166-240 | when part i is the first to fail, the run is the steps of the parts before it and its failure |
| Uploader.Complete | internal/uploader/uploader.go:260-285 | the completion is sent the parts sorted by part number and succeeds exactly when CompleteMultipartUpload does |
| Uploader.UploadParts | internal/uploader/uploader.go:163-285 | the part loop and the completion give the steps Run describes, and succeed exactly when every part and the completion do |
| Uploader.FinishUpload | internal/uploader/uploader.go:157-292 | after the creation and the session start the steps are Run's; the upload succeeds exactly when every part and the completion do, and then the status file is gone unless os.Remove refuses it, which is only logged |
| Uploader.AfterCreate | internal/uploader/uploader.go:151-292 | a run panics exactly when the upload id is shorter than 8 characters; otherwise it runs as Run says, a failure ends with an error, an abort and a failed session end, and a success completes every chunk's part in strictly ascending order and removes the status file unless os.Remove refuses it |
| Uploader.ReportError | internal/uploader/uploader.go:125-148 | the error report keeps the reporter valid |
| Uploader.StartSession | internal/uploader/uploader.go:155 | the session start keeps the reporter valid |
| Uploader.StatusFilePath | internal/uploader/uploader.go:158 | the status file path is the temporary directory, "/", then a name that ends in ".upload_status" |
| Uploader.SplitIntoChunks | internal/uploader/uploader.go:122-128 | the chunks are those of the split (none when it fails), numbered 1, 2, ..., and each chunk's file is in the chunk directory |
| Uploader.UploadNonEmpty | internal/uploader/uploader.go:119-292 | a run that creates no upload fails and never reports a session end; one that does runs as AfterCreate says on the file's chunks |
| Uploader.UploadFile | internal/uploader/uploader.go:100-292 | a failing bucket check or stat fails with nothing reported, an empty file succeeds with nothing sent, and otherwise the upload runs as UploadNonEmpty says: parts in order, the first failure aborts, and success completes every part once in ascending order |
| WsReporter.StartPayloadMembers | internal/uploader/ws_reporter.go:74-85 | the session_start payload has bucket, key, uploadId, partMB and total plus the members of extra; a member of extra wins, the others carry the upload's values, the part size in MiB |
| WsReporter.ErrorPayload | internal/uploader/ws_reporter.go:201-209 | the error payload holds the message, and a part member exactly when a part number is given |
| WsReporter.Percent | internal/uploader/ws_reporter.go:107-110 | the percentage is 0 when the whole is not positive, and otherwise the part times 100 over the whole, between 0 and 100 for a part within the whole |
| WsReporter.Rate | internal/uploader/ws_reporter.go:102-106 | the byte rate is 0 when no time has elapsed, and otherwise the bytes over the elapsed seconds |
| WsReporter.TotalProgressBytes | internal/uploader/ws_reporter.go:111-116 | a total_progress event carries the byte count it was built from |
| WsReporter.ExtendsTransitive | internal/uploader/ws_reporter.go:63-72 | extending the delivered events twice with events of one type is extending them once |
| WsReporter.ProbeAppend | internal/uploader/ws_reporter.go:222-235 | a re-probe at least two seconds after the last check keeps the probes two seconds apart |
| WsReporter.Reporter.constructor | internal/uploader/ws_reporter.go:47-61 | a new reporter is enabled exactly when the one probe finds the agent, has uploaded nothing, tracks no part, has no session start, and is allowed to re-probe at once |
| WsReporter.Reporter.EnsureAgent | internal/uploader/ws_reporter.go:222-235 | an enabled reporter answers true without probing; a disabled one probes only when two seconds have passed since the last check, recording the check, and the probe's answer decides; otherwise it answers false |
| WsReporter.Reporter.HandleSendError | internal/uploader/ws_reporter.go:266-276 | a failed delivery disables the reporter and restarts the re-probe wait; no error changes nothing |
| WsReporter.Reporter.WriteEvent | internal/uploader/ws_reporter.go:247-264 | the event is delivered exactly when the agent answers 2xx; delivering session_start marks it sent; a failure disables the reporter |
| WsReporter.Reporter.EmitStart | internal/uploader/ws_reporter.go:237-245 | only a pending session start can be delivered, and it is marked sent exactly when it is; with the agent enabled it is delivered exactly when the agent accepts the post, and the agent stays enabled exactly then |
| WsReporter.Reporter.Send | internal/uploader/ws_reporter.go:63-72 | send adds only the pending session start and events of its own type with its payload, so no event precedes the session start once one is installed; with the agent enabled and no start pending the event is delivered exactly when the agent accepts it, and a pending start the agent accepts goes out first, followed by the event |
| WsReporter.Reporter.Start | internal/uploader/ws_reporter.go:74-88 | the session start payload is installed and unsent, and is delivered at once or not at all; byte counts and part trackers are kept; with the agent enabled, delivered grows by exactly the session start when the agent's first answer is 2xx, and by nothing otherwise |
| WsReporter.Reporter.ProgressAdd | internal/uploader/ws_reporter.go:90-119 | a non-positive delta changes nothing; a positive one is added to the uploaded bytes even while the agent is away; total_progress events carry the new count and are at least 250 ms apart; for an enabled agent and a positive delta, a due flush records its time and, with the start sent, delivers exactly the total_progress event with the new count and that time when the agent answers 2xx; a flush not due delivers nothing |
| WsReporter.Reporter.SendTotal | internal/uploader/ws_reporter.go:111-117 | the total_progress event sent carries the current byte count; with the start sent, exactly that event is delivered when the agent answers 2xx and nothing otherwise |
| WsReporter.Reporter.TotalProgressImmediate | internal/uploader/ws_reporter.go:121-143 | the uploaded bytes become the given count and any total_progress event sent carries it; with the agent enabled the flush time becomes the clock's, and with the start sent exactly the total_progress event with the given count is delivered when the agent answers 2xx |
| WsReporter.Reporter.PartStart | internal/uploader/ws_reporter.go:145-158 | the part gets a fresh tracker of its size with nothing sent, replacing any earlier one, and only part_start is sent; the tracker's start time is the clock reading, and with the start sent exactly the part_start event with part, size and offset is delivered when the agent answers 2xx |
| WsReporter.Reporter.PartProgressAdd | internal/uploader/ws_reporter.go:160-190 | a non-positive delta or an untracked part changes nothing; otherwise the delta is added to that part's sent bytes only, and only part_progress is sent; for a tracked part and a positive delta, a due flush records its time and, with the start sent, delivers exactly the part_progress event built from the updated tracker when the agent answers 2xx; a flush not due delivers nothing |
| WsReporter.Reporter.PartDone | internal/uploader/ws_reporter.go:192-199 | the part's tracker is dropped and only part_done is sent; with the start sent, exactly the part_done event with part, size and ETag is delivered when the agent answers 2xx |
| WsReporter.Reporter.Error | internal/uploader/ws_reporter.go:201-209 | only an error event is sent, and nothing else changes; with the start sent, exactly the error event is delivered when the agent answers 2xx |
| WsReporter.Reporter.Done | internal/uploader/ws_reporter.go:211-220 | only session_done is sent, carrying the outcome, the upload id, the uploaded and total byte counts and the elapsed time spelled as Duration.String; with the start sent exactly that event is delivered when the agent answers 2xx |
| WsReporter.Reporter.DoneEventMembers | internal/uploader/ws_reporter.go:211-220 | the session_done payload holds the outcome, the upload id, the byte count and the duration text |
| WsReporter.Reporter.FlushTotal | internal/uploader/ws_reporter.go:111-117 | a due flush records the clock reading and delivers the total_progress event exactly when the agent answers 2xx; a flush not due changes neither |
| WsReporter.Reporter.SendTotalNow | internal/uploader/ws_reporter.go:127-141 | the total_progress event sent carries the current count and the clock reading |
| WsReporter.DurationShape | internal/uploader/ws_reporter.go:216 | every spelled duration is at least two characters, ends in "s", and starts with "-" exactly when it is negative |
| WsReporter.NegativeDuration | internal/uploader/ws_reporter.go:216 | a negative duration is spelled as its magnitude with a leading "-" |
| WsReporter.WholeSeconds | internal/uploader/ws_reporter.go:216 | a whole number of seconds under a minute is that number followed by "s" |
| WsReporter.WholeMinutes | internal/uploader/ws_reporter.go:216 | a whole number of minutes under an hour is that number followed by "m0s" |
| WsReporter.MillisecondAndAHalf | internal/uploader/ws_reporter.go:216 | 1.5 ms is spelled "1.5ms": trailing zeros of the fraction are dropped |
| WsReporter.TwoMicroseconds | internal/uploader/ws_reporter.go:216 | 2 µs is spelled with the micro sign and no fraction |
| WsTracker.SavePayload | internal/uploader/ws_tracker.go:68-73 | the tracker_save payload has the members key, statusFile, partsDone and totalParts, with the counts given |
| WsTracker.WSTracker.constructor | internal/uploader/ws_tracker.go:27-38 | the tracker wraps the status, uses the upload id as run id, is enabled exactly when the one probe finds the agent, and has delivered nothing |
| WsTracker.WSTracker.EnsureAgent | internal/uploader/ws_tracker.go:85-98 | an enabled tracker answers true without probing; a disabled one answers false without probing while the last check is under two seconds old; otherwise it records the check and the probe decides |
| WsTracker.WSTracker.HandleSendError | internal/uploader/ws_tracker.go:100-110 | an error disables the tracker and restarts the re-probe wait; no error changes nothing |
| WsTracker.WSTracker.Post | internal/uploader/ws_tracker.go:50-56 | the event is delivered, or the tracker ends up disabled; delivered grows by exactly the event when the agent answers 2xx, and by nothing otherwise |
| WsTracker.WSTracker.AddCompletedPart | internal/uploader/ws_tracker.go:41-58 | the status records the part's ETag whatever happens to the event, and at most a tracker_part_done event with key, part and ETag is delivered; with the tracker enabled, exactly that event is delivered when the agent answers 2xx |
| WsTracker.WSTracker.SaveStatus | internal/uploader/ws_tracker.go:61-83 | the result is the write's: a failed write changes nothing and reports nothing; a successful one writes the marshalled status and counts as successful whatever the delivery; after a successful write with the tracker enabled, exactly the tracker_save event with key, status file, parts done and total parts is delivered when the agent answers 2xx |
| WsAgent.Marshal | internal/wsagent/agent.go:35-40 | the event is marshalled to an object with exactly the members type, runId, ts and payload, carrying the event's type, run id and payload |
| WsAgent.Delivered | internal/wsagent/agent.go:56-64 | a POST counts as delivered exactly when the agent answers with a status from 200 to 299 |
| WsAgent.Agent.constructor | internal/wsagent/agent.go:68 | the agent starts with the given answers and has received nothing |
| WsAgent.Agent.IsRunningAt | internal/wsagent/agent.go:71-88 | a probe answers the agent's next health answer, and false once the agent is down |
| WsAgent.Agent.SendEvent | internal/wsagent/agent.go:45-65 | the event is accepted exactly when the POST answers 2xx, and what the agent received grows by exactly `Posted` of the answers and the event |
| WsAgent.Posted | internal/wsagent/agent.go:56-65 | a post delivers exactly the event when the first answer is 2xx, and nothing otherwise |
| WsAgent.Clock.constructor | internal/uploader/ws_reporter.go:54 | the clock starts at the given time |
| WsAgent.Clock.Now | internal/uploader/ws_reporter.go:100 | a reading never goes back: it advances by the next tick, or stands still when none is left |
| Common.ConfigValidator.constructor | internal/cmd/favus/common.go:27-31 | a new validator wraps the config with no required fields |
| Common.ConfigValidator.RequireBucket | internal/cmd/favus/common.go:33-36 | appends "bucket" to the required fields and returns the same validator |
| Common.ConfigValidator.RequireKey | internal/cmd/favus/common.go:38-41 | appends "key" to the required fields and returns the same validator |
| Common.ConfigValidator.RequireRegion | internal/cmd/favus/common.go:43-46 | appends "region" to the required fields and returns the same validator |
| Common.ConfigValidator.IsValid | internal/cmd/favus/common.go:48-66 | valid exactly when every required bucket/key/region field is non-blank after trimming (other names are ignored); when invalid, some required field is blank |
| Common.ConfigValidator.PromptForMissingConfig | internal/cmd/favus/common.go:177-194 | only blank required fields are asked for, and they are filled with non-empty answers, so IsValid holds afterwards; fields that were filled or not required keep their values; the config and the input left over are those of the field-by-field walk Prompted, and a config already complete reads nothing |
| Common.ConfigValidator.FillField | internal/cmd/favus/common.go:180-191 | one case of the switch: a blank field gets the required answer and the lines after it are left, a filled one is left alone without reading input, a missing answer changes nothing; the other fields are untouched |
| Common.FilledStep | internal/cmd/favus/common.go:178-192 | filling field i keeps every earlier required field filled, so the loop ends with all of them filled |
| Common.UntouchedStep | internal/cmd/favus/common.go:178-192 | filling one blank required field keeps every field that was filled or not required at its first value |
| Common.BlankField | internal/cmd/favus/common.go:48-66 | one blank required field makes the validator invalid |
| Common.SetField | internal/cmd/favus/common.go:182-190 | assigning one field changes that field only |
| Common.PromptInput | internal/cmd/favus/common.go:68-73 | the next input line, trimmed |
| Common.PromptRequired | internal/cmd/favus/common.go:75-83 | skips blank lines and returns the first non-blank line, trimmed; the lines before it were blank |
| Common.PromptIntWithValidation | internal/cmd/favus/common.go:93-110 | the default is raised to the minimum; an empty answer gives that default; the result is always at least the minimum |
| Common.PromptIntAgreesWithParseIntWithMin | internal/cmd/favus/common.go:93-110 | the prompt's answer is parseIntWithMin of the line with the raised default |
| Common.PromptIntOfNumber | internal/cmd/favus/common.go:106-107 | a line holding the decimal form of v >= minValue gives v |
| Common.YesNoAnswerCases | internal/cmd/favus/common.go:118-129 | an empty answer gives the default, y/yes gives true, n/no gives false, and anything else is asked again |
| Common.YesNoCaseInsensitive | internal/cmd/favus/common.go:122 | the answer does not depend on letter case |
| Common.PromptYesNoDefault | internal/cmd/favus/common.go:112-131 | re-asks past every unrecognised line and returns the first recognised answer |
| Common.LowerTrimCommute | internal/cmd/favus/common.go:122 | lower-casing and trimming commute, so lower-casing the trimmed input is the same as trimming the lower-cased one |
| Common.LoadConfigWithOverrides | internal/cmd/favus/common.go:133-150 | no loaded config is the "config not loaded" error; otherwise each non-empty flag replaces its field with the trimmed flag and the other fields stay |
| Common.NoFlagsNoChange | internal/cmd/favus/common.go:139-149 | with all flags empty the loaded config comes back unchanged |
| Common.FormatSuccessMessage | internal/cmd/favus/common.go:173-175 | the message starts with "✅ <action> → s3://" and ends with the key |
| Common.SuccessMessageNamesKey | internal/cmd/favus/common.go:173-175 | two messages for the same action and bucket are equal only for the same key |
| Config.ReadLine | internal/config/config.go:47-65 | reader.ReadString: the next line, or "" once the input is exhausted |
| Config.ParseIntWithMin | internal/config/config.go:127-137 | blank input gives the default; a non-integer or a value below the minimum gives the minimum; any other value is the parsed one, so the result is at least the minimum whenever the default is |
| Config.ParseIntWithMinOfNumber | internal/config/config.go:132-136 | the decimal form of v >= minVal parses back to v |
| Config.DefaultIfEmpty | internal/config/config.go:139-145 | the trimmed value, or the default when that is empty; a non-empty default makes the result non-empty |
| Config.DefaultIfEmptyIdempotent | internal/config/config.go:139-145 | applying it twice is the same as once |
| Config.ExistingOrRead | internal/config/config.go:44-56 | a non-blank existing value is used trimmed without reading input; otherwise the next line, trimmed |
| Config.PromptForUploadConfig | internal/config/config.go:41-74 | part size at least 5, concurrency at least 1, a region defaulting to ap-northeast-2, given bucket and key used trimmed |
| Config.UploadConfigGivenNames | internal/config/config.go:41-74 | with bucket and key given, exactly three lines are read: region, part size, concurrency |
| Config.UploadConfigReadsFiveLines | internal/config/config.go:41-74 | with neither given, five lines are read, in the order bucket, key, region, part size, concurrency |
| Config.PromptForResumeConfig | internal/config/config.go:77-98 | bucket, key and upload id are trimmed, the region is defaulted, and part size and concurrency are left 0 |
| Config.ResumeConfigReadsFourLines | internal/config/config.go:77-98 | four lines are read in the order bucket, key, region, upload id |
| Config.PromptForSimpleBucket | internal/config/config.go:101-124 | a given bucket or region is used trimmed without reading; the region defaults; key and upload id stay empty |
| Ui.Endpoint | internal/cmd/favus/ui.go:74-81 | the endpoint is never empty: the flag when set, else FAVUS_WS_ENDPOINT when set, else ws://127.0.0.1:8765/ws |
| Ui.APIKey | internal/cmd/favus/ui.go:82-84 | the API key is the flag when set, else FAVUS_WS_API_KEY |
| Ui.BackgroundArgs | internal/cmd/favus/ui.go:100-115 | the background launch is `ui --addr A --endpoint E --foreground` followed by `--api-key K`, `--open` and `--open-url U`, each only when set, and it parses back to the same settings in foreground mode |
| Ui.BackgroundArgsParse | internal/cmd/favus/ui.go:100-115 | the launch arguments parse back to the address, endpoint, API key, open and open-url settings they were built from, with foreground set |
| Ui.OptionalFlagsParse | internal/cmd/favus/ui.go:107-115 | the optional tail sets exactly the optional flags it lists |
| Ui.FixedFlagsParse | internal/cmd/favus/ui.go:101-106 | the fixed head sets the address, the endpoint and foreground mode |
| Ui.IndexOfAny | internal/cmd/favus/ui.go:215 | the index returned is the first position holding one of the characters, or the length when there is none |
| Ui.IndexOfAnyAt | internal/cmd/favus/ui.go:215 | a position holding one of the characters, with none before it, is the index found |
| Ui.LastIndexOf | internal/cmd/favus/ui.go:215 | the index returned holds the character and none follows it; there is none exactly when the character does not occur |
| Ui.GetScheme | internal/cmd/favus/ui.go:215 | a scheme is split off only when it starts with a letter, holds only letters, digits, '+', '-' and '.', and ends at a ':'; a ':' at the very start is an error; any other text has no scheme and is all rest |
| Ui.SplitQuery | internal/cmd/favus/ui.go:215 | what precedes the first '?' is kept whole and holds no '?' |
| Ui.ParseAuthority | internal/cmd/favus/ui.go:215 | an accepted authority has a valid host (bracketed or with a numeric port, and only the host escapes url.Parse allows) and userinfo of allowed characters with valid escapes |
| Ui.ParseAuthorityHost | internal/cmd/favus/ui.go:215 | an authority without '@' is accepted exactly when it is a valid host, and then it is that host with no userinfo |
| Ui.ParseAuthorityOf | internal/cmd/favus/ui.go:215 | userinfo@host, or a bare host, is read back as that userinfo and that host whenever both are valid |
| Ui.LastIndexOfAfter | internal/cmd/favus/ui.go:215 | in userinfo@host the last '@' is the one after the userinfo when the host holds none, so the split is at the last '@' |
| Ui.HostValidChars | internal/cmd/favus/ui.go:215 | a host url.Parse accepts holds no '/', '@', '?', '#' or control character |
| Ui.ParseWithAuthority | internal/cmd/favus/ui.go:215 | scheme://authority followed by a path is accepted exactly when the authority and the path's escapes are, and then has that scheme, userinfo, host, path and forced-query flag |
| Ui.ParseOpaque | internal/cmd/favus/ui.go:215 | scheme: followed by text that does not start with '/' is an opaque URL holding that text |
| Ui.ParseOmitted | internal/cmd/favus/ui.go:215 | scheme:/ is the root path with the empty authority left out |
| Ui.ParseRelative | internal/cmd/favus/ui.go:215 | a relative reference with no scheme, no authority and no ':' in its first segment is all path |
| Ui.ParsedWellFormed | internal/cmd/favus/ui.go:215 | every URL url.Parse accepts has a valid lower-case scheme or none, valid userinfo, a valid host, and opaque text only after a scheme |
| Ui.ParseSchemeHost | internal/cmd/favus/ui.go:215 | parsing scheme://host followed by a path, and a lone '?' or not, gives back that scheme, that host, that path and that flag and nothing else, for any host and path url.Parse accepts |
| Ui.UiScheme | internal/cmd/favus/ui.go:220-227 | ws (in any case) becomes http, wss becomes https, and any other scheme is kept |
| Ui.UiSchemeFixed | internal/cmd/favus/ui.go:220-227 | the UI scheme of a valid lower-case scheme is valid, lower-case, and maps to itself |
| Ui.HttpsFixed | internal/cmd/favus/ui.go:220-227 | http and https are valid lower-case schemes that map to themselves |
| Ui.DeriveUIURL | internal/cmd/favus/ui.go:213-232 | an endpoint url.Parse refuses is returned unchanged; otherwise the result is the parsed URL under the UI scheme, written with path "/" and no query or fragment |
| Ui.RootStringReparses | internal/cmd/favus/ui.go:215-231 | what is written for any well-formed URL parses back, keeps its scheme, and is written out the same again |
| Ui.DeriveUIURLIdempotent | internal/cmd/favus/ui.go:213-232 | deriving the UI address of a derived UI address gives it back unchanged |
| Ui.ShutdownURL | internal/cmd/favus/ui.go:194 | the stop request goes to "http://", the address, then "/shutdown" |
| Ui.OpenTarget | internal/cmd/favus/ui.go:89-93 | an explicit open URL is used as given; otherwise the URL derived from the WebSocket endpoint |
| Ui.WsEndpointBecomesHttp | internal/cmd/favus/ui.go:214-231 | ws://host/path opens as http://host/ for every host and path url.Parse accepts |
| Ui.ParseWs | internal/cmd/favus/ui.go:215 | ws://host/path parses to scheme ws, that host and that path |
| Ui.ForcedQueryKept | internal/cmd/favus/ui.go:228-231 | a ws endpoint ending in a lone '?' keeps it: ws://host/path? opens as http://host/? |
| Ui.RelativeEndpoint | internal/cmd/favus/ui.go:213-232 | an endpoint with no scheme and no authority opens as the bare root path "/" |
| Ui.RefusedAuthorityKept | internal/cmd/favus/ui.go:215-219 | a ws endpoint whose authority url.Parse refuses is returned unchanged |
| Ui.NonNumericPortRefused | internal/cmd/favus/ui.go:215-219 | a port that is not a number makes the host invalid |
| Ui.BadHostEscapeRefused | internal/cmd/favus/ui.go:215-219 | a host escape that is not two hex digits makes the host invalid |
| Ui.AsciiHostEscapeRefused | internal/cmd/favus/ui.go:215-219 | a host escape of an ASCII byte other than %25 makes the host invalid |
| Ui.StopUI | internal/cmd/favus/ui.go:192-209 | an unreachable agent is not an error, and any error names the status as "stop-ui failed: HTTP N" |
| Ui.StopUISucceedsIff2xx | internal/cmd/favus/ui.go:204 | stop-ui succeeds against a reachable agent exactly for statuses 200 to 299; the separate 202 test adds nothing |
| Ui.OpenBrowserSafe | internal/cmd/favus/ui.go:234-245 | an empty URL is the error "no URL to open" and opens nothing; otherwise the browser is asked and its error is returned |
| Ui.UiCommand.constructor | internal/cmd/favus/ui.go:53-58 | the command starts with the given flags |
| Ui.UiCommand.RunUI | internal/cmd/favus/ui.go:72-190 | the endpoint and API key are completed first; a running agent is reused and only the browser may be opened; without --foreground a failing executable lookup is "resolve executable: ..." and a failing start is "failed to start UI agent in background: ..." with nothing launched, and otherwise the background launch with BackgroundArgs is the only action; in the foreground the agent is started and then, with --open, the browser opens the open-url or the derived URL |
| UploadApi.Step | internal/web/ui/lib/api/uploadApi.ts:28 | the random step is a whole number from 5 to 14 |
| UploadApi.Advance | internal/web/ui/lib/api/uploadApi.ts:26-40 | a poll moves progress up by the step but not past 100, completes the upload exactly when 100 is reached (otherwise the status stays) and changes nothing else but the update time |
| UploadApi.AdvanceMonotone | internal/web/ui/lib/api/uploadApi.ts:27-30 | a poll never moves progress back or above 100, and moves it up while it is below 100 |
| UploadApi.PollsKeepFinished | internal/web/ui/lib/api/uploadApi.ts:26-43 | a completed or failed upload is left alone by any number of polls |
| UploadApi.PollsComplete | internal/web/ui/lib/api/uploadApi.ts:26-40 | every active upload completes: enough polls to cover the distance to 100 leave it completed at exactly 100 |
| UploadApi.WithSamplesContents | internal/web/ui/lib/api/uploadApi.ts:4-17 | the samples are set under upload1, upload2 and upload3, each processing, with progress 30, 50 and 70 and retry counts 0, 1 and 2, and every other entry is kept |
| UploadApi.UploadStatusStore.constructor | internal/web/ui/lib/api/uploadApi.ts:2 | the store starts empty |
| UploadApi.UploadStatusStore.InitializeUploadMockData | internal/web/ui/lib/api/uploadApi.ts:4-17 | the store afterwards holds the three samples over what it held |
| UploadApi.UploadStatusStore.GetUploadStatus | internal/web/ui/lib/api/uploadApi.ts:19-44 | an absent id is the not-found error and changes nothing; an active upload is advanced, stored and returned; a finished one is returned as it is and the store is untouched |
| BatchApi.FileIdsDistinct | internal/web/ui/lib/api.ts:258-259 | the file ids `<batchId>_file_<i+1>` of different indices differ |
| BatchApi.CountStatus | internal/web/ui/lib/api.ts:20 | the number of files in a state is at most the number of files |
| BatchApi.CountsCoverAll | internal/web/ui/lib/api.ts:20 | every file is in exactly one of the four states, so the four counts add up to the number of files |
| BatchApi.CountStatusUpdate | internal/web/ui/lib/api.ts:135-159 | changing one file's status moves exactly one file from its old state's count to its new state's count |
| BatchApi.AllPendingCounts | internal/web/ui/lib/api.ts:91-99 | when every file is pending, the pending count is the number of files and the others are zero |
| BatchApi.Batch.constructor | internal/web/ui/lib/api.ts:252-289 | a new batch holds totalFiles pending files with ids `<batchId>_file_<i+1>`, progress 0, pendingFiles = totalFiles and the other counters 0 |
| BatchApi.Batch.Reset | internal/web/ui/lib/api.ts:90-111 | every file becomes pending with progress 0 and its optional fields cleared; pendingFiles = totalFiles, the other counters, overallProgress and the closure's index and running count are 0; the counters sum to totalFiles |
| BatchApi.Simulation.constructor | internal/web/ui/lib/api.ts:109-111 | a new closure drives the given batch from file 0 with nothing processing |
| BatchApi.Simulation.ProcessNextFile | internal/web/ui/lib/api.ts:113-140 | past the last file the batch is marked completed, at the given time, exactly when completed + failed = totalFiles, and otherwise nothing changes; at MaxConcurrent running files the call is deferred and nothing changes; otherwise exactly the next file becomes processing with progress 0 and its start time, pending drops by one, processing rises by one, and the batch is processing; a batch this closure alone drives stays so |
| BatchApi.Simulation.Tick | internal/web/ui/lib/api.ts:143-148 | the file's progress grows by the increment and is clamped to 100, which is reached exactly when the sum is 100 or more; no other file and no counter changes |
| BatchApi.Simulation.Finish | internal/web/ui/lib/api.ts:151-170 | the finished file is failed or completed as drawn; failed or completed grows by one, processing and the closure's running count drop by one, and overallProgress becomes the finished share in percent; a batch this closure alone drives stays so, with progress within 0..100 |
| BatchApi.StartDriven | internal/web/ui/lib/api.ts:130-140 | starting the next file below MaxConcurrent keeps a batch that one closure drives consistent |
| BatchApi.FinishDriven | internal/web/ui/lib/api.ts:154-170 | finishing a processing file keeps a batch that one closure drives consistent, with overallProgress within 0..100 |
| BatchApi.RestartOverrun | internal/web/ui/lib/api.ts:83-189 | restarting a one-file batch while its file waits to finish lets both closures finish it: two completed files, -1 processing and an overall progress of 200, for a batch of one file |
| BatchApi.StartAndRun | internal/web/ui/lib/api.ts:83-148 | startBatchSimulation, the first processNextFile and the progress interval leave the one file processing at 100, waiting to finish |
| BatchApi.RunInterval | internal/web/ui/lib/api.ts:143-148 | a progress interval stepping by 19 from 0 stops at exactly 100 |
| BatchApi.FinishedFile | internal/web/ui/lib/api.ts:154-165 | a failed file gets the processing error and keeps its URLs; a completed one gets the download and S3 URLs built from its id; both get a completion time |
| BatchApi.ConsistentCounters | internal/web/ui/lib/api.ts:101-166 | in every consistent state pending + processing + completed + failed = totalFiles |
| BatchApi.AllPendingConsistent | internal/web/ui/lib/api.ts:91-111 | the state the reset leaves is consistent |
| BatchApi.StartKeepsConsistent | internal/web/ui/lib/api.ts:130-139 | starting the next file keeps the counters consistent: one file moves from pending to processing, and the running count stays at most three |
| BatchApi.TickKeepsConsistent | internal/web/ui/lib/api.ts:144-147 | a progress step keeps the counters consistent |
| BatchApi.FinishKeepsConsistent | internal/web/ui/lib/api.ts:154-167 | finishing a file keeps the counters consistent: one file moves from processing to completed or failed |
| BatchApi.ShareBounds | internal/web/ui/lib/api.ts:170 | overallProgress stays within 0..100 and is 100 exactly when every file has finished |
| BatchApi.StartCounts | internal/web/ui/lib/api.ts:135-139 | marking a pending file processing lowers the pending count by one and raises the processing count by one |
| BatchApi.SameStatusCounts | internal/web/ui/lib/api.ts:144-147 | a change that keeps a file's status keeps every count |
| BatchApi.FinishCounts | internal/web/ui/lib/api.ts:155-166 | finishing a processing file lowers the processing count by one and raises the completed or the failed count by one |
| BatchApi.RandomStatus | internal/web/ui/lib/api.ts:295-306 | with a zero total the status is completed for a negative index and failed otherwise, as JavaScript's -Infinity, NaN and +Infinity compare |
| BatchApi.RandomStatusBands | internal/web/ui/lib/api.ts:295-306 | getRandomStatus is completed, processing, pending or failed exactly when index/total is below 0.7, below 0.85, below 0.95, or otherwise |
| BatchApi.QuotientBelow | internal/web/ui/lib/api.ts:296-306 | for a positive total, index/total is below a threshold exactly when index is below the threshold times total |
| BatchApi.MockStore.GetUploadResult | internal/web/ui/lib/api.ts:55-63 | the stored result for a known id, and the not-found error exactly for an unknown one |
| BatchApi.MockStore.GetBatchResult | internal/web/ui/lib/api.ts:66-80 | the stored batch for a known id, and the not-found error exactly for an unknown one |
| BatchApi.MockStore.StartBatchSimulation | internal/web/ui/lib/api.ts:83-111 | an unknown id changes nothing and gives no closure; a known batch has every file cleared back to pending and the counters set to "all pending", its id is recorded as running, and a new closure over it, starting at file 0 with nothing processing, alone drives it |
| BatchApi.MockStore.StopBatchSimulation | internal/web/ui/lib/api.ts:193-199 | the id is no longer an active simulation; nothing else changes |
| BatchApi.MockStore.CreateMockBatchResult | internal/web/ui/lib/api.ts:252-289 | the id maps to a new batch as NewMockBatch describes it: totalFiles pending files `<id>_file_<i+1>` with their drawn sizes, counters (totalFiles, 0, 0, 0), progress 0 and no completion time; the batch is consistent for a simulation that has not started, and the other batches are kept |
| BatchApi.MockStore.InitializeMockData | internal/web/ui/lib/api.ts:202-249 | the uploads are exactly the three samples; the batches are exactly batch1..3 and sample1..3, each a distinct new object as NewMockBatch describes it, with 300, 150, 50, 100, 75 and 25 files; no simulation is active |
| BatchApi.MockStore.CreateBatches | internal/web/ui/lib/api.ts:238-246 | createMockBatchResult for each id of a table of distinct ids and sizes, in order, on an empty store: the ids are exactly the table's, every batch is new, each is the batch NewMockBatch describes with its size, and no two ids share a batch |
| BatchApi.MockStore.CreateBatch | internal/web/ui/lib/api.ts:238-246 | one createMockBatchResult call of that pass adds the next id's new batch and keeps the batches made so far |
| BatchApi.MockStore.BatchesDistinct | internal/web/ui/lib/api.ts:252-289 | in a store where each batch is kept under its own id, different ids hold different batch objects |
| BatchApi.NewMockBatchStartable | internal/web/ui/lib/api.ts:252-289 | a batch as createMockBatchResult leaves it has every file pending with no progress, and is consistent for a simulation with next file 0 and nothing running |
| BatchApi.SampleBatchIdsDistinct | internal/web/ui/lib/api.ts:238-246 | the six sample batch ids are pairwise different |
| BatchApi.SampleUploadsContents | internal/web/ui/lib/api.ts:214-236 | the sample uploads are sample1..3, each stored under its own id |
| UploadPage.Update | internal/web/ui/app/upload/page.tsx:78-102 | the mapped list has the same length, the transform applied to every item with that id and every other item kept in place |
| UploadPage.UpdateKeepsIds | internal/web/ui/app/upload/page.tsx:80-101 | an update whose transform keeps the id keeps every id in place |
| UploadPage.Without | internal/web/ui/app/upload/page.tsx:71 | the filtered list is shorter by the number of items with that id, and is the list itself when none has it |
| UploadPage.WithoutMembers | internal/web/ui/app/upload/page.tsx:71 | the filtered list holds exactly the items whose id differs |
| UploadPage.WithoutIndex | internal/web/ui/app/upload/page.tsx:71 | every item whose id differs is found in the filtered list |
| UploadPage.WithoutKeepsOrder | internal/web/ui/app/upload/page.tsx:71 | two kept items stay in the same relative order |
| UploadPage.HasStatus | internal/web/ui/app/upload/page.tsx:130-131 | some item has the status exactly when one position holds it |
| UploadPage.CanStart | internal/web/ui/app/upload/page.tsx:131-163 | starting is enabled exactly when some item is queued |
| UploadPage.CanClear | internal/web/ui/app/upload/page.tsx:130-164 | clearing is enabled exactly when the list is not empty and no item is uploading |
| UploadPage.CanClearMeans | internal/web/ui/app/upload/page.tsx:130-164 | clearing is enabled exactly when the list is not empty and no item is uploading |
| UploadPage.QueuedIds | internal/web/ui/app/upload/page.tsx:123 | the ids collected are those of the queued items and of no other, no more than the items |
| UploadPage.StartAll | internal/web/ui/app/upload/page.tsx:122-128 | startAll sets one timer per item queued at call time, in list order, the k-th firing after 120·k ms for that item |
| UploadPage.RunnerStep | internal/web/ui/app/upload/page.tsx:99 | one tick moves progress up by the speed but not past 100, and reaches 100 only when the speed carries it there |
| UploadPage.TicksReach100 | internal/web/ui/app/upload/page.tsx:96-110 | with a speed of at least 3 per tick, enough ticks bring any runner to 100 (34 from 0), so every simulated upload completes |
| UploadPage.StaysAt100 | internal/web/ui/app/upload/page.tsx:99 | a runner at 100 stays at 100 |
| UploadPage.Page.constructor | internal/web/ui/app/upload/page.tsx:26-27 | the page starts with no items, no runner and no interval |
| UploadPage.Page.AddFiles | internal/web/ui/app/upload/page.tsx:42-58 | the existing items are kept in order and one queued item at progress 0 per file, with its name and size, is appended |
| UploadPage.Page.Stop | internal/web/ui/app/upload/page.tsx:112-117 | a runner's stop clears its interval and marks the item canceled, and nothing else |
| UploadPage.Page.ClearAll | internal/web/ui/app/upload/page.tsx:60-65 | every recorded runner's interval is cleared, and the runner map and the list are emptied |
| UploadPage.Page.RemoveItem | internal/web/ui/app/upload/page.tsx:67-72 | the item's runner, when there is one, is stopped and forgotten, and the list loses exactly the items with that id |
| UploadPage.Page.CancelItem | internal/web/ui/app/upload/page.tsx:74-83 | the item's runner, when there is one, is stopped and forgotten, and the items with that id become canceled whatever their status |
| UploadPage.Page.StartOne | internal/web/ui/app/upload/page.tsx:85-120 | the item becomes uploading at progress 0 with no error, a new interval with progress 0 and the given speed is started, and the map points the id at it; an earlier runner's interval keeps running |
| UploadPage.Page.Tick | internal/web/ui/app/upload/page.tsx:98-110 | a tick moves the runner's progress one step and copies it into the item; when it reaches 100 the interval is cleared, the id leaves the runner map and the item is completed |
| UploadPage.WithoutUpdated | internal/web/ui/app/upload/page.tsx:71-82 | removing the items with an id undoes any change made to those items first |
| UploadPage.CancelTwice | internal/web/ui/app/upload/page.tsx:74-83 | cancelling an item twice is cancelling it once |
| WsServer.Relay.constructor | internal/wsserver/server.py:67 | the relay starts with no connected client and nothing delivered |
| WsServer.Relay.Accept | internal/wsserver/server.py:86-88 | an accepted socket joins the client set |
| WsServer.Relay.Disconnect | internal/wsserver/server.py:94-96 | a disconnecting socket leaves the set; `set.remove` raises exactly when a broadcast already pruned it |
| WsServer.Relay.Broadcast | internal/wsserver/server.py:70-82 | the clients whose send raised are removed and no one else; each other client except the sender receives the message exactly once, appended after what was already delivered |
| WsServer.SendAll | internal/wsserver/server.py:73-80 | the loop over the clients: the dead list is exactly the non-sender clients whose send raises, and the message goes once to every other non-sender client |
| WsServer.Visit | internal/wsserver/server.py:75-80 | one iteration skips the sender, records a raising client as dead, and sends to any other client, extending the loop's invariant by that client |
| WsServer.MoveOne | internal/wsserver/server.py:74 | taking one client out of those not yet visited leaves the clients not visited once it is added to the visited ones |
| WsServer.TargetsAppend | internal/wsserver/server.py:78 | appending a delivery adds exactly its client to the set of clients delivered to |
| WsServer.BroadcastPartition | internal/wsserver/server.py:70-82 | a broadcast splits the clients into the sender, the disjoint sets it reaches and drops, and nothing else; the sender is never reached nor dropped |
| WsServer.RecipientsStep | internal/wsserver/server.py:74-80 | visiting one more client adds it to the recipients if it is not the sender and its send succeeds, to the dead if its send raises, and to neither if it is the sender |
| WsContext.ToMessage | internal/web/ui/lib/contexts/WebSocketContext.tsx:59-64 | null yields no message (reading its member throws); an object yields its "type", "runId" and "payload" members; any other value yields three undefined members |
| WsContext.Decode | internal/web/ui/lib/contexts/WebSocketContext.tsx:57-64 | an inbound text yields no message exactly when JSON.parse rejects it or it is null |
| WsContext.Deliveries | internal/web/ui/lib/contexts/WebSocketContext.tsx:65-72 | at most two invocations, each with the decoded message, none for text that yields no message, and the "*" subscriber first when it is present |
| WsContext.UnparsedReachesNobody | internal/web/ui/lib/contexts/WebSocketContext.tsx:57-75 | text JSON.parse rejects, or null, invokes no subscriber |
| WsContext.Routing | internal/web/ui/lib/contexts/WebSocketContext.tsx:65-72 | every invocation receives the message; the "*" subscriber, when present, is called first, and the run id's subscriber, when present, is called last, and no one else |
| WsContext.EverythingTwice | internal/web/ui/lib/contexts/WebSocketContext.tsx:65-72 | a message whose run id is "*" reaches the "*" subscriber twice |
| WsContext.AgentEventDelivered | internal/web/ui/lib/contexts/WebSocketContext.tsx:59-72 | an event as the agent marshals it reaches the "*" subscriber and its run's subscriber with its type, run id and payload intact |
| WsContext.UnsubscribedReachesOnlyEverything | internal/web/ui/lib/contexts/WebSocketContext.tsx:118-120 | after unsubscribing a run id, a message for it reaches only the "*" subscriber |
| WsContext.SubscribedReached | internal/web/ui/lib/contexts/WebSocketContext.tsx:114-116 | after subscribing a callback for a run id, a message for it ends with that callback, whatever was subscribed before |
| WsContext.RetriesBounded | internal/web/ui/lib/contexts/WebSocketContext.tsx:37-87 | a run of closes with no open in between schedules no more reconnects than the five attempts allow |
| WsContext.RetriesExhausted | internal/web/ui/lib/contexts/WebSocketContext.tsx:37-87 | enough abnormal closes in a row schedule exactly the attempts left |
| WsContext.NormalClosesNotRetried | internal/web/ui/lib/contexts/WebSocketContext.tsx:83 | closes with code 1000 never schedule a reconnect |
| WsContext.CloseStep | internal/web/ui/lib/contexts/WebSocketContext.tsx:78-88 | a reconnect is scheduled exactly when the code is not 1000 and fewer than five attempts were made, and then the attempt count goes up by one |
| WsContext.Provider.constructor | internal/web/ui/lib/contexts/WebSocketContext.tsx:32-36 | no socket, not connected, no attempts, no pending timer and no subscriptions |
| WsContext.Provider.Connect | internal/web/ui/lib/contexts/WebSocketContext.tsx:41-49 | a socket is created exactly when the current one is not open, and it becomes the ref, connecting |
| WsContext.Provider.OnOpen | internal/web/ui/lib/contexts/WebSocketContext.tsx:51-55 | open and connected, and the attempt count restarts from zero |
| WsContext.Provider.OnMessage | internal/web/ui/lib/contexts/WebSocketContext.tsx:57-76 | the invocations made are exactly the routing of the inbound text, appended in order |
| WsContext.Provider.OnClose | internal/web/ui/lib/contexts/WebSocketContext.tsx:78-88 | disconnected with the ref cleared; a reconnect is scheduled and counted exactly when the code is not 1000 and fewer than five attempts were made |
| WsContext.Provider.ReconnectTimerFires | internal/web/ui/lib/contexts/WebSocketContext.tsx:86 | the pending timer is consumed and connect runs again |
| WsContext.Provider.Disconnect | internal/web/ui/lib/contexts/WebSocketContext.tsx:100-107 | the pending reconnect is cleared and an existing socket is asked to close with code 1000 |
| WsContext.Provider.Subscribe | internal/web/ui/lib/contexts/WebSocketContext.tsx:114-116 | the id maps to the callback and every other subscription is unchanged |
| WsContext.Provider.Unsubscribe | internal/web/ui/lib/contexts/WebSocketContext.tsx:118-120 | only the id's subscription is removed |
| WsContextLegacy.Subscribe | internal/web/ui/lib/context/WebSocketContext.tsx:83-85 | the new state maps the run id to the callback and keeps every other entry; the first render's map is written only while it is still the state |
| WsContextLegacy.Unsubscribe | internal/web/ui/lib/context/WebSocketContext.tsx:87-93 | the new state lacks the run id and keeps every other entry; the first render's map is left as it was |
| WsContextLegacy.DispatchAsWritten | internal/web/ui/lib/context/WebSocketContext.tsx:46-60 | at most one callback is invoked, only for a message whose "Type" is "progress" and whose "RunID" is a non-empty string subscribed in the first render's map |
| WsContextLegacy.AsWrittenIgnoresAgentEvents | internal/web/ui/lib/context/WebSocketContext.tsx:50 | no event marshalled by the agent is ever dispatched, since it has no "Type" member |
| WsContextLegacy.AsWrittenMissesLaterSubscribers | internal/web/ui/lib/context/WebSocketContext.tsx:51 | after subscribing "a" then "b", a progress message for "b" reaches nobody |
| WsContextLegacy.AsWrittenKeepsUnsubscribed | internal/web/ui/lib/context/WebSocketContext.tsx:51 | after unsubscribing "a", a progress message for "a" still reaches its old callback |
| WsContextLegacy.Dispatch | internal/web/ui/lib/context/WebSocketContext.tsx:46-60 | the corrected handler: at most one callback, only for a "progress" message whose "runId" is a non-empty string subscribed in the current state, given the payload as it arrives |
| WsContextLegacy.ProgressEventDelivered | internal/web/ui/lib/context/WebSocketContext.tsx:50-55 | a progress event from the agent reaches its run's current subscriber with its payload |
| WsContextLegacy.OtherEventsIgnored | internal/web/ui/lib/context/WebSocketContext.tsx:50 | an event of any other type reaches nobody |
| WsContextLegacy.SubscriberReached | internal/web/ui/lib/context/WebSocketContext.tsx:83-85 | after subscribing a callback for a run, that run's progress reaches the callback |
| WsContextLegacy.UnsubscribedNotReached | internal/web/ui/lib/context/WebSocketContext.tsx:87-93 | after unsubscribing a run, its progress reaches nobody |
| WsContextLegacy.CorrectedExamples | internal/web/ui/lib/context/WebSocketContext.tsx:46-60 | with the corrected handler, the later subscriber "b" is reached and the unsubscribed "a" is not |
| WsContextLegacy.Connection.constructor | internal/web/ui/lib/context/WebSocketContext.tsx:32-33 | not connected, no reconnect pending, no socket created |
| WsContextLegacy.Connection.ConnectWebSocket | internal/web/ui/lib/context/WebSocketContext.tsx:37-38 | every call creates one more socket, whatever the state |
| WsContextLegacy.Connection.OnOpen | internal/web/ui/lib/context/WebSocketContext.tsx:40-44 | connected |
| WsContextLegacy.Connection.OnClose | internal/web/ui/lib/context/WebSocketContext.tsx:62-69 | disconnected, and one more reconnect is scheduled whatever came before |
| WsContextLegacy.Connection.ReconnectTimerFires | internal/web/ui/lib/context/WebSocketContext.tsx:68 | a pending reconnect is consumed and creates one new socket |

## Left out

- The AWS SDK calls are not modelled as code: CreateMultipartUpload, UploadPart, ListParts, CompleteMultipartUpload, AbortMultipartUpload, HeadBucket, HeadObject and ListMultipartUploads. Each appears only through the outcome it returns.
- `DeleteFile`, `ListMultipartUploads`, `NewUploader` and `NewUploaderWithAWSConfig` in internal/uploader/uploader.go are left out. They only set up AWS clients or forward to them.
- `utils.Retry` is not part of this model. A part upload either succeeds or fails after its retries, and that outcome is an input.
- The SHA-256 hash and the Redis commands are not modelled:
  - the Cuckoo filter (CF.ADD, CF.EXISTS, CF.RESERVE);
  - the Count-Min sketch (CMS.INCRBY, CMS.QUERY, CMS.INITBYDIM).

  Their replies are inputs.
- `createS3Client` and `Close` in internal/duplicate/checker.go are left out. They are client setup and teardown.
- Frequency extraction in `Duplicate` models Redis reply types as a datatype. The Go type name that the error message prints with %T is not modelled.
- The byte-level file I/O is not modelled:
  - chunk contents;
  - the JSON text of the status file;
  - bufio reading;
  - loggers.

  `SaveStatus` and `LoadStatus` form a round trip on the JSON value. The chunk directory is a set of file names.
- Go map iteration order is not modelled. Collections that Go ranges over in map order are sets, or they are sorted where the code sorts them.
- Part numbers, sizes and byte counts are unbounded integers. The int32 part number and the int64 offsets of the Go code are not modelled as bounded, and neither is S3's limit on the number of parts.
- Floating-point arithmetic is not modelled:
  - in the reporter: `partMB`, `percent` and the bytes-per-second rate;
  - in the UI: `overallProgress`, `totalSize` and `formatBytes`.

  The progress values the UI computes are exact rationals. The rounding and the `Math.log` of `formatBytes` are left out.
- `BatchApi.RandomStatus` compares the exact ratio `index/total` with 0.7, 0.85 and 0.95. The rounding of JavaScript's float division at those boundaries is not modelled.
- `Math.random`, `Date.now`, `new Date().toISOString()` and Go's `time.Now` are parameters. They become a draw, a millisecond count, or a `WsAgent.Clock` that never runs backwards. ISO time-stamp text is not modelled; the session_done duration is spelled as Go's Duration.String.
- Timers are not modelled as a scheduler: `setTimeout` and `setInterval` in the UI and the relay, and the reporter's 250 ms and 200 ms flush windows. Each timer callback is a method the environment calls. The reporter's log throttling, which only affects what is printed, is left out.
- `stopBatchSimulation` clears one dummy timer in internal/web/ui/lib/api.ts:189, 193-199. It cannot stop a running simulation, and `BatchApi.MockStore.StopBatchSimulation` only drops the id from the active set.
- BatchApi.MockStore.StartBatchSimulation: the timers a call starts are left to the caller, which calls `ProcessNextFile` and the interval methods itself, and `onUpdate` is not modelled. The closures of an earlier start keep running. Their effect is shown by `BatchApi.RestartOverrun`, not bounded by a contract.
- BatchApi.ShareBounds: the 0..100 bound holds only while one closure alone drives the batch. After a restart the same file can finish twice, and `BatchApi.RestartOverrun` shows an overall progress of 200.
- `BatchApi.MockStore.InitializeMockData`: the sample upload records keep id, file name, size, content type, URLs and times. Their `metadata` object is not modelled. The six `createMockBatchResult` calls are written as one loop over the table of ids and sizes, in the same order.
- `startOne` in internal/web/ui/app/upload/page.tsx overwrites the runner entry of an item that is already running. The earlier interval then keeps running, and the model keeps it among the live intervals. Timer identity beyond that is not modelled.
- `Text.ToLower` lower-cases ASCII letters only. Every comparison it feeds uses ASCII keys: the icon table, and y/yes/n/no.
- Environment variables are inputs to the members that read them: `FAVUS_WS_ENDPOINT` and `FAVUS_WS_API_KEY`. `NEXT_PUBLIC_WS_URL` and `FAVUS_AGENT_ADDR` are not modelled, and the providers and `WsAgent` use their default addresses.
- In internal/cmd/favus/ui.go, `runUI` is modelled only up to the argument list of the background process and the outcome it reports. The following are left out:
  - the health poll after start-up;
  - the messages it prints;
  - the foreground server and its signal wait.
- `ValidateFile`, `CreateUploaderWithAWS` and `PromptWithDefault` in internal/cmd/favus/common.go are not modelled. They stat files, build AWS clients and read the terminal, with no decision beyond that.
- `LoadConfig` (viper) is not part of this model. `LoadConfigWithOverrides` receives the loaded configuration, or the load error, as an input.
- End of file on standard input is not modelled as an error. Once the given lines are used up, every read returns "". A prompt that re-asks therefore settles on its default.
- Exceptions thrown inside subscriber callbacks in the WebSocket providers are not modelled.
- A failure of the `WebSocket` constructor in the new provider is not modelled. That failure is caught and only logged.
- The legacy provider's cleanup closes `ws` from the first render, which is always null, so it closes nothing. The model has no cleanup method.
- React rendering, StrictMode's double effects and the socket's `onerror` logging are not modelled.
- The relay's S3 endpoints in internal/wsserver/server.py (create-upload, presign-part and complete-upload) are left out. They are thin boto3 wrappers.
- The asyncio lock, and the Go mutexes of the tracker and the reporter, are modelled as atomic method calls. No concurrency is modelled.
- Aliasing between the Go objects the drivers share is not modelled:
  - the tracker, the reporter and the reader are separate objects, each updated through its own methods;
  - the driver records the calls it makes to them.
- Tracker.Decode: a status file whose `completedParts` member is missing or null decodes to an empty map. Go keeps a nil map there, which a later write panics on (see the next two lines). Member names are matched exactly; json.Unmarshal also accepts them in any letter case.
- Resume.SyncWithServer: the panic is not modelled. When a status decoded with a nil `completedParts` meets a server listing with parts, Go's `AddCompletedPart` writes into the nil map and the process panics (internal/uploader/resume.go:49-51, internal/uploader/tracker.go:40). The model records the parts.
- Resume.ResumeUpload: the same nil-map panic in the resumed upload loop, at its first uploaded part, is not modelled. The model records the part and goes on.
- Tracker.DecodeParts: two member names that spell one part number, such as "1" and "01", with different strings are an error in the model. Go keeps the one that comes later in the text, but a decoded JSON object here is a map with no member order, so the model cannot say which one that is. `Tracker.ConflictingSpellings` shows the case.
- Ui.DeriveUIURL: url.Parse and URL.String are modelled on the text, not on Go's decoded fields. The userinfo and the host are written back as they were given. Go decodes them and escapes them again, so upper-case hex digits, an escaped '@' in the userinfo and escaped non-ASCII host bytes can differ from the model's text. An IPv6 zone after "%25" inside brackets is checked by the host rules, where Go allows any escape there. `RootStringReparses` states that the written text parses back, not that it equals Go's bytes.
- The agent process (`internal/wsagent/agent.go`) is not modelled: its HTTP server, its WebSocket bridge, its ping loops and its PID files. Its CLI side is modelled as a sequence of answers: `SendEvent`'s 2xx verdict and `IsRunningAt`.
- Uploader.ReportDeltas: states only that the reporter stays valid and the clock does not move back. The progress bookkeeping of each report is stated by the `WsReporter` methods it calls.
- Uploader.FailPart: states only that the reporter stays valid and the clock does not move back. The events are stated by `WsReporter.Reporter.Error` and `WsReporter.Reporter.Done`, and the abort is recorded in the driver's step list.
- Uploader.ReportError: states only that the reporter stays valid. The event itself is stated by `WsReporter.Reporter.Error`.
- Uploader.StartSession: states only that the reporter stays valid. The start payload and its gating are stated by `WsReporter.Reporter.Start`.

## Findings

| source | as written | input that shows it | evidently intended | confidence | as-written member | corrected member |
|---|---|---|---|---|---|---|
| internal/uploader/progress.go:40-43 | a rewind lowers `reported` to the new position, so bytes read again after the SDK rewinds a body are reported again, against the comment on line 40 | read 10 bytes, seek to 0, read the same 10 bytes: onDelta is called with 10 and 10, which reports 20 bytes for a 10-byte body | `reported` stays a high-water mark, so each byte position is reported once | not executed | Progress.SeekAsWrittenRecountsRetriedBytes | Progress.RunCountsEachByteOnce |
| internal/web/ui/lib/context/WebSocketContext.tsx:50-53 | the handler reads the members `Type`, `RunID` and `Payload`, but the agent marshals events as `type`, `runId` and `payload` (internal/wsagent/agent.go:35-40) | any progress event the agent sends, such as `{"type":"progress","runId":"r1","ts":…,"payload":{}}`: `Type` is undefined and nothing is dispatched | dispatch on `type` and `runId` and pass the payload on as it arrives | not executed | WsContextLegacy.AsWrittenIgnoresAgentEvents | WsContextLegacy.ProgressEventDelivered |
| internal/web/ui/lib/context/WebSocketContext.tsx:51 | the handler, set up once on mount, reads the subscriber map of the first render. Each later change makes a new map, so later subscriptions are never seen and later unsubscriptions are never honoured | subscribe "a", then "b"; a progress message for "b" reaches nobody. Unsubscribe "a"; a message for "a" still reaches it | the handler reads the current subscribers | not executed | WsContextLegacy.AsWrittenMissesLaterSubscribers | WsContextLegacy.SubscriberReached |
| internal/web/ui/lib/utils/getFileIcon.ts:2-27 | the lookup `map[extension]` on a plain object literal also finds the inherited members of Object.prototype | "notes.constructor" yields the function Object, not an icon ("__proto__" yields Object.prototype) | extensions outside the table give the folder icon | not executed | FileIcon.AsWrittenInheritedIcon | FileIcon.GetFileIcon |
