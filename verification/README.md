# Verified model of PKG Manager's core

PKG Manager installs packages on a console from drives, discs and network shares. This project models the parts of it
whose correctness is hardest to see from the code, and proves what they promise. Each module follows one component:

- `Bytes`, `Strings`, `Decimal`, `Wrappers`: octets and fixed-width integers, searching in texts, decimal numbers,
  values that may be absent.
- `PartHeader`, `Slices`, `Splitter`, `Reassembler`, `SplitRoundTrip`: splitting a package into parts with a
  4096-byte header, and joining them again; `PartLayout` and `PartChecks` give the octets of the parts, and which of
  them are refused with which code.
- `StreamMap`, `VirtualStream`, `DiscSwapping`, `StagedCopies`: random access to a package whose parts are on discs
  that are swapped while it is read. Parts that are not mounted get ranges guessed from the first one, corrected when
  their disc comes.
- `QuickScan`: the incremental catalogue, with its fast path, its rebuild and its provisional mode; `ScanOutcomes`
  says what each of them does to entries, records and drives.
- `LegacyCss`: the rewriter of slash-alpha colours; `ColourCalls` gives the text that comes out.
- `JsonText`, `MetaRecord`, `Settings`: hand-written text records and the searches that read them back; `RecordTexts`
  gives their characters, and what is made of texts with other values or without some.
- `PkgParsers`: the two binary readers of package headers, one over a file, one over a buffer; `PackageKind` says which
  entries make a package which kind, and `EntryTexts` how names and categories are read out of them.
- `InstallControl`, `StreamAccounting`, `InstallStream`: starting, queueing, handing over and detaching installs under
  one lock, counting streamed bytes, and both together.
- `HelperProtocol`: the single-use install helper and its client over a byte stream.
- `WsFrames`, `WsMessages`: the frame decoder of the upload connection (sections 5.2 and 5.3 of RFC 6455), and the
  messages put together from its frames.
- `Version`, `VersionTexts`, `IconBox`, `IconColours`, `LogRing`: version texts, icon placeholders and their colours,
  the ring of log lines.

Code that changes state step by step is a class or a method with loops. Each such method is proved to compute a
specification function of its inputs or of the old state, and lemmas about that function state what the component
promises, and what comes out in terms of octets, characters and calls alone. Concurrent components are state machines
over their critical sections, with properties of every run.

Files and media are maps from paths to octets. The disc waiter, the listing of a source, the parsing of a file, the
inflation of a chunk, the system's install service and the poll results of a connection are parameters: the proofs hold
for all of them, within the conditions a lemma states.

## Findings

Some promises hold only under a condition; the lemmas give it exactly, with an input that fails it.

- Reading a split package from one disc to the next fails when guesses are too far off (src/multipart.c:554-571).
  `DiscSwapping.ReadWhole` succeeds if and only if the number of parts less three, times the difference of the part
  capacities, is below the first part's payload; the package of `DiscSwapping.FarGuess` does not meet that, and reading
  it fails (`DiscSwapping.PlayFar`).
- A text survives escaping and extraction if and only if it has no control characters (src/pkg_cache.c:269-319,
  `JsonText.EscapeSurvives`): a line break comes back as the letter n (`JsonText.NewlineLost`). So do metadata records
  and settings (`MetaRecord.RoundTrip`, `Settings.RoundTrip`).
- The two header readers see different entry names when the name table does not end a name and another octet follows it
  (src/pkg_parser.c:1336-1346, `PkgParsers.NamesDiffer`). On the file of `PkgParsers.OverrunDiffers` they report
  different package types.
- The report of a skipped update is not right in every interleaving (src/installer.c:2252-2268):
  `InstallControl.MisledRun` is a run of two batches in which a late handover overwrites the second one. It is right at
  every moment of a run if and only if each handover that commits brings the current batch's update or comes when none
  is outstanding (`InstallControl.ReportExactly`).
- Two workers may be at work at once, as in the same run. They never are if and only if at every commit nobody else is
  on the way from taking over a live worker to committing (src/installer.c:2162-2181, `InstallControl.OneWorker`).
- How an upload stream is cut matters exactly when a close frame, or a text continuation without a text, is followed by
  another complete frame (frontend/mock-server.js:1273-1286, `WsFrames.CutIndependent`, `WsFrames.CutAfterClose`).
- Normalising a version keeps its numbers unless the version is nothing but prefix (src/app_info.c:57-62,
  `Version.NormalizeKeeps`): "v" becomes "v1.00" (`Version.PrefixBecomesOne`).
- A streamed package may be called playable before any of its bytes was sent (src/installer.c:1616-1651): a worker that
  found its own transfer done finishes after another install was committed (`StreamAccounting.LateBreaks`; with the
  starts that lead there, `InstallStream.PlayableTooEarly`). It never is if and only if each worker that finishes found
  its transfer done since the counters were last reset, or finds as many bytes sent as the package has
  (`StreamAccounting.PlayableExactly`); nor does it happen where each worker has returned before the next one commits
  (`InstallStream.ClearEarns`).
- The downloaded count may pass the served one. The byte counters wrap at two to the 64 (src/installer.c:661-662), as in
  `StreamAccounting.WrapBreaks`; and the late finish of `StreamAccounting.LateBreaks` does it without any wrap, with
  seven bytes downloaded and none served. It never happens in a run if and only if no served chunk takes the served
  count alone past a word, the total not holding the other one down, and each worker that finishes found its transfer
  done since the last reset and the last wrap, or finds the total served (`StreamAccounting.BelowExactly`); nor does it
  happen where nothing wraps and each worker has returned before the next one commits
  (`InstallStream.ClearStaysBelow`).
- A hash that is set on an entry while its source is being rescanned is lost, the entry having been copied before
  (src/pkg_scanner.c:1553-1625), as in `QuickScan.HashGone`. The entries are what they would be had the hashes been set
  before if and only if these change no entry that a listed file keeps (`QuickScan.HashKeptExactly`).
- A staged copy of a part is taken by its name alone (src/multipart.c:541-552). What is read from it is what it holds:
  beside the first of two parts, a copy from another package that was cut alike is read as the second one
  (`StagedCopies.ReadStaged`), as with the packages of `StagedCopies.ReadForeign`, so the read is right if and only if
  both packages agree on those bytes.
- The documentation of the CSS rewriter calls it idempotent because comma syntax is untouched
  (tools/fix_legacy_css.py:14); it is idempotent on all texts, also with calls that are never closed
  (`LegacyCss.Idempotent`).

## Model

| member | source | states |
|---|---|---|
| `PartHeader.UnpackPack` | tools/pkg_split.py:230-258 | Whatever follows the 4096-byte header the splitter writes, the reader's packed struct recovers every one of its 21 fields, and the header is exactly 4096 bytes long |
| `PartLayout.PartSays` | tools/pkg_split.py:230-382 | Every octet of a written part file: which number stands at which offset of the header, the texts cut and padded, the archive's size as the sum of all files' sizes, the slice's offset as the length of the slices before it, and the icon and the slice behind |
| `PartLayout.PartFull` | tools/pkg_split.py:305-313 | Every file but the last is exactly as long as a part may be, or one octet longer than its header and icon if these leave no room |
| `PartChecks.FieldsAre` | include/multipart.h:19-43 | Where each of the 21 fields of a header stands, and in which octet order |
| `PartChecks.GoodExactly` | src/multipart.c:23-42 | A header is accepted if and only if its octets spell the eight letters, version 1, a place among its parts, a known compression and at most 64 MiB for a chunk |
| `Slices.SliceBounds` | tools/pkg_split.py:312-353 | For every cut, slice k is inside the total, ends where slice k+1 begins, is non-empty if the total is, and the last one ends with the total |
| `Slices.SlicesTile` | tools/pkg_split.py:295-353 | Every offset of the total lies in some slice |
| `Slices.SlicesDisjoint` | tools/pkg_split.py:295-353 | No offset lies in two slices |
| `Splitter.Split` | tools/pkg_split.py:260-382 | The nested copy loops and the header rewrite leave exactly the part files of the specification, in order, or refuse when a field does not fit its width |
| `Splitter.WriteDrafts` | tools/pkg_split.py:295-353 | The outer loop produces one draft per slice of the cut, the counters and the archive size being those of the whole |
| `Splitter.PartFileLayout` | tools/pkg_split.py:295-382 | Each part file is a valid header, the icon if it is the first, then its slice of the package at the announced data offset |
| `Splitter.PartFileSize` | tools/pkg_split.py:313 | A part file is at most the part size whenever that exceeds its data offset |
| `Splitter.SlicesJoin` | tools/pkg_split.py:295-353 | The slices, joined, are the package |
| `Reassembler.Disk.Validate` | src/multipart.c:133-172 | The header checks give the code of the first complaint, for every set of files; `PartChecks.CodesAre` and `PartChecks.BadPartCode` say in octets which code that is |
| `PartChecks.CodesAre` | src/multipart.c:129-172 | When the checks give each of the codes 0, -1, -2, -3 and -18, exactly, in terms of the octets of the files; 0 means every part stands in its place with the first one's count and identity and the announced sizes agree |
| `PartChecks.BadPartCode` | src/multipart.c:155-165 | The first of the other parts that does not stand decides: -4 if it is none, -5 if its number or count differs, -6 if only its 16 octets of identity do |
| `PartChecks.ContributionIs` | src/multipart.c:225-280 | The bytes a part file contributes: which octets of it, or -10 for a short file or a huge icon, or -13 where the file ends too early |
| `PartChecks.ChunkLimits` | src/multipart.c:183-205 | When the older format is refused with -8, how large its buffers are, and when a complete result still has the wrong length |
| `Reassembler.Disk.CopyChunks` | src/multipart.c:276-345 | The chunk loop appends exactly the stored or inflated chunks with the right checksum, or stops with the code of the first bad one |
| `PartChecks.ChunkIs` | src/multipart.c:284-343 | For every file and place: the chunk, or the code -11, -12, -13, -15 or -16, from the three words before it, the inflation and the sum of its content |
| `PartChecks.ChunksBack` | src/multipart.c:281-345 | A list of chunks, stored or deflated, with or without sums, written one behind the other, is read back as the contents joined, whatever precedes and follows it |
| `PartChecks.OlderPart` | src/multipart.c:231-345 | So is that of a whole part file of the older format, behind its header and icon |
| `Reassembler.Disk.Rebuild` | src/multipart.c:123-369 | No other file changes; nothing changes before the output is opened; after that the output survives exactly when the result is 0, and then it is what the specification rebuilds; a fault-free failure returns the specification's code |
| `SplitRoundTrip.RebuiltIsPackage` | src/multipart.c:123-369 | Reassembling what the splitter wrote gives the package, for every package, icon, metadata and part size |
| `SplitRoundTrip.SplitAndRebuild` | tools/pkg_split.py:260-382 | The two programs one after the other leave the package in the output file and the parts as they were |
| `StreamMap.OnceMore` | src/multipart.c:640-744 | One more wait in the lookup leads to the place where the whole lookup ends |
| `VirtualStream.VirtualStream.Open` | src/multipart.c:388-605 | Opening succeeds exactly unless the path is missing or names too many parts; every part found gets its true range; when only the first is mounted all others get the guessed multiples of its size; the file given takes the place it says, and a staged copy any place the search finds nothing for |
| `VirtualStream.VirtualStream.Pass` | src/multipart.c:645-712 | One turn of the retry loop ends at a part in reach, at none, after a wait that resolves a part without a path or reopens the one already asked for, or with a failed wait |
| `VirtualStream.VirtualStream.Acquire` | src/multipart.c:640-744 | The retry loop terminates, its measure being the unresolved parts and one reopening, and ends where the lookup by truths ends; a part in reach is opened without a prompt |
| `VirtualStream.VirtualStream.Read` | src/multipart.c:607-784 | A positive result k at offset o means exactly package bytes o to o+k, whatever ranges were guessed and in whatever order reads come; prompts grow by at most the unresolved parts and one; a part in reach is read without a prompt, up to its end; with an attentive waiter length, prompts and believed ranges are exactly those of the lookup |
| `DiscSwapping.InOrderIff` | src/multipart.c:554-571 | The arithmetic bound holds exactly when every guess still contains the byte where its part really begins |
| `DiscSwapping.SettleGood` | src/multipart.c:645-744 | With a good guess the lookup for the next part's first byte asks for that part only |
| `DiscSwapping.SettleBad` | src/multipart.c:645-744 | With a bad guess the lookup ends nowhere, so the read fails |
| `DiscSwapping.ReadNext` | src/multipart.c:607-784 | In a sequential read the next piece is exact, prompts for at most the next disc, and fails exactly when the part's guess is bad |
| `DiscSwapping.ReadWhole` | src/multipart.c:607-784 | A sequential read with one disc mounted succeeds if and only if the bound holds; it then returns the whole package and has prompted for parts 2 to n once each, in order |
| `DiscSwapping.StreamFromDiscs` | src/multipart.c:388-784 | The same from splitting a package of at most 256 parts, through opening its first file, to the last byte |
| `DiscSwapping.PlayDiscs` | src/multipart.c:480-784 | For every package that can be split, with each part on a disc of its own and the first one inserted, reading to the end succeeds with exactly the package if and only if the bound holds |
| `DiscSwapping.InOrderByIcon` | tools/pkg_split.py:305-313 | When the part size exceeds header and icon, the bound reads: parts less three, times the icon's size, is below the first part's payload |
| `DiscSwapping.FarGuess` | src/multipart.c:554-571 | A package of six bytes with an icon of one, split into four parts, does not meet the bound |
| `DiscSwapping.PlayFar` | src/multipart.c:656-744 | Reading that package from its discs fails |
| `StagedCopies.ReadStaged` | src/multipart.c:541-784 | For any two packages cut alike: a stream opened on the first part of one, beside a staged copy of the second part of the other, reads there exactly what the other one has |
| `StagedCopies.ReadForeign` | src/multipart.c:541-552 | Two packages of two bytes for which that read returns a foreign byte |
| `QuickScan.Compact` | src/pkg_scanner.c:193-205 | The write-index loop leaves exactly the kept elements, in order, at the front |
| `QuickScan.Catalog.RemoveScanned` | src/pkg_scanner.c:193-205 | Exactly the records outside the drive remain |
| `QuickScan.Catalog.AddScanned` | src/pkg_scanner.c:159-181 | The record of the path is updated in place or appended, the array growing as needed |
| `QuickScan.Catalog.SetBlurhash` | src/pkg_scanner.c:715-728 | The first entry with the path gets the hash, and nothing else changes |
| `QuickScan.Catalog.CheckIdentical` | src/pkg_scanner.c:1407-1505 | The fast comparison decides exactly the stated relation of listing, entries, records and drive state |
| `QuickScan.Catalog.MatchFiles` | src/pkg_scanner.c:1553-1584 | Entries that agree in path, size and time (within two seconds, or unknown) are kept with their times filled in; the other files are to be read |
| `QuickScan.Catalog.ScanQuick` | src/pkg_scanner.c:1340-1666 | Packages, records, drives and result after a quick scan are those of the specification, for listing failure, unmounted drive, fast path and rebuild, whatever hashes other threads set while the lock is free for parsing; what they are in each case is stated by the lemmas of `ScanOutcomes` and those below |
| `ScanOutcomes.UnderIs` | src/pkg_scanner.c:183-191 | A path is under a drive if and only if it is the drive's or goes on behind it at a slash |
| `ScanOutcomes.FailedChangesNothing` | src/pkg_scanner.c:1347-1355 | A failed listing changes nothing and is no change |
| `ScanOutcomes.AfterUnmount` | src/pkg_scanner.c:1358-1376 | After an unmount no entry and no record lies under the drive, and those of other sources are there as they were, in order |
| `ScanOutcomes.DriveUnmounted` | src/pkg_scanner.c:1378-1389 | Of the drives only the first that mentions the source changes, to unmounted with count 0; the result is true if and only if an entry was there or that drive was mounted |
| `ScanOutcomes.KeptInOrder` | src/pkg_scanner.c:1362-1374 | What is kept stood before at increasing places, and everything that qualifies is kept |
| `ScanOutcomes.CatalogueFits` | src/pkg_scanner.c:1625-1630 | There are never more than 4096 entries, and only the last new ones of a source are left out when there is no room |
| `ScanOutcomes.DrivesAfter` | src/pkg_scanner.c:1643-1661 | After a scan the first drive that mentions the source is mounted and counts its entries; an unknown source gets a drive unless there are 16; no other drive changes |
| `ScanOutcomes.NewDriveCount` | src/pkg_scanner.c:1659-1661 | A new drive's count is the number of the source's entries where nothing is unreadable and there is room |
| `ScanOutcomes.RecordsAre` | src/pkg_scanner.c:1632-1641 | After a rebuild the source's records are exactly the listed files with their sizes and times, in order, behind those of other sources |
| `ScanOutcomes.OneFile` | src/pkg_scanner.c:1553-1605 | When an entry is kept for a file: path and size equal, and times at most two seconds apart or one of them unknown; otherwise the file is read, and makes the scan provisional exactly if it has neither id nor name |
| `ScanOutcomes.SkipsExactly` | src/pkg_scanner.c:1407-1505 | Reading is skipped if and only if the listing has as many files as there are records and, for each entry and each file, its counterpart is there with the same size and close time |
| `QuickScan.IdenticalFaithful` | src/pkg_scanner.c:1432-1505 | Where re-parsing was skipped there is, by counting, exactly one entry per listed file, each of equal size and close time |
| `QuickScan.RebuildFaithful` | src/pkg_scanner.c:1553-1632 | A rebuild leaves one entry for every listed file that may keep one or can be read, none for any other, other sources keeping content, with the hashes set meanwhile, and order |
| `QuickScan.QuickIsFull` | src/pkg_scanner.c:1340-1666 | On either branch: exactly one entry per listed file with a close old match or a readable package, no entry outside the listing, every entry kept or read, other sources' entries unchanged in content, but for hashes set meanwhile, and order |
| `QuickScan.HashesLost` | src/pkg_scanner.c:1553-1632 | The source's own entries after a rebuild are the copies made before and the files read, without the hashes set meanwhile |
| `QuickScan.HashKeptExactly` | src/pkg_scanner.c:1553-1632 | Hashes set while files are parsed show on the source's entries as if they had been set before, if and only if they change no entry that a listed file keeps |
| `QuickScan.HashGone` | src/pkg_scanner.c:1553-1632 | A concrete catalogue of one entry, a listing of its file and another, and a hash set meanwhile that the scan loses |
| `QuickScan.ProvisionalKeeps` | src/pkg_scanner.c:1607-1625 | In a provisional scan every old entry that is not listed survives, in order |
| `QuickScan.AgreesWithFullScan` | src/pkg_scanner.c:1553-1605 | If sizes and times tell files apart, the entries are those a full scan would make, apart from their times |
| `QuickScan.ScanTwice` | src/pkg_scanner.c:1407-1526 | A second scan of the same readable files takes the fast path and changes neither packages nor records |
| `LegacyCss.RgbMatches` | tools/fix_legacy_css.py:64 | The rgb pattern accepts exactly three groups of one to three digits with white space between, and takes exactly those groups |
| `LegacyCss.HslMatches` | tools/fix_legacy_css.py:76-79 | The hsl pattern accepts exactly an angle with optional unit, a percentage, and a number or percentage, separated by white space |
| `LegacyCss.MatchParen` | tools/fix_legacy_css.py:36-48 | The depth loop finds the matching parenthesis, or -1 exactly when there is none |
| `LegacyCss.FixCss` | tools/fix_legacy_css.py:20-94 | Output and count of the program are those of the piecewise specification, for every text; the characters that come out are stated by the lemmas of `ColourCalls` |
| `ColourCalls.TakenExactly` | tools/fix_legacy_css.py:57-89 | For all arguments: a call is rewritten if and only if they are three channels with white space between, a slash and an alpha, white space anywhere around; then the channels come out in order with commas, and the alpha behind them, the name with an a, if and only if it is a number or percentage |
| `ColourCalls.SlashBecomesComma` | tools/fix_legacy_css.py:20-94 | The output for any text whose first call has that shape, as a concatenation, the rest being treated by itself, and the count |
| `ColourCalls.OthersStay` | tools/fix_legacy_css.py:20-94 | Any other closed call stays as it is, character for character |
| `ColourCalls.OpenCallStays` | tools/fix_legacy_css.py:36-53 | A call that is never closed is passed over, and what follows its parenthesis is treated by itself |
| `ColourCalls.NoCalls` | tools/fix_legacy_css.py:20-94 | A text in which no call starts stays as it is, and counts 0 |
| `ColourCalls.ModernCall` | tools/fix_legacy_css.py:64-73 | For all digits and numbers: the call with single blanks comes out with commas |
| `ColourCalls.HalfBlue` | tools/fix_legacy_css.py:4-14 | The example rgb(59 130 246 / .5) comes out as rgba(59,130,246,.5) |
| `LegacyCss.NothingElseChanges` | tools/fix_legacy_css.py:20-94 | The pieces come from all of the text in order, so everything outside rewritten calls is unchanged |
| `LegacyCss.RewrittenIs` | tools/fix_legacy_css.py:57-89 | A rewritten call has the old name, or that and an a, and neither slash nor parenthesis inside |
| `LegacyCss.FixedAlike` | tools/fix_legacy_css.py:36-53 | At any depth, output and input leave the same parentheses open, so matches are found at corresponding places, also after unbalanced calls |
| `LegacyCss.Idempotent` | tools/fix_legacy_css.py:14-94 | On every text a second run changes nothing and counts 0 |
| `Decimal.PrintRead` | src/pkg_cache.c:437-470 | Printed numbers are read back by strtoull and atoi, within their ranges |
| `JsonText.EscapeJson` | src/pkg_cache.c:269-290 | The escape loop never overruns its buffer, writes all of the text when the buffer holds two characters for each of its own, and otherwise stops at the first character for which two places may be missing |
| `RecordTexts.EscapedChar` | src/pkg_cache.c:269-290 | What each character of a text becomes, wherever it stands |
| `RecordTexts.ValueOf` | src/pkg_cache.c:292-319 | The value is what follows the first place of the key with its colon and any blanks, quoted or not |
| `RecordTexts.InQuotes` | src/pkg_cache.c:302-311 | In quotes a backslash stands for the next character, and the other quote ends the value |
| `RecordTexts.Unquoted` | src/pkg_cache.c:312-318 | Without quotes a comma, a brace, a line break or a space ends the value, or the buffer does |
| `RecordTexts.NoValue` | src/pkg_cache.c:292-297 | A key that stands nowhere with its colon has no value |
| `JsonText.ExtractField` | src/pkg_cache.c:292-319 | The extraction loops return the value after the first occurrence of the quoted key, unescaped or cut at its end, and fit the buffer |
| `JsonText.EscapeSurvives` | src/pkg_cache.c:269-319 | A text that fits its buffer is read back from its escaped form, whatever follows, if and only if it has no character below 32 |
| `JsonText.NewlineLost` | src/pkg_cache.c:276-278 | An escaped line break is read back as the letter n |
| `JsonText.NoKeyInLine` | src/pkg_cache.c:292-297 | The pattern of a key occurs nowhere in a line with another key, whatever its value contains |
| `JsonText.FieldFound` | src/pkg_cache.c:292-319 | Each field of a record is found under its key at its real place, whatever its own and the other values contain: a quoted text comes back with its control characters changed or dropped, any other value as it was |
| `MetaRecord.WriteMeta` | src/pkg_cache.c:482-544 | The record printed through the escape buffers is the specified text; no buffer truncates a field |
| `RecordTexts.MetaText` | src/pkg_cache.c:502-532 | The record's text, line by line, each key with its own field |
| `RecordTexts.FoundExactly` | src/pkg_cache.c:409-477 | A record is found unless its text is empty or of 8191 characters or more, or it names no package |
| `RecordTexts.MissingFields` | src/pkg_cache.c:435-470 | What a record says of sizes, offsets, parts, type, time and flags whose keys are missing |
| `RecordTexts.NumbersRead` | src/pkg_cache.c:435-470 | Numbers are those of their digits; of the three narrow ones 32 bits are kept |
| `RecordTexts.FlagsRead` | src/pkg_cache.c:450-475 | A flag is set by the word true or the digit 1 alone, and the icon's by its file as well |
| `MetaRecord.LookupMeta` | src/pkg_cache.c:400-480 | The lookup of the 19 fields gives the specified record, or nothing for an oversized, empty or stale one |
| `MetaRecord.RecordShort` | src/pkg_cache.c:409-418 | A record always fits the reader's buffer |
| `MetaRecord.RoundTrip` | src/pkg_cache.c:400-544 | Looking up a written record returns every stored number and flag and every text as shown, the total size filled in, unless it is the stale kind that is rejected; the texts are the stored ones if and only if they have no control characters |
| `Settings.Store.Save` | src/pkg_cache.c:143-205 | The file's text is the specified one for all flags and shares |
| `RecordTexts.SettingsText` | src/pkg_cache.c:151-197 | The settings' text, line by line, each key with its own field, for any number of shares |
| `RecordTexts.FlagsLoaded` | src/pkg_cache.c:101-135 | Missing flags keep their value; two of the others are cleared by the word false alone and two set by the word true alone |
| `RecordTexts.ShareRead` | src/pkg_cache.c:371-386 | A share's flags are set by true or 1, enabled also if it is missing; a port that is not positive is 445 |
| `RecordTexts.MissingShareFields` | src/pkg_cache.c:353-386 | What a share is whose object lacks a key |
| `RecordTexts.OneShare` | src/pkg_cache.c:388-393 | A share that is saved alone is loaded if and only if it names a server and a share, or a server with a slash or a backslash; a missing id becomes smb0, a missing port 445 |
| `RecordTexts.SharesLoaded` | src/pkg_cache.c:321-398 | No text gives more than eight shares, nor one without a server or an id |
| `Settings.FindClose` | src/pkg_cache.c:334-347 | The string-aware scan finds where an object is closed, or fails at a bracket or the end |
| `Settings.Store.Parse` | src/pkg_cache.c:321-398 | The in-place parser fills the array with exactly the shares of the specification |
| `Settings.Store.Load` | src/pkg_cache.c:83-139 | Flags and shares after loading are those of the specification; missing flags keep their value |
| `Settings.ObjectCloses` | src/pkg_cache.c:334-347 | A saved share's object ends at its last character, whatever quotes, backslashes, braces or brackets its texts contain |
| `Settings.SavedCap` | src/pkg_cache.c:92-94 | Eight shares of full length still fit the reader's buffer |
| `Settings.RoundTrip` | src/pkg_cache.c:83-205 | For every list of up to eight shares: loading what was saved gives the flags and each share that still names a server, in order; it is the identity if and only if each share has an id, a server with a share, a positive port and no control characters |
| `PkgParsers.ExtractLocal` | src/pkg_parser.c:42-86 | Searching a buffer that goes on behind the JSON text, without a NUL between, finds exactly what searching the cut-off text finds |
| `PkgParsers.ExtractKey` | src/pkg_parser.c:42-86 | The search loop returns the value of the first occurrence whose value is a string |
| `PkgParsers.ParseSfo` | src/pkg_parser.c:589-660 | The entry loop returns the first category that is not empty, within the checked bounds |
| `PkgParsers.ParseFile` | src/pkg_parser.c:768-1092 | The file reader's result is its specification by complete reads at offsets; which kind it reports, exactly, is stated by `PackageKind.FileKind` and `PackageKind.PartKind` |
| `PkgParsers.ParseMem` | src/pkg_parser.c:1144-1473 | The buffer reader's result is its specification by slices; which kind it reports, exactly, is stated by `PackageKind.MemKind` and `PackageKind.PartKind` |
| `PackageKind.KindExactly` | src/pkg_parser.c:1063-1087 | For all entries: exactly when they make a package an update, an add-on or a base package, in terms of the patch marks, the first category that is not empty and whether a parameter file gave it, the container's type and the application metadata |
| `PackageKind.FileKind` | src/pkg_parser.c:893-1087 | The file reader reports that kind for the entries of the file's table |
| `PackageKind.MemKind` | src/pkg_parser.c:1268-1458 | So does the buffer reader for those of the buffer's |
| `EntryTexts.ReadExactly` | src/pkg_parser.c:892-942 | A file whose container is found is read if and only if its header lies in it and gives between 1 and 2048 entries that do as well |
| `EntryTexts.NamesAre` | src/pkg_parser.c:944-981 | Both readers take the names from where the first entry of type 0x0200 says, if there are fewer than 65536 octets of them and they are there |
| `EntryTexts.ValueTaken` | src/pkg_parser.c:42-86 | For any JSON text: the value in quotes behind the first place of the key, a colon and white space; where the value is of another kind, the search goes on behind the key |
| `EntryTexts.QuotedIs` | src/pkg_parser.c:64-77 | A quoted value ends at the next quote or with the text, a backslash stands for the octet after it, and what exceeds the buffer is dropped |
| `EntryTexts.NoKey` | src/pkg_parser.c:49-53 | Without the key there is no value |
| `EntryTexts.CategoryIs` | src/pkg_parser.c:589-660 | A parameter file's category, octet by octet: the data of the first row whose key is CATEGORY and whose data are not empty, at the place and of the size the row gives, cut to 15 octets |
| `PackageKind.PartKind` | src/pkg_parser.c:794-809 | Which kind the text in a part's header stands for, exactly |
| `PackageKind.ContainerPlace` | src/pkg_parser.c:856-885 | Where the container is found, or that there is none |
| `PackageKind.IdPrinted` | src/pkg_parser.c:907-915 | The content id is the longest printable beginning of its field |
| `PackageKind.LettersDecide` | src/pkg_parser.c:589-1087 | For any two letters in a parameter file and container type 0 or 1, a complete file of that category and the kind both readers report |
| `PackageKind.AddOn` | src/pkg_parser.c:1068-1070 | A complete file of category ac, which both readers report as an add-on |
| `PackageKind.OlderBase` | src/pkg_parser.c:1071-1074 | One of type 1 and category gd, reported as a base package |
| `PackageKind.OlderAddOn` | src/pkg_parser.c:1075-1078 | One of type 1 and a category that says nothing, reported as an add-on |
| `PackageKind.GpUpdate` | src/pkg_parser.c:1065-1067 | One whose description says gp, reported as an update |
| `PkgParsers.SameScan` | src/pkg_parser.c:871-885 | Both scans of the header window find the same container |
| `PkgParsers.NamesDiffer` | src/pkg_parser.c:1336-1346 | An entry name compares alike in both readers if and only if it ends in the name table, or the data or a NUL follows the table, or neither the name nor the name with the next byte is one that is looked for |
| `PkgParsers.ReadersAgree` | src/pkg_parser.c:739-1473 | Given the whole file, and entry names that are read alike in this sense, both readers agree on success, content id, multipart fields and package type |
| `PkgParsers.EndedTable` | src/pkg_parser.c:1336-1346 | A name table that ends in a NUL meets that condition for all names |
| `PkgParsers.OverrunDiffers` | src/pkg_parser.c:1336-1351 | A concrete file of 181 bytes, an update to the file reader and a base package to the buffer reader, its only name running into the byte behind the table |
| `InstallControl.Installer.CheckStart` | src/installer.c:2143-2160 | The verdict of the fast check is the one the commit would give at once, and a user start that may proceed leaves nothing queued for a worker to take along |
| `InstallControl.Installer.TakePrevious` | src/installer.c:2162-2181 | A worker is taken over at most once, and nobody joins itself |
| `InstallControl.Installer.CommitStart` | src/installer.c:2250-2333 | A start that does not proceed changes nothing; after one that does, every other user start is refused and a detach reports exactly whether this start queued an update |
| `InstallControl.Installer.CaptureNext` | src/installer.c:2030-2045 | A queued package is taken along at most once, and only if its handover would pass the check |
| `InstallControl.Installer.CompleteInstall` | src/installer.c:1628-1646 | Unless detached, the status stays installing exactly if the worker will then find an update to take along |
| `InstallControl.Installer.FailInstall` | src/installer.c:1409-1418 | A worker that fails leaves the status failed and not installing; where it drops the queued package no worker takes it along |
| `InstallControl.Installer.DetachDirect` | src/installer.c:2549-2580 | After a detach no worker finds anything to take along, no handover passes its check or commits, and any user start may |
| `InstallControl.Installer.CancelInstall` | src/installer.c:2522-2547 | After canceling a streamed install no worker finds anything to take along, and any user start passes its check and commits |
| `InstallControl.RefusalKeepsQueue` | src/installer.c:2066-2081 | A start that gives up before its commit changes nothing, and a handover that does marks the status as failed and leaves what is queued |
| `InstallControl.NothingAfterStop` | src/installer.c:2701-2706 | In every run after a shutdown, whatever is started later, no worker takes a queued package along |
| `InstallControl.EveryRun` | src/installer.c:2132-2333 | In every interleaving: no user start commits while an install is active, no queued update commits between a detach and the next committed start, and a detach reports a skipped update exactly when the latest commit was a batch start |
| `InstallControl.HandoverExact` | src/installer.c:2252-2261 | A handover keeps the flag right if and only if its update is the current batch's or no update is outstanding |
| `InstallControl.ReportExactly` | src/installer.c:2030-2580 | In every interleaving: the flag a detach reports says at every moment of a run whether the current batch's update is still to be committed, if and only if every handover that commits brings the current batch's update or none is outstanding |
| `InstallControl.OrderlyHandsRight` | src/installer.c:2132-2333 | In every run in which no start commits while a finished worker is handing over, every handover meets that condition |
| `InstallControl.OneWorker` | src/installer.c:2162-2181 | In every interleaving: each worker has returned before the next one commits if and only if at every commit nobody else is on the way from taking over a live worker to committing |
| `InstallControl.SerialAllClear` | src/installer.c:2132-2333 | That condition holds in every run in which starts and handovers do not overlap |
| `InstallControl.MisledRun` | src/installer.c:2252-2268 | A concrete run of two batches, a handover and a detach that loses the second batch's update and its flag, with two workers alive |
| `InstallControl.FromTheStart` | src/installer.c:2030-2580 | From the initial state all run properties hold together: the lawful log, the exact condition for the report and the one for one worker at a time |
| `StreamAccounting.Account.NotifyStreamed` | src/installer.c:658-672 | The downloaded count stays at or below the served one, after this call, if and only if the served count does not wrap alone or the total, once served, holds the other down; what is counted was sent |
| `StreamAccounting.CountsBegin` | src/installer.c:1221-1239 | What begins a transfer sets its counts to zero and leaves nothing playable, for commits, streamed and direct preparations, fallbacks and direct turns |
| `StreamAccounting.Account.AdoptReported` | src/installer.c:1584-1600 | A report raises a count to at most what was served, to all of it if the report is that high, and never lowers one |
| `StreamAccounting.Account.Watch` | src/installer.c:1584-1612 | A turn of a worker's loop is a look at the counters, the adoption of the system's report and the check; it keeps every count at or below what was sent, and the downloaded count at or below the served one |
| `StreamAccounting.Account.Complete` | src/installer.c:1616-1651 | A worker that finishes leaves the status earned, nothing counted or called playable that was not sent, if and only if it found its transfer done since the counters were last reset or as many bytes are sent as the package has; and the downloaded count at or below the served one if and only if it found that since the last wrap too, or the total is served |
| `StreamAccounting.BelowExactly` | src/installer.c:658-1841 | In every run of any number of workers, wrapping or not, the downloaded count of a streamed install never passes the served one if and only if every served chunk keeps the two in order and every worker that finishes found its transfer done since the counters were last reset and the served one last wrapped, or finds the total served |
| `StreamAccounting.NeverAhead` | src/installer.c:658-1841 | In every run in which only the worker started last does anything and the served count does not wrap, the downloaded count of a streamed install never passes the served one |
| `StreamAccounting.PlayableExactly` | src/installer.c:1204-1841 | In every run of any number of workers: as long as the install is streamed no more is counted than was sent, and it is playable only after as many bytes as it has, more than none, were sent, if and only if every worker that finishes found its transfer done since the counters were last reset, or finds that many sent |
| `StreamAccounting.NeverTooMuch` | src/installer.c:1584-1841 | In every run in which only the worker started last does anything, whatever the system reports and however the counters wrap: as long as the install is streamed no more is counted than was sent, and it is playable only after as many bytes as it has, more than none, were sent |
| `StreamAccounting.LateBreaks` | src/installer.c:1616-1651 | A concrete run without any wrap in which a worker finishes after another package was committed: that one is called playable before any of its seven bytes was sent, and counts seven bytes downloaded and none served |
| `StreamAccounting.WrapBreaks` | src/installer.c:661-662 | A concrete run from the beginning, a package of one byte and two to the 64 bytes served, after which one byte is counted as downloaded and none as served |
| `InstallStream.AlwaysAgree` | src/installer.c:658-2580 | In every run of the sections that start installs and those that count bytes, shared sections taken by both at once, the two mean the same by installing, direct and detached |
| `InstallStream.ClearEarns` | src/installer.c:2030-2333 | In every interleaving of the critical sections that start installs and count bytes, in which each worker has returned before the next one commits, nothing is counted or called playable before it was sent |
| `InstallStream.ClearStaysBelow` | src/installer.c:658-2333 | In the same interleavings, as long as the served count does not wrap, the downloaded count never passes the served one |
| `InstallStream.PlayableTooEarly` | src/installer.c:1616-2333 | A concrete interleaving of both from the beginning, of two batches, a detach and a late handover, that ends with a streamed package called playable, all of its bytes counted, before any was sent |
| `HelperProtocol.Transfer` | src/install_ipc.c:14-50 | The bytes moved are the least of those asked for, those the other end has and those the events deliver before one of them ends the transfer; it succeeds exactly when all moved, and otherwise reports what ended it |
| `HelperProtocol.Serve` | src/install_helper.c:86-190 | For every sequence of requests, native results and failed sends: requests are answered in order up to the first at which the helper must stop and no further; InstallByPackage is called if and only if the first handled request to install or to register a shortcut is one to install, and RegisterShortcut if and only if it is the other; there is one GetStatus for each handled status request after an install that succeeded, and CLOSE leads to Terminate; the calls stand in the order of their requests, there are no others but Initialize at the start and Terminate at the end, which is called exactly once if Initialize succeeded; each reply carries its call's result, or that nothing is available where its request led to none |
| `HelperProtocol.OneUse` | src/install_helper.c:146-168 | From the place of each request's call: an install is among the calls if and only if the first request to use the helper asks for it, and so for shortcuts |
| `HelperProtocol.AnsweredLeads` | src/install_helper.c:117-176 | After any number of answered requests the calls that each of them leads to stand in its place, with the result that is replied, each being what the system gives at that time |
| `HelperProtocol.RequestAccepted` | src/install_helper.c:122-130 | A request with its words and five terminated texts in the wire's layout is accepted, with the operation it names |
| `HelperProtocol.EndedBy` | src/install_ipc.c:14-50 | Which event ends a transfer and what it then reports |
| `HelperProtocol.ReplyBack` | src/install_service.c:27-40 | The client decodes exactly the reply the helper encoded |
| `HelperProtocol.StreamFull` | src/install_helper.c:117-176 | The helper never sends more than one reply per request, and a full stream has an answer to each |
| `HelperProtocol.ReplyAt` | src/install_helper.c:117-176 | In the helper's bytes the reply at place n+1 is its answer to request n |
| `HelperProtocol.IncomingGrows` | src/install_helper.c:117-176 | More requests only append to the helper's bytes |
| `HelperProtocol.Session.ReceiveReply` | src/install_service.c:15-45 | A reply is accepted exactly when it is complete, well formed, of the right kind and from the right process; otherwise the session becomes unusable and the error names what failed |
| `HelperProtocol.Session.Exchange` | src/install_service.c:47-61 | On a usable session the client gets a reply exactly when both transfers complete and the helper answers, and then it is the helper's answer to that very request; a failed exchange makes the session unusable for good; on any session a reply is the next message that came in, if it is of the right kind and sender |
| `HelperProtocol.Session.Start` | src/install_service.c:178-204 | Success if and only if there was no helper before, a new one started and initialized, all three transfers completed, the request is well formed and the system's install call returned 0; the helper's calls are then exactly the initialization and that installation |
| `HelperProtocol.Session.QueryStatus` | src/install_service.c:206-212 | On a usable session the result is the helper's own answer to this status request, and there is one exactly when both transfers complete and the helper answers; where a package was installed it is the result of one more GetStatus, and otherwise that nothing is available |
| `HelperProtocol.StreamNext` | src/install_helper.c:117-176 | One more request adds one whole reply to the helper's bytes, or nothing |
| `HelperProtocol.Session.Close` | src/install_service.c:121-137 | CLOSE is sent exactly if every exchange before succeeded |
| `WsFrames.XorTwice` | frontend/mock-server.js:1271 | Masking twice is the identity (section 5.3 of RFC 6455) |
| `WsFrames.Decoder.Data` | frontend/mock-server.js:1254-1291 | One data event leaves the state of the specification: frames, fragments and the buffered rest |
| `WsMessages.MessageArrives` | frontend/mock-server.js:1254-1291 | A text message of any number of masked frames of any length form is there in full, its parts in order, however the stream is divided |
| `WsMessages.PutTogether` | frontend/mock-server.js:1276-1282 | A text message is put together from its parts in order and replaces the one before |
| `WsMessages.ControlFrames` | frontend/mock-server.js:1274-1275 | Pings and pongs change nothing but the list of frames |
| `WsMessages.BinaryFrames` | frontend/mock-server.js:1276-1277 | Binary frames and their continuations leave the text alone |
| `WsMessages.Ending` | frontend/mock-server.js:1273-1278 | A close frame, and the continuation of a text that is over, end the connection, and nothing else does |
| `WsMessages.Hello` | frontend/mock-server.js:1254-1291 | The masked message of section 5.7 of RFC 6455, octet for octet |
| `WsMessages.LongForms` | frontend/mock-server.js:1259-1265 | The two longer forms of a length |
| `WsFrames.FrameBack` | frontend/mock-server.js:1256-1272 | A masked frame of any length form is decoded to its opcode, fin bit and payload, whatever follows (section 5.2 of RFC 6455) |
| `WsFrames.DrainTwice` | frontend/mock-server.js:1254-1291 | Decoding a piece and then the rest is decoding both at once |
| `WsFrames.CutIndependent` | frontend/mock-server.js:1254-1291 | Every division of a stream ends in the same state if and only if no close frame or stray text continuation in it is followed by another complete frame |
| `WsFrames.CutAfterClose` | frontend/mock-server.js:1273 | A close frame and a ping in one event decode to one frame, in two events to two |
| `WsFrames.DecodesAll` | frontend/mock-server.js:1254-1291 | From any division of a stream of masked frames exactly these frames are decoded, an incomplete last one staying in the buffer |
| `Version.NormalizeVersion` | src/app_info.c:53-86 | The branches and the truncation are those of the specification; what is printed, if it fits, parses to the same numbers if and only if the version is more than prefix |
| `Version.ParseParts` | src/app_info.c:88-116 | The part parser's branches are those of the specification |
| `VersionTexts.ParsedNumbers` | src/app_info.c:88-116 | For all numbers: what texts of one, two and three of them parse to, a third one moving up behind a zero |
| `VersionTexts.PrefixIgnored` | src/app_info.c:92-94 | A leading v, large or small, or white space does not count |
| `VersionTexts.LaterTwo` | src/app_info.c:118-127 | For all numbers: which of two versions of two numbers is the later one |
| `VersionTexts.LaterThree` | src/app_info.c:118-127 | The same for three numbers |
| `VersionTexts.SameVersion` | src/app_info.c:88-127 | A third number behind a zero is the second of the other form |
| `VersionTexts.ShownThreeNumbers` | src/app_info.c:53-86 | The normalised text of any three numbers |
| `VersionTexts.ShownTwoNumbers` | src/app_info.c:53-86 | That of any two |
| `VersionTexts.ShownOneNumber` | src/app_info.c:53-86 | That of any one |
| `Version.NormalizeKeeps` | src/app_info.c:53-116 | Normalising keeps the parsed numbers of a version if and only if it is not nothing but prefix |
| `Version.PrefixBecomesOne` | src/app_info.c:57-62 | The version "v" parses to 0.0.0 and is normalised to one that parses to 1.0.0 |
| `Version.OrderKept` | src/app_info.c:53-127 | Normalising either or both of two versions changes no comparison |
| `Version.TotalPreorder` | src/app_info.c:118-127 | The comparison is a total preorder, and for unsigned components its differences fit an int |
| `IconBox.BoxesTile` | src/icon_blurhash.c:220-240 | Boxes are not empty, end with the picture, and every position lies in one |
| `IconBox.OneBox` | src/icon_blurhash.c:234-237 | Only one box holds a position |
| `IconBox.SmallSides` | src/icon_blurhash.c:220-224 | For all sizes up to 2048 both sides of the small picture are between 1 and 128 |
| `IconBox.AllCounted` | src/icon_blurhash.c:229-252 | Added up over all boxes, every pixel's value is counted exactly once |
| `IconBox.ChannelBetween` | src/icon_blurhash.c:248-251 | Every channel of the small picture lies between the least and the greatest blended value of its box |
| `IconBox.Downscale` | src/icon_blurhash.c:217-255 | Every octet of the output array is the rounded average of its box; which colours come out is stated by the lemmas of `IconColours` |
| `IconColours.LeastStep` | src/icon_blurhash.c:217-224 | The step is the least at which neither side is above 128 |
| `IconColours.OpaqueBetween` | src/icon_blurhash.c:229-252 | Where the picture is opaque, each channel of the output lies between the extremes of that channel in its box |
| `IconColours.TransparentBackdrop` | src/icon_blurhash.c:29-33 | Where it is transparent, the output is 20, 21 and 32 |
| `IconColours.MovesToPixel` | src/icon_blurhash.c:243-248 | With more opacity no channel of the output comes nearer to the backdrop |
| `IconColours.NotShrunk` | src/icon_blurhash.c:229-252 | In a picture that is not shrunk every octet is the nearest to the mean of colour and backdrop weighted by the opacity |
| `IconColours.NearestMean` | src/icon_blurhash.c:249-251 | Each octet is the nearest whole number to the mean of its box |
| `IconColours.Alphabet` | src/icon_blurhash.c:35-36 | The 83 digits |
| `IconBox.EncodeBase83` | src/icon_blurhash.c:66-76 | The digits, produced backwards, come out most significant first |
| `IconBox.Base83Back` | src/icon_blurhash.c:66-76 | A number that fits the digits is recovered from them |
| `IconBox.HashBare` | src/icon_blurhash.c:160-194 | A hash has no character the metadata record would have to escape, and fits its field |
| `LogRing.Ring.Log` | src/installer.c:345-395 | An empty message changes nothing; any other adds its stamped, cut line to the history, and the ring again has the last 2048 lines of the history, or all |
| `LogRing.LineIs` | src/installer.c:345-374 | The line of a message: its time in brackets, the message without the breaks at its end, cut to 471 and 511 characters |
| `LogRing.Ring.Clear` | src/installer.c:248-253 | The ring is empty afterwards, and again the end of the history |
| `LogRing.Pushed` | src/installer.c:378-384 | Storing at the head of the ring is appending to the list of lines and keeping the last 2048 |
| `LogRing.RefinesHistory` | src/installer.c:215-253 | Keeping the last 2048 lines at each log and clear keeps the last 2048 lines of the history since the last clear |
| `LogRing.Ring.GetText` | src/installer.c:397-462 | After any sequence of logs and clears: if lines were logged since the last clear the text is exactly the last 2048 of them, or all, each with a newline, in a buffer of exactly that length; otherwise the tail of the file or the fixed text |
| `LogRing.DumpJoin` | src/installer.c:430-462 | A dump is its lines in order; two lists are dumped one behind the other |
| `LogRing.TailIs` | src/installer.c:405-425 | No more than the last 262144 characters of the file are read |

## Left out

- Sockets, polling, threads, SMB, SQLite, notifications, HTTP routing, the user interface and environment lookups.
- Concurrent readers of one virtual stream, and its network and live sources: one local reader is modelled.
- The algorithms of `ws_stream.c`, `ws_upload.c`, `stream_server.c` and `smb_client.c`.
- Deflate, the checksum, PNG decoding and the transform of the placeholder hash: abstract functions or parameters.
- Allocation failures other than the reassembler's buffers, thread creation failures, full disks while settings or
  metadata are written, and the replacement of a file by its temporary copy.
- Paths of 512 characters or more, which the scanner and the installer cut off.
- The full scan, the manifest, sorting by title, the search for a part on drives, and browse-only shares.
- What a binary message of the upload connection does to a segment, and the JSON commands in its text messages.
- The helper's watcher thread and the killing of processes; file descriptors below the byte stream.
- Starting from a live upload, mock installs, storage checks and the texts of status messages.
- VirtualStream.VirtualStream.Open: asks that a staged copy, of whatever package, be a part file that holds a place in
  the package as its header says, and that no other file carry the identifier of the part it is taken for.
- QuickScan.QuickIsFull: asks for a listing without duplicate paths, without later parts and without a file that is
  still unreadable, and for room in the catalogue; the unreadable case is stated by ProvisionalKeeps instead. Both
  listings of the program drop later parts themselves (src/pkg_scanner.c:730-738), so no real listing is lost by that.
- QuickScan.Catalog.MatchFiles: collects the files to be read in a list, where the program marks them in an array.
- PkgParsers.ReadersAgree: says nothing about titles, icons, localised names and the application version, nor about
  entry data beyond the category; a text or name search that would run past the end of the buffer stops there. The
  condition is exact for names only: whether names that differ change the result is left open.
- MetaRecord.RoundTrip: asks for a hash of bare characters, which is what IconBox.HashBare proves of every hash.
- Version.OrderKept: numbers are unbounded in the model; the program's are ints, for which larger components have no
  defined value.
- LogRing.Ring.Log: the time stamp is a parameter, and writing warnings to the log file is not modelled.
