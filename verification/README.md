# ApnaStore release tooling and storefront logic in Dafny

ApnaStore is a browser storefront for merchants and their customers. Its
repository also ships small release tools. This project models the part of
both that is sequential string and integer logic. It proves what that logic
promises: ordering, rollover, round trips and "nothing else changes".

**Release archivers.** Three Python scripts zip the project and keep a
markdown ledger of releases.

- `python/zip_creator_manual.py` keeps one ledger per release tier (Dev,
  Alpha, Beta, Release, Stable). It suggests the next single-digit `X.Y.Z`
  version with rollover. When the major number would pass 9 it moves to the
  next tier.
- `tools/scripts/zipmaker.py` keeps one Dev ledger. It raises the last
  number of the previous version without rollover.
- `makezip.py` keeps a plain numbered log. It accepts any version the
  operator types.

All three scripts do the same things:

- read the ledger backwards for the last entry;
- check the operator's version (the first two scripts);
- walk the project tree, pruning `node_modules` in place;
- append one entry to the ledger.

Modules: `Ledger`, `LastMatch`, `VersionCheck`, `ArchiveWalk`,
`ZipCreatorManual`, `ZipMaker` and `MakeZip`. The prompt, the clock, the
file system and the directory tree are inputs. The tiered archiver's
module-level state (`VERSION_TYPE`, `LOG_MD_NAME` and the ledger files) is
the class `ZipCreatorManual.Archiver`.

**Version bumpers.** Two Node scripts maintain `versions.json`.

- `versioner/bump-version.js` classifies the commit messages since the last
  release. It raises `major.minor.patch`, restarts at `0.0.1` in the next
  environment once a number passes 9, and appends an entry numbered
  `VRN#######`.
- `versioner/versioner.js` decides one commit's bump from its message. It
  raises the patch number with rollover into minor and major. It marks the
  newest release reverted on `revert:`, and otherwise puts the new entry at
  the front of the list.

Modules: `BumpVersion` and `Versioner`. The versions file is the class
`Versioner.VersionsFile`.

**Storefront logic.**

- `RouteValidator`: the route guard (roles, route patterns with `:param`
  segments, per-view role restrictions, parameter rules, sanitising).
- `RouteUrl`: route URL generation and parsing with query strings. It uses
  `Uri`, a model of `encodeURIComponent`/`decodeURIComponent` over UTF-8
  (RFC 3629, section 3).
- `SavedManager` and `CartManager`: the wish list and the cart, both kept in
  local storage. They are classes whose fields are the stored list and the
  change events sent.
- `Cloudinary`: Cloudinary delivery URLs and storage paths.
- `Formatters`: phone, currency-guard and relative-time formatting.
- `ItemValidator`: the item form validator.
- `InvoiceMeta`: the invoice number, date and time editors. It converts
  between the stored `DD/MM/YYYY` and `h:mm AM` forms and the pickers'
  `YYYY-MM-DD` and `HH:MM`.

**Shared helper modules.** `Wrappers` (Option, Result) and `Text` (digits,
search, split/join, strip, pad). `PyStr` holds Python `int()`, `str.title()`
and list comparison. `Js` holds JavaScript `trim`, `parseInt`, `Number()`
and `String()` over a small value type, plus the inherited properties of
plain objects.

**Where the code and the written description differ.** The operational
members (the scans, the `Run` methods, the date field) follow the code in
each case. Where the code is wrong (see Findings), a separate corrected
definition carries the intended property:

- The tiered archiver title-cases the note (`str.title()`). It does not
  just capitalise the first letter.
- The tiered archiver never resets the entry number after a tier change
  (see Findings).
- zipmaker suggests `x.y.10` after `x.y.9`. Its own format check (one
  digit in the last place) rejects that suggestion, so taking the default
  never ends the prompt (`ZipMaker.NineSuggestionRejected`,
  `ZipMaker.DefaultNeverAccepted`).
- zipmaker's ledger is not one of the tiered archiver's ledgers
  (`ZipMaker.LedgerNotShared`).
- The sanitiser removes `javascript:` in a single pass. That pass can
  create a new `javascript:` (`RouteValidator.ProtocolSurvivesRemoval`).
- `formatPhoneNumberWithSpace` is not idempotent
  (`Formatters.FormatPhoneTwice`).
- In the cart, `updateItemQuantity` with a quantity of at most 0 removes
  only the first entry for the id. `removeItemFromCart` removes every
  entry for it.
- The invoice time pattern is not anchored. It finds the leftmost
  `h:mm AM` anywhere in the text.

## Model

| member | source | states |
|---|---|---|
| ZipCreatorManual.Logs | python/zip_creator_manual.py:28 | The ledgers are exactly the listed files whose name starts with the project name and ends in `_Versions.md`. |
| ZipCreatorManual.Latest | python/zip_creator_manual.py:30 | The chosen ledger is one of the ledgers, and no other ledger was modified later. |
| ZipCreatorManual.TierOf | python/zip_creator_manual.py:31 | The tier is the first one whose name occurs in the file name; it is Dev only when no tier name occurs. |
| ZipCreatorManual.Detect | python/zip_creator_manual.py:26-45 | A folder that cannot be listed, or one without a ledger, starts at Dev with the Dev ledger. Otherwise the start is the latest ledger and its tier. |
| ZipCreatorManual.ScanBack | python/zip_creator_manual.py:48-61 | The backward loop returns the fields of the last line that starts with `# D`, has six ` >> ` fields and a readable id. With no such line it returns no entry. |
| ZipCreatorManual.RollIsSuccessor | python/zip_creator_manual.py:73-79 | On single digits the rollover is the successor of the three-digit number `major minor patch`. |
| ZipCreatorManual.Increment | python/zip_creator_manual.py:66-96 | No last version gives `0.0.1` in the same tier. A same-tier suggestion is the rollover of the three numbers after `lstrip('V')` (patch + 1, carried into minor, then major), its major at most 9, with that stripped text as the previous version. The tier changes only to the next tier, and then the suggestion is `0.0.1` with no previous version. Tiers run out only from the last tier. |
| ZipCreatorManual.SuggestsSuccessor | python/zip_creator_manual.py:71-96 | Below `9.9.9` the same-tier suggestion after `Va.b.c` is the next three-digit number, with `a.b.c` as the previous version. |
| ZipCreatorManual.SuggestsNextTier | python/zip_creator_manual.py:81-94 | After `V9.9.9` the suggestion is `0.0.1` in the next tier with no previous version, or the tiers are used up in the last tier. |
| ZipCreatorManual.ProposeStable | python/zip_creator_manual.py:99-101 | Asking again with the previous version handed back offers the same suggestion in the same tier. |
| ZipCreatorManual.SuggestionAccepted | python/zip_creator_manual.py:66-116 | The suggestion made from a single-digit previous version passes the format, leading-zero and newer-than checks. |
| ZipCreatorManual.SessionAccepted | python/zip_creator_manual.py:99-116 | A version the prompt returns is well formed, has no leading zero, and is newer than the previous version offered. |
| ZipCreatorManual.Note | python/zip_creator_manual.py:122-123 | An empty stripped answer gives `No_Note`; any other answer gives its stripped text title-cased. |
| ZipCreatorManual.PromotionAsWritten | python/zip_creator_manual.py:82-91 | After `V9.9.9` the suggestion moves to Alpha. The new, empty Alpha ledger gets an entry numbered after the Dev ledger and no heading. |
| ZipCreatorManual.NumberingCorrected | python/zip_creator_manual.py:163-169 | Numbered from the ledger actually appended to, an empty ledger gets its heading and entry 1, and every append reads back one past the previous id. |
| ZipCreatorManual.Archiver.constructor | python/zip_creator_manual.py:26-45 | The tier and ledger name are those detected from the log folder. |
| ZipCreatorManual.Archiver.AutoIncrement | python/zip_creator_manual.py:66-96 | The step is `Increment` in the current tier. The tier only grows, and a tier change switches the ledger name to that tier's. |
| ZipCreatorManual.Archiver.Offer | python/zip_creator_manual.py:101 | The prompt offers `auto_increment(last)` when there is a last version and `0.0.1` otherwise. |
| ZipCreatorManual.Archiver.GetValidVersion | python/zip_creator_manual.py:99-116 | The retry loop returns the answer `Session` accepts, and leaves the tier where `Session` leaves it; a tier change switches the ledger name to that tier's. |
| ZipCreatorManual.Archiver.Run | python/zip_creator_manual.py:119-170 | One run covers scan, prompt, note, walk and append. As written, the entry is numbered one past the id scanned at start (`NumberingAsWritten`), which is the last id of the ledger appended to when the tier did not change. The ledger changes only after an accepted version, by exactly the heading (when the scanned id is 0), the entry line and `---`. |
| ZipCreatorManual.Archiver.Record | python/zip_creator_manual.py:121-170 | After an accepted version: the note, the walk without `node_modules`, and the current ledger gains exactly the heading (when the scanned id is 0), the entry numbered one past the scanned id, and `---`. The tier and the ledger name stay. |
| Ledger.Appended | python/zip_creator_manual.py:166-170 | The append writes the heading and a blank line only when the last id is 0, then the entry line and `---`. |
| Ledger.FolderLabelReadsBack | python/zip_creator_manual.py:126 | The folder field reads back as `ApnaStore_` followed by the previous version, or by `V0.0.0` when there was none, so the previous version can be recovered from it. |
| Ledger.SafeNote | python/zip_creator_manual.py:127-128 | The note keeps its length. None of ``\/*?:"<>|`` or space survives, and every other character stays in place. |
| Ledger.UnquoteTick | python/zip_creator_manual.py:57-58 | A quotable field written in backticks reads back as itself after `strip().strip("`")`. |
| Ledger.RecoverAt | python/zip_creator_manual.py:51-59 | The scan finds a line that parses when no later line does. |
| Ledger.RecoverNone | python/zip_creator_manual.py:48-61 | With no line that parses, the scan finds no id, version or note. |
| Ledger.RecoveredAbsent | python/zip_creator_manual.py:53-58 | A recovered version or note never contains ` >> `. |
| Ledger.SplitEntryLine | python/zip_creator_manual.py:169 | An entry line splits on ` >> ` into exactly its six fields. |
| Ledger.ParseEntryLine | python/zip_creator_manual.py:52-58 | The scan reads an entry line back as its id and its backticked version and note. |
| Ledger.RecoverAppended | python/zip_creator_manual.py:166-170 | After an append, the scan of the ledger recovers the appended id, version and note. |
| Ledger.NewEntryReadsBack | python/zip_creator_manual.py:162-170 | The entry of a run, numbered one past the last id, is what the next run recovers. |
| LastMatch.LastSomeIsLast | python/zip_creator_manual.py:51-59 | The backward scan finds the last line that parses, and nothing when none does. |
| VersionCheck.ParseAll | tools/scripts/zipmaker.py:50 | `int()` of every part succeeds with one number per part, or some part does not read as a number. |
| VersionCheck.ParseRender | python/zip_creator_manual.py:96-112 | A version written as dotted numbers reads back as those numbers. |
| VersionCheck.Check | python/zip_creator_manual.py:104-116 | The three checks in order. The answer is a bad format iff the pattern fails, and has leading zeros iff a well-formed part does. It is accepted iff it is also newer in list order than the previous version. |
| VersionCheck.AcceptedIsCanonical | python/zip_creator_manual.py:104-108 | An accepted version is the plain rendering of its own numbers. |
| VersionCheck.SingleDigits | python/zip_creator_manual.py:96 | Three single digits render as a well-formed version without leading zeros, whose numbers are those digits. |
| VersionCheck.Bumped | tools/scripts/zipmaker.py:54 | The last number grows by one and the others are kept. |
| VersionCheck.BumpLastValue | tools/scripts/zipmaker.py:47-55 | There is a suggestion exactly when the previous version (leading `V`s dropped) reads. It is then that version with its last number raised by one. |
| ArchiveWalk.Collect | python/zip_creator_manual.py:134-149 | The worklist loop visits exactly the files of the top-down walk with pruned directories, in order. |
| ArchiveWalk.ListDirectory | python/zip_creator_manual.py:135-139 | One directory gives its non-excluded files and its non-excluded subdirectories, in listing order. |
| ArchiveWalk.WalkSound | python/zip_creator_manual.py:134-139 | Every visited file lies in the tree under the root, and no component of its path is excluded. |
| ArchiveWalk.WalkComplete | python/zip_creator_manual.py:134-139 | Every file of the tree whose path has no excluded component is visited. |
| ArchiveWalk.Written | python/zip_creator_manual.py:140-147 | The paths written to the zip are exactly those of the readable visited files. |
| ArchiveWalk.EmptyTreeWalk | tools/scripts/zipmaker.py:117-119 | When the file count is 0 the walk visits nothing. |
| ArchiveWalk.FileCounted | tools/scripts/zipmaker.py:117 | Any file in the tree makes the file count positive. |
| ZipMaker.LedgerNotShared | tools/scripts/zipmaker.py:24 | zipmaker's ledger name is not one the tiered archiver recognises. |
| ZipMaker.ScanBack | tools/scripts/zipmaker.py:28-43 | The backward loop strips each line and returns the fields of the last stripped line that parses. |
| ZipMaker.StrippedAppended | tools/scripts/zipmaker.py:149-153 | The lines zipmaker appends are unchanged by the scan's `strip()`. |
| ZipMaker.LedgerReadsBack | tools/scripts/zipmaker.py:146-153 | The appended entry is what the next scan finds. |
| ZipMaker.SessionOutcome | tools/scripts/zipmaker.py:61-88 | The prompt stops on an unreadable last version exactly. It ends without a version only when the answers run out. A version it returns passes the checks against the previous version. |
| ZipMaker.GetValidVersion | tools/scripts/zipmaker.py:61-88 | The retry loop returns what `Session` returns, and that version passes the checks. |
| ZipMaker.NineSuggestionRejected | tools/scripts/zipmaker.py:54-70 | After `Va.b.9` the suggestion is `a.b.10`, which the format check rejects. |
| ZipMaker.DefaultNeverAccepted | tools/scripts/zipmaker.py:61-88 | After `Va.b.9`, answers that only take the default never end the prompt. |
| ZipMaker.RejectedDefault | tools/scripts/zipmaker.py:61-88 | When the default fails the checks, taking the default every time ends with no version. |
| ZipMaker.NoteShape | tools/scripts/zipmaker.py:97-98 | A blank answer gives `NoNote`. Otherwise the note is the stripped answer with only its first character upper-cased and the rest unchanged. The note is never empty, has no surrounding whitespace, and a note given back as the answer comes back unchanged. |
| ZipMaker.Run | tools/scripts/zipmaker.py:27-153 | One run. The ledger grows only after an accepted version, by the appended lines. The empty-project warning is given exactly when the tree has no file, and then nothing is zipped. |
| MakeZip.ScanBack | makezip.py:21-33 | The backward loop returns the id, the backtick-stripped version and the `strip('*')` note field of the last line with five fields that parses. |
| MakeZip.ReadingsAgree | makezip.py:28-30 | The script's reading of the note and the corrected one find the same line, so the same id and version. Reading the note as written a second time changes nothing. |
| MakeZip.IdBeforeDot | makezip.py:28 | The text before the first `.` of a written line is its id. |
| MakeZip.ParseLogLine | makezip.py:24-31 | A written line parses to its id and its backticked version and note fields. As written it reads back the id, the version and the note in its backticks. The corrected reading gives back the note itself. |
| MakeZip.NoteReadAsWritten | makezip.py:30 | `strip('*')` leaves the backticks on a written note, so the note read back is not the note written. Dropping the backticks gives it back. |
| MakeZip.LogReadsBack | makezip.py:88-90 | After an append the scan, as written, recovers the appended id, the version and the note in backticks. The corrected reading recovers the note itself. |
| MakeZip.FolderNamesLast | makezip.py:62-64 | The folder field is `ApnaStore_<last version>` when there is a last version, and `ApnaStore` otherwise. |
| MakeZip.NextEntryReadsBack | makezip.py:86-90 | As written, the next run recovers id+1, `V` + the version and this run's note in backticks. The corrected reading recovers the note. |
| MakeZip.ArchivedSound | makezip.py:76-84 | The zip loop stops exactly when a visited file cannot be read. The paths written are those of the files before it. |
| MakeZip.ZipAll | makezip.py:76-84 | The zip loop writes what `Archived` says. |
| MakeZip.Run | makezip.py:21-90 | One run. The scan is the script's, with the note read by `strip('*')`. The outcome is the bad-last-version error iff the last version cannot be raised. An unreadable file that stops the zip is one the walk visits. On success the entry is numbered one past the scanned id and the ledger gains exactly its line. |
| BumpVersion.ClassifyBump | versioner/bump-version.js:64-84 | The bump is major iff some message is a breaking change. Without one it is minor iff some message starts with `feat:`. The bump never falls below where it started. |
| BumpVersion.ClassifyCounts | versioner/bump-version.js:72-83 | Without a breaking change each of the four lists grows by the lines of exactly the messages of its kind (`feat:`, `fix:`, `perf:`, other), in the order of the messages. |
| BumpVersion.SectionsPartition | versioner/bump-version.js:72-83 | Every message belongs to exactly one of the four lists. |
| BumpVersion.ClassifyStops | versioner/bump-version.js:67-71 | Messages after the first breaking change are not read. |
| BumpVersion.ClassifyCommits | versioner/bump-version.js:64-84 | The classification loop computes `Classify` of the messages. |
| BumpVersion.RaiseDigits | versioner/bump-version.js:86-104 | On single digits the raise restarts at `0.0.1` exactly when the raised number was 9. Otherwise the three-digit number grows: a major raise zeroes minor and patch, and a minor raise zeroes patch. |
| BumpVersion.PartsOfVersionText | versioner/bump-version.js:46-105 | The next run reads back the version this run writes. |
| BumpVersion.EnvironmentCycle | versioner/bump-version.js:107-118 | A restart moves one step round the cycle of environments, wrapping to `dev`. Without a restart the environment is kept. |
| BumpVersion.UnknownEnvironment | versioner/bump-version.js:111-114 | An environment outside the list restarts at `dev`. |
| Js.ToNumber | versioner/bump-version.js:46 | `Number(text)`: blank text is 0, and text read as an integer is signed decimal digits or a `0x`, `0o` or `0b` literal, which is never negative. |
| Js.HexExample | versioner/bump-version.js:46 | `Number("0x10")` is 16. |
| Js.BinaryExample | versioner/bump-version.js:46 | `Number("0b11")` is 3. |
| Js.SignedHexExample | versioner/bump-version.js:46 | `Number("-0x10")` is NaN: no sign may precede a base prefix. |
| BumpVersion.NextIdOfVersionId | versioner/bump-version.js:120-126 | The id after `VRN` + `n` padded to seven digits is `n + 1`. |
| BumpVersion.NextRelease | versioner/bump-version.js:121-141 | The entry's `breakingChanges` holds iff the bump is major. Its id is 1 for an empty list, else one past the last entry's. |
| BumpVersion.Run | versioner/bump-version.js:40-176 | The new entry is appended after every existing entry and is the latest afterwards. |
| Versioner.FirstId | versioner/versioner.js:13 | The first release gets id prefix + `0000001`. |
| Versioner.IdAfter | versioner/versioner.js:14-16 | After an entry whose id is prefix + `n` padded to seven digits, or which has no id (read as 0), the next id is prefix + `n + 1` padded. |
| Versioner.BumpType | versioner/versioner.js:65-81 | `revert:` means rollback. Otherwise BREAKING CHANGE means major, otherwise a conventional prefix means patch, otherwise the commit is skipped; each case holds iff its condition does. |
| Versioner.PatchIsSuccessor | versioner/versioner.js:29-37 | On a single-digit minor and patch, a non-major raise is the successor of the three-digit number. |
| Versioner.MajorRaise | versioner/versioner.js:24-28 | A major raise gives `(major+1).0.0`. |
| Versioner.OtherSchemeKeeps | versioner/versioner.js:20-41 | Another versioning scheme leaves the version as it is. |
| Versioner.NewEntry | versioner/versioner.js:148-172 | A new entry is pending, not rolled back, and breaking iff the message holds BREAKING CHANGE. |
| Versioner.VersionsFile.Update | versioner/versioner.js:104-179 | A skipped commit, a refused rollback or nothing to roll back leave the list unchanged. A rollback marks only the first entry reverted. A bump puts the new entry at the front and keeps all others. |
| RouteValidator.ValidateRole | source/routing/route-validator.js:106-108 | A role is valid iff it is guest, consumer, merchant or admin. |
| RouteValidator.BasicValidationCases | source/routing/route-validator.js:240-269 | Null, undefined, booleans and numbers pass, and objects fail. A string passes iff it has at most 1000 characters and no listed substring in any case. |
| RouteValidator.ParameterValue | source/routing/route-validator.js:223-233 | Only an inherited property name without a rule throws. An `id`-like rule tests the identifier pattern, and a digit rule tests the digit pattern on the value's text. |
| RouteValidator.MatchIff | source/routing/route-validator.js:140-164 | A pattern matches iff both have equally many segments, and each literal segment is equal while each `:name` segment passes its rule. |
| RouteValidator.MatchRoute | source/routing/route-validator.js:140-164 | The segment loop computes `Match`. |
| RouteValidator.ConfiguredPatternsDefined | source/routing/route-validator.js:16-24 | Matching against any configured pattern never throws. |
| RouteValidator.AnyMatchIff | source/routing/route-validator.js:123-131 | The loop over patterns finds a match iff some pattern matches. |
| RouteValidator.RouteExistsIff | source/routing/route-validator.js:116-132 | For one of the four roles, a route exists iff the view is in its list or matches one of its patterns. An unknown role has none. |
| RouteValidator.CheckRouteExists | source/routing/route-validator.js:116-132 | The lookup loop computes `RouteExists`. |
| RouteValidator.Permissions | source/routing/route-validator.js:172-189 | Only an inherited property name throws. A restricted view is allowed iff the role is in its list, and an unrestricted view is allowed. |
| RouteValidator.RemoveScripts | source/routing/route-validator.js:283 | Removing script elements never lengthens the text. |
| RouteValidator.SanitizeClean | source/routing/route-validator.js:281-285 | A string with no `<script` and no `javascript:` in any case, and no whitespace at either end, is kept as it is. |
| RouteValidator.ProtocolSurvivesRemoval | source/routing/route-validator.js:284 | The single pass that removes `javascript:` turns `javajavascript:script:` into `javascript:`. |
| RouteValidator.SanitizeParams | source/routing/route-validator.js:276-292 | The loop keeps every entry except a `__proto__` one, sanitised, in order: `sanitized[key] =` with the key `__proto__` runs the inherited setter and adds no entry. |
| RouteValidator.SanitizedSound | source/routing/route-validator.js:276-292 | The sanitised parameters are no more than the given ones, none is named `__proto__`, and each is a given entry with its value sanitised. |
| RouteValidator.SanitizedComplete | source/routing/route-validator.js:276-292 | Every given entry not named `__proto__` appears, with its value sanitised. |
| RouteValidator.ValidateParametersIff | source/routing/route-validator.js:197-215 | The parameters are accepted iff every entry not named `__proto__` passes its rule once sanitised. |
| RouteValidator.ProtoParameterAccepted | source/routing/route-validator.js:197-215 | A lone `__proto__` parameter is accepted whatever its value, while the same object value under the name `q` is rejected. |
| RouteValidator.CheckParameters | source/routing/route-validator.js:197-215 | The loop accepts iff every sanitised entry passes its rule. |
| RouteValidator.ValidRouteGuarantees | source/routing/route-validator.js:60-99 | An accepted route has a known role and a view in its list or matching one of its patterns, and a restricted view allows that role. Each digit-rule parameter is digits once sanitised, each unruled string parameter is at most 1000 characters without `<script` or `javascript:` once sanitised, and no parameter name other than `__proto__` is an inherited property without a rule. A `__proto__` parameter is dropped before validation. |
| Uri.Encode | source/routing/route-url-handler.js:164-166 | `encodeURIComponent` writes only unreserved characters and `%XX` escapes. |
| Uri.DecodeEncode | source/routing/route-url-handler.js:164-196 | Decoding the encoding of any text gives back the text. |
| Uri.DecodePlain | source/routing/route-url-handler.js:195 | Text without `%` decodes to itself. |
| Uri.EncodeEmpty | source/routing/route-url-handler.js:166 | The encoding is empty exactly when the text is. |
| RouteUrl.BuildQuery | source/routing/route-url-handler.js:156-177 | The loop joins, with `&`, one `key=encoded value` part per entry that is neither null nor undefined, in entry order. |
| RouteUrl.ParseQuery | source/routing/route-url-handler.js:184-214 | The loop computes `ParseQueryString`: pairs with both a key and a value, decoded, later keys winning, no `__proto__` entry since `params[decodedKey] =` runs the inherited setter for it, and `{}` when a decode throws. |
| RouteUrl.SinglePair | source/routing/route-url-handler.js:184-214 | A query of one plain pair reads back as that one entry, except that the key `__proto__` gives `{}`. |
| RouteUrl.ProtoQueryDropped | source/routing/route-url-handler.js:186-203 | `parseQueryString('__proto__=x')` is `{}`, while `parseQueryString('constructor=x')` holds the entry `constructor`. |
| RouteUrl.ProtoKeyNotCarried | source/routing/route-url-handler.js:156-214 | A `__proto__` entry with a value is written into the query but does not read back. |
| RouteUrl.PairRoundTrip | source/routing/route-url-handler.js:164-197 | One written pair reads back as its key and its value's text. |
| RouteUrl.QueryEmpty | source/routing/route-url-handler.js:161-171 | The query is empty exactly when no entry is written. |
| RouteUrl.QueryRoundTrip | source/routing/route-url-handler.js:156-214 | A query holds no `?`. Parsing it gives each carried key its value's text, later keys winning, and drops null and undefined entries and any `__proto__` entry. |
| RouteUrl.ParseRoutePart | source/routing/route-url-handler.js:119-149 | SEO names map to merchant dashboard views. A single segment that is neither an SEO name nor an inherited property falls back to guest, with `home` for the empty text. |
| RouteUrl.RoutePartRoundTrip | source/routing/route-url-handler.js:136-142 | `role/viewId` with a slash-free role, not an SEO name, reads back as that role and view. |
| RouteUrl.GenerateUrl | source/routing/route-url-handler.js:49-78 | The corrected URL always starts with `role/viewId`. |
| RouteUrl.DashboardUrlLosesRole | source/routing/route-url-handler.js:55-61 | As written, a merchant `dashboard/…` view gives the URL `dashboard/…`, which reads back with role `dashboard`. |
| RouteUrl.GeneratedAsWrittenElsewhere | source/routing/route-url-handler.js:55-69 | Outside the merchant dashboard case the URL as written is the corrected one, and it parses back, less any `__proto__` parameter. |
| RouteUrl.GeneratedUrlNotParsed | source/routing/route-manager.js:55-93 | The URL `generateUrl` writes into the location hash has no leading `/`, so `parseUrl` of the hash, as the back/forward handler does it, gives `null`. |
| RouteUrl.ParseUrl | source/routing/route-url-handler.js:85-112 | The result is null exactly when the text does not start with `/`. |
| RouteUrl.UrlRoundTrip | source/routing/route-url-handler.js:49-112 | A generated URL, behind a leading `/`, parses back to its role, its view and the carried parameters, less any `__proto__` entry. |
| RouteUrl.GetFullUrl | source/routing/route-url-handler.js:253-256 | The full URL is the base, one `#` and the hash. It adds the `#` exactly when the hash lacks one. |
| SavedManager.UnsavedSpec | source/utils/saved-manager.js:57 | The filter drops exactly the entries with the id. It shortens the list iff the id was saved, and keeps the list otherwise. |
| SavedManager.FindIndex | source/utils/saved-manager.js:88 | The first entry with the id, or none iff no entry has it. |
| SavedManager.FieldUpdateOnlyFirst | source/utils/saved-manager.js:84-113 | A note or date update sets that field on the first entry with the id and changes no other entry or field. |
| SavedManager.ToggleTwice | source/utils/saved-manager.js:69-77 | Toggling an unsaved id saves it, and toggling again gives back the list it started from. |
| SavedManager.SavedList.constructor | source/utils/saved-manager.js:9-18 | The list starts as what local storage holds, with no events sent. |
| SavedManager.SavedList.Save | source/utils/saved-manager.js:24-39 | The stored list becomes the given list, and exactly one change event is sent. |
| SavedManager.SavedList.GetSavedItems | source/utils/saved-manager.js:9-18 | Anything but a stored array reads as no entries. |
| SavedManager.SavedList.IsItemSaved | source/utils/saved-manager.js:46-49 | The loop answers yes iff some stored entry has the id. |
| SavedManager.SavedList.UnsaveItem | source/utils/saved-manager.js:55-63 | Every entry with the id goes, with one write and one event, and only if the id was saved. |
| SavedManager.SavedList.ToggleSavedItem | source/utils/saved-manager.js:69-77 | A saved id is removed. Any other id is appended as `{itemId, note: ''}`, with one write. |
| SavedManager.SavedList.UpdateSavedItemNote | source/utils/saved-manager.js:84-95 | The first entry with the id gets the note. A missing id changes nothing. |
| SavedManager.SavedList.UpdateSavedItemDate | source/utils/saved-manager.js:102-113 | The first entry with the id gets the date. A missing id changes nothing. |
| CartManager.FindIndex | source/utils/cart-manager.js:70 | The first entry with the id, or none iff no entry has it. |
| CartManager.AddedSpec | source/utils/cart-manager.js:68-80 | An id already in the cart keeps the length and raises only its first entry's quantity. A new id adds one entry at the end. |
| CartManager.RemovedSpec | source/utils/cart-manager.js:92-95 | The filter drops exactly the entries for the id, and shortens the cart iff the id is in it. |
| CartManager.ToggleTwice | source/utils/cart-manager.js:146-154 | Adding an absent item and toggling it again gives back the cart. |
| CartManager.WithQuantitySpec | source/utils/cart-manager.js:114-129 | A positive quantity sets only the first entry's quantity. Any other quantity drops that one entry and keeps the rest in order. |
| CartManager.Cart.constructor | source/utils/cart-manager.js:15-24 | The cart starts as what local storage holds, with no writes. |
| CartManager.Cart.Save | source/utils/cart-manager.js:30-41 | The stored cart becomes the given list, with one write. |
| CartManager.Cart.IsItemInCart | source/utils/cart-manager.js:48-54 | The loop answers yes iff some entry has the id. |
| CartManager.Cart.AddItemToCart | source/utils/cart-manager.js:61-84 | An item without an id changes nothing. Otherwise the cart becomes `Added(...)` with one write. |
| CartManager.Cart.RemoveItemFromCart | source/utils/cart-manager.js:90-103 | Every entry for the id goes, with a write only if something went. |
| CartManager.Cart.UpdateItemQuantity | source/utils/cart-manager.js:111-130 | A missing id changes nothing. Otherwise the cart becomes `WithQuantity(...)` with one write. |
| CartManager.Cart.ClearCart | source/utils/cart-manager.js:135-139 | The cart is empty, with one write. |
| CartManager.Cart.ToggleCartItem | source/utils/cart-manager.js:146-154 | An item in the cart is removed. Any other valid item is added once. |
| Cloudinary.ShortKey | source/api/cloudinary.js:120-124 | A key other than the five shortened ones and the inherited names is kept as it is. |
| Cloudinary.TransformationsEmpty | source/api/cloudinary.js:119-126 | The transformation segment is empty exactly when there are no options. |
| Cloudinary.TransformationsSplit | source/api/cloudinary.js:119-126 | Without commas in keys or values, the segment splits back into one `short_value` token per option, in order. |
| Cloudinary.UrlShape | source/api/cloudinary.js:100-139 | A missing cloud name or public id gives the default image. Otherwise the URL is host/cloud/type/`upload`/[transformations/]publicId. |
| Cloudinary.PathSpec | source/api/cloudinary.js:149-185 | A path is refused iff a required id is missing, and an unknown kind lands in `uncategorized`. Every path lies under `mstore/assets/`. Merchant assets lie in the merchant's folder and the avatar in the user's. |
| Formatters.FormatPhoneSpec | source/utils/formatters.js:32-38 | Empty or non-string input gives ''. A `+91` number longer than three characters gets one space after the code, and removing it restores the number. Any other string is kept. |
| Formatters.FormatPhoneTwice | source/utils/formatters.js:32-38 | Formatting a formatted number adds a second space. |
| Formatters.FormatCurrency | source/utils/formatters.js:46-53 | A non-number gives `₹0.00`. A number is handed to the locale formatter. |
| Formatters.FirstUnit | source/utils/formatters.js:70-83 | The count is at least 1, and seconds are used iff no unit fits. |
| Formatters.FirstFit | source/utils/formatters.js:79-82 | The index picked is that of the first unit no longer than the difference: every earlier unit is longer. |
| Formatters.FirstUnitLargest | source/utils/formatters.js:79-83 | A unit is used exactly when some unit fits. It is then the first (largest) unit that fits, and the count is how many whole times it fits. |
| Formatters.RelativeTime | source/utils/formatters.js:60-67 | There is no relative time exactly when the date is invalid. |
| Formatters.RelativeTimeSpec | source/utils/formatters.js:60-84 | An invalid date gives ''. Under 5 seconds gives `just now`, and 5 to 59 seconds gives `N seconds ago`. Otherwise the text uses the largest unit that fits. |
| ItemValidator.BlankIff | source/modules/merchant/scripts/item-helper/item-validator.js:12-18 | A field is blank iff it is missing or all whitespace. |
| ItemValidator.PickedSpec | source/modules/merchant/scripts/item-helper/item-validator.js:9-84 | Each message is reported iff its check fails, and the list is empty iff no check fails. |
| ItemValidator.ValidateBasicInfo | source/modules/merchant/scripts/item-helper/item-validator.js:9-36 | The errors are the basic messages whose checks fail, in order, and the result is valid iff there is none. |
| ItemValidator.ValidateInventory | source/modules/merchant/scripts/item-helper/item-validator.js:41-64 | The errors are the inventory messages whose checks fail, in order, and the result is valid iff there is none. |
| ItemValidator.ValidatePricing | source/modules/merchant/scripts/item-helper/item-validator.js:69-84 | The errors are the pricing messages whose checks fail, in order, and the result is valid iff there is none. |
| ItemValidator.ValidateFormData | source/modules/merchant/scripts/item-helper/item-validator.js:89-104 | The errors are basic, then inventory, then pricing, and the form is valid iff there is none. |
| ItemValidator.BasicInfoSpec | source/modules/merchant/scripts/item-helper/item-validator.js:12-33 | A blank name, a blank SKU, a negative cost price, a negative selling price and a selling price below cost are each reported exactly when they hold. |
| ItemValidator.InventorySpec | source/modules/merchant/scripts/item-helper/item-validator.js:44-61 | Each negative inventory quantity is reported exactly when it is negative. |
| ItemValidator.PricingSpec | source/modules/merchant/scripts/item-helper/item-validator.js:72-81 | A GST rate outside [0, 100] and an MRP below the selling price are each reported exactly when they hold. |
| ItemValidator.FormValidIff | source/modules/merchant/scripts/item-helper/item-validator.js:89-104 | The form is valid iff none of the checks of the three sections fails. |
| InvoiceMeta.DateInputValue | source/modules/merchant/transactions/scripts/invoice-event-manager.js:239-242 | The picker value is empty exactly when the stored date does not have three `/` parts. |
| InvoiceMeta.DateInputValueSpec | source/modules/merchant/transactions/scripts/invoice-event-manager.js:239-242 | `D/M/Y` becomes `Y-MM-DD`, with day and month padded to two digits. |
| InvoiceMeta.PreviousDay | source/modules/merchant/transactions/scripts/invoice-event-manager.js:273-277 | The day before a valid date is a valid date on another day of the month. |
| InvoiceMeta.PickedDayShiftsWest | source/modules/merchant/transactions/scripts/invoice-event-manager.js:273-277 | As written, on a clock behind UTC the stored date is the day before the one picked. |
| InvoiceMeta.PickedDayShiftExample | source/modules/merchant/transactions/scripts/invoice-event-manager.js:273-277 | Picking 16 December 2025 five hours behind UTC stores `15/12/2025`. |
| InvoiceMeta.DateRoundTrip | source/modules/merchant/transactions/scripts/invoice-event-manager.js:239-277 | With the corrected reading, a stored date goes back to the picker as the day it names. |
| InvoiceMeta.FindTime | source/modules/merchant/transactions/scripts/invoice-event-manager.js:324 | A match has one or two hour digits, two minute digits and `AM`/`PM` in either case. |
| InvoiceMeta.HoursRoundTrip | source/modules/merchant/transactions/scripts/invoice-event-manager.js:330-368 | 12-hour to 24-hour and back is the identity on hours 1 to 12 with either meridiem, and so is 24-hour to 12-hour and back on 0 to 23. |
| InvoiceMeta.TimeFromInputOf | source/modules/merchant/transactions/scripts/invoice-event-manager.js:363-371 | `HH:MM` is stored as the 12-hour hour unpadded, the minutes and the meridiem. |
| InvoiceMeta.ReadTwelve | source/modules/merchant/transactions/scripts/invoice-event-manager.js:324 | The pattern finds a stored `h:mm AM` at its start with its parts. |
| InvoiceMeta.TimeRoundTrip24 | source/modules/merchant/transactions/scripts/invoice-event-manager.js:324-371 | A picked `HH:MM` that is stored and opened again shows the same `HH:MM`. |
| InvoiceMeta.TimeRoundTrip12 | source/modules/merchant/transactions/scripts/invoice-event-manager.js:324-371 | A stored time with hour 1 to 12 that is opened and kept is stored again with the same hour, minutes and meridiem. |
| InvoiceMeta.NumberAcceptance | source/modules/merchant/transactions/scripts/invoice-event-manager.js:212-213 | Every written integer is accepted, and empty or all-blank text is refused. |
| InvoiceMeta.InvoiceMetaFields.constructor | source/modules/merchant/transactions/scripts/invoice-event-manager.js:6-17 | A new invoice starts at number `116`, date `16/12/2025` and time `02:26 PM`. |
| InvoiceMeta.InvoiceMetaFields.SaveNumber | source/modules/merchant/transactions/scripts/invoice-event-manager.js:210-220 | The dialog closes iff the trimmed text is non-empty and numeric. The number becomes that text then, and nothing else changes. |
| InvoiceMeta.InvoiceMetaFields.ChangeDate | source/modules/merchant/transactions/scripts/invoice-event-manager.js:271-284 | As written, the stored date is `DD/MM/YYYY` of the local day of midnight UTC on the picked day (`DateChangedAsWritten`). On a clock at or ahead of UTC that is the picked day. Nothing else changes. |
| InvoiceMeta.InvoiceMetaFields.ChangeTime | source/modules/merchant/transactions/scripts/invoice-event-manager.js:363-378 | A picked value is stored in 12-hour form, and an empty value changes nothing. |

## Left out

- File reads and writes, zip writing, `os.makedirs`, the prompt library, `git` through `execSync`, the clock, `console` output and process exits. Ledger and version files are sequences of lines or entries; the answers, the git log and the time are inputs.
- The file sizes and the large-file warning of the archivers. They print only.
- The milestone messages (`Patch series completed` and so on). They print only.
- `updateMarkdown`, `formatIST`, `nowISO` and `getLastCommit` of versioner.js, and the `service-worker.js` rewrite of bump-version.js. These are text output, clock and git.
- The authentication, rate-limit and business-rule hooks of the route guard. The source makes each always pass, and the model does too.
- `init`, `getDynamicPath`, `getAssetUrl`, `validateUrl` and `cleanUrl` of the URL handler. They depend on the browser location and the route manager, which are not part of this model.
- RouteUrl.ParseQueryString: each value is kept as its decoded text. The `JSON.parse` step that turns `1` into a number or `{...}` into an object is not modelled.
- RouteUrl.ParseQueryString: a `__proto__` pair adds no entry, as in the source. When `JSON.parse` turns its value into an object or `null`, the source's setter also changes the dictionary's prototype; with values kept as text, that change is not modelled. Other inherited names, such as `constructor`, are assigned as ordinary entries.
- The wish-list and cart UI handlers (`initWishlistHandler`, the cart badges and buttons), toasts and DOM events. They are event wiring.
- Storage quota errors when writing local storage, and stored entries that are not objects.
- Cloudinary upload and delete. They are network calls.
- `formatDateForIndia` and the output of the `Intl` currency formatter. The currency formatter is a parameter.
- `showValidationErrors`. It only shows an alert.
- The invoice modals, display update and listeners.
- Numbers are integers throughout; fractional prices, quantities and ages are not modelled. `NaN` is modelled where the source tests for it.
- InvoiceMeta.DateChangedAsWritten takes the clock's offset from UTC as a parameter between -24 and +24 hours. Daylight-saving changes within a day are not modelled.
- InvoiceMeta.TimeInputValue: the browser's own rejection of out-of-range times such as `25:00` is not modelled.
- Case mapping is ASCII-only. JavaScript's `toLowerCase` and Python's `upper()` and `title()` also map other letters: the Kelvin sign lowers to `k`, so `fi\u212Ax:` counts as a fix in bump-version.js, and `ß` upper-cases to `SS`, which lengthens a zipmaker note. Such messages and notes are read with only their ASCII letters mapped.
- Js.ToNumber: decimal fractions (`1.5`), exponents (`1e3`) and `Infinity` are read as NaN. JavaScript's `Number()` reads them as numbers, and the model has no values for fractions or `Infinity`. Signed decimal digits and `0x`, `0o` and `0b` literals are read as JavaScript reads them.
- PyStr.ParseInt: only ASCII digits with an optional sign are read. Python's `int()` also accepts `_` between digits (`1_0`) and non-ASCII decimal digits such as `٣`; the model reads such text as not a number.

## Findings

| source | as written | input that shows it | evidently intended | confidence | as-written member | corrected member |
|---|---|---|---|---|---|---|
| python/zip_creator_manual.py:163-169 | After a tier change the entry is numbered `last_id + 1` from the old tier's ledger, and no heading is written. | Last Dev entry `# D057` with `V9.9.9`: the new Alpha ledger starts with `# D058` and no heading. | Each tier ledger starts with its heading and entry `D001`. | high (not executed) | ZipCreatorManual.PromotionAsWritten | ZipCreatorManual.NumberingCorrected |
| makezip.py:30 | The note is read with `strip('*')`, but it is written between backticks. | A line written with the note `Fix` reads back the note `` `Fix` ``. | The note reads back as written, without backticks. | high (not executed) | MakeZip.NoteReadAsWritten | MakeZip.LogReadsBack |
| source/routing/route-url-handler.js:55-61 | A merchant view starting `dashboard/` gives the URL `dashboard/...` without the role. | `generateUrl('merchant', 'dashboard/home')` gives `dashboard/home`, which `parseRoutePart` reads as role `dashboard`. | `merchant/dashboard/home`, which reads back as role `merchant`. | medium (not executed) | RouteUrl.DashboardUrlLosesRole | RouteUrl.UrlRoundTrip |
| source/modules/merchant/transactions/scripts/invoice-event-manager.js:273-277 | `new Date('YYYY-MM-DD')` is midnight UTC, but `getDate`/`getMonth` read local time. | Picking 16 December 2025 on a clock at UTC-5 stores `15/12/2025`. | The picked day is stored. | high (not executed) | InvoiceMeta.PickedDayShiftExample | InvoiceMeta.DateRoundTrip |
| source/routing/route-manager.js:66-93 | The hash is set to the URL from `generateUrl`, which has no leading `/`; the back/forward handler passes the hash to `parseUrl`, which needs one. | `navigate('merchant', 'home')` sets the hash `#merchant/home`; on going back, `parseUrl('merchant/home')` is `null` and the current route is not restored. | The route parses back from the hash. | medium (not executed) | RouteUrl.GeneratedUrlNotParsed | RouteUrl.UrlRoundTrip |
