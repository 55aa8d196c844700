# Untch: a verified model of its guards, parsers and protocols

This project models the parts of the Untch repository whose correctness rests on more than one function, and
proves what they promise over every input, every history of calls or every failure.

- **PNG listing asset** (`PngFilter.dfy`, `PngAsset.dfy`, `PngBytes.dfy`, `PngOutcomes.dfy`). The hand-written decoder
  of `scripts/check-listing-asset.ts`, chunk walk and in-place unfilter, is the inverse of the reference encoding of
  RFC 2083 section 6; every byte of a decoded image is the one its row's filter restores; a file decodes exactly when
  it should; and the avatar verdict collapses to "square, with four opaque corners".
- **Lockfile gate** (`LockfileParser.dfy`, `LockfileNames.dfy`, `LockfileDrift.dfy`, `DriftReports.dfy`). The
  indent-driven parser of `scripts/lint/lockfile-sync.ts` returns any table written in pnpm's layout, with names in
  quotes or without, and its drift list is an exact diff, report by report, that repairs the lockfile when carried out
  as a patch.
- **Production surface scanner** (`SurfaceComments.dfy`, `SurfaceText.dfy`). The comment stripper of
  `scripts/lint-production-surface.ts` cuts each line at its first comment and is idempotent on every text, keeps lines
  and columns, and the findings are exactly the matches that are not allowed.
- **Timelock, deployment and governance guard** (`Timelock.dfy`, `Deployment.dfy`, `RoleOutcomes.dfy`,
  `Governance.dfy`). The writer set contracts as state machines under arbitrary callers, every call's refusals and
  effects, the two-phase deployment as a driver over them, and the guard that reads them before a proposal.
- **Vault** (`Vault.dfy`, `VaultContract.dfy`, `VaultAuthority.dfy`, `VaultOutcomes.dfy`, `VaultMutex.dfy`).
  `UntchVault` with tokens that may call back into it in any way, nested to any depth: balances, nonces and budgets over
  every history, with and without the reentrancy guard, every payment traced to a call that was entitled to it, and
  every entitled payment made.
- **Disarm** (`Disarm.dfy`, `DisarmSteps.dfy`, `DisarmReport.dfy`). The command of `scripts/solana-proof-disarm.ts`
  against a platform that may ignore a deletion and start or serve containers at will: the command as a machine with one
  question at a time, what "DISARM COMPLETE" is worth, and that a dry run only looks.
- **Migration verifier** (`Migration.dfy`, `MigrationOutcomes.dfy`). `scripts/consumer-migrate-verify.ts` over a session
  in which any statement may fail, the clean-up included.
- **Git classifier** (`GitCommand.dfy`, `GitVerdicts.dfy`). The rules of `scripts/lint/git-destructive.ts`, as laws over
  all argument vectors and as a verdict for each subcommand, and its path prefix test as the component-wise ancestor
  relation.
- **Environment swap** (`EnvSwap.dfy`, `EnvLaws.dfy`). `withEnv` of `scripts/prove-network-switch.ts` under callbacks
  that write, throw, catch and nest.

`Wrappers.dfy`, `Text.dfy`, `Trimming.dfy` and `Slices.dfy` hold what these share. A source function that loops or
changes state is a method, or a method of a class, proved equal to a specification function; what is promised is then
proved of that function, in terms of the inputs and not of the function's parts. `dafny verify dfyconfig.toml` checks
everything.

## Where a promise does not hold

Each of these is proved: with the condition under which the code does what its documentation says, exact where one
call decides it, and with an input or a run on which it does not.

- The phase 2 gate of the deployment looks at the eta of ADD_WRITER only. Between the two etas the script adds the
  writer, fails on the second execution and can never be finished by running it again
  (`Deployment.GateMissesSecondEta`, `Deployment.HalfwayIsForever`; `Deployment.PhaseTwoCompletes` is the condition).
- `name in declared` finds names every object inherits, so a locked override called, say, `constructor` and not
  declared goes unreported (`LockfileDrift.CleanTablesEqualIff`, `LockfileDrift.InheritedOverrideUnseen`).
- Two drifts can share importer, group and name exactly when an importer is called `(overrides)` and an override
  drifts (`LockfileDrift.KeysCollideIff`).
- What the first two slashes of a line begin is not cut as a comment exactly when a colon comes directly before them or
  a line terminator after them (`SurfaceComments.CutsCommentIff`): `default://note` keeps its comment
  (`SurfaceComments.ColonKeepsComments`), and so does a line that keeps the carriage return of a CR LF line end, so a
  text with such line ends and no block comment comes back unchanged (`SurfaceComments.CrLfTextUnchanged`).
  Idempotence holds there all the same.
- `--` as the value of a global git option turns a branch checkout into an overwrite
  (`GitCommand.GlobalOptionsIff`). Only a name that normalises to `.` is taken for the whole tree, and `./` does not
  (`GitCommand.WholeTreeIff`, `GitCommand.DotSlashIsNotDot`).
- A statement that was accepted counts as rejected when its savepoint cannot be released but can be rolled back to
  (`Migration.ExpectRejectedMeans`).
- BEGIN stands outside the try whose finally gives the advisory lock back. The session is left with the lock exactly
  when it was taken without an answer, when BEGIN was refused or its answer lost, or when the unlock failed, and with a
  transaction exactly when BEGIN's answer was lost (`Migration.Verify`, `Migration.FailedBeginKeepsLock`). Closing the
  connection ends both (`Migration.RunToTheEnd`).
- The vault's master equation misses tokens sent without a deposit and payments to the vault itself, and holds exactly
  when no call that took effect did either (`VaultAuthority.EquationByCalls`). Of histories in which no call asks for the
  latter and tokens are given only between calls, it holds exactly when none were given
  (`VaultAuthority.EquationIffNoGifts`; `VaultAuthority.PaymentToItselfBreaks` is the other way it fails).
- "DISARM COMPLETE" needs nobody to put an armed variable back, and is about the container that answered; on every
  platform there are completed runs of the command that show it (`DisarmReport.PutBackIsCaptured`,
  `DisarmReport.OldContainerMayServeAgain`).
- `withEnv` leaves an override of a variable it does not look after in place (`EnvSwap.RestoresEverythingIff`).
- The comment around `scripts/governance-identity-guard.ts:283-288` says an unreadable service is listed as a gap;
  reading it ends the process instead, so the model does that, and lists only keys that give no account.

## Assumptions

A JavaScript string is a sequence of UTF-16 code units, one `char` each; surrogates, which a `char` cannot be, are not
modelled. `opId` is taken to be injective, an oracle signature to be the address it recovers to, inflate to be any partial function on bytes, a scanning rule's pattern
to be any predicate on a line, and a vault token to move exactly the amount asked for or to fail, with any calls of
its own before and after. A `uint256` sum that overflows would revert where the model refuses for the budget or the
balance; 64-bit truncation of block times is modelled. Network, RPC, platform, git and file system answers are
parameters or arbitrary. The disarm command and the containers share one clock. The migration runs in one session
without concurrent writers, and a ROLLBACK or COMMIT that fails leaves that session without a transaction.

## Model

| member | source | states |
|---|---|---|
| PngFilter.Paeth | scripts/check-listing-asset.ts:101-107 | the choice is one of left, above, upper left that is nearest to a + b - c, ties going to left, then above |
| PngFilter.ReconRowInvertsFilterRow | scripts/check-listing-asset.ts:82-113 | undoing any filter on a filtered row gives the row, byte by byte, each byte reading those restored before it |
| PngFilter.FilterRowInvertsReconRow | scripts/check-listing-asset.ts:82-113 | filtering a restored row again gives the raw line it came from |
| PngFilter.EncodedRow | scripts/check-listing-asset.ts:78-79 | at the decoder's offsets for row y stand the filter byte and the line the encoder wrote for row y |
| PngFilter.UnfilterInvertsFilter | scripts/check-listing-asset.ts:72-114 | every image under every choice of filter per row decodes to itself |
| PngFilter.FilterInvertsUnfilter | scripts/check-listing-asset.ts:72-114 | re-filtering what was decoded with the stream's filter bytes gives the stream: decoding is a bijection |
| PngFilter.ReconRowsRow | scripts/check-listing-asset.ts:77-81 | decoding further rows does not change a decoded row |
| PngFilter.UnfilterRow | scripts/check-listing-asset.ts:78-113 | one pass of the outer loop, in the shared buffer, appends exactly the specified row or stops at an unknown filter |
| PngFilter.Unfilter | scripts/check-listing-asset.ts:72-114 | the in-place loops, every index in bounds, compute the specified image or report the first row with an unknown filter |
| PngBytes.ReconByteRestores | scripts/check-listing-asset.ts:87-113 | which byte each of the five filters restores from the raw byte and the bytes to its left, above it and above left; a byte the stream does not reach is zero |
| PngBytes.DecodedRowByte | scripts/check-listing-asset.ts:82-113 | byte x of a decoded row from its line, its own byte four to the left, and the row above |
| PngBytes.DecodedByte | scripts/check-listing-asset.ts:77-113 | byte x of row y of the decoded rows from the bytes of the stream at the offsets of RFC 2083 |
| PngBytes.DecodedImageByte | scripts/check-listing-asset.ts:70-117 | every byte of the image decodePng returns is what its row's filter restores from the inflated stream and from the image's own earlier bytes |
| PngAsset.WalkOverChunk | scripts/check-listing-asset.ts:46-62 | over one serialised chunk the loop body does what the chunk's kind and body say, wherever the chunk stands |
| PngAsset.WalkFolds | scripts/check-listing-asset.ts:46-62 | walking serialised chunks is folding over the chunks, whatever surrounds them |
| PngAsset.WalkReadsFile | scripts/check-listing-asset.ts:45-62 | a file of chunks up to IEND, with anything after it, is read as its chunks |
| PngAsset.WalkChunks | scripts/check-listing-asset.ts:45-62 | the chunk loop is the specified walk, a read past the end included |
| PngAsset.FirstBadRowIsFirst | scripts/check-listing-asset.ts:109-110 | the row named in the refusal is the first whose filter is unknown |
| PngAsset.DecodePng | scripts/check-listing-asset.ts:35-117 | every refusal in the code's order, and the decoded image otherwise, for any inflate |
| PngAsset.DecodeInvertsEncode | scripts/check-listing-asset.ts:35-117 | any file whose header says 8-bit RGBA and whose IDAT chunks, split anyhow, inflate to a filtering of an image decodes to that image |
| PngAsset.HeaderReads | scripts/check-listing-asset.ts:50-55 | an 8-bit RGBA header's width and height are read from their own four bytes each |
| PngAsset.WrittenFileDecodes | scripts/check-listing-asset.ts:35-117 | a file written from an image, header, filtered rows deflated and cut into IDAT chunks anywhere, IEND, anything after it, decodes to the image's own width, height and bytes |
| PngOutcomes.AbsorbOutcome | scripts/check-listing-asset.ts:50-59 | a header gives big-endian sizes and as much of the format as it reaches, data is kept in order, any other chunk is passed over |
| PngOutcomes.AsciiDropsHighBits | scripts/check-listing-asset.ts:48 | chunk kinds are compared without the high bits of their bytes |
| PngOutcomes.WalkAtTheEnd | scripts/check-listing-asset.ts:46-47 | at the end of the data the walk is over, inside a chunk's length it fails |
| PngOutcomes.WalkOverCutChunk | scripts/check-listing-asset.ts:46-62 | a chunk the file ends in counts with what is there of it |
| PngOutcomes.DecodesIff | scripts/check-listing-asset.ts:35-117 | success exactly on a PNG whose chunks can be read, 8-bit RGBA, not interlaced, that inflates and whose rows all name a known filter; the image has the header's size |
| PngOutcomes.RefusedFor | scripts/check-listing-asset.ts:35-117 | the first reason in the order of the code, and for a filter the first such row |
| PngAsset.AlphaOfPixel | scripts/check-listing-asset.ts:134 | the alpha looked at is the fourth byte of the pixel in that row and column |
| PngAsset.MarkIsUnique | scripts/check-listing-asset.ts:150-167 | there is one tightest box around everything with any opacity |
| PngAsset.MarkOf | scripts/check-listing-asset.ts:155-167 | the box loop finds it, or that nothing is visible |
| PngOutcomes.VisibleMeans | scripts/check-listing-asset.ts:157 | a pixel is visible unless its fourth byte is zero |
| PngOutcomes.MarkMeans | scripts/check-listing-asset.ts:150-167 | every visible pixel is within the four sides of the mark and on each side there is one |
| PngAsset.InspectAsset | scripts/check-listing-asset.ts:126-183 | the problems in order, and ok exactly when the image is square with four corners of alpha 255 |
| PngAsset.VerdictCollapse | scripts/check-listing-asset.ts:126-183 | no problem exactly for square images with four opaque corners; padding never refuses an image by itself |
| PngAsset.OpaqueCornersFillTheMark | scripts/check-listing-asset.ts:150-180 | with opaque corners the visible mark is the whole canvas |
| PngOutcomes.ProblemsExact | scripts/check-listing-asset.ts:130-180 | a problem is reported exactly when it is there: sides that differ, a named corner with its alpha below 255, a mark whose width over height is outside 0.98 to 1.02, or no mark |
| PngOutcomes.ProblemsRanked | scripts/check-listing-asset.ts:130-180 | in the order sides, top left, top right, bottom left, bottom right, mark, each at most once |
| SurfaceComments.BlankBlocksMasks | scripts/lint-production-surface.ts:206 | blanking puts the raw character or a space at every column and keeps every line feed |
| SurfaceComments.BlankedHasNoBlock | scripts/lint-production-surface.ts:206 | after blanking no block comment is left: erased text never joins its surroundings into one |
| SurfaceComments.BlankBlocksFixed | scripts/lint-production-surface.ts:206 | text without a closed block comment is left alone |
| SurfaceComments.BlanksFirstBlock | scripts/lint-production-surface.ts:206 | the first comment is blanked up to its first close, what precedes it is kept, the rest is treated the same |
| SurfaceComments.CutFromMeans | scripts/lint-production-surface.ts:208 | cutting leaves a prefix without line comments, and changes nothing exactly when there was none |
| SurfaceComments.CutsFirstComment | scripts/lint-production-surface.ts:208 | what is cut of a line is its first comment: two slashes with no colon before them and no line terminator after them |
| SurfaceComments.CutsCommentIff | scripts/lint-production-surface.ts:208 | whatever code stands before the first two slashes of a line, what they begin is cut if and only if no colon comes directly before them and no line terminator after them |
| SurfaceComments.ColonKeepsComments | scripts/lint-production-surface.ts:208 | of `default://note` nothing is cut |
| SurfaceComments.CarriageReturnKeepsComments | scripts/lint-production-surface.ts:207-208 | a line that ends in a line terminator keeps its comment, whatever the line is |
| SurfaceComments.TerminatedLinesKeepComments | scripts/lint-production-surface.ts:204-210 | when every line left by the blanking ends in a terminator, stripping a text blanks its block comments and no more |
| SurfaceComments.CrLfTextUnchanged | scripts/lint-production-surface.ts:204-210 | a text with CR LF line ends and no block comment comes back unchanged, line comments included |
| SurfaceComments.AllowedRuleReads | scripts/lint-production-surface.ts:183-190 | the rule read is the name after the leftmost marker in any case and any white space, in lower case |
| SurfaceComments.AnnotationReach | scripts/lint-production-surface.ts:185-190 | an annotation allows its rule on its own line and on the next one unless that has its own, and nowhere else |
| SurfaceComments.AllowedPrefix | scripts/lint-production-surface.ts:183 | an annotation in a prefix of a line is one of the line |
| SurfaceComments.StripLineFixed | scripts/lint-production-surface.ts:208 | a stripped line is a prefix and stripping it again changes nothing |
| SurfaceComments.StripCommentsIdempotent | scripts/lint-production-surface.ts:204-210 | stripping twice is stripping once, on all text |
| SurfaceComments.StripCommentsAligned | scripts/lint-production-surface.ts:204-210 | as many lines as before, none longer, each column the raw character or a space |
| SurfaceText.StrippedLine | scripts/lint-production-surface.ts:204-210 | each line of a stripped text is the blanked line if that carries an annotation, else what stands before its first comment, else all of it; without an annotation no line comment is left |
| SurfaceText.AnnotationFound | scripts/lint-production-surface.ts:183-190 | wherever a line holds the marker in any case, white space and a rule name, it has an annotation |
| SurfaceText.AnnotationParts | scripts/lint-production-surface.ts:183-190 | an annotation that is read is there in its parts, begins before any other, and names its rule in lower case |
| SurfaceText.RuleCharacters | scripts/lint-production-surface.ts:183 | the characters of a rule name are letters of either case, digits and the dash |
| SurfaceText.SpecialCharacters | scripts/lint-production-surface.ts:183-208 | `.` stops at the four line terminators of JavaScript, and white space is what its `\s` and trim take it to be |
| SurfaceText.TypeScriptIsStripped | scripts/lint-production-surface.ts:214 | names ending in `.ts` and `.tsx` are scanned without comments |
| SurfaceText.OthersAreScannedRaw | scripts/lint-production-surface.ts:214 | all other names are scanned as they are |
| SurfaceComments.ScanText | scripts/lint-production-surface.ts:212-235 | the nested loops report the specified findings, by line and then by rule |
| SurfaceComments.FindingsExact | scripts/lint-production-surface.ts:217-233 | something is a finding exactly when a rule not allowed there matches the line it names; it quotes that raw line |
| SurfaceText.FindingsOfText | scripts/lint-production-surface.ts:212-235 | one finding for every rule that matches a line and is not allowed there, by line and then by rule: its file, its line counted from one, its rule, and the quoted raw line |
| SurfaceText.ExcerptQuotes | scripts/lint-production-surface.ts:230 | the quoted text is the raw line without the white space at its ends, up to 160 characters |
| SurfaceComments.OneRuleSilenced | scripts/lint-production-surface.ts:219-221 | an annotation silences at most one rule of a line |
| LockfileParser.Spelled | scripts/lint/lockfile-sync.ts:81-87 | written bare where that is possible and in quotes where it is not, every value is read back |
| LockfileNames.BareStandsForItself | scripts/lint/lockfile-sync.ts:81-87 | a token without the same quote at both ends stands for itself |
| LockfileNames.QuotedStandsForInside | scripts/lint/lockfile-sync.ts:81-87 | in quotes of either kind, anything stands for itself, white space included |
| LockfileNames.SpacesDoNotMatter | scripts/lint/lockfile-sync.ts:81-87 | white space around a token is not part of it |
| LockfileParser.FirstColon | scripts/lint/lockfile-sync.ts:96-100 | the split is at the first colon, however many follow |
| LockfileParser.ParseImporters | scripts/lint/lockfile-sync.ts:109-163 | the loop with its flags, continues and break computes the specified table |
| LockfileParser.InertLinesChangeNothing | scripts/lint/lockfile-sync.ts:119-159 | blank lines, comments, unused indents and keys other than specifier can stand anywhere |
| LockfileNames.GroupHeadings | scripts/lint/lockfile-sync.ts:131-159 | the three groups are read under their names in a manifest |
| LockfileNames.IgnorableMeans | scripts/lint/lockfile-sync.ts:119-121 | a line is ignored exactly when it is blank or its first mark is a `#` |
| LockfileNames.OddIndents | scripts/lint/lockfile-sync.ts:119-159 | text indented by any other number of spaces than 0, 2, 4, 6 and 8 is passed over, in the overrides any other than 0 and 2 |
| LockfileNames.OtherKeys | scripts/lint/lockfile-sync.ts:152-159 | at the depth of a specifier every other key is passed over |
| LockfileParser.DocRun | scripts/lint/lockfile-sync.ts:131-159 | reading written importers adds exactly their table to what was read |
| LockfileParser.ParseInvertsPrint | scripts/lint/lockfile-sync.ts:109-163 | parsing a written table returns it, whatever precedes the block, follows its end or is inert inside it |
| LockfileParser.ImporterLinesMatter | scripts/lint/lockfile-sync.ts:119-159 | none of the lines a table is written in is inert |
| LockfileParser.EveryTableRoundTrips | scripts/lint/lockfile-sync.ts:102-163 | every table without line feeds, and without colons in importer paths, has a text in pnpm's layout that parses to it |
| LockfileNames.TableAsWritten | scripts/lint/lockfile-sync.ts:131-159 | for names and specifiers written without quotes the table read is the one written, name by name |
| LockfileNames.BareTextParses | scripts/lint/lockfile-sync.ts:109-163 | a lockfile written without quotes parses to exactly the table it shows |
| LockfileParser.ParseOverrides | scripts/lint/lockfile-sync.ts:179-198 | the loop over the lines computes the specified override table |
| LockfileParser.OverridesRoundTrip | scripts/lint/lockfile-sync.ts:187-194 | inside the block, written overrides are read back up to the next top-level line |
| LockfileParser.InertOverridesChangeNothing | scripts/lint/lockfile-sync.ts:184-194 | blank lines, comments, other indents and lines without key and value can stand anywhere |
| LockfileParser.OverridesInvertPrint | scripts/lint/lockfile-sync.ts:179-198 | parsing a text with a written overrides block returns its table, whatever precedes the header, follows the block or is inert inside it |
| LockfileParser.EveryOverrideTableRoundTrips | scripts/lint/lockfile-sync.ts:179-198 | every table without line feeds, and without colons in names, has a text that parses to it |
| LockfileDrift.OverrideDrifts | scripts/lint/lockfile-sync.ts:295-308 | every difference between the override tables, once, as far as `in` can tell |
| LockfileDrift.GroupDrifts | scripts/lint/lockfile-sync.ts:332-353 | every difference in one group of one importer, once, with overrides substituted |
| LockfileDrift.FindDrift | scripts/lint/lockfile-sync.ts:287-356 | the list is an exact diff, each place that differs in it once and nothing else, in order: overrides, then importers as sorted, then groups, and declared before only locked |
| DriftReports.ReportedIffDiffers | scripts/lint/lockfile-sync.ts:295-352 | a place is reported exactly when manifest and lockfile differ there; which side lacks it decides the kind, only an importer without a manifest is advisory, and both specifiers are those of the two tables |
| DriftReports.ReportsDetermine | scripts/lint/lockfile-sync.ts:295-352 | this settles every field of a report |
| DriftReports.ListIsTheDifferences | scripts/lint/lockfile-sync.ts:287-356 | the list is a report for each place that differs, and nothing else |
| DriftReports.ListOrder | scripts/lint/lockfile-sync.ts:287-356 | overrides first, then importers as sorted, of one importer the three groups in turn, and declared before only locked |
| LockfileDrift.CleanIffRecorded | scripts/lint/lockfile-sync.ts:267-357 | nothing blocking exactly when the override tables agree and each manifest is recorded group by group with overrides substituted |
| LockfileDrift.CleanTablesEqualIff | scripts/lint/lockfile-sync.ts:304-308 | a clean report means equal override tables exactly when no undeclared locked override has an inherited name |
| LockfileDrift.InheritedOverrideUnseen | scripts/lint/lockfile-sync.ts:304-308 | a repository with such an override reports nothing at all |
| LockfileDrift.NoManifestIsAdvisory | scripts/lint/lockfile-sync.ts:314-330 | an importer without a manifest never blocks |
| LockfileDrift.KeysDistinct | scripts/lint/lockfile-sync.ts:288-356 | no two places report the same importer, group and name unless an importer is called "(overrides)" and some override drifts |
| LockfileDrift.KeysCollide | scripts/lint/lockfile-sync.ts:295-346 | with both, there are manifests and a lockfile for which two reports share their key |
| LockfileDrift.KeysCollideIff | scripts/lint/lockfile-sync.ts:288-356 | for given override tables and importers two reports can share their key if and only if both hold |
| LockfileDrift.ReportKeysDistinct | scripts/lint/lockfile-sync.ts:288-356 | a report repeats no key unless both hold |
| LockfileDrift.ApplyRepairs | scripts/lint/lockfile-sync.ts:336-352 | carrying out one report settles its place and leaves every other place as it was |
| LockfileDrift.PatchRepairs | scripts/lint/lockfile-sync.ts:336-352 | carrying out a list of reports settles exactly the dependency places in it |
| LockfileDrift.PatchCleans | scripts/lint/lockfile-sync.ts:310-356 | when only dependencies differ, carrying out the list leaves a lockfile with no blocking drift |
| Timelock.UntchReceipts.constructor | contracts/src/UntchReceipts.sol:233-236 | the deployer is admin, nobody a writer, nothing pending, the delay fixed |
| Timelock.UntchReceipts.Propose | contracts/src/UntchReceipts.sol:315-328 | the guards in order; success only adds the operation at its eta |
| Timelock.UntchReceipts.Execute | contracts/src/UntchReceipts.sol:339-355 | the guards in order; success applies the operation and clears it, a failing mutator undoes both |
| Timelock.UntchReceipts.Cancel | contracts/src/UntchReceipts.sol:362-367 | only the admin, only what is pending, and nothing else changes |
| Timelock.UntchReceipts.AddWriter | contracts/src/AuthorizedWriters.sol:100-105 | no zero address, no second authorisation, else exactly one more writer |
| Timelock.UntchReceipts.RemoveWriter | contracts/src/AuthorizedWriters.sol:110-114 | only a writer can be removed, and only that one goes |
| Timelock.UntchReceipts.TransferAdmin | contracts/src/AuthorizedWriters.sol:120-125 | never to the zero address, and the writers stay |
| Timelock.PendingWasProposed | contracts/src/UntchReceipts.sol:315-367 | whatever is pending was proposed by the admin of the time, carries that proposal's eta, and has been pending since |
| Timelock.WaitIsReal | contracts/src/UntchReceipts.sol:325-347 | reading block times in 64 bits cannot shorten a wait between ordered times |
| Timelock.TimelockNeverEarly | contracts/README.md:195-199 | under any callers and any order a change of roles is an execution by the admin of an operation proposed at least the delay earlier, and does what it says |
| Timelock.StrangersChangeNothing | contracts/src/AuthorizedWriters.sol:80-83 | a call by anyone but the admin reverts and changes nothing |
| RoleOutcomes.EffectOutcome | contracts/src/AuthorizedWriters.sol:100-125 | what a change of roles is refused for, and otherwise exactly whose role changes |
| RoleOutcomes.ChangesDetermine | contracts/src/AuthorizedWriters.sol:100-125 | this settles the new roles |
| RoleOutcomes.RegistryOutcome | contracts/src/SpendIntentRegistry.sol:190-209 | refused to anyone but the admin, then for what the change is refused for, else the change is made |
| RoleOutcomes.ProposeOutcome | contracts/src/UntchReceipts.sol:315-328 | refused for the first of its guards that fails; otherwise pending at block time plus delay, and nothing else changes |
| RoleOutcomes.ExecuteOutcome | contracts/src/UntchReceipts.sol:339-355 | refused for the first guard that fails, the mutator's included; otherwise no longer pending and carried out |
| RoleOutcomes.CancelOutcome | contracts/src/UntchReceipts.sol:362-367 | refused for the first guard that fails; otherwise no longer pending, and nothing else changes |
| RoleOutcomes.RefusedChangesNothing | contracts/src/UntchReceipts.sol:315-367 | a call that reverts leaves the storage as it was |
| RoleOutcomes.CancelUndoes | contracts/src/UntchReceipts.sol:315-367 | proposing and then cancelling restores the storage |
| RoleOutcomes.RemovedIsNoWriter | contracts/src/UntchReceipts.sol:339-355 | an executed removal takes exactly that writer off the set |
| RoleOutcomes.RunByRun | contracts/src/UntchReceipts.sol:315-367 | in a run each call acts on what the calls before it left |
| Deployment.OthersChangeNothing | scripts/deploy-mainnet-suite.ts:183-188 | transactions of people without a role leave both contracts as they were |
| Deployment.SpendIntentRegistry.Call | contracts/src/SpendIntentRegistry.sol:190-209 | the immediate admin calls with their guards |
| Deployment.Chain.Mine | scripts/deploy-mainnet-suite.ts:183-188 | everyone else's transactions run before a step, in order, at their own block |
| Deployment.Chain.SendToRegistry | scripts/deploy-mainnet-suite.ts:183-188 | a transaction of the script finds the contract as the script left it, at the later time |
| Deployment.Chain.SendToReceipts | scripts/deploy-mainnet-suite.ts:183-188 | the same for the timelocked contract |
| RoleOutcomes.OthersOneByOne | scripts/deploy-mainnet-suite.ts:183-188 | others' transactions act one after the other, each on its contract and at the time before the step |
| Deployment.PhaseOne | scripts/deploy-mainnet-suite.ts:163-266 | succeeds exactly on distinct non-zero roles and a delay that fits, and leaves the registry handed over and two operations pending for the full delay each |
| Deployment.PhaseTwo | scripts/deploy-mainnet-suite.ts:268-317 | the checks, two executions and readback, whatever outsiders send in between |
| Deployment.PhaseTwoCompletes | scripts/deploy-mainnet-suite.ts:281-316 | after phase 1 it completes exactly when the gate is past the first eta and each execution past its own |
| RoleOutcomes.PhaseTwoOutcome | scripts/deploy-mainnet-suite.ts:268-317 | from any state and any artifact: what stops phase 2, the first reason in the script's order, and what it leaves behind |
| Deployment.PhaseTwoHandsOver | scripts/deploy-mainnet-suite.ts:296-316 | completing means admin and writer in place on both contracts, nothing pending, and no role left with the deployer |
| Deployment.GateMissesSecondEta | scripts/deploy-mainnet-suite.ts:281-294 | past the gate and short of the second eta it stops with the writer in and the deployer still admin |
| Deployment.HalfwayIsForever | scripts/deploy-mainnet-suite.ts:291-294 | from there no run at any time changes anything or completes |
| Deployment.AdminMustMoveLast | scripts/deploy-mainnet-suite.ts:291-294 | executing TRANSFER_ADMIN first makes the deployer's ADD_WRITER revert |
| Deployment.DeployAll | scripts/deploy-mainnet-suite.ts:204-317 | both phases with outsiders throughout: done exactly when the waits carry every execution past its eta, and then handed over |
| Governance.EnumeratePending | scripts/governance-identity-guard.ts:177-201 | the nested loops list the specified operations |
| Governance.PendingAllExact | scripts/governance-identity-guard.ts:177-201 | listed are exactly the candidate and kind pairs that are pending, with their eta and whether it has passed |
| Governance.PendingInOrder | scripts/governance-identity-guard.ts:177-201 | and in the order of the candidates, of each the three kinds |
| Governance.Candidates | scripts/governance-identity-guard.ts:278-299 | the board is the derived signer, the other signers in order, and each admin not listed before; an unreadable service ends the guard |
| Governance.Guard | scripts/governance-identity-guard.ts:253-347 | each refusal exactly when it is due, in order; passes exactly when the signer matches, every service is readable, the operation is not pending and it is not redundant |
| Governance.PassMeansItWorks | scripts/governance-identity-guard.ts:317-336 | the chain conditions of a pass hold exactly when the admin's proposal and, after the delay, its execution both succeed, whatever others send in between |
| Vault.MoveBegins | contracts/src/UntchVault.sol:396-475 | before the token is called the nonce is spoken for, the amount is in the epoch's account, and nothing has moved |
| Vault.ExecSound | contracts/src/UntchVault.sol:372-488 | whatever happens inside a call, balances move by the events' amounts, no used nonce pays again and the epoch's account covers what was spent |
| Vault.PaymentSound | contracts/README.md:297-305 | nested calls before and after the transfer add up to a sound payment because effects precede interactions |
| Vault.NoncesPayOnce | contracts/README.md:315-316 | a nonce paid on in an outer call is paid on in no nested call, and the other way round |
| Vault.SoundKeepsBooks | contracts/README.md:345-354 | a sound step keeps balances, nonces and every epoch's budget in order |
| Vault.BooksBalance | contracts/README.md:345-354 | over every history: balance equals start plus flow, each signed nonce pays at most once, no epoch's spends of both paths exceed the budget; also without the reentrancy guard |
| Vault.WindowBounded | contracts/README.md:331-342 | at most n budgets leave by the two spend paths in n epochs |
| Vault.RunInBounds | contracts/README.md:327-343 | every event of every history is within the fixed bounds of its path: listed token, cap, budget, no empty fallback, no zero address; the recipient's own cap is in VaultAuthority.EveryPaymentIsLegitimate |
| Vault.MasterEquation | contracts/README.md:345-354 | deposits minus outflow never overstates the balance, and equals it exactly without gifts and payments to the vault itself |
| Vault.PowerlessTakesNothing | contracts/README.md:345-349 | unless a call or one nested in it comes from the owner or pending owner, or carries a valid, unexpired, unused oracle signature within caps, for a listed token and an approved intent, with no pause, no balance falls and no setting changes |
| Vault.PowerlessHistoryTakesNothing | contracts/README.md:345-349 | the same over a whole history |
| Vault.MutexFreezesSpending | contracts/src/UntchVault.sol:295-300 | inside a guarded call every deposit and spend is refused, and nonces and budget stand still |
| VaultMutex.OneAtATime | contracts/src/UntchVault.sol:295-300 | with the guard, a deposit or payment leaves exactly its own mark on nonces and budget, however deep its token calls back |
| VaultMutex.NestedAreRefused | contracts/src/UntchVault.sol:295-300 | while one runs, the token's own deposits and payments are refused as reentrant |
| Vault.OwnerCanAlwaysWithdraw | contracts/src/UntchVault.sol:477-488 | the owner's withdrawal succeeds exactly when the balance covers it, paused or not, guarded or not |
| VaultOutcomes.RefusedForTheFirstReason | contracts/README.md:327-343 | every call that its token does not interrupt is refused for the first of its guards that fails and otherwise goes through; the guards are listed with the budget as zero spent in a new epoch |
| VaultOutcomes.ChangesExactly | contracts/src/UntchVault.sol:372-541 | a call that goes through leaves exactly the stated storage: balance, nonce, epoch account, settings |
| VaultOutcomes.RefusedKeeps | contracts/src/UntchVault.sol:372-541 | a call that is refused leaves storage as it was |
| VaultOutcomes.EpochSpan | contracts/src/UntchVault.sol:585-589 | the epoch of a time is the one whose span contains it |
| VaultOutcomes.BudgetIsTheLog | contracts/src/UntchVault.sol:585-589 | after every history, what counts against the budget is what both paths spent in the epoch of the moment |
| VaultOutcomes.SpendGoesThroughIff | contracts/src/UntchVault.sol:396-437 | after any history a signed spend goes through if and only if its guards hold, the balance covers it and it fits in what is left of this epoch's budget by the record of payments |
| VaultOutcomes.FallbackGoesThroughIff | contracts/src/UntchVault.sol:451-475 | the same for the owner's fallback |
| VaultAuthority.ExecIsItsCalls | contracts/README.md:345-349 | a call adds to the log the receipts of the calls in it that took effect, one each and in order, nested ones included and undone ones not |
| VaultAuthority.EveryPaymentIsLegitimate | contracts/README.md:345-349 | the log of every history is exactly the receipts of the calls that took effect, each of which satisfied the guards of its kind at the moment it was made: a signed spend, an owner's withdrawal, or a fallback within the recipient's cap and the budget |
| VaultAuthority.EquationByCalls | contracts/README.md:351-354 | the equation holds at the end of a history if and only if no call that took effect gave the vault tokens or had it pay itself |
| VaultAuthority.EquationIffNoGifts | contracts/README.md:351-354 | when no call pays the vault itself and tokens are given to it only between calls, the equation holds if and only if nobody gave any |
| VaultAuthority.PaymentToItselfBreaks | contracts/README.md:351-354 | a withdrawal by the owner to the vault itself breaks the equation |
| VaultContract.UntchVault.constructor | contracts/src/UntchVault.sol:346-361 | the storage a new vault starts with |
| VaultContract.UntchVault.CallToken | contracts/src/UntchVault.sol:435 | a transfer with the calls its token makes before and after it |
| VaultContract.UntchVault.Deposit | contracts/src/UntchVault.sol:372-377 | does what the model says of a deposit, nested calls and reverts included |
| VaultContract.UntchVault.Spend | contracts/src/UntchVault.sol:396-437 | does what the model says of a signed spend: guards in order, effects, registry, transfer, event |
| VaultContract.UntchVault.SpendFallback | contracts/src/UntchVault.sol:451-475 | does what the model says of a fallback spend |
| VaultContract.UntchVault.OwnerWithdraw | contracts/src/UntchVault.sol:484-488 | does what the model says of the sovereign exit |
| VaultContract.UntchVault.Govern | contracts/src/UntchVault.sol:496-541 | does what the model says of ownership, oracle, pause and allowlist calls |
| VaultContract.UntchVault.Invoke | contracts/src/UntchVault.sol:372-541 | any call on any storage is the model's step |
| VaultContract.UntchVault.Serve | contracts/README.md:345-354 | a whole history run on the contract ends in balanced books |
| Disarm.Platform.Delete | scripts/solana-proof-disarm.ts:111-127 | what a deletion reports, whether it fails and whether it is carried out are independent |
| Disarm.DeleteVariable | scripts/solana-proof-disarm.ts:107-136 | the list, the deletion and the second list, each of which may end it |
| Disarm.DeleteAll | scripts/solana-proof-disarm.ts:206-215 | the armed variables in order, up to the first that is not verified absent |
| Disarm.AwaitContainer | scripts/solana-proof-disarm.ts:233-272 | the polling loop is the specified waiting |
| Disarm.Verify | scripts/solana-proof-disarm.ts:274-296 | the container's own posture and one list of variables for each armed name |
| Disarm.Carry | scripts/solana-proof-disarm.ts:206-313 | steps 2 to 5 in order, each of which may end the run |
| Disarm.Run | scripts/solana-proof-disarm.ts:173-316 | the whole command on any platform and any run of it is the specified one |
| DisarmSteps.RunsInSteps | scripts/solana-proof-disarm.ts:173-316 | every run is that of a machine with one question to the platform at a time, which says what each answer leads to; at most 108 questions |
| DisarmSteps.LooksInSteps | scripts/solana-proof-disarm.ts:182-204 | the first three questions and what may end them |
| DisarmSteps.DeletesInSteps | scripts/solana-proof-disarm.ts:107-136 | is it set, delete it, is it gone: each answer and what it leads to |
| DisarmSteps.WaitsInSteps | scripts/solana-proof-disarm.ts:233-272 | one question every ten seconds until an answer decides or the deadline is there |
| DisarmSteps.ChecksInSteps | scripts/solana-proof-disarm.ts:274-296 | one list for each name, and the container's own words |
| DisarmSteps.DryRunOnlyLooks | scripts/solana-proof-disarm.ts:182-204 | without `--confirm` the world is what the others made of it while at most three questions were put, and the answer is a dry run exactly when all three can be answered |
| DisarmReport.EventsFollow | scripts/solana-proof-disarm.ts:217-222 | while nobody adds an armed variable, later containers capture no armed variable that was not set before, and all keep what they captured |
| DisarmReport.DeletedLeads | scripts/solana-proof-disarm.ts:99-136 | a deletion that is believed means the name is absent, whatever the platform reported |
| DisarmReport.VerifiedDeletionHolds | scripts/solana-proof-disarm.ts:206-296 | from the moment the k-th deletion is verified no container started later captures that variable, to the end of the run and on any outcome |
| DisarmReport.SecretGoesFirst | scripts/solana-proof-disarm.ts:46-66 | so no container started after the first verified deletion has the secret, however far the run gets |
| DisarmReport.AwaitedIsFirst | scripts/solana-proof-disarm.ts:233-272 | the waiting ends with the first answer that will do or is none, asked before the deadline, or at the deadline with no such answer before it |
| DisarmReport.SixtyQuestions | scripts/solana-proof-disarm.ts:234-237 | within the ten minutes it asks at most sixty times |
| DisarmReport.AnswerIsServed | scripts/solana-proof-disarm.ts:246-272 | an answer that is taken is a container's own deployment and start time, another deployment than before and a start after the deletions |
| DisarmReport.CompleteMeansDisarmed | scripts/solana-proof-disarm.ts:206-313 | completion means the container that answered started after all deletions, captured no armed variable and described itself as disarmed, and none is set at the end |
| DisarmReport.DeletedAllSmoothly | scripts/solana-proof-disarm.ts:206-215 | on a platform that carries out and reports deletions, whatever is armed is deleted, in three calls a variable that is there and one that is not |
| DisarmReport.UnhinderedCompletes | scripts/solana-proof-disarm.ts:173-316 | with that, and a container that will do at the first question, the command reports completion from any armed platform |
| DisarmReport.PutBackIsCaptured | scripts/solana-proof-disarm.ts:246-294 | on every platform, whatever is armed, there is a run of the command in which the secret is put back, captured by the new container and removed again, and completion is reported |
| DisarmReport.OldContainerMayServeAgain | scripts/solana-proof-disarm.ts:266-313 | on every platform with a container that holds the secret there is a completed run, with nothing put back, after which one event serves that container |
| Migration.ExpectRejected | scripts/consumer-migrate-verify.ts:54-69 | the statements of the probe, each of which may fail |
| Migration.CleanUpRestores | scripts/consumer-migrate-verify.ts:64-68 | rolling back to the savepoint and releasing it restores the transaction, exactly when both succeed |
| Migration.ExpectRejectedMeans | scripts/consumer-migrate-verify.ts:43-69 | rejected leaves the transaction as it was, accepted has its effect, nothing is committed; and exactly when each answer is given, for statements that fail and for answers that are lost |
| Migration.CountMissing | scripts/consumer-migrate-verify.ts:174-193 | no failure counted exactly when every expected name is there |
| Migration.TryProbe | scripts/consumer-migrate-verify.ts:261-273 | refused without a trace, or accepted and counted |
| Migration.MutationProbes | scripts/consumer-migrate-verify.ts:227-258 | the count is the number of updates and deletions that were not silently discarded |
| Migration.LedgerProbes | scripts/consumer-migrate-verify.ts:225-275 | the count is the number of updates, deletions and zero amounts that got through |
| Migration.InsertProbes | scripts/consumer-migrate-verify.ts:227-238 | the probe rows go in one after the other, or the first that fails stops the run |
| Migration.TenantProbes | scripts/consumer-migrate-verify.ts:277-299 | two tenants must be able to share a key, one failure if one tenant can use it twice |
| Migration.WriteProbes | scripts/consumer-migrate-verify.ts:225-299 | no failure means update and deletion were discarded and the key was shared; without faults exactly when the other two are refused as well |
| Migration.MissingStructure | scripts/consumer-migrate-verify.ts:167-223 | reads only, and counts no failure exactly when every expected table, index and rule is there |
| Migration.Checks | scripts/consumer-migrate-verify.ts:167-314 | apply mode writes nothing; no failure means every check passed, and without faults exactly that |
| Migration.ApplyMigration | scripts/consumer-migrate-verify.ts:149-165 | the migration and its record inside the transaction, or the early way out of an apply run that finds it recorded |
| Migration.Transaction | scripts/consumer-migrate-verify.ts:148-329 | commits only in apply mode, only a new migration, only one that passes; without faults the exact condition of each outcome |
| Migration.ReadSnapshot | scripts/consumer-migrate-verify.ts:368-385 | reads only, and succeeds exactly when the tables it names are there and nothing fails |
| Migration.Guarded | scripts/consumer-migrate-verify.ts:148-335 | with its catch and finally the inner try leaves no transaction open, and the lock held exactly when the unlock failed |
| Migration.Verify | scripts/consumer-migrate-verify.ts:118-349 | with any statement failing or its answer lost: a dry run never changes the committed database, an apply run only into the checked migration; exactly when the session is left with the lock or with a transaction; and without faults exactly when each outcome is answered |
| MigrationOutcomes.MigratedMeans | scripts/consumer-migrate-verify.ts:149-165 | the migration runs over a database with a register and is entered in it under its name |
| MigrationOutcomes.WouldApplyMeans | scripts/consumer-migrate-verify.ts:148-329 | an apply run without faults applies exactly a migration that is not recorded, goes through, and leaves the whole structure and the old data |
| MigrationOutcomes.WouldPassMeans | scripts/consumer-migrate-verify.ts:167-329 | a dry run without faults ends well exactly when each probe, one after the other on the migrated database, gives what it should |
| MigrationOutcomes.WithstandsMeans | scripts/consumer-migrate-verify.ts:225-314 | what a dry run that ended well has seen in any case: the structure, update and deletion discarded, the shared key, the old data |
| MigrationOutcomes.TrialCounts | scripts/consumer-migrate-verify.ts:240-258 | how many of update and deletion got through |
| MigrationOutcomes.CompletesMeans | scripts/consumer-migrate-verify.ts:225-314 | the checks come to an end exactly when everything that must go through does and the tables of the snapshot are there |
| MigrationOutcomes.ErrorAborts | scripts/consumer-migrate-verify.ts:43-69 | an error inside a transaction aborts it, after which only its end or a rollback to a savepoint is accepted |
| MigrationOutcomes.ApplyTwice | scripts/consumer-migrate-verify.ts:149-156 | after a successful apply run, another without faults finds the migration recorded and changes nothing |
| Migration.FailedBeginKeepsLock | scripts/consumer-migrate-verify.ts:146-148 | a BEGIN that fails after the lock was granted leaves the lock with the session |
| Migration.RunToTheEnd | scripts/consumer-migrate-verify.ts:350-353 | closing the connection ends whatever lock or transaction is left, on every path, and no probe row is committed |
| GitCommand.SubcommandAt | scripts/lint/git-destructive.ts:62-72 | the loop finds the specified position |
| GitCommand.Positionals | scripts/lint/git-destructive.ts:88-100 | the loop collects the specified paths |
| GitVerdicts.SubcommandIff | scripts/lint/git-destructive.ts:62-72 | the subcommand is the first word after global options with their values |
| GitVerdicts.VerdictOf | scripts/lint/git-destructive.ts:109-211 | for every command, by subcommand: the options that make it destructive, of which kind, and whether its paths limit it |
| GitVerdicts.NoSubcommandIsSafe | scripts/lint/git-destructive.ts:111 | a command that is only options is safe |
| GitVerdicts.HardResetEndangersAll | scripts/lint/git-destructive.ts:115-130 | a hard reset is destructive and endangers every protected path, whatever else is said |
| GitVerdicts.PathsPieceByPiece | scripts/lint/git-destructive.ts:88-100 | before the separator words are taken one by one, and after it too |
| GitVerdicts.OneWordIsPath | scripts/lint/git-destructive.ts:88-100 | an option is a path only after the separator, the separator never |
| GitCommand.SeparatorSplitsPaths | scripts/lint/git-destructive.ts:88-100 | options before the separator are no paths, everything after it is one |
| GitCommand.CleanCluster | scripts/lint/git-destructive.ts:79-148 | any arrangement of short flags in one option of a clean is forced by f, takes directories with d and ignored files with x |
| GitCommand.SkipsOptions | scripts/lint/git-destructive.ts:65-70 | global options with their values are stepped over |
| GitCommand.SubcommandShifts | scripts/lint/git-destructive.ts:65-70 | from a position on, what stands before it does not matter |
| GitCommand.GlobalOptionsDoNotMatter | scripts/lint/git-destructive.ts:60-211 | global options without the separator leave every verdict alone |
| GitCommand.GlobalOptionsIff | scripts/lint/git-destructive.ts:165-181 | they leave every verdict alone exactly when the separator is not among them |
| GitCommand.LeadingGit | scripts/lint/git-destructive.ts:62-64 | writing git first changes nothing exactly when it was not there or the command was safe |
| GitCommand.ArgumentOrderDoesNotMatter | scripts/lint/git-destructive.ts:109-211 | the verdict but for its paths depends only on which arguments there are |
| GitCommand.AppendingDoesNotDisarm | scripts/lint/git-destructive.ts:109-211 | more arguments never make a destructive reset, clean, checkout or switch safe; a restore exactly through --staged without --worktree |
| GitCommand.PrefixIsAncestor | scripts/lint/git-destructive.ts:229-232 | equality or a prefix with its slash is the prefix relation on path components |
| GitCommand.EndangeredExact | scripts/lint/git-destructive.ts:220-234 | endangered are exactly the protected paths some named path is an ancestor of |
| GitCommand.EndangeredDistributes | scripts/lint/git-destructive.ts:228-233 | lists of protected paths can be judged piece by piece, order kept |
| GitVerdicts.EndangeredOne | scripts/lint/git-destructive.ts:220-234 | a safe command endangers no path, a destructive one without paths any, and one with paths those that a named one is an ancestor of |
| GitVerdicts.NormalisedTo | scripts/lint/git-destructive.ts:226 | one leading `./` and all slashes at the end go, nothing else |
| GitCommand.AncestorsReachMore | scripts/lint/git-destructive.ts:213-233 | naming ancestors instead endangers at least as much |
| GitCommand.DotSlashIsNotDot | scripts/lint/git-destructive.ts:227-232 | `.` reaches everything, `./` only absolute paths and what normalises to nothing |
| GitCommand.WholeTreeIff | scripts/lint/git-destructive.ts:226-232 | a named path reaches everything if and only if it normalises to `.` |
| EnvSwap.ProofIsValid | scripts/prove-network-switch.ts:36-44 | the base environment's keys are all looked after |
| EnvSwap.Process.Save | scripts/prove-network-switch.ts:47-48 | the saved values, absent ones included |
| EnvSwap.Process.AssignAll | scripts/prove-network-switch.ts:49-61 | a loop over the keys sets or deletes exactly those |
| EnvSwap.Process.AssignEntries | scripts/prove-network-switch.ts:50-53 | the overlay, in whatever order its entries come |
| EnvSwap.Process.SwapEnv | scripts/prove-network-switch.ts:46-63 | the callback runs in the base environment overlaid by the overrides on the keys looked after, and these are restored on return and on throw |
| EnvSwap.Process.Run | scripts/prove-network-switch.ts:54-55 | callbacks that write, throw, catch and nest run as specified |
| EnvLaws.Statements | scripts/prove-network-switch.ts:46-63 | an assignment or deletion changes its variable and no other, a throw none |
| EnvLaws.Control | scripts/prove-network-switch.ts:54-62 | what follows a throw is not run, a handler runs exactly after one |
| EnvLaws.CallbackFinds | scripts/prove-network-switch.ts:47-53 | the callback finds the override, else the base value, else nothing where a variable is looked after, else what was there |
| EnvLaws.CallerFinds | scripts/prove-network-switch.ts:54-62 | afterwards the variables looked after are as before and the others as the callback left them; it throws exactly when the callback does |
| EnvSwap.TouchesBounds | scripts/prove-network-switch.ts:46-63 | no other variable than those a program may touch changes, through any nesting and any throw |
| EnvSwap.RestoredIff | scripts/prove-network-switch.ts:46-63 | the whole environment is back exactly when the callback left the other variables alone |
| EnvSwap.RestoresEverythingIff | scripts/prove-network-switch.ts:46-63 | for a callback that touches only the keys looked after it is always back if and only if the overrides name no other |
| EnvSwap.Hermetic | scripts/prove-network-switch.ts:46-63 | the callback cannot tell what those keys were before the call |
| EnvSwap.NestedSees | scripts/prove-network-switch.ts:46-63 | of an outer call's overrides an inner one sees only those outside the keys looked after |
| EnvSwap.CallsInARowAreIndependent | scripts/prove-network-switch.ts:79-171 | a call after one that leaves nothing behind runs as if it were the first |

## Left out

- PngAsset.DecodePng: does not check sums or model inflate, as the source leaves both to the data and to zlib; a size beyond what a buffer can hold is not refused.
- PngAsset.InspectAsset: the ratio test is done in whole numbers, which agrees with the double comparison for 32-bit sizes; the wording of problems is not modelled.
- SurfaceComments.ScanText: rules are predicates on a line, since the regular expressions are data; walking the tree, the deployment scan and the exemptions by path are not modelled.
- LockfileDrift.FindDrift: within one loop over a table the order of names is left open, since JavaScript takes it from insertion; reading files, JSON and workspace globs is replaced by the tables they give.
- LockfileParser.OverridesInvertPrint: about names without a colon, since the first colon ends a key in the source.
- Timelock.UntchReceipts.Execute: receipts, score and audit anchors and events are not modelled.
- Deployment.PhaseOne: the policy registry, the vault factory, gas and chain checks are not modelled, having no part in the roles.
- Governance.Guard: begins at the comparison of the derived signer; argument parsing and the search of a service's source text are not modelled.
- Vault.ExecSound: fee-on-transfer and rebasing tokens are not modelled; EIP-712 digests and the domain are behind the recovered signer, and settings calls emit no modelled event.
- VaultContract.UntchVault.constructor: the constructor's own refusals are the requirement that the epoch length is positive; the other bounds are not needed.
- DisarmReport.CompleteMeansDisarmed: clock skew between the command and the containers is not modelled, nor is a start time that does not parse.
- Migration.Verify: one session without concurrent writers; the three reads of a snapshot are one statement, and the printed comparison after the run is left out.
- GitCommand.Positionals: a value given to an option of the subcommand is counted as a path, as in the source; git's own pathspecs are not modelled.
- EnvSwap.Process.SwapEnv: variable names are case-sensitive, as on POSIX systems.
- Policy engine, orchestrator, canon, proof engine, escalation and adapter packages: not part of this model.
- Demo, smoke and soak drivers, key and catalogue generators, payment probes: plumbing around those packages.
- The English patterns of the public copy lint, and the one-branch checks of the proof controller, deploy target, capability promotion and route classes: easy members only.
