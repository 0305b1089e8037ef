# Verified model of the Label Mod back office

This project models, in Dafny 4.11, the parts of the repository whose correctness is decided by an algorithm or by a
protocol rather than by a form: the barcode and archive encoders, the geometry of printed labels, the numbering of
product variations, and four protocols over database rows and locks (staff bonuses, SMS challenges, variation numbering,
two-step sign-in). It proves properties of that model for all inputs, all runs and all interleavings.

`dafny verify dfyconfig.toml` checks everything.

## How to read it

| files | what they model |
|---|---|
| `Code128Table`, `Code128` | Code 128 (ISO/IEC 15417): choosing symbols, the checksum, bars, merging bars into rectangles |
| `Ean13`, `Ean13Bars` | EAN-13 (GS1 General Specifications, sections 5.2 and 7.9): check digit, in-store serials, bars and their decoder |
| `Crc32`, `ZipPackage`, `PluginPackage` | the plugin package: CRC-32, the stored ZIP records (PKWARE APPNOTE, sections 4.3.7, 4.3.12, 4.3.16, 4.4.7), file order and line ends |
| `Base32`, `Totp` | Base32 (RFC 4648, section 6), truncation (RFC 4226, section 5.3) and the window of accepted codes |
| `LabelGeometry`, `LabelNumbers`, `RollRow` | the layout search and the measurements it yields, the admission check of a multi-column row, and which label goes to which place |
| `Variation`, `VariationLaws`, `VariationRuns` | generating colour and size variations under the allocation lock |
| `LockOrder` | transactions that take locks in ascending order |
| `Bonus`, `BonusRuns`, `BonusLaws` | the staff bonus register, its runs, and where every row of it comes from |
| `SmsFactor`, `SmsRuns`, `SmsLaws`, `SmsLimits` | SMS challenges: quotas, supersession, attempts, delivery; what a code is good for; where the quotas end |
| `Login`, `LoginRuns`, `LoginLaws`, `LoginLimits` | password, ticket, session and enrolment, what a ticket is good for, and when a password gets through beside a factor |
| `Common`, `Decimals`, `Powers`, `CodeUnits`, `Millimetres` | shared vocabulary |

Code that changes things step by step is modelled the same way: loops are methods with invariants, buffers are arrays,
tables are fields of a class, and each such method is proved equal to a function of its inputs or of the old state.
The theorems are about those functions. What a function means is said once more without it, in plain numbers, bytes
and conditions, at the end of its module or in `BonusLaws`, `SmsLaws`, `LoginLaws` and `LabelNumbers`. Each protocol
has two layers: the handler run alone (a class), and a transition system in which any number of requests interleave,
one lock or statement at a time, may fail at any moment, and commit atomically. What a request checks after taking a
lock is shown to hold until it commits; from this follow the invariants of every run.

Conventions. Millimetres are exact reals, rounded where the code rounds. JavaScript's 32-bit operations are written out
on naturals: a shift to the left is reduced modulo 2^32, and since only unsigned shifts and masks look at the result, the
sign plays no part. UUIDs are the numbers their lower-case text writes out, so their text order is the order of numbers.
A transaction reads committed rows, as PostgreSQL's default isolation does; `FOR UPDATE`, advisory locks and unique keys
are exclusive until the end of the transaction; `randomUUID` and random tokens never repeat; an advisory lock is as good
as its text (no two texts share a hash). Permissions, scopes and policies are parameters, fixed during one operation.

## What turned out not to hold

The code was kept as it is. Each exception below is proved with an input or a run from empty tables, and with the
condition under which the code does what it promises.

- The archive is not the same on every system: where folders end in a backslash, `aB` sorts before `a\x` but after
  `a/x`. It is the same exactly when no two paths part at a separator on one side and at a character between `/` and `\`
  on the other (`PluginPackage.SeparatorsMatterIff`). A text that holds a CR LF pair is packed differently from a Windows
  checkout of it (`PluginPackage.LineEndsMatterIff`).
- The row check does not look at the first column's right edge and the last one's left edge. With a negative label width
  that lets a column off the paper (`RollRow.NegativeWidthSlipsThrough`); the check implies containment exactly when
  columns run to the right or those two edges are in place (`RollRow.AdmittedMeansAllInsideIff`). The routes never send
  such a width: they ask for at least 30 mm (apps/api/src/http/catalog-routes.ts:77-78).
- Labels finer than a thousandth of a millimetre and without a gap can overlap by that rounding (`RollRow.OverlapExample`).
  Admitted rows of one width and gap never do exactly when the pitch rounded down leaves room for the label, or not even
  two labels fit side by side (`RollRow.NeverOverlapsIff`).
- A print job without labels on a roll that does not start at its first place prints one empty row
  (`RollRow.EveryRowHoldsIff`). The routes ask for at least one item, each at
  least once, and refuse a list of which nothing is found (apps/api/src/http/catalog-routes.ts:84-92, 184-186).
- The barcode can be wider than the inner width, by the tolerance of the check (`LabelGeometry.WiderByTolerance`); exactly
  when, says `LabelGeometry.FitsWithin`, and never where the roll measures whole quarters of a millimetre
  (`LabelGeometry.QuarterWidthsKeepInside`).
- A SKU held by another product, imported or left behind by a renamed one, undoes a whole generation
  (`VariationLaws.ImportedSkuInTheWay`; exactly when: `VariationLaws.GenerateIff`).
- The table's key does not compare absent colours and sizes, and an amendment takes no allocation lock. So an amendment can
  repeat a pair at once (`VariationRuns.AmendRepeatsAbsentColor`), or take a pair that a running generation has read as
  missing and then makes again (`VariationRuns.AmendRacesCommit`). In any run nothing is ever repeated exactly when each
  amendment and each commit meets no row with its own combination (`VariationRuns.RunApartIff`). The lock takes care of the
  commits if every amendment is guarded: no other row of the product holds the pair and, for a pair with an absent part,
  no generation that has already read is about to make it (`VariationRuns.AmendSoundIff`, `VariationRuns.RunSound`).
- The SMS quota for an address needs one text per address, since the lock knows only the text: with two texts a run gets
  four challenges through at one moment (`SmsLimits.TwoTextsBreakTheQuota`). The quotas of users and numbers hold in every
  run, however addresses are written; the quota of an address exactly when it has one text (`SmsLimits.QuotaKeptIff`), and
  all of them exactly when no two texts name one address (`SmsLimits.QuotasKeptIff`). Nothing else depends on the texts.
- The SMS quota holds for windows open on one side. Closed at both ends, fifteen minutes hold at most six challenges, and
  a run reaches six (`SmsLimits.ClosedAtMostSix`, `SmsLimits.ClosedWindowHoldsSix`). They stay at three if the check counts
  the instant fifteen minutes back as well; when requests commit in the order of their starts, exactly if
  (`SmsLimits.ClosedWindowsKeptIff`).
- A request on a password session is let in beside a factor, or a password session opened beside one, in runs where the
  enrolment commits between check and answer (`LoginLimits.EnrolledAfterTheCheck`, `LoginLimits.SignedInPastTheCheck`).
  It takes a first enrolment after the moment of the check; as long as no factor is removed, that is exactly when it
  happens (`LoginLimits.AdmittedBesideFactorIff`, `LoginLimits.OpenedBesideFactorIff`). From then on the session is
  powerless (`LoginRuns.PasswordSessionPowerless`).

Where comments and code disagree the code was followed: the comment above `completeSecondFactor`
(apps/api/src/auth/service.ts:288-294) says a ticket is spent by any second step, but a wrong code leaves it
(apps/api/src/http/auth-routes.ts:240-245); line 9 of integrations/woocommerce/package.ts promises an order independent of
the system.

## Model

| member | source | states |
|---|---|---|
| `Code128.FindDigitRun` | apps/api/src/catalog/code128.ts:58-62 | finds the longest run of digits from a position |
| `Code128.TakeTurn` | apps/api/src/catalog/code128.ts:64-78 | one turn of the greedy loop emits exactly the symbols, the new position and the code set of the specification |
| `Code128.SymbolValues` | apps/api/src/catalog/code128.ts:55-80 | the loop terminates and yields the symbols the specification assigns to the text |
| `Code128.ReadSymbolsFrom` | apps/api/src/catalog/code128.ts:64-80 | from any position and code set, a reader that tracks B and C recovers the rest of the text, although 99 and 100 mean different things in the two sets |
| `Code128.LengthFrom` | apps/api/src/catalog/code128.ts:64-80 | entering C never costs more than its pairs save; values after the start symbol are at most 100 |
| `Code128.SymbolsShape` | apps/api/src/catalog/code128.ts:50-80 | a start symbol, then at most as many symbols as characters, so every checksum weight stays below 103 |
| `Code128.SubstitutionDetected` | apps/api/src/catalog/code128.ts:88 | replacing one symbol, the start included, leaves the check symbol unchanged if and only if the values agree modulo 103 |
| `Code128.SwapDetected` | apps/api/src/catalog/code128.ts:88 | exchanging two neighbouring data symbols leaves the check symbol unchanged if and only if they agree modulo 103 |
| `Code128.DrawSymbols` | apps/api/src/catalog/code128.ts:89-93 | the drawing loop writes the bars of all symbols and of the stop symbol |
| `Code128.Modules` | apps/api/src/catalog/code128.ts:83-95 | the modules of the text with its checksum, or the refusal of a text that cannot be encoded |
| `Code128.ModulesReadBack` | apps/api/src/catalog/code128.ts:55-95 | an independent decoder (eleven modules a symbol, thirteen for stop, checksum verified) returns exactly the original text for every encodable text |
| `Code128.ModulesInjective` | apps/api/src/catalog/code128.ts:83-95 | two different texts never share a bar pattern |
| `Code128.MisreadSymbolRefused` | apps/api/src/catalog/code128.ts:83-95 | a label with one symbol misread, or its start symbol read as the other one, is refused by that decoder |
| `Code128.SwappedSymbolsRefused` | apps/api/src/catalog/code128.ts:83-95 | a label with two different neighbouring data symbols exchanged is refused |
| `Code128.MergeBars` | apps/api/src/catalog/code128.ts:114-122 | the merged rectangles are separated, none is empty, and together they cover exactly the dark modules |
| `Code128.CheckSymbolPrinted` | apps/api/src/catalog/code128.ts:87-93 | the printed check symbol is the start value plus the running totals of the data symbols, modulo 103 |
| `Code128.StopPrinted` | apps/api/src/catalog/code128.ts:34-47 | every label ends in the thirteen modules of the stop symbol |
| `Code128.TurnRule` | apps/api/src/catalog/code128.ts:64-78 | pairs are used from six digits on, from four at an end of the text, from two where they are in use already; all whole pairs are taken |
| `Code128.DigitsTakePairs` | apps/api/src/catalog/code128.ts:64-95 | the exact length of a text of digits: half as many symbols, and a switch for an odd one out |
| `Code128.EncodableIs` | apps/api/src/catalog/code128.ts:50-52 | one to forty-eight printable ASCII characters |
| `Code128Table.Listed0` | apps/api/src/catalog/code128.ts:26-38 | the first ten symbols have the widths listed; so for the other rows of the table |
| `Code128Table.PatternsDistinct` | apps/api/src/catalog/code128.ts:26-38 | no two symbols have the same widths |
| `Code128Table.PatternsElevenModules` | apps/api/src/catalog/code128.ts:26-38 | every symbol but stop is eleven modules wide with no empty bar or space |
| `Ean13.Ean13CheckDigit` | apps/api/src/catalog/barcode.ts:26-36 | the digit that completes the sum weighted 1, 3, 1, 3, or the refusal of anything but twelve digits |
| `Ean13.ValidIffSumIsMultipleOfTen` | apps/api/src/catalog/barcode.ts:26-36 | thirteen digits are valid if and only if their weighted sum is a multiple of ten |
| `Ean13.SingleErrorDetected` | apps/api/src/catalog/barcode.ts:26-36 | every single wrong digit, the check digit included, makes a valid barcode invalid |
| `Ean13.SwapUndetectedIff` | apps/api/src/catalog/barcode.ts:26-36 | exchanging neighbours goes unnoticed if and only if the digits are equal or differ by five |
| `Ean13.SerialRoundTrip` | apps/api/src/catalog/barcode.ts:39-60 | exactly the serials in range get an in-store barcode, from which the same serial is read |
| `Ean13.BarcodeRoundTrip` | apps/api/src/catalog/barcode.ts:39-60 | every in-store barcode is the one made for the serial read from it |
| `Ean13.MakeEan13Injective` | apps/api/src/catalog/barcode.ts:39-45 | different serials get different barcodes |
| `Ean13.CheckDigitIs` | apps/api/src/catalog/barcode.ts:26-36 | the twelve digits, every second one three times, and the check digit add up to a multiple of ten |
| `Ean13.MadeIs` | apps/api/src/catalog/barcode.ts:39-45 | an in-store barcode is 20, the serial in ten digits and a check digit |
| `Ean13Bars.Ean13Modules` | apps/api/src/catalog/barcode-svg.ts:85-107 | the 95 modules, or the right one of two refusals |
| `Ean13Bars.DecodeEan13Modules` | apps/api/src/catalog/barcode-svg.ts:115-152 | the decoder's loops compute the specified decoding of any string |
| `Ean13Bars.StandardUnambiguous` | apps/api/src/catalog/barcode-svg.ts:25-59 | the derived tables: no code is read as another, G mirrors R, no parity is six times G |
| `Ean13Bars.DecodeOfModules` | apps/api/src/catalog/barcode-svg.ts:85-152 | every valid barcode is decoded back from its modules |
| `Ean13Bars.ModulesOfDecoded` | apps/api/src/catalog/barcode-svg.ts:85-152 | every module string that is decoded is the encoding of what it was decoded to |
| `Ean13Bars.MirrorRefused` | apps/api/src/catalog/barcode-svg.ts:85-152 | the mirror image of an encoded barcode is always rejected |
| `Ean13Bars.StandardBarcodes` | apps/api/src/catalog/barcode-svg.ts:25-152 | all three statements for the tables of the code |
| `Ean13Bars.PrintedIs` | apps/api/src/catalog/barcode-svg.ts:85-107 | guards 101, 01010 and 101 in their places, and between them every digit in the L, G or R code of its place, given as numbers |
| `Crc32.Crc32Of` | integrations/woocommerce/package.ts:10-17 | the nested loops compute the specified register |
| `Crc32.PolyIsGenerator` | integrations/woocommerce/package.ts:14 | the constant is the reflected CRC-32 generator polynomial |
| `Crc32.RegisterIsRemainder` | integrations/woocommerce/package.ts:10-17 | the division register holds a remainder of the message polynomial by the generator |
| `Crc32.RemainderUnique` | integrations/woocommerce/package.ts:10-17 | there is only one remainder of that degree |
| `Crc32.CrcIsRemainder` | integrations/woocommerce/package.ts:10-17 | the loop's result is the complement of the remainder of the complemented, extended message |
| `Crc32.DamageDetected` | integrations/woocommerce/package.ts:10-17 | any change confined to four neighbouring bytes of any input changes the checksum |
| `ZipPackage.BuildLocalHeader` | integrations/woocommerce/package.ts:41-44 | every field of the local header lies where the format has it, or the number does not fit |
| `ZipPackage.BuildCentralHeader` | integrations/woocommerce/package.ts:45-49 | the same for the directory entry and its offset |
| `ZipPackage.BuildEndRecord` | integrations/woocommerce/package.ts:53-55 | the same for the end record |
| `ZipPackage.WriteArchive` | integrations/woocommerce/package.ts:35-56 | the loop writes the local records, the directory with running offsets and the end record, or refuses what a 32-bit ZIP cannot hold |
| `ZipPackage.ReadDirectoryBack` | integrations/woocommerce/package.ts:45-51 | every directory entry leads back to its own local record |
| `ZipPackage.ArchiveReadsBack` | integrations/woocommerce/package.ts:35-56 | a reader that starts from the last 22 bytes recovers exactly the names and contents, checksums verified and every header plain (stored, no extra field, no comment, one disk) |
| `ZipPackage.ArchiveInjective` | integrations/woocommerce/package.ts:35-56 | different lists of files give different archives |
| `ZipPackage.LocalHeaderIs` | integrations/woocommerce/package.ts:41-44 | the thirty bytes, one by one |
| `ZipPackage.CentralHeaderIs` | integrations/woocommerce/package.ts:45-49 | the forty-six bytes, one by one |
| `ZipPackage.EndRecordIs` | integrations/woocommerce/package.ts:53-55 | the twenty-two bytes, one by one |
| `ZipPackage.FitsIs` | integrations/woocommerce/package.ts:41-55 | what the fields can hold |
| `PluginPackage.PackagePlugin` | integrations/woocommerce/package.ts:31-56 | the package of a directory listing: sorted, renamed, normalised and written |
| `PluginPackage.SortedUnique` | integrations/woocommerce/package.ts:31 | only one arrangement of the same files is in code-unit order |
| `PluginPackage.ListingDoesNotMatter` | integrations/woocommerce/package.ts:9-31 | the order in which a system lists the directory does not reach the archive |
| `PluginPackage.CheckoutUndone` | integrations/woocommerce/package.ts:39 | normalising undoes a checkout with Windows line ends, for every text |
| `PluginPackage.NormalizeFixedIff` | integrations/woocommerce/package.ts:39 | a text is packed unchanged if and only if it holds no CR LF pair |
| `PluginPackage.LineEndsMatterIff` | integrations/woocommerce/package.ts:39 | both checkouts give one archive if and only if no stored text holds a CR LF pair |
| `PluginPackage.OrderKeptIff` | integrations/woocommerce/package.ts:31-38 | two paths keep their order under the other separator if and only if they do not cross |
| `PluginPackage.CrossingPair` | integrations/woocommerce/package.ts:9-38 | two such paths, and that the other separator turns their order round |
| `PluginPackage.SeparatorsMatterIff` | integrations/woocommerce/package.ts:9-38 | both systems write one archive if and only if no two paths cross |
| `PluginPackage.EntryIs` | integrations/woocommerce/package.ts:38-39 | a file is stored below labelmod-connector/ under its path with slashes, normalised |
| `Base32.Base32Encode` | apps/api/src/auth/totp.ts:27-41 | the loop over the never-masked 32-bit accumulator writes the base-32 digits of the bytes read as one number |
| `Base32.Base32Decode` | apps/api/src/auth/totp.ts:43-61 | the loop writes the base-256 digits of the letters read as one number, or refuses a foreign character |
| `Base32.TakeIn` | apps/api/src/auth/totp.ts:32-54 | shifting a digit into 32 bits keeps the bits that are still waiting, whatever has been shifted out |
| `Base32.PutOut` | apps/api/src/auth/totp.ts:34-57 | the digit taken out is the next digit of the whole number |
| `Base32.Base32RoundTrip` | apps/api/src/auth/totp.ts:27-61 | whatever cleans to the letters of some bytes decodes to those bytes, at any length |
| `Base32.EncodedIsClean` | apps/api/src/auth/totp.ts:27-61 | the letters themselves decode to the bytes |
| `Base32.IgnoredAnywhere` | apps/api/src/auth/totp.ts:46 | white space or padding anywhere in the text changes nothing |
| `Base32.LowerCaseRead` | apps/api/src/auth/totp.ts:46 | lower case is read as upper case |
| `Base32.ReencodeIff` | apps/api/src/auth/totp.ts:43-61 | decoding fails exactly on foreign characters; re-encoding gives the cleaned text back if and only if its spare bits are fewer than five and zero |
| `Base32.LetterIs` | apps/api/src/auth/totp.ts:22-41 | the alphabet of RFC 4648 |
| `Base32.FooIs` | apps/api/src/auth/totp.ts:27-41 | a vector of RFC 4648, section 10 |
| `Totp.TruncateIs` | apps/api/src/auth/totp.ts:92-99 | the truncation is the low 31 bits of the four bytes at the offset, read as one big-endian number |
| `Totp.CodeTextShape` | apps/api/src/auth/totp.ts:101 | exactly as many digits as asked for, spelling the number modulo that power of ten |
| `Totp.MessageInjective` | apps/api/src/auth/totp.ts:86-90 | different counters are different messages, over all 64 bits |
| `Totp.VerifyTotp` | apps/api/src/auth/totp.ts:121-147 | the loop accepts if and only if some counter of the window gives the code; it refuses an invalid secret and a counter that cannot be written |
| `Totp.StepsApart` | apps/api/src/auth/totp.ts:104-136 | clocks that differ by at most the window are at most that many steps apart |
| `Totp.CodeAcceptedNearby` | apps/api/src/auth/totp.ts:104-147 | a code made at one time is accepted at any other within the window, with any spaces typed into it |
| `Totp.ZeroDigitsRefused` | apps/api/src/auth/totp.ts:101-128 | with zero digits nothing is ever accepted |
| `Totp.MessageIs` | apps/api/src/auth/totp.ts:86-90 | the counter's eight bytes, highest first |
| `Totp.HotpIs` | apps/api/src/auth/totp.ts:80-101 | the code is the truncated digest modulo a power of ten, for counters of 64 bits |
| `Totp.AcceptedIff` | apps/api/src/auth/totp.ts:121-147 | accepted exactly if, without its spaces, it is the code of a time step at most that many steps away |
| `LabelGeometry.SearchStage` | apps/api/src/catalog/label.ts:291-301 | one stage finds the largest font that works, stepping down by rounded tenths, or shows that none does |
| `LabelGeometry.FindGeometry` | apps/api/src/catalog/label.ts:250-306 | the search returns the first layout that works in order of preference, or the refusal when none does |
| `LabelGeometry.BestUnique` | apps/api/src/catalog/label.ts:276-306 | there is only one such layout |
| `LabelGeometry.RollFitsIff` | apps/api/src/catalog/label.ts:250-306 | a roll label fits if and only if it is 30 wide, 20 high and the barcode fits at 0.25 mm |
| `LabelGeometry.SheetFitsIff` | apps/api/src/catalog/label.ts:250-306 | a sheet label fits if and only if the barcode fits at 0.3 mm and the height is at least 18.72 |
| `LabelGeometry.FitsWithin` | apps/api/src/catalog/label.ts:240-306 | paddings, gaps and rows never exceed the height, bars are at least 5 mm, and the barcode exceeds the inner width only by the tolerance, and exactly when it says |
| `LabelGeometry.WiderByTolerance` | apps/api/src/catalog/label.ts:180-187 | a roll on which a barcode wider than the inner width still fits |
| `LabelGeometry.QuarterWidthsKeepInside` | apps/api/src/catalog/label.ts:250-306 | with widths in whole quarters of a millimetre the barcode never exceeds the inner width |
| `LabelGeometry.MinRollWidthExact` | apps/api/src/catalog/label.ts:180-187 | the width named to the user is the least whole width that works |
| `LabelNumbers.ModuleIs` | apps/api/src/catalog/label.ts:259-263 | on a roll that fits, the module is 0.375 mm if and only if the barcode then fits the inner width, else 0.25 mm; on a sheet 0.3 mm |
| `LabelNumbers.MeasuresAre` | apps/api/src/catalog/label.ts:265-290 | paddings, rows of text and bars, in millimetres, from font, lines and shop name |
| `LabelNumbers.FirstThatWorks` | apps/api/src/catalog/label.ts:276-301 | the layout is the first in order of preference, and the largest font, that leaves enough for the bars |
| `LabelNumbers.RefusedIs` | apps/api/src/catalog/label.ts:303-306 | what is returned for a label that does not fit |
| `RollRow.AdmittedMeansAllInsideIff` | apps/api/src/catalog/label.ts:95-123 | when the check passes, every column lies on the paper and under the head if and only if columns run to the right or the two edges the check leaves out are in place |
| `RollRow.AdmittedRowPrints` | apps/api/src/catalog/label.ts:84-123 | for every width from zero up, every column of an admitted row is on the paper and under the head |
| `RollRow.RefusedOnlyIf` | apps/api/src/catalog/label.ts:95-117 | a row in range is refused for its position only when some column is outside |
| `RollRow.NegativeWidthSlipsThrough` | apps/api/src/catalog/label.ts:95-117 | a negative width that is admitted with a column off the paper |
| `RollRow.GapKept` | apps/api/src/catalog/label.ts:84-89 | neighbours are apart by the gap asked for, within a thousandth of a millimetre |
| `RollRow.GapExact` | apps/api/src/catalog/label.ts:84-89 | and exactly by it when width and gap together are whole thousandths |
| `RollRow.NeverOverlapsIff` | apps/api/src/catalog/label.ts:84-117 | no two labels of an admitted row of this width and gap overlap, for every row, if and only if the pitch rounded down leaves room for the label or two labels do not fit at all |
| `RollRow.TightAdmitted` | apps/api/src/catalog/label.ts:84-117 | wherever two labels fit, the row that shows the worst rounding is admitted |
| `RollRow.OverlapExample` | apps/api/src/catalog/label.ts:84-117 | an admitted row whose labels overlap by the rounding |
| `RollRow.LayRows` | apps/api/src/catalog/label.ts:531-540 | the loops fill just enough rows with the cells in order |
| `RollRow.RowPage` | apps/api/src/catalog/label.ts:525-541 | the page, or the problem of the row |
| `RollRow.LabelPlace` | apps/api/src/catalog/label.ts:529-540 | label k stands in row (k + start - 1) / columns at place (k + start - 1) % columns |
| `RollRow.OnlyLabels` | apps/api/src/catalog/label.ts:529-540 | no cell holds anything else |
| `RollRow.PageHoldsLabels` | apps/api/src/catalog/label.ts:529-540 | read row by row, the page is the labels in request order, each once |
| `RollRow.EveryRowHoldsIff` | apps/api/src/catalog/label.ts:529-540 | every row holds a label if and only if there are labels or the roll starts at its first place |
| `RollRow.LeftIs` | apps/api/src/catalog/label.ts:84-89 | the row is centred on the paper and moved by the offset; places are rounded to thousandths |
| `RollRow.AdmittedIff` | apps/api/src/catalog/label.ts:95-117 | a row is admitted if and only if its numbers are in range and its ends are on the paper and under the head, in millimetres |
| `RollRow.ProblemBecause` | apps/api/src/catalog/label.ts:95-117 | each refusal tells the truth about the row |
| `Variation.Dedupe` | apps/api/src/catalog/variation.ts:409-419 | the loop keeps the first of each trimmed value |
| `Variation.DedupedIs` | apps/api/src/catalog/variation.ts:409-419 | exactly the non-blank values mentioned, once each |
| `Variation.ListCombos` | apps/api/src/catalog/variation.ts:134-139 | the nested loops list all pairs |
| `Variation.NextSkuSeq` | apps/api/src/catalog/variation.ts:397-407 | one more than the largest number behind the product's code |
| `Variation.SkusApart` | apps/api/src/catalog/variation.ts:169-180 | SKUs of different codes are never equal, nor are two numbers of one code |
| `Variation.MadeAndSkipped` | apps/api/src/catalog/variation.ts:146-205 | created plus skipped is exactly what was asked for, and old rows stay as they were |
| `Variation.Catalog.Generate` | apps/api/src/catalog/variation.ts:104-206 | the method changes the table as specified, or leaves it alone and names the error |
| `VariationLaws.RequestNoRepeat` | apps/api/src/catalog/variation.ts:111-139 | the combinations of one request are all different |
| `VariationLaws.GenerateIff` | apps/api/src/catalog/variation.ts:156-205 | generation succeeds if and only if nothing is to be made, or serials are left for all and no other product holds one of the SKUs about to be given out |
| `VariationLaws.GenerateKeepsApart` | apps/api/src/catalog/variation.ts:141-205 | no SKU, barcode or colour and size of a product twice, absent ones included |
| `VariationLaws.RepeatMakesNothing` | apps/api/src/catalog/variation.ts:141-205 | asked again at any later time, even after a rename, nothing is made and all is skipped |
| `VariationLaws.OwnCodesNeverTrip` | apps/api/src/catalog/variation.ts:156-180 | with SKUs made only from unshared codes, generation fails only for lack of serials |
| `VariationLaws.ImportedSkuInTheWay` | apps/api/src/import/run.ts:626-648 | an imported SKU that undoes a generation |
| `VariationLaws.MadeIs` | apps/api/src/catalog/variation.ts:169-205 | row k that is made: the k-th missing combination, the k-th SKU in at least three digits, the in-store barcode of the k-th serial |
| `VariationLaws.TodoIs` | apps/api/src/catalog/variation.ts:146-160 | to be made is what was asked for and no row of the product has |
| `VariationLaws.MaxSerialIs` | apps/api/src/catalog/variation.ts:370-396 | the largest in-store serial on the table |
| `VariationLaws.MaxTailIs` | apps/api/src/catalog/variation.ts:397-407 | the largest number behind the product's code |
| `VariationLaws.PairAt` | apps/api/src/catalog/variation.ts:134-139 | all sizes of the first colour, then of the second, and so on |
| `VariationLaws.TrimIs` | apps/api/src/catalog/variation.ts:409-419 | trimming takes white space off both ends and nothing else |
| `VariationLaws.AnswerRefuses` | apps/api/src/catalog/variation.ts:111-133 | no attribute, more than four hundred pairs, no such product |
| `VariationRuns.RunKeepsKeys` | db/migrations/001_core.sql:279-291 | whatever interleaves, no SKU or barcode is ever held by two rows, because the table's unique keys refuse the write |
| `VariationRuns.AmendKeepsApartIff` | db/migrations/032_product_pricing.sql:255-284 | an amendment repeats nothing if and only if no other row of the product holds the pair |
| `VariationRuns.CommitKeepsApartIff` | apps/api/src/catalog/variation.ts:156-205 | a commit repeats nothing if and only if no row of the product holds a pair it makes |
| `VariationRuns.RunApartIff` | apps/api/src/catalog/variation.ts:141-205 | in every run, amendments included, nothing is ever held twice if and only if every amendment and commit was careful in that sense |
| `VariationRuns.AmendSoundIff` | db/migrations/032_product_pricing.sql:255-284 | an amendment keeps what makes later commits careful if and only if it is guarded |
| `VariationRuns.RunSound` | apps/api/src/catalog/variation.ts:141-205 | however calls, renames, imports and guarded amendments interleave, no SKU, barcode, or colour and size of a product is ever held twice |
| `VariationRuns.CommitIsGenerateIff` | apps/api/src/catalog/variation.ts:141-205 | with the product's own rows as the call read them, a commit is the call run alone on the table of that moment if and only if it makes nothing or no import, which takes no lock, has brought a higher serial |
| `VariationRuns.OwnStays` | apps/api/src/catalog/variation.ts:141-205 | while a call holds the lock, only an amendment of the product's own rows changes what it has read of them |
| `VariationRuns.AmendRepeatsAbsentColor` | db/migrations/032_product_pricing.sql:255-284 | a run from an empty table in which an amendment repeats a pair with an absent colour |
| `VariationRuns.AmendRacesCommit` | db/migrations/032_product_pricing.sql:255-284 | a run from an empty table in which an amendment between a call's reading and its commit makes the commit repeat a pair |
| `LockOrder.NoWaitCycle` | apps/api/src/http/bonus-routes.ts:306-313 | transactions with ascending lock plans never wait in a circle |
| `LockOrder.SomeoneProceeds` | apps/api/src/http/bonus-routes.ts:306-313 | however many run, one of them can go on |
| `Bonus.Register.SettleBonuses` | apps/api/src/http/bonus-routes.ts:297-322 | a selection in any order is sorted, checked in order, settled as a whole or not at all, and reported with its total; a bad selection is refused; replay and conflict by key |
| `Bonus.SortedPermutes` | apps/api/src/http/bonus-routes.ts:301 | sorting neither loses nor doubles an item |
| `Bonus.OrderDoesNotMatter` | apps/api/src/http/bonus-routes.ts:301-303 | the same bonuses picked in another order are the same request: carried out, replayed or refused alike |
| `Bonus.Register.DecideBonus` | apps/api/src/http/bonus-routes.ts:334-365 | the decision handler, error by error; what is recorded is the verdict and the actor, and the status follows the verdict |
| `Bonus.Register.AwardBonus` | apps/api/src/http/bonus-routes.ts:252-276 | the award handler, error by error |
| `Bonus.Register.RequestBonus` | apps/api/src/http/bonus-routes.ts:187-203 | the request handler |
| `Bonus.Register.CheckItems` | apps/api/src/http/bonus-routes.ts:307-314 | the first item that cannot be settled decides the error |
| `Bonus.SettledReport` | apps/api/src/http/bonus-routes.ts:154-162 | a settled batch is reported as exactly its items with the sum of their amounts |
| `Bonus.TotalIs` | apps/api/src/http/bonus-routes.ts:154-162 | one more bonus adds its amount to the total |
| `Bonus.DecideDoneIff` | apps/api/src/http/bonus-routes.ts:340-360 | a decision is done exactly on another's undecided, unpaid request by a manager in whose scope it lies, and records exactly that verdict |
| `Bonus.RequestDoneIff` | apps/api/src/http/bonus-routes.ts:187-203 | when a request is done, and what it records |
| `Bonus.AwardDoneIff` | apps/api/src/http/bonus-routes.ts:252-276 | when an award is done, and what it records |
| `Bonus.SettleDoneIff` | apps/api/src/http/bonus-routes.ts:297-322 | one to five hundred different bonuses are settled exactly if each is payable by this actor, and what is recorded for each |
| `Bonus.RefusedBecause` | apps/api/src/http/bonus-routes.ts:187-365 | each refusal tells the truth about the request |
| `Bonus.PermissionFirst` | apps/api/src/http/bonus-routes.ts:297-340 | whoever is no manager any more is told nothing, not even an old answer |
| `BonusRuns.StepKeeps` | apps/api/src/http/bonus-routes.ts:303-320 | what an operation has checked under its locks stays true until it commits |
| `BonusRuns.CommitIsSerial` | apps/api/src/http/bonus-routes.ts:303-360 | whatever else runs, a commit does exactly what the handler alone would do |
| `BonusRuns.RequestIsPrepared` | apps/api/src/http/bonus-routes.ts:301-303 | what runs is the request as it came in, in whatever order its items were picked |
| `BonusRuns.RunIsSerial` | apps/api/src/http/bonus-routes.ts:297-365 | every interleaving ends as some one-after-the-other execution of its committed operations |
| `BonusRuns.NoDeadlock` | apps/api/src/http/bonus-routes.ts:300-315 | overlapping batches and decisions never wait in a circle |
| `BonusRuns.SomebodyGoesOn` | apps/api/src/http/bonus-routes.ts:300-315 | some running operation always has its next lock free |
| `BonusRuns.DoneKeeps` | db/migrations/098_staff_bonus_register.sql:141-270 | an operation keeps the register in order and only adds rows |
| `BonusRuns.RunKeeps` | db/migrations/098_staff_bonus_register.sql:49-270 | in every run: only requests are decided, only approved ones and awards settled, never by the beneficiary; every batch is all of one recorded operation; no row is lost or changed |
| `BonusRuns.StatusMovesForward` | db/migrations/098_staff_bonus_register.sql:347-356 | a status only moves from pending to approved or rejected and from approved to settled; an award is never reviewed |
| `BonusRuns.SettledOnce` | apps/api/src/http/bonus-routes.ts:306-318 | the number of committed settlements that hold a bonus is one if it became settled and zero otherwise |
| `BonusRuns.DecidedOnce` | apps/api/src/http/bonus-routes.ts:346-358 | the same for decisions: however many race, one is recorded |
| `BonusRuns.RunSettlesOnce` | apps/api/src/http/bonus-routes.ts:297-365 | both, for every run from an empty register |
| `BonusRuns.ReportStays` | apps/api/src/http/bonus-routes.ts:154-162 | whenever a recorded settlement is reported again, it is the same items and total, or refused for scope |
| `BonusRuns.RepeatReplays` | apps/api/src/lib/idempotency.ts:52-108 | sent again under its key at any later time, a successful operation changes nothing and is answered as before, exactly if the sender is still permitted and still has its rows in scope |
| `BonusRuns.SenderIsAnswered` | apps/api/src/http/bonus-routes.ts:303-320 | which holds for the same sender with the same scope |
| `BonusRuns.KeyNotReused` | apps/api/src/lib/idempotency.ts:69-81 | a different request under that key is refused at any later time |
| `BonusLaws.RunRowsAsAsked` | apps/api/src/http/bonus-routes.ts:187-365 | in every run each bonus, decision and settlement holds exactly what a committed operation asked for |
| `BonusLaws.RunDecisionStands` | apps/api/src/http/bonus-routes.ts:334-365 | in every run a committed decision is the one recorded, and a bonus whose decision was a rejection is never settled |
| `BonusLaws.DecisionRecorded` | apps/api/src/http/bonus-routes.ts:346-358 | what a committed decision decided stays recorded |
| `SmsFactor.AddressFirst` | apps/api/src/auth/sms-factor.ts:74-76 | sorting the two lock texts always puts the address first |
| `SmsFactor.SmsTables.Request` | apps/api/src/auth/sms-factor.ts:62-92 | number, quota, supersession and the new challenge, or the right error and no change |
| `SmsFactor.SmsTables.Consume` | apps/api/src/auth/sms-factor.ts:96-108 | one attempt: counted; right means six digits that are the secret; used up by a right answer or a third try |
| `SmsFactor.SmsTables.VerifyLogin` | apps/api/src/auth/sms-factor.ts:126-135 | true exactly for six digits that are the secret of the challenge, sent to the number that is still the factor; factors stay |
| `SmsFactor.SmsTables.ConfirmEnrollment` | apps/api/src/auth/sms-factor.ts:110-124 | true exactly for six digits that are the secret of the challenge; only then the number becomes the factor, and all challenges are spent |
| `SmsFactor.SmsTables.Disable` | apps/api/src/auth/sms-factor.ts:137-145 | the factor goes and all challenges are spent |
| `SmsRuns.NothingShared` | apps/api/src/auth/sms-factor.ts:63-76 | two requests with all their locks share no user, no number, no text of an address, and no address that has one text |
| `SmsRuns.WindowWithNew` | apps/api/src/auth/sms-factor.ts:77-82 | a challenge admitted by the count keeps every fifteen-minute window at three |
| `SmsRuns.AskedKeeps` | apps/api/src/auth/sms-factor.ts:77-89 | supersession and insertion keep all invariants |
| `SmsRuns.StepKeeps` | apps/api/src/auth/sms-factor.ts:54-164 | so does every statement, the worker's included |
| `SmsRuns.RunKeeps` | apps/api/src/auth/sms-factor.ts:54-164 | in every run, although start times differ from lock order and however addresses are written: at most three challenges per number and user, and per address with one text, in any fifteen minutes; one unused challenge per user and purpose; no used challenge with a code |
| `SmsRuns.RunCounts` | apps/api/src/auth/sms-factor.ts:96-108 | in every run the attempts column counts exactly the answers measured, and at most one of them is right |
| `SmsRuns.TriedThriceWonOnce` | apps/api/src/auth/sms-factor.ts:96-108 | at most three tries and one success in every run |
| `SmsRuns.PlanIsSorted` | apps/api/src/auth/sms-factor.ts:63-76 | the plan of locks ends in the order of the sorted texts |
| `SmsRuns.NoDeadlock` | apps/api/src/auth/sms-factor.ts:63-76 | number and address locks never form a circle |
| `SmsRuns.SomebodyGoesOn` | apps/api/src/auth/sms-factor.ts:63-76 | some running request always has its next lock free |
| `SmsLaws.FactorEarned` | apps/api/src/auth/sms-factor.ts:54-124 | in every run, whoever has a number as factor answered, with the very code sent to it, a challenge they asked for to enrol it |
| `SmsLaws.NeverFour` | apps/api/src/auth/sms-factor.ts:77-82 | in every run no user and no number has four challenges within 900 seconds |
| `SmsLaws.CodeLastsTwoMinutes` | apps/api/src/auth/sms-factor.ts:86-107 | a delivered code is what an answer is measured against for 120 seconds and no longer |
| `SmsLaws.RightCodeEnrols` | apps/api/src/auth/sms-factor.ts:96-124 | the secret enrols the number it was sent to, any other answer nothing |
| `SmsLaws.AskedIs` | apps/api/src/auth/sms-factor.ts:83-90 | the new challenge, and what becomes of the others |
| `SmsLaws.ExhaustedIs` | apps/api/src/auth/sms-factor.ts:77-82 | three challenges of the number, the address or the user within 900 seconds |
| `SmsLaws.PickedIs` | apps/api/src/auth/sms-factor.ts:96-100 | the challenge measured is its user's, alive, delivered, tried less than three times, the newest |
| `SmsLaws.LookIsRequest` | apps/api/src/auth/sms-factor.ts:62-82 | under the locks a request is let through exactly as it would be alone |
| `SmsLaws.CommitIs` | apps/api/src/auth/sms-factor.ts:83-145 | what each transaction writes |
| `SmsLaws.WorkerIs` | apps/api/src/auth/sms-factor.ts:149-163 | what the worker changes |
| `SmsLimits.TwoTextsBreakTheQuota` | apps/api/src/auth/sms-factor.ts:74-82 | a run in which two texts for one address let it have four challenges at one moment |
| `SmsLimits.QuotaKeptIff` | apps/api/src/auth/sms-factor.ts:63-92 | the quota of a user or number holds in every run; the quota of an address if and only if the address has one text |
| `SmsLimits.QuotasKeptIff` | apps/api/src/auth/sms-factor.ts:63-92 | all quotas hold in every run if and only if no two texts name one address |
| `SmsLimits.ClosedAtMostSix` | apps/api/src/auth/sms-factor.ts:77-82 | in every run, fifteen minutes closed at both ends hold at most six challenges of a user, a number, or an address with one text |
| `SmsLimits.ClosedWindowHoldsSix` | apps/api/src/auth/sms-factor.ts:77-82 | a run in which they hold six |
| `SmsLimits.ClosedWindowsKeptIff` | apps/api/src/auth/sms-factor.ts:77-89 | closed windows stay at three in every run if the count includes the instant fifteen minutes back, and for requests that commit in the order of their starts, exactly if |
| `Login.AuthTables.Login` | apps/api/src/auth/service.ts:143-229 | a wrong password is answered the same whoever and however locked; the lock is told only to who knows it; with a factor a ticket good for 300 seconds, without one a live session |
| `Login.AuthTables.CompleteSecondFactor` | apps/api/src/http/auth-routes.ts:221-253 | a wrong code leaves the ticket; a right one spends it and opens one session of its user |
| `Login.AuthTables.Resolve` | apps/api/src/auth/service.ts:511-546 | a session resolves if and only if it is alive, its user active, and it is more than a password session or no factor is needed |
| `Login.AuthTables.Enroll` | apps/api/src/auth/enrollment.ts:7-25 | an enrolment raises its session and revokes the user's other password sessions |
| `LoginRuns.StepKeeps` | apps/api/src/auth/service.ts:143-546 | every statement of every request keeps the invariants |
| `LoginRuns.EmptyGood` | apps/api/src/auth/service.ts:143-546 | the empty tables meet the invariants |
| `LoginRuns.SessionsEarned` | apps/api/src/auth/service.ts:295-331 | no two sessions come from one ticket, each belongs to the user whose password bought it, and only a ticket or an enrolment makes more than a password session |
| `LoginRuns.TicketOpensOne` | apps/api/src/auth/service.ts:303-317 | however many second steps race, a ticket opens one session or none |
| `LoginRuns.NeverDowngraded` | apps/api/src/auth/enrollment.ts:20-25 | a session that has proved more never falls back to a password session |
| `LoginRuns.PasswordEnrollsFirstOnly` | apps/api/src/auth/enrollment.ts:7-18 | an enrolment on a password session adds the user's first factor, whatever interleaves |
| `LoginRuns.PasswordSessionPowerless` | apps/api/src/auth/service.ts:511-546 | while its user has a factor, a password session lets no request in and enrols nothing, in every interleaving |
| `LoginLaws.TicketIs` | apps/api/src/auth/service.ts:276-286 | the ticket of an active user is good until 300 seconds after it was given out and no longer |
| `LoginLaws.TicketSpendableIff` | apps/api/src/auth/service.ts:276-317 | in every run a ticket neither spent nor dropped can be spent by an active user's verified second step exactly until 300 seconds after it was given out |
| `LoginLaws.SignInAlone` | apps/api/src/auth/service.ts:143-229 | the statements of a sign-in, undisturbed, do what the handler does |
| `LoginLaws.SecondStepAlone` | apps/api/src/auth/service.ts:295-331 | so do those of a second step |
| `LoginLaws.EnrollAlone` | apps/api/src/auth/enrollment.ts:7-25 | of an enrolment |
| `LoginLaws.RequestAlone` | apps/api/src/auth/service.ts:511-546 | and of a request on a session |
| `LoginLimits.AdmittedBesideFactorIff` | apps/api/src/auth/service.ts:511-546 | in every run a password request is let in if and only if its user was active when that was read and had no factor when that was read; it stands beside a factor only after a first enrolment since, and exactly then if no factor is removed |
| `LoginLimits.OpenedBesideFactorIff` | apps/api/src/auth/service.ts:204-228 | in every run a password session is opened only if its user had no factor when the policy was read, and beside a factor under the same condition |
| `LoginLimits.EnrolledAfterTheCheck` | apps/api/src/auth/service.ts:528-530 | a run in which an enrolment between check and answer comes too late for that request |
| `LoginLimits.SignedInPastTheCheck` | apps/api/src/auth/service.ts:204-228 | a run in which a sign-in past the check opens its session after an enrolment |

## Left out

- SVG, HTML and CSS text, quiet zones, the EAN-13 drawing loop and the readable text: presentation.
- `walk`, file contents, the version check and the manifest of the packager: input and output. UTF-8 is a function
  parameter that must tell apart the names, or the texts, in question; the reading of invalid UTF-8 is not modelled.
- HMAC, SHA-1 and the other digests: `Totp` takes the keyed digest as a parameter of at least twenty bytes. The digests of
  SMS codes and tokens are taken to be injective.
- `toUpperCase` in Base32 is modelled for the characters that can lead to letters of the alphabet; all others are refused
  alike.
- `LabelGeometry` and `RollRow` use exact reals: the rounding of binary floating point, `NaN` and infinities are not
  modelled. `priceFontMm` and the A4 grid are left out.
- Numeric SKU tails are unbounded naturals; beyond 2^53 `Number` would lose digits. Prices, audit rows and label data of
  variations are left out. `comboKey` is equality of pairs. That a variation once moved or sold can no longer be amended is
  left out: `VariationRuns` lets any row be amended at any time.
- The quantity of each label: the page starts from the list of labels already repeated.
- Listing routes, by-key queries, notes and timestamps of bonuses; the permission functions of the database, which are
  parameters, as is the beneficiary's home branch.
- The answers to a repeated request are modelled in `Bonus`; the race of two requests with one key is the lock on the key's
  row in `BonusRuns`.
- Settings and credentials of the SMS provider, the encryption of the code, the audit trail. `SmsRuns` lets the worker's two
  updates happen at any time, more often than the worker does.
- Devices, PIN unlocking, password changes, roles and the policy that demands a second factor (a parameter). Verifying a
  second factor is any outcome; recovery codes are not modelled.
- `LoginRuns` reads the sessions to revoke before the enrolment commits, as the code does; a session opened in between
  stays, and is powerless.
- SmsLimits.TwoTextsBreakTheQuota: says what happens when two texts name one address; whether the server can be handed such
  texts depends on its proxy, which is not part of this model.
