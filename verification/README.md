# Steriscan core, modelled in Dafny

Steriscan checks surgical-instrument kits. A detector reports the
instruments it sees in a photograph of a kit. The service compares that
list with the kit's reference list and annotates every instrument as
`present`, `missing` or `extra`. It then turns the annotated list into a
conformity percentage. The scanner screen attaches a tri-state verdict
(`conforming`, `partial`, `non-conforming`) to the scan result it builds. A SQLite-backed
record store keeps kits, scan results, one settings row and a master list
of known instruments.

The model has five modules:

- `Types` (`types.dfy`): the records `Instrument`, `Kit`, `ScanResult` and
  `Settings`. The instrument field `type` is called `kind`, because `type`
  is a Dafny keyword. `position` is optional and `confidence` is a `real`.
- `AiService` (`ai_service.dfy`): reconciliation and scoring.
  `CompareWithReference` appends to its result inside two loops, as the
  service does. It is proved equal to the specification function
  `Reconciled`. The lemmas state what reconciliation guarantees about
  `Reconciled`. `ConformityScore` is a function. Its rounding is exact
  integer arithmetic, `(200p + n) / (2n)`, which rounds halves up.
- `ScannerScreen` (`scanner_screen.dfy`): the verdict rule and the
  `ScanResult` that the analysis step builds. The thresholds are integer
  cross-multiplications (`10p >= 9n`, `10p >= 7n`). `n` is the length of the
  detector's list.
- `Database` (`database.dfy`): the class `DatabaseService`. It has an
  `initialized` flag (the source's `db != null`). `kits` and `scans` are maps
  keyed by id. The settings and master tables are sequences of rows. Every
  operation fails with `NotInitialized` until `Init` succeeds. The object
  invariant `Valid` says the settings table never holds more than one row.
  It also says that an open store holds exactly one settings row and exactly
  one copy of the master list.
- `LexOrder` (`lex_order.dfy`): the `ORDER BY ... DESC` of the two
  listings. Text is compared by code point, which is SQLite's default
  BINARY collation. `ListDesc` builds a listing by sorted insertion. For a
  table whose rows are pairwise different (each carries its own id), it is
  proved to return every row exactly once, in descending key order.

Clock values (`Date.now()`, `toISOString()`) are string parameters. Whether
the storage medium opens is the boolean parameter `openSucceeds` of `Init`.

## Behaviour of the code a caller may not expect

The model follows the code in each of these cases.

- One detection can be reported present for several reference items. The
  `find` at src/services/aiService.ts:118 is not told which detections were
  already taken, so two reference items of one type both take the same
  first matching detection (`DoubleClaimExample`), and a second detection
  of that type vanishes from the output (`SecondMatchDroppedExample`).
- Matching gives a type match no priority over a name match. The first
  detection that matches either field is taken
  (src/services/aiService.ts:118).
- A `missing` entry is the reference item with only its status and
  confidence overwritten (src/services/aiService.ts:126-130). It keeps the
  reference item's `position`, although nothing was detected there
  (`MissingEntryIsReferenceCopy`).
- The scanner screen's verdict compares the present count with the length
  of the detector's own list, not with a reference count
  (src/screens/ScannerScreen.tsx:85-89). The score is computed against an
  empty reference list (src/screens/ScannerScreen.tsx:83), so the stored
  score is always 100 (`AnalyzeResult`), even when the verdict is
  non-conforming (`ScoreAndVerdictDisagree`).
- The analysis step (src/screens/ScannerScreen.tsx:78-93) neither
  reconciles the detection against a reference kit nor saves the result.
  It builds the `ScanResult` and navigates to the results screen.

## Model

| member | source | states |
|---|---|---|
| `AiService.FirstMatch` | src/services/aiService.ts:118 | the index found is the first detection in detection order sharing type or name with the reference item; none exactly when no detection matches |
| `AiService.UnmatchedIndices` | src/services/aiService.ts:135-138 | the positions of the detections that match no reference item, ascending, containing every such position and no other |
| `AiService.CompareWithReference` | src/services/aiService.ts:113-147 | the two appending loops produce exactly `Reconciled(detected, reference)` |
| `AiService.ExtraEntriesFollowUnmatched` | src/services/aiService.ts:135-144 | the surplus entries are, one for one and in order, the unmatched detections with status `extra` |
| `AiService.ReconciledLength` | src/services/aiService.ts:113-147 | output length is the reference count plus the number of detections that match no reference item |
| `AiService.ReferenceEntryStatus` | src/services/aiService.ts:117-131 | entry i of the reference part is `present` iff some detection matches reference i, and `missing` iff none does |
| `AiService.PresentEntryIsFirstMatch` | src/services/aiService.ts:118-124 | a present entry is the first matching detection with only its status overwritten |
| `AiService.MissingEntryIsReferenceCopy` | src/services/aiService.ts:125-130 | a missing entry is the reference item with status `missing` and confidence 0, every other field unchanged |
| `AiService.ExtrasInDetectionOrder` | src/services/aiService.ts:135-144 | the entries after the reference part are exactly the unmatched detections, in detection order, marked `extra` |
| `AiService.NonFirstMatchDropped` | src/services/aiService.ts:117-144 | a detection that matches a reference item but is no reference item's first match is not extra, and no present entry is taken from it |
| `AiService.EmptyReferenceAllExtra` | src/services/aiService.ts:113-147 | with an empty reference every detection becomes `extra`, in order |
| `AiService.EmptyDetectionAllMissing` | src/services/aiService.ts:117-131 | with no detections every reference item becomes `missing` with confidence 0, in order |
| `AiService.DoubleClaimExample` | src/services/aiService.ts:117-124 | two reference items of one type both claim the same single detection |
| `AiService.SecondMatchDroppedExample` | src/services/aiService.ts:117-144 | a second detection of the reference item's type vanishes from the output |
| `AiService.PresentCount` | src/services/aiService.ts:107 | the count of `present` entries is at most the length, equals it iff all are present, and is 0 iff none is |
| `AiService.PresentCountAppend` | src/services/aiService.ts:107 | the present count of a concatenation is the sum of the counts |
| `AiService.RoundedPercentIsNearest` | src/services/aiService.ts:110 | the percentage is the integer nearest to 100p/n, halves rounded up, as `Math.round` does |
| `AiService.RoundedPercentMonotone` | src/services/aiService.ts:110 | the percentage never decreases as the present count grows |
| `AiService.RoundedPercentAtMostHundred` | src/services/aiService.ts:107-110 | with p <= n the percentage is at most 100, and is 100 exactly when 200p >= 199n |
| `AiService.ConformityScore` | src/services/aiService.ts:104-111 | 100 for an empty reference list whatever was detected; otherwise the integer nearest to 100·p/n (within one half), where p counts present entries and n the reference entries; at most 100 whenever p ≤ n |
| `AiService.ScoreMonotone` | src/services/aiService.ts:107-110 | with the reference list fixed, more present entries never lower the score |
| `AiService.ExtraEntriesNeverPresent` | src/services/aiService.ts:139-142 | no surplus entry is `present` |
| `AiService.ReconciledScoreAtMostHundred` | src/services/aiService.ts:104-147 | on reconciled output only the reference part counts, at most the reference count of entries are present, and the score is at most 100 |
| `ScannerScreen.ScanVerdict` | src/screens/ScannerScreen.tsx:85-89 | conforming iff 10p >= 9n, partial iff 7n <= 10p < 9n, non-conforming iff 10p < 7n, over the detector's own list; an empty list is conforming |
| `ScannerScreen.VerdictMatchesRatio` | src/screens/ScannerScreen.tsx:85-89 | the integer thresholds give the same verdict as the real comparisons `p >= n*0.9` and `p >= n*0.7` |
| `ScannerScreen.VerdictByPresentRatio` | src/screens/ScannerScreen.tsx:85-89 | for a non-empty list the verdict is decided by the ratio p/n against 0.9 and 0.7, boundaries included |
| `ScannerScreen.VerdictMonotone` | src/screens/ScannerScreen.tsx:85-89 | with the list length fixed, more present entries never move the verdict down |
| `ScannerScreen.AnalyzeResult` | src/screens/ScannerScreen.tsx:78-90 | the built result keeps the detector's list verbatim, scores 100, takes its kit id from the route or falls back to `kit-` plus the clock, and carries the verdict of the detector's list |
| `ScannerScreen.ScoreAndVerdictDisagree` | src/screens/ScannerScreen.tsx:83-89 | one detected-but-missing instrument yields score 100 with verdict non-conforming |
| `LexOrder.InsertDesc` | src/database/database.ts:147 | inserting a row adds exactly that row to the listing's multiset |
| `LexOrder.InsertDescSorted` | src/database/database.ts:147 | inserting into a descending listing keeps it descending |
| `LexOrder.ListDesc` | src/database/database.ts:202-204 | for a table whose rows each carry their own id, a listing holds every row of the table, no row twice and no other row, latest key first; a row may follow one with a key at least as large only when the two keys are equal |
| `LexOrder.InsertDescDistinct` | src/database/database.ts:147 | inserting a row not yet listed keeps the listing free of repeats |
| `LexOrder.SortedDescTie` | src/database/database.ts:147 | in a descending listing a row placed after another with a key at least as large has exactly the same key, so ties are the only freedom in the order |
| `LexOrder.EqualKeysSorted` | src/database/database.ts:147 | rows that share one key are in descending order whichever way they are arranged |
| `Database.BoolToInt` | src/database/database.ts:118 | booleans are stored as 1 or 0, and 1 exactly for true |
| `Database.KitRoundTrip` | src/database/database.ts:106-142 | a kit written and read back is unchanged, instruments in order, `isReference` via 1/0 |
| `Database.SettingsReadBack` | src/database/database.ts:223-246 | after a write, every settings field reads back unchanged except an empty language (read as `fr`) and a zero threshold (read as 0.95) |
| `Database.SettingsRoundTripIff` | src/database/database.ts:224-229 | settings round-trip exactly iff the language is non-empty and the threshold non-zero |
| `Database.DefaultSettingsValues` | src/database/database.ts:75-79 | the seeded row reads as `fr`, offline on, SMS off, no phone, auto-save on, threshold 0.95 |
| `Database.SeedRows` | src/database/database.ts:88-101 | the seeded master list has five rows |
| `Database.DatabaseService.constructor` | src/database/database.ts:5-6 | a new service starts with no open database |
| `Database.DatabaseService.Init` | src/database/database.ts:8-17 | a failed open changes nothing; a successful one opens the store and seeds only empty tables, so repeating it adds nothing |
| `Database.DatabaseService.InitDefaultData` | src/database/database.ts:67-103 | with no open database nothing happens; otherwise the default settings row is added iff the table is empty, and INST-001..INST-005 iff the master table is empty |
| `Database.DatabaseService.SaveKit` | src/database/database.ts:106-121 | fails before init; otherwise an upsert by id: `getKit` of that id yields the saved kit and every other kit is unchanged |
| `Database.DatabaseService.GetKit` | src/database/database.ts:123-142 | fails before init; none for an unknown id, otherwise the stored kit, whose id is the one asked for |
| `Database.DatabaseService.GetAllKits` | src/database/database.ts:144-158 | fails before init; every stored kit exactly once, ordered by `updatedAt` descending |
| `Database.DatabaseService.SaveScanResult` | src/database/database.ts:161-176 | fails before init; otherwise an upsert by id, leaving every other result unchanged |
| `Database.DatabaseService.GetScanResult` | src/database/database.ts:178-197 | fails before init; none for an unknown id, otherwise the stored result, whose id is the one asked for |
| `Database.DatabaseService.GetAllScanResults` | src/database/database.ts:199-215 | fails before init; every stored result exactly once, ordered by `timestamp` descending |
| `Database.DatabaseService.GetSettings` | src/database/database.ts:218-231 | fails before init; otherwise the single row decoded with the fallback defaults, so never an empty language or a zero threshold |
| `Database.DatabaseService.UpdateSettings` | src/database/database.ts:233-247 | fails before init; otherwise overwrites all six fields of the single row, which then reads back through the defaults |
| `Database.InitTwice` | src/database/database.ts:67-102 | opening a fresh store twice leaves one settings row and one copy of INST-001..INST-005 |

## Left out

- Detection: `initializeModel`, `detectInstruments`, `simulateDetection`, `preprocessImage`, `getModelInfo` and the `isModelLoaded` flag. They are timers, async code and simulated data. The detector's list is a parameter. The average-confidence division in `detectInstruments` divides by zero on an empty list and is not modelled.
- `ConformityScore`: the source computes `Math.round((p / n) * 100)` in double precision. The model rounds the exact ratio. Where the floating-point product lands just below a half, the two can differ.
- `ScanVerdict`: the screen compares `p >= n * 0.9` in double precision. The model compares exactly (`10p >= 9n`). For counts below 2^53 the double products `n * 0.9` and `n * 0.7` never land above an integer that the exact product equals, so the two comparisons agree; the exact form is kept because it needs no floating-point argument.
- SQL engine behaviour: statement errors, and a table-creation failure after the open has succeeded. The `kit_id` foreign key is not enforced by the source and is not modelled. JSON encoding of instrument lists is taken as an identity round trip.
- `Database.DatabaseService.InitDefaultData`: each master row's `created_at` reads the clock separately. The model stamps all five rows with one `now` value.
- `Database.DatabaseService.GetSettings`: reading an empty settings table would fail with a type error in the source. The invariant makes that state unreachable once the store is open, so it is not modelled.
- Durability across restarts: the constructor models a fresh installation with empty storage. Opening a database file that already holds data is not modelled.
- The language of `Settings` is typed `'fr' | 'sw' | 'ha'` in the source. It is modelled as any string, so that the empty-language default can be stated.
- `conformity_score` is a REAL column, and `saveScanResult` accepts any number. The model narrows it to an integer, which is all `calculateConformityScore` produces (`Math.round`, src/services/aiService.ts:110). No code path in the application calls `saveScanResult`.
- Listing order among rows with equal timestamps is left open, as SQL leaves it (`SortedDescTie`, `EqualKeysSorted`).
- The analysis step's early return when no image is captured, and its camera, permission, navigation, alert and processing-flag handling. These are device I/O and UI state.
- The localization module (AsyncStorage and translation tables) and the display tiers of the results and web screens. These are presentation only.
