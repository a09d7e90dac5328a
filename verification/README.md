# Clash of Clans farming bot — verified model of the decision core

The bot searches for opponent bases whose visible loot reaches a threshold, attacks
along four fixed drag lines, reads the loot earned from the results screen and repeats
until its gold, elixir and dark elixir goals are all met. All of it lives in `main.py`.
This project models the parts of that file that compute something:

- `reading.dfy`, module `Reading`: value extraction. A detection text is cleaned by three
  `replace` passes for comma, space and period. It is parsed in base 10 when what
  remains is a non-empty digit string, and read as 0 otherwise. The last detection
  for a region wins. A region whose capture or recognizer call raised, or that
  produced no detections, records 0. A read cycle (`get_resource_value`) fills one
  entry per listed name and leaves the other entries alone. Module `ReadingExamples`
  works two concrete detection texts through the rules.
- `decision.dfy`, module `Decision`: `checkif`. It asks whether any one of gold,
  elixir and dark elixir reaches its own threshold. A missing entry reads as 0.
- `config.dfy`, module `Config`: the coordinate cache. It covers the conversion
  `load_config` applies to each decoded value (button pair, region 4-tuple,
  deployment line of two pairs, or kept as is) and the encoding `save_config` writes.
  It also covers the start-up choice between cached and compiled-in coordinates.
- `session.dfy`, module `Session`: `find_base`, `deploy_troops` and `farm_loop`. The
  screen is a finite sequence of frames, each holding what the recognizer produced for
  the three regions of one read cycle. Clicks, drags and pauses form a trace of actions.
  `Step` is one pass of the loop body. `Farm` iterates it until the goals are met or the
  frames run out. Module `SessionExamples` works through two search
  scenarios.

Two behaviours of `main.py` a reader may not expect:

- The reading tables are module-level dictionaries and are never reset between
  cycles. Each cycle overwrites the listed names only.
- `load_config` catches only a missing file, `KeyError` and undecodable JSON. Content
  that decodes but is not a JSON object, and a two-item list whose first item is a
  list and whose second is a number, boolean or null, raise past it. The bot then
  stops at start-up (`LoadResult.Crashed`, lemma `Config.UncaughtShapes`). Decoded
  values of an unexpected shape under a known key are used as they are.

## Model

| member | source | states |
|---|---|---|
| `Reading.CleanIsKeep` | main.py:428 | The three `replace` passes equal one pass that keeps exactly the characters other than comma, space and period, in their original order |
| `Reading.CleanCounts` | main.py:428 | After cleaning no separator is left and every other character occurs exactly as often as in the detection text |
| `Reading.ToDigits` | main.py:430-431 | The decimal rendering of n is a non-empty digit string, with no leading zero when n > 0, and parsing it gives back n |
| `Reading.LeadingZero` | main.py:431 | Parsing ignores leading zeros, as `int` does |
| `Reading.ParseSeparated` | main.py:428-433 | A number written with separators anywhere in it reads as that number |
| `Reading.ParseForeign` | main.py:430-436 | A text with any character that is neither a digit nor a separator reads as 0 |
| `Reading.ParseOnlySeparators` | main.py:428-436 | A text that cleans to the empty string reads as 0, since an empty string is not a digit string |
| `Reading.ApplyDetections` | main.py:427-436 | After the detection loop the entry for the region's name is the parse of the last detection, and nothing else changed |
| `Reading.ReadRegion` | main.py:423-443 | One region's read stores the value of its last detection, or 0 when the call raised or returned no detections |
| `Reading.ReadAll` | main.py:420-443 | After a read cycle the table holds every old key plus every listed name, and nothing else |
| `Reading.ReadAllLastWins` | main.py:422-443 | The entry for a listed name is what the last region of that name yielded, whatever came before, so one failing region does not affect the others |
| `Reading.ReadAllKeepsOthers` | main.py:420-443 | Entries for names outside the list keep their old values |
| `Reading.KeepAppend` | main.py:428 | Cleaning a concatenation cleans each part separately |
| `ReadingExamples.SeparatedExamples` | main.py:428-432 | "12,345" reads as 12345 and " 7 . 5 " as 75 |
| `ReadingExamples.LaterGarbageWins` | main.py:427-436 | A later unreadable detection overwrites an earlier good number with 0 |
| `Decision.CheckIf` | main.py:446-459 | The decision is true exactly when some tracked resource, read as 0 when absent, reaches its own threshold |
| `Decision.EmptyNeverQualifies` | main.py:449-456 | With positive thresholds an empty table never qualifies |
| `Decision.CheckIfOnlyReadsTracked` | main.py:449-454 | Tables agreeing on gold, elixir and dark elixir get the same decision |
| `Decision.CheckIfMonotone` | main.py:449-456 | Raising any reading never turns a qualifying table into a non-qualifying one |
| `Config.TupleOf` | main.py:120 | `tuple()` of a decoded value fails exactly on numbers, booleans and null |
| `Config.ConvertEntry` | main.py:110-124 | Conversion fails exactly on a two-item list whose first item is a list and whose second is a scalar. Its result is always an entry conversion can produce. Except for a deployment line (first item a list) whose end is a string or an object, writing the result back gives the decoded value |
| `Config.ReloadStable` | main.py:109-124 | Writing an entry and converting it back returns the same entry exactly when the entry is one conversion can produce |
| `Config.Load` | main.py:102-128 | A missing or undecodable file gives None. A decoded object keeps its key set, with each value converted. The load raises exactly when the content is not an object or some value cannot be converted |
| `Config.SaveLoadRoundTrip` | main.py:95-128 | Saving a table of convertible entries and loading it back gives the same table, in any key order |
| `Config.DefaultsCalibrated` | main.py:15-37 | The compiled-in defaults cover all seventeen coordinate keys, each with the shape the wizard records for it |
| `Config.Startup` | main.py:305-354 | Every coordinate is the cached value when the loaded table has its key and the default otherwise. An absent or empty cache gives exactly the defaults, and an uncaught load error gives no run at all |
| `Config.UnreadableFileUsesDefaults` | main.py:305-354 | A missing or undecodable cache file means every coordinate is its default |
| `Config.CalibrationRoundTrip` | main.py:95-128 | A complete calibration that is saved and then loaded at start-up gives exactly the recorded coordinates, nested deployment pairs included |
| `Config.UncaughtShapes` | main.py:104-128 | A deployment line ending in a number, or a cache holding a list, makes the load raise instead of falling back |
| `Session.ReadFrame` | main.py:403-443 | A read cycle over the three regions leaves each tracked entry equal to what its own region yields, whatever the table held before |
| `Session.LootRead` | main.py:485-492 | The loot read after an attack is exactly what the results frame's three regions yield |
| `Session.DecideOnFrame` | main.py:471-473 | The search decision after a read cycle depends on the current frame alone |
| `Session.SkipsShape` | main.py:479-482 | n rejected bases issue exactly n Next clicks, each followed by a 4-second wait |
| `Session.FindBase` | main.py:462-482 | The search ends as soon as a read cycle passes `checkif`, and otherwise reads every frame. It clicks Next and waits 4 seconds once per rejected base, and nothing else |
| `Session.FindBaseFirstQualifying` | main.py:466-482 | The frame the search stops at qualifies on its own amounts, and every frame skipped before it does not |
| `Session.FindBaseReadsLast` | main.py:467-477 | After the search, the search table holds the amounts of the last frame read |
| `Session.DeploysSnoc` | main.py:502-514 | Each further call of deploy_troops appends one more round of four click/drag pairs |
| `Session.DeploysShape` | main.py:502-514 | n deployments are 4n click/drag pairs cycling through lines 1 to 4, each drag going to the end of the line just clicked |
| `Session.AttackDeploysSixtyPairs` | main.py:545-554 | An attack selects the troop, then makes 15 × 4 = 60 click/drag pairs, then waits 15 seconds |
| `Session.Step` | main.py:539-584 | A pass that attacks adds the loot read from the frame after the attacked one to the totals and counts one attack, leaving the frames after that. Running out of frames leaves the totals unchanged. Actions are only appended |
| `Session.StepTrace` | main.py:539-584 | The actions a pass that attacks appends are one Next click and 4-second wait per skipped base, the attack sequence, and the trip back to a new search |
| `Session.StepAttacksIff` | main.py:539-546 | A pass attacks exactly when some frame before the last shows a qualifying base: find_base returns at the first one and the attack always follows |
| `Session.StepAttacksFirstQualifying` | main.py:539-544 | The base a pass attacks is the first qualifying one: its frame qualifies and every frame skipped before it does not |
| `Session.Farm` | main.py:532-584 | The loop ends with the goals reached exactly when all three totals are at least their targets. It does nothing when they already are. Totals never decrease and actions are only appended |
| `Session.FarmGivesUp` | main.py:532-546 | With the goals unmet and no qualifying base that has a frame after it, the session ends out of frames with its totals unchanged |
| `Session.FarmContinues` | main.py:532-584 | With the goals unmet and a qualifying base ahead, the loop attacks in this pass and carries on from the frames after the loot frame: it never gives up while a base worth attacking is still ahead |
| `Session.FarmLoopTotalsNonNegative` | main.py:517-530 | A session started from zero totals never has a negative total |
| `SessionExamples.RichBaseStopsSearch` | main.py:462-482 | A base showing 600,000 gold qualifies against the 500,000/500,000/50,000 thresholds, so the search stops after one frame with no click |
| `SessionExamples.PoorBaseIsSkipped` | main.py:462-482 | A base showing 100,000/100,000/10,000 does not qualify, so the bot clicks Next and waits |

## Left out

- The text recognizer (`easyocr`, lines 362 and 391) is a third-party engine. Each region's read is given as its outcome: `Raised`, or a list of (text, confidence) detections.
- Screen capture and image conversion (lines 371-384) are pixel work in foreign libraries. A capture failure, including an unset region, is the `Raised` outcome.
- Mouse input and pauses (`pyautogui`, `time.sleep`) become `Click`, `DragTo` and `Sleep` actions. Each action names the role of its screen point (`NextButton`, `LineStart(2)`, ...), not the coordinate value chosen at start-up.
- The interactive setup wizard and menu (lines 48-92, 131-291), the `--setup` flag and `clear_console` are console interaction. Only the table the wizard saves is modelled, through `Save`.
- File reading and writing and the JSON text syntax are I/O. The cache file is given as missing, undecodable, or an already-decoded value. json.load's rule that a repeated object key keeps its last value is kept for the top-level object only. A nested object kept as a value (`Kept`) holds its raw member list, so two nested objects that differ only in an overwritten repeated key are different values here, while Python decodes both to the same dictionary.
- Wall-clock timing and the reader's load time (lines 361-366, 598-607) are floating-point clock readings.
- Console printing and logging are output only.
- `Reading.ParseCleaned`: on Python 3.11 and later `int()` raises ValueError on a digit string longer than 4300 characters; line 431 is inside the `try`, so the except branch would then store 0 for the region and skip its remaining detections. This digit limit is not modelled: the model stores the string's value whatever its length.
- The goal values are the `targets` parameter of `Session.FarmLoop`: farm_loop's default arguments (line 517) and the values the entry point passes (lines 600-604) are not fixed in the model.
- Python's `isdigit` accepts non-ASCII digits, but the recognizer's allowlist (line 391) limits its output to ASCII. So only '0'..'9' are digits here.
- The `except` branch of `checkif` cannot be reached: every table value is an integer.
- `Session.FindBase`, `Session.Farm`: the source's loops are unbounded. The model runs them over a finite sequence of frames, and running out means the bot is still running. Non-termination itself is not modelled.
- `Session.Step`: when the frames run out after an attack but before its loot is read, the attack is counted and the totals are unchanged. The loot reading and the trip back to the lobby are not modelled in that case.
