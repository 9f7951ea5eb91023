# Verified models of the trading framework's stateful cores

This project models, in Dafny 4.11, the parts of the framework that keep state and are easy to get
wrong, and proves for all inputs what each of them promises. `dafny verify dfyconfig.toml` checks it.

| part of the system | modules | main theorems |
|---|---|---|
| Paged frame log: one writer, lock-free readers | `PageLog`, `PageLogSafety`, `PageLogReaderSafety`, `PageLogReader`, `PageLogWriter`, `PageLogTimes`, `PageLogSeek`, `ReaderPool`, `Bytes` | `ContiguousDelivery`, `CommittedForever`, `RunInv`, `RestartAfterStop`, `TimesFromNothing`, `SeekTime`, `PoolMerges` |
| JSON diff, patch and pointers | `JsonValue`, `JsonEquality`, `JsonPointer`, `JsonPatch`, `JsonPlaces`, `JsonDiff`, `JsonDiffExact`, `JsonDiffPatch`, `JsonPatchTheorem`, `JsonPatchLaws`, `JsonIndex` | `DiffThenPatch`, `DiffExactly`, `SplitToString`, `AddThenRemove`, `RemoveTokens`, `WritesExactly` |
| CBOR and string escaping | `Cbor`, `CborRoundTrip`, `CborFloat`, `CborGrammar`, `JsonEscape`, `JsonText` | `RoundTrip`, `AcceptsExactly`, `PrefixFree`, `ReadsText`, `EscapeRoundTrip` |
| Execution order slots | `ExecModel`, `ExecSafety`, `ExecHeld`, `ExecMessages`, `ExecStuck`, `ExecOrders` | `NeverOverExecutes`, `MessageDoes`, `NothingAfterExit`, `SendsExactly`, `HeldExactly` |
| Account ledger | `Ledger`, `LedgerTotals`, `LedgerInstr`, `LedgerDay`, `LedgerReplay`, `LedgerPositions`, `LedgerDays`, `LedgerBook` | `AlwaysBalanced`, `Positions`, `ReplayEqualsLive`, `InFlight`, `ReloadEqualsSwitch`, `NextDay` |
| Bars | `BarCut`, `BarRun`, `BarPrices`, `BarValues`, `BarMaking`, `BarDay` | `CutExact`, `SettledOnce`, `VolumesAddUp`, `DayExact`, `DayValues`, `DayTimes` |
| Tick replay and ladder differences | `TickMerge`, `BookDelta` | `ReplayMerges`, `DeltaUnique`, `MergeSide` |

Code that changes state in place is a class or a method with loops here too. Each such method is proved
equal to a step function on values, and the theorems over whole runs are about those step functions.

## How each part is modelled

**Paged log.** Every single store of the writer (each payload byte, each frame word, `last_nano`, `tail`,
`stop_nano`, `status`, each header field of a new page, `version` last) and every single load of a reader
is one step, and a run is any list of such steps, writer calls, reader calls and given-up frames.
Frames are real bytes at real offsets. `Evolves` is what a writer step may do to what a reader can see;
the writer is proved to keep to it and the readers rely on nothing else. Stores take effect in program
order, and no call makes `tail + 20 + len` leave 32 bits. What seeking by time needs of the times in the log
is proved of every run on which the clock does not go back.

**JSON.** Values are trees over null, booleans, signed and unsigned 64-bit integers, floats given by their
64 bits, byte strings, arrays and objects with sorted keys. Equality is the library's `operator==`,
converting between the number types.

**Execution slots.** Any list of ticks, new executions, exits and order messages. The best order volume,
which the code gets from statistical models, is an arbitrary input clamped the way the code clamps it, and
the answer of the trading interface to each send is an arbitrary input too. A message is legal for an
order when its fill or cancel volume does not exceed what is left of a live order.

**Ledger.** Money is `real`. A day is any legal list of new orders, fills, cancels, rejects and ticks, and an
account's life is any list of days with `onSwitchDay` in between. A fill or cancel is legal when it does not
exceed what is left of its live order. That closes stay within holdings is asked only for positions that never
turn negative; what a day switch needs, which erases by position, is an exact condition (`NextDay`).

**Bars.** The span list, which the code looks up by product, is an input, in the order in which the tables
list it; so is every tick. A bar's time is its own when every bar before it in the list has ended by then.

**Merges.** The files and the logs are arbitrary: nothing is assumed about the order of times in them, except
by the clause that says the result is sorted. The pool's readers are the reader objects of `PageLogSeek`.

## What the proofs found in the code

- A writer stopped after the new page's file exists and before `version` is stored cannot be restarted into
  a usable log: `RestartAfterStop` gives the exact set of stopping points and which of the two failures follows,
  `CreatingReached` a run that gets there.
- `last_nano` is stored before `tail`, so a frame given up in between leaves its time in the page head:
  `GivenUpTime`. Seeking by that time is still right, because the torn frame stops the loop: `SeekTime`.
- `len <= size_ - sizeof(tPageHead) - sizeof(tFrameHead)` wraps when the page has fewer than 65 bytes:
  `RetryGuardExact`. `createNextPage` never sets `last_nano`; a file's fresh zero serves.
- `diff` followed by `patch` gives the target back if and only if the target holds no NaN and no array index
  needed on the way exceeds `INT_MAX`, because indices are read with `stoi`: `DiffThenPatch`, with the
  shortest array that is refused in `TooLongRefused`.
- Under `operator==`, an unsigned 2^64-1 equals a signed -1 (`LargestEqualsMinusOne`): numbers of different
  signedness are equal if and only if they are equal modulo 2^64, `UnsignedAgainstSigned`.
- An order that ends by rejection keeps its slot and its placed volume, and a refused `sendOrder` is counted as an
  order at hand; neither is ever given back. So an execution can be at its end without having traded or exited: another
  order can be sent for it if and only if it still places orders and is not `Stuck`, that is, unless no order in its slots
  is live and six are counted or all that is left counts as placed (or nothing is left): `SendsExactly`. One rejected
  order of the full volume does it (`OneRejection`), and so do six refused sends (`SixRefusals`).
- `cancelOrder` answers 0 or -1 while the caller waits for 1, so a cancel on a tick always ends that tick without a
  send: `CancellingSendsNothing`.
- The scan for a free slot takes the slot of the order with id 0 for a free one. Every other live order is in its slot
  as long as its execution places orders; order 0 is lost exactly by a look that comes to `sendOrder` while it is at
  hand, whatever the answer: `HeldExactly`, with a run in `IdZeroOverwritten`. The bound on executed volume holds
  nonetheless.
- `generateVecBar` keeps a stale `leave` when a session ends on a cycle boundary after a break inside a bar.
  The bars are right if and only if that never happens, or the next session follows without a break and with less trading
  time to the end of the day than that `leave`, as no product's sessions do: `CutExact`. 45-minute bars for a night session that
  ends at 23:30 are an instance: `FortyFiveMinutes`.
- `GetBar` jumps to the bar before the current one: a bar is returned if and only if `GetBar` is called while it is the
  last one passed, and it has a price (`HandedOutExactly`). Bars that are skipped are never returned (`OnlyTheLast`,
  `LostForGood`), however many ticks they had: `MinuteSkipped`.
- The first tick in the second a session ends settles the bar; further ticks of that second are in no bar at all:
  `ClosingSecond`.
- The last bar stays the current one when a tick behind it has settled it, and every later tick and `OnFinish` settle it
  again, which turns its times into nanoseconds once more. Its times are right if and only if a tick closed it or none came
  behind it: `TimesExact`, and `DayTimes` for generated bars.
- An auction listed while a bar is open, as the second auction of every product with a night session is when a
  bar straddles the night, becomes the current bar before the open one, and the ticks of the rest of the night are
  in no bar. Every trading bar records all its ticks if and only if no bar is open at any auction: `DayExact`.
  15-minute bars of such a product are right (`QuarterHours`); its one-hour bars lose every tick between 23:00
  and 23:30 (`HourBars`, `TickOfTheNightLost`).
- A `remove` accepts every token that begins, behind blanks and a sign, with the number of an element, where
  RFC 6901 allows one token for each: `RemoveTokens`. `add` and the target of `move` do so too, up to the array's length:
  `AddTokens`. Every other token of a pointer is taken the same way but for leading zeros, which are refused: at `/01` one
  can add and remove, and not test or replace (`ZeroOneRemoves`).
- Undoing an `add` fails at the root, for a parent that was not there and that `add` creates (`ParentCreated`), for a null
  parent, which it turns into an object, for a member that was there already, and for `-`; and in no other case:
  `AddThenRemove`.
- The day switch drops a product whose long positions and short positions each sum to zero. After closes beyond the
  holdings its instruments can still hold opposite ones, and then refer to a product that is gone: `NextDay` has the
  exact condition, `PositionsStranded` a day that ends so.
- `remove` at a parent that has no children, a number or a string, succeeds and changes nothing: `RemoveExactly`.
- A CBOR integer below -2^63 is read as one that is not negative, 2^64 higher: `AcceptsExactly` with `MinusOf`.
- Product totals do not include `amt_buy` and `amt_sell`, which the code books on instruments only.

## Model

| member | source | states |
|---|---|---|
| PageLogReaderSafety.ContiguousDelivery | src/io/CRawIOReader.h:63-88 | In every interleaving of single writer stores with single reader loads, what the reader delivered is a contiguous stretch of the committed frames from where it started: none skipped, repeated or torn, and the bad-format branch is never reached |
| PageLogReaderSafety.CommittedForever | src/io/CRawIOWriter.cpp:97-165 | Whatever happens later in a run, the committed frames at any moment stay a prefix of those committed afterwards |
| PageLogReaderSafety.RunInv | src/io/CRawIOWriter.cpp:38-165 | On every reachable log frames tile the space from the page head to `tail`, `tail` fits the page, every page but the last is finished, and writer and reader agree on where they are |
| PageLogReaderSafety.ReaderStepOk | src/io/CRawIOReader.cpp:138-202 | Each single load keeps the reader at a frame boundary of a page it may trust, with the bytes loaded so far being those of the committed frame |
| PageLogReaderSafety.ReaderHops | src/io/CRawIOReader.h:76-81 | A reader that saw FINISH before reaching `tail` may leave the page: no frame was committed to it in between |
| PageLogReaderSafety.CommittedGrows | src/io/CRawIOWriter.cpp:97-123 | Whatever the writer is allowed to change, the committed frames of all pages only get longer at the end |
| PageLogReaderSafety.DeliveredKept | src/io/CRawIOReader.h:63-88 | What a reader has delivered stays correct under any change the writer is allowed |
| PageLogSafety.WriterGuarantee | src/io/CRawIOWriter.cpp:97-165 | Each single store keeps the log well formed and within what readers rely on, and only the store of `tail` commits a frame, exactly one |
| PageLogSafety.StoreTailCommits | src/io/CRawIOWriter.cpp:106 | Storing `tail` last makes exactly the prepared frame, header and payload, readable |
| PageLogSafety.StoreFrameKeeps | src/io/CRawIOWriter.cpp:100-105 | No store of a frame before `tail` touches a byte or field that committed frames depend on |
| PageLogSafety.StoreHeadOk | src/io/CRawIOWriter.cpp:45-52 | Each store that closes a page or fills the head of the next one leaves frames and readers' view intact; a page is not acceptable before `version` |
| PageLogSafety.CreateFile | src/io/CRawIOWriter.cpp:168-246 | The file of the next page may appear on disk at any moment without a reader accepting it early |
| PageLogSafety.CallOk | src/io/CRawIOWriter.cpp:97-155 | Entering `write` or `prefetch` commits nothing and disturbs nothing |
| PageLogSafety.DiscardOk | src/io/CRawIOWriter.cpp:131-155 | Giving up a prefetched or half-written frame before its `tail` is stored commits nothing and harms no later frame |
| PageLogWriter.WRunOk | src/io/CRawIOWriter.cpp:38-165 | The writer's invariant and the readers' guarantee hold over any run of calls and stores |
| PageLogWriter.RestartAfterStop | src/io/CRawIOWriter.cpp:61-92 | Stopping before any store and running `init` again keeps exactly the committed frames if and only if the stop was not between the new page's file and its `version`; otherwise it goes on with a page no reader accepts if the file has no size yet, and fails if it has |
| PageLogWriter.RestartKeeps | src/io/CRawIOWriter.cpp:61-92 | After any other stop `init` finds the last page, and asks for a new one exactly when the last one is finished |
| PageLogWriter.RestartLosesPage | src/io/CRawIOWriter.cpp:168-246 | After a stop during page creation the last page stays without a version: a file without size is mapped as a page no reader accepts, and any later stop makes `init` fail |
| PageLogWriter.CreatingReached | src/io/CRawIOWriter.cpp:38-55 | The first stores of a writer on an empty directory reach both kinds of such stops |
| PageLogWriter.RetryGuardExact | src/io/CRawIOWriter.cpp:118 | The unsigned guard of the retry means "fits an empty page" for every length if and only if pages have at least 65 bytes; below that it lets every length through |
| PageLogWriter.RawIOWriter.Init | src/io/CRawIOWriter.cpp:61-92 | Succeeds on every log whose last page is complete, loses no frame, and creates one page exactly when there is none or the last is finished, through stores of the protocol only |
| PageLogWriter.RawIOWriter.CreateNextPage | src/io/CRawIOWriter.cpp:38-55 | Adds one empty published page behind the untouched others, store by store in the protocol's order |
| PageLogWriter.RawIOWriter.TurnPage | src/io/CRawIOWriter.cpp:109-116 | Closes the full page and opens the next one, committing nothing |
| PageLogWriter.RawIOWriter.Write | src/io/CRawIOWriter.cpp:97-123 | Recurses at most once; succeeds if and only if the frame fits the current page or an empty one; commits exactly that frame, and a failed call commits nothing but may turn the page |
| PageLogWriter.RawIOWriter.Prefetch | src/io/CRawIOWriter.cpp:131-155 | Reserves space if and only if the frame fits the current page or an empty one, commits nothing, and remembers the tail `commit` will store |
| PageLogWriter.RawIOWriter.Commit | src/io/CRawIOWriter.cpp:159-165 | Right after a successful prefetch and payload, commits exactly the reserved frame |
| PageLogWriter.RawIOWriter.CopyData | src/io/CRawIOWriter.cpp:101 | The payload copy is a run of byte stores that leaves `tail` and all committed frames alone |
| PageLogWriter.RawIOWriter.Store | src/io/CRawIOWriter.cpp:97-165 | A page may be changed only by the one store the protocol has next, so each method above is a run of the protocol |
| PageLogReader.SettleDelivers | src/io/CRawIOReader.h:63-88 | On every quiet log, one whose last page was left without a version included, a `read` that is under way ends and has delivered the next committed frame, hopping as many finished pages as needed, or nothing when none is left |
| PageLogReader.ReadDeliversNext | src/io/CRawIOReader.h:63-88 | On every quiet log each call of `read` delivers exactly the next committed frame |
| PageLogTimes.RunTimes | src/io/CRawIOWriter.cpp:97-165 | Over every run on which the clock does not go back: times never decrease along a page nor from one page to the next, and each head's `last_nano` is the last committed time or that of the torn frame behind it |
| PageLogTimes.TimesFromNothing | src/io/CRawIOWriter.cpp:97-165 | Every log such a run makes of an empty directory has the times that seeking relies on |
| PageLogTimes.RestartTimes | src/io/CRawIOWriter.cpp:61-92 | So has every log that a restart outside page creation takes over, and the next call may go on from the same clock |
| PageLogTimes.GivenUpTime | src/io/CRawIOWriter.cpp:102-106 | A frame given up between the stores of `last_nano` and `tail` leaves its time in the page head without being committed |
| PageLogSeek.RawIOReader.Load | src/io/CRawIOReader.cpp:138-202 | Maps a page exactly when it exists and has its version, and puts the cursor on its first frame; what remains to be read is unchanged either way |
| PageLogSeek.RawIOReader.Read | src/io/CRawIOReader.h:63-88 | Returns the first remaining frame and leaves the rest, over page ends, pages that hold nothing and a last page without a version |
| PageLogSeek.RawIOReader.GetCurFrame | src/io/CRawIOReader.h:111-133 | Shows the first remaining frame without consuming it, even when it has to change pages |
| PageLogSeek.RawIOReader.PassPage | src/io/CRawIOReader.cpp:74-83 | Leaves a finished page for the next one, stays on a page still written to, and answers whether a page was opened |
| PageLogSeek.RawIOReader.ToTail | src/io/CRawIOReader.cpp:94-108 | Passes every frame of the page and stops on its tail, never beyond |
| PageLogSeek.RawIOReader.SkipBefore | src/io/CRawIOReader.cpp:112-116 | On a page whose head promises a late enough time, drops exactly the frames earlier than that, and stops at a frame of the page or at the torn one behind them |
| PageLogSeek.RawIOReader.FindPage | src/io/CRawIOReader.cpp:100-110 | Skips whole pages by `last_nano` without losing a frame at or after the asked time; ends on a page that promises one or with nothing left |
| PageLogSeek.RawIOReader.SeekTime | src/io/CRawIOReader.cpp:93-117 | On every log of a run on which the clock does not go back, what remains is what remained, without the leading frames earlier than the asked time; a negative time goes to the page's end |
| PageLogSeek.RawIOReader.Init | src/io/CRawIOReader.cpp:37-55 | Without a page and a time, nothing of the log is left to read; without a page, the frames of the latest page that are not too early are; with a page, all frames behind it are, or those from the first late one of it on |
| PageLogSeek.RawIOReader.FromNext | src/io/CRawIOReader.cpp:37-55 | The frames from a page on are those of that page and then those from the next one on |
| PageLogSeek.AllBefore | src/io/CRawIOReader.cpp:100-110 | A page whose `last_nano` is too early holds no frame that is late enough, torn frame or not, so it may be passed unread |
| PageLogSeek.LateBehind | src/io/CRawIOReader.cpp:100-116 | Behind a page whose `last_nano` is late enough every frame is, even when the promised frame itself was given up |
| PageLogSeek.DropAllBefore | src/io/CRawIOReader.cpp:112-116 | Leading frames that are all too early change nothing about the first late one |
| ReaderPool.CReaderPool.Next | src/io/CReaderPool.h:78-94 | The loop asks every reader object for its current frame, reads the earliest one, first reader first, and leaves all others with what they had |
| ReaderPool.PoolMerges | src/io/CReaderPool.h:78-94 | Reading a pool of any quiet logs to the end gives each log's frames all once and in its own order and nothing else; if each log is in time order, the whole is sorted by time with equal times in reader order |
| ReaderPool.DrainSorted | src/io/CReaderPool.h:78-94 | From logs in time order the frames come out sorted by time and, at equal times, by reader |
| ReaderPool.DrainComplete | src/io/CReaderPool.h:78-94 | The frames of each reader come out exactly once and in their own order, whatever their times |
| Bytes.LEDigits | src/io/ioprotocol.h:42-49 | The byte of a little-endian number at offset i is its digit of weight 256 to the i |
| Bytes.BEDigits | src/include/json.hpp:6546-6587 | The byte of a big-endian number of n bytes at offset i is its digit of weight 256 to the n - 1 - i |
| Bytes.LERoundTrip | src/io/ioprotocol.h:42-49 | A number stored little-endian in enough bytes is read back |
| Bytes.BERoundTrip | src/include/json.hpp:6546-6587 | A number stored big-endian in enough bytes is read back |
| JsonValue.EqualToItself | src/include/json.hpp:5882-5955 | A value equals itself under the library's equality if and only if no NaN is anywhere in it |
| JsonValue.EqualNaNFree | src/include/json.hpp:5882-5955 | Equal values are free of NaN on both sides |
| JsonValue.LexExactly | src/include/json.hpp:12838-12875 | The comparison of keys is dictionary order: equal, a proper prefix, or smaller in the first byte that differs |
| JsonValue.KeysInOrder | src/include/json.hpp:12838-12875 | Each key visited comes before all later ones in dictionary order |
| JsonValue.KeysSorted | src/include/json.hpp:12838-12875 | Objects are visited key by key, each key once, in lexicographic order |
| JsonEquality.EqualEverywhere | src/include/json.hpp:5882-5955 | Two values compare equal if and only if they have the same places and at each of them both are objects, both are arrays, or they are the same null, boolean or string, or equal numbers |
| JsonEquality.IntegersEqual | src/include/json.hpp:5915-5955 | Two integers, stored signed or unsigned, compare equal if and only if they are equal modulo 2^64 |
| JsonEquality.FloatsEqual | src/include/json.hpp:5920-5955 | A float equals a float of the same value that is no NaN, and an integer whose conversion to double has that value, from either side |
| JsonEquality.CastNearest | src/include/json.hpp:5920-5955 | The conversion of an integer to double takes the nearest multiple of the spacing there, of two as near the even one |
| JsonEquality.CastIsDouble | src/include/json.hpp:5920-5955 | What the conversion gives for an integer of 64 bits is the value of some double |
| JsonPointer.Find | src/include/json.hpp:12102-12114 | The search answers the first occurrence at or after a position, or the end |
| JsonPointer.ReplaceSubstring | src/include/json.hpp:12102-12114 | The in-place loop replaces all occurrences left to right and never looks into its own insertions |
| JsonPointer.EscapeSpells | src/include/json.hpp:12117-12132 | The two passes of escape spell each `~` and `/` of the input separately, whatever stands next to it |
| JsonPointer.UnescapeEscape | src/include/json.hpp:12117-12132 | Unescape undoes escape on every string |
| JsonPointer.EscapeUnescape | src/include/json.hpp:12117-12132 | Escape undoes unescape on every well-escaped token |
| JsonPointer.SplitString | src/include/json.hpp:12029-12087 | The splitting loop gives the tokens of the pointer, or the error for a missing slash or a bad `~`, as section 3 of RFC 6901 has it |
| JsonPointer.SplitToString | src/include/json.hpp:12029-12087 | Every list of tokens survives being written as a pointer and split again |
| JsonPointer.ToStringSplit | src/include/json.hpp:11693-11701 | Every pointer string that splits is written back byte for byte |
| JsonPointer.StoIDecimal | src/include/json.hpp:11888-11930 | A decimal index is read back if and only if it fits an `int` |
| JsonPatch.Patch | src/include/json.hpp:12472-12731 | The loop over the operations gives the document after all of them in order, or the first error |
| JsonPatch.PatchAppend | src/include/json.hpp:12472-12731 | Applying two lists of operations one after the other is applying their concatenation, stopping at the first error |
| JsonPatch.Put | src/include/json.hpp:11888-11930 | Writing through a checked pointer succeeds wherever reading does |
| JsonPatch.GetPut | src/include/json.hpp:11888-11930 | What was written through a pointer is read back, and a second write wins |
| JsonPatch.PutGet | src/include/json.hpp:11888-11930 | Writing back what is there changes nothing |
| JsonPatch.Below | src/include/json.hpp:11888-11930 | Access below a pointer is access inside the subtree it names, and leaves everything else alone |
| JsonPatch.EditPlace | src/include/json.hpp:11821-11930 | An operation below a path that exists changes only that subtree, and checked and unchecked access agree there |
| JsonPlaces.GetExactly | src/include/json.hpp:11888-11930 | A pointer answers a value if and only if its tokens lead there child by child: member names in objects, numbers of elements without leading zeros in arrays |
| JsonPlaces.GetFails | src/include/json.hpp:11888-11930 | It fails at the first token that leads nowhere, with the error for its kind: no such member or element, leading zero, or no number |
| JsonPlaces.TestExactly | src/include/json.hpp:12699-12722 | `test` leaves the document alone and succeeds if and only if the pointer leads to a value that compares equal; a different value and a missing one are refused alike |
| JsonPlaces.ReplaceExactly | src/include/json.hpp:12664-12669 | `replace` puts the value where the pointer leads, and fails if and only if and as the pointer does |
| JsonPlaces.RemoveExactly | src/include/json.hpp:12575-12600 | `remove` takes out the member or element named, fails as the parent's pointer does or for a missing child, and leaves a parent without children as it is |
| JsonPlaces.CopyExactly | src/include/json.hpp:12688-12697 | `copy` fails if the source's pointer does and in its way; else the target is set to the source's value, which is found there afterwards |
| JsonPlaces.MoveExactly | src/include/json.hpp:12671-12686 | `move` is the removal of what the source leads to and its addition at the target |
| JsonPlaces.AddExactly | src/include/json.hpp:12511-12572 | `add` at the root replaces the document; with one token it changes the document's own children; with more the first one must lead somewhere, and the parent, created if it is missing, then has the new child |
| JsonPlaces.InsertExactly | src/include/json.hpp:12527-12571 | The new child of a parent: a member set, an element inserted where it is named or at the end, a null made an object; numbers, strings and booleans trip the assertion |
| JsonPlaces.WritesExactly | src/include/json.hpp:11821-11886 | An edit that creates what is missing is possible if and only if the last value reached can grow the next child and all further tokens can be created below a null |
| JsonPlaces.CreateBelow | src/include/json.hpp:11821-11886 | Below an existing place such an edit is the same edit of that place's value, put back |
| JsonPlaces.NewChild | src/include/json.hpp:11821-11886 | A missing child is created from a null: a member, an element behind nulls, or a null parent made an array for digits or `-` and an object for any other token |
| JsonPlaces.ReadsBack | src/include/json.hpp:11821-11886 | What was created is found by the same pointer, unless `-` is in it |
| JsonPlaces.ParseExactly | src/include/json.hpp:12472-12731 | An operation is understood if and only if its object names it, with a pointer as path and the value or source that operation needs |
| JsonPlaces.ParseFails | src/include/json.hpp:12472-12731 | Anything else is an invalid argument, but for a string that is no pointer |
| JsonDiff.DiffInto | src/include/json.hpp:12765-12895 | The recursive builder appends exactly the difference of the two values under the path |
| JsonDiff.DiffArrays | src/include/json.hpp:12792-12834 | Common elements in order, then removals from the last index down, then additions from the first index up |
| JsonDiff.DiffObjects | src/include/json.hpp:12836-12878 | First each old key, changed or removed, then the new keys that were missing |
| JsonDiff.AppendMissing | src/include/json.hpp:12861-12875 | Exactly the keys the old object lacks are added, in order |
| JsonDiffExact.DiffExactly | src/include/json.hpp:12765-12895 | An operation is in the difference if and only if it is the change of some place: a replacement where both have unequal values that are not compared child by child, a removal or an addition where only one of two compared values has the child |
| JsonDiffPatch.PatchedEqual | src/include/json.hpp:12765-12895 | The document a successful patch ends with equals the target if and only if the target is free of NaN |
| JsonDiffPatch.ReplaceStep | src/include/json.hpp:12664-12669 | An emitted replace, parsed and applied, changes exactly the value at its path |
| JsonDiffPatch.RemoveStep | src/include/json.hpp:12575-12600 | An emitted remove, parsed and applied, is the removal inside the parent and nothing else |
| JsonDiffPatch.AddStep | src/include/json.hpp:12511-12572 | An emitted add, parsed and applied, is the insertion inside the parent and nothing else |
| JsonDiffPatch.IndexBack | src/include/json.hpp:11821-11930 | An emitted array index reaches its element if and only if it fits an `int` and the array |
| JsonDiffPatch.Blocked | src/include/json.hpp:11821-11930 | No pointer reaches through an array index above `INT_MAX`, with or without bounds checks |
| JsonPatchTheorem.DiffThenPatch | src/include/json.hpp:12765-12895 | For all values, patching the source with its difference to the target succeeds and equals the target if and only if the target is free of NaN and no changed array position lies beyond `INT_MAX` |
| JsonPatchTheorem.PatchOfDiff | src/include/json.hpp:12472-12731 | The patch either ends with the target (up to parts that were equal already) or is refused for range, by the same condition |
| JsonPatchTheorem.DiffWorks | src/include/json.hpp:12765-12895 | The difference of two subtrees, applied anywhere in any document, changes that subtree only and turns it into the target |
| JsonPatchTheorem.ElementsWork | src/include/json.hpp:12794-12802 | Element differences turn the common part of an array into the target's, one index after the other |
| JsonPatchTheorem.RemovalsWork | src/include/json.hpp:12807-12819 | Removing from the last index down leaves exactly the wanted front, if indices fit |
| JsonPatchTheorem.AdditionsWork | src/include/json.hpp:12821-12831 | Additions from the first index up append exactly the target's tail, if indices fit |
| JsonPatchTheorem.KeysWork | src/include/json.hpp:12838-12859 | Key differences change or remove each old key independently of the others |
| JsonPatchTheorem.AddsWork | src/include/json.hpp:12861-12875 | Additions give the object every missing key and touch no other |
| JsonPatchTheorem.DiffNonempty | src/include/json.hpp:12765-12895 | The difference is empty if and only if the values are equal |
| JsonPatchTheorem.DiffAcrossBlock | src/include/json.hpp:11888-11930 | Behind an index above `INT_MAX` only an empty difference can be applied |
| JsonPatchTheorem.SmallArraysFit | src/include/json.hpp:12765-12895 | When no array exceeds 2^31 elements the index condition always holds |
| JsonPatchTheorem.TooLongRefused | src/include/json.hpp:11821-11930 | The additions that make an empty array one of 2^31 + 1 elements are refused for range at the last one |
| JsonPatchTheorem.NaNNotRestored | src/include/json.hpp:5882-5955 | With NaN as the target the patch does restore the bits, and equality still denies it |
| JsonPatchLaws.AddThenRemove | src/include/json.hpp:12511-12600 | For every document, pointer and value: adding and removing again gives the document back if and only if the addition is accepted, is not at the root, finds its parent there, and that is an object without the member or an array indexed by number |
| JsonPatchLaws.ParentCreated | src/include/json.hpp:12511-12572 | Adding at `/a/b/c` where there is no `/a/b` creates it, and removing again leaves it behind |
| JsonPatchLaws.RemoveThenAdd | src/include/json.hpp:12511-12600 | Adding back a removed value at its old place gives the document back, for every existing place |
| JsonPatchLaws.MoveOntoItself | src/include/json.hpp:12671-12686 | Moving a value onto itself is no change (section 4.4 of RFC 6902), and the whole document cannot be moved |
| JsonPatchLaws.MoveBack | src/include/json.hpp:12671-12686 | A member renamed by move and moved back gives the document back if and only if the new name was free |
| JsonPatchLaws.CopyThenTest | src/include/json.hpp:12688-12719 | A copy over an existing place changes that place only, and a test for the copied value then passes unless it holds a NaN |
| JsonPatchLaws.DashAppends | src/include/json.hpp:12541-12563 | Adding at `-` appends, and so does adding at the array's length as long as that fits an `int` |
| JsonIndex.RemoveTokens | src/include/json.hpp:12575-12600 | On an array anywhere in a document, `remove` accepts exactly the tokens made of blanks, perhaps a sign, digits that name an element within `int`, and any rest; the element goes; reading by the same token succeeds unless it has a leading zero; and the token is the one of RFC 6901 if and only if it is the decimal number |
| JsonIndex.AddTokens | src/include/json.hpp:12511-12572 | On an array anywhere in a document, `add` accepts exactly `-` and the tokens that begin, behind blanks and a sign, with a number up to its length within `int`; the value goes there, and the token is the one of RFC 6901 if and only if it is `-` or the decimal number |
| JsonIndex.StoIExactly | src/include/json.hpp:11888-11930 | The conversion of a token answers n exactly when the token begins, behind blanks, with a signed number n that fits an `int` |
| JsonIndex.RfcExactly | src/include/json.hpp:11888-11930 | Of all tokens read as n, section 4 of RFC 6901 allows the decimal number only |
| JsonIndex.ZeroOneRemoves | src/include/json.hpp:12575-12600 | `01` removes element 1 and adds before it, while reading by it is refused |
| Cbor.AddToVector | src/include/json.hpp:6546-6587 | The byte-wise switch appends the big-endian bytes of the number |
| Cbor.ToCbor | src/include/json.hpp:6898-7150 | The encoder appends the encoding of the value, with the shortest head for every integer and length |
| Cbor.AppendElements | src/include/json.hpp:7098-7104 | Array elements are appended in order |
| Cbor.AppendPairs | src/include/json.hpp:7136-7142 | Object members are appended in key order, key before value |
| Cbor.GetFromVector | src/include/json.hpp:6626-6640 | The reversing copy reads the big-endian number behind the position, or refuses a short input |
| Cbor.MirrorValue | src/include/json.hpp:6626-6640 | Bytes reversed into a little-endian machine word give the big-endian value |
| Cbor.FromCbor | src/include/json.hpp:7448-7916 | The decoder, advancing its index in place, agrees with the recursive definition on every input, errors included, and terminates |
| Cbor.ReadChunks | src/include/json.hpp:7631-7642 | Indefinite-length strings are the concatenation of their chunks up to the break byte |
| Cbor.ReadOpenArray | src/include/json.hpp:7727-7737 | Indefinite-length arrays end at the break byte |
| Cbor.ReadOpenMap | src/include/json.hpp:7827-7838 | Indefinite-length maps end at the break byte, later keys replacing earlier ones |
| CborRoundTrip.RoundTrip | src/include/json.hpp:6898-7150 | Between any bytes before and behind, decoding an encoding gives a value equal to the original if and only if that is free of NaN, and consumes exactly the encoding |
| CborRoundTrip.ValueBack | src/include/json.hpp:7448-7916 | Wherever an encoding stands in a byte vector, the decoder reads that value and stops behind it |
| CborRoundTrip.HeadBack | src/include/json.hpp:7448-7916 | Every head, at each of the five widths, is decoded to its major type and number |
| CborRoundTrip.PrefixFree | src/include/json.hpp:6898-7150 | No encoding is a proper prefix of another, and values with one encoding differ at most in the signedness of non-negative integers |
| CborRoundTrip.NormEqual | src/include/json.hpp:5882-5955 | Reading non-negative integers back as unsigned is invisible to equality |
| CborFloat.WidenValue | src/include/json.hpp:7855-7897 | The 64 bits the model gives a decoded half or single have the value IEEE 754 assigns to its fields (for halves the number the `ldexp` calls name): normals, subnormals, zeros, infinities and NaN |
| CborGrammar.AcceptsExactly | src/include/json.hpp:7448-7916 | Reading at any index gives a value and the index behind it if and only if an item of RFC 7049 that the reader knows stands there, definite or indefinite, with heads of any width, and the value is what that item means |
| CborGrammar.Accepted | src/include/json.hpp:7448-7916 | Every such item is read as what it means wherever it stands, of repeated keys the last |
| CborGrammar.FloatsKept | src/include/json.hpp:7855-7897 | Halves and singles keep the IEEE 754 value and the sign of their fields |
| CborGrammar.UnknownRefused | src/include/json.hpp:7448-7916 | The initial bytes refused as invalid arguments are byte strings, tags, reserved widths and other simple values, and every other one begins some item |
| CborGrammar.DecodeMore | src/include/json.hpp:7175-7213 | Every result but an input that ends too early stands whatever bytes follow |
| CborGrammar.CutShort | src/include/json.hpp:7175-7213 | An item that is cut short anywhere is refused as out of range |
| CborGrammar.NoTextRefused | src/include/json.hpp:7631-7838 | Keys and chunks that are no strings are refused |
| CborGrammar.HeadShortest | src/include/json.hpp:6898-7150 | Heads are written in the shortest width that fits |
| CborGrammar.EncodesItem | src/include/json.hpp:6898-7150 | What is written for a value is an item that means that value |
| JsonEscape.EscapeString | src/include/json.hpp:8143-8248 | The loop fills its precomputed buffer exactly and returns the escaped string |
| JsonEscape.SpaceIsExact | src/include/json.hpp:8097-8128 | The escaped string has exactly the original size plus the extra space computed beforehand |
| JsonEscape.WriteEscaped | src/include/json.hpp:8161-8244 | Each byte writes its own escape at the current position and nothing else |
| JsonEscape.GetString | src/include/json.hpp:10975-11088 | The reading loop over escapes, surrogate pairs and plain stretches decodes every token the scanner lets through, or reports the bad surrogate |
| JsonEscape.EscapeRoundTrip | src/include/json.hpp:10975-11088 | Every byte string survives escaping and reading back |
| JsonText.Utf8Exactly | src/include/json.hpp:9645-9707 | A code point up to 0x10ffff is written as the one byte sequence that UTF-8 (RFC 3629) reads as it, shortest form; larger ones are out of range |
| JsonText.ReadsText | src/include/json.hpp:10975-11088 | Any text of bytes, letter escapes and hexadecimal escapes in either case is read as section 7 of RFC 7159 has it, a surrogate pair as one code point, and is refused if and only if a surrogate stands alone |
| JsonText.EveryToken | src/include/json.hpp:10975-11088 | Every token of the scanner is such a text |
| JsonText.EscapeUnit | src/include/json.hpp:8143-8248 | Each byte is written in the shortest way that reads back as it, digits in lower case |
| ExecSafety.NeverOverExecutes | src/execute_model/CLossModel.cpp:212-243 | Over every run: executed volume plus live rests never exceed the size requested; live rests are within the placed volume, and that within the open total; at most six slots are taken; the scan for a free slot stays inside the array |
| ExecSafety.StepOk | src/execute_model/CLossModel.cpp:262-337 | Each tick, message, exit and new execution keeps the accounts of every execution |
| ExecSafety.RunOk | src/execute_model/CLossModel.cpp:212-369 | The invariant holds in every reachable state |
| ExecSafety.NothingAfterExit | src/execute_model/CLossModel.cpp:320-337 | An execution that has exited stays exited and no order is ever sent for it again, whatever events follow |
| ExecSafety.ScanInBounds | src/execute_model/CLossModel.cpp:235-237 | The loop that looks for a free slot, which has no bound of its own, finds one whenever fewer than six orders are counted |
| ExecSafety.ScanStops | src/execute_model/CLossModel.cpp:235-237 | The scan stops at the first slot that is not positive |
| ExecSafety.CancelFlags | src/execute_model/CLossModel.cpp:245-260 | Cancelling for a new price flags orders and sends none, and answers 1 only if every order held is at that price already, in which case nothing is flagged |
| ExecSafety.CancellingSendsNothing | src/execute_model/CLossModel.cpp:226-242 | A tick that has an order at another price to cancel sends nothing |
| ExecSafety.SixRefusalsLock | src/execute_model/CLossModel.cpp:226-242 | As long as six orders are counted, a look sends nothing and changes only the best price, the best volume and cancel flags |
| ExecSafety.LookSends | src/execute_model/CLossModel.cpp:212-243 | A look sends, and then exactly one order for what is missing, if and only if the interface accepts it and either nothing is counted and a volume is wanted, or all held orders stand at the best price, fewer than six are counted and more is wanted than is placed; otherwise only cancel flags change |
| ExecMessages.MessageDoes | src/execute_model/CLossModel.cpp:262-318 | What any legal message does to its order's record, and, if the order is still in a slot, to the counters and slots of the execution that sent it; nothing else changes |
| ExecMessages.MessageSends | src/execute_model/CLossModel.cpp:293-312 | A message adds an order to the record exactly when it cancels the last counted one with something wanted and left and the reply is no refusal: one order at the wanted price, for what was wanted or what is left if that is less |
| ExecMessages.LookDoes | src/execute_model/CLossModel.cpp:165-260 | What any look at an unfinished execution does: the best price and volume it finds, cancel requests for exactly the held orders away from that price, and the order it sends, with the slot its answer is kept in |
| ExecMessages.OpenDoes | src/execute_model/CLossModel.cpp:405-427 | A new execution asks for what it was given and sends its best volume at once; the others are left alone |
| ExecMessages.ExitDoes | src/execute_model/CLossModel.cpp:320-337 | An exit that is due requests the cancel of exactly the held orders that can be cancelled, clears slots and counters and ends ordering; one that is not due changes nothing |
| ExecMessages.HolderIs | src/execute_model/CLossModel.cpp:263-268 | The execution found for a message is the one that sent the order, if that has it in a slot, and none otherwise |
| ExecStuck.SendsExactly | src/execute_model/CLossModel.cpp:212-369 | After every run: some continuation sends another order for an execution if and only if it still places orders and is not stuck: some order in its slots is live, or none is counted and something is left, or fewer than six are counted and not all that is left counts as placed |
| ExecStuck.SendsUnlessStuck | src/execute_model/CLossModel.cpp:212-369 | The same from every state with the invariants, with the continuation: a look at the common price of what is held, behind the cancel of a live order if need be |
| ExecStuck.StuckForGood | src/execute_model/CLossModel.cpp:262-337 | Over every run a stuck execution keeps its slots and its open total until it exits, and no order is sent for it, before or after that |
| ExecStuck.OneRejection | src/execute_model/CLossModel.cpp:262-318 | An order for the full volume, sent and rejected, leaves an execution stuck with nothing traded |
| ExecStuck.SixRefusals | src/execute_model/CLossModel.cpp:212-243 | Six refused sends in a row leave one stuck with no order at all |
| ExecHeld.HeldExactly | src/execute_model/CLossModel.cpp:212-318 | After every run a live order whose execution still places orders is in one of its slots, if and only if its id is not 0 or no look came to `sendOrder` while order 0 was at hand, answered by an order or a refusal |
| ExecHeld.RunTidy | src/execute_model/CLossModel.cpp:212-337 | Over every run the orders in the slots of an execution rest at one price, order 0 is in no slot but the first, and every other live order is in a slot |
| ExecHeld.IdZeroOverwritten | src/execute_model/CLossModel.cpp:235-242 | Two accepted sends at one price leave the slots without the first order, whose id is 0, while it is live |
| ExecOrders.CLossModel.SendOrder | src/execute_model/CLossModel.h:78-83 | Only an accepted send adds to the placed volume, by its own volume, and to the orders tracked; a refused one changes nothing |
| ExecOrders.CLossModel.PlaceOrder | src/execute_model/CLossModel.cpp:212-243 | Keeps the invariant and takes the step the run model has for a tick's order |
| ExecOrders.CLossModel.CancelOrderAPIStatus | src/execute_model/CLossModel.cpp:245-260 | The loop over the six slots cancels the orders away from the price, and its answer is that of the last cancel |
| ExecOrders.CLossModel.OnTick | src/execute_model/CLossModel.cpp:352-369 | A tick is one look at each execution in turn |
| ExecOrders.CLossModel.OnExecution | src/execute_model/CLossModel.cpp:405-427 | Opens an execution with the next id and looks at it at once |
| ExecOrders.CLossModel.ExitExecution | src/execute_model/CLossModel.cpp:320-337 | Cancels what is held and forbids further orders |
| ExecOrders.CLossModel.ProcessExit | src/execute_model/CLossModel.cpp:345-350 | Every expired execution exits, the others stay as they are |
| ExecOrders.CLossModel.SysOnRtn | src/execute_model/CLossModel.cpp:262-318 | The nested search loops find the execution that holds the order, or none; its order's record, counters and slots change as the message says, and one more order goes out exactly in the case of `MessageSends` |
| ExecOrders.CLossModel.OnCancel | src/execute_model/CLossModel.cpp:283-312 | After the last cancel with something wanted and left, one order goes out for the smaller of the two at the wanted price; in every other case none does |
| LedgerDays.AlwaysBalanced | src/account/ModInstr.cpp:61-363 | In every state of every account, over days: products equal the sum of their instruments, the account the sum of all, no instrument refers to an erased product, and each instrument's P&L is what its amounts, the settle price and its trades say |
| LedgerDays.DaysOk | src/account/AccBase.cpp:210-243 | Any number of legal days at whose ends no product without position has an instrument with one, and their switches, leads to a sound start of the next day |
| LedgerDays.NextDay | src/account/AccBase.cpp:210-243 | The switched account is a sound start of the next day if and only if no instrument with a position belongs to a product without one; without negative positions that is so, and stays so |
| LedgerDays.CoveredDaysLegal | src/account/AccBase.cpp:210-243 | Days on which closes stay within holdings are such days, over any number of switches, and no position turns negative |
| LedgerDays.PositionsStranded | src/account/AccBase.cpp:210-243 | One lot long in one instrument and one lot closed without a holding in another of the same product: after that day both survive the switch and their product does not |
| LedgerDays.RunPositive | src/account/UnitVol.cpp:86-182 | No position turns negative over a day whose closes stay within holdings |
| LedgerDays.ReloadEqualsSwitch | src/account/AccBase.cpp:135-208 | Saving and loading agrees with switching the day on the account and every instrument and product, apart from those holding no position |
| LedgerPositions.SavedExactly | src/account/AccBase.cpp:155-168 | At any moment of a day an instrument is saved if and only if it began the day with a position, holds one, or has a live order |
| LedgerDays.LoadedInstrs | src/account/AccBase.cpp:173-208 | Loading registers each saved instrument with its own saved fields, in any order |
| LedgerReplay.ReplayEqualsLive | src/account/AccBase.cpp:300-347 | For any interleaving of many orders' messages, closes beyond the holdings included, replaying the final records and then one common tick per instrument gives the same book as the live run and those ticks |
| LedgerReplay.InFlight | src/account/AccBase.cpp:349-398 | At any time each in-flight volume and amount is the sum over live orders of what is left of them, and the unfilled count is the number of live orders |
| LedgerPositions.Positions | src/account/UnitVol.cpp:86-160 | At any moment of a day: today's long position is its start plus what was bought to open less what was sold to close today's, yesterday's is its start less what was sold to close it, short positions the other way round; bought and sold lots and amounts are those of the orders, and the average prices give the amounts back |
| LedgerReplay.TrackOk | src/account/AccBase.cpp:300-347 | One order record is booked as if its messages had come one by one |
| LedgerReplay.ReplayOk | src/account/AccBase.cpp:300-347 | Replaying any list of records accounts for exactly those orders |
| LedgerReplay.SameBook | src/account/AccBase.cpp:300-398 | Orders and last prices alone determine the whole book |
| LedgerDay.StepOk | src/account/AccBase.cpp:349-413 | Every legal message or tick keeps the book equal to what its orders say |
| LedgerDay.RunOk | src/account/AccBase.cpp:349-413 | The same over every legal day |
| LedgerDay.SendOk | src/account/AccBase.cpp:349-364 | A new order adds exactly its own in-flight columns |
| LedgerDay.MessageOk | src/account/AccBase.cpp:366-398 | A fill or cancel moves exactly the order's columns from in flight to done |
| LedgerDay.MarketOk | src/account/AccBase.cpp:400-413 | A tick revalues positions and changes no column an order is responsible for |
| LedgerInstr.TradedSound | src/account/ModInstr.cpp:254-363 | A fill keeps `amt = last price * position * multiple` and net position = opening plus bought minus sold |
| LedgerInstr.RecordCols | src/account/AccBase.cpp:300-347 | The three bookings of a replayed record sum to that order's columns |
| LedgerInstr.CancelCols | src/account/AccBase.cpp:379-386 | What a cancel books turns the order's columns into those of a finished order |
| LedgerInstr.TrdCols | src/account/AccBase.cpp:387-397 | What a fill books turns the order's columns into those of the further filled order |
| LedgerTotals.PostTotals | src/account/ModInstr.cpp:61-363 | Booking one difference on instrument, product and account keeps all sums |
| LedgerTotals.RegisteredTotals | src/account/AccBase.cpp:22-54 | Registering an instrument, and its product if new, keeps all sums |
| LedgerTotals.SwitchTotals | src/account/AccBase.cpp:210-243 | The day switch with erasure keeps all sums, and leaves no instrument without its product, if and only if products without position have only instruments without position |
| LedgerTotals.FlatSum | src/account/AccBase.cpp:216-228 | A product without position has only instruments without position, if none is negative |
| LedgerBook.ModInstr.OnTickPx | src/account/ModInstr.cpp:61-99 | The three-level update books one and the same difference on instrument, product and account |
| LedgerBook.ModInstr.OnNew | src/account/ModInstr.cpp:109-185 | Each of the direction and offset branches books the same in-flight difference on all three levels |
| LedgerBook.ModInstr.OnCxl | src/account/ModInstr.cpp:187-252 | Each branch undoes exactly what a new order of that volume books |
| LedgerBook.ModInstr.OnTrd | src/account/ModInstr.cpp:254-363 | Revalues at the trade price, then books the same trade difference on all three levels |
| LedgerBook.ModInstr.OnSwitchDay | src/account/ModInstr.cpp:54-59 | Yesterday's position and last price are today's opening and settle price, the position amounts stay, everything else is zeroed |
| LedgerBook.AccBase.RegInstr | src/account/AccBase.cpp:22-54 | Registers known instruments only, product first, changing no other entry |
| LedgerBook.AccBase.OnTickPx | src/account/AccBase.cpp:400-413 | The dispatch over objects is the tick on the book's value |
| LedgerBook.AccBase.OnNew | src/account/AccBase.cpp:349-364 | The dispatch over objects is the new order on the book's value |
| LedgerBook.AccBase.OnRtn | src/account/AccBase.cpp:366-398 | The dispatch over objects is the message on the book's value |
| LedgerBook.AccBase.OnOrderTrack | src/account/AccBase.cpp:300-347 | The dispatch over objects is the replayed record on the book's value |
| LedgerBook.AccBase.OnSwitchDay | src/account/AccBase.cpp:210-243 | The two erasing loops give the switched book, in whatever order the map is walked |
| BarCut.CutExact | src/bar/BarMaker.cpp:97-131 | For sessions in order, touching or not, the non-auction bars are concatenated trading time cut every cycle if and only if no session ends on a cycle boundary after an earlier session break inside a bar, or the first such one is followed at once by less trading time than the stale remainder; with a break between any two sessions, if and only if the former |
| BarCut.CleanCut | src/bar/BarMaker.cpp:97-131 | In the clean case the cut is that of concatenated trading time, last bar ending with the session, whether sessions touch or not |
| BarCut.DirtyCut | src/bar/BarMaker.cpp:97-131 | In every other case it is not, but for the harmless one, which needs touching sessions |
| BarCut.HarmlessCut | src/bar/BarMaker.cpp:97-131 | Touching sessions of ten, ten and five seconds in bars of twenty are the harmless case |
| BarCut.AuctionsApart | src/bar/BarMaker.cpp:97-131 | Auction spans add their own bars and do not influence the others |
| BarCut.SecondInBar | src/bar/BarMaker.cpp:97-131 | Trading second p lies in bar p / cycle and in no other |
| BarCut.FortyFiveMinutes | src/bar/BarMaker.cpp:97-131 | A night session until 23:30 is cut wrongly into 45-minute bars |
| BarRun.SettledOnce | src/bar/BarMaker.cpp:182-276 | Over every run of ticks, finishes and GetBar calls, bars are settled in order, each before the last exactly once, and frozen behind the current one; GetBar returns only passed bars, none twice |
| BarRun.OnceEach | src/bar/BarMaker.cpp:182-264 | A bar before the last was settled once if passed and not at all otherwise |
| BarRun.StepOk | src/bar/BarMaker.cpp:182-276 | Each single event keeps this and freezes what was passed |
| BarRun.LostForGood | src/bar/BarMaker.cpp:452-494 | A bar GetBar went past is never returned later |
| BarRun.OnlyTheLast | src/bar/BarMaker.cpp:452-494 | Of the bars passed since the last call only the latest can be returned: every other one never is, whatever follows |
| BarRun.HandedOutExactly | src/bar/BarMaker.cpp:452-494 | Over every run a bar is handed out if and only if some GetBar call comes while it is the last one passed, and it has a price |
| BarPrices.MinuteSkipped | src/bar/BarMaker.cpp:452-494 | A run in which a bar with a price is skipped by a call and never handed out, whatever follows |
| BarRun.VolumesAddUp | src/bar/Bar2.cpp:80-137 | When cumulative volume moves only on ticks a bar records, the settled volumes of the whole day sum to last minus first cumulative volume |
| BarRun.DayBalanced | src/bar/BarMaker.cpp:182-264 | At every tick the settled volumes account for the cumulative volume up to the current bar's start |
| BarPrices.DayPrices | src/bar/Bar2.cpp:20-137 | After any day of ticks with positive prices in order, each bar's open, high, low and close are the first, highest, lowest and last price it recorded, or all the price it started from when it recorded none |
| BarPrices.TradingPrices | src/bar/BarMaker.cpp:182-264 | A trading bar whose predecessors in the list have ended before it begins records exactly the ticks inside its bounds, in order, none missed at any bar change; of a session's closing second only the first tick |
| BarPrices.TradingExact | src/bar/BarMaker.cpp:182-264 | Over all feeds in time order a trading bar records exactly the ticks inside it if and only if every bar listed before it ends, closing second included, before it begins |
| BarPrices.TickPrices | src/bar/BarMaker.cpp:182-264 | Each tick, however many bars it passes, keeps settled bars' prices and fills the bar it falls in |
| BarPrices.TickPlace | src/bar/BarMaker.cpp:182-264 | A single tick is recorded in such a bar if and only if it lies inside it, whether the maker is before, at or behind that bar |
| BarPrices.ClosingLost | src/bar/BarMaker.cpp:182-264 | In a second that no bar contains, a tick behind another tick of the same second is recorded in no bar, whatever came before |
| BarPrices.ClockOfDay | src/bar/BarHelper.cpp:15-26 | On every day, a tick in any nanosecond of second s of the accounting day is at second s, and the day begins at its own 18:00 in Beijing |
| BarPrices.ClockInDay | src/bar/BarHelper.cpp:15-26 | From the first accounting day on every time is a second from 0 to 86399 |
| BarValues.SettledValues | src/bar/Bar2.cpp:80-137 | After any day of ticks, a bar that the bars before it do not reach into, auction or not, holds the last recorded tick's close, volume, turnover and open interest and the changes since the tick it starts from; without a tick it holds what it starts from, unchanged |
| BarValues.TimesExact | src/bar/Bar2.cpp:134-136 | It bears its own times on the day of its ticks if and only if it is not the last one, or a tick closed it, or none came behind it |
| BarValues.SettledTimes | src/bar/BarMaker.cpp:182-276 | These are exactly the cases in which it was settled once |
| BarDay.DayBars | src/bar/BarMaker.cpp:97-276 | From the spans as listed through cutting, ticks and the final settlement: if the cut is clean and no bar is open at any auction, every trading bar ends with the prices of exactly the ticks inside it |
| BarDay.OpenTimes | src/bar/BarMaker.cpp:133-161 | A generated trading bar takes ticks from its beginning to its end, and in its closing second if a session ends there; an auction from two hours before it, or from the start of the day if it is the first bar; and which second closes it |
| BarDay.DayValues | src/bar/BarMaker.cpp:97-276 | From the spans as listed: the changes of a generated trading bar, with no bar open at an auction, and of an auction with more than two hours without trading before it, are those between these ticks |
| BarDay.DayTimes | src/bar/BarMaker.cpp:97-276 | And its times are its own if and only if it is not the last one, or a tick closed it, or none came behind it |
| BarDay.DayExact | src/bar/BarMaker.cpp:97-276 | For spans in listed order with a clean cut, night sessions and morning auctions included, all trading bars record all their ticks on every feed if and only if no auction is listed while a bar is open |
| BarDay.VecBarApart | src/bar/BarMaker.cpp:97-161 | On such a span list every generated trading bar has its stretch of time to itself, closing second included |
| BarDay.BarsApart | src/bar/BarMaker.cpp:133-161 | The second added to a bar that ends with a session never reaches into the next bar |
| BarDay.ClosingSecond | src/bar/BarMaker.cpp:97-264 | In the second in which a bar ends with its session, outside any auction, only the first tick can be recorded, whatever came before |
| BarDay.QuarterHours | src/bar/BarMaker.cpp:337-365 | The span list of the first product group with a night session meets the condition for 15-minute bars |
| BarDay.HourBars | src/bar/BarMaker.cpp:337-365 | The same list fails it for one-hour bars, although its cut is clean |
| BarDay.TickOfTheNightLost | src/bar/BarMaker.cpp:182-264 | There any tick between 23:00 and 23:30, inside the bar that straddles the night, is recorded in no bar at all, whatever ticks came before it |
| BarMaking.GenerateVecBar | src/bar/BarMaker.cpp:97-161 | The nested loops with their running variables give the cut, rescaled at the day's ends, with no trace of a tick in any bar |
| BarMaking.GenerateCuts | src/bar/BarMaker.cpp:97-131 | The nested loops give the cut |
| BarMaking.IsEobOverlap | src/bar/BarMaker.cpp:278-285 | Answers whether a span ends at that second |
| BarMaking.VecBarFresh | src/bar/BarMaker.cpp:97-161 | Generated bars start empty, as the settlement proof needs them |
| BarMaking.BarMaker.OnTick | src/bar/BarMaker.cpp:182-264 | The in-place tick is the step of the run model, with bar and index bounds kept |
| BarMaking.BarMaker.OnFinish | src/bar/BarMaker.cpp:266-276 | The finishing loop settles from the current bar to the last |
| BarMaking.BarMaker.GetBar | src/bar/BarMaker.cpp:452-494 | Returns a bar that has traded, at most once, as the run model says |
| TickMerge.ReplayMerges | src/common/CWareHouseReader.cpp:127-271 | Replaying any set of unread files to the end gives every tick of every file exactly once and in the file's own order, no other tick, and days ascending; if each file is in time order, each day is sorted by local time and then by file |
| TickMerge.DrainSorted | src/common/CWareHouseReader.cpp:199-235 | Days come out ascending and, from files in time order, each day's ticks by local time and then by file |
| TickMerge.DrainComplete | src/common/CWareHouseReader.cpp:199-271 | The ticks of each file come out once and in the file's own order, whatever their times |
| TickMerge.MergeSmaller | src/common/CWareHouseReader.cpp:199-235 | Every merge step uses up a tick or drops a file, so reading ends |
| TickMerge.CWareHouseReader.SwitchToNextDay | src/common/CWareHouseReader.cpp:127-196 | Goes to the earliest day among the files left and starts that day's files |
| TickMerge.CWareHouseReader.StartFiles | src/common/CWareHouseReader.cpp:146-162 | The erasing loop starts the files of the day and drops those that hold nothing |
| TickMerge.CWareHouseReader.MergeTick | src/common/CWareHouseReader.cpp:199-235 | Takes the earliest tick at hand, first file first, and drops a file at its end |
| TickMerge.CWareHouseReader.Read | src/common/CWareHouseReader.cpp:264-271 | Merges, switching days as long as needed |
| BookDelta.MergeSide | src/execute_model/getDeltaMd.cpp:20-73 | For strictly ordered ladders of any size the merge writes at most one entry fewer than both have, strictly ordered, exactly the prices of either ladder in the range both reach, each with new minus old volume, and zeroes behind |
| BookDelta.GetOBDMap2 | src/execute_model/CBaseSignal.cpp:246-289 | For falling bids and rising asks, each side gives exactly the prices of either snapshot inside the ranges of both, in that order, each with its new volume minus its old one, at most nine |
| BookDelta.MergeStep | src/execute_model/getDeltaMd.cpp:20-73 | Each turn of the loop writes the next price of the union with its volume difference |
| BookDelta.DeltaMeans | src/execute_model/getDeltaMd.cpp:20-73 | What the merge writes, in prices and volumes alone: ascending for asks and descending for bids, the prices of either ladder between the least and the greatest of both, with new minus old volume |
| BookDelta.DeltaUnique | src/execute_model/getDeltaMd.cpp:20-73 | The description admits one result only |

## Left out

- Files, `mmap`, `ftruncate`, locks and `glob`: the disk is a sequence of pages; a reader's load may find a page absent, too small or without a version.
- `CGlobalSafeRawIOWriter` and several writing processes: `CGlobalLock` is not part of this model.
- `seek(frame_no)` and `setReadPos` from an arbitrary cursor; time seeking starts from a freshly loaded page.
- PageLogWriter.RawIOWriter.Prefetch: the payload the caller will fill in is known in advance as a ghost, since the caller's stores are not the writer's.
- Seeking while the writer runs: positioning is proved with the writer at rest, reading with it running.
- ReaderPool.CReaderPool.Next: the pooled readers are real reader objects, but on logs that are not being written.
- JSON: the re2c scanner, iterators, float printing, MessagePack, `flatten` and `unflatten`; recursion depth and memory limits.
- JsonPatch.Patch: within one `test`, `replace` or `copy` operation the operand is looked up before the target, whatever order the compiler picks; only the choice between two errors depends on it.
- CborRoundTrip.RoundTrip: strings, arrays and objects have fewer than 2^64 members, as sizes in memory do.
- CborFloat.WidenValue: a float is its bits; that `ldexp` and the hardware's conversion to double compute those bits is not modelled.
- Statistical models behind the best price and volume (`CABM`, `CLogitPModel`, drift, volatility, liquidity, loss minimiser): the result is an input.
- ExecSafety.NeverOverExecutes: the id a broker answers with is taken to be the local order id, distinct for each order.
- Floating-point rounding of prices and money: `real` arithmetic.
- Ledger: account files' JSON text, names and hashes (instruments and products are numbers), and the risk-control reads.
- LedgerBook.ModInstr.OnTickPx: the `Unit*` members are values inside the three classes, not objects of their own.
- The order records themselves: `amount_traded` is the exact sum of price times volume of the fills.
- Bars: `getTradingTimespan` tables, the daily and session branches of `generateVecBar`, and the setter of the base second.
- Zero and negative prices in bars, since the code uses 0.0 for "not set".
- What the wrong times of a last bar that is settled twice mean for its users.
- TickMerge.ReplayMerges: instrument information read from the files on a day switch.
- CTP clients, dumpers, monitors, Python bindings, logging, OpenSSL, process pipes, shared-memory queues, configuration.
