# AWeb: a verified model of its layout, file, cache and cookie code

AWeb is a web browser for AmigaOS. This project models the parts of it whose correctness rests on
state that changes step by step, and proves what they are for:

* **Layout of a body** (`aweb/body.c`, `element.c`, `break.c`). Children are broken greedily into
  lines; floats narrow the lines through two margin lists; a line index lets a later layout restart in
  the middle. `Margins` and `Layout` say what one pass of the outer loop computes, on values; `Body`
  has the classes with the mutable fields and loops, proved against those functions. `LayoutRun`
  proves that a layout ends, `LayoutSafety` and `LayoutBullets` that boxes do not overlap, and
  `LayoutRestart`, `LayoutRestartFloats`, `LayoutRestartMarks`, `LayoutRestartExact` and `LayoutRoomy`
  when a restarted layout agrees with one from the top; `LayoutBulletCases` and `LayoutRestartCases` have
  bodies for which that fails.
* **Asynchronous file I/O** (`aweb/asyncio.c`). One packet travels between the program and a file
  handler that may answer at any moment, with an error or not; two buffers take turns. `AsyncReading`,
  `AsyncLines`, `AsyncSeeking` and `AsyncWriting` are the machines on values, `AsyncReader` and
  `AsyncWriter` the handles with real buffers. `Tick` marks the places where the handler may have its
  turn.
* **The cache registration** (`aweb/cache.c`). `RegistryCodec` is the format, byte by byte;
  `RegistryFile` and `RegistryWriter` read and write it through the asynchronous handles, and
  `RegistryTorn` says what is read from a file with part of an entry at its end.
* **The cache in memory** (`aweb/cache.c`, `aweb/url.c`). `CacheMemory` has the url objects, each with
  its current cache object, and the list of all cache objects: during a reload or a verify there are
  two of one url. `Journal` says what replaying and compacting the journal AWCU means, `CacheRun` what
  each operation of the running program does and records, `CacheNumbers` which journals give each entry
  a number of its own, `CacheSizes` what is deleted when the pages are too much, and `CacheLoad` what
  start-up makes of a journal. `Recovery` is the machine of all operations and all writes to AWCU and
  the snapshot AWCR, in which the program may stop at any byte and any append or compaction may fail,
  and `RecoveryRuns` has runs of it.
  `CacheStore` is the class with the mutable lists, proved against all this.
* **Cookies** (`aweb/cookie.c`). `CookieText` prints and parses saved lines, `CookieJar` keeps the
  list in sending order and the list in order of use.
* **Selecting by dragging** (`aweb/bullet.c`, `break.c`, `body.c`, `event.c`) in `Drag`, and the
  **broadcast that survives removals** (`aweb/application.c`) in `Broadcast`.

`dafny verify dfyconfig.toml` checks everything.

## Where the code does not do what it is meant to do

Each of these is a lemma with the exact condition, or with inputs for which it goes wrong.

* A restarted layout differs from one from the top exactly in three cases
  (`LayoutRestartExact.RestartExact`). The line it restarts at begins with a line break that the layout
  from the top swallows, because the line before was broken off and the restart has forgotten that
  (`LayoutRestartCases.RestartCanDisagree`). Or a float was placed above that line, ahead of it, and the
  restart places it again further down (`LayoutRestartFloats.PendingDiffers`,
  `LayoutRestartCases.FloatComesDown`). Or that line has no visible child, and what is appended has
  deeper indents, with which it begins further up from the top, beside a float
  (`LayoutRestartCases.HiddenEndDisagrees`), unless its first child has no room there and sinks to where
  the restart is (`LayoutRestartExact.Sinks`). The condition is for floats and swallowed line breaks that
  have a size; `LayoutRestartExact.Telling` has all of it.
* When a float comes on the line of a bullet, the bullet is skipped in the retry: it stays at the x it
  had, and does not count for the height of the line. It ends before a left float exactly if its width,
  with how far alignment moves the line, fits the indent (`LayoutBullets.FloatOnLine`;
  `LayoutBulletCases.WideBulletOverlaps`, `CentredBulletOverlaps`). It sticks out of its line exactly if
  it is higher than what else is on it (`LayoutBullets.BulletOnLine`): an ordinary bullet alone with a
  float is put over the text above it (`LayoutBulletCases.BulletRises`), and one may overlap the bullet
  of the next line (`LayoutBulletCases.BulletsOverlap`). Otherwise a bullet that leads its line overlaps
  nothing (`LayoutBullets.BulletsApart`, with steady right indents where right floats are concerned).
  Beside a float that stands already, it is clear exactly if it fits the indents between them
  (`LayoutBullets.BulletClearExactly`).
* A right float inside a deeper right indent is overlapped by later, less indented text: the room of
  a line beside a standing right float is clear of it exactly if the line's right indent is at least
  the one the float was placed at (`LayoutSafety.RightFloatClearExactly`, `RightIndentsMatter`). Left
  floats are safe whatever the indents.
* `SeekAsync` back into a buffer that a read at the end of the file has drained gives bytes from
  further up in the file (`AsyncSeeking.SeekAfterShortRead`, `SeekBackGoesAstray`). A second seek
  after one that moved the file pointer, and before anything is read, loses bytes unless it moves the
  pointer again, or there was nothing to skip and it does not go back to what the buffer held before
  (`AsyncSeeking.SecondSeek`, `SecondSeekExact`).
* `FGetsLenAsync` with room for one byte stores its terminator past the room after a seek to the last
  byte of a block that fills a buffer (`AsyncLines.LineFitsExactly`, `LineOverruns`).
* A retry of a failed write sends the wrong buffer (`AsyncWriting.RetryWritesTheWrongBuffer`), so the
  claims about writing are for runs in which the user does not ask for one. A retry of a read leaves
  the packet marked as pending (`AsyncReading.StuckExactly`). With data in the packet that does no harm,
  for the next one is sent; but if the retried read ends at the end of the file or with an error, the
  next wait never ends (`AsyncReading.RefillSticks`, which is exact).
* `Flushexcess` deletes by url: it asks the url of each listed cache object to delete its current one.
  While a page is reloaded the list has two of one url, and then the new page is deleted and the one
  that was touched longest ago stays; if the two are neighbours the walk goes on from a freed object
  (`CacheSizes.ReloadLeadsThere`, `FlushKeepsOldest`). It deletes the shortest prefix of the list that
  is enough exactly if every object in that prefix is its url's current one (`CacheSizes.FlushExact`).
* The journal means the finished pages that are there, unless the page of a url that finished last is
  disposed of while an older one of it is still listed (`CacheRun.OpInStep`, exact for each operation;
  `CacheSizes.FlushForgetsOldest`).
* Compaction keeps what was recorded exactly if the attached cache objects are the finished ones
  (`CacheRun.CompactionExact`): one made while a page arrives records it as if it were there, and one
  made while a page is set aside for a reload forgets it (`CacheRun.CompactionFinds`). When the page then ends, its number is in the
  journal twice, and after the next start-up two entries have the same file
  (`CacheNumbers.ArrivalThroughCompaction`; `CompactionFits` is the exact condition).
* An append that fails or is cut off leaves a torn journal. If the next start-up cannot compact it,
  what is appended after that is lost at the start-up after (`RegistryTorn.LostBehindTorn`,
  `Recovery.TornAppendIsLost`; `RecoveryRuns.LostRun` is a whole run). A start-up finds everything if nothing is appended to a torn journal
  (`Recovery.StartFindsAll`; `Recovery.Keeps` has all its conditions, which are on the steps).
* When the journal records a page's replacement before the deletion of the old entry, the old entry
  stays in the cache list after the next start-up, and comes back as the page's entry once the new one
  has expired (`Journal.AddFirstLeavesTheOld`, `OrphansComeBack`). Compaction keeps the map from urls
  to entries exactly if there is no such orphan (`Journal.CompactionKeepsMap`), and there is none if
  deletions are recorded first (`Journal.TidyIsShadowless`, `ShadowlessNoOrphans`).
* A cookie value can be told from what follows it exactly if `CookieText.KeepsValue` says so
  (`CookieText.ValueEndsExactly`). A cookie file whose first line starts with AWCK is ignored
  (`CookieJar.SavedAreLoaded`).

## Model

| member | source | states |
|---|---|---|
| Margins.AddStaircase | aweb/body.c:458-482 | a margin list stays a staircase when a float is added: ends strictly increase and what is eaten never increases from the head |
| Margins.AddDeepest | aweb/body.c:458-482 | the deepest left indent stays at the head, if the new float's indent is no shallower |
| Margins.OpenStaircase | aweb/body.c:484-509 | dropping the margins that end at or above y leaves exactly those that end below it, in order |
| Margins.HeadEatsMost | aweb/body.c:484-509 | any margin still open is counted by what is eaten at that y |
| Margins.FindExact | aweb/body.c:512-535 | Findmargin gives the least y at or below the current one where left plus right eaten fits, or the lowest margin end if none does |
| Margins.FindClearsAll | aweb/body.c:512-535 | asked for no eaten width, it ends below all margins that eat any |
| Margins.FindIndentExact | aweb/body.c:548-557 | Findindentmargin's early break still finds the least y clear of margins at that indent or deeper |
| Body.Body.AddMargin | aweb/body.c:458-482 | the new list is the open margins behind one that ends at y and eats the width on top of the head's |
| Body.Body.FindMargin | aweb/body.c:512-535 | the loop over both lists computes Find |
| Body.Body.FindIndentMargin | aweb/body.c:548-557 | the loop with its early break computes FindIndent |
| Body.Body.CurrentMargin | aweb/body.c:484-509 | both lists lose the margins that have ended, and the heads give what is eaten |
| Body.Element.LayoutAt | aweb/element.c:194-254 | the answer and the new place of a box or break without NOBR or PREFORMAT, in every combination of retry and force |
| Body.Element.AlignAt | aweb/element.c:256-275 | alignment moves a box once, by its vertical alignment, and leaves an aligned box alone |
| Body.Body.ScanLine | aweb/body.c:714-754 | the inner loop over the children of a line, which answer that they fit or not, float or end the line, computes Scan |
| Body.Body.FinishPass | aweb/body.c:761-890 | every way in which a pass ends with those answers computes Finish |
| Body.Body.LayoutBody | aweb/body.c:619-905 | places, line index and height after Layoutbody are those of Run from the top or from the restart; the width of the body is not computed |
| Body.Body.LeavesNoMargins | aweb/body.c:899-902 | if every float has a width, a layout from the top leaves no margins for the next one |
| Body.Body.ChangeAgrees | aweb/body.c:634-661 | if only what was appended to a roomy body is laid out, the body has the places, lines and height of a layout of all of it from the top |
| LayoutRun.PassProgress | aweb/body.c:669-898 | every pass lessens the lexicographic measure: children left, floats not placed, margins open, force not yet asked for |
| LayoutRun.LayoutEnds | aweb/body.c:669-898 | a layout of any list of boxes, floats and breaks ends with every child aligned |
| LayoutRun.PassGoesDown | aweb/body.c:669-898 | y never goes up, and no line is added above it |
| LayoutRun.MarginsEndEmpty | aweb/body.c:899-902 | if every float has a width, the height reaches below every float, and no margin is open at it |
| LayoutSafety.StandingFloat | aweb/body.c:680-703 | a line beside a float that still stands has its room on the free side of it, and is not forced |
| LayoutSafety.PassSafe | aweb/body.c:669-898 | a pass keeps all placed boxes apart and accounted for by the margins |
| LayoutSafety.NoOverlap | aweb/body.c:669-898 | after a whole layout no two visible boxes that are not bullets overlap, floats included, whatever the mix of left indents; for right floats if right indents never decrease |
| LayoutSafety.RightFloatClearExactly | aweb/body.c:822-843 | the room of a line is clear of a right float whose margin is at the head if and only if its right indent is at least the one the float was placed at; of one too wide for its own line, if and only if there is no room |
| LayoutSafety.RightIndentsMatter | aweb/body.c:822-843 | a body whose right indent decreases, in which text overlaps a right float |
| LayoutBullets.BulletsApart | aweb/body.c:680-703 | after a whole layout a bullet at most 32 wide and indented that leads its line overlaps no visible box, no float, on its line or not, and no other such bullet; no right float, if right indents never decrease; for a line on which a float came, if alignment moves it by at most 8 and the bullet is no higher than what else is on it |
| LayoutBullets.BulletClearExactly | aweb/body.c:692-700 | a bullet that leads a line begins clear of a left float whose margin is at the head if and only if its width fits the indents between them, or the float was not indented |
| LayoutBullets.FloatOnLine | aweb/body.c:822-843 | when a left float comes on its line, a bullet of any width ends before the float if and only if its width, with how far alignment moves the line, fits the indent; without alignment, if and only if its width does |
| LayoutBullets.BulletOnLine | aweb/element.c:197-202 | and it lies between the top and the bottom of the line if and only if it is no higher than what else is on the line, on the side where it is aligned |
| LayoutBulletCases.WideBulletOverlaps | aweb/element.c:197-202 | a wide bullet and a float on its line, which overlap |
| LayoutBulletCases.CentredBulletOverlaps | aweb/element.c:197-202 | a narrow bullet on a centred line, which a float on that line overlaps |
| LayoutBulletCases.BulletRises | aweb/element.c:197-202 | a bullet as there are, alone on its line with a float, which is put over the text above |
| LayoutBulletCases.BulletsOverlap | aweb/element.c:197-202 | two narrow bullets of successive lines that overlap, because a float came on the first line |
| LayoutRestart.RunPrefix | aweb/body.c:634-661 | up to the restarted line, a layout of the longer body goes through the same states, if what leads those lines gives them the same room |
| LayoutRestart.RestartResumes | aweb/body.c:634-661 | the restart is the state from which that line was laid out, but for the remembered soft line end |
| LayoutRestart.RestartAgrees | aweb/body.c:634-661 | after appending children, the restarted layout gives the same places, line index, final y and margins as one from the top, if the restarted line begins where it did, no float was placed ahead of it, and it does not begin by swallowing a line break |
| LayoutRestart.VisibleStart | aweb/body.c:680-690 | the restarted line begins where it did if some child from there on is visible |
| LayoutRestart.ClearStart | aweb/body.c:680-690 | or, visible or not, if no left margin is open there and the lines before it are led alike |
| LayoutRestartFloats.PendingAbove | aweb/body.c:822-843 | a float with a height that was placed ahead of the restarted line is above it |
| LayoutRestartFloats.PendingDiffers | aweb/body.c:634-661 | and then the restarted layout disagrees with one from the top, whatever is appended |
| LayoutRestartExact.RestartExact | aweb/body.c:634-661 | with floats or without, the two agree if and only if no float was placed ahead of the restarted line, it does not begin by swallowing a line break, and it begins where it did or its first child sinks to there; for floats with heights, swallowed line breaks that show, and lines before it that are led as before |
| LayoutRestartCases.RestartCanDisagree | aweb/body.c:714-718 | a box wider than the page and a line break, after which they disagree whatever is appended |
| LayoutRestartCases.FloatComesDown | aweb/body.c:714-741 | with a float behind that line break the retry forgets the swallowing, the float ends up above the restarted line, and they disagree whatever is appended |
| LayoutRestartCases.HiddenEndDisagrees | aweb/body.c:680-690 | a body that ends beside a float in an invisible child of a lesser indent, after which they disagree whatever follows text of the float's indent |
| LayoutRoomy.RoomyRestartAgrees | aweb/body.c:634-661 | they agree for every body whose boxes fit the page and that ends in a visible child, whatever is appended |
| LayoutRoomy.Relaid | aweb/body.c:634-661 | after any number of appends, each followed by a restarted layout, a roomy body whose parts end in visible children is laid out as from the top |
| AsyncReading.TimingIsImmaterial | aweb/asyncio.c:65-112 | the handler's answer commutes with all that the program does to the buffer it reads, and waiting ends in the same state whenever the answer came and however often the packet was sent again |
| AsyncReading.ReadingIsAside | aweb/asyncio.c:341-388 | taking bytes and emptying the buffer are such changes |
| AsyncReading.StuckExactly | aweb/asyncio.c:98-106 | a wait leaves the packet at home but marked as out if and only if the first answer was an error and the user asked for a retry |
| AsyncReading.RefillSticks | aweb/asyncio.c:65-112 | after refilling the buffer the program would wait for ever if and only if that happened and the wait ended with nothing |
| AsyncReading.WaitArrives | aweb/asyncio.c:65-112 | waiting leaves the packet home with data or an error, touches nothing that is being read, and an error stays an error |
| AsyncReading.SwapOk | aweb/asyncio.c:371-380 | going over to the filled buffer keeps the position, and the packet's buffer is never the one being read |
| AsyncReading.CallsReadOn | aweb/asyncio.c:341-424 | whatever calls are made, what they get are the successive bytes of the file |
| AsyncReader.AsyncFile.WaitPacket | aweb/asyncio.c:65-112 | the loop with retries computes Wait |
| AsyncReader.AsyncFile.ReadAsync | aweb/asyncio.c:341-388 | it delivers the next bytes of the file: all that were asked for, or fewer because the file ends, or -1 for an error |
| AsyncReader.AsyncFile.ReadCharAsync | aweb/asyncio.c:394-424 | the next byte, or -1 at the end or for an error |
| AsyncReader.AsyncFile.FGetsLenAsync | aweb/asyncio.c:655-741 | the next line up to its first newline, as far as there is room, whatever way it lies across the buffers |
| AsyncReader.AsyncFile.SeekAsync | aweb/asyncio.c:506-621 | in read mode the three cases compute Seek, and failures are recorded |
| AsyncLines.LineFitsExactly | aweb/asyncio.c:655-741 | a line and its terminator fit if and only if it is not a one-byte buffer with one byte left in the chunk after a seek |
| AsyncLines.LineOverruns | aweb/asyncio.c:571-583 | every seek to the last byte of a block that fills a buffer leads there |
| AsyncSeeking.SeekGetsThere | aweb/asyncio.c:516-621 | from a settled state a seek to any place in the file leaves the rest of the file from that place on to be read, in all three cases |
| AsyncSeeking.SeekAfterShortRead | aweb/asyncio.c:585-603 | what is read after a seek that follows a read that met the end, for every target: the wrong bytes exactly for targets thought to be in the drained buffer, else the rest of the file |
| AsyncSeeking.SeekBackGoesAstray | aweb/asyncio.c:585-603 | a file of three bytes for which that happens |
| AsyncSeeking.SecondSeek | aweb/asyncio.c:579-603 | what is read after a second seek, for every target: the rest of the file if it moves the pointer again, else the bytes near the target and then the file less what was still to be skipped |
| AsyncSeeking.SecondSeekExact | aweb/asyncio.c:579-603 | that is the rest of the file if and only if the seek moves the pointer, or nothing is to be skipped and it does not go back to other bytes |
| AsyncSeeking.NearIsRight | aweb/asyncio.c:585-603 | going back within what the buffer is known to hold gives the bytes of the file |
| AsyncWriting.WaitSettles | aweb/asyncio.c:65-112 | waiting moves no byte out of place, and never undoes an error |
| AsyncWriting.RoundWrites | aweb/asyncio.c:446-463 | filling, waiting and sending loses and repeats nothing, and the pending buffer is not the current one |
| AsyncWriting.RetryWritesTheWrongBuffer | aweb/asyncio.c:103-104 | a retried write puts the current buffer on the disk; that is harmless if and only if both buffers hold the same |
| AsyncWriting.WritesAddUp | aweb/asyncio.c:309-335 | while no retry is asked for: if closing reports no error, no write did, and the file is the old content followed by all that was written; without errors closing reports none |
| AsyncWriter.AsyncFile.WriteAsync | aweb/asyncio.c:430-471 | all bytes are handed over in order, or the handle has failed for good |
| AsyncWriter.AsyncFile.WriteCharAsync | aweb/asyncio.c:477-500 | one byte is handed over, or the handle has failed for good |
| AsyncWriter.AsyncFile.CloseAsync | aweb/asyncio.c:309-335 | the file as Closed says |
| RegistryCodec.NumberBack | aweb/cache.c:77-116 | a 32-bit number is read back |
| RegistryCodec.StringBack | aweb/cache.c:170-222 | a string of any length without newline or NUL, read in 31-byte pieces, is read back |
| RegistryCodec.EntryBack | aweb/cache.c:284-347 | an entry of any kind is read back |
| RegistryCodec.EntryCut | aweb/cache.c:284-347 | an entry cut short anywhere is an error, and clean end of file only if nothing of it is there |
| RegistryCodec.AllCut | aweb/cache.c:629-645 | entries cut short anywhere give the complete ones before the cut, and end cleanly only between two entries |
| RegistryCodec.RegistryCut | aweb/cache.c:595-645 | a whole file is read back; a file cut short gives exactly its complete entries, or nothing if the header is torn |
| RegistryCodec.AllReadWritable | aweb/cache.c:170-222 | whatever bytes are in a file, what is read from it can be written back |
| RegistryFile.Read32Bit | aweb/cache.c:90-116 | it reads from the handle what Get32 reads from the rest of the file |
| RegistryFile.Readstring | aweb/cache.c:170-212 | the loop over line pieces reads what GetString reads from the rest of the file, as long as there is no input error |
| RegistryFile.ReadCRegStruct | aweb/cache.c:284-347 | it reads from the handle what GetEntry reads from the rest of the file |
| RegistryFile.ReadCHdrStruct | aweb/cache.c:555-572 | the header is accepted exactly when GetRegistry accepts it |
| RegistryWriter.WriteCRegStruct | aweb/cache.c:511-553 | it hands over the bytes of the entry, in order, or the handle has failed |
| RegistryWriter.WriteCHdrStruct | aweb/cache.c:574-592 | it hands over the bytes of the header, or the handle has failed |
| CacheMemory.DisposeValid | aweb/cache.c:1583-1599 | disposing of a cache object leaves every other listed and attached as it was |
| Journal.ReplayDenotes | aweb/cache.c:652-737 | replaying any journal finds for every url the entry added last unless that was deleted, and none if it has expired |
| Journal.OrderIsImmaterial | aweb/cache.c:652-666 | because of the number check it does not matter whether a replacement's entry precedes the old one's deletion |
| Journal.CompactionKeepsOrder | aweb/cache.c:858-867 | a compacted journal, which has the cache objects that their urls point to, replays to the same list in the same order, less what has expired |
| Journal.CompactionKeepsMap | aweb/cache.c:858-867 | it means what is found in memory for every url if and only if there are no orphans |
| Journal.TidyIsShadowless | aweb/cache.c:668-715 | after a journal in which deletions come first, only the newest object of a url has cache objects |
| Journal.ShadowlessNoOrphans | aweb/cache.c:858-867 | and then there are no orphans |
| Journal.AddFirstLeavesTheOld | aweb/cache.c:652-666 | otherwise the old entry stays in the list |
| Journal.OrphansComeBack | aweb/cache.c:858-867 | and is the url's entry again after the new one has expired and the journal was compacted |
| CacheRun.OpSound | aweb/cache.c:1446-1599 | every operation keeps the list without duplicates, url objects pointing to listed cache objects of theirs, and numbers distinct and none above the last |
| CacheRun.OpInStep | aweb/cache.c:1563-1599 | after each operation the journal with what it appends means the finished pages there are, for each url the one finished last, if and only if the one finished last is not disposed of while an older one is listed |
| CacheRun.OpShadowless | aweb/url.c:498-504 | fetching, reloading, verifying, adopting and disposing leave cache objects only with the newest url object of a url |
| CacheRun.CompactionExact | aweb/cache.c:858-867 | a compaction of the running memory means what was recorded if and only if exactly the recorded pages are attached |
| CacheRun.CompactionFinds | aweb/cache.c:858-867 | every recorded page is still found after a compaction if and only if none is set aside |
| CacheRun.RunInStep | aweb/cache.c:1563-1599 | over any run the journal means the finished pages that are there |
| CacheRun.ReplayFindsFinished | aweb/cache.c:652-737 | so replaying the journal of any run finds exactly the finished, unexpired pages, for each url the one finished last |
| CacheNumbers.ReplayNumbered | aweb/cache.c:735-736 | if a journal gives each unexpired entry its own number, the entries in memory have distinct numbers, none above the last |
| CacheNumbers.OpFits | aweb/cache.c:1446-1599 | the journals that runs append have such numbers, and no page still arriving has one of them |
| CacheNumbers.CompactionFits | aweb/cache.c:858-867 | a compaction keeps that if and only if no unexpired page is arriving in the place of its url's entry |
| CacheNumbers.ArrivalThroughCompaction | aweb/cache.c:895-905 | else the end of the page records its number a second time, and replay lists two entries with the same file |
| CacheSizes.DisposeEntries | aweb/cache.c:1583-1599 | disposing takes one entry out of the list and its size off the total |
| CacheSizes.FlushExact | aweb/cache.c:969-982 | what is deleted is the shortest prefix of the list that is enough, or all, if and only if every cache object in it is its url's current one |
| CacheSizes.ReloadLeadsThere | aweb/url.c:498-504 | reloading the page touched longest ago leaves it first in the list with a new cache object of its url behind it |
| CacheSizes.FlushKeepsOldest | aweb/url.c:762-763 | then flushing deletes the new page and keeps the old one, and goes astray if they are neighbours |
| CacheSizes.FlushForgetsOldest | aweb/url.c:762-763 | and if both had arrived the journal no longer has the page that is left |
| CacheSizes.FlushInStep | aweb/cache.c:969-982 | if every listed object is its url's current one, flushing keeps the journal in step with the memory |
| RegistryTorn.ReadsTorn | aweb/cache.c:895-905 | a journal with part of an entry at its end reads as the journal without it |
| RegistryTorn.LostBehindTorn | aweb/cache.c:629-645 | an entry appended behind up to twenty bytes of another is never read, and nothing after it, if its byte that falls on the place of the kind is no kind |
| RegistryTorn.SizeAsKind | aweb/cache.c:511-553 | behind one byte that is the low byte of the page's size |
| CacheLoad.ReadHolds | aweb/cache.c:1659-1696 | whatever is in the file, start-up makes a memory that can be saved and finds what the file means, less what has expired |
| CacheLoad.ReadFresh | aweb/cache.c:1659-1696 | from a journal that is tidy and numbered it makes one with distinct numbers and no orphans, that the journal is in step with |
| CacheLoad.SettledFits | aweb/cache.c:858-867 | a compaction with exactly the recorded pages attached means what was recorded and is tidy and numbered again |
| Recovery.StepIsSafe | aweb/cache.c:841-921 | no step of any operation, append, compaction, start-up or exit, whether it fails or not, nor a crash in it, loses what was recorded, under conditions on the step |
| Recovery.StartIsSettled | aweb/cache.c:1675-1682 | the compaction that start-up makes finds exactly the recorded pages attached, so it keeps everything |
| Recovery.StartFindsAll | aweb/cache.c:1659-1725 | wherever a run stops, the next start-up finds what was recorded, and all or nothing of the record in progress |
| Recovery.StartFindsMemory | aweb/cache.c:1563-1599 | while no append fails that is, at any moment between operations, the finished pages in memory |
| Recovery.TornAppendIsLost | aweb/cache.c:895-905 | a crash in an append, a start-up that cannot compact, and another append: the program takes it for recorded and the next start-up does not find it |
| RecoveryRuns.LostRun | aweb/cache.c:895-905 | a run from the first start-up on in which that happens, for any two urls |
| RecoveryRuns.AppendsAreFound | aweb/cache.c:895-905 | between two compactions a start-up finds what was recorded, in whatever order pages finish and go, if nothing is appended to a torn journal |
| CacheStore.Cache.Readcachereg | aweb/cache.c:595-740 | reading the file through the handle makes the memory that its bytes stand for, and reports whether it was in order; the total is the sum of the sizes |
| CacheStore.Cache.Initcache | aweb/cache.c:1659-1696 | after start-up from a good file the numbers are distinct, there are no shadows, and the journal means what is in memory |
| CacheStore.Cache.Savecachereg | aweb/cache.c:841-880 | the current cache objects are written in the order of the list; if closing succeeds the snapshot is all there, so AWCU is never deleted for a broken one |
| CacheStore.Cache.Compact | aweb/cache.c:906-918 | the new journal means what the old one did if and only if exactly the recorded pages are attached |
| CacheStore.Addregentry | aweb/cache.c:895-905 | the bytes of the entry are appended to the file if closing succeeds |
| CacheStore.Cache.Newcache | aweb/cache.c:1446-1461 | a new cache object is last in the list, with the next number, and current for no url |
| CacheStore.Cache.Fetch | aweb/url.c:683 | a fetch makes one and points its url to it |
| CacheStore.Cache.SetAside | aweb/url.c:498-504 | a reload takes the pointer away and leaves the list as it is |
| CacheStore.Cache.Adopt | aweb/url.c:877-888 | a url takes a cache object of its own from the list |
| CacheStore.Cache.Srcupdate | aweb/cache.c:1549-1562 | arriving data grows the entry and the total, and leaves the journal up to date |
| CacheStore.Cache.Finished | aweb/cache.c:1568-1577 | the end of a page appends its entry, and the journal means it |
| CacheStore.Cache.Endofpage | aweb/cache.c:1568-1579 | with the flush that follows, the journal stays up to date and the rest fits, if every listed object is its url's current one |
| CacheStore.Cache.Adisposeobject | aweb/cache.c:1583-1599 | the object leaves the list, the total and its url, and a deletion is recorded if it has a file; the journal stays up to date if and only if it was not the last finished of its url with an older one listed |
| CacheStore.Cache.Flushexcess | aweb/cache.c:969-982 | the walk through the list computes Flush, with what it records; the journal stays up to date if every listed object is its url's current one |
| CacheStore.Cache.Touched | aweb/cache.c:1429-1436 | a touched page goes to the end of the list, the others keep their order |
| CookieText.ValueEndsExactly | aweb/cookie.c:566-576 | the value of a cookie ends at the semicolon after it if and only if it is quoted or free of separators |
| CookieText.FieldsBack | aweb/cookie.c:580-611 | the fields of a printed line are found again, in order, quoted or not |
| CookieText.AtolBack | aweb/cookie.c:524-528 | a printed version number is read back |
| CookieText.LineParses | aweb/cookie.c:497-533 | parsing the line that saves a cookie gives the cookie back, with every field and flag |
| CookieJar.AddValid | aweb/cookie.c:279-307 | whatever cookie comes, keys stay unique and the list sorted by path length, longest first |
| CookieJar.SavedAreLoaded | aweb/cookie.c:686-707 | saving and loading gives the persistent, unexpired cookies back in their order of use, in a valid store; nothing if the file starts with AWCK |
| CookieJar.UsedIsLast | aweb/cookie.c:792-793 | cookies that were sent are last in the order of use, in the order sent, and the others stay as they were |
| CookieJar.CookieStore.Addcookie | aweb/cookie.c:279-307 | the loops over the list replace any cookie with the same key and insert by path length |
| CookieJar.CookieStore.Findcookies | aweb/cookie.c:747-806 | the wanted cookies are sent longest path first, and each counts as used |
| Drag.RenderIsRight | aweb/bullet.c:280-336 | stopping at the first unlit bullet past the range highlights exactly the range if and only if nothing lit lies beyond one |
| Drag.SameStartNoIsland | aweb/event.c:350-377 | with the start kept, what was selected before never does |
| Drag.DragBody.Dragselect | aweb/event.c:350-377 | after every drag event exactly the bullets between the fixed start and the new end are highlighted, in either direction |
| Drag.DragBody.Dragclear | aweb/event.c:340-348 | after a clear nothing is |
| Drag.DragBody.Dragcopybody | aweb/body.c:1597-1604 | a copy collects exactly the text of the children in that range, in their order |
| Broadcast.VisitOne | aweb/application.c:419-451 | after each visit no child was had twice or after it was gone, and the array has room for the next |
| Broadcast.Application.Broadcastsafe | aweb/application.c:419-451 | every child that stays is visited, none twice, none after its removal, and the array is never overrun |

## Left out

- Layout: elements flagged NOBR or PREFORMAT and the results only they give; the results MORE and CONT of text, and text and tables themselves; the width of the body; FITHEIGHT; measuring; the x of line breaks.
- Body.Element.LayoutAt: NOBR and PREFORMAT, and the query for a place to break.
- Body.Body.ScanLine: the answers MORE, CONT, BREAK and FBREAK.
- Body.Body.FinishPass: the endings for MORE, CONT and BREAK.
- Body.Body.LayoutBody: the width of the body, FITHEIGHT, and text.
- LayoutSafety.NoOverlap: compares visible boxes only, and not bullets, for which see `LayoutBullets`.
- LayoutBullets.BulletsApart: nothing is said of bullets in the middle of a line, nor of lines that a float was placed ahead of; and that a centred line may be moved further if only right floats came on it.
- LayoutRestart.RestartAgrees: it is stated one way; the other way is in `LayoutRestartExact.RestartExact`.
- LayoutRestartExact.RestartExact: nothing is said of swallowed line breaks without height in a body without left margin, of floats without height that were placed ahead, nor of lines without a visible child before the restarted one that would be led otherwise.
- LayoutRun.MarginsEndEmpty: a float without width leaves a margin that eats nothing and that Findmargin does not look for.
- Async files: the NIL: handler, seeking in write mode, failing allocations, a device whose block size cannot be asked, and 32-bit overflow of positions.
- AsyncReader.AsyncFile.SeekAsync: seeking in write mode.
- AsyncWriting.WritesAddUp: does not cover runs in which the user asks for a retry, because a retry sends the wrong buffer, see above.
- RegistryFile.Readstring: after an input error nothing is said of the result; the source looks at IoErr to tell that from the end of the file.
- RegistryTorn.LostBehindTorn: other bytes in the place of the kind make an entry of parts of both, which is not described.
- Recovery.StartFindsAll: deleting and renaming are single steps that succeed, and a snapshot that cannot even be opened is not told from one that fails.
- CacheStore.Cache.Readcachereg: the url objects of redirection targets.
- CacheStore.Cache.Initcache: which of the two files is read, renamed or created; that is in `Recovery`.
- CacheStore.Cache.Srcupdate: that Flushexcess is called as well after much data; it is proved on its own.
- Cache: the files of the pages themselves and the repair run; flushing by type and pattern; the url objects of redirection targets; the background check for duplicate urls; headers that come after the end of a page.
- CookieJar.SavedAreLoaded: dates as text are a parameter, taken to be read back as printed; lines must be shorter than the input buffer.
- CookieJar.CookieStore.Findcookies: which cookies match a url is a parameter.
- Cookies: the parser is modelled on the remaining text, cut at the places where the program writes a NUL into its buffer, and not in place; cookies from servers with their domain and path checks, the requester, and the account of sizes.
- Drag selection: texts and form fields inside the range, and nested bodies; rendering itself.
- Broadcast.Application.Broadcastsafe: no child is added during a broadcast, and the array can be allocated.
- The hit test of image maps, JavaScript bindings, drawing, windows, gadgets, networking.
