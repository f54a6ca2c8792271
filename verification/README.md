# Verified model of SourceMod's core

SourceMod's core keeps several state machines and data structures that do not need the game
engine to state what they are for. This project models them in Dafny, branch by branch, and proves
what they promise. Code that changes things in place is modelled by methods over arrays, fields and
loops, each proved against a function or a relation; what the source promises is then proved of
those, for every input, every run or every interleaving.

| files | part of the core | main results |
|---|---|---|
| `Smc*.dfy` | the SMC text parser (`core/TextParsers.cpp`) | well-bracketed traces for every input and listener; documents are told the same however they are laid out, with comments anywhere; the 4096-byte sliding buffer, which the parser writes to while it reads it, refines parsing in one piece exactly when the text fits; printing and parsing round-trips exactly for documents without strings that end in a backslash, also through the buffer |
| `Format*.dfy` | `gnprintf` (`core/sm_stringutil.cpp`) | the output is exactly what fits of the formatted text, in which each directive shows its argument as a reader would read it |
| `Phrase*.dfy` | phrase translations (`core/Translator.cpp`) | `#format` is accepted exactly when complete; the unchecked output fits; compilation preserves meaning |
| `Replace.dfy`, `Crc.dfy` | search and replace in place, CRC-32 | left-to-right replacement, how it cuts, and exactly when the loop stays in its buffer; the table is the bit-serial register, which is linear and detects four-byte changes |
| `Paging.dfy` | menu pages (`core/MenuManager.cpp`) | any run of Next and Back shows exactly the pages |
| `MenuWorld.dfy`, `MenuInvariants.dfy`, `MenuTold.dfy`, `VoteTally.dfy`, `MenuStyle.dfy`, `FastLink.dfy` | displays, callbacks and votes | who is told what, call by call, by every key and display; starts and ends balance in every run; every vote ends exactly once and reports the true tally |
| `Db*.dfy`, `Queue.dfy` | threaded database operations (`core/Database.cpp`) | every operation goes through its stages once, in every interleaving of the two threads, by priority and then in order; nothing of an unloaded plugin stays queued, and of a dropped identity exactly what a drop inside its own lets in |
| `Admin*.dfy` | the admin cache arena (`core/AdminCache.cpp`) | four lists, the group tables and the name index stay consistent; removing a group recomputes flags everywhere |
| `Timer*.dfy` | timers (`core/TimerSys.cpp`) | a timer is called in the first frame after its interval; a frame calls each due timer once, in order, unless a callback called in it kills the timer |
| `DataPack.dfy` | data packs (`core/CDataPack.cpp`) | every packed list is read back |
| `Common.dfy`, `Counting.dfy` | | what the others share |

Pointers are places in an array or an arena, and NULL is -1. Listeners, menu handlers and timer
callbacks are functions of everything they have been told so far, so they may depend on the whole
history. Time is a real number. `size_t` is taken as 32 bits wide in data packs.

## What the code does that its comments do not say

- A quoted pair cannot share a line with the brace that closes its section: `rotate` refuses
  because the third slot is taken (`core/TextParsers.cpp:585-590`). `SmcPairs.PairThenBraceFails`; a brace behind
  a pair works exactly when the value is still being read, `SmcPairs.BraceAfterPair`.
- A value in a quote that begins right behind an unquoted key, and is not closed on its line, is handed out empty:
  the NUL that ends the key stands on its first character (`core/TextParsers.cpp:205-263`).
  `SmcPairs.UnclosedValueIsCut`.
- The star of `/*` can also be the star of `*/`, so `/*/` is a whole comment (`core/TextParsers.cpp:473-494`).
  `SmcLayout.StarIsShared`. A slash that begins no comment is lost in front of a string without quotes.
  `SmcLayout.LeadingSlashIsLost`.
- A string that ends in a backslash cannot be written so that it is read back: the closing quote
  is judged by the character before it alone (`core/TextParsers.cpp:446`). `SmcRoundTripExact.RoundTripExactly`.
- The parser's buffer loses nothing as long as what must be kept leaves room: for a document that is right in one
  piece, the result through the buffer is that of one piece if and only if it fits (`SmcReader.ParseStream`,
  `SmcLoads.FateExactly`). That the line begin has moved at every refill is not enough for that: a staged string
  at the front of a full buffer leaves the reader no room, and its empty answer is taken for the end of the
  input, which ends the parse with an error (`SmcLimits.EmptyLinesFill`). A last load that fills the buffer with one
  line ends in a token overflow although nothing follows it (`SmcLimits.BlanksFill`). A line that is too long is
  found to be where a load begins with it; behind another line of the same load it is not, and the next read goes
  over characters that are still needed (`SmcLimits.LongLineIsOverwritten`).
- In a phrase, a backslash followed by none of the four known characters copies two characters and
  then skips a third; at the end of the phrase the copy runs over the terminator
  (`core/Translator.cpp:530-537`). Exactly which phrases do: `Phrase.OverrunsExactly`, with examples in
  `Phrase.LastBackslashes`. A phrase that does not name every index
  leaves -1 in the order of arguments, which `Translate` uses as an index. `PhraseMeaning.OrderIsPermutation`.
- A number wider than its field, aligned to the left, is padded until the buffer is full: the width is
  counted below zero (`core/sm_stringutil.cpp:360-515`). `Format.PaddedExactly`, `Format.LeftWithoutWidthFills`.
- Zeros that fill a field stand in front of a minus sign. `FormatMeaning.ZerosBeforeSign`.
- A replacement that fits into a buffer too short for the rest keeps the end of the rest, not its beginning
  (`core/sm_stringutil.cpp:1252-1263`). `Replace.EndIsKept`.
- `UTIL_ReplaceAll` passes the length of the whole buffer for the rest of it (`core/sm_stringutil.cpp:1165`), so
  a result that is too long is written past the end (`Replace.DoublingOverflows`), unless the first replacement
  is already cut and nothing is left to replace behind it (`Replace.LongReplacementIsCut`). Exactly when it
  stays inside: `Replace.StaysInside`.
- The search for a previous page never looks at item 0 (`core/MenuManager.cpp:416`); with pages of two or more
  items that does not show. With ten keys and no exit button the last slot is left as it was
  (`core/MenuManager.cpp:649-652`). `Paging.LastKeyExactly`.
- An identity dropped while another one's operations are being purged lifts the block of the other
  (`core/Database.cpp:635,667`). `DbInvariants.NestedDropLiftsBlock`; what is then left queued is in
  `DbDrops.DropExactly`.
- `SetPosition` on an empty pack accepts every position (`core/CDataPack.cpp:152`). A read as a cell takes the
  first four characters of a four-letter string. `DataPacks.CellReadsAnyFour`.
- A timer that fires once goes before older ones that are due at the same time, if any is due later
  (`core/TimerSys.cpp:311-330`). `TimerMeaning.NewerGoesFirst`.
- A freed timer keeps its mark of being called, which is what makes stale pointers to it harmless until it is
  used again. `Timers.StaleKill`.

## Model

The first 40 rows are the main results; the others are what they rest on, file by file.

| member | source | states |
|---|---|---|
| SmcReader.ParseStream | core/TextParsers.cpp:314-758 | **Main.** With any reader the trace is well formed; where characters still needed are about to be read over, it stays so whatever the buffer holds from then on; success is only reported for input that was taken whole, with the result of one piece. With a reader that fills the buffer the outcome is `Fate`; it is success if and only if the text is right in one piece and fits, and for a text that is right in one piece it is the outcome of one piece if and only if the text fits: what is needed leaves room until the last character is read, and the last load is not a full buffer by itself. |
| SmcRoundTripExact.RoundTripExactly | core/TextParsers.cpp:446-471 | **Main.** Printing a document and parsing it gives its preorder back if and only if none of its strings ends in a backslash. |
| SmcTrace.ParseIsProper | core/TextParsers.cpp:314-758 | **Main.** For every input and every listener: one parse start, first; one parse end, last; sections never left too often, pairs only inside sections; a parse that is not halted ends with no error and at depth zero; `failed` is reported exactly for a custom error. |
| SmcDocuments.ParsePrinted | core/TextParsers.cpp:314-758 | **Main.** Printing and parsing through the 4096-byte buffer gives the document back, for documents of any length with lines shorter than the buffer and no string that ends in a backslash. |
| SmcLayout.LayoutRoundTrip | core/TextParsers.cpp:314-758 | **Main.** A document is parsed without an error and told of in preorder however it is laid out: with line comments, comments over lines, blank lines and blanks between any of its parts, names, keys and values with or without quotes, and braces on any line. |
| SmcListener.ListenerIsObeyed | core/TextParsers.cpp:384-687 | **Main.** For every input and every listener: when a reply asks to stop, nothing more is told but the end; the result is success exactly if it asked to halt and its own error exactly if it asked to fail, and no other parse ends so. The reply to the start is not looked at. |
| SmcInPlace.StepInPlace | core/TextParsers.cpp:379-687 | **Main.** A step with its writes is the step without them; the strings it tells of stand in the buffer, terminated; nothing that a later step may look at is written to. |
| MenuInvariants.EveryRunIsGood | core/MenuStyle_Base.cpp:74-591 | **Main.** After every run of operations of players, menus and votes: a client is watched exactly once if its menu has a time limit, and not otherwise; votes recorded are votes counted; a vote in progress is open somewhere. |
| MenuInvariants.CallbacksBalance | core/MenuVoting.cpp:332-340 | **Main.** Starts minus ends of a handler is the number of clients with its menu open, plus one for the vote held with it; `m_Clients` never goes below zero and no assertion fails. |
| MenuInvariants.VoteEndsOnce | core/MenuVoting.cpp:207-237 | **Main.** A vote runs exactly as long as some client has it open, and every vote started has ended exactly once when none runs. |
| VoteTally.EndReports | core/MenuVoting.cpp:245-330 | **Main.** A vote that ends reports every item voted for with the number of clients that recorded it, and every client asked with its choice; cancelled and empty votes report that instead. |
| MenuTold.ItemKeyTells | core/MenuStyle_Base.cpp:268-396 | **Main.** A key that selects an item tells the handler of the menu, once, of that item for this client and menu, and then that it ended as selected; in a vote it makes the item this client's choice and raises its count, and no other, by one. Only this menu leaves the screen. |
| MenuTold.DisplayTells | core/MenuStyle_Base.cpp:457-555 | **Main.** A display tells the handler of the start, then the handler of the menu on the screen of its interruption, then its own of the display, or that there is none and the end; the client then sees this menu, from now and for the time given. |
| DbInvariants.EveryRunIsGood | core/Database.cpp:496-704 | **Main.** In every state of every interleaving of the two threads, with plugins calling back from think parts and purges: each operation is in exactly one place, there are as many threads as operations to run, and a blocked or unloaded owner has nothing queued. |
| DbOrder.StepMoves | core/Database.cpp:496-704 | **Main.** In any step of either thread, an operation stays where it is with nothing done to it, or goes exactly one part of its way: from its queue to the worker only when it goes first; run; to the think queue; thought about when it is first there, or listed for a purge that concerns it, and then cancelled if that is of its driver and thought about otherwise; destroyed. |
| DbOrder.NeverOvertaken | core/sm_simple_prioqueue.h:43-65 | **Main.** In every run, an operation is never taken while one of higher priority is queued, or one of its own that came before it. |
| DbInvariants.EachStepOnce | core/Database.cpp:581-626 | **Main.** The history of an operation is a beginning of run, think or cancel, destroy: never twice, never out of order. |
| DbInvariants.AllAreDone | core/Database.cpp:581-626 | **Main.** When both threads are idle and nothing waits, every operation has been through all of it. |
| DbInvariants.NothingOfTheirs | core/Database.cpp:633-704 | **Main.** An unloaded plugin has nothing queued anywhere from then on; an identity has nothing while its purge has the block. |
| DbDrops.DropExactly | core/Database.cpp:633-668 | **Main.** When the drop of an identity ends, after any run inside it, none of its operations is queued if and only if none was accepted during the drop without being swept up by a later purge in it; if one was, another identity was dropped inside this drop. |
| AdminState.ListsApart | core/AdminCache.cpp:441-547 | **Main.** Live and free admins and groups are four lists without a common record, and a record has its live mark exactly if it is in a live list. |
| AdminCaches.AdminCache.InvalidateGroup | core/AdminCache.cpp:910-997 | **Main.** The group and its name are gone, every admin that had it has its other groups in order and `eflags` equal to its own flags joined with those of the rest, and every other group is what it was but for its links. |
| PhraseFormat.ReadFormat | core/Translator.cpp:225-446 | **Main.** A property is accepted exactly if it is well formed and numbers its entries 1 to n, each once, with specifiers that fit; the table is then complete, and the final loop that looks for holes never finds one. |
| Phrase.Compile | core/Translator.cpp:466-592 | **Main.** The compiled string and order are those of the pieces of the phrase; for at most 32 parameters the output never exceeds the length of the phrase plus the specifiers not yet used, so the unchecked writes stay inside `strlen(value)+fmt_bytes+1`. It overruns if and only if the reader comes to a backslash in one of the last two places that is followed by none of the four known characters, and so never when every backslash is followed by one of them. |
| PhraseMeaning.TranslationSaysThePhrase | core/Translator.cpp:487-592 | **Main.** Compilation and translation together preserve the meaning of every phrase that names every index and whose literal text asks for no argument. |
| PhraseMeaning.OrderIsPermutation | core/Translator.cpp:509-592 | **Main.** Every place of the argument order is filled if and only if the phrase names every index, and then the order is a permutation. |
| Format.Gnprintf | core/sm_stringutil.cpp:578-765 | **Main.** For every format without float conversions: what is written is as much of the full formatted text as fits before the NUL, the return value is its length, and nothing behind the NUL is changed, so nothing past `maxlen`. |
| FormatMeaning.DirectiveMeans | core/sm_stringutil.cpp:578-765 | **Main.** A directive written from flags, width, precision and conversion stands for a field that shows its argument, then for what follows it with the other arguments: for `%d` and `%i` the signed decimal numeral of the cell; for `%u %b %x %X` the numeral of its 32 bits without a sign, in the base and case of the conversion, without zeros in front; for `%c` the low byte; for `%s` the string cut to the precision. The text is at the end of its field, or to the left at its beginning, the rest being blanks or zeros. |
| Replace.ReplaceAll | core/sm_stringutil.cpp:1158-1175 | **Main.** For every text and buffer: the memory then holds what the loop makes, turn by turn, with every turn given the whole length, and nothing outside that and the old text is changed; the count is the number of turns. When the whole result fits, it is left-to-right non-overlapping replacement, and the count is the number of occurrences. |
| Replace.StaysInside | core/sm_stringutil.cpp:1158-1175 | **Main.** The loop stays inside `maxlength` if and only if the whole result fits or the first replacement is already cut and what is kept behind it holds no further occurrence; a replacement no longer than the search always does. |
| Paging.AnyRunShowsPages | core/MenuManager.cpp:213-431 | **Main.** After any run of Next and Back the items shown are kp to min((k+1)p,N)-1 of the page counted, and each key is offered exactly when that page exists, though no page number is stored. |
| Timers.EveryRunIsGood | core/TimerSys.cpp:245-396 | **Main.** After any run: every timer is in exactly one of the three lists, one-shots are sorted, and every making of a timer has been ended exactly once, but the last if it still waits. |
| Timers.EachDueTimerFiresOnce | core/TimerSys.cpp:245-288 | **Main.** A frame calls each due timer exactly once and no other, unless another timer's callback, of those called in this frame, kills it; one-shots are then ended and free, repeaters ended or due again by the rule; timers that are not due are left alone. |
| TimerMeaning.NewTimerFires | core/TimerSys.cpp:245-335 | **Main.** From the making of a timer on: no frame before its interval is over calls it, and the first frame after that does, once, unless a callback called meanwhile kills it. |
| Timers.FrameIsInOrder | core/TimerSys.cpp:250-266 | **Main.** One-shots are called in the order they are due in, and before the repeaters. |
| Timers.NeverTooOften | core/TimerSys.cpp:133-150 | **Main.** However late or irregular the frames are, n calls of a repeater take at least n-1 intervals. |
| TimerSystems.TimerSystem.RunLoops | core/TimerSys.cpp:268-287 | **Main.** The second loop, whose iterator stands in a list that callbacks shorten, calls the repeaters of the list it began with that still wait. |
| Crc.RegisterIsSerial | core/sm_crc32.cpp:82-95 | **Main.** The register that the table loop computes, byte by byte, is the bit-serial one over the bits of the data, low bit first. |
| Crc.ChangeIsDetected | core/sm_crc32.cpp:82-95 | **Main.** Any change confined to four neighbouring bytes changes the checksum. |
| DataPacks.RoundTrip | core/CDataPack.cpp:50-227 | **Main.** From a new pack through packing, `Reset` and reading: every list comes back, and the position is then the size. |
| SmcTokens.FixupString | core/TextParsers.cpp:205-263 | The in-place rewrite leaves, at the start of the token, exactly the resolved text and a NUL; nothing outside the token and its end is touched. No token gives NULL, and one without a recorded end is left as it is. |
| SmcTokens.ResolveEscapes | core/TextParsers.cpp:226-254 | Compacting in place with a reading and a writing index gives the unescaped text, although what is read has partly been overwritten. |
| SmcRoundTrip.UnescapeUndoesEscape | core/TextParsers.cpp:226-255 | Resolving undoes escaping (`\n \t \r \\ \"`), for every string. |
| SmcParser.StepKeepsSane | core/TextParsers.cpp:379-687 | Every character keeps the staged strings filled from the first slot, oldest lowest, inside what was read; a quote is always being staged, a comment never is. |
| SmcParser.StepKeepsNested | core/TextParsers.cpp:379-687 | While the parse runs, the depth counter is the depth the listener has been told, and never below zero. |
| SmcTrace.CommentEndFindsNothingStaged | core/TextParsers.cpp:473-494 | In every state the loop reaches, a string is not being staged inside a comment, so the assertion at the end of a comment holds. |
| SmcTrace.LoopIsStateAfter | core/TextParsers.cpp:379-687 | The states of that statement are all states: the loop ends in one of them. |
| SmcRoundTrip.QuotedString | core/TextParsers.cpp:441-492 | A quoted, escaped string not ending in a backslash is staged as one token whose text is the string. |
| SmcRoundTrip.ForestParses | core/TextParsers.cpp:379-687 | From any fresh state, reading a printed document delivers what it says and leaves the parser fresh behind it, at the same depth. |
| SmcRoundTrip.RoundTrip | core/TextParsers.cpp:314-758 | Printing a document of sections and pairs and parsing it delivers its preorder between one start and one unhalted end, and no error, if no string ends in a backslash. |
| SmcPairs.BraceAfterPair | core/TextParsers.cpp:583-629 | With a key staged, a closing brace ends the pair and the section if and only if the value is still being read; otherwise the parse fails with the third section error. |
| SmcPairs.PairThenBraceFails | core/TextParsers.cpp:583-590 | So a quoted pair followed by its closing brace on the same line always fails with that error, whatever blanks there are, although the comment there allows it. |
| SmcPairs.UnclosedValueIsCut | core/TextParsers.cpp:205-263 | A value in a quote that begins right behind an unquoted key, and is not closed on its line, is handed out empty: the NUL that ends the key stands on its first character. |
| SmcLayout.LayoutDoesNotMatter | core/TextParsers.cpp:314-758 | Two layouts of the same content are told the same. |
| SmcLayout.LineCommentIsALine | core/TextParsers.cpp:507-530 | Between lines, `;` or `//` with any text up to the end of the line tells of a raw line, and leaves the parser fresh on the next line. |
| SmcLayout.LineCommentParses | core/TextParsers.cpp:384-437 | Wherever it stands, such a comment does what the end of the line alone would do: a string being read is ended, a pair before it is told of. |
| SmcLayout.BlockCommentIsSilent | core/TextParsers.cpp:531-542 | A comment over lines that begins between lines tells of raw lines only, and leaves the parser open behind its end at the same depth. |
| SmcLayout.BlockCommentParses | core/TextParsers.cpp:473-494 | Wherever it stands, it ends the string being read, and a pair before it is told of at its first line end, if it has one. |
| SmcLayout.StarIsShared | core/TextParsers.cpp:473-494 | The star that begins a comment can also end it: three characters are a whole comment. |
| SmcLayout.GapParses | core/TextParsers.cpp:379-687 | Any run of blanks, line ends and comments leaves what is staged as it is, the string being read ended, but for a pair that its first line end tells of. |
| SmcLayout.WordParses | core/TextParsers.cpp:441-687 | A string is read as one token, with quotes or without; one with quotes may stand right behind one without. |
| SmcLayout.EntryParses | core/TextParsers.cpp:384-437 | A key and a value, of either kind and with anything between them, are told of as a pair with both texts whole. |
| SmcLayout.LeadingSlashIsLost | core/TextParsers.cpp:507-543 | A slash that begins no comment does not begin a string either. |
| SmcLayout.StrayParts | core/TextParsers.cpp:415-629 | Which error a brace or the end of a pair in the wrong place is. |
| SmcLayout.StrayStrings | core/TextParsers.cpp:383-682 | Which error a third string on a line is, and a blank behind a value when neither it nor its key has quotes. |
| SmcLayout.Unfinished | core/TextParsers.cpp:728-747 | Which error it is when the input ends inside a section, or with a string that is no pair yet. |
| SmcListener.EveryLineIsTold | core/TextParsers.cpp:384-437 | In a parse that is not stopped, as many raw lines are told of as line ends are read, and line and column are those of the place reached. |
| SmcRoundTripExact.NextMentions | core/TextParsers.cpp:416-434 | A staged key or name is in the next thing the listener is told, whatever follows, or nothing more is told: it cannot get lost silently. |
| SmcStream.StepLifts | core/TextParsers.cpp:379-687 | A step on a text moved to another base, with every cached pointer moved along, is the same step. |
| SmcStream.StepCut | core/TextParsers.cpp:459-470 | A step on what has been read so far is the step on the whole text, unless it has to wait; then repeating it later gives what it would have given at once. |
| SmcStream.LowStringIsLeast | core/TextParsers.cpp:301-312 | The staged string that `lowstring` finds, or the line begin, is the least pointer still needed. |
| SmcStream.MovedLoad | core/TextParsers.cpp:689-720 | Dropping what lies before that pointer and relocating all pointers keeps the parse what it was of the whole text. |
| SmcStream.NextLoad | core/TextParsers.cpp:352-377 | Running the loop on one buffer load brings the parse, seen from the buffer, to where parsing everything read so far in one piece brings it. |
| SmcStream.FailedLoad | core/TextParsers.cpp:749-757 | A failure found in a load is the failure of the whole parse, however much is unread. |
| SmcStream.LastLoad | core/TextParsers.cpp:728-747 | When the input ends, the result is that of the whole text in one piece. |
| SmcReader.SlideLoaded | core/TextParsers.cpp:689-720 | The memmove and relocation in place: where the buffer held what may still be looked at of the text, it still does, and the parse state belongs to it. |
| SmcReader.Load | core/TextParsers.cpp:352-388 | One refill and run in place, with the writes of the tokens handed out: the buffer agrees with the text as far as that may still be looked at, and the state is that of parsing everything read; a failure is that of the whole text. |
| SmcLoads.FateExactly | core/TextParsers.cpp:352-757 | From any place the loads of a filling reader can stand at: they end without an error if and only if one piece does and the rest fits, and then with the same trace. |
| SmcInPlace.StepAgrees | core/TextParsers.cpp:379-687 | A step on a buffer that agrees with the text from the oldest staged string on is the step on the text. |
| SmcInPlace.StepOnward | core/TextParsers.cpp:379-687 | No step goes back before what may still be looked at, and the staged strings stay apart. |
| SmcInPlace.FixupPair | core/TextParsers.cpp:205-263 | Terminating a key and then its value in place leaves each as the listener is told it, a value cut off by its key's NUL included; nothing behind the present character changes. |
| SmcTrace.RunOnIsProper | core/TextParsers.cpp:352-757 | From any point on, whatever later loads and pointers are, the trace stays bracketed and ends once, also with a token overflow. |
| SmcLimits.EmptyLinesFill | core/TextParsers.cpp:689-725 | A name followed by enough empty lines leaves no room in the buffer although the line begin has moved up to its end, for any such name: the read loop ends with an invalid-token error and never tells of the section, while in one piece the same document is parsed without an error. |
| SmcLimits.BlanksFill | core/TextParsers.cpp:722-726 | A buffer full of blanks at the end of the input ends in a token overflow, though nothing is needed beyond it and one piece is parsed without an error. |
| SmcLimits.LongLineIsOverwritten | core/TextParsers.cpp:722-726 | A line longer than the buffer ends in a token overflow at the beginning of the input; behind another line of the same load the next read goes over characters still needed. |
| SmcDocuments.PrintedIsKept | core/TextParsers.cpp:689-725 | A printed document with lines shorter than the buffer always leaves room. |
| Format.AddString | core/sm_stringutil.cpp:187-237 | Characters written plus space left is conserved; the field is the text cut to its precision and padded behind, as far as it fits; nothing behind it is changed. |
| Format.AddUnsigned | core/sm_stringutil.cpp:360-453 | The same for unsigned, binary and hexadecimal conversions, with padding on either side. |
| Format.AddInt | core/sm_stringutil.cpp:455-515 | The same for signed decimal numbers. |
| Format.PaddedExactly | core/sm_stringutil.cpp:392-449 | A number field has the width, or that of a longer number, if and only if the number is not to the left and longer than the width; in that case it fills whatever room there is. |
| Format.LeftWithoutWidthFills | core/sm_stringutil.cpp:490-512 | `%-d` fills the buffer, for every number and every buffer below 2^32. |
| Format.DigitsBackwards | core/sm_stringutil.cpp:368-373 | The backwards digit buffer holds the digits of the number in reverse, in at most 32 places for any base from 2 to 16. |
| Format.DigitsReadBack | core/sm_stringutil.cpp:360-576 | Digits written for a number read back as that number, in every base used. |
| FormatMeaning.DirectiveReadsBack | core/sm_stringutil.cpp:613-672 | A directive reads back as the flags, width, precision and conversion it was written from. |
| FormatMeaning.OtherDirective | core/sm_stringutil.cpp:731-765 | Any other character behind a percent sign stands for itself and takes no argument. |
| FormatMeaning.ConvertedShows | core/sm_stringutil.cpp:674-730 | Every conversion shows its argument in that sense. |
| FormatMeaning.DigitsAreNumeral | core/sm_stringutil.cpp:368-373 | Digits are those of the base in the case asked for, without a zero in front, and of the right value. |
| FormatMeaning.SignedIsNumeral | core/sm_stringutil.cpp:455-486 | A number below zero has a minus sign and then the numeral of its magnitude. |
| FormatMeaning.PaddedInField | core/sm_stringutil.cpp:488-512 | Where the text of a number stands in its field, and what the rest of the field is. |
| FormatMeaning.ZerosBeforeSign | core/sm_stringutil.cpp:488-512 | `%04d` of -5 is `00-5`. |
| Format.FittingParts | core/sm_stringutil.cpp:187-204 | Writing two texts one after the other into limited room is writing their concatenation. |
| PhraseFormat.Browse | core/Translator.cpp:249-326 | The first pass over `#format` accepts exactly the well-formed properties, and counts their entries. |
| PhraseFormat.FillTable | core/Translator.cpp:343-431 | The second pass accepts exactly the properties that number their n entries 1 to n, each once, with specifiers that fit; the table then holds each specifier at its place, and nothing else. |
| PhraseFormat.EveryIndexDeclared | core/Translator.cpp:433-446 | An acceptable property declares every index (pigeonhole over the two passes). |
| Phrase.OverrunsExactly | core/Translator.cpp:507-592 | From any place of any phrase, the reading has no end inside it exactly when such a backslash is reached. |
| Phrase.LastBackslashes | core/Translator.cpp:514-538 | Two phrases that overrun, and one a character longer that does not but loses that character. |
| PhraseMeaning.FormattedSideBySide | core/sm_stringutil.cpp:578-765 | Two formats side by side format as one after the other, the second starting on the arguments the first leaves. |
| PhraseMeaning.FormattedLooksAt | core/sm_stringutil.cpp:578-765 | A format looks at no more arguments than it takes. |
| PhraseMeaning.EachAtMostOnce | core/Translator.cpp:509-575 | No parameter is placed twice, and none that is not declared. |
| PhraseMeaning.Meaning | core/Translator.cpp:939-950 | Running the compiled string on the permuted arguments is substituting each parameter directly by its own argument under its own specifier. |
| PhraseMeaning.Translate | core/Translator.cpp:939-950 | The arguments are permuted and formatted as above, cut to the buffer; a hole in the order is read before the arguments (the source indexes with -1), which is reported here instead. |
| PhraseMeaning.PlainText | core/sm_stringutil.cpp:590-600 | Text without a percent sign stands for itself. |
| PhraseMeaning.StrtolReadsDigits | core/Translator.cpp:519-530 | The index read from the digits of a number is the number. |
| PhraseMeaning.WrittenReadsBack | core/Translator.cpp:509-575 | A phrase written out as text is read back as the same pieces. |
| PhraseText.PropertyReadsBack | core/Translator.cpp:249-326 | A `#format` property written out entry by entry, with anything but an open brace between them, declares exactly those entries. |
| PhraseText.IndexReads | core/Translator.cpp:559-565 | An index may have blanks and zeros in front and anything but digits behind it; only the number counts. |
| PhraseText.BracesRead | core/Translator.cpp:539-587 | Braces with an index in them are that parameter if it is in range and not yet named, and otherwise stand for themselves. |
| PhraseText.NoParameter | core/Translator.cpp:539-587 | Braces that are not closed, or hold anything but ASCII, stand for themselves. |
| PhraseText.BackslashReads | core/Translator.cpp:514-538 | What a backslash makes of the characters behind it, in every case. |
| Crc.TableEntry | core/sm_crc32.cpp:37-80 | Each of the 256 entries is its index after eight turns of the bitwise register. |
| Crc.LookUp | core/sm_crc32.cpp:86-92 | Eight turns of the register are one lookup and a shift, for every word. |
| Crc.Crc32 | core/sm_crc32.cpp:82-95 | The table-driven loop gives the register of section 8 of RFC 1952 started at all ones, without the final complement. |
| Crc.RegisterLinear | core/sm_crc32.cpp:82-95 | The register is linear in start value and data together. |
| Crc.ChecksumAffine | core/sm_crc32.cpp:82-95 | The checksum is affine over bits in the data. |
| Crc.FedItself | core/sm_crc32.cpp:82-95 | Data followed by its own checksum leaves zero. |
| Crc.RegisterInjective | core/sm_crc32.cpp:82-95 | Different starts never meet over the same data. |
| Crc.FourBytesAtOnce | core/sm_crc32.cpp:86-92 | Four bytes taken one by one are one word taken at once. |
| Crc.CheckValue | core/sm_crc32.cpp:82-95 | Over the digits 1 to 9 the register is the complement of 0xCBF43926, the check value of CRC-32. |
| Replace.FindFromIsFirst | core/sm_stringutil.cpp:1213-1240 | The occurrence found is the first. |
| Replace.CutToSize | core/sm_stringutil.cpp:1226-1300 | One replacement is prefix, replacement and rest when that fits; otherwise the length is exactly `maxLen-1`, and the prefix is kept. |
| Replace.CutKeepsTheEnd | core/sm_stringutil.cpp:1226-1263 | A result that is too long is the prefix, as much of the replacement as fits, and the end of the text. |
| Replace.EndIsKept | core/sm_stringutil.cpp:1243-1263 | An example: what is lost stands right behind the replacement. |
| Replace.ReplaceEx | core/sm_stringutil.cpp:1190-1344 | The in-place moves give that text for the first occurrence, touch nothing outside the buffer, and return the place behind the replacement; without an occurrence nothing changes. |
| Replace.SplitParts | core/sm_stringutil.cpp:1158-1175 | The pieces between the occurrences replaced hold none themselves, and joined with the search they are the text. |
| Replace.AllUnfolds | core/sm_stringutil.cpp:1158-1175 | Replacing all is replacing the first and going on behind the replacement. |
| Replace.AllLength | core/sm_stringutil.cpp:1158-1175 | The length of the result is that of the text plus the difference once for each occurrence. |
| Replace.LoopedFits | core/sm_stringutil.cpp:1158-1175 | What the loop makes is the whole result, with as many turns as there are occurrences, whenever that fits. |
| Replace.DoublingOverflows | core/sm_stringutil.cpp:1158-1175 | "aa" with "a" replaced by "bb" in 4 bytes becomes "bbbb" and a NUL: 5 bytes. |
| Replace.LongReplacementIsCut | core/sm_stringutil.cpp:1228-1249 | The example in the source of a cut replacement stays inside its 12 bytes, although the whole result has 15 characters. |
| FastLinks.FastLink.GetFreeIndex | core/sm_fastlink.h:83-95 | A place is found exactly when the list is not full; it is not in use. |
| FastLinks.FastLink.PushBack | core/sm_fastlink.h:56-76 | Fails exactly when the size is the capacity; otherwise appends, links and parts being kept. |
| FastLinks.FastLink.Erase | core/sm_fastlink.h:158-203 | Takes out exactly the object at the place and returns the next one. |
| FastLinks.FastLink.Remove | core/sm_fastlink.h:147-156 | Takes out the first equal object and nothing else. |
| Paging.FirstDisplay | core/MenuManager.cpp:252-281 | The first display is page 0. |
| Paging.NextPage | core/MenuManager.cpp:300-431 | Next leads from page k to page k+1. |
| Paging.PreviousPage | core/MenuManager.cpp:300-431 | Back leads from page k to page k-1, also from page 1, where the search begins at item 0. |
| Paging.NextAndBackAreInverse | core/MenuManager.cpp:300-431 | Where one is offered, the other then leads to the same page again. |
| Paging.NextsReach | core/MenuManager.cpp:300-431 | Every page is reached by that many Nexts. |
| Paging.ItemHasOnePage | core/MenuManager.cpp:300-431 | Every item is on exactly one page. |
| Paging.CollectItems | core/MenuManager.cpp:294-353 | The search loop finds the items of a page in either direction, and whether there is one more. |
| Paging.SearchOther | core/MenuManager.cpp:384-430 | The search on the other side finds whether there is a page there; it never examines item 0 going down. |
| Paging.DrawItems | core/MenuManager.cpp:433-489 | Slot j is given item first+j-1, whichever way the items were found. |
| Paging.DrawControls | core/MenuManager.cpp:491-652 | The padding arithmetic puts Back, Next and Exit on the last three keys of either style, and nothing between. |
| Paging.LastKeyExactly | core/MenuManager.cpp:629-652 | Without an exit button the last key does nothing, whatever was drawn before, if and only if the style has fewer than ten keys; with ten, the exit of the menu before stays on it. |
| Paging.RenderMenu | core/MenuManager.cpp:213-658 | The whole of a page: the paging state, the slot table and the first item are those of the page function used above. |
| Paging.PressMove | core/MenuStyle_Base.cpp:268-396 | A key drawn as Next or Back on page k shows page k+1 or k-1, with its slots. |
| Paging.Panel.DrawItem | core/MenuStyle_Radio.cpp:343-396 | An item gets the next key if its flags allow it and there is one left. |
| MenuInvariants.DoMenuKeeps | core/MenuStyle_Base.cpp:457-555 | Displaying a menu, refused, interrupted or drawn, keeps every start of a handler matched by an end or by a menu on a screen. |
| MenuInvariants.PressKeeps | core/MenuStyle_Base.cpp:268-396 | So does every key, in the order the callbacks come in: an item, another page, a way out, or a key the page does not have, which cancels and then ends as selected; on a panel, any key. |
| MenuInvariants.ProcessWatchKeeps | core/MenuStyle_Base.cpp:208-266 | So does closing menus whose time is over. |
| MenuInvariants.DisconnectKeeps | core/MenuStyle_Base.cpp:190-205 | So does a client that disconnects. |
| MenuInvariants.WatchHasRoom | core/MenuStyle_Base.cpp:58-72 | A client that is not watched can always be added: the list of 256 never overflows. |
| MenuInvariants.StepKeeps | core/MenuStyle_Base.cpp:74-591 | Every operation of players, menus and votes keeps the invariant. |
| MenuInvariants.VoteIsOpen | core/MenuVoting.cpp:132-237 | A started vote is on somebody's screen. |
| MenuInvariants.StartVoteKeeps | core/MenuVoting.cpp:132-205 | Starting a vote keeps the invariant, also when nobody can be asked and it is over at once. |
| MenuInvariants.CancelVotingEnds | core/MenuVoting.cpp:395-403 | Cancelling a vote ends it. |
| MenuInvariants.ForgetVoteKeeps | core/MenuVoting.cpp:109-125 | Taking back the vote of a client that leaves keeps the counts, so the assertions there hold. |
| MenuTold.OtherKeyTells | core/MenuStyle_Base.cpp:268-396 | Every other key says one thing to the handler: a display of another page, or why the menu is cancelled; then how it ended. Nobody's vote changes. |
| MenuTold.PanelKeyTells | core/MenuStyle_Base.cpp:293-295 | On a panel the number of the key is the item, and there is no end. |
| MenuTold.KeysOfPage | core/MenuManager.cpp:433-652 | On page k of size p, key j is item kp+j-1 while there is one, and the keys behind turn the page, leave, or close the menu. |
| MenuTold.OnEndTells | core/MenuVoting.cpp:227-237 | The end of a menu is told to a plugin's handler; of a vote nothing is told until it ends for the last client, and then its results, or why there are none, and its end. |
| MenuTold.PanelShown | core/MenuStyle_Base.cpp:398-455 | A panel interrupts what was there, and nobody is told of it. |
| MenuTold.CancelTells | core/MenuStyle_Base.cpp:74-112 | A cancelled menu's handler is told the reason and, unless it is a panel, the end. |
| MenuTold.TimeIsUp | core/MenuStyle_Base.cpp:208-266 | The pass over the watched clients closes exactly the menus whose time is over, each cancelled once as timed out. |
| MenuTold.CancelMenuCloses | core/MenuStyle_Base.cpp:114-132 | Cancelling a menu closes it wherever it is open, each cancelled once as interrupted, and touches no other. |
| MenuTold.DisconnectCloses | core/MenuStyle_Base.cpp:190-205 | A client that leaves loses its menu, cancelled once as disconnected, and nobody else does. |
| MenuTold.MessageTakes | core/MenuStyle_Radio.cpp:153-171 | Another program's menu takes the screens of those it is shown to, each interrupted once. |
| MenuTold.VoteAsks | core/MenuVoting.cpp:148-154 | Asked in a vote are exactly the clients the menu could be shown to. |
| MenuTold.VoteBegins | core/MenuVoting.cpp:132-225 | A vote tells its handler of the menu, then shows it, then says that it has started, and is over at once as one without votes if nobody has it open; who was asked is recorded as not having voted, everybody else as not asked. |
| MenuTold.ForgetTakesBack | core/MenuVoting.cpp:109-125 | A client that leaves takes its choice back: it counts as asked, and its item has one vote less. |
| MenuTold.CancelVotingTells | core/MenuVoting.cpp:395-403 | A cancelled vote ends with nothing reported but that it was cancelled, once. |
| VoteTally.RankedIsSorted | core/MenuVoting.cpp:239-243 | The reported list is the counted one, most votes first. |
| VoteTally.TallyHas | core/MenuVoting.cpp:273-290 | The counted list has every item with votes, once. |
| VoteTally.TotalIsVoters | core/MenuVoting.cpp:273-290 | The total is the number of clients that chose. |
| MenuStyle.VoteMenuHandler.EndVoting | core/MenuVoting.cpp:245-330 | The method changes the fields as the transition the above is proved of. |
| MenuStyle.VoteMenuHandler.BuildItems | core/MenuVoting.cpp:273-290 | The counting loop gives the tally and its total. |
| MenuStyle.VoteMenuHandler.BuildClients | core/MenuVoting.cpp:302-312 | The loop over the clients gives the list of those asked. |
| MenuStyle.VoteMenuHandler.OnMenuSelect | core/MenuVoting.cpp:363-374 | A choice is counted and recorded together. |
| MenuStyle.VoteMenuHandler.OnClientDisconnected | core/MenuVoting.cpp:109-125 | A choice is taken back in both places. |
| MenuStyle.BaseMenuStyle.DoClientMenu | core/MenuStyle_Base.cpp:457-555 | The method is the transition, with `bAutoIgnore` set and restored on the way. |
| MenuStyle.BaseMenuStyle.ClientPressedKey | core/MenuStyle_Base.cpp:268-396 | The method is the transition, for what the slot of the key says it stands for. |
| MenuStyle.BaseMenuStyle.CancelMenu | core/MenuStyle_Base.cpp:114-132 | The loop closes the menu wherever it is open. |
| MenuStyle.BaseMenuStyle.ProcessWatchList | core/MenuStyle_Base.cpp:208-266 | The loop over a copy of the watch list is the transition; closing menus meanwhile does not disturb it. |
| MenuStyle.BaseMenuStyle.OnUserMessageSent | core/MenuStyle_Radio.cpp:153-171 | A foreign menu takes the screen of each client: the transition for the list of them. |
| MenuStyle.BaseMenuStyle.StartVote | core/MenuVoting.cpp:132-205 | The method is the transition, and succeeds exactly when no vote runs. |
| DbInvariants.StepKeeps | core/Database.cpp:496-704 | Every atomic section of either thread keeps: each operation in exactly one place; as many threads as operations to run; a blocked or unloaded owner has nothing queued. |
| DbInvariants.TakeKeeps | core/Database.cpp:581-609 | A worker thread always finds an operation in the queue it looks into. |
| DbInvariants.PopFramePlaces | core/Database.cpp:611-626 | The frame never pops an empty queue, though it tests it without the lock. |
| DbInvariants.FirstInFirstOut | core/sm_simple_prioqueue.h:43-65 | Operations of one priority are run in the order they came. |
| DbOrder.SubmitExactly | core/Database.cpp:509-553 | A new operation is queued with its priority, or, exactly if its owner is refused or no worker can be made, run at once with its think part next; nothing else moves. |
| DbOrder.ThinkQueue | core/Database.cpp:596-704 | The think queue is one: the worker appends, a frame takes the first, a purge takes what it concerns and leaves the others, both in order. |
| DbOrder.RefusalStep | core/Database.cpp:633-704 | A plugin is refused from the end of its unloading on, and an identity is blocked from the beginning of its purge to the end of any identity's. |
| DbDrops.LeftExactly | core/Database.cpp:633-668 | Over any run inside a drop, what is queued for the owner at its end is exactly what was queued or accepted and not swept up since. |
| DbDrops.UndisturbedLeavesNothing | core/Database.cpp:633-668 | Without another identity dropped inside, no operation of the owner is accepted until the purge ends. |
| DbDrops.ActiveStep | core/Database.cpp:496-704 | An operation leaves the queues only for the list of a purge that concerns it, as long as no frame is on. |
| DbInvariants.UnloadedForGood | core/Database.cpp:670-704 | What has been unloaded stays refused. |
| DbInvariants.NothingOfTheDriver | core/Database.cpp:318-371 | Once the worker has been joined for a driver, none of its operations is queued. |
| DbInvariants.StoppingEnds | core/Database.cpp:496-507 | Stopping the worker ends: while it is not quiet it can make a step, and each brings it nearer. |
| DbInvariants.NestedDropLiftsBlock | core/Database.cpp:633-668 | A run in which an identity is dropped inside the purge of another: the inner one lifts the block, and the outer purge ends with operations of its identity queued. |
| DbManager.DBManager.AddToThreadQueue | core/Database.cpp:509-553 | The fields change as in the step: refused for a blocked owner, a worker made for the first, queued by priority. |
| DbManager.DBManager.TakeOp | core/Database.cpp:581-595 | The section under the first lock. |
| DbManager.DBManager.DeliverOp | core/Database.cpp:596-609 | The section under the second lock. |
| DbManager.DBManager.FramePop | core/Database.cpp:611-626 | The section of the frame, on the linked queue. |
| DbManager.DBManager.TakeOut | core/Database.cpp:670-704 | The purge of the think queue leaves the others in order and lists what it took, in order. |
| DbManager.Sweep | core/Database.cpp:318-371 | Erasing from the linked queue while going through it splits it exactly by whom the purge concerns. |
| Queues.Queue.Push | core/sm_queue.h:117-139 | The ring with its sentinel and its freed nodes is kept; the sequence has one more at the end. |
| Queues.Queue.Erase | core/sm_queue.h:265-281 | One is taken out, the node is kept for later, and the iterator goes on behind it. |
| Queues.Queue.Pop | core/sm_queue.h:326-330 | The first is taken out. |
| AdminArena.ChainErases | core/AdminCache.cpp:865-883 | Unlinking a record from a doubly linked list in the arena leaves the list without it, both ways. |
| AdminCaches.AdminCache.CreateMem | core/sm_memtable.cpp:49-67 | A new part of the arena lies behind the old ones; the doubling ends with room for it. |
| AdminCaches.AdminCache.CreateAdmin | core/AdminCache.cpp:441-498 | A new admin, from the free list or the arena, is appended to the live list without flags or groups; no other record, table or name changes. |
| AdminCaches.AdminCache.InvalidateAdmin | core/AdminCache.cpp:851-907 | Succeeds exactly for a live admin, which moves to the head of the free list; no other record changes. |
| AdminCaches.AdminCache.InvalidateAllAdmins | core/AdminCache.cpp:1062-1090 | All admins are freed; every group is what it was but for its links, and names stay. |
| AdminCaches.AdminCache.AddGroup | core/AdminCache.cpp:500-547 | Refused exactly for a name in use; otherwise the group is appended, found by its name, and nothing else changes. |
| AdminCaches.AdminCache.FindGroupByName | core/AdminCache.cpp:549-567 | Finds the live group of the name, and nothing only if there is none. |
| AdminCaches.AdminCache.InvalidateGroupCache | core/AdminCache.cpp:999-1032 | Everything is forgotten, admins first, and the arena is empty. |
| AdminCaches.AdminCache.AdminInheritGroup | core/AdminCache.cpp:1312-1383 | Succeeds exactly for a live admin, a live group, and no membership yet; the group is appended, flags joined, immunity raised, the table grown when full; nobody else's table changes. |
| AdminCaches.JoinFlags | core/AdminCache.cpp:981-987 | The loop gives the flags joined with those of the groups. |
| AdminState.JoinedHas | core/AdminCache.cpp:981-987 | Of any flags asked for, the joined ones have some exactly if the admin's own have, or those of one of its groups. |
| AdminCaches.ShiftDown | core/AdminCache.cpp:973-978 | The loop closes the gap in the table. |
| TimerLists.CalcNextThink | core/TimerSys.cpp:140-150 | At or after the due time the next one is between `max(last+interval, U-0.1)` and `U+interval`, and exactly `last+interval` if the frame is at most 0.1 late. |
| Timers.FrameTurn | core/TimerSys.cpp:245-288 | Whatever the callbacks kill: nobody is called twice or early, and a timer is ended once if it leaves its list and not otherwise. |
| Timers.RepeaterStaysUnlessStopped | core/TimerSys.cpp:268-287 | A due repeater that no other callback of the frame kills stays if and only if its own callback, called in this frame, neither stops nor kills it. |
| Timers.CreateKeeps | core/TimerSys.cpp:290-335 | The insertion keeps the one-shots sorted, also where it tests the last timer first. |
| TimerMeaning.NewTimerWaits | core/TimerSys.cpp:290-335 | A new timer waits among its kind with the given interval, due when it is over; no other timer is touched. |
| TimerMeaning.NoFrameBefore | core/TimerSys.cpp:245-288 | However many frames there are before a timer is due, none calls it, and it waits on as it was unless one of their callbacks kills it. |
| TimerMeaning.FireOnceMeans | core/TimerSys.cpp:337-370 | Firing once calls the timer once; a repeater stays exactly if its callback neither stops nor kills it, due an interval from now if that is asked for and when it was otherwise; else it is ended. |
| TimerMeaning.KillMeans | core/TimerSys.cpp:372-396 | Killing ends a waiting timer at once, marks one that is being called, and leaves a free one alone. |
| TimerMeaning.PlaceExactly | core/TimerSys.cpp:311-330 | Where a new one-shot goes among those due at the same time. |
| TimerMeaning.NewerGoesFirst | core/TimerSys.cpp:311-330 | If any timer is due later, a new one goes before those made earlier that are due at the same time. |
| Timers.KillKeeps | core/TimerSys.cpp:372-396 | Killing, also from inside a callback and of the timer being called, keeps every timer in exactly one list. |
| Timers.FireOnceKeeps | core/TimerSys.cpp:337-370 | So does firing once; on a free timer or one being called it does nothing. |
| Timers.StaleKill | core/TimerSys.cpp:372-383 | A kill through a pointer to a freed timer moves nothing and calls nobody. |
| Timers.FramesFire | core/TimerSys.cpp:268-287 | Over any frames, a repeater that none of the callbacks called in them stops or kills is called as often as its due times say. |
| TimerSystems.OnlyWaiting | core/TimerSys.cpp:268-287 | Going through the repeaters as they were listed, and skipping those killed since, is going through the list as it is now. |
| TimerSystems.TimerSystem.CreateTimer | core/TimerSys.cpp:290-335 | The method, reusing a freed record when there is one, is the transition. |
| TimerSystems.TimerSystem.KillTimer | core/TimerSys.cpp:372-396 | The method is the transition. |
| TimerSystems.TimerSystem.FireTimerOnce | core/TimerSys.cpp:337-370 | The method is the transition. |
| TimerSystems.TimerSystem.RunSingles | core/TimerSys.cpp:251-266 | The first loop fires one-shots until the first is not due. |
| TimerSystems.TimerSystem.Frame | core/TimerSys.cpp:245-288 | The method is the transition the frame statements are proved of. |
| DataPacks.DataPack.CheckSize | core/CDataPack.cpp:56-70 | Doubling stops at the first capacity that is large enough, and growth keeps every byte. |
| DataPacks.Doubled | core/CDataPack.cpp:56-70 | The new capacity has room for what is needed, and is less than twice that unless it was there before. |
| DataPacks.DataPack.PackCell | core/CDataPack.cpp:96-107 | Four bytes behind their length, at any position; no other byte changes. |
| DataPacks.DataPack.PackFloat | core/CDataPack.cpp:109-120 | The same for a float's 32 bits. |
| DataPacks.DataPack.PackString | core/CDataPack.cpp:122-138 | The length, the characters and a NUL; no other byte changes. |
| DataPacks.DataPack.PackBlock | core/CDataPack.cpp:77-94 | A block of memory behind its length, and where it begins. |
| DataPacks.DataPack.SetPosition | core/CDataPack.cpp:150-159 | Positions below the size are taken; in an empty pack the test wraps around and any position is. |
| DataPacks.DataPack.ReadCell | core/CDataPack.cpp:161-177 | Zero and no step when there is no length of four. |
| DataPacks.DataPack.ReadString | core/CDataPack.cpp:202-227 | The string if its length is the one stored; otherwise nothing, but the position is behind the length. |
| DataPacks.DataPack.ReadMemory | core/CDataPack.cpp:234-259 | The block, or nothing with the position behind the length. |
| DataPacks.ReadsBack | core/CDataPack.cpp:96-227 | Whatever list of cells, floats, NUL-free strings and blocks lies packed at a position is returned by the same kinds of reads, which end where it ends. |
| DataPacks.LowestFirst | core/CDataPack.cpp:100-104 | The bytes of a word, lowest first. |
| DataPacks.CellReadsAnyFour | core/CDataPack.cpp:161-200 | A read as a cell or float takes any item whose length is four, and ends where it ends if and only if it is not a string. |
| SmcReader.Slide | core/TextParsers.cpp:689-720 | The kept characters move to the front of the buffer, and every cached pointer by the same distance. |
| SmcReader.RunLoaded | core/TextParsers.cpp:379-687 | The character loop over the loaded part of the buffer, which it writes to, does what the loop of the model does on the characters of the text. |
| SmcRoundTripExact.ForestLost | core/TextParsers.cpp:446-471 | Whichever string of a document ends in a backslash, and wherever it is, the listener is not told the document. |
| Format.AddConverted | core/sm_stringutil.cpp:674-730 | Each conversion writes what it stands for, as far as it fits. |
| Format.PutRound | core/sm_stringutil.cpp:590-765 | One round of the formatter writes a character or a conversion and leaves the rest of the format and of the arguments. |
| PhraseFormat.IndexEnds | core/Translator.cpp:355-385 | At the colon an index is taken if and only if it is in range and free; otherwise the property is not acceptable. |
| PhraseFormat.SpecEnds | core/Translator.cpp:390-411 | At the brace the specifier goes to its place in the table. |
| Phrase.FindParameter | core/Translator.cpp:539-587 | The braces at a place are a parameter if and only if they hold an index of the phrase that is not used yet; otherwise they are copied. |
| Phrase.PutEscape | core/Translator.cpp:514-538 | What follows a backslash, with the character that is skipped in the unknown case, and the overrun at the end of the phrase. |
| Phrase.PutSlot | core/Translator.cpp:570-577 | The specifier is copied within the output, its index put into the order and marked as used. |
| Replace.Place | core/sm_stringutil.cpp:1283-1334 | The moves of one replacement, whichever comes first, give the text up to it, the replacement, and the part that is kept. |
| Replace.PutClipped | core/sm_stringutil.cpp:1235-1249 | A replacement that reaches the end of the buffer is cut to it. |
| Replace.PutWhole | core/sm_stringutil.cpp:1260-1293 | A replacement that fits keeps the last characters behind it that fit. |
| Paging.FindStart | core/MenuManager.cpp:252-281 | Where the search starts, and its direction, are those of the page function. |
| Paging.FindItems | core/MenuManager.cpp:296-431 | The items found and the two places kept are those of the page. |
| Paging.DrawPads | core/MenuManager.cpp:552-566 | Padding uses up keys that select nothing. |
| Paging.DrawMoves | core/MenuManager.cpp:576-627 | Back and Next, or what stands for them, get the keys before the last. |
| MenuInvariants.EndVotingKeeps | core/MenuVoting.cpp:245-330 | The end of a vote matches its start and leaves none running. |
| MenuStyle.BaseMenuStyle.DoClientPanel | core/MenuStyle_Base.cpp:398-455 | The method is the transition for panels without a menu. |
| MenuStyle.BaseMenuStyle.RedoClientMenu | core/MenuStyle_Base.cpp:557-591 | Drawing another page keeps the menu open, or takes the client off the watch list. |
| MenuStyle.BaseMenuStyle.OnClientDisconnected | core/MenuStyle_Base.cpp:190-205 | The method is the transition of a client that leaves. |
| MenuStyle.BaseMenuStyle.CancelVoting | core/MenuVoting.cpp:395-403 | The method is the transition. |
| MenuStyle.VoteMenuHandler.InitializeVoting | core/MenuVoting.cpp:161-205 | The method sets up the counts and choices from which the invariant starts. |
| MenuStyle.VoteMenuHandler.StartVoting | core/MenuVoting.cpp:207-225 | The method is the transition, ending the vote at once when nobody has it open. |
| MenuStyle.VoteMenuHandler.DecrementPlayerCount | core/MenuVoting.cpp:227-237 | The method ends the vote with the last client, if it had started. |
| DbInvariants.SubmitInline | core/smn_database.cpp:731-739 | An operation that is refused is run, thought about and destroyed at once, and is in no queue. |
| DbInvariants.SubmitKeeps | core/Database.cpp:509-553 | Submitting keeps the invariant in every case: refused, first, or queued behind others. |
| DbManager.DBManager.MakeWorkerThread | core/Database.cpp:549-550 | The section behind the push: one thread more. |
| DbManager.DBManager.FrameTest | core/Database.cpp:611-617 | The test without the lock, as a section of its own. |
| DbManager.DBManager.BeginKill | core/Database.cpp:633-638 | A purge begins: the block is set for an identity, and the worker is being stopped. |
| Queues.Queue.First | core/sm_queue.h:319-324 | The object behind the sentinel is the first of the sequence. |
| AdminCaches.AdminCache.TakeFromAll | core/AdminCache.cpp:960-996 | The walk along the live list takes the group from every admin that has it, and changes no group. |
| AdminCaches.AdminCache.GrowTable | core/AdminCache.cpp:1340-1364 | A larger table, in a new part of the arena, holds what the old one held. |
| AdminState.InvalidateAdminKeeps | core/AdminCache.cpp:851-907 | Moving a record from a live to a free list keeps everything the cache holds at all times. |
| AdminState.AddGroupKeeps | core/AdminCache.cpp:500-547 | So does a new group with its name. |
| AdminState.DroppedKeeps | core/AdminCache.cpp:910-958 | Taking a group out keeps it but for the tables that still name the group. |
| AdminCaches.RemovalKeeps | core/AdminCache.cpp:969-993 | Taking its entry out of a table brings that table back in order. |
| TimerSystems.TimerSystem.OnTimer | core/TimerSys.cpp:256-257 | While a callback runs the timer is marked, and what it kills is killed. |
| TimerSystems.LoopGoesOn | core/TimerSys.cpp:268-287 | The iterator, behind the timer just called, stands before those of the original list that still wait. |
| TimerSystems.TimerSystem.FindPlace | core/TimerSys.cpp:311-330 | The insertion place, with the last timer tested first. |

## Left out

- SmcReader.ParseStream: when a reader delivers while characters still needed would be overwritten, the outcome is `Overwritten`; what the real buffer then holds is not modelled, only that the trace stays well formed. The NUL that is put behind a raw line and taken back again is not modelled either.
- SmcTokens.FixupString: the text of a token without a recorded end (one touching a brace) goes on past its characters; it is `Unterminated` here. Escapes in such a token are not resolved in the source in any defined way.
- SMC parser: byte order marks, NUL and non-ASCII bytes, read errors, the text handed to raw-line listeners, and the INI parser.
- Format.Gnprintf: float conversions (`%f`), and widths or precisions large enough to overflow an `int`.
- PhraseFormat.ReadFormat: indices with so many digits that `strtol` saturates; warnings are not modelled.
- Phrase.Compile: phrases longer than an `int`, languages, phrase files and their lookup (`GetTranslation`).
- PhraseMeaning.Translate: what is read at index -1 when a phrase does not name every index.
- Replace.ReplaceAll: empty searches. The memory is taken to hold all that is written; whether that is inside `maxlength` is for `Replace.StaysInside`.
- Paging.RenderMenu: menus without pagination, handlers that change draw styles, items that are not drawable, a first display at an item other than 0.
- Paging.PressMove: the tenth key of a page without an exit button, whose slot is left over from before.
- MenuStyle.BaseMenuStyle.ClientPressedKey: handlers that call back into the menu system while they are being called; `OnMenuSelect2`; sounds. One style, instead of two sharing the vote.
- MenuStyle.BaseMenuStyle.StartVote: the delay between votes and its settings.
- VoteTally.EndReports: which order `qsort` gives items with equally many votes.
- DbManager.DBManager.AddToThreadQueue: the three queues of operations are sequences; the think queue is the linked one. What the worker itself consists of is not part of this model: stopping it is taken to run everything queued.
- Queues.Queue.Push: `clear`, assignment and copying of queues.
- AdminCaches.AdminCache.CreateAdmin: authentication identities, the string table, listeners, and several identities for one admin.
- AdminCaches.AdminCache.InvalidateGroup: immunity between groups and command overrides of groups; ids that point into the middle of a record.
- AdminCaches.AdminCache.AdminInheritGroup: the flag and immunity setters, `CanAdminTarget`, and everything that only reads.
- Timers.EachDueTimerFiresOnce: callbacks that create or fire timers.
- TimerSystems.TimerSystem.Frame: map-change timers, the map timer, the thinning of frames to one in 0.1 seconds, and rounding.
- DataPacks.DataPack.PackCell: packing again after `Reset` without `ResetSize` lets the size grow past what was packed; sizes past 32 bits.
- DataPacks.DataPack.ReadString: a string without a NUL before the end of the buffer, which the program reads past.
- Engine and SourceHook calls, sockets, files, logging, handles, plugin natives, `CellArray`, console variables, game configurations and events.
