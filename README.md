# go-my-redis: command interpreter, terminal line editor, connection history, static files

A Dafny model of the logic core of go-my-redis, a web client for Redis.

- **Command interpreter** (`RedisService.ExecuteCommand`). A typed command line is split on white space. The first field is lower-cased and becomes the command name. The other fields are merged into parameters where a quote opened in one field is closed in a later one. The parameters are checked against the command's arity and integer rules. The result is either one store call (`StoreCall`, naming the operation and its already-coerced arguments) or one of the source's fixed error messages.
- **Terminal line editor** (the `onData` handler, `compositionend` and `executeCommand` of `createTerminalService`). A class holds the line being edited, the cursor, the command history and the history index. It has one method per key.
- **Connection history** (`connectionHistory`). A pure list transformation puts the new record first, drops other records for the same host and port, and keeps at most ten. A class stands in for the storage slot.
- **Static files** (`GetStaticHandler`). The request path is rewritten, the handler falls back to `index.html`, and the Content-Type follows the file extension.

Modules:

- `Wrappers` holds `Option` and `Result`.
- `Ascii` holds lower-casing.
- `GoStrings` holds `strings.Fields` and `strings.Join`.
- `GoStrconv` holds `strconv.ParseInt(s, 10, 64)`, with `FormatInt` as its inverse.
- `RedisCommand`, `TerminalEditor`, `ConnectionHistory` and `StaticHandler` each model one source file.

The quote-merging loop has two definitions. `Step`/`Run` follow the loop's own variables. `Grouped` is a top-down reference: an unquoted field stands alone, and an opening field takes in every field up to the first one that ends with the same quote. `MergeQuotesIsGrouped` proves the two agree on every input. The method `ExecuteCommand` runs the source's loop, and its loop invariant ties it to `Run`.

The model keeps the source's behaviour where it surprises:

- A one-field quoted word such as `"abc"` is reported as an unclosed quote. The closing test only ever looks at later fields.
- Enter on the line `clear` adds it to the history and then empties the history at once. This happens because the synchronous part of `executeCommand` runs inside the key handler, before the line is reset.
- The request path `/` is rewritten to `/index.html` with its leading slash kept. An `fs.FS` cannot open such a name, so the page is found through the `index.html` fallback (`RootServedByFallback`).

Error replies of the interpreter, as the code writes them:

- An unknown command name fails with `unsupported command: <name>`.
- A line that holds only white space fails with `empty command`.
- `lpush` and `rpush` have separate messages: `lpush requires at least 2 arguments` and `rpush requires at least 2 arguments`.
- A quote that is opened and never closed fails with `unclosed quotes`.

## Model

| member | source | states |
|---|---|---|
| `GoStrings.IsSpace` | server/internal/service/redis.go:18 | no printable ASCII character (quotes included) and nothing above U+3000 counts as white space |
| `GoStrings.Fields` | server/internal/service/redis.go:18-21 | every field is non-empty and free of white space; the line has no fields exactly when it is all white space |
| `GoStrings.FieldsOfJoin` | server/internal/service/redis.go:18 | splitting a single-space join of words gives back exactly those words |
| `Ascii.ToLower` | server/internal/service/redis.go:23 | same length; no upper-case ASCII letter is left; each character is kept or is the lower-case form of an upper-case letter |
| `Ascii.ToLowerMatchesName` | server/internal/service/redis.go:23 | the lowered text equals a lower-case name exactly when it has the name's length and each character is the name's letter or its capital |
| `GoStrconv.ParseInt64` | server/internal/service/redis.go:94-101 | only an optional `+`/`-` followed by digits is accepted, and the sign decides the sign of the value |
| `GoStrconv.ParseFormatRoundTrip` | server/internal/service/redis.go:94 | parsing the decimal spelling of any 64-bit value gives that value |
| `GoStrconv.ParsePlusSign` | server/internal/service/redis.go:94 | a leading `+` is accepted and changes nothing |
| `GoStrconv.ParseRejectsOutOfRange` | server/internal/service/redis.go:94-101 | digit strings above the 64-bit range are rejected with either sign |
| `GoStrconv.ParseRejectsEmpty` | server/internal/service/redis.go:94-101 | the empty string and a lone sign are rejected |
| `RedisCommand.Step` | server/internal/service/redis.go:33-50 | one field adds at most one parameter, and none while a quote stays open |
| `RedisCommand.Run` | server/internal/service/redis.go:32-51 | the loop over n fields adds at most n parameters |
| `RedisCommand.RunKeepsProcessed` | server/internal/service/redis.go:32-51 | the loop only appends: parameters already produced are never rewritten |
| `RedisCommand.Finish` | server/internal/service/redis.go:53-55 | the loop's outcome fails exactly when a quote is still open, and then with `unclosed quotes`; otherwise it is the processed parameters |
| `RedisCommand.MergeQuotes` | server/internal/service/redis.go:27-55 | the only failure is `unclosed quotes`; merging never gives more parameters than raw fields |
| `RedisCommand.RunInQuotes` | server/internal/service/redis.go:41-49 | inside a quote, fields are appended with one space each until the first field ending with that quote; then the quoted parameter is emitted without its closing quote |
| `RedisCommand.MergeQuotesIsGrouped` | server/internal/service/redis.go:27-55 | the merging loop and the top-down grouping give the same parameters or the same `unclosed quotes` error on every input |
| `RedisCommand.UnquotedFieldsPassThrough` | server/internal/service/redis.go:38-39 | fields that open no quote come out unchanged and in order |
| `RedisCommand.QuotedSpanMerged` | server/internal/service/redis.go:34-47 | an opening field, the non-closing fields after it and the first closing field become one parameter, joined by single spaces, with both quotes removed; what follows is merged independently |
| `RedisCommand.QuoteOpenedByLastFieldIsUnclosed` | server/internal/service/redis.go:32-55 | a quote opened by the last field is always unclosed, even when that field ends with the quote |
| `RedisCommand.SingleQuotedWordIsUnclosed` | server/internal/service/redis.go:53-55 | the one-field word `"abc"` yields `unclosed quotes` |
| `RedisCommand.ValidatePush` | server/internal/service/redis.go:59-78 | `lpush`/`rpush` succeed exactly with at least 2 parameters, the key being the first and the values the rest in order; otherwise the command's own message |
| `RedisCommand.ValidatePop` | server/internal/service/redis.go:79-88 | `lpop`/`rpop` succeed exactly with one parameter, the key; otherwise the command's own message |
| `RedisCommand.ValidateRange` | server/internal/service/redis.go:89-102 | `lrange` succeeds exactly with 3 parameters whose second and third parse as int64, which become start and stop; wrong count, then a bad start, then a bad stop each get their own message |
| `RedisCommand.Validate` | server/internal/service/redis.go:58-105 | a store call is made only for a supported name and is the call that name selects; any other name fails with `unsupported command: <name>` |
| `RedisCommand.Dispatch` | server/internal/service/redis.go:16-105 | `empty command` exactly for an all-white-space line; an open quote gives `unclosed quotes` before any command check; a store call always matches the lower-cased first field |
| `RedisCommand.DispatchOfFields` | server/internal/service/redis.go:18-58 | a line with fields is merged after its first field, and the merged parameters are checked under the lowered name |
| `RedisCommand.DispatchKeepsParameters` | server/internal/service/redis.go:58-102 | an accepted push or pop carries the merged parameters unchanged; an accepted `lrange` has the first as key and the parsed second and third as start and stop |
| `RedisCommand.CommandNameIsCaseInsensitive` | server/internal/service/redis.go:23-24 | two lines whose names lower-case alike and whose parameters are equal give the same outcome |
| `RedisCommand.DispatchQuotedSingleWord` | server/internal/service/redis.go:32-55 | `lpush k "abc"` is rejected as unclosed and makes no store call |
| `RedisCommand.DispatchQuotedPush` | server/internal/service/redis.go:23-68 | `LPUSH K "a b"` pushes `a b` onto `K`: the name is lower-cased, the parameters are not |
| `RedisCommand.DispatchRange` | server/internal/service/redis.go:89-102 | `lrange list 0 -1` asks for the range 0 to -1 |
| `RedisCommand.ExecuteCommand` | server/internal/service/redis.go:16-105 | the source's loop, with its own variables, computes exactly `Dispatch` |
| `TerminalEditor.TrimStart` | web/src/services/terminal.ts:137 | only leading white space is removed, and what is left does not start with white space |
| `TerminalEditor.TrimEnd` | web/src/services/terminal.ts:137 | only trailing white space is removed, and what is left does not end with white space |
| `TerminalEditor.TrimEmptyIffBlank` | web/src/services/terminal.ts:137 | trimming leaves nothing exactly when the line holds only white space |
| `TerminalEditor.ClearCommandSpellings` | web/src/services/terminal.ts:225 | the line is the clear command exactly when it is `clear` with any letters capitalised |
| `TerminalEditor.Splice` | web/src/services/terminal.ts:196-206 | inserted text sits at the cursor; the text before and after it is unchanged |
| `TerminalEditor.RemoveAt` | web/src/services/terminal.ts:146-162 | one character is removed; the text before and after it is unchanged |
| `TerminalEditor.RemoveUndoesInsert` | web/src/services/terminal.ts:146-206 | removing a character just typed at a position gives back the original line |
| `TerminalEditor.Classify` | web/src/services/terminal.ts:134-194 | Enter, Backspace, Delete, the arrows and plain text are told apart by exactly the source's tests, in its order |
| `TerminalEditor.LineEditor.constructor` | web/src/services/terminal.ts:28-32 | empty line, cursor 0, empty history, history index -1 |
| `TerminalEditor.LineEditor.InsertText` | web/src/services/terminal.ts:194-206 | typed or pasted text goes in at the cursor, and the cursor moves forward by its length |
| `TerminalEditor.LineEditor.Backspace` | web/src/services/terminal.ts:146-154 | with the cursor past 0, the character before it goes and the cursor steps back; at 0 nothing changes |
| `TerminalEditor.LineEditor.Delete` | web/src/services/terminal.ts:155-162 | before the end, the character at the cursor goes and the cursor stays; at the end nothing changes |
| `TerminalEditor.LineEditor.ArrowUp` | web/src/services/terminal.ts:164-170 | only with index > 0, the index steps back, that entry is loaded and the cursor goes to its end |
| `TerminalEditor.LineEditor.ArrowDown` | web/src/services/terminal.ts:171-182 | while index < length - 1, it steps forward and loads the entry; otherwise index = length, the line is empty and the cursor 0 |
| `TerminalEditor.LineEditor.ArrowLeft` | web/src/services/terminal.ts:183-187 | the cursor moves one back, never below 0 |
| `TerminalEditor.LineEditor.ArrowRight` | web/src/services/terminal.ts:188-192 | the cursor moves one on, never past the line's end |
| `TerminalEditor.LineEditor.ExecuteCommand` | web/src/services/terminal.ts:215-231 | `clear` in any letter case empties the history and resets the index to -1; a blank or other command leaves the editor state alone |
| `TerminalEditor.LineEditor.Enter` | web/src/services/terminal.ts:135-145 | a non-blank line is appended to history with index = history length (wiped again if it is `clear`); a blank line leaves history alone; either way the line is empty and the cursor 0 |
| `TerminalEditor.LineEditor.CompositionStart` | web/src/services/terminal.ts:102-104 | composing starts; the line state is unchanged |
| `TerminalEditor.LineEditor.CompositionEnd` | web/src/services/terminal.ts:113-118 | composing stops and the composed text goes in at the cursor, which moves past it |
| `TerminalEditor.LineEditor.OnData` | web/src/services/terminal.ts:129-208 | nothing changes while composing; otherwise, per key, the same new line, cursor, history and index as that key's handler (Enter's history append and `clear` wipe included); an unknown escape changes nothing; the history changes only on Enter |
| `ConnectionHistory.SameEndpoint` | web/src/services/connectionHistory.ts:33-35 | only host and port identify an entry; password, db and timestamp do not |
| `ConnectionHistory.WithoutEndpoint` | web/src/services/connectionHistory.ts:33-35 | exactly the records for other host/port pairs remain, each as often as before (duplicates included), in their original order |
| `ConnectionHistory.AddRecordTo` | web/src/services/connectionHistory.ts:26-38 | the new record is first and carries the caller's host, port, password and db with the given timestamp; at most 10 entries, no other entry for its host and port (whatever its password or db), and the rest is the filtered old list cut to fit |
| `ConnectionHistory.RetainedKeepOrder` | web/src/services/connectionHistory.ts:33-38 | the older records kept are a subsequence of the old list |
| `ConnectionHistory.OtherEndpointsKept` | web/src/services/connectionHistory.ts:33-38 | a record for another endpoint survives unless the list is full |
| `ConnectionHistory.AddRecordIdempotent` | web/src/services/connectionHistory.ts:24-40 | saving the same connection twice at the same moment stores what saving it once stores |
| `ConnectionHistory.HistoryStore.constructor` | web/src/services/connectionHistory.ts:9-12 | a fresh store (a browser with nothing saved) holds no list |
| `ConnectionHistory.HistoryStore.GetHistory` | web/src/services/connectionHistory.ts:13-22 | the stored list, or the empty list when nothing is stored or it does not parse, returned as stored; at most 10 entries when the slot holds a list this code wrote |
| `ConnectionHistory.HistoryStore.AddRecord` | web/src/services/connectionHistory.ts:24-44 | the slot afterwards holds the updated list, computed from what `getHistory` returned |
| `ConnectionHistory.HistoryStore.ClearHistory` | web/src/services/connectionHistory.ts:46-53 | nothing is stored afterwards |
| `StaticHandler.RewritePath` | internal/handler/static.go:21-26 | `/` becomes `/index.html`; any other path loses exactly one leading `/`; the empty path has no rewrite (the source indexes past its end) |
| `StaticHandler.Ext` | internal/handler/static.go:41 | the extension is empty or a `.`-suffix of the path with no other `.` or `/`; it is empty only if every `.` has a `/` after it |
| `StaticHandler.ExtOfDotSuffix` | internal/handler/static.go:41 | a final `.`-suffix with no other `.` or `/` is the extension |
| `StaticHandler.ContentType` | internal/handler/static.go:42-63 | every extension gets one type; the known ones, and only they, get something other than `application/octet-stream`; `.js`/`.mjs` and `.jpg`/`.jpeg` share a type |
| `StaticHandler.ServeStatic` | internal/handler/static.go:20-64 | the rewritten path is served if it opens, otherwise `index.html`, otherwise 404; the Content-Type follows the served file's extension |
| `StaticHandler.RootServedByFallback` | internal/handler/static.go:22-37 | on a file system that never opens rooted names, `/` is served through the fallback `index.html` as `text/html` |

## Left out

- The store calls themselves (go-redis `LPush`, `RPush`, `LPop`, `RPop`, `LRange`, their contexts and results) are foreign library calls. The model stops at the `StoreCall` value.
- Lower-casing changes only A–Z. It decides every comparison with a command name or `clear` exactly as the source does. For a non-ASCII name, the string in `unsupported command: <name>` may differ from Go's full Unicode lower-casing.
- Go strings are bytes. The model works on Unicode code points, so byte strings that are not valid UTF-8 are not represented.
- The terminal's output is not modelled: xterm writes and escape sequences, `compositionupdate` back-spacing, the Ctrl-C line clear, the asynchronous command callback, the null-terminal guard, resize, dispose and add-on setup.
- Terminal text counts each UTF-16 code unit as one `char`. A Dafny `char` cannot hold a lone surrogate, so characters outside the Basic Multilingual Plane are not represented as their two code units.
- TerminalEditor.LineEditor.OnData: requires non-empty data. xterm never delivers an empty chunk. For one, the source would take the single-character branch and move the cursor past the end of the line.
- TerminalEditor.LineEditor.InsertText: requires non-empty text for the same reason. Both of the source's branches are kept.
- The snapshot fields of the object `createTerminalService` returns (`currentCommand`, `cursorPosition`, `historyIndex` and `isComposing`, all copied at creation) are not modelled. No core logic reads them.
- Stored history is abstracted from JSON text to a record list or an unparsable value. A stored JSON `null`, storage exceptions such as a full quota, and console logging are not modelled. `Date.now()` is the parameter `now`.
- The bytes served by `http.FileServer` are not modelled. In the source it serves the original request path, so the `index.html` fallback only decides the probe and the Content-Type header. Not modelled either: the startup `fs.Sub` panic and `f.Close()`.
