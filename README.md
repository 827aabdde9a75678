# Ledger AI terminal — a Dafny model of its command core

Ledger AI is a browser terminal for the XRP Ledger, written as one React
component (`src/App.jsx`). The user types a line. The terminal echoes it as
`> line` and splits it into a command token and a parameter. It then does one
of three things:

- answers from a fixed table (`help`, `address`/`ca`, `telegram`, `twitter`,
  and the usage texts of `addressinfo` and `scan`);
- looks an address up on the ledger (`addressinfo <address>`, `scan <issuer>`,
  or a bare line that is itself an address);
- hands the line to a conversational assistant.

Every reply is revealed one character at a time into the transcript. After the
reveal, each line that holds `https://` becomes a caption followed by a
clickable link. `clear`/`cls` empties the transcript.

The model has six modules:

| module | file | what it holds |
|---|---|---|
| `Wrappers`, `Strings` | `strings.dfy` | `Option`; JavaScript's `split`, `join`, `includes` and ASCII `toLowerCase` on strings, with the split/join round trips |
| `Address` | `address.dfy` | the address pattern `^r[1-9A-HJ-NP-Za-km-z]{25,34}$` as a matcher, proved equal to a plain description of the format |
| `Command` | `command.dfy` | `processCommand`'s parse and the `switch`, including the default branch's fallback policy |
| `Replies` | `replies.dfy` | the fixed reply and notice texts, character for character |
| `Issuer` | `issuer.dfy` | the issuer scan, `fetchTokenInfo`. This covers: the error checks in their order; the decode of the account flag word; the `reduce` that groups trust lines by currency (a method with a loop over a `map`); the features list of each token |
| `Transcript` | `transcript.dfy` | the transcript as a sequence of lines; the typing session as a specification function with its lemmas; and the component as class `Terminal` |

`Terminal` has the fields the code keeps in state: `output`, `isTyping`,
`currentTypingIndex` (here `typingIndex`), `address` and `showImage`. Its
methods do what `clearOutput`, `typeResponse`/`typeChar`, `chatWithAI` and
`processCommand` do. Each method is proved against a function of the old
state.

The network services are parameters, bundled in the datatype `Services`:
- the account lookup's reply;
- the two ledger round trips of the issuer scan, and the text of its report;
- the assistant's reply, or its failure.

Timers are sequenced: each typing session runs to the end before the
transcript is edited again. This is the order the code is written in.

Three details of the code shape the model:
- The line is split at every single space and nothing is trimmed, so `scan `
  (with a trailing space) has an empty parameter and shows the usage.
- `clear` first echoes the line and then empties the transcript, so the echo
  does not survive either.
- `addressinfo` calls the account lookup `fetchXRPInfo`.

## Model

| member | source | states |
|---|---|---|
| Address.MatchRun | src/App.jsx:123 | the `{25,34}` repetition accepts a rest exactly when it is all alphabet characters and the total count stays within 25..34 |
| Address.Matches | src/App.jsx:123 | the address test succeeds iff the line is `r` followed by 25 to 34 characters of the alphabet (the same test is at lines 197 and 440) |
| Address.AlphabetIsBase58 | src/App.jsx:123 | the character class is exactly the ASCII digits and letters without `0`, `O`, `I` and `l` |
| Address.AddressHasNoSpace | src/App.jsx:438-440 | a well-formed address holds no space, so it is a single token |
| Strings.Split | src/App.jsx:347 | `split` gives at least one piece, no piece holds the separator, and the first piece is a prefix of the string |
| Strings.JoinSplit | src/App.jsx:347-349 | joining the pieces of a split with the separator gives back the original string |
| Strings.SplitJoin | src/App.jsx:347-349 | splitting the join of separator-free pieces gives back the pieces |
| Strings.JoinSnoc | src/App.jsx:90-92 | joining one more piece appends the separator and that piece |
| Command.Parse | src/App.jsx:347-349 | no contract of its own: the split, the lower-cased first token and the re-joined rest; `Command.ParseAtFirstSpace` and the split/join round trips describe it |
| Command.Route | src/App.jsx:351-456 | no contract of its own: the command table and the default branch; `Command.FallbackPolicy`, `Command.AddressLineIsScanned`, `Command.CommandCaseIgnored` and `Command.MissingParameterShowsUsage` describe it |
| Command.ParseAtFirstSpace | src/App.jsx:347-349 | the command is the lower-cased text before the first space and the parameter everything after it; the parameter is empty iff there is no space or the first space ends the line |
| Command.CommandCaseIgnored | src/App.jsx:348 | a one-word line whose lower-cased form is a table token does what that token does |
| Command.AddressLineIsScanned | src/App.jsx:438-449 | a line that is an address is never taken for a table command; it is scanned as an issuer, and that address is the one requested |
| Command.FallbackPolicy | src/App.jsx:438-455 | the default branch runs exactly for tokens outside the table; it scans the whole line iff the line is well formed, and otherwise asks the assistant and requests no ledger data |
| Command.MissingParameterShowsUsage | src/App.jsx:398-431 | `addressinfo` without a parameter shows the `addressinfo` usage, `scan` without one shows the `scan` usage, and neither fetches anything |
| Issuer.DecodeFlags | src/App.jsx:263-268 | each of the four security settings is set iff its bit (20, 21, 22, 23) of the flag word is set; encoding the decoded settings keeps exactly those four bits |
| Issuer.DecodeEncode | src/App.jsx:263-268 | decoding the flag word of any four settings gives back those settings |
| Issuer.ShownQuality | src/App.jsx:277-278 | a quality is shown as `N/A` exactly when it is zero or missing |
| Issuer.ShownLimit | src/App.jsx:282 | the limit shows `No limit` exactly when it is empty or is that text itself |
| Issuer.Distinct | src/App.jsx:309 | the report's currency list holds each currency of the trust lines once, and nothing else |
| Issuer.Absorb | src/App.jsx:285-286 | a further line of a known currency adds one trust line and its balance, and changes no other field |
| Issuer.SummaryExtend | src/App.jsx:271-289 | one more trust line creates the first entry for a new currency, absorbs into the entry of a known one, and leaves the other currencies alone |
| Issuer.FoldStep | src/App.jsx:271-289 | one step of the `reduce` keeps the invariant: the map holds exactly the currencies seen so far, in discovery order, each with its summary over the prefix |
| Issuer.GroupByCurrency | src/App.jsx:271-289 | the `reduce` yields, for each distinct currency in order of first appearance, the summary of all its lines |
| Issuer.CountsCoverAllLines | src/App.jsx:271-289 | the trust-line counts of the grouped tokens add up to the number of lines |
| Issuer.BalancesCoverAllLines | src/App.jsx:271-289 | the grouped supplies add up to the sum of all line balances |
| Issuer.DiscoveryOrder | src/App.jsx:308-309 | the tokens are listed in the order their currency first occurs in the lines |
| Issuer.Aggregate | src/App.jsx:195-289 | no contract of its own: `fetchTokenInfo`'s checks in their order and the grouped report; `Issuer.ReportIsAllOrNothing` and `Issuer.ErrorText` describe it |
| Issuer.Grouped | src/App.jsx:271-289 | one token per distinct currency; `Issuer.GroupByCurrency` computes it and `Issuer.CountsCoverAllLines`, `Issuer.BalancesCoverAllLines` and `Issuer.DiscoveryOrder` describe it |
| Issuer.ReportIsAllOrNothing | src/App.jsx:253-268 | a report is produced iff the address is well formed, both round trips arrived, the ledger gave no error, the line list is present and non-empty and account data exists; it carries the decoded flags and the grouped lines |
| Issuer.ErrorText | src/App.jsx:253-260 | every outcome but a report has an error line, and a report has none |
| Issuer.Features | src/App.jsx:316-323 | the features read `None` exactly when no flag of the token is set |
| Issuer.FeaturesAsTable | src/App.jsx:316-323 | the features text equals an independent eight-row table of the three flags |
| Issuer.FeaturesDetermineFlags | src/App.jsx:316-323 | two tokens with the same features text have the same three flags |
| Transcript.LinkLine | src/App.jsx:89-107 | no contract of its own: the mapping of one line of the post pass; `Transcript.LinkLineSplitsAtLastSpace` describes it |
| Transcript.PostPass | src/App.jsx:85-113 | the post pass leaves a non-empty transcript; `Transcript.SessionResult` gives its result in closed form |
| Transcript.Session | src/App.jsx:64-118 | a typing session leaves a non-empty transcript; `Transcript.RevealSplitsLines`, `Transcript.SessionResult` and `Transcript.SessionOnBlankLine` give its result |
| Transcript.Rendered | src/App.jsx:86-105 | the post pass maps the reply to exactly one line per newline-separated piece |
| Transcript.RevealSplitsLines | src/App.jsx:68-82 | revealing a reply character by character appends its first piece to the last line and opens one new line per further piece |
| Transcript.NoLinkRendersPlain | src/App.jsx:86-113 | in a reply without `https://` every line stays plain text |
| Transcript.LinkLineSplitsAtLastSpace | src/App.jsx:89-95 | a line with a link becomes a link element: the URL is the text after the last space and holds no space, the caption is the text before it, and the element displays as the original line (a line with no space gets an empty caption) |
| Transcript.SessionResult | src/App.jsx:64-118 | after a typing session that holds a link, the reply's rendered lines replace the last line; without a link, the reply is typed onto the last line and the following new lines |
| Transcript.SessionOnBlankLine | src/App.jsx:64-118 | typed onto a fresh blank line, a reply shows as exactly its rendered lines |
| Transcript.SingleLineSession | src/App.jsx:64-118 | a one-line reply without a colon is appended to the line it is typed on |
| Transcript.NoticeAppendsLine | src/App.jsx:408-409 | a progress notice typed onto a fresh blank line shows as that one line |
| Transcript.NoticesAreSingleLines | src/App.jsx:409 | every progress, waiting and apology text is one line without a link |
| Transcript.AccountReply | src/App.jsx:120-125 | the account lookup answers the format error for a malformed address and the service's reply otherwise |
| Transcript.IssuerReply | src/App.jsx:195-199 | the issuer scan answers the format error for a malformed address |
| Transcript.MalformedAddressReachesNoService | src/App.jsx:120-125 | when no well-formed address is requested, the response is the same whatever the services answer; a malformed lookup gets the account format error and a malformed scan the issuer format error (lines 197-199) |
| Transcript.AfterCommand | src/App.jsx:342-462 | no contract of its own: `processCommand` as written; `Transcript.ClearEmptiesTranscript`, `Transcript.RequestTranscript`, `Transcript.ChatTranscript` and `Transcript.FixedReplyOverwritesEcho` describe it |
| Transcript.IntendedAfterCommand | src/App.jsx:342-462 | no contract of its own: `processCommand` with table replies typed below their echo; `Transcript.IntendedKeepsEcho` describes it |
| Transcript.ClearEmptiesTranscript | src/App.jsx:433-436 | `clear`/`cls` leaves no line at all, not even its echo |
| Transcript.RequestTranscript | src/App.jsx:398-431 | a lookup or scan keeps the echo, and a non-empty response's rendered lines replace the progress notice; an empty one leaves the notice |
| Transcript.ChatTranscript | src/App.jsx:451-495 | a line for the assistant keeps the echo and the first waiting line; the reply replaces the second waiting line, and on failure the apology is typed onto the end of the first |
| Transcript.FixedRepliesOpenWithNewline | src/App.jsx:352-396 | every fixed table reply is non-empty and starts with a line break |
| Transcript.FixedReplyOverwritesEcho | src/App.jsx:458-461 | as written, a table command's reply is typed over its own echo: the line after the earlier transcript is blank, not `> cmd` |
| Transcript.HelpLosesItsEcho | src/App.jsx:458-461 | the concrete input `help` routes to the help reply and leaves a blank line where its echo was |
| Transcript.IntendedKeepsEcho | src/App.jsx:343 | with the corrected closing step, every command but `clear` keeps its echo right after the earlier transcript, and a table reply shows as its rendered lines right after the echo |
| Transcript.Terminal.constructor | src/App.jsx:10-19 | the terminal starts idle, showing the three welcome lines, with no contract address and the image hidden |
| Transcript.Terminal.ClearOutput | src/App.jsx:59-62 | the transcript is emptied and the image hidden |
| Transcript.Terminal.RevealStep | src/App.jsx:70-79 | one `typeChar` step: a newline closes the last line and opens an empty one; any other character is appended to the last line |
| Transcript.Terminal.TypeResponse | src/App.jsx:64-118 | the loop over the reply and the post pass leave the transcript that the typing-session function describes, and the terminal idle again |
| Transcript.Terminal.OpenLine | src/App.jsx:408 | one blank line is appended (also at lines 427, 441, 452 and 465) |
| Transcript.Terminal.BlankLastLine | src/App.jsx:459 | the last line is replaced by a blank one (also at lines 445 and 489) |
| Transcript.Terminal.DropLastLine | src/App.jsx:493 | the last line is dropped |
| Transcript.Terminal.ShowProgress | src/App.jsx:408-409 | a notice is typed onto a new line and shows as that line; the typing index ends at -1 |
| Transcript.Terminal.Answer | src/App.jsx:458-461 | a non-empty response blanks the last line and is typed into it; an empty one changes nothing; the typing index ends at -1 after a session and is unchanged otherwise |
| Transcript.Terminal.ChatWithAI | src/App.jsx:464-495 | the assistant's reply replaces the waiting line; on failure that line is dropped and the apology typed on; the terminal ends idle with typing index -1 |
| Transcript.Terminal.Ask | src/App.jsx:451-455 | the first waiting line, then the exchange with the assistant; the terminal ends idle with typing index -1 |
| Transcript.Terminal.Dispatch | src/App.jsx:351-461 | the `switch` and the closing step, with table replies below their echo; the image is hidden iff the action clears; the typing index is -1 after any session and unchanged when nothing is typed |
| Transcript.Terminal.ProcessCommand | src/App.jsx:342-462 | one submitted line leaves the transcript that the corrected command function describes; the terminal ends idle, with typing index -1 unless the line clears, which leaves the index as it was |

## Left out

- The network: the WebSocket round trips, JSON parsing, `fetch` and the assistant's HTTP request. Their results are the `Services` parameter.
- Console logging. It has no effect on the transcript.
- `fetchContractInfo` (lines 158-193). No command reaches it.
- The text of the account lookup's reply and of the issuer report (lines 126-155 and 291-335). These are fixed templates filled with `toFixed`, floating-point division (lines 137 and 298) and plain `${}` conversion, and are taken as given strings. The parts of the report that hold logic are modelled: the flags, the grouping, the currency order and the features.
- Floating point: balances are `real` and `parseFloat` is exact. A balance that does not parse (`NaN`) is not modelled.
- Object key order: `Object.entries` (line 309) lists array-index keys first, in numeric order, then the rest in insertion order. The model keeps insertion order for every currency, so it differs for currency codes that are array indices (digits without a leading zero, such as `100`; `007` keeps insertion order): lines for `USD` then `100` are reported as `100`, `USD` by the code and as `USD`, `100` by `Issuer.Grouped` and `Issuer.DiscoveryOrder`.
- Inherited property names: a currency named like an inherited property (`constructor`, say) is not special in the model.
- Timers and concurrency. The model runs each typing session to the end before the next edit. Left out with it:
  - a progress notice still being typed while its request returns;
  - the two waiting lines of the assistant path (`🤔 Thinking...` and `Thinking...`), whose typing sessions overlap in the browser;
  - a `clear` while a reveal step is still pending;
  - a second command entered during an `await`. The input is disabled while typing (line 582); `ProcessCommand` requires an idle terminal.
- Strings are sequences of characters, not UTF-16 code units. An emoji counts as one step of the reveal, not two.
- `toLowerCase` lowers ASCII letters only.
- `Transcript.Terminal.TypeResponse` requires the last line to be plain text. The code would otherwise concatenate text onto a link element. No path of `processCommand` types onto a link line.
- The delayed setting of the contract address (lines 29-33). `address` is a field that the table reply reads.
- The user interface: scrolling, focus and the clipboard. `showImage` is only ever set to false (line 61) and nothing draws it; the `dogais` state (line 8) is unused.
- Transcript.IssuerReply: its contract pins only the malformed-address case. The other outcomes are stated on `Issuer.Aggregate` by `Issuer.ReportIsAllOrNothing` and `Issuer.ErrorText`. The report text itself is a parameter.
- Transcript.Terminal.ProcessCommand: follows the corrected closing step for the table commands, not the code as written (see Findings). The as-written transcript is `Transcript.AfterCommand`.
- Transcript.Terminal.Dispatch: opens a blank line before a table reply, which lines 458-461 do not do (see Findings). The as-written effect of the `switch` is `Transcript.AfterAction`.

## Findings

| source | as written | input that shows it | evidently intended | confidence | as-written member | corrected member |
|---|---|---|---|---|---|---|
| src/App.jsx:458-461 | For a table command (`help`, `address`, `telegram`, `twitter`, a usage text), the closing step replaces the last line with a blank one before typing the reply. No progress line was opened for these commands, so the line replaced is the command's own echo. | `help`: the line where `> help` was is blank, and the help text follows | the echo stays, and the reply is typed on a new line after it, as for every other command | high, not executed | Transcript.FixedReplyOverwritesEcho | Transcript.IntendedKeepsEcho |
