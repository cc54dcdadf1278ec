# Project 4 client/server, modelled in Dafny

The repository is a small Java client/server pair. The client connects to the
server and then sends it lines typed on the keyboard, until it sends `Bye`.
The server reads each line, parses it as three integers `n1 n2 n3` and
validates them. For a valid triple it builds the list
`n1+n3, n1+n3+2, …` (all values below `n2`) and replies with its sum, mean and
standard deviation. Otherwise it replies with exactly one error message.
`Bye` makes the server kick the client.

The model consists of four files:

- `wrappers.dfy`: an `Option` datatype.
- `java_lang.dfy` (module `JavaLang`): the parts of the Java library the core relies on:
  - the 32-bit `int` range, as the `int32` newtype, so that overflow in the loop is a verification failure;
  - the whitespace class `\s`;
  - `String.split("\\s+")` with its edge cases;
  - `Integer.parseInt`;
  - `Integer.toString`, used to state round trips.
- `server.dfy` (module `Project4Server`): the request pipeline:
  - pure specification functions `Parse`, `Validate`, `Derived`, `Sum` and `Reaction`, with lemmas about them;
  - the `Server` class, whose fields are `number1..3`, `numbers` and an event log. `sendToClient` and `kickClient` append to the log.
  - The methods `ParseInput`, `ProcessInput` and `CalculateOutput` follow the Java methods statement by statement, and each is proved against the specification functions. `ReceiveInput` stands in for the `while (true)` loop over `readUTF`: it is a bounded loop over a given sequence of received lines, and it leaves out the IOException path.
- `client.dfy` (module `Project4Client`): the client's two loops:
  - the socket is replaced by a sequence of connection outcomes, one per attempt;
  - the keyboard is replaced by the sequence of lines `nextLine` would return;
  - the `Client` class keeps the `connection != null` state in a field and logs what happens on the streams.

## Model

| member | source | states |
|---|---|---|
| JavaLang.Pieces | Project4Server.java:220 | the pieces around each maximal run of whitespace, before trailing empties are removed; there is always at least one piece (its other properties are in PiecesFacts, used by SplitTokens) |
| JavaLang.Split | Project4Server.java:220 | `line.split("\\s+")`: a line without whitespace is its own single token, otherwise the pieces less trailing empties; what it yields is stated by SplitTokens, SplitEdges and SplitInterleave |
| JavaLang.DropTrailingEmpty | Project4Server.java:220 | removes exactly a run of trailing empty strings: the result is a prefix of the input, does not end in "", and everything dropped is "" |
| JavaLang.SplitTokens | Project4Server.java:220 | every token of `split("\\s+")` is whitespace-free, only the first may be empty, and the tokens together hold every non-whitespace character of the line in order |
| JavaLang.SplitEdges | Project4Server.java:220 | "" splits to [""], a non-empty all-whitespace line splits to [], and a line with leading whitespace and some text yields an empty first token followed by more tokens |
| JavaLang.SplitInterleave | Project4Server.java:219-220 | splitting tokens separated by runs of whitespace, each gap of any length and mix of whitespace characters, gives the tokens back; trailing whitespace is dropped and leading whitespace adds one empty first token |
| JavaLang.ParseInt | Project4Server.java:230-232 | accepted text is an optional sign followed by at least one ASCII digit; the value is in the 32-bit range |
| JavaLang.ParseIntDigits | Project4Server.java:230-232 | conversely, an optional "+" or "-" followed by ASCII digits is accepted with its signed decimal value (so "+7", "007" and "-0" read as 7, 7 and 0) exactly when that value is in the 32-bit range |
| JavaLang.ParseIntShow | Project4Server.java:230-232 | `parseInt` reads back the decimal text of every 32-bit integer and rejects the text of every integer outside that range |
| Project4Server.Parse | Project4Server.java:211-241 | Kick exactly for "Bye". Otherwise a token count other than three gives the token-count message. Three tokens give the not-a-number message exactly when one of them fails to parse, and the triple of their values when all parse. Rejections carry no other message. |
| Project4Server.AssignedFields | Project4Server.java:226-237 | the number of fields parseInput assigns before success or the first NumberFormatException: at most three, and three exactly when the line parses to a triple |
| Project4Server.ParseShow | Project4Server.java:215-233 | three ints written in decimal, separated by two runs of whitespace of any length and mix, parse to exactly those ints, whatever the trailing whitespace; with leading whitespace the line fails the token count |
| Project4Server.ParseWrongCount | Project4Server.java:219-224 | a line of tokens separated by any runs of whitespace, with any leading and trailing whitespace, gets the token-count message whenever the token count (counting the empty first token leading whitespace adds) is not three, unless the line is "Bye" |
| Project4Server.ParseLeadingPair | Project4Server.java:219-236 | two tokens after leading whitespace split into three tokens, the first empty, so the line gets the not-a-number message |
| Project4Server.ParseBlank | Project4Server.java:220-224 | the empty line and any all-whitespace line get the token-count message |
| Project4Server.ErrorMessage.Text | Project4Server.java:222-263 | the exact text of each of the five error replies (lines 223, 236, 257, 260 and 263) |
| Project4Server.Validate | Project4Server.java:256-264 | the checks run in a fixed order. Non-positive values get the greater-than-zero message first. With all values positive, n1 >= n2 gets the less-than message. Otherwise a step other than 1 or 2 gets the 1-or-2 message. No message exactly for a valid triple. |
| Project4Server.Derived | Project4Server.java:268-269 | the values the loop appends, from a given start of i: i + n3 while i < n2 - n3, then i += 2; its shape is stated by DerivedClosedForm and DerivedShape |
| Project4Server.DerivedClosedForm | Project4Server.java:267-270 | the loop appends start+n3+2k for k below its iteration count ⌈(n2−n3−start)/2⌉, and nothing when n2−n3 <= start |
| Project4Server.DerivedShape | Project4Server.java:267-270 | for a positive step, `numbers` starts at n1+n3 and rises by 2. Every element is strictly between n1 and n2. It is empty exactly when n2−n3 <= n1. |
| Project4Server.NoOverflow | Project4Server.java:268-269 | for a valid triple of ints, `n2-n3`, `i+=2` and `i+number3` stay in the int range, and every value added is a positive int |
| Project4Server.Sum | Project4Server.java:294-295 | the integer sum of a list, element by element; SumPositive and SumDerived state its properties |
| Project4Server.SumPositive | Project4Server.java:294-299 | a list of positive values sums to at least its length, so the sum is zero exactly when the list is empty and the mean's division only happens for a non-empty list |
| Project4Server.SumDerived | Project4Server.java:294-296 | the sum of the derived list in closed form: c·(start+n3) + c·(c−1) for c iterations |
| Project4Server.Reaction | Project4Server.java:187-188 | the one event a line causes; it is a statistics reply exactly when the line parses and validates |
| Project4Server.ParseSpaced | Project4Server.java:220-233 | "a b c" with single spaces parses to the triple (a, b, c) |
| Project4Server.ExampleNotPositive | Project4Server.java:256-257 | "-1 10 1" gets the greater-than-zero message, not a not-a-number message |
| Project4Server.ExampleNotIncreasing | Project4Server.java:259-260 | "10 5 1" gets the less-than message |
| Project4Server.ExampleBadStep | Project4Server.java:262-263 | "1 10 3" gets the 1-or-2 message |
| Project4Server.ExampleTooFew | Project4Server.java:222-223 | "1 2" gets the token-count message |
| Project4Server.ExampleTooMany | Project4Server.java:222-223 | "1 2 3 4" gets the token-count message |
| Project4Server.ExampleNotANumber | Project4Server.java:235-236 | "a 2 3" gets the not-a-number message |
| Project4Server.ExampleLeadingSpace | Project4Server.java:219-236 | " 1 2" gets the not-a-number message |
| Project4Server.ExampleMixedGaps | Project4Server.java:219-233 | "1  2\t3 " (two spaces, a tab, a trailing space) parses to the triple (1, 2, 3) |
| Project4Server.ExampleReport | Project4Server.java:267-298 | "2 8 2" yields the derived list [4, 6] and the reply sum 10 over two values |
| Project4Server.ExampleEmptyReport | Project4Server.java:267-298 | "5 6 1" yields an empty `numbers`, so the reply has sum 0 over no values |
| Project4Server.Server.constructor | Project4Server.java:59-64 | the fields start at zero; `numbers` and the event log start empty |
| Project4Server.Server.SendToClient | Project4Server.java:378-386 | exactly one reply is appended to the log |
| Project4Server.Server.KickClient | Project4Server.java:352-365 | exactly one kick is appended to the log |
| Project4Server.Server.ParseInput | Project4Server.java:211-241 | returns true exactly when the line parses to a triple, and then the fields hold it. Otherwise it logs the one kick or error. Fields before a failing token are assigned, later ones are unchanged. |
| Project4Server.Server.ProcessInput | Project4Server.java:255-274 | an invalid triple logs its one message and leaves `numbers` unchanged; a valid one replaces `numbers` by the derived list of the current triple alone and logs the sum reply |
| Project4Server.Server.DeriveNumbers | Project4Server.java:267-270 | the loop clears `numbers` and leaves it equal to the derived list, with no int overflow |
| Project4Server.Server.CalculateOutput | Project4Server.java:289-299 | the accumulated sum is the sum of `numbers`, sent with the list's size, and it is non-zero exactly when the list is non-empty, which guards the mean's division |
| Project4Server.Server.HandleLine | Project4Server.java:183-189 | one pass of the receive loop appends exactly the line's Reaction. `numbers` becomes the line's derived list if the line is accepted and is unchanged otherwise. |
| Project4Server.Server.ReceiveInput | Project4Server.java:175-197 | the k-th line received yields the k-th new event, independent of earlier lines |
| Project4Client.AttemptsFrom | Project4Client.java:94-111 | the final value of connectionAttempts when the loop is at attempt k: each iteration adds one, and the loop stops after a success or after the fourth attempt |
| Project4Client.Attempts | Project4Client.java:91-111 | the final value of connectionAttempts from its initial 0; AttemptsSpec states its properties |
| Project4Client.AttemptsSpec | Project4Client.java:91-111 | between one and four attempts are made. Every attempt before the last failed. The last one succeeded exactly when some allowed attempt succeeds. With none succeeding, all four are made. |
| Project4Client.SentLines | Project4Client.java:140-144 | the lines read and written: the input up to and including the first "Bye"; SentLinesSpec states its properties |
| Project4Client.SentLinesSpec | Project4Client.java:137-144 | the lines sent are a prefix of the input with no "Bye" before the last; the last is "Bye" exactly when the input holds "Bye"; without one every line is sent |
| Project4Client.Exchange | Project4Client.java:144-150 | one pass of the loop on the streams: the line is written, then a reply is read unless the line is "Bye" |
| Project4Client.Transcript | Project4Client.java:140-151 | the stream events of the lines sent, one Exchange per line in order; TranscriptSpec states its properties |
| Project4Client.TranscriptSpec | Project4Client.java:140-151 | the sent lines are written in order and nothing is closed. A reply is read right after each line other than "Bye" and never after "Bye". Every read follows such a line. |
| Project4Client.Client.constructor | Project4Client.java:37-39 | the client starts with no connection and nothing on the streams |
| Project4Client.Client.EstablishConnection | Project4Client.java:88-121 | the attempt count is Attempts(outcomes) and the connection is open exactly when some allowed attempt succeeds; the exit branch is never taken; getInput's outcome follows |
| Project4Client.Client.GetInput | Project4Client.java:134-161 | connected: the transcript of the lines up to and including "Bye", then one close; without "Bye" the input runs out. Not connected: nothing is written, and the run ends with an empty-input failure or a null-stream failure |
| Project4Client.Client.CloseClient | Project4Client.java:218-234 | exactly one close is appended |
| Project4Client.Run | Project4Client.java:55-60 | the whole client run. One to four attempts are made and it never exits. If some attempt connects, the events are the transcript of the sent lines followed by a close when "Bye" was typed. Otherwise all four attempts are made and nothing reaches the streams. |

## Left out

- Sockets, `ServerSocket.accept`, `readUTF`/`writeUTF` and their framing, closing streams, `System.exit`: these are I/O. Replies and kicks become logged events, connection attempts become a sequence of booleans, and keyboard input becomes a sequence of lines.
- The server's mutual recursion acceptConnection → receiveInput → kickClient/checkConnection → acceptConnection. `ReceiveInput` processes the lines of successive connections as one sequence. A kick is logged and does not stop the sequence.
- `checkConnection` on both sides (`isReachable(1000)` and the reconnect it triggers): a network probe with a timeout. The IOException path of `writeUTF`/`readUTF` in getInput and receiveInput is left out with it.
- Project4Server.Server.SendToClient: when the write fails, the reply is printed on the server console rather than sent. This fallback is not modelled; the reply is always logged as sent.
- Mean, standard deviation, `Math.pow`/`Math.sqrt` and `String.format` (Project4Server.java:297-310): floating-point work and formatting. A reply carries the integer sum and the list's size.
- Project4Server.Server.CalculateOutput: the Java sum is a `double`, which is exact only up to 2^53. The model's exact integer sum assumes it is exact.
- `Integer.parseInt` accepts only ASCII digits in the model, although Java also accepts other Unicode decimal digits. `\s` is Java's default `[ \t\n\x0B\f\r]`.
- Project4Client.Client.EstablishConnection: one boolean per attempt covers `new Socket` and both stream constructors together. A socket that opens while a stream constructor fails would leave `connection` non-null and end the loop; that case is not modelled.
- `startServer`, `closeServer`, `developerInfo`, `getResponse` and all console output: these are setup, teardown and printing.
