# yamp: router, transports and state machines

yamp is a proxy between MCP clients and several MCP backends. This project
models the parts of it whose correctness is spread over several functions or
over whole runs, and proves what they promise.

| module | models |
|---|---|
| `RequestDemux` | one backend's request ids, its `pending` map, its reader, timeouts, breaker, as a transition system; the class `BackendHandle` performs the same steps in place |
| `Correlation` | the `srv-n` table for requests that backends send to the client, with replies, cancellations and the worker pool, over any interleaving; the class `ForwardRouter` performs the same steps |
| `Listing`, `FanOut`, `Pages` | the list fan-out: which backends are asked for what, and what the page and the refusals owe to their answers |
| `Drain`, `ClientRun`, `Calls`, `Agreement`, `Routes` | composite pagination and a client's whole run over it, the four naming strategies, and the call side that must invert them |
| `Namespace`, `Collision`, `Variants`, `Composition`, `Hex`, `Decimal`, `Sorting` | what those are built from |
| `Framing`, `Relay`, `Transport` | the three message framings as parser/printer pairs over byte streams, and the relay that bridges them |
| `EventStreams`, `HeaderBlocks` | what the event reader and the length-framed reader make of any stream, whoever wrote it |
| `Base64`, `Padding`, `JsonPath`, `Content`, `Scanner` | base64, slots in a JSON tree, typed content blocks, and the scanner that rewrites them one after another |
| `Payloads`, `ScanVerdicts` | the payloads a message carries inline, and what a scan sends, refuses and changes, in terms of those |
| `Signing` | the hash-chained audit log |
| `CursorWire`, `DrainExample`, `SigningExample` | values that meet the hypotheses of the cursor, drain and audit-log theorems, so that none of them is vacuous |
| `StrayExample` | a listing and a call that a stray manual override sends astray |
| `Breaker`, `Cache`, `Tasks`, `Resilient`, `ResilientReplies` | lazy state machines, each compared with a plain history, and what their clients are told |
| `Folds`, `Filters`, `ChainVerdicts` | the filter chain and its two folds, and which filters see, refuse and change a request |
| `Rest`, `Urls`, `Templates` | URL building, what is read back from the URL, and which path templates do not care in what order parameters are declared |

`Prelude`, `JsonValue` and `Bits` hold shared vocabulary. An object that the program
updates in place is a class whose methods are proved equal to a step function of
its fields; the theorems are about runs of those step functions.

What the theorems assume, always as an explicit `requires`:

- Backend ids are distinct; where a label must be read back, none ends in `_`.
  `valid_backend_id` accepts `a_`, and `Namespace.TrailingUnderscoreMisroutes`
  shows what then happens.
- Clocks do not go back, and time is a real number. `Breaker.ClockMustNotGoBack`
  and `Cache.ClockMustNotGoBack` show that this is needed.
- serde_json's parser undoes its printer on the cursor bodies the router prints,
  and nothing more; SHA-256 and HMAC are functions with 32-byte results; UTF-8
  extends ASCII and loses nothing. `CursorWire.FaithfulIsMet`,
  `DrainExample.DrainRunIsMet` and `SigningExample.SoundIsMet` show that these
  hypotheses can be met.
- Channels, filters, scanners and backends may answer anything at all.

## Findings

Where the code falls short of what one might expect of it, the model follows the
code, gives an input, and says when the code does meet the expectation:

- `src/transport/mod.rs:4-6` says every message's exact bytes survive a bridge.
  The line framing cuts a payload at each newline, the event framing drops a CR
  before a newline or at the end, and the length framing refuses more than
  64 MiB; `Relay.BridgeExactly` states exactly when bytes survive.
- An id that ends in `_` passes `valid_backend_id`, but its labels are read back
  under another id (`Namespace.TrailingUnderscoreMisroutes`);
  `Namespace.SplitUndoesPrefix` gives the exact condition.
- A manual override whose key no backend lists can hijack a listed name: the
  listing is accepted, shows the name, and the call to it goes to another backend
  (`StrayExample.StrayOverrideMisroutes`); `Agreement.ManualNameRoutesHome` gives
  the exact condition.
- A request issued after its backend's reader ended can hang for good:
  `RequestDemux.StrandedIsReached` is a run that gets there. It can still return
  if and only if the backend was given a timeout
  (`RequestDemux.LateRequestReturnsExactly`; `RequestDemux.ReturnsAfterEofExactly`
  for any unfinished request). Every request pending at that moment is resolved
  (`RequestDemux.EofResolvesAllWaiting`).
- Braces in a path template's literal text can make the order of parameters
  matter (`Rest.LiteralBracesBreakOrder`). It never does if and only if no literal
  brace that opens is followed by one that closes, which is to say that no
  literal braces enclose a placeholder (`Templates.OrderFreeExactly`).
- A log cut short still verifies (`Signing.VerifiesConcat`).
- `src/tasks.rs:12-14` says backend task ids carry no `__`. Routing does not
  need that: `Tasks.TaskRequestsGoHome` holds for every non-empty backend task id.

## Model

| member | source | states |
|---|---|---|
| `RequestDemux.RequestsAreConserved` | src/router.rs:147-190 | in every reachable state, ids issued = in progress + answered + timed out + closed + send-failed, and the breaker heard a success exactly per answered request and a failure exactly per timed-out or closed one (plus those of start-up) |
| `RequestDemux.IdsNeverCollide` | src/router.rs:163-165 | registering a new request never overwrites a waiting entry, and an answered request was answered by a message with its own id |
| `RequestDemux.ResolvedAtMostOnce` | src/router.rs:172-189 | once a request has an outcome, or a reply in hand, no later event changes it |
| `RequestDemux.ReplyReachesItsOwnerOnly` | src/router.rs:398-403 | a message from the backend changes at most the one live, unanswered request whose id it carries |
| `RequestDemux.ReplyIsDelivered` | src/router.rs:398-403 | while the reader runs, a message with the id of a request still awaiting its reply fills that request's channel, takes its entry, touches nothing else, and is what the request returns |
| `RequestDemux.EofResolvesAllWaiting` | src/router.rs:457-459 | every request registered when the reader ends is decided by that step: its next wake-up reports a closed backend |
| `RequestDemux.RequestAfterEofIsNotCovered` | src/router.rs:459 | a request that was not pending when the reader ended, on a backend without a timeout, is never answered or closed, whatever happens next |
| `RequestDemux.StrandedIsReached` | src/router.rs:147-190 | a run that reaches such a state: the reader ends, then a request is issued and written |
| `RequestDemux.ReturnsAfterEofExactly` | src/router.rs:172-181 | once the reader has ended, an unfinished request can still return if and only if the backend has a timeout, or its channel was filled or closed before, or its timer has fired |
| `RequestDemux.LateRequestReturnsExactly` | src/router.rs:172-181 | a request issued after the reader ended can return if and only if the backend was given a timeout |
| `RequestDemux.AvailabilityFollowsOutcomes` | src/router.rs:140-145 | after any run, `available` is what the history of the handle's outcomes allows |
| `RequestDemux.BackendHandle.TakeReply` | src/router.rs:398-403 | taking a reply is the transition system's step, and says whether a request took it |
| `RequestDemux.BackendHandle.Resume` | src/router.rs:172-188 | waking a request records success or failure by its outcome and nothing else |
| `RequestDemux.BackendHandle.ReaderEnded` | src/router.rs:457-459 | clearing `pending` hangs up exactly the entries it held |
| `Correlation.CorrelationIsSafe` | src/router.rs:405-424 | over every interleaving: minted ids are distinct, each outstanding entry names the backend and id that minted it, each delivery went to that backend with its own id restored, no id is delivered twice, and minted = in hand + outstanding + replied + cancelled |
| `Correlation.ClientSeesMintedIds` | src/router.rs:415-424 | every request the client sees is a backend's request with only its id replaced by the minted one, and each of them is outstanding or was delivered |
| `Correlation.ReplyGoesHome` | src/router.rs:1315-1332 | a client reply to an outstanding id is delivered once, to the minting backend (the lookup never fails), with the original id; any other reply changes nothing |
| `Correlation.CancellationGoesHome` | src/router.rs:1355-1387 | in every reachable state a cancellation of a pooled call takes that call alone out of the pool and sends nothing; otherwise one of an outstanding id takes that entry and appends one delivery, to the minter, with `requestId` restored and every other key of the notice and its `params` unchanged; any other changes nothing |
| `Correlation.BackendRequestIsMinted` | src/router.rs:398-411 | in every reachable state a backend's message is taken as an answer, or else, with an id and a method, minted under the next number, or else leaves the table alone |
| `Correlation.MintedRequestIsShown` | src/router.rs:411-424 | what a reader minted is shown to the client with the minted id for its own and nothing else changed, and the id then stands for that backend and its own id |
| `Correlation.ForwardRouter.RouteClientReply` | src/router.rs:1315-1332 | the in-place code does the transition system's reply step and reports where it sent what |
| `Correlation.ForwardRouter.RouteClientCancellation` | src/router.rs:1355-1387 | likewise for a cancellation, which may abort a pooled call instead |
| `Correlation.ForwardRouter.InsertAndRelay` | src/router.rs:411-424 | the entry is stored under the minted id and the relayed request carries it |
| `Namespace.SplitUndoesPrefix` | src/namespace.rs:20-33 | a valid id and a name are read back from their label if and only if the name is non-empty and the id does not end in `_` |
| `Namespace.PrefixInjective` | src/namespace.rs:20-22 | labels of different (id, name) pairs differ across all such backends |
| `Namespace.TrailingUnderscoreMisroutes` | src/namespace.rs:9-33 | `a_` is a valid id whose label for `x` is read back as `a` and `_x` |
| `Namespace.SplitUriUndoesPrefixUri` | src/namespace.rs:37-59 | an id and a uri are read back from the prefixed uri if and only if the id is non-empty and slash-free and the uri has a scheme |
| `Namespace.PrefixUriUndoesSplitUri` | src/namespace.rs:37-59 | every uri that `split_uri` accepts is rebuilt by `prefix_uri` |
| `Collision.PriorityIsArgmin` | src/collision.rs:36-74 | one output per original name in first-seen order, each the earliest input of least rank for that name |
| `Collision.RankedByBackend` | src/collision.rs:36-51 | a labelled tool competes under its original name by the last place of its backend in the priority list, behind all of it when unlisted; an unlabelled one under its own name, behind all of it |
| `Collision.PriorityConserves` | src/collision.rs:36-74 | output and discards together are the input as a multiset |
| `Collision.PriorityIdempotent` | src/collision.rs:36-74 | applying the strategy again changes and discards nothing |
| `Collision.ApplyPriority` | src/collision.rs:52-73 | the loop over `best`, `kept` and `order` computes that output and those discards |
| `Collision.ResolveManual` | src/collision.rs:81-98 | it fails if and only if two different names share a target, names such a pair, and otherwise maps every name to its target |
| `Hex.HexRoundTrip` | src/signing.rs:96-102 | both hex readers undo the printer |
| `Hex.ReadsEitherCase` | src/variants.rs:124-136 | even-length text of hex digits in either case is read by both readers alike, and printing what was read gives the text in lower case |
| `Hex.LenientReads` | src/icap.rs:66-71 | the scanner's hex reader takes any text pair by pair: two digits are a byte, a plus sign stands for a zero, any other pair and a last odd character are passed over |
| `Decimal.RenderIsCanonical` | src/router.rs:163-164 | the numbers in minted ids have no leading zero |
| `Hex.DecodeStrict` | src/variants.rs:124-136 | the cursor reader's loop accepts exactly even-length hex text and yields its bytes |
| `Variants.ResolveUndoesBind` | src/variants.rs:107-144 | a minted cursor resolves to the variant and cursors it was minted from |
| `Variants.ResolvesExactly` | src/variants.rs:121-144 | a value resolves if and only if it is the prefix and even-length hex of bytes that parse to an object whose `c` is an object, and then to exactly the string entries of `c` |
| `Hex.StrictExactly` | src/variants.rs:124-136 | the cursor's hex reader accepts exactly even-length text of hex digits |
| `Variants.Resolve` | src/variants.rs:121-144 | the reader follows every rejecting branch of the specification |
| `Variants.ComposeVariants` | src/variants.rs:81-102 | the offered variants are the first supporting backend's entries that every supporting backend has, in its order |
| `Variants.OfferedIsServable` | src/variants.rs:81-102 | an offered variant is listed by every backend that lists any |
| `Composition.OfferedExactly` | src/variants.rs:45-102 | nothing is offered when no backend advertises variants; otherwise exactly the entries of the first one that does, in its order, whose id every other such backend advertises too |
| `Calls.ListRouter.Collect` | src/router.rs:1421-1571 | the fan-out loops make exactly the specified fetches, compute the specified items, unavailable backends and cursors, and record exactly the specified reverse entries |
| `Calls.ListRouter.Aggregate` | src/router.rs:1573-1682 | the reply, including every refusal of a cursor or of a clash and the sorted, duplicate-free unavailable list, is the specified one, and so are the fetches made |
| `FanOut.AskedExactly` | src/router.rs:1437-1454 | a backend is asked, once and in configured order, if and only if the cursor is accepted and, where composite, names it, the router is not resilient or its breaker allows, and its keywords match |
| `FanOut.RequestCarries` | src/router.rs:1455-1474 | each request carries the client's filter when it is a non-empty object, the variant chosen or else the default, the backend's own cursor (or a lone backend the client's), and nothing else |
| `Pages.PlainPage` | src/router.rs:1521-1557 | a page of prompts, resources, or tools under prefix or passthrough holds exactly the named items that the asked backends gave, relabelled and passed by the filter, and the local tools |
| `Pages.ManualPage` | src/router.rs:1621-1647 | under manual it holds exactly those, each under its explicit name where it has one |
| `Pages.PriorityPage` | src/router.rs:1648-1657 | under priority it holds only those, no two of one original name, and for each of them one of its original name whose backend stands no lower |
| `Pages.RefusesExactly` | src/router.rs:1581-1646 | a variant mismatch, an unknown cursor, a failure and a manual clash are each reported exactly on their stated causes |
| `Pages.NextExactly` | src/router.rs:1562-1571 | the page's cursor resolves to the variant in force and exactly the backends whose answers carry one, each with its own, and there is none when none does |
| `Pages.UnavailableExactly` | src/router.rs:1497-1511 | a page names, once each and in rising order, exactly the backends whose breaker is open after the fetches or that were asked and did not answer |
| `Listing.PageNamesMissing` | src/router.rs:1672-1674 | a page names, once each and in rising order, exactly the backends whose breaker is open or whose fetch failed |
| `Calls.ListRouter.ResolveCall` | src/router.rs:1736-1776 | resolution, with the warming fan-out for passthrough, is the specified route for whichever matching override the scan meets |
| `ClientRun.DrainRun` | src/router.rs:1421-1682 | over the whole run of a client that follows `nextCursor` until it is absent: as many requests as the longest backend has pages; each backend asked once for each of its pages, in order, and nothing else; and the items received from each backend its own whole list in order |
| `DrainExample.DrainRunIsMet` | src/router.rs:1421-1682 | two backends, one with two pages, meet every hypothesis of the drain theorems |
| `CursorWire.FaithfulIsMet` | src/variants.rs:107-144 | a printer and parser that round-trip every cursor body exist |
| `Drain.DrainStops` | src/router.rs:1573-1682 | following `nextCursor` from the start makes exactly as many requests as the longest backend has pages, each reply being that round's |
| `Drain.EachPageFetchedOnce` | src/router.rs:1421-1500 | in round k each backend that still has pages is asked for exactly its page k, and no other backend is asked |
| `Drain.DrainIsComplete` | src/router.rs:1501-1571 | over the drain, the received items labelled for a backend are its own full list in order |
| `Drain.ResolveUndoesLabel` | src/router.rs:89-104 | a name or uri is read back from its label if and only if it can carry one |
| `Agreement.ListedNameRoutesHome` | src/router.rs:1736-1776 | under prefix and priority every listed item came from a backend, and calling the name shown reaches that backend and original if and only if the original can carry a label |
| `Agreement.ManualNameRoutesHome` | src/router.rs:1736-1755 | under manual, calling an exposed name reaches its origin, whichever override the scan meets, if and only if no other override key claims that exposed name |
| `Agreement.ListedOverridesNeverStray` | src/router.rs:1621-1658 | when every override key is listed and the renaming was accepted, no listed name is claimed by another key |
| `StrayExample.StrayOverrideMisroutes` | src/router.rs:1739-1748 | a listing is accepted and shows a backend's tool, and the call to that very name goes to the other backend, for the tool of a stray override |
| `Agreement.FirstRecorded` | src/router.rs:1539-1548 | one fan-out records a new name under the first backend that lists it |
| `Agreement.PassthroughRoutesToFirst` | src/router.rs:1756-1768 | over any run of listings a passthrough name is routed to the first backend that listed it in the first listing that showed it |
| `Agreement.PassthroughRecordIsStable` | src/router.rs:1542-1547 | that record never changes |
| `Agreement.PassthroughPageIsRecorded` | src/router.rs:1539-1556 | every name on a passthrough page is recorded by the listing that showed it |
| `Agreement.PassthroughListedRoutes` | src/router.rs:1756-1768 | any name that any page of a run showed is routed, to the end of the run, to the first backend that listed it in the first listing that showed it |
| `Routes.LabelledCallGoes` | src/router.rs:1769-1776 | for prompts, resources and tools under prefix or priority, a call goes to a backend under a name if and only if its own name is that backend's label for it, and otherwise nowhere |
| `Routes.ManualCallGoes` | src/router.rs:1739-1755 | under manual likewise, for the label that the override met exposes as this name, or the name itself when none does |
| `Routes.RecordedCallGoes` | src/router.rs:1756-1768 | under passthrough the record alone decides |
| `Routes.ColdCallGoes` | src/router.rs:1756-1768 | an unrecorded passthrough call goes to the first backend whose plain tool list, asked for then, holds the name, and nowhere when none does |
| `Routes.WarmIsPlain` | src/router.rs:1759-1762 | the listing made for it carries no filter and no cursor |
| `Routes.LoneBackendGetsAll` | src/router.rs:1737-1738 | a lone backend gets every name as it is |
| `Framing.SseRoundTrip` | src/transport/sse.rs:26-81 | one written event is read back as its payload less each CR before a newline or at the end, leaving the rest of the stream |
| `Framing.WithoutCrsExactly` | src/transport/sse.rs:36-38 | that changes nothing if and only if no CR stands there |
| `EventStreams.EventIsRead` | src/transport/sse.rs:26-54 | in any stream, the next message is the values of the event's data lines joined by newlines, each read whole but for one space after the colon; comments, other fields, blank lines between events and LF or CRLF ends contribute nothing, and what follows the blank line stays unread |
| `EventStreams.EndIsRead` | src/transport/sse.rs:31-35 | at the end of the stream an event needs no blank line, and lines without data make no message |
| `EventStreams.LastLineMayBeCut` | src/transport/sse.rs:36-41 | a last line without its newline is read as if it had one |
| `EventStreams.EveryStream` | src/transport/sse.rs:26-54 | any bytes are such lines and perhaps a last one cut short |
| `Framing.FramedRoundTrip` | src/transport/framed.rs:54-101 | a framed payload is read back whole up to the cap and is refused above it, whatever bytes it holds |
| `Framing.HeaderIsRead` | src/transport/framed.rs:18-43 | the written header parses as the payload's length up to the cap, and as an error above it |
| `HeaderBlocks.LengthIsObeyed` | src/transport/framed.rs:18-83 | in any header block whose first Content-Length, in any case and spacing, says n, exactly n bytes of body are the message; over the cap it is an error, and a body cut short is the end of the stream |
| `HeaderBlocks.BadLengthIsAnError` | src/transport/framed.rs:27-32 | a first Content-Length whose value is no 64-bit decimal number, a plus and leading zeros allowed, is an error |
| `HeaderBlocks.MissingLengthIsAnError` | src/transport/framed.rs:39-43 | a block without a Content-Length is an error |
| `HeaderBlocks.BlockMayBeCut` | src/transport/framed.rs:58-62 | a stream that ends within a block is the end of the stream |
| `HeaderBlocks.SaidExactly` | src/transport/framed.rs:24-28 | a header line says a value if and only if it is a field named content-length, in any case, with that value, white space aside |
| `Framing.TrimLoop` | src/transport/mod.rs:39-55 | the two loops trim ASCII whitespace at both ends |
| `Relay.ReadBack` | src/transport/line.rs:20-49 | for every list of payloads, what each framing's reader makes of the writer's whole output, the end of stream included |
| `Relay.LineReadsPieces` | src/transport/line.rs:20-49 | a written line payload is read back in as many messages as it has lines |
| `Framing.LineReadsLast` | src/transport/line.rs:20-31 | a last line without its newline is a message all the same, and nothing at all is the end of the stream |
| `Relay.RoundTripExactly` | src/transport/mod.rs:1-8 | reader over writer returns exactly the payloads and then a clean end if and only if each payload suits the framing |
| `Relay.BridgeExactly` | src/relay.rs:38-48 | for any two framings, the far reader recovers the near writer's payloads, with the end signalled, if and only if each payload suits both |
| `Relay.PumpPreservesMessages` | src/relay.rs:38-48 | for any incoming bytes, the far reader sees the near reader's messages if and only if each suits the outgoing framing |
| `Relay.LineRelayIsIdentity` | src/relay.rs:38-48 | a line-to-line relay copies its bytes, only completing an unterminated last line |
| `Relay.RelayNeverMixes` | src/relay.rs:18-35 | under every interleaving of the two pumps each side has a prefix of what its pump alone would write, and all of it once that pump finished |
| `Transport.Reader.ReceiveSse` | src/transport/sse.rs:26-54 | the reading loop returns the specified message and leaves the specified rest |
| `Transport.Reader.ReceiveFramed` | src/transport/framed.rs:71-83 | header, length and body are consumed as specified, with end of stream and error told apart |
| `Transport.Reader.ReceiveLine` | src/transport/line.rs:20-31 | one line, without its newline |
| `Transport.ParseContentLengthLoop` | src/transport/framed.rs:18-43 | the first Content-Length line decides |
| `Transport.JoinLoop` | src/transport/sse.rs:89-98 | parts joined by newlines |
| `Transport.Writer.Send` | src/transport/sse.rs:68-76 | appends exactly the framed payload |
| `Transport.Pump` | src/relay.rs:38-48 | the loop writes what the specification says and signals the end exactly when the source ended without an error |
| `Base64.DecodeUndoesEncode` | src/base64.rs:12-84 | decoding undoes both encoders on every byte string |
| `Base64.EncodedLength` | src/base64.rs:12-43 | padded length is 4*ceil(n/3), unpadded ceil(4n/3) |
| `Padding.PaddedIsUrlFilled` | src/base64.rs:12-43 | the padded text is the URL-safe one with `+` and `/` for `-` and `_`, then equals signs up to a multiple of four and nothing else |
| `Base64.DecodesExactly` | src/base64.rs:59-84 | decoding succeeds if and only if every character but `=` is in an alphabet and their count modulo 4 is not 1, and yields floor(3n/4) bytes |
| `Base64.EncodeUndoesDecodeExactly` | src/base64.rs:41-84 | unpadded encoding rebuilds a text if and only if it is in the URL alphabet without padding and with no spare bits set |
| `Base64.EncodeLoop` | src/base64.rs:12-33 | the loop over chunks of three computes that encoding |
| `Base64.DecodeLoop` | src/base64.rs:59-84 | the loop that fills and clears a chunk computes that decoding |
| `Base64.PackWord` | src/base64.rs:18 | the shifted fields put together with bitwise or are the weighted sum |
| `Base64.SecondByte` | src/base64.rs:70 | the shifted, put together and truncated byte is the arithmetic one |
| `Bits.OrAdds` | src/base64.rs:18 | fields that do not overlap are put together by addition |
| `JsonPath.SetHolds` | src/content.rs:104-133 | an existing slot holds what was written to it, and a path that leads nowhere changes nothing |
| `JsonPath.SetFrame` | src/content.rs:104-133 | every node not at or below the slot looks as it did |
| `JsonPath.FacesDetermine` | src/content.rs:104-115 | those looks, at all paths, determine the tree |
| `Content.WriteThroughPath` | src/content.rs:48-133 | a string written through a block's path is read back in that block alone, every other block being unchanged |
| `Content.BytesFieldOfEncoded` | src/content.rs:28-33 | bytes written as base64 are read back as their hex |
| `Content.BlocksLoop` | src/content.rs:48-68 | the traversal computes the specified blocks |
| `Payloads.PayloadIsListed` | src/content.rs:48-102 | every payload carried inline (text of a text item, base64 data of an image or audio item, text or else base64 blob of a resource) has a block with its path, kind, text or bytes, mime and uri |
| `Payloads.ListedIsPayload` | src/content.rs:48-102 | every block with a payload is such a payload |
| `Payloads.BlocksInOrder` | src/content.rs:48-68 | blocks stand in the order of their items, `content` before `contents`, and no item has two |
| `Scanner.ScanFrame` | src/icap.rs:124-161 | a scan that forwards leaves the original blocks with exactly the rewritten payloads replaced, and a tree that looks the same outside the rewritten slots and the result's `_meta` |
| `Scanner.ScanBlocksExactly` | src/icap.rs:135-146 | it blocks if and only if some answer denies or quarantines, and the first such answer alone makes the outcome |
| `Scanner.ScanProvenance` | src/icap.rs:93-110 | with provenance, `_meta` gains all of it, a later block winning a key, and `result` gains no other key |
| `Scanner.RewriteIsRescanned` | src/icap.rs:73-91 | a second scan is sent exactly what the first one wrote |
| `Scanner.ScanLoop` | src/icap.rs:124-161 | the loop over `working` and `provenance` computes the specified outcome |
| `ScanVerdicts.SentExactly` | src/icap.rs:73-81 | the bridge is sent the raw bytes of each inline payload and nothing else |
| `ScanVerdicts.FirstRefusalDecides` | src/icap.rs:135-146 | a scan forwards when no answer denies or quarantines, and otherwise blocks with the request's id, code -32001 and the reason of the first that does |
| `ScanVerdicts.BlocksAfter` | src/icap.rs:83-91 | after a scan that forwards, each block reads as the mutate answer for it asked, and as before without one |
| `ScanVerdicts.MetaAfter` | src/icap.rs:93-157 | after it, the result's `_meta` says of each key what the last answer to tell of it told, and what it said before of every other |
| `Signing.TamperEvidence` | src/signing.rs:161-221 | two logs that verify and end in the same hash agree in length and in every canonical record, link, hash and signature, or the proof exhibits two inputs with one digest or, for different lengths, an input that digests to the genesis link |
| `Signing.VerifiesExactly` | src/signing.rs:205-221 | a log verifies if and only if every entry is, field by field, the one `append` would have written for its record there |
| `Signing.BuiltVerifies` | src/signing.rs:192-203 | every log built by `append` verifies and holds its records in order |
| `Signing.VerifiesConcat` | src/signing.rs:205-221 | verification composes along the chain, so a log cut short still verifies |
| `Signing.SealedExactly` | src/signing.rs:138-167 | a log verifies if and only if every entry follows the hash before it (the first, 64 zeros), is signed with the MAC of its record's canonical bytes keyed by the secret, and is hashed over that link, a bar and those bytes |
| `Signing.SignatureBindsRecord` | src/signing.rs:138-140 | two entries of logs that verify under one secret and carry one signature have one canonical record, or exhibit two inputs with one MAC under that secret |
| `Signing.SignatureBindsSecret` | src/signing.rs:138-144 | a record and signature accepted under two secrets exhibit two keys with one MAC on that record |
| `SigningExample.SoundIsMet` | src/signing.rs:192-221 | digests, signatures and an encoding that meet the hypotheses exist |
| `Signing.AuditLog.Append` | src/signing.rs:192-203 | the entry continues the chain, the head moves to its hash, and a valid log stays valid |
| `Signing.AuditLog.Verify` | src/signing.rs:205-221 | the loop decides the specified predicate on any, possibly edited, records |
| `Signing.ConstantTimeEq` | src/signing.rs:149-158 | accumulating differences decides equality |
| `Breaker.AllowIsHistory` | src/resilience.rs:55-87 | after any queries, successes and failures at nondecreasing times, a call is allowed if and only if failures since the last success are below the threshold (or none) or the last failure is at least `reset` ago |
| `Breaker.StateIsHistory` | src/resilience.rs:55-60 | the state reported is closed below the threshold, then open until `reset` after the last failure, and half-open from then on |
| `Breaker.QueriesAreInvisible` | src/resilience.rs:55-64 | state queries never change a later answer |
| `Breaker.ClockMustNotGoBack` | src/resilience.rs:55-60 | with a clock that goes back the law fails |
| `Breaker.CircuitBreaker.RecordFailure` | src/resilience.rs:71-80 | the in-place code does the specified step |
| `Cache.LookupIsHistory` | src/cache.rs:58-101 | a lookup returns `r` if and only if the last put or invalidation to touch the key is a put of `r` that has a positive, unexpired life and may be served to this principal |
| `Cache.ServesExactly` | src/cache.rs:58-97 | a lookup serves a result if and only if the key was last touched by a put of it, its `ttlMs` (or the default when that is no number) is positive and has not run out, and, when it is marked private, the reader is the principal it was put for |
| `Cache.ReadsAreInvisible` | src/cache.rs:58-73 | eviction on read never changes a later answer |
| `Cache.ClockMustNotGoBack` | src/cache.rs:58-73 | with a clock that goes back it does |
| `Cache.ListCache.Get` | src/cache.rs:58-73 | the in-place lookup answers and evicts as specified |
| `Cache.ListCache.Put` | src/cache.rs:75-97 | the in-place store drops or replaces the entry as specified |
| `Cache.ListCache.InvalidateBackend` | src/cache.rs:99-101 | exactly the backend's entries go |
| `Tasks.StoreIsHistory` | src/tasks.rs:144-185 | under every interleaving the store holds, for each id it minted, what the history tells |
| `Tasks.FirstEndingDecides` | src/tasks.rs:160-185 | the first ending operation after a task's creation fixes its record for good, and until then it is working |
| `Tasks.EndedStays` | src/tasks.rs:160-185 | a record that is not working never changes |
| `Tasks.IdsAreFresh` | src/tasks.rs:145-150 | a created id was never in the store before |
| `Tasks.StoreIdNeverSplits` | src/tasks.rs:66-70 | no store id parses as a backend's |
| `Tasks.TaskRequestsGoHome` | src/router.rs:1822-1836 | in every run a namespaced task id is routed to its backend with its own id, and a store id is served locally |
| `Tasks.TaskTargetExactly` | src/router.rs:1822-1836 | a task id is served locally if and only if the server originates tasks and holds it, and goes to a backend under an id if and only if it is not local and is that configured backend's label for it |
| `Tasks.HandleIdsResolve` | src/tasks.rs:91-106 | both ids of a handle resolve to the backend and the backend's id, and nothing else in the result changes |
| `Tasks.ServerTasks.Cancel` | src/tasks.rs:178-185 | it reports whether the task was working, and only then ends it |
| `Tasks.ServerTasks.Serve` | src/router.rs:1301-1313 | a cancel request ends the task first, and every request reports where it stands |
| `Tasks.ReportsFollowHistory` | src/tasks.rs:75-88 | a task is reported as working until the first operation that ends it, and ever after as completed with its result, failed with its error, or cancelled |
| `Tasks.UnknownTaskReports` | src/router.rs:1301-1313 | an id the store does not hold is reported as failed, without a result or an error |
| `Resilient.ChannelsAreUsedAsHistoryAllows` | src/resilience.rs:145-229 | in every run a request uses a channel if and only if it has business with it and the recorded outcomes allow it, and then once |
| `Resilient.CallUsesOneChannel` | src/resilience.rs:186-229 | a call uses at most the channel its name leads to |
| `Resilient.UnavailableExactly` | src/resilience.rs:23-27 | in every run the unavailable list is strictly sorted and names exactly the backends dropped by an open breaker or a failure, and is absent when there is none |
| `Resilient.SurfaceChangesExactly` | src/resilience.rs:231-236 | a change of surface is seen if and only if the available ids differ as a multiset |
| `Resilient.ResilientRouter.ToolsList` | src/resilience.rs:145-184 | the loop updates every breaker, uses the channels and builds the reply as specified |
| `ResilientReplies.ToolsAreListed` | src/resilience.rs:145-184 | in every run a list reply holds, backend after backend in order, each tool of exactly those whose history allows a call and whose channel answered, under its label and otherwise unchanged |
| `ResilientReplies.CallsAreAnswered` | src/resilience.rs:186-229 | in every run a call gets its backend's result or error, or the refusal that fits: no such tool, breaker open, channel failed, or neither result nor error |
| `ResilientReplies.SurveyExactly` | src/resilience.rs:133-143 | in every run the available backends are exactly those whose history allows a call |
| `Resilient.ResilientRouter.ToolsCall` | src/resilience.rs:186-229 | likewise for a call, with every refusal, and the parameters handed to the one channel used |
| `Resilient.CallReachesItsTool` | src/resilience.rs:186-210 | a call under a label leads to the labelled backend with the client's parameters, but for the name, which is the backend's own |
| `Sorting.SortedOnce` | src/resilience.rs:23-26 | `sort` then `dedup` lists each name once in strictly rising order |
| `Folds.FoldsAgree` | src/filters.rs:256-276 | deciding from the collected verdicts gives the loop's own message when nothing stopped it, and the stopping verdict otherwise |
| `Filters.RunBlocksExactly` | src/filters.rs:256-276 | a run blocks if and only if some interested filter, shown the fold of the verdicts before it, denies, quarantines or fails closed, and otherwise forwards the whole fold |
| `ChainVerdicts.CaresExactly` | src/filters.rs:133-202 | a filter sees a request if and only if its declarations admit the method, the direction, the tool of a tool call, and some content type present, an absent or empty list or a star admitting all |
| `ChainVerdicts.FirstRefusalDecides` | src/filters.rs:65-127 | a run is blocked if and only if some filter denies, quarantines, or fails under `fail_closed`, with the first such answer's reason, the request's id and code -32001 |
| `ChainVerdicts.NotesAreTheLast` | src/filters.rs:85-104 | each annotation is as the last filter to annotate its key put it, and the request's own otherwise |
| `ChainVerdicts.TypesPresentExactly` | src/filters.rs:184-202 | the content types present are exactly those of images, audio, resource links and inline resources |
| `Filters.FilterChain.Run` | src/filters.rs:256-276 | the in-place loop and the second fold produce that outcome |
| `Filters.ChainOutcomeLoop` | src/filters.rs:110-127 | the fold over a verdict list, up to the first that stops it |
| `Filters.ShownKeepsCall` | src/filters.rs:85-104 | no chain changes anything of a request but `params.arguments` and `params._meta` |
| `Filters.LocalCallFindsItsHandler` | src/router.rs:268-295 | a call judged local before filtering is refused by a filter or reaches the very handler and tool it was judged by |
| `ChainVerdicts.PooledExactly` | src/router.rs:268-295 | a pooled call ends with the chain's refusal, or at the handler and tool its name says with the last mutating verdict's arguments (or its own, or none), or as not found when no handler has that name |
| `Filters.ArgumentsAreTheLast` | src/filters.rs:85-104 | a handler gets the arguments of the last mutating verdict, or the request's own |
| `Rest.DecodeUndoesEncode` | src/rest.rs:47-56 | percent decoding undoes percent encoding on every text |
| `Rest.EncodedIsPlain` | src/rest.rs:47-56 | an encoded value holds only unreserved characters and percent signs |
| `Urls.EncodedForm` | src/rest.rs:47-56 | exactly the texts of unreserved bytes are encoded as they are, and every escape is in upper case |
| `Urls.UrlCarries` | src/rest.rs:113-141 | the URL is the base, the path with the placeholders of the arguments given for it replaced in declared order, and a query from which exactly the arguments given for it are read back in declared order; null arguments are passed over |
| `Templates.SequentialIsSimultaneous` | src/rest.rs:119-136 | replacing placeholders one after another equals substituting them at once, whenever no brace of the literal text is closed |
| `Templates.EnclosedIsNotOrderFree` | src/rest.rs:132 | for every path whose literal braces enclose a placeholder there are parameters whose two orders give two paths |
| `Templates.OrderFreeExactly` | src/rest.rs:119-136 | the order of the parameters never matters for a path if and only if its literal braces enclose no placeholder, which one scan of the path decides |
| `Rest.LiteralBracesBreakOrder` | src/rest.rs:132 | one such path and its two results |
| `Rest.SeparatorsComeFromTemplate` | src/rest.rs:47-56 | arguments add no reserved byte to the path |
| `Rest.QueryIsRead` | src/rest.rs:133-141 | splitting the query on `&` and `=` and decoding recovers exactly the pairs, in order |
| `Rest.BuildUrl` | src/rest.rs:119-141 | the loop over parameters builds the specified URL |

## Left out

- RequestDemux.RequestsAreConserved: a send failure keeps its `pending` entry and is not told to the breaker, as in the code; the 64-bit counter does not wrap in the model.
- RequestDemux.BackendHandle.Resume: the breaker's record is made in the same step as the wake-up; a request future dropped by its caller is not modelled.
- Breaker.AllowIsHistory: counts failures without a 32-bit bound, which the code reaches only when the threshold is the largest 32-bit number.
- Correlation.CorrelationIsSafe: a delivery is the hand-over to the backend's writer; a failing writer is not modelled.
- Calls.ListRouter.Collect: the shared list cache inside the fan-out, the trace hop added to `_meta`, list directives and progressive disclosure are not modelled; name patterns and keyword selection are arbitrary predicates.
- Calls.ListRouter.Aggregate: cache directives, disclosure and the trace hop on the page are not modelled.
- Calls.ListRouter.ResolveCall: the local handlers to which a call is offered first, and the search tool of progressive disclosure, are not modelled here.
- Drain.DrainStops: for fixed backends with finite cursor chains, one variant, no filter and no local handlers; local handler tools are appended to every page by the code.
- JsonPath.SetFrame: a slot is overwritten on values, while the code walks a mutable reference into its own clone; aliasing inside the tree cannot arise.
- Content.BlocksLoop: block descriptors are records with typed paths, where the code builds JSON objects from the same fields.
- Templates.OrderFreeExactly: quantifies over parameters whose names hold no braces; a name with braces can match across placeholders.
- Scanner.ScanFrame: hex text from the bridge is read by characters, so non-ASCII hex text is not modelled; the verdict cache and the exchange with the bridge are an arbitrary answer per block.
- Signing.TamperEvidence: says nothing of how hard a collision is; HMAC is not unfolded into SHA-256, and the canonical JSON form is a parameter.
- Resilient.ResilientRouter.ToolsList: breakers are values updated by the functions that `Breaker.CircuitBreaker` is proved against.
- Tasks.StoreIsHistory: the counter does not wrap in the model; the background execution that ends a task is any sequence of operations.
- Tasks.ServerTasks.Serve: gives the handle itself; the JSON-RPC envelope and the trace hop around it are not modelled, nor is aborting the running call.
- Filters.LocalCallFindsItsHandler: schema validation, output caps and audit records around the dispatch are not modelled.
- Rest.BuildUrl: the request body and the HTTP exchange are not modelled.
- Transport.Writer.Send: writes do not fail; flushing and partial reads are below the model, which treats a stream as its bytes.
- The worker pool's registry as a whole-run invariant: an aborted call leaves its entries behind.
- Freshness of lists after `list_changed` across a fetch in flight, which the code does not promise.
- A single probe while half-open: the breaker admits every call then.
- The SHA-256 compression function, configuration, capability tables, observability and the command-line programs.
