# WHIP publish signalling, modelled in Dafny

This project models the signalling core of the iOS publish service in
`WebRTC-MediaMTX/WebRTCPublishService.swift`. It is a WHIP client (RFC 9725)
that publishes a WebRTC stream to a MediaMTX server, and it works in four steps:

1. It asks the WebRTC engine for a local offer. It keeps the offer's ICE credentials and media lines (`parseOffer`).
2. It POSTs the offer to `<backchannel>/whip`. From a 2xx response it takes the `Location` header as the session resource and gives the answer body to the engine.
3. It trickles every locally discovered ICE candidate to that resource. Each PATCH carries an `application/trickle-ice-sdpfrag` body (RFC 8840), built by `generateSdpFragment`.
4. Candidates found before the session resource is known wait in a queue. Once the engine has applied the answer, the whole queue goes out as one PATCH.

The model is in five modules, one per concern:

- `SdpText` (`sdp_text.dfy`) is the line structure of SDP text (RFC 8866 section 5):
  - `Split` models Foundation's `components(separatedBy: "\r\n")`;
  - `Terminated` writes lines, each followed by CRLF;
  - `NatToDecimal` models `String(mid)`.
- `OfferParser` (`offer_parser.dfy`) is `parseOffer`. The method `ParseOffer` keeps the source's loop and its three variables, and is proved to compute the reference function `ParsedOffer`. `ParsedOffer` takes each credential from the first line that carries it with a non-empty value, and collects every media payload in order.
- `SdpFragment` (`sdp_fragment.dfy`) is `generateSdpFragment`:
  - the method `GenerateSdpFragment` has the source's three loops: the dictionary from media index to candidates, the `mid` counter, and the candidate lines;
  - it is proved to compute the reference `Fragment`, the rendering of a list of typed SDP lines;
  - the lemmas state what a fragment contains.
- `WhipPublish` (`whip_publish.dfy`) is the session state. It has three parts:
  - the value `Session` and its reaction `Step` to each event: the engine's offer, the POST's outcome, the engine finishing `set(remoteSdp:)`, and a discovered candidate;
  - the invariant `Consistent`, kept by every step;
  - the class `PublishService`, with the source's fields. Each of its methods is proved to make exactly the `Step` transition.

  The network is an outbox. The service's requests are appended to `posts` and `patches`, and answers handed to the engine are appended to `remoteDescriptions`.
- `Wrappers` (`wrappers.dfy`) holds `Option`.

The invariant `Consistent` says four things:

- Without a session URL, no PATCH has been sent and every candidate found so far is in the queue.
- The queue is the first candidates discovered, in arrival order.
- Every discovered candidate is either still queued or was handed to exactly one `sendLocalCandidates` call. This is stated as a multiset equality.
- The force-unwrap `localOfferData!` in `sendLocalCandidates` can never trap.

A second invariant, `Logged`, ties the outbox to what the service builds:

- The i-th POST is the i-th offer text, sent as `application/sdp` to `<backchannel>/whip`.
- The i-th PATCH goes to the session URL of the i-th `sendLocalCandidates` call, with `Content-Type: application/trickle-ice-sdpfrag` and `If-Match: *`. Its body is the fragment of that call's offer data and candidates. A candidate whose index names no media line is dropped from that body (`OutOfRangeIgnored`).

`Logged` is proved on `Session` values by `RunLogs`. Each of the class's methods is proved equal to `Step`, so it carries over to the object.

### Where the model follows the code rather than the protocol description

- **The session URL can change.** The service sets `sessionURL` on every 2xx response that carries `Location` (line 66). It is not limited to one assignment. For a single POST this means it is set at most once: once every POST has its response, `UrlSettled` shows the URL keeps its value until a new offer. `UrlStaysSet` shows it is never cleared. A second `startStream` would POST again and could replace it, and the model allows that.
- **A failed answer decode still opens the gate.** `sessionURL` is stored before the answer body is decoded (lines 66 and 74). If the body is not UTF-8, the flow therefore does not end. Candidates discovered afterwards are still PATCHed one at a time. If this response answers the last outstanding POST and the engine has no earlier answer still being applied, the queue is never sent either. Nothing would drain it, because the engine is never given an answer whose completion drains the queue. In the model, `Responded` with `answer == None` sets the URL but hands nothing to the engine. Under those conditions no `RemoteApplied` event can follow until a new offer. `UndecodedAnswerStrandsQueue` proves that the queue then stays as it is over any later events short of a new offer. An answer of an earlier POST that the engine is still applying does drain the queue when it completes.
- **Candidates can overtake the queue.** `sessionURL` is set at line 66, but the answer is only given to the engine at line 76, and the queue drains only when the engine finishes. A candidate discovered in between finds the URL set and is PATCHed alone, ahead of the queued ones. The model has the same order: `CandidateGate` sends a candidate as soon as the URL is set, and the queue drains only on `RemoteApplied`.
- **The drain ignores the engine's error.** The queue is drained whether applying the answer succeeded or failed (lines 76–83). `Drained` ignores the error parameter.

## Model

| member | source | states |
|---|---|---|
| SdpText.SplitJoin | WebRTC-MediaMTX/WebRTCPublishService.swift:99 | Splitting an offer into lines loses nothing: joining the pieces back with CRLF gives the original text. |
| SdpText.SplitTerminated | WebRTC-MediaMTX/WebRTCPublishService.swift:99 | Text written as CRLF-terminated lines, none containing CRLF, splits back into exactly those lines followed by one empty piece. |
| SdpText.SplitNoCrlf | WebRTC-MediaMTX/WebRTCPublishService.swift:99 | No piece of a split text contains CRLF. |
| SdpText.SplitTwoLines | WebRTC-MediaMTX/WebRTCPublishService.swift:99 | The first two CRLF-terminated lines of a text, if neither contains CRLF, are its first two pieces, whatever follows. |
| SdpText.DecimalDigits | WebRTC-MediaMTX/WebRTCPublishService.swift:130 | The `a=mid:` value is a non-empty string of decimal digits with no leading zero. |
| SdpText.DecimalRoundTrip | WebRTC-MediaMTX/WebRTCPublishService.swift:130 | Reading the `a=mid:` digits back as a number gives the media index. |
| SdpText.DecimalNoCrlf | WebRTC-MediaMTX/WebRTCPublishService.swift:130 | The `a=mid:` value never contains a line break. |
| OfferParser.ParseOffer | WebRTC-MediaMTX/WebRTCPublishService.swift:94-110 | The line loop of `parseOffer` computes the reference parse: the first non-empty ufrag, the first non-empty pwd, every media payload in order. |
| OfferParser.PrefixesExclusive | WebRTC-MediaMTX/WebRTCPublishService.swift:100-105 | A line starts with at most one of `m=`, `a=ice-ufrag:` and `a=ice-pwd:`, so the order of the parser's branches does not matter. |
| OfferParser.FirstValueIsFirst | WebRTC-MediaMTX/WebRTCPublishService.swift:102-105 | If line i is the first to carry a credential attribute with a non-empty value, the credential is that value, whatever follows. |
| OfferParser.FirstValueEmpty | WebRTC-MediaMTX/WebRTCPublishService.swift:95-105 | A credential is empty if and only if no line carries its attribute with a non-empty value. |
| OfferParser.FirstValueIgnoresLater | WebRTC-MediaMTX/WebRTCPublishService.swift:102-105 | Once a credential has been found, lines after it never change it. |
| OfferParser.MediaPayloadsFromLines | WebRTC-MediaMTX/WebRTCPublishService.swift:100-101 | The k-th media payload is the text after `m=` on some line of the offer. |
| OfferParser.NoMarkersGivesEmpty | WebRTC-MediaMTX/WebRTCPublishService.swift:94-110 | Parsing never fails: lines with no `m=`, no ufrag and no pwd marker give empty credentials and no media. |
| OfferParser.EmptyOfferGivesEmpty | WebRTC-MediaMTX/WebRTCPublishService.swift:94-110 | The empty offer parses to empty credentials and no media. |
| OfferParser.ParsedTerminated | WebRTC-MediaMTX/WebRTCPublishService.swift:94-110 | An offer written as CRLF-terminated lines parses as those lines; the trailing empty piece adds nothing. |
| OfferParser.CredentialLinesFirst | WebRTC-MediaMTX/WebRTCPublishService.swift:102-105 | Lines that open with a ufrag line and then a pwd line, both with values, give exactly those two credentials. |
| OfferParser.ExampleOffer | WebRTC-MediaMTX/WebRTCPublishService.swift:94-110 | The offer `v=0`, `a=ice-ufrag:abc`, `a=ice-pwd:xyz`, `m=audio 9 UDP/TLS/RTP/SAVPF 0`, `m=video 9 UDP/TLS/RTP/SAVPF 96` parses to `abc`, `xyz` and the two payloads `audio 9 UDP/TLS/RTP/SAVPF 0` and `video 9 UDP/TLS/RTP/SAVPF 96`. |
| SdpFragment.GroupByMedia | WebRTC-MediaMTX/WebRTCPublishService.swift:113-120 | The dictionary has a key exactly for each media index that has a candidate. Each key maps to that index's candidates, in input order. |
| SdpFragment.GenerateSdpFragment | WebRTC-MediaMTX/WebRTCPublishService.swift:112-140 | The header, the `mid` loop and the appends compute exactly the reference fragment of the offer data and the candidates. |
| SdpFragment.AppendCandidates | WebRTC-MediaMTX/WebRTCPublishService.swift:132-134 | The inner loop appends one `a=<candidate>` CRLF line per candidate of a media line, in order. |
| SdpFragment.FragmentHeader | WebRTC-MediaMTX/WebRTCPublishService.swift:122-123 | Every fragment starts with the ufrag line and then the pwd line, with the offer's values written verbatim. Every fragment ends in CRLF. |
| SdpFragment.FragmentOpening | WebRTC-MediaMTX/WebRTCPublishService.swift:122-137 | A fragment is its two credential lines, each ended by CRLF, followed by the rendered media sections. |
| SdpFragment.FragmentCredentialsParseBack | WebRTC-MediaMTX/WebRTCPublishService.swift:122-123 | Round trip: the offer parser, applied to a fragment, gives back the credentials it was written from, for any candidates. This needs non-empty credentials free of CRLF. |
| SdpFragment.FragmentCandidates | WebRTC-MediaMTX/WebRTCPublishService.swift:127-135 | A candidate appears in the fragment if and only if it names one of the offer's media lines. There are as many candidate lines as such candidates. |
| SdpFragment.HeaderOnlyIffNoCandidateInRange | WebRTC-MediaMTX/WebRTCPublishService.swift:127-135 | The fragment is the bare credential header if and only if no candidate names one of the media lines. |
| SdpFragment.OutOfRangeIgnored | WebRTC-MediaMTX/WebRTCPublishService.swift:125-137 | Candidates with a negative index, or an index past the last media line, do not change the fragment. |
| SdpFragment.SingleCandidateFragment | WebRTC-MediaMTX/WebRTCPublishService.swift:112-140 | A PATCH for one candidate holds the header, then that candidate's `m=` line, its `a=mid:` index and its `a=` line, and nothing else. |
| SdpFragment.SingleFragmentLines | WebRTC-MediaMTX/WebRTCPublishService.swift:125-137 | For one candidate, the only media section written is the one its index names. |
| SdpFragment.ExampleFragmentLines | WebRTC-MediaMTX/WebRTCPublishService.swift:112-140 | One candidate on the second of two media lines gives the header and only the video section, with `a=mid:1`. |
| WhipPublish.AppendingPathComponent | WebRTC-MediaMTX/WebRTCPublishService.swift:66 | The resolved URL is the base, at most one `/`, then the component, with both parts kept verbatim. |
| WhipPublish.InitialConsistent | WebRTC-MediaMTX/WebRTCPublishService.swift:7-10 | The service starts consistent: no session URL, nothing queued, nothing sent. |
| WhipPublish.OfferedKeeps | WebRTC-MediaMTX/WebRTCPublishService.swift:26-31 | Keeping the parsed offer and POSTing it preserves the gate, the queue order and candidate conservation. |
| WhipPublish.RespondedKeeps | WebRTC-MediaMTX/WebRTCPublishService.swift:62-91 | Every POST outcome preserves the invariant: success, missing `Location`, undecodable answer, error status, or transport failure. |
| WhipPublish.DrainedKeeps | WebRTC-MediaMTX/WebRTCPublishService.swift:76-83 | Draining the queue into one PATCH loses no candidate and sends none twice. |
| WhipPublish.DiscoveredKeeps | WebRTC-MediaMTX/WebRTCPublishService.swift:144-151 | A discovered candidate is queued or PATCHed, never both, and never lost. |
| WhipPublish.StepKeeps | WebRTC-MediaMTX/WebRTCPublishService.swift:25-151 | Every event that can happen preserves the invariant: the gate, the queue order, candidate conservation, and no trapping force-unwrap. |
| WhipPublish.Run | WebRTC-MediaMTX/WebRTCPublishService.swift:25-151 | Any sequence of events that can happen leaves the service consistent. |
| WhipPublish.InitialLogged | WebRTC-MediaMTX/WebRTCPublishService.swift:7-10 | A new service has sent no request, so its outbox matches the empty sets of offers and `sendLocalCandidates` calls. |
| WhipPublish.StepLogs | WebRTC-MediaMTX/WebRTCPublishService.swift:25-151 | Every event keeps the outbox equal to the requests the service builds from its offers and `sendLocalCandidates` calls. |
| WhipPublish.RunLogs | WebRTC-MediaMTX/WebRTCPublishService.swift:25-151 | Along any sequence of events that can happen, the outbox stays exactly the requests built from the offers and `sendLocalCandidates` calls. |
| WhipPublish.PostsOnTheWire | WebRTC-MediaMTX/WebRTCPublishService.swift:55-60 | Every POST goes to `<backchannel>/whip` with only `Content-Type: application/sdp`, and its body is the text of the matching offer. |
| WhipPublish.PatchesOnTheWire | WebRTC-MediaMTX/WebRTCPublishService.swift:35-46 | Every PATCH goes to the session URL of its call, with `Content-Type: application/trickle-ice-sdpfrag` then `If-Match: *`, and its body is the fragment of that call's offer data and candidates. |
| WhipPublish.UrlSettled | WebRTC-MediaMTX/WebRTCPublishService.swift:65-66 | Once every POST has its response, no event short of a new offer changes the session URL, so it is assigned at most once per offer. |
| WhipPublish.QueueStranded | WebRTC-MediaMTX/WebRTCPublishService.swift:76-83 | Once the session URL is set, with every POST answered and every answer applied, no later event short of a new offer changes the queue. |
| WhipPublish.UndecodedAnswerStrandsQueue | WebRTC-MediaMTX/WebRTCPublishService.swift:65-87 | A 2xx with `Location` whose body does not decode, answering the last outstanding POST while no earlier answer is still being applied, sets the session URL until a new offer. The candidates queued before it are then never sent by any later events short of a new offer. |
| WhipPublish.UrlStaysSet | WebRTC-MediaMTX/WebRTCPublishService.swift:65-66 | Once the session URL is set, no later events clear it, so the gate never closes again. |
| WhipPublish.StepAfterGrant | WebRTC-MediaMTX/WebRTCPublishService.swift:144-151 | After the session URL is set, one event keeps it set and either keeps or empties the queue. |
| WhipPublish.QueueFrozen | WebRTC-MediaMTX/WebRTCPublishService.swift:144-151 | Once the session URL is set, the queue never grows. Later events leave it as it was, or drained. |
| WhipPublish.StepDiscovers | WebRTC-MediaMTX/WebRTCPublishService.swift:144-151 | One event records its candidate, if it brings one, as discovered; other events record none. |
| WhipPublish.RunDiscovers | WebRTC-MediaMTX/WebRTCPublishService.swift:144-151 | Every candidate that the events bring is recorded as discovered, in arrival order. |
| WhipPublish.NoGrantKeepsUrl | WebRTC-MediaMTX/WebRTCPublishService.swift:63-71 | Without a 2xx response carrying `Location`, the session URL stays unset. |
| WhipPublish.NoGrantNoPatch | WebRTC-MediaMTX/WebRTCPublishService.swift:36-39 | Without a 2xx response carrying `Location`, no PATCH is sent, and the queue is the earlier queue plus every new candidate in order. |
| WhipPublish.UrlOnlyFromGrant | WebRTC-MediaMTX/WebRTCPublishService.swift:63-71 | A POST outcome changes the session URL only if it is a 2xx with `Location`, and then to `Location` resolved against the backchannel. It sends nothing and leaves the queue alone. |
| WhipPublish.DrainSendsQueue | WebRTC-MediaMTX/WebRTCPublishService.swift:79-82 | The drain empties the queue. A non-empty queue, the first candidates discovered in order, goes out as one PATCH of its fragment; an empty queue sends nothing. |
| WhipPublish.CandidateGate | WebRTC-MediaMTX/WebRTCPublishService.swift:144-151 | A candidate found before the session URL is appended to the queue and nothing is sent. One found after is PATCHed alone and leaves the queue unchanged. |
| WhipPublish.PublishService.constructor | WebRTC-MediaMTX/WebRTCPublishService.swift:7-10 | A new service has no queue, no session URL, no offer data and no requests. |
| WhipPublish.PublishService.OnOfferCreated | WebRTC-MediaMTX/WebRTCPublishService.swift:26-31 | The object keeps the parsed offer and issues the POST, exactly as the `OfferCreated` step says, and stays well formed. |
| WhipPublish.PublishService.OnPostResponse | WebRTC-MediaMTX/WebRTCPublishService.swift:62-91 | The object reacts to the POST outcome exactly as the `PostResponded` step says: a success sets the URL, a missing `Location` returns early, an answer is handed over. |
| WhipPublish.PublishService.OnRemoteApplied | WebRTC-MediaMTX/WebRTCPublishService.swift:76-84 | The object drains its queue exactly as the `RemoteApplied` step says. |
| WhipPublish.PublishService.OnCandidate | WebRTC-MediaMTX/WebRTCPublishService.swift:144-151 | The object queues or PATCHes the candidate exactly as the `CandidateDiscovered` step says. |
| WhipPublish.PublishService.SendLocalCandidates | WebRTC-MediaMTX/WebRTCPublishService.swift:35-53 | Without a session URL nothing is sent. Otherwise one PATCH carries the generated fragment of exactly these candidates. |
| WhipPublish.QueueBeforeAnswer | WebRTC-MediaMTX/WebRTCPublishService.swift:144-151 | After the offer and three candidates with no response yet, the three are queued in order and nothing is PATCHed. |
| WhipPublish.FourCandidates | WebRTC-MediaMTX/WebRTCPublishService.swift:76-83 | In this scenario, three early candidates go out in one PATCH after the answer is applied, and a fourth later candidate goes out in a PATCH of its own. |
| WhipPublish.MissingLocation | WebRTC-MediaMTX/WebRTCPublishService.swift:65-71 | A 201 without `Location` leaves later candidates queued, and nothing is PATCHed. |

## Left out

- **Networking.** `URLSession` is not modelled, nor the UTF-8 encoding of request bodies. A request is its method, URL, headers and body text. The responses to PATCH requests are only logged by the source, so the model ignores them.
- **The WebRTC engine.** `WebRTCClient` is not part of this model: the offer, `set(remoteSdp:)` and candidate discovery. Their results come in as events.
- **The connection-state delegate** (lines 154–163) and the data-channel delegate (lines 165–167). They only update UI state and unmute media.
- **Concurrency.** The `Task`s and `DispatchQueue` are not modelled. Events are applied one at a time, so the race between a candidate callback and the drain is not represented.
- **Printing and `@Published var state`**, which are UI only.
- **`eTag`** (line 9). It is declared but never read or written.
- **The backchannel URL.** `streamBackchannelURL` is not part of this model. The service gets it as a constructor parameter.
- **`URL.appendingPathComponent`** is modelled on plain strings with the slash rule only. Percent-encoding and URL parsing are not modelled.
- **The error-status branch's force-unwrap.** On a non-2xx status, the source force-unwraps a UTF-8 decode of the body (line 89). That traps if the body is not UTF-8. The model treats every non-success outcome as logged and ignored.
- **The `response as! HTTPURLResponse` cast** (line 50). The response to a PATCH is force-cast to an HTTP response. That would trap on a non-HTTP response. The model ignores PATCH responses, so it does not show this trap.
- **The `response as? HTTPURLResponse` cast** (line 63). A failed cast is merged with a non-2xx status into one non-granting outcome.
- **Swift string semantics.** Strings are sequences of characters. Grapheme clusters and Unicode normalisation, which affect Swift's `hasPrefix` and `dropFirst`, are not modelled.
- SdpFragment.GenerateSdpFragment: `mid` is an unbounded natural, not `Int32`. An offer with more than 2^31 − 1 media lines would overflow in the source.
- **Ghost bookkeeping.** `PublishService.Valid` keeps only the structural part of the invariant. The gate, conservation and `Logged` parts are proved on `Session` values by `StepKeeps`, `Run` and `RunLogs`, and each method is proved equal to `Step`, so they carry over to the object. The object's ghost fields `offers` and `sent` record each offer text and each `sendLocalCandidates` call.
- **The other files.** The WHEP playback service (`WebRTCReceiveService.swift`) and the views (`ContentView.swift`, `WebRTCView.swift`) are outside the modelled core.
