/**
 * The WHIP signalling state of the publish service (RFC 9725): the local
 * offer is POSTed to the publish endpoint, the `Location` header of a 2xx
 * answer names the session resource, and every locally discovered ICE
 * candidate is trickled to that resource as an RFC 8840 fragment in a PATCH.
 * Candidates discovered before the resource is known wait in a queue that is
 * flushed, as one PATCH, once the remote answer has been applied.
 *
 * The network and the WebRTC engine are outside the model: a request the
 * service issues is appended to an outbox (`posts`, `patches`), an answer
 * handed to the engine to `remoteDescriptions`, and every reply the service
 * reacts to (the locally created offer, the POST response, the engine's
 * completion after applying the answer, a discovered candidate) is an event.
 * Events happen one at a time.
 *
 * `Session` is the state as a value and `Step` its reaction to one event;
 * the lemmas about `Run` (a sequence of events) state the gate's promises.
 * `PublishService` is the object of the service, each of its methods proved
 * to make the transition `Step` describes.
 */
module WhipPublish {
  import opened Wrappers
  import opened SdpText
  import opened OfferParser
  import opened SdpFragment

  /** An HTTP request as the service builds it: method, target, header fields, body. */
  datatype HttpRequest = HttpRequest(httpMethod: string, url: string, headers: seq<(string, string)>, body: string)

  /** How an offer POST came back: not at all, or with a status, an optional `Location` and the body if it decodes as UTF-8. */
  datatype PostOutcome =
    | TransportError
    | Response(status: int, location: Option<string>, answer: Option<string>)

  /**
   * `URL.appendingPathComponent` on an absolute URL string: one `/` joins the
   * two parts unless the base already ends with one or the component starts
   * with one.
   */
  function AppendingPathComponent(base: string, component: string): (r: string)
    ensures |r| == |base| + |component| + (if NeedsSlash(base, component) then 1 else 0)
    ensures r[..|base|] == base && r[|r| - |component|..] == component
    ensures NeedsSlash(base, component) ==> r[|base|] == '/'
  {
    if NeedsSlash(base, component) then base + "/" + component else base + component
  }

  /** True when neither side supplies the `/` between a base URL and a path component. */
  predicate NeedsSlash(base: string, component: string)
  {
    !(|base| > 0 && base[|base| - 1] == '/') && !(|component| > 0 && component[0] == '/')
  }

  /** The POST of `sendLocalOffer`: the offer text, as `application/sdp`, to the WHIP endpoint. */
  function OfferPost(endpoint: string, sdp: string): HttpRequest
  {
    HttpRequest("POST", endpoint, [("Content-Type", "application/sdp")], sdp)
  }

  /** The PATCH of `sendLocalCandidates`: a trickle-ICE fragment, sent unconditionally (`If-Match: *`). */
  function CandidatePatch(sessionURL: string, fragment: string): HttpRequest
  {
    HttpRequest("PATCH", sessionURL, [("Content-Type", "application/trickle-ice-sdpfrag"), ("If-Match", "*")], fragment)
  }

  /** The statuses `sendLocalOffer` treats as success, `200..<300`. */
  predicate IsSuccess(status: int)
  {
    200 <= status < 300
  }

  /** The WHIP endpoint, `<backchannel>/whip`. */
  function Endpoint(backchannel: string): string
  {
    AppendingPathComponent(backchannel, "whip")
  }

  /** One `sendLocalCandidates` call past its guard: the session URL, the offer data and the candidates it used. */
  datatype Sending = Sending(url: string, offer: OfferData, candidates: seq<Candidate>)

  /** The request a sending issues. */
  function PatchOf(x: Sending): HttpRequest
  {
    CandidatePatch(x.url, Fragment(x.offer, x.candidates))
  }

  /** The PATCH requests of the sendings, in order. */
  function PatchesOf(sent: seq<Sending>): (r: seq<HttpRequest>)
    ensures |r| == |sent|
  {
    if |sent| == 0 then [] else PatchesOf(sent[..|sent| - 1]) + [PatchOf(sent[|sent| - 1])]
  }

  /** The POST requests of the offers, in order. */
  function PostsOf(endpoint: string, offers: seq<string>): (r: seq<HttpRequest>)
    ensures |r| == |offers|
  {
    if |offers| == 0 then [] else PostsOf(endpoint, offers[..|offers| - 1]) + [OfferPost(endpoint, offers[|offers| - 1])]
  }

  /** The candidates of all sendings, one after the other. */
  function SentCandidates(sent: seq<Sending>): seq<Candidate>
  {
    if |sent| == 0 then [] else SentCandidates(sent[..|sent| - 1]) + sent[|sent| - 1].candidates
  }

  lemma SentSnoc(sent: seq<Sending>, x: Sending)
    ensures PatchesOf(sent + [x]) == PatchesOf(sent) + [PatchOf(x)]
    ensures SentCandidates(sent + [x]) == SentCandidates(sent) + x.candidates
  {
    assert (sent + [x])[..|sent|] == sent;
  }

  lemma PostsSnoc(endpoint: string, offers: seq<string>, sdp: string)
    ensures PostsOf(endpoint, offers + [sdp]) == PostsOf(endpoint, offers) + [OfferPost(endpoint, sdp)]
  {
    assert (offers + [sdp])[..|offers|] == offers;
  }

  /** The `i`-th PATCH is the request of the `i`-th sending. */
  lemma {:induction false} PatchesOfAt(sent: seq<Sending>, i: nat)
    requires i < |sent|
    ensures PatchesOf(sent)[i] == PatchOf(sent[i])
    decreases |sent|
  {
    if i < |sent| - 1 {
      PatchesOfAt(sent[..|sent| - 1], i);
    }
  }

  /** The `i`-th POST carries the `i`-th offer. */
  lemma {:induction false} PostsOfAt(endpoint: string, offers: seq<string>, i: nat)
    requires i < |offers|
    ensures PostsOf(endpoint, offers)[i] == OfferPost(endpoint, offers[i])
    decreases |offers|
  {
    if i < |offers| - 1 {
      PostsOfAt(endpoint, offers[..|offers| - 1], i);
    }
  }

  // ----- the state as a value, and its transitions -----

  /**
   * The fields of the service, the requests it has issued, and what a proof
   * needs besides: every offer text the engine created, every
   * `sendLocalCandidates` call that sent a PATCH, every candidate discovered,
   * and how many POST responses and engine completions there have been.
   */
  datatype Session = Session(
    backchannelURL: string,
    queuedCandidates: seq<Candidate>,
    sessionURL: Option<string>,
    localOfferData: Option<OfferData>,
    posts: seq<HttpRequest>,
    patches: seq<HttpRequest>,
    remoteDescriptions: seq<string>,
    offers: seq<string>,
    sent: seq<Sending>,
    discovered: seq<Candidate>,
    responses: nat,
    completions: nat)

  /** What happens to the service: the engine's offer, the POST's outcome, the engine's answer completion, a new candidate. */
  datatype Event =
    | OfferCreated(sdp: string)
    | PostResponded(outcome: PostOutcome)
    | RemoteApplied(error: Option<string>)
    | CandidateDiscovered(candidate: Candidate)

  /** The service right after `init`. */
  function Initial(backchannel: string): Session
  {
    Session(backchannel, [], None, None, [], [], [], [], [], [], 0, 0)
  }

  /** The force-unwrap `localOfferData!` in `sendLocalCandidates` cannot trap. */
  predicate Ready(s: Session)
  {
    s.sessionURL.Some? ==> s.localOfferData.Some?
  }

  /** A response answers a POST that was sent; a completion follows an answer that was handed over. */
  predicate Enabled(s: Session, e: Event)
  {
    match e
    case PostResponded(_) => s.responses < |s.posts|
    case RemoteApplied(_) => s.completions < |s.remoteDescriptions|
    case _ => true
  }

  /** True for the one outcome that sets the session URL: a 2xx status with a `Location` header. */
  predicate GrantsSession(o: PostOutcome)
  {
    o.Response? && IsSuccess(o.status) && o.location.Some?
  }

  /** `sendLocalCandidates`: nothing without a session URL, else one PATCH of the fragment of `cs`. */
  function Sent(s: Session, cs: seq<Candidate>): Session
    requires Ready(s)
  {
    if s.sessionURL.None? then s
    else s.(patches := s.patches + [CandidatePatch(s.sessionURL.value, Fragment(s.localOfferData.value, cs))],
            sent := s.sent + [Sending(s.sessionURL.value, s.localOfferData.value, cs)])
  }

  /** `startStream`'s completion: keep the parsed offer, POST it to `<backchannel>/whip`. */
  function Offered(s: Session, sdp: string): Session
  {
    s.(localOfferData := Some(ParsedOffer(sdp)),
       posts := s.posts + [OfferPost(Endpoint(s.backchannelURL), sdp)],
       offers := s.offers + [sdp])
  }

  /** `sendLocalOffer` after the POST: a granted session sets the URL, and a decoded answer goes to the engine. */
  function Responded(s: Session, o: PostOutcome): Session
  {
    var counted := s.(responses := s.responses + 1);
    if !GrantsSession(o) then counted
    else
      var granted := counted.(sessionURL := Some(AppendingPathComponent(s.backchannelURL, o.location.value)));
      if o.answer.Some? then granted.(remoteDescriptions := s.remoteDescriptions + [o.answer.value]) else granted
  }

  /** The completion of `set(remoteSdp:)`, whatever its error: a non-empty queue is sent as one PATCH, then emptied. */
  function Drained(s: Session): Session
    requires Ready(s)
  {
    var counted := s.(completions := s.completions + 1);
    if s.queuedCandidates == [] then counted
    else Sent(counted, s.queuedCandidates).(queuedCandidates := [])
  }

  /** `didDiscoverLocalCandidate`: PATCHed alone once the session URL is known, queued before. */
  function Discovered(s: Session, c: Candidate): Session
    requires Ready(s)
  {
    var seen := s.(discovered := s.discovered + [c]);
    if s.sessionURL.Some? then Sent(seen, [c]) else seen.(queuedCandidates := s.queuedCandidates + [c])
  }

  function Step(s: Session, e: Event): Session
    requires Ready(s)
  {
    match e
    case OfferCreated(sdp) => Offered(s, sdp)
    case PostResponded(o) => Responded(s, o)
    case RemoteApplied(_) => Drained(s)
    case CandidateDiscovered(c) => Discovered(s, c)
  }

  // ----- the invariant -----

  /** Everything the service keeps true between events. */
  predicate Consistent(s: Session)
  {
    Wellformed(s) && Gated(s) && Conserved(s)
  }

  /**
   * The offer is kept before it is POSTed and an answer is only handed over
   * with a session URL, so `Ready` holds; responses and completions answer
   * requests that were made.
   */
  predicate Wellformed(s: Session)
  {
    Ready(s)
    && (s.posts != [] ==> s.localOfferData.Some?)
    && (s.remoteDescriptions != [] ==> s.sessionURL.Some?)
    && s.responses <= |s.posts| && s.completions <= |s.remoteDescriptions|
  }

  /** No PATCH before the session URL is known, and until then every candidate waits in the queue. */
  predicate Gated(s: Session)
  {
    s.sessionURL.None? ==> s.patches == [] && s.queuedCandidates == s.discovered
  }

  /**
   * The queue holds the first candidates discovered, in order, and every
   * candidate discovered is either still queued or was handed to exactly one
   * sending.
   */
  predicate Conserved(s: Session)
  {
    s.queuedCandidates <= s.discovered
    && multiset(s.discovered) == multiset(s.queuedCandidates) + multiset(SentCandidates(s.sent))
  }

  lemma InitialConsistent(backchannel: string)
    ensures Consistent(Initial(backchannel))
  {
  }

  lemma OfferedKeeps(s: Session, sdp: string)
    requires Consistent(s)
    ensures Consistent(Offered(s, sdp))
  {
  }

  lemma RespondedKeeps(s: Session, o: PostOutcome)
    requires Consistent(s) && s.responses < |s.posts|
    ensures Consistent(Responded(s, o))
  {
  }

  lemma DrainedKeeps(s: Session)
    requires Consistent(s) && s.completions < |s.remoteDescriptions|
    ensures Consistent(Drained(s))
  {
    if s.queuedCandidates != [] {
      SentSnoc(s.sent, Sending(s.sessionURL.value, s.localOfferData.value, s.queuedCandidates));
    }
  }

  lemma DiscoveredKeeps(s: Session, c: Candidate)
    requires Consistent(s)
    ensures Consistent(Discovered(s, c))
  {
    if s.sessionURL.Some? {
      SentSnoc(s.sent, Sending(s.sessionURL.value, s.localOfferData.value, [c]));
    } else {
      assert s.queuedCandidates + [c] == s.discovered + [c];
    }
  }

  lemma StepKeeps(s: Session, e: Event)
    requires Consistent(s) && Enabled(s, e)
    ensures Consistent(Step(s, e))
  {
    match e
    case OfferCreated(sdp) => OfferedKeeps(s, sdp);
    case PostResponded(o) => RespondedKeeps(s, o);
    case RemoteApplied(_) => DrainedKeeps(s);
    case CandidateDiscovered(c) => DiscoveredKeeps(s, c);
  }

  // ----- the requests on the wire -----

  /**
   * The requests are exactly those the service builds: one POST of each
   * offer text, in order, to the WHIP endpoint, and one PATCH of each
   * sending's fragment.
   */
  predicate Logged(s: Session)
  {
    s.posts == PostsOf(Endpoint(s.backchannelURL), s.offers) && s.patches == PatchesOf(s.sent)
  }

  lemma InitialLogged(backchannel: string)
    ensures Logged(Initial(backchannel))
  {
  }

  lemma SentLogs(s: Session, cs: seq<Candidate>)
    requires Ready(s) && Logged(s)
    ensures Logged(Sent(s, cs))
  {
    if s.sessionURL.Some? {
      SentSnoc(s.sent, Sending(s.sessionURL.value, s.localOfferData.value, cs));
    }
  }

  lemma OfferedLogs(s: Session, sdp: string)
    requires Logged(s)
    ensures Logged(Offered(s, sdp))
  {
    PostsSnoc(Endpoint(s.backchannelURL), s.offers, sdp);
  }

  lemma RespondedLogs(s: Session, o: PostOutcome)
    requires Logged(s)
    ensures Logged(Responded(s, o))
  {
    LoggedFrame(s, Responded(s, o));
  }

  lemma DrainedLogs(s: Session)
    requires Ready(s) && Logged(s)
    ensures Logged(Drained(s))
  {
    if s.queuedCandidates == [] {
      LoggedFrame(s, Drained(s));
    } else {
      DrainedLogsSending(s);
    }
  }

  lemma DrainedLogsSending(s: Session)
    requires Ready(s) && Logged(s) && s.queuedCandidates != []
    ensures Logged(Drained(s))
  {
    var counted := s.(completions := s.completions + 1);
    LoggedFrame(s, counted);
    SentLogs(counted, s.queuedCandidates);
    LoggedFrame(Sent(counted, s.queuedCandidates), Drained(s));
  }

  lemma DiscoveredLogs(s: Session, c: Candidate)
    requires Ready(s) && Logged(s)
    ensures Logged(Discovered(s, c))
  {
    var seen := s.(discovered := s.discovered + [c]);
    LoggedFrame(s, seen);
    if s.sessionURL.Some? {
      SentLogs(seen, [c]);
    } else {
      LoggedFrame(seen, Discovered(s, c));
    }
  }

  /** `Logged` reads five fields only. */
  lemma LoggedFrame(s: Session, t: Session)
    requires Logged(s)
    requires t.backchannelURL == s.backchannelURL && t.offers == s.offers && t.posts == s.posts
    requires t.sent == s.sent && t.patches == s.patches
    ensures Logged(t)
  {
  }

  lemma StepLogs(s: Session, e: Event)
    requires Ready(s) && Logged(s)
    ensures Logged(Step(s, e))
  {
    match e
    case OfferCreated(sdp) => OfferedLogs(s, sdp);
    case PostResponded(o) => RespondedLogs(s, o);
    case RemoteApplied(_) => DrainedLogs(s);
    case CandidateDiscovered(c) => DiscoveredLogs(s, c);
  }

  /** Every run keeps the requests equal to those the service builds. */
  lemma {:induction false} RunLogs(s: Session, es: seq<Event>)
    requires Consistent(s) && Allowed(s, es) && Logged(s)
    ensures Logged(Run(s, es))
    decreases |es|
  {
    if es != [] {
      StepKeeps(s, es[0]);
      StepLogs(s, es[0]);
      RunLogs(Step(s, es[0]), es[1..]);
    }
  }

  /**
   * Every PATCH goes to the session URL of its sending as
   * `application/trickle-ice-sdpfrag` with `If-Match: *`, and its body is the
   * fragment of that sending's offer data and candidates.
   */
  lemma PatchesOnTheWire(s: Session, i: nat)
    requires Logged(s) && i < |s.patches|
    ensures s.patches[i].httpMethod == "PATCH" && s.patches[i].url == s.sent[i].url
    ensures s.patches[i].headers == [("Content-Type", "application/trickle-ice-sdpfrag"), ("If-Match", "*")]
    ensures s.patches[i].body == Fragment(s.sent[i].offer, s.sent[i].candidates)
  {
    PatchesOfAt(s.sent, i);
  }

  /** Every POST goes to `<backchannel>/whip` as `application/sdp`, its body the `i`-th offer the engine created. */
  lemma PostsOnTheWire(s: Session, i: nat)
    requires Logged(s) && i < |s.posts|
    ensures s.posts[i].httpMethod == "POST" && s.posts[i].url == AppendingPathComponent(s.backchannelURL, "whip")
    ensures s.posts[i].headers == [("Content-Type", "application/sdp")]
    ensures s.posts[i].body == s.offers[i]
  {
    PostsOfAt(Endpoint(s.backchannelURL), s.offers, i);
  }

  // ----- runs of events -----

  /** Every event of `es` can happen when its turn comes. */
  predicate Allowed(s: Session, es: seq<Event>)
    requires Consistent(s)
    decreases |es|
  {
    es == [] || (Enabled(s, es[0]) && (StepKeeps(s, es[0]); Allowed(Step(s, es[0]), es[1..])))
  }

  /** The state after the events `es`, one at a time; it is consistent again. */
  function Run(s: Session, es: seq<Event>): (r: Session)
    requires Consistent(s) && Allowed(s, es)
    ensures Consistent(r)
    decreases |es|
  {
    if es == [] then s else StepKeeps(s, es[0]); Run(Step(s, es[0]), es[1..])
  }

  /** The candidates discovered during `es`, in order. */
  function CandidatesOf(es: seq<Event>): seq<Candidate>
  {
    if es == [] then []
    else (if es[0].CandidateDiscovered? then [es[0].candidate] else []) + CandidatesOf(es[1..])
  }

  /** No outcome among `es` grants a session. */
  predicate NoneGrants(es: seq<Event>)
  {
    es == [] || (!(es[0].PostResponded? && GrantsSession(es[0].outcome)) && NoneGrants(es[1..]))
  }

  /** Once set, the session URL stays set. */
  lemma {:induction false} UrlStaysSet(s: Session, es: seq<Event>)
    requires Consistent(s) && Allowed(s, es) && s.sessionURL.Some?
    ensures Run(s, es).sessionURL.Some?
    decreases |es|
  {
    if es != [] {
      StepKeeps(s, es[0]);
      StepAfterGrant(s, es[0]);
      UrlStaysSet(Step(s, es[0]), es[1..]);
    }
  }

  /** Once the session URL is set, the queue never grows: it stays as it was or has been drained. */
  lemma {:induction false} QueueFrozen(s: Session, es: seq<Event>)
    requires Consistent(s) && Allowed(s, es) && s.sessionURL.Some?
    ensures Run(s, es).queuedCandidates == s.queuedCandidates || Run(s, es).queuedCandidates == []
    decreases |es|
  {
    if es != [] {
      StepKeeps(s, es[0]);
      StepAfterGrant(s, es[0]);
      QueueFrozen(Step(s, es[0]), es[1..]);
    }
  }

  /** One event after the session URL is set: the URL stays, the queue is kept or drained. */
  lemma StepAfterGrant(s: Session, e: Event)
    requires Ready(s) && s.sessionURL.Some?
    ensures Step(s, e).sessionURL.Some?
    ensures Step(s, e).queuedCandidates == s.queuedCandidates || Step(s, e).queuedCandidates == []
  {
  }

  /** Every candidate the events bring is recorded as discovered, in order. */
  lemma {:induction false} RunDiscovers(s: Session, es: seq<Event>)
    requires Consistent(s) && Allowed(s, es)
    ensures Run(s, es).discovered == s.discovered + CandidatesOf(es)
    decreases |es|
  {
    if es != [] {
      var found := if es[0].CandidateDiscovered? then [es[0].candidate] else [];
      StepKeeps(s, es[0]);
      StepDiscovers(s, es[0]);
      RunDiscovers(Step(s, es[0]), es[1..]);
      AppendAssoc(s.discovered, found, CandidatesOf(es[1..]));
    }
  }

  /** One event adds its candidate, if it brings one, to those discovered. */
  lemma StepDiscovers(s: Session, e: Event)
    requires Ready(s)
    ensures Step(s, e).discovered == s.discovered + (if e.CandidateDiscovered? then [e.candidate] else [])
  {
    if !e.CandidateDiscovered? {
      assert s.discovered + [] == s.discovered;
    }
  }

  /**
   * Without a 2xx response carrying `Location`, no session URL is set and no
   * PATCH is ever sent: every candidate stays queued.
   */
  lemma {:induction false} NoGrantNoPatch(s: Session, es: seq<Event>)
    requires Consistent(s) && Allowed(s, es) && s.sessionURL.None? && NoneGrants(es)
    ensures Run(s, es).sessionURL.None? && Run(s, es).patches == []
    ensures Run(s, es).queuedCandidates == s.queuedCandidates + CandidatesOf(es)
  {
    RunDiscovers(s, es);
    NoGrantKeepsUrl(s, es);
  }

  lemma {:induction false} NoGrantKeepsUrl(s: Session, es: seq<Event>)
    requires Consistent(s) && Allowed(s, es) && s.sessionURL.None? && NoneGrants(es)
    ensures Run(s, es).sessionURL.None?
    decreases |es|
  {
    if es != [] {
      StepKeeps(s, es[0]);
      NoGrantKeepsUrl(Step(s, es[0]), es[1..]);
    }
  }

  /** No offer is created during `es`. */
  predicate NoOffer(es: seq<Event>)
  {
    es == [] || (!es[0].OfferCreated? && NoOffer(es[1..]))
  }

  /**
   * Once every POST has its response, the session URL keeps its value until
   * a new offer is POSTed: for one offer it is assigned at most once.
   */
  lemma {:induction false} UrlSettled(s: Session, es: seq<Event>)
    requires Consistent(s) && Allowed(s, es) && s.responses == |s.posts| && NoOffer(es)
    ensures Run(s, es).sessionURL == s.sessionURL
    decreases |es|
  {
    if es != [] {
      StepKeeps(s, es[0]);
      QuietStep(s, es[0]);
      UrlSettled(Step(s, es[0]), es[1..]);
    }
  }

  /** With every POST answered, an event other than an offer leaves the URL, the POSTs, the responses and the answers alone. */
  lemma QuietStep(s: Session, e: Event)
    requires Ready(s) && Enabled(s, e) && !e.OfferCreated? && s.responses == |s.posts|
    ensures Step(s, e).sessionURL == s.sessionURL && Step(s, e).posts == s.posts && Step(s, e).responses == s.responses
    ensures Step(s, e).remoteDescriptions == s.remoteDescriptions
  {
  }

  /**
   * With every POST answered and every answer applied, nothing drains the
   * queue any more: later events leave it exactly as it is.
   */
  lemma {:induction false} QueueStranded(s: Session, es: seq<Event>)
    requires Consistent(s) && Allowed(s, es) && s.sessionURL.Some? && NoOffer(es)
    requires s.responses == |s.posts| && s.completions == |s.remoteDescriptions|
    ensures Run(s, es).queuedCandidates == s.queuedCandidates
    decreases |es|
  {
    if es != [] {
      StepKeeps(s, es[0]);
      QuietStep(s, es[0]);
      StrandedStep(s, es[0]);
      QueueStranded(Step(s, es[0]), es[1..]);
    }
  }

  /** One such event keeps the queue and the count of completions. */
  lemma StrandedStep(s: Session, e: Event)
    requires Ready(s) && Enabled(s, e) && !e.OfferCreated? && s.sessionURL.Some?
    requires s.responses == |s.posts| && s.completions == |s.remoteDescriptions|
    ensures Step(s, e).queuedCandidates == s.queuedCandidates && Step(s, e).completions == s.completions
  {
  }

  /**
   * A 2xx with `Location` whose body does not decode, answering the last
   * POST: the session URL is set and stays, but the candidates queued before
   * it are never sent, whatever follows short of a new offer.
   */
  lemma UndecodedAnswerStrandsQueue(s: Session, status: int, location: string, es: seq<Event>)
    requires Consistent(s) && IsSuccess(status)
    requires s.responses + 1 == |s.posts| && s.completions == |s.remoteDescriptions|
    requires Consistent(Responded(s, Response(status, Some(location), None)))
    requires Allowed(Responded(s, Response(status, Some(location), None)), es) && NoOffer(es)
    ensures Run(Responded(s, Response(status, Some(location), None)), es).sessionURL
         == Some(AppendingPathComponent(s.backchannelURL, location))
    ensures Run(Responded(s, Response(status, Some(location), None)), es).queuedCandidates == s.queuedCandidates
  {
    var t := Responded(s, Response(status, Some(location), None));
    UrlSettled(t, es);
    QueueStranded(t, es);
  }

  // ----- one event at a time -----

  /** A response sets the session URL only when it grants one: a 2xx status with `Location`, resolved against the backchannel. */
  lemma UrlOnlyFromGrant(s: Session, o: PostOutcome)
    ensures Responded(s, o).sessionURL != s.sessionURL ==> GrantsSession(o)
    ensures GrantsSession(o) ==> Responded(s, o).sessionURL == Some(AppendingPathComponent(s.backchannelURL, o.location.value))
    ensures Responded(s, o).patches == s.patches && Responded(s, o).queuedCandidates == s.queuedCandidates
  {
  }

  /**
   * The drain sends the whole queue, the first candidates discovered in
   * arrival order, as one PATCH, and leaves the queue empty; an empty queue
   * sends nothing.
   */
  lemma DrainSendsQueue(s: Session)
    requires Consistent(s) && s.completions < |s.remoteDescriptions|
    ensures Drained(s).queuedCandidates == []
    ensures s.queuedCandidates == [] ==> Drained(s).patches == s.patches
    ensures s.queuedCandidates != [] ==>
              s.queuedCandidates == s.discovered[..|s.queuedCandidates|]
              && Drained(s).sent == s.sent + [Sending(s.sessionURL.value, s.localOfferData.value, s.queuedCandidates)]
              && Drained(s).patches
                 == s.patches + [CandidatePatch(s.sessionURL.value, Fragment(s.localOfferData.value, s.queuedCandidates))]
  {
  }

  /** A candidate found before the session URL joins the queue; one found after is PATCHed alone. */
  lemma CandidateGate(s: Session, c: Candidate)
    requires Consistent(s)
    ensures s.sessionURL.None? ==>
              Discovered(s, c).queuedCandidates == s.queuedCandidates + [c] && Discovered(s, c).patches == []
    ensures s.sessionURL.Some? ==>
              Discovered(s, c).queuedCandidates == s.queuedCandidates
              && Discovered(s, c).patches
                 == s.patches + [CandidatePatch(s.sessionURL.value, Fragment(s.localOfferData.value, [c]))]
  {
  }

  // ----- the object -----

  class PublishService {
    /** The base URL that the WHIP endpoint and the session resource are resolved against. */
    const backchannelURL: string

    var queuedCandidates: seq<Candidate>
    var sessionURL: Option<string>
    var localOfferData: Option<OfferData>

    /** Requests issued, in order, and answers handed to the engine. */
    var posts: seq<HttpRequest>
    var patches: seq<HttpRequest>
    var remoteDescriptions: seq<string>

    ghost var offers: seq<string>
    ghost var sent: seq<Sending>
    ghost var discovered: seq<Candidate>
    ghost var responses: nat
    ghost var completions: nat

    /** The object's state as a `Session`. */
    ghost function View(): Session
      reads this
    {
      Session(backchannelURL, queuedCandidates, sessionURL, localOfferData, posts, patches, remoteDescriptions,
              offers, sent, discovered, responses, completions)
    }

    ghost predicate Valid()
      reads this
    {
      Wellformed(View())
    }

    /** `init`: nothing queued, no session, no offer, nothing sent. */
    constructor (backchannel: string)
      ensures Valid() && View() == Initial(backchannel)
    {
      backchannelURL := backchannel;
      queuedCandidates := [];
      sessionURL := None;
      localOfferData := None;
      posts := [];
      patches := [];
      remoteDescriptions := [];
      offers := [];
      sent := [];
      discovered := [];
      responses := 0;
      completions := 0;
    }

    /** The completion of `webRTCClient.offer` in `startStream`, then `sendLocalOffer`'s POST. */
    method OnOfferCreated(sdp: string)
      requires Valid()
      modifies this`localOfferData, this`posts, this`offers
      ensures Valid() && View() == Step(old(View()), OfferCreated(sdp))
    {
      var offerData := ParseOffer(sdp);
      localOfferData := Some(offerData);
      posts := posts + [OfferPost(Endpoint(backchannelURL), sdp)];
      offers := offers + [sdp];
    }

    /** The rest of `sendLocalOffer`, once the POST has come back. */
    method OnPostResponse(outcome: PostOutcome)
      requires Valid() && Enabled(View(), PostResponded(outcome))
      modifies this`sessionURL, this`remoteDescriptions, this`responses
      ensures Valid() && View() == Step(old(View()), PostResponded(outcome))
    {
      responses := responses + 1;
      if outcome.Response? && IsSuccess(outcome.status) {
        if outcome.location.Some? {
          sessionURL := Some(AppendingPathComponent(backchannelURL, outcome.location.value));
        } else {
          return;
        }
        if outcome.answer.Some? {
          remoteDescriptions := remoteDescriptions + [outcome.answer.value];
        }
      }
    }

    /** The completion handler of `set(remoteSdp:)`. */
    method OnRemoteApplied(error: Option<string>)
      requires Valid() && Enabled(View(), RemoteApplied(error))
      modifies this`queuedCandidates, this`patches, this`sent, this`completions
      ensures Valid() && View() == Step(old(View()), RemoteApplied(error))
    {
      completions := completions + 1;
      if queuedCandidates != [] {
        SendLocalCandidates(queuedCandidates);
        queuedCandidates := [];
      }
    }

    /** `webRTCClient(_:didDiscoverLocalCandidate:)`. */
    method OnCandidate(c: Candidate)
      requires Valid()
      modifies this`queuedCandidates, this`patches, this`sent, this`discovered
      ensures Valid() && View() == Step(old(View()), CandidateDiscovered(c))
    {
      discovered := discovered + [c];
      if sessionURL.Some? {
        SendLocalCandidates([c]);
      } else {
        queuedCandidates := queuedCandidates + [c];
      }
    }

    /** `sendLocalCandidates`. */
    method SendLocalCandidates(candidates: seq<Candidate>)
      requires Ready(View())
      modifies this`patches, this`sent
      ensures View() == Sent(old(View()), candidates)
    {
      if sessionURL.None? {
        return;
      }
      var sdpFragment := GenerateSdpFragment(localOfferData.value, candidates);
      patches := patches + [CandidatePatch(sessionURL.value, sdpFragment)];
      sent := sent + [Sending(sessionURL.value, localOfferData.value, candidates)];
    }
  }

  // ----- the two worked scenarios -----

  /**
   * Three candidates arrive before the POST response; the response grants a
   * session at `location`, the answer is applied, and a fourth candidate
   * arrives: one PATCH carries the three, a second one the fourth alone.
   */
  method FourCandidates(backchannel: string, sdp: string, location: string, answer: string,
                        c1: Candidate, c2: Candidate, c3: Candidate, c4: Candidate)
    returns (patches: seq<HttpRequest>)
    ensures patches == [CandidatePatch(AppendingPathComponent(backchannel, location), Fragment(ParsedOffer(sdp), [c1, c2, c3])),
                        CandidatePatch(AppendingPathComponent(backchannel, location), Fragment(ParsedOffer(sdp), [c4]))]
  {
    var service := QueueBeforeAnswer(backchannel, sdp, c1, c2, c3);
    var url := AppendingPathComponent(backchannel, location);
    service.OnPostResponse(Response(201, Some(location), Some(answer)));
    service.OnRemoteApplied(None);
    assert service.patches == [CandidatePatch(url, Fragment(ParsedOffer(sdp), [c1, c2, c3]))];
    service.OnCandidate(c4);
    patches := service.patches;
  }

  /** The first half of the scenario: the offer is POSTed and three candidates wait in the queue. */
  method QueueBeforeAnswer(backchannel: string, sdp: string, c1: Candidate, c2: Candidate, c3: Candidate)
    returns (service: PublishService)
    ensures fresh(service) && service.Valid() && service.backchannelURL == backchannel
    ensures service.sessionURL == None && service.localOfferData == Some(ParsedOffer(sdp))
    ensures service.queuedCandidates == [c1, c2, c3] && service.patches == [] && service.sent == []
    ensures |service.posts| == 1 && service.responses == 0 && service.remoteDescriptions == [] && service.completions == 0
  {
    service := new PublishService(backchannel);
    service.OnOfferCreated(sdp);
    service.OnCandidate(c1);
    service.OnCandidate(c2);
    service.OnCandidate(c3);
  }

  /** A 201 without `Location`: no session URL, so the candidates that follow are only queued and nothing is PATCHed. */
  method MissingLocation(backchannel: string, sdp: string, answer: string, c1: Candidate, c2: Candidate)
    returns (patches: seq<HttpRequest>, queued: seq<Candidate>)
    ensures patches == [] && queued == [c1, c2]
  {
    var service := new PublishService(backchannel);
    service.OnOfferCreated(sdp);
    service.OnPostResponse(Response(201, None, Some(answer)));
    service.OnCandidate(c1);
    service.OnCandidate(c2);
    patches, queued := service.patches, service.queuedCandidates;
  }
}
