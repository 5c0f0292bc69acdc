/**
 * The trickle-ICE fragment encoder of the publish service: the
 * `application/trickle-ice-sdpfrag` body of RFC 8840 section 9 that a WHIP
 * client (RFC 9725) PATCHes to its session resource.
 *
 * `Fragment` is the reference: the credential header, then, for every media
 * index in order whose candidates are present, an `m=` line, an `a=mid:` line
 * and one `a=` line per candidate, every line ended by CRLF.
 * `GenerateSdpFragment` is the service's code (a dictionary from media index
 * to candidates, a running `mid` counter, a string built by appending),
 * proved to compute it.
 */
module SdpFragment {
  import opened SdpText
  import opened OfferParser

  /** A locally discovered ICE candidate: its media line index and its attribute text. */
  datatype Candidate = Candidate(sdpMLineIndex: int, sdp: string)

  /** The candidates of media index `i`, in input order. */
  function Group(cs: seq<Candidate>, i: int): seq<Candidate>
  {
    if |cs| == 0 then []
    else (if cs[0].sdpMLineIndex == i then [cs[0]] else []) + Group(cs[1..], i)
  }

  /** The candidates whose index names one of the first `n` media lines, in input order. */
  function InRange(cs: seq<Candidate>, n: nat): seq<Candidate>
  {
    if |cs| == 0 then []
    else (if 0 <= cs[0].sdpMLineIndex < n then [cs[0]] else []) + InRange(cs[1..], n)
  }

  /**
   * A line of the fragment, before it is written out: the two credentials,
   * the opening `m=` and `a=mid:` lines of a media section, and a candidate.
   */
  datatype SdpLine =
    | UfragLine(ufrag: string)
    | PwdLine(pwd: string)
    | MediaLine(media: string)
    | MidLine(mid: nat)
    | CandidateLine(candidate: Candidate)

  function LineText(l: SdpLine): string
  {
    match l
    case UfragLine(u) => "a=ice-ufrag:" + u
    case PwdLine(p) => "a=ice-pwd:" + p
    case MediaLine(m) => "m=" + m
    case MidLine(mid) => "a=mid:" + NatToDecimal(mid)
    case CandidateLine(c) => "a=" + c.sdp
  }

  function Texts(ls: seq<SdpLine>): (r: seq<string>)
    ensures |r| == |ls|
  {
    if |ls| == 0 then [] else [LineText(ls[0])] + Texts(ls[1..])
  }

  function CandidateLines(g: seq<Candidate>): seq<SdpLine>
  {
    if |g| == 0 then [] else [CandidateLine(g[0])] + CandidateLines(g[1..])
  }

  function HeaderLines(d: OfferData): seq<SdpLine>
  {
    [UfragLine(d.iceUfrag), PwdLine(d.icePwd)]
  }

  /** The lines of one media section: nothing at all when it has no candidates. */
  function SectionLines(media: string, mid: nat, g: seq<Candidate>): seq<SdpLine>
  {
    if |g| == 0 then [] else [MediaLine(media), MidLine(mid)] + CandidateLines(g)
  }

  /** The sections of the first `n` media lines, in media order. */
  function SectionsUpTo(medias: seq<string>, cs: seq<Candidate>, n: nat): seq<SdpLine>
    requires n <= |medias|
  {
    if n == 0 then []
    else SectionsUpTo(medias, cs, n - 1) + SectionLines(medias[n - 1], n - 1, Group(cs, n - 1))
  }

  function FragmentLines(d: OfferData, cs: seq<Candidate>): seq<SdpLine>
  {
    HeaderLines(d) + SectionsUpTo(d.medias, cs, |d.medias|)
  }

  /** The text of some lines, each ended by CRLF. */
  function Render(ls: seq<SdpLine>): string
  {
    Terminated(Texts(ls))
  }

  /** The PATCH body for candidates `cs`. */
  function Fragment(d: OfferData, cs: seq<Candidate>): string
  {
    Render(FragmentLines(d, cs))
  }

  /** True when `byMedia` maps each media index to its non-empty group of candidates, and holds no other key. */
  ghost predicate GroupedBy(byMedia: map<int, seq<Candidate>>, cs: seq<Candidate>)
  {
    forall k :: GroupedAtKey(byMedia, cs, k)
  }

  /** Key `k` is present exactly when its group is non-empty, and then maps to that group. */
  ghost predicate GroupedAtKey(byMedia: map<int, seq<Candidate>>, cs: seq<Candidate>, k: int)
  {
    (k in byMedia <==> Group(cs, k) != []) && (k in byMedia ==> byMedia[k] == Group(cs, k))
  }

  lemma GroupedAt(byMedia: map<int, seq<Candidate>>, cs: seq<Candidate>, k: int)
    requires GroupedBy(byMedia, cs)
    ensures k in byMedia <==> Group(cs, k) != []
    ensures k in byMedia ==> byMedia[k] == Group(cs, k)
  {
    assert GroupedAtKey(byMedia, cs, k);
  }

  /** The first loop of `generateSdpFragment`: the dictionary `candidatesByMedia`. */
  method GroupByMedia(candidates: seq<Candidate>) returns (candidatesByMedia: map<int, seq<Candidate>>)
    ensures GroupedBy(candidatesByMedia, candidates)
  {
    candidatesByMedia := map[];
    for i := 0 to |candidates|
      invariant GroupedBy(candidatesByMedia, candidates[..i])
    {
      var candidate := candidates[i];
      GroupSnoc(candidates[..i], candidate);
      assert candidates[..i + 1] == candidates[..i] + [candidate];
      ghost var previous := candidatesByMedia;
      if candidate.sdpMLineIndex !in candidatesByMedia {
        candidatesByMedia := candidatesByMedia[candidate.sdpMLineIndex := []];
      }
      candidatesByMedia := candidatesByMedia[candidate.sdpMLineIndex :=
        candidatesByMedia[candidate.sdpMLineIndex] + [candidate]];
      forall k {:trigger GroupedAtKey(candidatesByMedia, candidates[..i + 1], k)}
        ensures GroupedAtKey(candidatesByMedia, candidates[..i + 1], k)
      {
        assert GroupedAtKey(previous, candidates[..i], k);
      }
    }
    assert candidates[..|candidates|] == candidates;
  }

  /** `generateSdpFragment`. */
  method GenerateSdpFragment(offerData: OfferData, candidates: seq<Candidate>) returns (frag: string)
    ensures frag == Fragment(offerData, candidates)
  {
    var candidatesByMedia := GroupByMedia(candidates);
    HeaderText(offerData, candidates);
    frag := "a=ice-ufrag:" + offerData.iceUfrag + CRLF() + "a=ice-pwd:" + offerData.icePwd + CRLF();
    ghost var lines := HeaderLines(offerData) + SectionsUpTo(offerData.medias, candidates, 0);
    for mid := 0 to |offerData.medias|
      invariant lines == HeaderLines(offerData) + SectionsUpTo(offerData.medias, candidates, mid)
      invariant frag == Render(lines)
    {
      var media := offerData.medias[mid];
      SectionAt(offerData, candidates, candidatesByMedia, mid, lines);
      if mid in candidatesByMedia {
        OpeningText(lines, media, mid);
        frag := frag + "m=" + media + CRLF() + "a=mid:" + NatToDecimal(mid) + CRLF();
        frag := AppendCandidates(frag, lines + [MediaLine(media), MidLine(mid)], candidatesByMedia[mid]);
      }
      lines := lines + SectionLines(media, mid, Group(candidates, mid));
    }
  }

  /** The innermost loop of `generateSdpFragment`: one `a=` line per candidate of a media line, in order. */
  method AppendCandidates(prefix: string, ghost before: seq<SdpLine>, mediaCandidates: seq<Candidate>) returns (frag: string)
    requires prefix == Render(before)
    ensures frag == Render(before + CandidateLines(mediaCandidates))
  {
    frag := prefix;
    ghost var written := before;
    assert mediaCandidates[..0] == [];
    for j := 0 to |mediaCandidates|
      invariant written == before + CandidateLines(mediaCandidates[..j])
      invariant frag == Render(written)
    {
      CandidatesSnoc(before, mediaCandidates, j);
      CandidateLineText(written, mediaCandidates[j]);
      frag := frag + "a=" + mediaCandidates[j].sdp + CRLF();
      written := written + [CandidateLine(mediaCandidates[j])];
    }
    assert mediaCandidates[..|mediaCandidates|] == mediaCandidates;
  }

  // ----- lemmas used by the method -----

  lemma {:induction false} GroupSnoc(cs: seq<Candidate>, c: Candidate)
    ensures forall k :: Group(cs + [c], k) == Group(cs, k) + (if c.sdpMLineIndex == k then [c] else [])
  {
    if cs == [] {
      assert cs + [c] == [c];
    } else {
      ConsAppend(cs, [c]);
      GroupSnoc(cs[1..], c);
    }
  }

  lemma {:induction false} CandidateLinesAppend(a: seq<Candidate>, b: seq<Candidate>)
    ensures CandidateLines(a + b) == CandidateLines(a) + CandidateLines(b)
  {
    if a == [] {
      assert a + b == b;
    } else {
      ConsAppend(a, b);
      CandidateLinesAppend(a[1..], b);
    }
  }

  lemma {:induction false} TextsAppend(a: seq<SdpLine>, b: seq<SdpLine>)
    ensures Texts(a + b) == Texts(a) + Texts(b)
  {
    if a == [] {
      assert a + b == b;
    } else {
      ConsAppend(a, b);
      TextsAppend(a[1..], b);
    }
  }

  lemma RenderAppend(a: seq<SdpLine>, b: seq<SdpLine>)
    ensures Render(a + b) == Render(a) + Render(b)
  {
    TextsAppend(a, b);
    TerminatedAppend(Texts(a), Texts(b));
  }

  lemma RenderOne(l: SdpLine)
    ensures Render([l]) == LineText(l) + CRLF()
  {
    assert [l][1..] == [];
    assert Texts([l]) == [LineText(l)];
    assert Terminated([LineText(l)]) == LineText(l) + CRLF() + Terminated([]);
  }

  lemma HeaderRender(d: OfferData)
    ensures Render(HeaderLines(d)) == "a=ice-ufrag:" + d.iceUfrag + CRLF() + "a=ice-pwd:" + d.icePwd + CRLF()
  {
    var u := UfragLine(d.iceUfrag);
    var p := PwdLine(d.icePwd);
    assert HeaderLines(d) == [u] + [p];
    RenderAppend([u], [p]);
    RenderOne(u);
    RenderOne(p);
  }

  lemma HeaderText(d: OfferData, cs: seq<Candidate>)
    ensures Render(HeaderLines(d) + SectionsUpTo(d.medias, cs, 0))
         == "a=ice-ufrag:" + d.iceUfrag + CRLF() + "a=ice-pwd:" + d.icePwd + CRLF()
  {
    assert HeaderLines(d) + SectionsUpTo(d.medias, cs, 0) == HeaderLines(d);
    HeaderRender(d);
  }

  lemma OpeningText(before: seq<SdpLine>, media: string, mid: nat)
    ensures Render(before + [MediaLine(media), MidLine(mid)])
         == Render(before) + "m=" + media + CRLF() + "a=mid:" + NatToDecimal(mid) + CRLF()
  {
    var m := MediaLine(media);
    var i := MidLine(mid);
    assert before + [m, i] == (before + [m]) + [i];
    RenderAppend(before + [m], [i]);
    RenderAppend(before, [m]);
    RenderOne(m);
    RenderOne(i);
  }

  lemma CandidateLineText(w: seq<SdpLine>, c: Candidate)
    ensures Render(w + [CandidateLine(c)]) == Render(w) + "a=" + c.sdp + CRLF()
  {
    RenderAppend(w, [CandidateLine(c)]);
    RenderOne(CandidateLine(c));
    var r := Render(w);
    assert r + (("a=" + c.sdp) + CRLF()) == ((r + "a=") + c.sdp) + CRLF();
  }

  lemma CandidatesSnoc(prefix: seq<SdpLine>, g: seq<Candidate>, j: nat)
    requires j < |g|
    ensures prefix + CandidateLines(g[..j + 1]) == (prefix + CandidateLines(g[..j])) + [CandidateLine(g[j])]
  {
    assert g[..j + 1] == g[..j] + [g[j]];
    CandidateLinesAppend(g[..j], [g[j]]);
    assert CandidateLines([g[j]]) == [CandidateLine(g[j])] by {
      assert [g[j]][1..] == [];
    }
  }

  /**
   * Media line `mid` in the dictionary: with a key, its section is its `m=`
   * and `a=mid:` lines and then its candidates; without one it adds nothing.
   */
  lemma SectionAt(d: OfferData, cs: seq<Candidate>, byMedia: map<int, seq<Candidate>>, mid: nat, before: seq<SdpLine>)
    requires mid < |d.medias| && GroupedBy(byMedia, cs)
    ensures mid !in byMedia ==> before + SectionLines(d.medias[mid], mid, Group(cs, mid)) == before
    ensures mid in byMedia ==>
      before + SectionLines(d.medias[mid], mid, Group(cs, mid))
      == (before + [MediaLine(d.medias[mid]), MidLine(mid)]) + CandidateLines(byMedia[mid])
    ensures HeaderLines(d) + SectionsUpTo(d.medias, cs, mid + 1)
         == (HeaderLines(d) + SectionsUpTo(d.medias, cs, mid)) + SectionLines(d.medias[mid], mid, Group(cs, mid))
  {
    GroupedAt(byMedia, cs, mid);
    SectionStep(d, cs, mid);
  }

  /** The lines after media `mid`: those up to it, then its section. */
  lemma SectionStep(d: OfferData, cs: seq<Candidate>, mid: nat)
    requires mid < |d.medias|
    ensures HeaderLines(d) + SectionsUpTo(d.medias, cs, mid + 1)
         == (HeaderLines(d) + SectionsUpTo(d.medias, cs, mid)) + SectionLines(d.medias[mid], mid, Group(cs, mid))
  {
    var h := HeaderLines(d);
    var s := SectionsUpTo(d.medias, cs, mid);
    var t := SectionLines(d.medias[mid], mid, Group(cs, mid));
    assert SectionsUpTo(d.medias, cs, mid + 1) == s + t;
    assert h + (s + t) == (h + s) + t;
  }

  // ----- what the encoder promises -----

  /** The header of every fragment: both credentials of the offer, verbatim, each line ended by CRLF; the fragment ends in CRLF. */
  lemma FragmentHeader(d: OfferData, cs: seq<Candidate>)
    ensures HasPrefix(Fragment(d, cs), "a=ice-ufrag:" + d.iceUfrag + CRLF() + "a=ice-pwd:" + d.icePwd + CRLF())
    ensures |Fragment(d, cs)| >= 2 && Fragment(d, cs)[|Fragment(d, cs)| - 2..] == CRLF()
  {
    RenderAppend(HeaderLines(d), SectionsUpTo(d.medias, cs, |d.medias|));
    HeaderText(d, cs);
    assert HeaderLines(d) + SectionsUpTo(d.medias, cs, 0) == HeaderLines(d);
    TerminatedEndsWithCrlf(Texts(FragmentLines(d, cs)));
  }

  // ----- reading a fragment back -----

  /** The fragment as its ufrag line, its pwd line, each ended by CRLF, and then the media sections. */
  lemma FragmentOpening(d: OfferData, cs: seq<Candidate>)
    ensures Fragment(d, cs)
         == (UfragPrefix() + d.iceUfrag) + CRLF()
            + ((PwdPrefix() + d.icePwd) + CRLF() + Render(SectionsUpTo(d.medias, cs, |d.medias|)))
  {
    var a := UfragPrefix() + d.iceUfrag + CRLF();
    var b := PwdPrefix() + d.icePwd + CRLF();
    RenderAppend(HeaderLines(d), SectionsUpTo(d.medias, cs, |d.medias|));
    HeaderRender(d);
    assert "a=ice-ufrag:" + d.iceUfrag + CRLF() + "a=ice-pwd:" + d.icePwd + CRLF() == a + b;
    AppendAssoc(a, b, Render(SectionsUpTo(d.medias, cs, |d.medias|)));
  }

  /** A credential line is free of CRLF when its value is. */
  lemma CredentialLinesNoCrlf(d: OfferData)
    requires !ContainsCrlf(d.iceUfrag) && !ContainsCrlf(d.icePwd)
    ensures !ContainsCrlf(UfragPrefix() + d.iceUfrag) && !ContainsCrlf(PwdPrefix() + d.icePwd)
  {
    NoCrNoCrlf(UfragPrefix());
    ConcatNoCrlf(UfragPrefix(), d.iceUfrag);
    NoCrNoCrlf(PwdPrefix());
    ConcatNoCrlf(PwdPrefix(), d.icePwd);
  }

  /**
   * Round trip through the offer parser: reading a fragment back as an SDP
   * text gives the credentials it was written from, whatever the candidates.
   */
  lemma FragmentCredentialsParseBack(d: OfferData, cs: seq<Candidate>)
    requires d.iceUfrag != "" && d.icePwd != ""
    requires !ContainsCrlf(d.iceUfrag) && !ContainsCrlf(d.icePwd)
    ensures ParsedOffer(Fragment(d, cs)).iceUfrag == d.iceUfrag
    ensures ParsedOffer(Fragment(d, cs)).icePwd == d.icePwd
  {
    var rest := Render(SectionsUpTo(d.medias, cs, |d.medias|));
    FragmentOpening(d, cs);
    CredentialLinesNoCrlf(d);
    SplitTwoLines(UfragPrefix() + d.iceUfrag, PwdPrefix() + d.icePwd, rest);
    CredentialLinesFirst(d.iceUfrag, d.icePwd, Split(rest));
  }

  lemma {:induction false} GroupOfInRange(cs: seq<Candidate>, n: nat, i: int)
    requires 0 <= i < n
    ensures Group(InRange(cs, n), i) == Group(cs, i)
  {
    if cs != [] {
      GroupOfInRange(cs[1..], n, i);
      var head := if 0 <= cs[0].sdpMLineIndex < n then [cs[0]] else [];
      GroupAppend(head, InRange(cs[1..], n), i);
    }
  }

  lemma {:induction false} GroupAppend(a: seq<Candidate>, b: seq<Candidate>, i: int)
    ensures Group(a + b, i) == Group(a, i) + Group(b, i)
  {
    if a == [] {
      assert a + b == b;
    } else {
      ConsAppend(a, b);
      GroupAppend(a[1..], b, i);
    }
  }

  /** `cs` and `ds` put the same candidates, in the same order, under each of the first `n` media indices. */
  ghost predicate GroupsAgree(cs: seq<Candidate>, ds: seq<Candidate>, n: nat)
  {
    n == 0 || (GroupsAgree(cs, ds, n - 1) && Group(cs, n - 1) == Group(ds, n - 1))
  }

  /** The sections depend on the candidates only through their groups. */
  lemma {:induction false} SectionsOfGroups(medias: seq<string>, cs: seq<Candidate>, ds: seq<Candidate>, n: nat)
    requires n <= |medias| && GroupsAgree(cs, ds, n)
    ensures SectionsUpTo(medias, cs, n) == SectionsUpTo(medias, ds, n)
  {
    if n > 0 {
      SectionsOfGroups(medias, cs, ds, n - 1);
      SectionsUpToStep(medias, cs, n);
      SectionsUpToStep(medias, ds, n);
    }
  }

  lemma {:induction false} GroupsAgreeInRange(cs: seq<Candidate>, m: nat, n: nat)
    requires n <= m
    ensures GroupsAgree(cs, InRange(cs, m), n)
  {
    if n > 0 {
      GroupsAgreeInRange(cs, m, n - 1);
      GroupOfInRange(cs, m, n - 1);
    }
  }

  /** Dropping the candidates that name none of the first `m` media lines leaves those sections unchanged. */
  lemma SectionsOfInRange(medias: seq<string>, cs: seq<Candidate>, m: nat, n: nat)
    requires n <= m && n <= |medias|
    ensures SectionsUpTo(medias, cs, n) == SectionsUpTo(medias, InRange(cs, m), n)
  {
    GroupsAgreeInRange(cs, m, n);
    SectionsOfGroups(medias, cs, InRange(cs, m), n);
  }

  /** Candidates whose index is negative or names no media line never reach the fragment. */
  lemma OutOfRangeIgnored(d: OfferData, cs: seq<Candidate>)
    ensures Fragment(d, cs) == Fragment(d, InRange(cs, |d.medias|))
  {
    SectionsOfInRange(d.medias, cs, |d.medias|, |d.medias|);
  }

  lemma {:induction false} GroupEmpty(cs: seq<Candidate>, i: int)
    ensures Group(cs, i) == [] <==> forall k :: 0 <= k < |cs| ==> cs[k].sdpMLineIndex != i
  {
    if cs != [] {
      GroupEmpty(cs[1..], i);
      assert forall k :: 1 <= k < |cs| ==> cs[k] == cs[1..][k - 1];
    }
  }

  lemma {:induction false} InRangeEmpty(cs: seq<Candidate>, n: nat)
    ensures InRange(cs, n) == [] <==> forall k :: 0 <= k < |cs| ==> !(0 <= cs[k].sdpMLineIndex < n)
  {
    if cs != [] {
      InRangeEmpty(cs[1..], n);
      assert forall k :: 1 <= k < |cs| ==> cs[k] == cs[1..][k - 1];
    }
  }

  lemma {:induction false} InRangeGrowsLength(cs: seq<Candidate>, n: nat)
    requires n > 0
    ensures |InRange(cs, n)| == |InRange(cs, n - 1)| + |Group(cs, n - 1)|
  {
    if cs != [] {
      InRangeGrowsLength(cs[1..], n);
    }
  }

  /** When none of the first `n` media lines has a candidate, their sections are all empty. */
  lemma {:induction false} SectionsNone(medias: seq<string>, cs: seq<Candidate>, n: nat)
    requires n <= |medias| && Emitted(cs, n) == []
    ensures SectionsUpTo(medias, cs, n) == []
  {
    if n > 0 {
      SectionsNone(medias, cs, n - 1);
      SectionsUpToStep(medias, cs, n);
    }
  }

  /** The fragment is the bare header exactly when no candidate names one of the media lines. */
  lemma HeaderOnlyIffNoCandidateInRange(d: OfferData, cs: seq<Candidate>)
    ensures FragmentLines(d, cs) == HeaderLines(d)
        <==> forall k :: 0 <= k < |cs| ==> !(0 <= cs[k].sdpMLineIndex < |d.medias|)
  {
    var n := |d.medias|;
    var sections := SectionsUpTo(d.medias, cs, n);
    EmittedLength(cs, n);
    InRangeEmpty(cs, n);
    SectionsCarryGroups(d.medias, cs, n);
    if Emitted(cs, n) == [] {
      SectionsNone(d.medias, cs, n);
    }
    assert FragmentLines(d, cs) == HeaderLines(d) + sections;
    assert FragmentLines(d, cs) == HeaderLines(d) <==> sections == [];
  }

  /** The candidates carried by the candidate lines among `ls`, in order. */
  function AttrCandidates(ls: seq<SdpLine>): seq<Candidate>
  {
    if |ls| == 0 then []
    else (if ls[0].CandidateLine? then [ls[0].candidate] else []) + AttrCandidates(ls[1..])
  }

  lemma {:induction false} AttrCandidatesAppend(a: seq<SdpLine>, b: seq<SdpLine>)
    ensures AttrCandidates(a + b) == AttrCandidates(a) + AttrCandidates(b)
  {
    if a == [] {
      assert a + b == b;
    } else {
      ConsAppend(a, b);
      AttrCandidatesAppend(a[1..], b);
    }
  }

  /** A section carries its group of candidates, in input order. */
  lemma {:induction false} SectionCarriesGroup(media: string, mid: nat, g: seq<Candidate>)
    ensures AttrCandidates(SectionLines(media, mid, g)) == g
  {
    if g != [] {
      var opening := [MediaLine(media), MidLine(mid)];
      AttrCandidatesAppend(opening, CandidateLines(g));
      assert AttrCandidates(opening) == [] by {
        assert opening[1..][1..] == [];
      }
      CandidateLinesCarry(g);
    }
  }

  lemma {:induction false} CandidateLinesCarry(g: seq<Candidate>)
    ensures AttrCandidates(CandidateLines(g)) == g
  {
    if g != [] {
      CandidateLinesCarry(g[1..]);
      var ls := CandidateLines(g);
      assert ls[0] == CandidateLine(g[0]) && ls[1..] == CandidateLines(g[1..]);
    }
  }

  /** The candidates of the sections of the first `n` media lines, section after section. */
  function Emitted(cs: seq<Candidate>, n: nat): seq<Candidate>
  {
    if n == 0 then [] else Emitted(cs, n - 1) + Group(cs, n - 1)
  }

  lemma SectionsAttrStep(medias: seq<string>, cs: seq<Candidate>, n: nat)
    requires 0 < n <= |medias|
    ensures AttrCandidates(SectionsUpTo(medias, cs, n))
         == AttrCandidates(SectionsUpTo(medias, cs, n - 1)) + Group(cs, n - 1)
  {
    SectionsUpToStep(medias, cs, n);
    var g := Group(cs, n - 1);
    var sec := SectionLines(medias[n - 1], n - 1, g);
    AttrCandidatesAppend(SectionsUpTo(medias, cs, n - 1), sec);
    SectionCarriesGroup(medias[n - 1], n - 1, g);
  }

  /** The candidate lines of the first `n` sections are the groups of media 0, 1, ..., n - 1, one after the other. */
  lemma {:induction false} SectionsCarryGroups(medias: seq<string>, cs: seq<Candidate>, n: nat)
    requires n <= |medias|
    ensures AttrCandidates(SectionsUpTo(medias, cs, n)) == Emitted(cs, n)
  {
    if n > 0 {
      SectionsAttrStep(medias, cs, n);
      SectionsCarryGroups(medias, cs, n - 1);
      assert Emitted(cs, n) == Emitted(cs, n - 1) + Group(cs, n - 1);
    }
  }

  lemma {:induction false} InGroup(x: Candidate, cs: seq<Candidate>, i: int)
    ensures x in Group(cs, i) <==> x in cs && x.sdpMLineIndex == i
  {
    if cs != [] {
      InGroup(x, cs[1..], i);
      assert cs == [cs[0]] + cs[1..];
    }
  }

  lemma {:induction false} InEmitted(x: Candidate, cs: seq<Candidate>, n: nat)
    ensures x in Emitted(cs, n) <==> x in cs && 0 <= x.sdpMLineIndex < n
  {
    if n > 0 {
      var m := n - 1;
      InEmittedStep(x, cs, n);
      InEmitted(x, cs, m);
      assert (x in Emitted(cs, m)) == (x in cs && 0 <= x.sdpMLineIndex < m);
    }
  }

  /** Membership in the candidates of the first `n` media lines, one media line at a time. */
  lemma InEmittedStep(x: Candidate, cs: seq<Candidate>, n: nat)
    requires n > 0
    ensures x in Emitted(cs, n) <==> x in Emitted(cs, n - 1) || (x in cs && x.sdpMLineIndex == n - 1)
  {
    InGroup(x, cs, n - 1);
  }

  lemma InRangeNone(cs: seq<Candidate>)
    ensures InRange(cs, 0) == []
  {
    InRangeEmpty(cs, 0);
  }

  lemma {:induction false} EmittedLength(cs: seq<Candidate>, n: nat)
    ensures |Emitted(cs, n)| == |InRange(cs, n)|
  {
    if n == 0 {
      InRangeNone(cs);
    } else {
      EmittedLength(cs, n - 1);
      InRangeGrowsLength(cs, n);
    }
  }

  /**
   * The candidate lines of the fragment: a candidate appears exactly when it
   * names one of the media lines, and there are as many candidate lines as
   * such candidates, so each of them is written once.
   */
  lemma FragmentCandidates(d: OfferData, cs: seq<Candidate>)
    ensures forall x :: x in AttrCandidates(FragmentLines(d, cs)) <==> x in cs && 0 <= x.sdpMLineIndex < |d.medias|
    ensures |AttrCandidates(FragmentLines(d, cs))| == |InRange(cs, |d.medias|)|
  {
    var n := |d.medias|;
    AttrCandidatesAppend(HeaderLines(d), SectionsUpTo(d.medias, cs, n));
    assert AttrCandidates(HeaderLines(d)) == [] by {
      assert HeaderLines(d)[1..][1..] == [];
    }
    SectionsCarryGroups(d.medias, cs, n);
    EmittedLength(cs, n);
    forall x ensures x in Emitted(cs, n) <==> x in cs && 0 <= x.sdpMLineIndex < n {
      InEmitted(x, cs, n);
    }
  }

  lemma GroupSingle(c: Candidate, i: int)
    ensures Group([c], i) == if c.sdpMLineIndex == i then [c] else []
  {
    assert [c][1..] == [];
  }

  /** The section of a media line holding the single candidate `c`. */
  lemma SingleSection(media: string, c: Candidate, i: nat)
    ensures SectionLines(media, i, [c]) == [MediaLine(media), MidLine(i), CandidateLine(c)]
  {
    assert [c][1..] == [];
    assert CandidateLines([c]) == [CandidateLine(c)];
  }

  /** Every candidate of `cs` names a media index below `m`. */
  predicate AllBelow(cs: seq<Candidate>, m: int)
  {
    |cs| == 0 || (cs[0].sdpMLineIndex < m && AllBelow(cs[1..], m))
  }

  lemma {:induction false} GroupPast(cs: seq<Candidate>, m: nat, i: int)
    requires m <= i && AllBelow(cs, m)
    ensures Group(cs, i) == []
  {
    if cs != [] {
      GroupPast(cs[1..], m, i);
    }
  }

  /** One more media line adds its section after the ones before it. */
  lemma SectionsUpToStep(medias: seq<string>, cs: seq<Candidate>, n: nat)
    requires 0 < n <= |medias|
    ensures SectionsUpTo(medias, cs, n)
         == SectionsUpTo(medias, cs, n - 1) + SectionLines(medias[n - 1], n - 1, Group(cs, n - 1))
  {
  }

  /** A media line without candidates adds no line. */
  lemma SectionsUpToSkip(medias: seq<string>, cs: seq<Candidate>, n: nat)
    requires 0 < n <= |medias| && Group(cs, n - 1) == []
    ensures SectionsUpTo(medias, cs, n) == SectionsUpTo(medias, cs, n - 1)
  {
    var before := SectionsUpTo(medias, cs, n - 1);
    SectionsUpToStep(medias, cs, n);
    assert SectionLines(medias[n - 1], n - 1, Group(cs, n - 1)) == [];
    assert before + [] == before;
  }

  lemma InRangeSingle(c: Candidate, n: nat)
    requires n <= c.sdpMLineIndex
    ensures InRange([c], n) == []
  {
    assert [c][1..] == [];
  }

  /** The sections for one candidate of media `k`: nothing before `k`, its own section, nothing after. */
  lemma SingleSections(medias: seq<string>, c: Candidate)
    requires 0 <= c.sdpMLineIndex < |medias|
    ensures SectionsUpTo(medias, [c], |medias|) == SectionLines(medias[c.sdpMLineIndex], c.sdpMLineIndex, [c])
  {
    var k := c.sdpMLineIndex;
    SingleTail(medias, c);
    SettledAt(medias, [c], k + 1, |medias|, SectionLines(medias[k], k, [c]));
  }

  /** Media lines past the last index any candidate names add nothing: the sections stay `ls`. */
  lemma {:induction false} SettledAt(medias: seq<string>, cs: seq<Candidate>, m: nat, n: nat, ls: seq<SdpLine>)
    requires m <= n <= |medias| && AllBelow(cs, m) && SectionsUpTo(medias, cs, m) == ls
    ensures SectionsUpTo(medias, cs, n) == ls
  {
    if n > m {
      GroupPast(cs, m, n - 1);
      SettledAt(medias, cs, m, n - 1, ls);
      SectionsUpToSkip(medias, cs, n);
    }
  }

  lemma SingleTail(medias: seq<string>, c: Candidate)
    requires 0 <= c.sdpMLineIndex < |medias|
    ensures AllBelow([c], c.sdpMLineIndex + 1)
    ensures SectionsUpTo(medias, [c], c.sdpMLineIndex + 1) == SectionLines(medias[c.sdpMLineIndex], c.sdpMLineIndex, [c])
  {
    SingleBelow(c, c.sdpMLineIndex + 1);
    SingleUpTo(medias, c);
  }

  lemma SingleBelow(c: Candidate, m: int)
    requires c.sdpMLineIndex < m
    ensures AllBelow([c], m)
  {
    assert [c][1..] == [];
  }

  lemma SingleBefore(medias: seq<string>, c: Candidate)
    requires 0 <= c.sdpMLineIndex < |medias|
    ensures SectionsUpTo(medias, [c], c.sdpMLineIndex) == []
  {
    var k := c.sdpMLineIndex;
    InRangeSingle(c, k);
    EmittedLength([c], k);
    assert Emitted([c], k) == [];
    SectionsNone(medias, [c], k);
  }

  lemma SingleUpTo(medias: seq<string>, c: Candidate)
    requires 0 <= c.sdpMLineIndex < |medias|
    ensures SectionsUpTo(medias, [c], c.sdpMLineIndex + 1) == SectionLines(medias[c.sdpMLineIndex], c.sdpMLineIndex, [c])
  {
    var k := c.sdpMLineIndex;
    var section := SectionLines(medias[k], k, [c]);
    SingleBefore(medias, c);
    GroupSingle(c, k);
    SectionsUpToStep(medias, [c], k + 1);
    assert [] + section == section;
  }

  /** A PATCH for one candidate: the header, then that candidate's own media section alone. */
  lemma SingleCandidateFragment(d: OfferData, c: Candidate)
    requires 0 <= c.sdpMLineIndex < |d.medias|
    ensures Fragment(d, [c])
         == "a=ice-ufrag:" + d.iceUfrag + CRLF() + "a=ice-pwd:" + d.icePwd + CRLF()
          + "m=" + d.medias[c.sdpMLineIndex] + CRLF()
          + "a=mid:" + NatToDecimal(c.sdpMLineIndex) + CRLF()
          + "a=" + c.sdp + CRLF()
  {
    var k := c.sdpMLineIndex;
    var opening := HeaderLines(d) + [MediaLine(d.medias[k]), MidLine(k)];
    SingleFragmentLines(d, c);
    HeaderRender(d);
    OpeningText(HeaderLines(d), d.medias[k], k);
    CandidateLineText(opening, c);
  }

  /** The lines of a PATCH for one candidate. */
  lemma SingleFragmentLines(d: OfferData, c: Candidate)
    requires 0 <= c.sdpMLineIndex < |d.medias|
    ensures FragmentLines(d, [c])
         == (HeaderLines(d) + [MediaLine(d.medias[c.sdpMLineIndex]), MidLine(c.sdpMLineIndex)]) + [CandidateLine(c)]
  {
    var k := c.sdpMLineIndex;
    SingleSections(d.medias, c);
    SingleSection(d.medias[k], c, k);
    assert HeaderLines(d) + [MediaLine(d.medias[k]), MidLine(k), CandidateLine(c)]
        == (HeaderLines(d) + [MediaLine(d.medias[k]), MidLine(k)]) + [CandidateLine(c)];
  }

  /** The worked example: one candidate of the second media line gives only the video section, `a=mid:1`. */
  lemma ExampleFragmentLines()
    ensures FragmentLines(OfferData("abc", "xyz", ["audio 9 UDP/TLS/RTP/SAVPF 0", "video 9 UDP/TLS/RTP/SAVPF 96"]),
                          [Candidate(1, "candidate:1 1 UDP 2130706431 10.0.0.1 5000 typ host")])
         == [UfragLine("abc"), PwdLine("xyz"), MediaLine("video 9 UDP/TLS/RTP/SAVPF 96"), MidLine(1),
             CandidateLine(Candidate(1, "candidate:1 1 UDP 2130706431 10.0.0.1 5000 typ host"))]
  {
    var medias := ["audio 9 UDP/TLS/RTP/SAVPF 0", "video 9 UDP/TLS/RTP/SAVPF 96"];
    var c := Candidate(1, "candidate:1 1 UDP 2130706431 10.0.0.1 5000 typ host");
    GroupSingle(c, 0);
    GroupSingle(c, 1);
    assert SectionsUpTo(medias, [c], 1) == [];
    assert CandidateLines([c]) == [CandidateLine(c)];
    assert SectionsUpTo(medias, [c], 2) == [MediaLine(medias[1]), MidLine(1), CandidateLine(c)];
  }
}
