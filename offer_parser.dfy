/**
 * The SDP offer parser of the publish service: from the local offer it keeps
 * the ICE credentials (the `a=ice-ufrag:` and `a=ice-pwd:` attributes of
 * RFC 8839 section 5.4) and the payload of every media line `m=`.
 *
 * `ParsedOffer` is the reference: the first non-empty value of each
 * credential attribute and the media payloads in order. `ParseOffer` is the
 * line loop of the service, proved to compute it.
 */
module OfferParser {
  import opened SdpText

  /** What the fragment encoder needs from the local offer. */
  datatype OfferData = OfferData(iceUfrag: string, icePwd: string, medias: seq<string>)

  /** The markers of a media line and of the two ICE credential attributes. */
  function MediaPrefix(): string { "m=" }
  function UfragPrefix(): string { "a=ice-ufrag:" }
  function PwdPrefix(): string { "a=ice-pwd:" }

  /** The payload (marker dropped) of every line that starts with `m=`, in order. */
  function MediaPayloads(lines: seq<string>): seq<string>
  {
    if |lines| == 0 then []
    else (if HasPrefix(lines[0], MediaPrefix()) then [lines[0][|MediaPrefix()|..]] else [])
         + MediaPayloads(lines[1..])
  }

  /** True when `line` carries attribute `p` with a non-empty value. */
  predicate HasValue(line: string, p: string)
  {
    HasPrefix(line, p) && |line| > |p|
  }

  /** The value of the first line that carries attribute `p` with a non-empty value; "" if none does. */
  function FirstValue(lines: seq<string>, p: string): string
  {
    if |lines| == 0 then ""
    else if HasValue(lines[0], p) then lines[0][|p|..]
    else FirstValue(lines[1..], p)
  }

  function OfferOfLines(lines: seq<string>): OfferData
  {
    OfferData(FirstValue(lines, UfragPrefix()), FirstValue(lines, PwdPrefix()), MediaPayloads(lines))
  }

  /** The OfferData the service keeps for an offer text. */
  function ParsedOffer(offer: string): OfferData
  {
    OfferOfLines(Split(offer))
  }

  /**
   * `parseOffer`: one pass over the lines; an `m=` line adds its payload, and
   * each credential is taken from its attribute line only while it is still empty.
   */
  method ParseOffer(offer: string) returns (d: OfferData)
    ensures d == ParsedOffer(offer)
  {
    var lines := Split(offer);
    var iceUfrag := "";
    var icePwd := "";
    var medias: seq<string> := [];
    for i := 0 to |lines|
      invariant iceUfrag == FirstValue(lines[..i], UfragPrefix())
      invariant icePwd == FirstValue(lines[..i], PwdPrefix())
      invariant medias == MediaPayloads(lines[..i])
    {
      var line := lines[i];
      assert lines[..i + 1] == lines[..i] + [line];
      MediaPayloadsAppend(lines[..i], [line]);
      FirstValueSnoc(lines[..i], line, UfragPrefix());
      FirstValueSnoc(lines[..i], line, PwdPrefix());
      PrefixesExclusive(line);
      if HasPrefix(line, MediaPrefix()) {
        medias := medias + [line[|MediaPrefix()|..]];
      } else if iceUfrag == "" && HasPrefix(line, UfragPrefix()) {
        iceUfrag := line[|UfragPrefix()|..];
      } else if icePwd == "" && HasPrefix(line, PwdPrefix()) {
        icePwd := line[|PwdPrefix()|..];
      }
    }
    assert lines[..|lines|] == lines;
    d := OfferData(iceUfrag, icePwd, medias);
  }

  // ----- lemmas used by the loop -----

  /** A line starts with at most one of the three markers. */
  lemma PrefixesExclusive(line: string)
    ensures HasPrefix(line, MediaPrefix()) ==> !HasPrefix(line, UfragPrefix()) && !HasPrefix(line, PwdPrefix())
    ensures HasPrefix(line, UfragPrefix()) ==> !HasPrefix(line, PwdPrefix())
  {
    if HasPrefix(line, MediaPrefix()) {
      assert line[0] == MediaPrefix()[0];
    }
    if HasPrefix(line, UfragPrefix()) {
      assert line[6] == UfragPrefix()[6];
    }
    if HasPrefix(line, PwdPrefix()) {
      assert line[6] == PwdPrefix()[6];
    }
  }

  /** Media payloads of a concatenation are the payloads of each part, concatenated. */
  lemma {:induction false} MediaPayloadsAppend(a: seq<string>, b: seq<string>)
    ensures MediaPayloads(a + b) == MediaPayloads(a) + MediaPayloads(b)
  {
    if a == [] {
      assert a + b == b;
    } else {
      ConsAppend(a, b);
      MediaPayloadsAppend(a[1..], b);
    }
  }

  /** One more line sets the value only if it was still empty. */
  lemma {:induction false} FirstValueSnoc(a: seq<string>, line: string, p: string)
    ensures FirstValue(a + [line], p)
         == if FirstValue(a, p) == "" && HasPrefix(line, p) then line[|p|..] else FirstValue(a, p)
  {
    if a == [] {
      assert a + [line] == [line];
    } else {
      ConsAppend(a, [line]);
      FirstValueSnoc(a[1..], line, p);
    }
  }

  // ----- what the parser promises -----

  /**
   * First non-empty value wins: if line `i` is the first one carrying `p` with
   * a non-empty value, the credential is that value, whatever follows.
   */
  lemma {:induction false} FirstValueIsFirst(lines: seq<string>, p: string, i: nat)
    requires i < |lines| && HasValue(lines[i], p)
    requires forall j :: 0 <= j < i ==> !HasValue(lines[j], p)
    ensures FirstValue(lines, p) == lines[i][|p|..]
  {
    if i > 0 {
      FirstValueIsFirst(lines[1..], p, i - 1);
    }
  }

  /** The credential is empty exactly when no line carries `p` with a non-empty value. */
  lemma {:induction false} FirstValueEmpty(lines: seq<string>, p: string)
    ensures FirstValue(lines, p) == "" <==> forall j :: 0 <= j < |lines| ==> !HasValue(lines[j], p)
  {
    if lines != [] {
      FirstValueEmpty(lines[1..], p);
      if !HasValue(lines[0], p) {
        assert forall j :: 1 <= j < |lines| ==> lines[j] == lines[1..][j - 1];
      }
    }
  }

  /** Later lines never change a credential already found. */
  lemma {:induction false} FirstValueIgnoresLater(a: seq<string>, b: seq<string>, p: string)
    requires FirstValue(a, p) != ""
    ensures FirstValue(a + b, p) == FirstValue(a, p)
  {
    assert a != [];
    ConsAppend(a, b);
    if !HasValue(a[0], p) {
      FirstValueIgnoresLater(a[1..], b, p);
    }
  }

  /** Every media payload is the text after `m=` on some line of the offer. */
  lemma {:induction false} MediaPayloadsFromLines(lines: seq<string>, k: nat)
    requires k < |MediaPayloads(lines)|
    ensures exists i :: 0 <= i < |lines| && lines[i] == MediaPrefix() + MediaPayloads(lines)[k]
  {
    if HasPrefix(lines[0], MediaPrefix()) {
      if k == 0 {
        assert lines[0] == MediaPrefix() + lines[0][2..];
      } else {
        MediaPayloadsFromLines(lines[1..], k - 1);
        var i :| 0 <= i < |lines[1..]| && lines[1..][i] == MediaPrefix() + MediaPayloads(lines[1..])[k - 1];
        assert lines[i + 1] == lines[1..][i];
      }
    } else {
      MediaPayloadsFromLines(lines[1..], k);
      var i :| 0 <= i < |lines[1..]| && lines[1..][i] == MediaPrefix() + MediaPayloads(lines[1..])[k];
      assert lines[i + 1] == lines[1..][i];
    }
  }

  /** Parsing never fails: an offer with none of the three markers gives two empty credentials and no media. */
  lemma {:induction false} NoMarkersGivesEmpty(lines: seq<string>)
    requires forall j :: 0 <= j < |lines| ==>
      !HasPrefix(lines[j], MediaPrefix()) && !HasPrefix(lines[j], UfragPrefix()) && !HasPrefix(lines[j], PwdPrefix())
    ensures OfferOfLines(lines) == OfferData("", "", [])
  {
    if lines != [] {
      NoMarkersGivesEmpty(lines[1..]);
    }
  }

  lemma EmptyOfferGivesEmpty()
    ensures ParsedOffer("") == OfferData("", "", [])
  {
    assert Split("") == [""];
  }

  /** An offer written as CRLF-terminated lines is read back as exactly those lines. */
  lemma ParsedTerminated(lines: seq<string>)
    requires forall k :: 0 <= k < |lines| ==> !ContainsCrlf(lines[k])
    ensures ParsedOffer(Terminated(lines)) == OfferOfLines(lines)
  {
    var all := lines + [""];
    MediaPayloadsAppend(lines, [""]);
    assert MediaPayloads([""]) == [];
    FirstValueSnoc(lines, "", UfragPrefix());
    FirstValueSnoc(lines, "", PwdPrefix());
    assert OfferOfLines(all) == OfferOfLines(lines);
    SplitTerminated(lines);
  }

  /** Lines that open with a ufrag line and then a pwd line, both with a value, give those two values. */
  lemma CredentialLinesFirst(u: string, pw: string, more: seq<string>)
    requires u != "" && pw != ""
    ensures FirstValue([UfragPrefix() + u, PwdPrefix() + pw] + more, UfragPrefix()) == u
    ensures FirstValue([UfragPrefix() + u, PwdPrefix() + pw] + more, PwdPrefix()) == pw
  {
    var lines := [UfragPrefix() + u, PwdPrefix() + pw] + more;
    assert lines[0] == UfragPrefix() + u && lines[1] == PwdPrefix() + pw;
    assert lines[0][|UfragPrefix()|..] == u && lines[1][|PwdPrefix()|..] == pw;
    FirstValueIsFirst(lines, UfragPrefix(), 0);
    PrefixesExclusive(lines[0]);
    FirstValueIsFirst(lines, PwdPrefix(), 1);
  }

  /** The lines of the worked example offer: `v=0`, `a=ice-ufrag:abc`, `a=ice-pwd:xyz` and two media lines. */
  function ExampleOfferLines(): seq<string>
  {
    ["v=0", UfragPrefix() + "abc", PwdPrefix() + "xyz",
     MediaPrefix() + "audio 9 UDP/TLS/RTP/SAVPF 0", MediaPrefix() + "video 9 UDP/TLS/RTP/SAVPF 96"]
  }

  /** The worked example: credentials abc / xyz and both media payloads, in order. */
  lemma ExampleOffer()
    ensures ParsedOffer(Terminated(ExampleOfferLines()))
         == OfferData("abc", "xyz", ["audio 9 UDP/TLS/RTP/SAVPF 0", "video 9 UDP/TLS/RTP/SAVPF 96"])
  {
    ExampleNoCrlf();
    ParsedTerminated(ExampleOfferLines());
    ExampleCredentials();
    ExampleMedias();
  }

  lemma ExampleNoCrlf()
    ensures forall k :: 0 <= k < |ExampleOfferLines()| ==> !ContainsCrlf(ExampleOfferLines()[k])
  {
    var lines := ExampleOfferLines();
    NoCrNoCrlf(lines[0]);
    NoCrNoCrlf(lines[1]);
    NoCrNoCrlf(lines[2]);
    NoCrNoCrlf(lines[3]);
    NoCrNoCrlf(lines[4]);
  }

  lemma ExampleCredentials()
    ensures FirstValue(ExampleOfferLines(), UfragPrefix()) == "abc"
    ensures FirstValue(ExampleOfferLines(), PwdPrefix()) == "xyz"
  {
    var lines := ExampleOfferLines();
    assert HasValue(lines[1], UfragPrefix());
    FirstValueIsFirst(lines, UfragPrefix(), 1);
    PrefixesExclusive(lines[1]);
    assert HasValue(lines[2], PwdPrefix());
    FirstValueIsFirst(lines, PwdPrefix(), 2);
  }

  lemma ExampleMedias()
    ensures MediaPayloads(ExampleOfferLines()) == ["audio 9 UDP/TLS/RTP/SAVPF 0", "video 9 UDP/TLS/RTP/SAVPF 96"]
  {
    var lines := ExampleOfferLines();
    NotMediaLine(lines[0]);
    NotMediaLine(lines[1]);
    NotMediaLine(lines[2]);
    assert MediaPayloads(lines[5..]) == [];
    assert MediaPayloads(lines[4..]) == ["video 9 UDP/TLS/RTP/SAVPF 96"];
    assert MediaPayloads(lines[3..]) == ["audio 9 UDP/TLS/RTP/SAVPF 0", "video 9 UDP/TLS/RTP/SAVPF 96"];
    assert MediaPayloads(lines[2..]) == MediaPayloads(lines[3..]);
    assert MediaPayloads(lines[1..]) == MediaPayloads(lines[2..]);
  }

  /** A line whose first character is not `m` is no media line. */
  lemma NotMediaLine(line: string)
    requires |line| > 0 && line[0] != 'm'
    ensures !HasPrefix(line, MediaPrefix())
  {
  }
}
