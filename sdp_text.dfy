/**
 * Line-level text of SDP (RFC 8866 section 5): lines end in CRLF.
 * `Split` is the line splitting the parser applies to an offer
 * (`components(separatedBy: "\r\n")`), `Terminated` is the way the fragment
 * encoder writes lines (each followed by CRLF), and `NatToDecimal` is the
 * decimal rendering of the `a=mid:` value.
 */
module SdpText {

  /** The SDP line terminator. */
  function CRLF(): string { "\r\n" }

  predicate HasPrefix(s: string, p: string)
  {
    |p| <= |s| && s[..|p|] == p
  }

  /** True when `s` holds a CR immediately followed by an LF somewhere. */
  predicate ContainsCrlf(s: string)
  {
    exists i :: 0 <= i < |s| - 1 && s[i] == '\r' && s[i + 1] == '\n'
  }

  /**
   * The pieces of `s` between occurrences of CRLF, scanned from the left;
   * `acc` is the piece read so far.
   */
  function SplitFrom(s: string, acc: string): (r: seq<string>)
    ensures |r| >= 1
    decreases |s|
  {
    if |s| == 0 then [acc]
    else if HasPrefix(s, CRLF()) then [acc] + SplitFrom(s[2..], "")
    else SplitFrom(s[1..], acc + [s[0]])
  }

  /** Foundation's `components(separatedBy: "\r\n")`: "" gives [""], a trailing CRLF gives a trailing "". */
  function Split(s: string): seq<string>
  {
    SplitFrom(s, "")
  }

  /** The pieces put back together with CRLF between them. */
  function Join(parts: seq<string>): string
    requires |parts| >= 1
  {
    if |parts| == 1 then parts[0] else parts[0] + CRLF() + Join(parts[1..])
  }

  /** Every line followed by CRLF, the last one included. */
  function Terminated(lines: seq<string>): string
  {
    if |lines| == 0 then "" else lines[0] + CRLF() + Terminated(lines[1..])
  }

  predicate AllDigits(s: string)
  {
    forall k :: 0 <= k < |s| ==> '0' <= s[k] <= '9'
  }

  /** `String(n)` for a non-negative integer: its decimal digits, most significant first. */
  function NatToDecimal(n: nat): string
  {
    if n < 10 then [('0' as int + n) as char]
    else NatToDecimal(n / 10) + [('0' as int + n % 10) as char]
  }

  /** The value of a string of decimal digits; the inverse of NatToDecimal. */
  function DecimalValue(s: string): nat
    requires AllDigits(s)
  {
    if |s| == 0 then 0 else 10 * DecimalValue(s[..|s| - 1]) + (s[|s| - 1] as int - '0' as int)
  }

  // ----- lemmas -----

  /** Splitting loses nothing: joining the pieces back with CRLF gives the input. */
  lemma {:induction false} SplitFromJoin(s: string, acc: string)
    ensures Join(SplitFrom(s, acc)) == acc + s
    decreases |s|
  {
    if |s| == 0 {
    } else if HasPrefix(s, CRLF()) {
      SplitFromJoin(s[2..], "");
      JoinAtCrlf(s, acc);
    } else {
      SplitFromJoin(s[1..], acc + [s[0]]);
      JoinAtChar(s, acc);
    }
  }

  /** The step of SplitFromJoin at a CRLF: a new piece starts. */
  lemma JoinAtCrlf(s: string, acc: string)
    requires HasPrefix(s, CRLF()) && Join(SplitFrom(s[2..], "")) == s[2..]
    ensures Join(SplitFrom(s, acc)) == acc + s
  {
    JoinCons(acc, SplitFrom(s[2..], ""));
    assert s == CRLF() + s[2..];
  }

  /** The step of SplitFromJoin at any other character: it joins the current piece. */
  lemma JoinAtChar(s: string, acc: string)
    requires |s| > 0 && !HasPrefix(s, CRLF())
    requires Join(SplitFrom(s[1..], acc + [s[0]])) == acc + [s[0]] + s[1..]
    ensures Join(SplitFrom(s, acc)) == acc + s
  {
    AppendHead(acc, s);
  }

  /** Moving the first character of `s` onto `acc` keeps the concatenation. */
  lemma AppendHead(acc: string, s: string)
    requires |s| > 0
    ensures acc + [s[0]] + s[1..] == acc + s
  {
    assert [s[0]] + s[1..] == s;
  }

  /** Joining a first piece with the rest puts one CRLF between them. */
  lemma JoinCons(p: string, rest: seq<string>)
    requires |rest| >= 1
    ensures Join([p] + rest) == p + CRLF() + Join(rest)
  {
    assert ([p] + rest)[1..] == rest;
  }

  lemma SplitJoin(s: string)
    ensures Join(Split(s)) == s
  {
    SplitFromJoin(s, "");
  }

  lemma NoCrNoCrlf(s: string)
    requires forall k :: 0 <= k < |s| ==> s[k] != '\r'
    ensures !ContainsCrlf(s)
  {
  }

  lemma ConcatNoCrlf(a: string, b: string)
    requires !ContainsCrlf(a) && !ContainsCrlf(b)
    requires a == [] || a[|a| - 1] != '\r'
    ensures !ContainsCrlf(a + b)
  {
    var ab := a + b;
    forall i | 0 <= i < |ab| - 1
      ensures !(ab[i] == '\r' && ab[i + 1] == '\n')
    {
      if i + 1 < |a| {
        assert ab[i] == a[i] && ab[i + 1] == a[i + 1];
      } else if i >= |a| {
        assert ab[i] == b[i - |a|] && ab[i + 1] == b[i - |a| + 1];
      } else {
        assert ab[i] == a[|a| - 1];
      }
    }
  }

  /** No piece of a split holds CRLF: together with SplitJoin this pins Split down to the pieces between separators. */
  lemma SplitNoCrlf(s: string)
    ensures forall k :: 0 <= k < |Split(s)| ==> !ContainsCrlf(Split(s)[k])
  {
    SplitFromNoCrlf(s, "");
  }

  predicate EndsInCr(s: string)
  {
    |s| > 0 && s[|s| - 1] == '\r'
  }

  /** Scanning on from a piece free of CRLF (that does not end in CR where an LF comes next) keeps every piece free of it. */
  lemma {:induction false} SplitFromNoCrlf(s: string, acc: string)
    requires !ContainsCrlf(acc)
    requires EndsInCr(acc) ==> !(|s| > 0 && s[0] == '\n')
    ensures forall k :: 0 <= k < |SplitFrom(s, acc)| ==> !ContainsCrlf(SplitFrom(s, acc)[k])
    decreases |s|
  {
    if |s| == 0 {
    } else if HasPrefix(s, CRLF()) {
      SplitFromNoCrlf(s[2..], "");
      var rest := SplitFrom(s[2..], "");
      assert forall k :: 1 <= k < |[acc] + rest| ==> ([acc] + rest)[k] == rest[k - 1];
    } else {
      if s[0] == '\r' && |s| > 1 {
        assert s[..2] != CRLF();
        assert s[1] != '\n';
      }
      SnocNoCrlf(acc, s[0]);
      SplitFromNoCrlf(s[1..], acc + [s[0]]);
    }
  }

  /** One more character keeps a piece free of CRLF unless it is an LF after a CR. */
  lemma SnocNoCrlf(acc: string, c: char)
    requires !ContainsCrlf(acc)
    requires EndsInCr(acc) ==> c != '\n'
    ensures !ContainsCrlf(acc + [c])
  {
    var t := acc + [c];
    forall i | 0 <= i < |t| - 1
      ensures !(t[i] == '\r' && t[i + 1] == '\n')
    {
      if i + 1 < |acc| {
        assert t[i] == acc[i] && t[i + 1] == acc[i + 1];
      } else {
        assert t[i] == acc[|acc| - 1] && t[i + 1] == c;
      }
    }
  }

  /** A line free of CRLF, followed by CRLF, is read back as one whole piece. */
  lemma {:induction false} SplitFromLine(acc: string, l: string, rest: string)
    requires !ContainsCrlf(acc + l)
    ensures SplitFrom(l + CRLF() + rest, acc) == [acc + l] + SplitFrom(rest, "")
    decreases |l|
  {
    var s := l + CRLF() + rest;
    if |l| == 0 {
      assert s == CRLF() + rest;
      assert HasPrefix(s, CRLF());
      assert s[2..] == rest;
      assert acc + l == acc;
    } else {
      assert s[0] == l[0];
      if |l| >= 2 {
        assert s[1] == l[1];
        assert (acc + l)[|acc|] == l[0] && (acc + l)[|acc| + 1] == l[1];
      } else {
        assert s[1] == '\r';
      }
      assert !HasPrefix(s, CRLF());
      assert s[1..] == l[1..] + CRLF() + rest;
      assert acc + [l[0]] + l[1..] == acc + l;
      SplitFromLine(acc + [l[0]], l[1..], rest);
    }
  }

  /** Two lines free of CRLF, each followed by CRLF, are read back as the first two pieces. */
  lemma SplitTwoLines(a: string, b: string, rest: string)
    requires !ContainsCrlf(a) && !ContainsCrlf(b)
    ensures Split(a + CRLF() + (b + CRLF() + rest)) == [a, b] + Split(rest)
  {
    assert "" + a == a && "" + b == b;
    SplitFromLine("", a, b + CRLF() + rest);
    SplitFromLine("", b, rest);
    assert [a] + ([b] + Split(rest)) == [a, b] + Split(rest);
  }

  /** Reading back lines written by Terminated gives the lines and one final empty piece. */
  lemma {:induction false} SplitTerminated(lines: seq<string>)
    requires forall k :: 0 <= k < |lines| ==> !ContainsCrlf(lines[k])
    ensures Split(Terminated(lines)) == lines + [""]
  {
    if lines != [] {
      var rest := lines[1..];
      assert "" + lines[0] == lines[0];
      SplitFromLine("", lines[0], Terminated(rest));
      SplitTerminated(rest);
      ConsAppend([lines[0]], rest);
      assert lines == [lines[0]] + rest;
      AppendAssoc([lines[0]], rest, [""]);
    }
  }

  /** The head and tail of a concatenation whose left part is not empty. */
  lemma ConsAppend<T>(a: seq<T>, b: seq<T>)
    requires a != []
    ensures (a + b)[0] == a[0] && (a + b)[1..] == a[1..] + b
  {
  }

  lemma AppendAssoc<T>(a: seq<T>, b: seq<T>, c: seq<T>)
    ensures (a + b) + c == a + (b + c)
  {
  }

  lemma {:induction false} TerminatedAppend(a: seq<string>, b: seq<string>)
    ensures Terminated(a + b) == Terminated(a) + Terminated(b)
  {
    if a != [] {
      ConsAppend(a, b);
      TerminatedAppend(a[1..], b);
      assert Terminated(a + b) == a[0] + CRLF() + (Terminated(a[1..]) + Terminated(b));
    } else {
      assert a + b == b;
    }
  }

  /** Written lines, non-empty, always end in CRLF. */
  lemma {:induction false} TerminatedEndsWithCrlf(lines: seq<string>)
    requires lines != []
    ensures |Terminated(lines)| >= 2
    ensures Terminated(lines)[|Terminated(lines)| - 2..] == CRLF()
  {
    if |lines| == 1 {
      assert Terminated(lines) == lines[0] + CRLF();
    } else {
      TerminatedEndsWithCrlf(lines[1..]);
    }
  }

  /** The rendering is a non-empty string of digits with no leading zero. */
  lemma {:induction false} DecimalDigits(n: nat)
    ensures |NatToDecimal(n)| >= 1 && AllDigits(NatToDecimal(n))
    ensures |NatToDecimal(n)| > 1 ==> NatToDecimal(n)[0] != '0'
  {
    if n >= 10 {
      DecimalDigits(n / 10);
      if n / 10 < 10 {
        assert NatToDecimal(n)[0] == ('0' as int + n / 10) as char;
      } else {
        assert NatToDecimal(n)[0] == NatToDecimal(n / 10)[0];
      }
    }
  }

  /** Reading the digits back gives the number. */
  lemma {:induction false} DecimalRoundTrip(n: nat)
    ensures AllDigits(NatToDecimal(n))
    ensures DecimalValue(NatToDecimal(n)) == n
  {
    DecimalDigits(n);
    if n >= 10 {
      var s := NatToDecimal(n);
      assert s[..|s| - 1] == NatToDecimal(n / 10);
      DecimalRoundTrip(n / 10);
    }
  }

  lemma DecimalNoCrlf(n: nat)
    ensures !ContainsCrlf(NatToDecimal(n))
  {
    DecimalDigits(n);
    NoCrNoCrlf(NatToDecimal(n));
  }
}
