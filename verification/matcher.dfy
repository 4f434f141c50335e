/**
 The matcher protocol of the scavenger hunt: the external image matcher is run
 once per submitted candidate and reports its verdict only through its process
 exit status, which the game reads as a 32-bit unsigned value.
 */
module Matcher {

  /** Folder the reference samples are read from; the matcher gets this prefix
      followed by the sample's file name as its reference image. */
  const SampleDir: string := "objectSamples/"

  /** Output path the matcher is asked to write its match picture to. */
  const MatchArtifact: string := "lastMatch.png"

  /** The matcher program the game starts. */
  const MatcherProgram: string := "ScreenSearch.exe"

  /** The matcher's first argument: which kind of matching to perform. */
  const MatchMode: string := "objectDetection"

  /** A process exit status as the game reads it (a `DWORD`). */
  type ExitStatus = c: int | 0 <= c < 0x1_0000_0000

  /** What one run of the matcher says about one candidate. */
  datatype Verdict = Match | NoMatch | InvalidRequest | Unknown

  /** One run of the matcher: the program, its mode, the reference sample, the
      candidate file and the output picture. */
  datatype Invocation = Invocation(program: string, mode: string, reference: string, candidate: string,
                                   artifact: string)

  /** The reference path handed to the matcher for a sample file name. */
  function SamplePath(name: string): (p: string)
    ensures |p| == |SampleDir| + |name|
    ensures p[..|SampleDir|] == SampleDir && p[|SampleDir|..] == name
  {
    SampleDir + name
  }

  /** Distinct sample names give distinct reference paths, so the matcher can
      tell the rounds' samples apart. */
  lemma SamplePathInjective(x: string, y: string)
    ensures SamplePath(x) == SamplePath(y) ==> x == y
  {
    if SamplePath(x) == SamplePath(y) {
      assert x == SamplePath(x)[|SampleDir|..];
    }
  }

  /** The run of the matcher on one candidate against one reference path. */
  function Run(reference: string, candidate: string): (inv: Invocation)
    ensures inv.reference == reference && inv.candidate == candidate
    ensures inv.program == MatcherProgram && inv.mode == MatchMode && inv.artifact == MatchArtifact
  {
    Invocation(MatcherProgram, MatchMode, reference, candidate, MatchArtifact)
  }

  /** The parameter string the program is started with: the mode, the two image
      paths in double quotes, and the output picture, separated by spaces. */
  function CommandLine(inv: Invocation): string
  {
    inv.mode + " \"" + inv.reference + "\" \"" + inv.candidate + "\" " + inv.artifact
  }

  /** A text with no double quote in it. */
  predicate NoQuote(s: string)
  {
    forall i :: 0 <= i < |s| ==> s[i] != '"'
  }

  /** The pieces of a text between its double quotes, in order; a text with `q`
      quotes has `q + 1` pieces. */
  function SplitQuotes(s: string): (parts: seq<string>)
    ensures |parts| >= 1
  {
    if |s| == 0 then [""]
    else
      var rest := SplitQuotes(s[1..]);
      if s[0] == '"' then [""] + rest
      else [[s[0]] + rest[0]] + rest[1..]
  }

  /** A text without quotes is a single piece. */
  lemma {:induction false} SplitQuotesPlain(s: string)
    requires NoQuote(s)
    ensures SplitQuotes(s) == [s]
  {
    if |s| > 0 {
      assert NoQuote(s[1..]);
      SplitQuotesPlain(s[1..]);
      assert [s[0]] + s[1..] == s;
    }
  }

  /** A quote-free prefix joins the first piece of what follows it. */
  lemma {:induction false} SplitQuotesAfterPlain(a: string, b: string)
    requires NoQuote(a)
    ensures SplitQuotes(a + b) == [a + SplitQuotes(b)[0]] + SplitQuotes(b)[1..]
  {
    var parts := SplitQuotes(b);
    if |a| > 0 {
      assert (a + b)[0] == a[0] && (a + b)[1..] == a[1..] + b;
      assert NoQuote(a[1..]);
      SplitQuotesAfterPlain(a[1..], b);
      assert [a[0]] + (a[1..] + parts[0]) == a + parts[0];
    } else {
      assert a + b == b;
      assert a + parts[0] == parts[0];
      assert parts == [parts[0]] + parts[1..];
    }
  }

  /** A quote-free piece, then a quote: the piece stands alone. */
  lemma SplitQuotesPiece(a: string, b: string)
    requires NoQuote(a)
    ensures SplitQuotes(a + "\"" + b) == [a] + SplitQuotes(b)
  {
    var qb := "\"" + b;
    assert a + "\"" + b == a + qb;
    assert qb[0] == '"' && qb[1..] == b;
    assert SplitQuotes(qb) == [""] + SplitQuotes(b);
    SplitQuotesAfterPlain(a, qb);
    assert a + "" == a;
    assert ([""] + SplitQuotes(b))[1..] == SplitQuotes(b);
  }

  /** Five quote-free pieces joined by four quotes split back into those pieces. */
  lemma SplitQuotesFive(p0: string, p1: string, p2: string, p3: string, p4: string)
    requires NoQuote(p0) && NoQuote(p1) && NoQuote(p2) && NoQuote(p3) && NoQuote(p4)
    ensures SplitQuotes(p0 + "\"" + (p1 + "\"" + (p2 + "\"" + (p3 + "\"" + p4)))) == [p0, p1, p2, p3, p4]
  {
    SplitQuotesPlain(p4);
    SplitQuotesPiece(p3, p4);
    SplitQuotesPiece(p2, p3 + "\"" + p4);
    SplitQuotesPiece(p1, p2 + "\"" + (p3 + "\"" + p4));
    SplitQuotesPiece(p0, p1 + "\"" + (p2 + "\"" + (p3 + "\"" + p4)));
  }

  /** The paths are quoted on the command line, so as long as neither contains a
      double quote (file names cannot) the matcher reads back exactly the
      reference and candidate it was given, as the second and fourth pieces. */
  lemma CommandLineQuotesPaths(reference: string, candidate: string)
    requires NoQuote(reference) && NoQuote(candidate)
    ensures SplitQuotes(CommandLine(Run(reference, candidate)))
            == [MatchMode + " ", reference, " ", candidate, " " + MatchArtifact]
  {
    var p0 := MatchMode + " ";
    var p4 := " " + MatchArtifact;
    assert NoQuote(p0) && NoQuote(" ") && NoQuote(p4);
    assert CommandLine(Run(reference, candidate))
           == p0 + "\"" + (reference + "\"" + (" " + "\"" + (candidate + "\"" + p4)));
    SplitQuotesFive(p0, reference, " ", candidate, p4);
  }

  /** The status each verdict is reported with; every status above 2 means Unknown,
      and 3 is the one chosen to stand for them. */
  function CanonicalStatus(v: Verdict): ExitStatus
  {
    match v
    case Match => 0
    case NoMatch => 1
    case InvalidRequest => 2
    case Unknown => 3
  }

  /** Reads a matcher exit status as a verdict: 0 is a match, 1 no match,
      2 a malformed request, and any other status is unknown. */
  function Classify(status: ExitStatus): (v: Verdict)
    ensures v == Unknown <==> status > 2
    ensures status <= 2 ==> CanonicalStatus(v) == status
  {
    match status
    case 0 => Match
    case 1 => NoMatch
    case 2 => InvalidRequest
    case _ => Unknown
  }

  /** Classify undoes CanonicalStatus: every verdict survives the round trip. */
  lemma ClassifyCanonicalStatus(v: Verdict)
    ensures Classify(CanonicalStatus(v)) == v
  {
  }
}
