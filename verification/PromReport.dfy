/** The Prometheus output of nodecheck, and its exit code. */
module PromReport {
  import opened Base
  import opened Probe
  import opened Exposition

  datatype Family = Up | TcpSeconds | TlsSeconds | CertMatch | InitiationSent

  const FAMILIES := [Up, TcpSeconds, TlsSeconds, CertMatch, InitiationSent]

  function MetricName(f: Family): string {
    match f
    case Up => "vpnnode_up"
    case TcpSeconds => "vpnnode_tcp_connect_seconds"
    case TlsSeconds => "vpnnode_tls_handshake_seconds"
    case CertMatch => "vpnnode_cert_match"
    case InitiationSent => "vpnnode_initiation_sent"
  }

  function HelpText(f: Family): string {
    match f
    case Up => "Node is reachable " + "(both TCP and TLS succeeded)"
    case TcpSeconds => "Time spent on the TCP connect phase"
    case TlsSeconds => "Time spent on the TLS handshake phase"
    case CertMatch => "Presented certificate " + "matches the expected SNI"
    case InitiationSent => "A valid protocol initiation was " + "sent and not contradicted; " + "not a liveness signal"
  }

  function Digit(b: bool): string { if b then "1" else "0" }

  /** Four decimals: any text on one line. */
  type Seconds4 = real -> string

  ghost predicate OneLineNumbers(fmt: Seconds4) { forall x :: OneLine(fmt(x)) }

  /** Whether a result has a sample in a family, and its value. */
  function SampleValue(f: Family, r: Result, fmt: Seconds4): Option<string> {
    match f
    case Up => if r.noLivenessClaim then None else Some(Digit(r.ok))
    case TcpSeconds => if r.tcpTime.Some? then Some(fmt(r.tcpTime.value)) else None
    case TlsSeconds => if r.tlsTime.Some? then Some(fmt(r.tlsTime.value)) else None
    case CertMatch => if r.certMatch.Some? then Some(Digit(r.certMatch.value)) else None
    case InitiationSent => if r.noLivenessClaim then Some(Digit(r.ok)) else None
  }

  function SampleOf(f: Family, r: Result, value: string): Line {
    Sample(MetricName(f), [("node", r.target.name), ("region", r.target.region)], value)
  }

  function Samples(f: Family, rs: seq<Result>, fmt: Seconds4): seq<Line> {
    if |rs| == 0 then []
    else
      var before := Samples(f, rs[..|rs| - 1], fmt);
      match SampleValue(f, rs[|rs| - 1], fmt)
      case None => before
      case Some(v) => before + [SampleOf(f, rs[|rs| - 1], v)]
  }

  function FamilyLines(f: Family, rs: seq<Result>, fmt: Seconds4): seq<Line> {
    [Help(MetricName(f), HelpText(f)), Type(MetricName(f), "gauge")] + Samples(f, rs, fmt)
  }

  function Blocks(fs: seq<Family>, rs: seq<Result>, fmt: Seconds4): seq<Line> {
    if |fs| == 0 then [] else FamilyLines(fs[0], rs, fmt) + Blocks(fs[1..], rs, fmt)
  }

  function Document(rs: seq<Result>, fmt: Seconds4): seq<Line> { Blocks(FAMILIES, rs, fmt) }

  /** The label set, as nodecheck formats it. */
  function Labels(r: Result): string {
    "node=\"" + Escape(r.target.name) + "\",region=\"" + Escape(r.target.region) + "\""
  }

  lemma {:induction false} LabelsAreRendered(r: Result)
    ensures RenderLabels([("node", r.target.name), ("region", r.target.region)]) == Labels(r)
  {
    var a, b := ("node", r.target.name), ("region", r.target.region);
    assert [a, b][1..] == [b];
    var n, g := Escape(r.target.name), Escape(r.target.region);
    assert RenderLabels([b]) == "region" + "=\"" + g + "\"" + "";
    assert "region" + "=\"" == "region=\"" && "node" + "=\"" == "node=\"";
    assert RenderLabels([a, b]) == "node=\"" + n + "\"" + ("," + ("region=\"" + g + "\"" + ""));
    assert "node=\"" + n + "\"" + ("," + ("region=\"" + g + "\"" + "")) == "node=\"" + n + "\",region=\"" + g + "\"";
  }

  lemma {:induction false} HeaderText(f: Family)
    ensures Render([Help(MetricName(f), HelpText(f)), Type(MetricName(f), "gauge")])
      == ("# HELP " + MetricName(f) + " " + HelpText(f) + "\n") + ("# TYPE " + MetricName(f) + " " + "gauge" + "\n")
  {
    var h, t := Help(MetricName(f), HelpText(f)), Type(MetricName(f), "gauge");
    RenderSnoc([h], t);
    RenderSnoc([], h);
    assert [h] + [t] == [h, t] && [] + [h] == [h];
  }

  lemma {:induction false} SampleText(f: Family, r: Result, value: string)
    ensures RenderLine(SampleOf(f, r, value)) == MetricName(f) + "{" + Labels(r) + "} " + value + "\n"
  {
    LabelsAreRendered(r);
  }

  /** The header and the loop of one metric family. */
  method WriteFamily(w: string, f: Family, results: seq<Result>, fmt: Seconds4) returns (w': string)
    ensures w' == w + Render(FamilyLines(f, results, fmt))
  {
    ghost var head := [Help(MetricName(f), HelpText(f)), Type(MetricName(f), "gauge")];
    HeaderText(f);
    var header := ("# HELP " + MetricName(f) + " " + HelpText(f) + "\n")
      + ("# TYPE " + MetricName(f) + " " + "gauge" + "\n");
    var body := "";
    assert header + body == header && head + [] == head;
    for i := 0 to |results|
      invariant header + body == Render(head + Samples(f, results[..i], fmt))
    {
      var r := results[i];
      var v := SampleValue(f, r, fmt);
      SamplesStep(f, results, i, fmt);
      if v.Some? {
        var text := MetricName(f) + "{" + Labels(r) + "} " + v.value + "\n";
        SampleText(f, r, v.value);
        SnocSample(head, Samples(f, results[..i], fmt), SampleOf(f, r, v.value));
        Assoc(header, body, text);
        body := body + text;
      }
    }
    assert results[..|results|] == results;
    w' := w + (header + body);
  }

  lemma {:induction false} SamplesStep(f: Family, rs: seq<Result>, i: nat, fmt: Seconds4)
    requires i < |rs|
    ensures Samples(f, rs[..i + 1], fmt) == match SampleValue(f, rs[i], fmt)
      case None => Samples(f, rs[..i], fmt)
      case Some(v) => Samples(f, rs[..i], fmt) + [SampleOf(f, rs[i], v)]
  {
    assert rs[..i + 1][..i] == rs[..i];
  }

  lemma {:induction false} SnocSample(head: seq<Line>, before: seq<Line>, line: Line)
    ensures Render(head + (before + [line])) == Render(head + before) + RenderLine(line)
  {
    assert head + (before + [line]) == (head + before) + [line];
    RenderSnoc(head + before, line);
  }

  lemma {:induction false} RenderBlocks(f: Family, fs: seq<Family>, rs: seq<Result>, fmt: Seconds4)
    ensures Render(Blocks([f] + fs, rs, fmt)) == Render(FamilyLines(f, rs, fmt)) + Render(Blocks(fs, rs, fmt))
  {
    assert ([f] + fs)[1..] == fs;
    RenderAppend(FamilyLines(f, rs, fmt), Blocks(fs, rs, fmt));
  }

  lemma {:induction false} RenderFive(a: Family, b: Family, c: Family, d: Family, e: Family, rs: seq<Result>,
                                      fmt: Seconds4)
    ensures Render(Blocks([a, b, c, d, e], rs, fmt)) ==
      "" + Render(FamilyLines(a, rs, fmt)) + Render(FamilyLines(b, rs, fmt))
      + Render(FamilyLines(c, rs, fmt)) + Render(FamilyLines(d, rs, fmt)) + Render(FamilyLines(e, rs, fmt))
  {
    assert [a] + [b, c, d, e] == [a, b, c, d, e] && [b] + [c, d, e] == [b, c, d, e];
    assert [c] + [d, e] == [c, d, e] && [d] + [e] == [d, e] && [e] + [] == [e];
    RenderBlocks(a, [b, c, d, e], rs, fmt);
    RenderBlocks(b, [c, d, e], rs, fmt);
    RenderBlocks(c, [d, e], rs, fmt);
    RenderBlocks(d, [e], rs, fmt);
    RenderBlocks(e, [], rs, fmt);
    JoinFive(Render(FamilyLines(a, rs, fmt)), Render(FamilyLines(b, rs, fmt)), Render(FamilyLines(c, rs, fmt)),
      Render(FamilyLines(d, rs, fmt)), Render(FamilyLines(e, rs, fmt)));
  }

  lemma {:induction false} JoinFive(a: string, b: string, c: string, d: string, e: string)
    ensures a + (b + (c + (d + (e + "")))) == "" + a + b + c + d + e
  {
  }

  // ---- what a scrape reads ----

  lemma {:induction false} SamplesAreNamed(f: Family, rs: seq<Result>, fmt: Seconds4)
    ensures forall i :: 0 <= i < |Samples(f, rs, fmt)| ==>
      Samples(f, rs, fmt)[i].Sample? && Samples(f, rs, fmt)[i].name == MetricName(f)
  {
    if |rs| > 0 {
      SamplesAreNamed(f, rs[..|rs| - 1], fmt);
    }
  }

  lemma {:induction false} ScrapedFamily(f: Family, g: Family, rs: seq<Result>, fmt: Seconds4)
    ensures Scraped(FamilyLines(f, rs, fmt), MetricName(g)) == if f == g then Samples(g, rs, fmt) else []
  {
    SamplesAreNamed(f, rs, fmt);
    ScrapedBlock(Help(MetricName(f), HelpText(f)), Type(MetricName(f), "gauge"), Samples(f, rs, fmt),
      MetricName(f), MetricName(g));
    NamesDiffer(f, g);
  }

  lemma {:induction false} NamesDiffer(f: Family, g: Family)
    ensures MetricName(f) == MetricName(g) <==> f == g
  {
    assert |MetricName(f)| == match f
      case Up => 10 case TcpSeconds => 27 case TlsSeconds => 29 case CertMatch => 18 case InitiationSent => 23;
    assert |MetricName(g)| == match g
      case Up => 10 case TcpSeconds => 27 case TlsSeconds => 29 case CertMatch => 18 case InitiationSent => 23;
  }

  lemma {:induction false} UpHelpIsOneLine()
    ensures OneLine(HelpText(Up))
  {
    OneLineAppend("Node is reachable ", "(both TCP and TLS succeeded)");
  }

  lemma {:induction false} CertHelpIsOneLine()
    ensures OneLine(HelpText(CertMatch))
  {
    OneLineAppend("Presented certificate ", "matches the expected SNI");
  }

  lemma {:induction false} SentHelpIsOneLine()
    ensures OneLine(HelpText(InitiationSent))
  {
    OneLineAppend("A valid protocol initiation was ", "sent and not contradicted; ");
    OneLineAppend("A valid protocol initiation was " + "sent and not contradicted; ", "not a liveness signal");
  }

  lemma {:induction false} HelpIsOneLine(f: Family)
    ensures OneLine(HelpText(f))
  {
    match f
    case Up => UpHelpIsOneLine();
    case TcpSeconds =>
    case TlsSeconds =>
    case CertMatch => CertHelpIsOneLine();
    case InitiationSent => SentHelpIsOneLine();
  }

  lemma {:induction false} SecondsAreNames()
    ensures Name(MetricName(TcpSeconds)) && Name(MetricName(TlsSeconds))
  {
  }

  lemma {:induction false} VerdictsAreNames()
    ensures Name(MetricName(Up)) && Name(MetricName(CertMatch)) && Name(MetricName(InitiationSent))
  {
  }

  lemma {:induction false} LabelsAreNames()
    ensures Name("node") && Name("region")
  {
  }

  lemma {:induction false} NamesAreNames(f: Family)
    ensures Name(MetricName(f)) && Name("node") && Name("region")
  {
    SecondsAreNames();
    VerdictsAreNames();
    LabelsAreNames();
  }

  lemma {:induction false} FamilyWellFormed(f: Family, rs: seq<Result>, fmt: Seconds4)
    requires OneLineNumbers(fmt)
    ensures AllWellFormed(FamilyLines(f, rs, fmt))
  {
    NamesAreNames(f);
    HelpIsOneLine(f);
    assert OneLine("gauge");
    SamplesWellFormed(f, rs, fmt);
    BlockWellFormed(Help(MetricName(f), HelpText(f)), Type(MetricName(f), "gauge"), Samples(f, rs, fmt));
  }

  lemma {:induction false} NumberIsOneLine(fmt: Seconds4, x: real)
    requires OneLineNumbers(fmt)
    ensures OneLine(fmt(x))
  {
  }

  lemma {:induction false} ValueIsOneLine(f: Family, r: Result, fmt: Seconds4)
    requires OneLineNumbers(fmt)
    ensures SampleValue(f, r, fmt).Some? ==> OneLine(SampleValue(f, r, fmt).value)
  {
    assert OneLine("0") && OneLine("1");
    match f
    case TcpSeconds => if r.tcpTime.Some? { NumberIsOneLine(fmt, r.tcpTime.value); }
    case TlsSeconds => if r.tlsTime.Some? { NumberIsOneLine(fmt, r.tlsTime.value); }
    case _ =>
  }

  lemma {:induction false} SamplesWellFormed(f: Family, rs: seq<Result>, fmt: Seconds4)
    requires OneLineNumbers(fmt) && Name(MetricName(f)) && Name("node") && Name("region")
    ensures AllWellFormed(Samples(f, rs, fmt))
  {
    if |rs| > 0 {
      SamplesWellFormed(f, rs[..|rs| - 1], fmt);
      ValueIsOneLine(f, rs[|rs| - 1], fmt);
    }
  }

  lemma {:induction false} BlocksWellFormed(fs: seq<Family>, rs: seq<Result>, fmt: Seconds4)
    requires OneLineNumbers(fmt)
    ensures AllWellFormed(Blocks(fs, rs, fmt))
  {
    if |fs| > 0 {
      FamilyWellFormed(fs[0], rs, fmt);
      BlocksWellFormed(fs[1..], rs, fmt);
    }
  }

  ghost predicate Distinct(fs: seq<Family>) { forall i, j :: 0 <= i < j < |fs| ==> fs[i] != fs[j] }

  lemma {:induction false} ScrapedFirst(f: Family, fs: seq<Family>, rs: seq<Result>, fmt: Seconds4, name: string)
    ensures Scraped(Blocks([f] + fs, rs, fmt), name) ==
      Scraped(FamilyLines(f, rs, fmt), name) + Scraped(Blocks(fs, rs, fmt), name)
  {
    assert ([f] + fs)[1..] == fs;
    ScrapedAppend(FamilyLines(f, rs, fmt), Blocks(fs, rs, fmt), name);
  }

  lemma {:induction false} ScrapedBlocks(fs: seq<Family>, rs: seq<Result>, fmt: Seconds4, f: Family)
    requires Distinct(fs)
    ensures Scraped(Blocks(fs, rs, fmt), MetricName(f)) == if f in fs then Samples(f, rs, fmt) else []
  {
    if |fs| > 0 {
      var head, tail := fs[0], fs[1..];
      assert fs == [head] + tail;
      ScrapedFirst(head, tail, rs, fmt, MetricName(f));
      ScrapedFamily(head, f, rs, fmt);
      ScrapedBlocks(tail, rs, fmt, f);
    }
  }

  /** The output parses, for any node names and regions, and a scrape of any metric finds
      exactly its samples, in the order of the results. */
  lemma {:induction false} ScrapeRecoversEveryFamily(rs: seq<Result>, fmt: Seconds4, f: Family)
    requires OneLineNumbers(fmt)
    ensures ParseAll(Render(Document(rs, fmt))) == Some(Document(rs, fmt))
    ensures Scraped(Document(rs, fmt), MetricName(f)) == Samples(f, rs, fmt)
  {
    BlocksRead(FAMILIES, rs, fmt, f);
  }

  lemma {:induction false} BlocksRead(fs: seq<Family>, rs: seq<Result>, fmt: Seconds4, f: Family)
    requires OneLineNumbers(fmt) && Distinct(fs) && f in fs
    ensures ParseAll(Render(Blocks(fs, rs, fmt))) == Some(Blocks(fs, rs, fmt))
    ensures Scraped(Blocks(fs, rs, fmt), MetricName(f)) == Samples(f, rs, fmt)
  {
    BlocksWellFormed(fs, rs, fmt);
    ParseRender(Blocks(fs, rs, fmt));
    ScrapedBlocks(fs, rs, fmt, f);
  }

  // ---- what the output shows ----

  function NodeAndRegion(r: Result): seq<Label> {
    [("node", r.target.name), ("region", r.target.region)]
  }

  ghost predicate ShowsResults(page: seq<Line>, rs: seq<Result>, fmt: Seconds4) {
    && Declares(page, "vpnnode_up") && Declares(page, "vpnnode_tcp_connect_seconds")
    && Declares(page, "vpnnode_tls_handshake_seconds") && Declares(page, "vpnnode_cert_match")
    && Declares(page, "vpnnode_initiation_sent")
    && Scraped(page, "vpnnode_up") == Column(rs, "vpnnode_up", NodeAndRegion,
         (r: Result) => !r.noLivenessClaim, (r: Result) => if r.ok then "1" else "0")
    && Scraped(page, "vpnnode_initiation_sent") == Column(rs, "vpnnode_initiation_sent", NodeAndRegion,
         (r: Result) => r.noLivenessClaim, (r: Result) => if r.ok then "1" else "0")
    && Scraped(page, "vpnnode_tcp_connect_seconds") == Column(rs, "vpnnode_tcp_connect_seconds", NodeAndRegion,
         (r: Result) => r.tcpTime.Some?, (r: Result) => if r.tcpTime.Some? then fmt(r.tcpTime.value) else "")
    && Scraped(page, "vpnnode_tls_handshake_seconds") == Column(rs, "vpnnode_tls_handshake_seconds", NodeAndRegion,
         (r: Result) => r.tlsTime.Some?, (r: Result) => if r.tlsTime.Some? then fmt(r.tlsTime.value) else "")
    && Scraped(page, "vpnnode_cert_match") == Column(rs, "vpnnode_cert_match", NodeAndRegion,
         (r: Result) => r.certMatch.Some?, (r: Result) => if r.certMatch == Some(true) then "1" else "0")
  }

  /** A family is the column of the results that have a value in it. */
  lemma {:induction false} SamplesAreColumn(f: Family, rs: seq<Result>, fmt: Seconds4, has: Result -> bool,
                                            text: Result -> string)
    requires forall r :: has(r) <==> SampleValue(f, r, fmt).Some?
    requires forall r :: has(r) ==> SampleValue(f, r, fmt) == Some(text(r))
    ensures Samples(f, rs, fmt) == Column(rs, MetricName(f), NodeAndRegion, has, text)
  {
    if |rs| > 0 {
      SamplesAreColumn(f, rs[..|rs| - 1], fmt, has, text);
    }
  }

  lemma {:induction false} VerdictColumns(rs: seq<Result>, fmt: Seconds4)
    ensures Samples(Up, rs, fmt) == Column(rs, "vpnnode_up", NodeAndRegion,
      (r: Result) => !r.noLivenessClaim, (r: Result) => if r.ok then "1" else "0")
    ensures Samples(InitiationSent, rs, fmt) == Column(rs, "vpnnode_initiation_sent", NodeAndRegion,
      (r: Result) => r.noLivenessClaim, (r: Result) => if r.ok then "1" else "0")
  {
    SamplesAreColumn(Up, rs, fmt, (r: Result) => !r.noLivenessClaim, (r: Result) => if r.ok then "1" else "0");
    SamplesAreColumn(InitiationSent, rs, fmt, (r: Result) => r.noLivenessClaim,
      (r: Result) => if r.ok then "1" else "0");
  }

  lemma {:induction false} TimeColumns(rs: seq<Result>, fmt: Seconds4)
    ensures Samples(TcpSeconds, rs, fmt) == Column(rs, "vpnnode_tcp_connect_seconds", NodeAndRegion,
      (r: Result) => r.tcpTime.Some?, (r: Result) => if r.tcpTime.Some? then fmt(r.tcpTime.value) else "")
    ensures Samples(TlsSeconds, rs, fmt) == Column(rs, "vpnnode_tls_handshake_seconds", NodeAndRegion,
      (r: Result) => r.tlsTime.Some?, (r: Result) => if r.tlsTime.Some? then fmt(r.tlsTime.value) else "")
  {
    SamplesAreColumn(TcpSeconds, rs, fmt, (r: Result) => r.tcpTime.Some?,
      (r: Result) => if r.tcpTime.Some? then fmt(r.tcpTime.value) else "");
    SamplesAreColumn(TlsSeconds, rs, fmt, (r: Result) => r.tlsTime.Some?,
      (r: Result) => if r.tlsTime.Some? then fmt(r.tlsTime.value) else "");
  }

  lemma {:induction false} MatchColumn(rs: seq<Result>, fmt: Seconds4)
    ensures Samples(CertMatch, rs, fmt) == Column(rs, "vpnnode_cert_match", NodeAndRegion,
      (r: Result) => r.certMatch.Some?, (r: Result) => if r.certMatch == Some(true) then "1" else "0")
  {
    SamplesAreColumn(CertMatch, rs, fmt, (r: Result) => r.certMatch.Some?,
      (r: Result) => if r.certMatch == Some(true) then "1" else "0");
  }

  lemma {:induction false} BlocksDeclare(fs: seq<Family>, rs: seq<Result>, fmt: Seconds4, f: Family)
    requires f in fs
    ensures Declares(Blocks(fs, rs, fmt), MetricName(f))
  {
    var head := FamilyLines(fs[0], rs, fmt);
    if fs[0] == f {
      assert head[0] == Help(MetricName(f), HelpText(f)) && head[1] == Type(MetricName(f), "gauge");
      assert head[0] in head && head[1] in head;
    } else {
      assert fs == [fs[0]] + fs[1..];
      BlocksDeclare(fs[1..], rs, fmt, f);
    }
  }

  lemma {:induction false} DocumentShows(rs: seq<Result>, fmt: Seconds4)
    requires OneLineNumbers(fmt)
    ensures ParseAll(Render(Document(rs, fmt))) == Some(Document(rs, fmt)) && ShowsResults(Document(rs, fmt), rs, fmt)
  {
    DocumentHasAll(rs, fmt);
    HasAllShows(Document(rs, fmt), rs, fmt);
  }

  /** Each family is declared and holds its samples. */
  ghost predicate HasAll(page: seq<Line>, rs: seq<Result>, fmt: Seconds4) {
    forall f: Family :: Scraped(page, MetricName(f)) == Samples(f, rs, fmt) && Declares(page, MetricName(f))
  }

  lemma {:induction false} DocumentHasAll(rs: seq<Result>, fmt: Seconds4)
    requires OneLineNumbers(fmt)
    ensures ParseAll(Render(Document(rs, fmt))) == Some(Document(rs, fmt)) && HasAll(Document(rs, fmt), rs, fmt)
  {
    ScrapeRecoversEveryFamily(rs, fmt, Up);
    forall f: Family
      ensures Scraped(Document(rs, fmt), MetricName(f)) == Samples(f, rs, fmt) && Declares(Document(rs, fmt),
        MetricName(f))
    {
      FamilyShown(rs, fmt, f);
    }
  }

  lemma {:induction false} HasAllShows(page: seq<Line>, rs: seq<Result>, fmt: Seconds4)
    requires HasAll(page, rs, fmt)
    ensures ShowsResults(page, rs, fmt)
  {
    assert Declares(page, MetricName(Up)) && Declares(page, MetricName(TcpSeconds)) && Declares(page,
      MetricName(TlsSeconds));
    assert Declares(page, MetricName(CertMatch)) && Declares(page, MetricName(InitiationSent));
    VerdictColumns(rs, fmt);
    TimeColumns(rs, fmt);
    MatchColumn(rs, fmt);
  }

  lemma {:induction false} FamilyShown(rs: seq<Result>, fmt: Seconds4, f: Family)
    requires OneLineNumbers(fmt)
    ensures var page := Document(rs, fmt);
      ParseAll(Render(page)) == Some(page) && Scraped(page, MetricName(f)) ==
        Samples(f, rs, fmt) && Declares(page, MetricName(f))
  {
    ScrapeRecoversEveryFamily(rs, fmt, f);
    assert f in FAMILIES;
    BlocksDeclare(FAMILIES, rs, fmt, f);
  }

  /** The whole output. A scrape of it finds, for every node name and region, in the order of
      the results: the verdict of each result in one of two metrics, each time that was
      measured, and each match of a certificate; and every metric is declared, whether or not
      it has a sample. */
  method WriteProm(results: seq<Result>, fmt: Seconds4) returns (w: string)
    ensures w == Render(Document(results, fmt))
    ensures OneLineNumbers(fmt) ==> ParseAll(w).Some? && ShowsResults(ParseAll(w).value, results, fmt)
  {
    RenderFive(Up, TcpSeconds, TlsSeconds, CertMatch, InitiationSent, results, fmt);
    w := WriteFamily("", Up, results, fmt);
    w := WriteFamily(w, TcpSeconds, results, fmt);
    w := WriteFamily(w, TlsSeconds, results, fmt);
    w := WriteFamily(w, CertMatch, results, fmt);
    w := WriteFamily(w, InitiationSent, results, fmt);
    if OneLineNumbers(fmt) {
      DocumentShows(results, fmt);
    }
  }

  // ---- the exit code ----

  /** The last scan of `main`, when nothing is pushed: 1 if any node is down. */
  method ExitCode(results: seq<Result>) returns (code: int)
    ensures code == if exists i :: 0 <= i < |results| && !results[i].ok then 1 else 0
  {
    for i := 0 to |results|
      invariant forall j :: 0 <= j < i ==> results[j].ok
    {
      if !results[i].ok { return 1; }
    }
    code := 0;
  }

  predicate AllOnes(ls: seq<Line>) {
    forall i :: 0 <= i < |ls| ==> ls[i].Sample? && ls[i].value == "1"
  }

  /** The results that have a sample in a family. */
  function Sampled(f: Family, rs: seq<Result>, fmt: Seconds4): seq<nat> {
    if |rs| == 0 then []
    else Sampled(f, rs[..|rs| - 1], fmt) + if SampleValue(f, rs[|rs| - 1], fmt).Some? then [|rs| - 1] else []
  }

  /** A family holds one sample for each result that has a value in it and for no other, with
      that result's own labels and value, in the order of the results. */
  lemma {:induction false} SamplesOneByOne(f: Family, rs: seq<Result>, fmt: Seconds4)
    ensures var at, ls := Sampled(f, rs, fmt), Samples(f, rs, fmt);
      && |at| == |ls| && (forall k, m :: 0 <= k < m < |at| ==> at[k] < at[m])
      && (forall k :: 0 <= k < |at| ==>
            && at[k] < |rs| && SampleValue(f, rs[at[k]], fmt).Some?
            && ls[k] == SampleOf(f, rs[at[k]], SampleValue(f, rs[at[k]], fmt).value))
      && (forall i :: 0 <= i < |rs| && SampleValue(f, rs[i], fmt).Some? ==> i in at)
  {
    SampledInOrder(f, rs, fmt);
    if |rs| > 0 {
      var n := |rs| - 1;
      SamplesOneByOne(f, rs[..n], fmt);
    }
  }

  lemma {:induction false} SampledInOrder(f: Family, rs: seq<Result>, fmt: Seconds4)
    ensures var at := Sampled(f, rs, fmt);
      && (forall k :: 0 <= k < |at| ==> at[k] < |rs|)
      && (forall k, m :: 0 <= k < m < |at| ==> at[k] < at[m])
      && (forall i :: 0 <= i < |rs| ==> (i in at <==> SampleValue(f, rs[i], fmt).Some?))
  {
    if |rs| > 0 {
      var n := |rs| - 1;
      SampledInOrder(f, rs[..n], fmt);
      var before := Sampled(f, rs[..n], fmt);
      forall i | 0 <= i < n ensures i in before <==> SampleValue(f, rs[i], fmt).Some? {
        assert rs[..n][i] == rs[i];
      }
    }
  }

  /** Every result has its verdict in exactly one of the two verdict metrics, and all nodes
      are well exactly when every sample of both is 1. */
  lemma {:induction false} OneVerdictSampleEach(rs: seq<Result>, fmt: Seconds4)
    ensures forall i :: 0 <= i < |rs| ==>
      && (i in Sampled(Up, rs, fmt) <==> i !in Sampled(InitiationSent, rs, fmt))
      && (i in Sampled(InitiationSent, rs, fmt) <==> rs[i].noLivenessClaim)
    ensures (forall i :: 0 <= i < |rs| ==> rs[i].ok) <==>
      AllOnes(Samples(Up, rs, fmt)) && AllOnes(Samples(InitiationSent, rs, fmt))
  {
    SamplesOneByOne(Up, rs, fmt);
    SamplesOneByOne(InitiationSent, rs, fmt);
    AllOnesIff(rs, fmt);
  }

  lemma {:induction false} AllOnesIff(rs: seq<Result>, fmt: Seconds4)
    ensures (forall i :: 0 <= i < |rs| ==> rs[i].ok) <==>
      AllOnes(Samples(Up, rs, fmt)) && AllOnes(Samples(InitiationSent, rs, fmt))
  {
    if |rs| > 0 {
      var n := |rs| - 1;
      AllOnesIff(rs[..n], fmt);
      var f := if rs[n].noLivenessClaim then InitiationSent else Up;
      var line := SampleOf(f, rs[n], Digit(rs[n].ok));
      assert Samples(f, rs, fmt) == Samples(f, rs[..n], fmt) + [line];
      AllOnesSnoc(Samples(f, rs[..n], fmt), line);
      assert (forall i :: 0 <= i < |rs| ==> rs[i].ok) <==> rs[n].ok && forall i :: 0 <= i < n ==> rs[..n][i].ok;
    }
  }

  /** The Prometheus format without a push: what is printed, and the exit code. The code is 0
      exactly when all verdicts that a scrape of the output finds are 1. */
  method Report(results: seq<Result>, fmt: Seconds4) returns (w: string, code: int)
    requires OneLineNumbers(fmt)
    ensures code == 0 || code == 1
    ensures ParseAll(w).Some? && var page := ParseAll(w).value;
      && ShowsResults(page, results, fmt)
      && (code == 0 <==> AllOnes(Scraped(page, "vpnnode_up")) && AllOnes(Scraped(page, "vpnnode_initiation_sent")))
  {
    w := WriteProm(results, fmt);
    code := ExitCode(results);
    DocumentHasAll(results, fmt);
    VerdictsShown(Document(results, fmt), results, fmt);
  }

  lemma {:induction false} VerdictsShown(page: seq<Line>, rs: seq<Result>, fmt: Seconds4)
    requires HasAll(page, rs, fmt)
    ensures (forall i :: 0 <= i < |rs| ==> rs[i].ok) <==>
      AllOnes(Scraped(page, "vpnnode_up")) && AllOnes(Scraped(page, "vpnnode_initiation_sent"))
  {
    assert Scraped(page, MetricName(Up)) == Samples(Up, rs, fmt);
    assert Scraped(page, MetricName(InitiationSent)) == Samples(InitiationSent, rs, fmt);
    AllOnesIff(rs, fmt);
  }

  lemma {:induction false} AllOnesSnoc(ls: seq<Line>, l: Line)
    ensures AllOnes(ls + [l]) <==> AllOnes(ls) && l.Sample? && l.value == "1"
  {
    if AllOnes(ls + [l]) {
      assert (ls + [l])[|ls|] == l;
      forall i | 0 <= i < |ls| ensures ls[i].Sample? && ls[i].value == "1" {
        assert (ls + [l])[i] == ls[i];
      }
    }
  }
}
