/** The `/metrics` page of probestore, built from the newest row of every node. */
module MetricsPage {
  import opened Base
  import opened Schema
  import opened Exposition
  import opened IngestSystem
  import opened Queries

  /** The two numeric formats of the page: any text on one line. */
  datatype Numbers = Numbers(six: real -> string, one: int -> string) {
    ghost predicate AllOneLine() {
      (forall x :: OneLine(six(x))) && (forall t :: OneLine(one(t)))
    }
  }

  datatype Gauge = NodeUp | HandshakeSeconds | CheckAge

  function GaugeName(g: Gauge): string {
    match g
    case NodeUp => "nodecheck_node_up"
    case HandshakeSeconds => "nodecheck_handshake_seconds"
    case CheckAge => "nodecheck_last_check_age_seconds"
  }

  function GaugeHelp(g: Gauge): string {
    match g
    case NodeUp => "Node passed both TCP connect " + "and TLS handshake."
    case HandshakeSeconds => "Duration of the last " + "successful probe."
    case CheckAge => "Age of the most recent " + "probe result."
  }

  type Row = (NodeOut, ResultRow)

  function NodeLabels(n: NodeOut): seq<Label> {
    [("node", n.info.name), ("addr", n.key.addr), ("sni", n.key.sni),
     ("provider", if n.info.provider.Some? then n.info.provider.value else "")]
  }

  function Value(g: Gauge, m: Measurement, now: int, fmt: Numbers): Option<string> {
    match g
    case NodeUp => Some(if m.tcpOk && m.tlsOk then "1" else "0")
    case HandshakeSeconds => if m.latencyMs.Some? then Some(fmt.six(m.latencyMs.value / 1000.0)) else None
    case CheckAge => Some(fmt.one(now - m.ts))
  }

  function GaugeSamples(g: Gauge, rows: seq<Row>, now: int, fmt: Numbers): seq<Line> {
    if |rows| == 0 then []
    else
      var (n, r) := rows[|rows| - 1];
      var before := GaugeSamples(g, rows[..|rows| - 1], now, fmt);
      match Value(g, r.m, now, fmt)
      case None => before
      case Some(v) => before + [Sample(GaugeName(g), NodeLabels(n), v)]
  }

  function GaugeLines(g: Gauge, rows: seq<Row>, now: int, fmt: Numbers): seq<Line> {
    [Help(GaugeName(g), GaugeHelp(g)), Type(GaugeName(g), "gauge")] + GaugeSamples(g, rows, now, fmt)
  }

  function Page(rows: seq<Row>, now: int, fmt: Numbers): seq<Line> {
    GaugeLines(NodeUp, rows, now, fmt) + GaugeLines(HandshakeSeconds, rows, now, fmt)
    + GaugeLines(CheckAge, rows, now, fmt)
  }

  /** The label set as the page formats it, braces included. */
  function LabelText(n: NodeOut): string {
    "{" + ("node=\"" + Escape(n.info.name) + "\"") + "," + ("addr=\"" + Escape(n.key.addr) + "\"") + ","
    + ("sni=\"" + Escape(n.key.sni) + "\"") + ","
    + ("provider=\"" + Escape(if n.info.provider.Some? then n.info.provider.value else "") + "\"") + "}"
  }

  /** Lines joined by newlines, with one more at the end. */
  function Joined(lines: seq<string>): string {
    if |lines| == 0 then "" else Joined(lines[..|lines| - 1]) + lines[|lines| - 1] + "\n"
  }

  lemma {:induction false} OneLabel(name: string, value: string)
    ensures RenderLabels([(name, value)]) == name + "=\"" + Escape(value) + "\""
  {
    assert RenderLabels([(name, value)]) == name + "=\"" + Escape(value) + "\"" + "";
  }

  lemma {:induction false} MoreLabels(l: Label, ls: seq<Label>)
    requires |ls| > 0
    ensures RenderLabels([l] + ls) == (l.0 + "=\"" + Escape(l.1) + "\"") + ("," + RenderLabels(ls))
  {
    assert ([l] + ls)[1..] == ls;
  }

  lemma {:induction false} LabelTextIsRendered(n: NodeOut)
    ensures LabelText(n) == "{" + RenderLabels(NodeLabels(n)) + "}"
  {
    var p := if n.info.provider.Some? then n.info.provider.value else "";
    var a, b, c, d := ("node", n.info.name), ("addr", n.key.addr), ("sni", n.key.sni), ("provider", p);
    OneLabel("provider", p);
    MoreLabels(c, [d]);
    MoreLabels(b, [c] + [d]);
    MoreLabels(a, [b] + ([c] + [d]));
    assert NodeLabels(n) == [a] + ([b] + ([c] + [d]));
    var at, bt, ct, dt := "node=\"" + Escape(a.1) + "\"", "addr=\"" + Escape(b.1) + "\"",
      "sni=\"" + Escape(c.1) + "\"", "provider=\"" + Escape(d.1) + "\"";
    assert "node" + "=\"" == "node=\"" && "addr" + "=\"" == "addr=\"";
    assert "sni" + "=\"" == "sni=\"" && "provider" + "=\"" == "provider=\"";
    assert RenderLabels(NodeLabels(n)) == at + ("," + (bt + ("," + (ct + ("," + dt)))));
    FourJoined(at, bt, ct, dt);
  }

  lemma {:induction false} FourJoined(a: string, b: string, c: string, d: string)
    ensures "{" + a + "," + b + "," + c + "," + d + "}" == "{" + (a + ("," + (b + ("," + (c + ("," + d)))))) + "}"
  {
    Assoc("{" + a + ",", b, "," + (c + ("," + d)));
    Assoc("{" + a + "," + b, ",", c + ("," + d));
    Assoc("{" + a + "," + b + ",", c, "," + d);
    Assoc("{" + a + "," + b + "," + c, ",", d);
    Assoc("{" + a, ",", b + ("," + (c + ("," + d))));
    Assoc("{", a, "," + (b + ("," + (c + ("," + d)))));
  }

  lemma {:induction false} HeaderJoined(lines: seq<string>, g: Gauge)
    ensures Joined(lines + ["# HELP " + GaugeName(g) + " " + GaugeHelp(g)] + ["# TYPE " + GaugeName(g) + " " + "gauge"])
      == Joined(lines) + Render([Help(GaugeName(g), GaugeHelp(g)), Type(GaugeName(g), "gauge")])
  {
    var h, t := Help(GaugeName(g), GaugeHelp(g)), Type(GaugeName(g), "gauge");
    var help, kind := "# HELP " + GaugeName(g) + " " + GaugeHelp(g), "# TYPE " + GaugeName(g) + " " + "gauge";
    assert Joined(lines) == Joined(lines) + Render([]);
    JoinedSnoc(lines, help, h, []);
    assert [] + [h] == [h];
    JoinedSnoc(lines, kind, t, [h], lines + [help]);
    assert [h] + [t] == [h, t];
  }

  lemma {:induction false} GaugeStep(g: Gauge, rows: seq<Row>, i: nat, now: int, fmt: Numbers)
    requires i < |rows|
    ensures GaugeSamples(g, rows[..i + 1], now, fmt) == match Value(g, rows[i].1.m, now, fmt)
      case None => GaugeSamples(g, rows[..i], now, fmt)
      case Some(v) => GaugeSamples(g, rows[..i], now, fmt) + [Sample(GaugeName(g), NodeLabels(rows[i].0), v)]
  {
    assert rows[..i + 1][..i] == rows[..i];
  }

  lemma {:induction false} SampleJoined(lines: seq<string>, sofar: seq<string>, head: seq<Line>, before: seq<Line>,
                                        g: Gauge, n: NodeOut, v: string)
    requires Joined(sofar) == Joined(lines) + Render(head + before)
    ensures Joined(sofar + [GaugeName(g) + LabelText(n) + " " + v])
      == Joined(lines) + Render(head + (before + [Sample(GaugeName(g), NodeLabels(n), v)]))
  {
    var line := Sample(GaugeName(g), NodeLabels(n), v);
    SampleTextIsLine(g, n, v);
    JoinedSnoc(lines, GaugeName(g) + LabelText(n) + " " + v, line, head + before, sofar);
    assert head + (before + [line]) == (head + before) + [line];
  }

  /** Adding one gauge's lines to the page under construction. */
  method AddGauge(lines: seq<string>, g: Gauge, rows: seq<Row>, now: int, fmt: Numbers) returns (lines': seq<string>)
    ensures Joined(lines') == Joined(lines) + Render(GaugeLines(g, rows, now, fmt))
  {
    ghost var head := [Help(GaugeName(g), GaugeHelp(g)), Type(GaugeName(g), "gauge")];
    lines' := lines + ["# HELP " + GaugeName(g) + " " + GaugeHelp(g)] + ["# TYPE " + GaugeName(g) + " " + "gauge"];
    HeaderJoined(lines, g);
    assert head + [] == head;
    for i := 0 to |rows|
      invariant Joined(lines') == Joined(lines) + Render(head + GaugeSamples(g, rows[..i], now, fmt))
    {
      var (node, result) := rows[i];
      var v := Value(g, result.m, now, fmt);
      GaugeStep(g, rows, i, now, fmt);
      if v.Some? {
        SampleJoined(lines, lines', head, GaugeSamples(g, rows[..i], now, fmt), g, node, v.value);
        lines' := lines' + [GaugeName(g) + LabelText(node) + " " + v.value];
      }
    }
    assert rows[..|rows|] == rows;
  }

  lemma {:induction false} SampleTextIsLine(g: Gauge, n: NodeOut, v: string)
    ensures GaugeName(g) + LabelText(n) + " " + v + "\n" == RenderLine(Sample(GaugeName(g), NodeLabels(n), v))
  {
    LabelTextIsRendered(n);
    var ls := RenderLabels(NodeLabels(n));
    Assoc(GaugeName(g), "{" + ls, "}");
    Assoc(GaugeName(g), "{", ls);
    Assoc(GaugeName(g) + "{" + ls, "}", " ");
    assert "}" + " " == "} ";
  }

  lemma {:induction false} JoinedSnoc(base: seq<string>, text: string, line: Line, before: seq<Line>,
                                      sofar: seq<string> := base)
    requires text + "\n" == RenderLine(line) && Joined(sofar) == Joined(base) + Render(before)
    ensures Joined(sofar + [text]) == Joined(base) + Render(before + [line])
  {
    assert (sofar + [text])[..|sofar|] == sofar;
    Assoc(Joined(sofar), text, "\n");
    RenderSnoc(before, line);
    Assoc(Joined(base), Render(before), RenderLine(line));
  }

  // ---- what a scrape reads ----

  lemma {:induction false} GaugeHelpIsOneLine(g: Gauge)
    ensures OneLine(GaugeHelp(g))
  {
    match g
    case NodeUp => OneLineAppend("Node passed both TCP connect ", "and TLS handshake.");
    case HandshakeSeconds => OneLineAppend("Duration of the last ", "successful probe.");
    case CheckAge => OneLineAppend("Age of the most recent ", "probe result.");
  }

  lemma {:induction false} GaugeNameIsName(g: Gauge)
    ensures Name(GaugeName(g))
  {
  }

  lemma {:induction false} GaugeNamesDiffer(a: Gauge, b: Gauge)
    ensures GaugeName(a) == GaugeName(b) <==> a == b
  {
    assert |GaugeName(a)| == match a case NodeUp => 17 case HandshakeSeconds => 27 case CheckAge => 32;
    assert |GaugeName(b)| == match b case NodeUp => 17 case HandshakeSeconds => 27 case CheckAge => 32;
  }

  lemma {:induction false} SixIsOneLine(fmt: Numbers, x: real)
    requires fmt.AllOneLine()
    ensures OneLine(fmt.six(x))
  {
  }

  lemma {:induction false} ValueIsOneLine(g: Gauge, m: Measurement, now: int, fmt: Numbers)
    requires fmt.AllOneLine()
    ensures Value(g, m, now, fmt).Some? ==> OneLine(Value(g, m, now, fmt).value)
  {
    assert OneLine("0") && OneLine("1");
    match g
    case HandshakeSeconds => if m.latencyMs.Some? { SixIsOneLine(fmt, m.latencyMs.value / 1000.0); }
    case _ =>
  }

  lemma {:induction false} NodeSampleReads(g: Gauge, n: NodeOut, v: string)
    requires OneLine(v) && Name(GaugeName(g))
    ensures WellFormed(Sample(GaugeName(g), NodeLabels(n), v))
  {
    assert Name("node") && Name("addr") && Name("sni") && Name("provider");
  }

  lemma {:induction false} GaugeSamplesRead(g: Gauge, rows: seq<Row>, now: int, fmt: Numbers)
    requires fmt.AllOneLine() && Name(GaugeName(g))
    ensures AllWellFormed(GaugeSamples(g, rows, now, fmt))
    ensures forall i :: 0 <= i < |GaugeSamples(g, rows, now, fmt)| ==>
      GaugeSamples(g, rows, now, fmt)[i].Sample? && GaugeSamples(g, rows, now, fmt)[i].name == GaugeName(g)
  {
    if |rows| > 0 {
      GaugeSamplesRead(g, rows[..|rows| - 1], now, fmt);
      var (n, r) := rows[|rows| - 1];
      ValueIsOneLine(g, r.m, now, fmt);
      if Value(g, r.m, now, fmt).Some? {
        NodeSampleReads(g, n, Value(g, r.m, now, fmt).value);
      }
    }
  }

  lemma {:induction false} GaugeLinesRead(g: Gauge, name: Gauge, rows: seq<Row>, now: int, fmt: Numbers)
    requires fmt.AllOneLine()
    ensures AllWellFormed(GaugeLines(g, rows, now, fmt))
    ensures Scraped(GaugeLines(g, rows, now, fmt), GaugeName(name)) ==
      if g == name then GaugeSamples(name, rows, now, fmt) else []
  {
    GaugeNameIsName(g);
    GaugeSamplesRead(g, rows, now, fmt);
    GaugeHelpIsOneLine(g);
    assert OneLine("gauge");
    var h, t := Help(GaugeName(g), GaugeHelp(g)), Type(GaugeName(g), "gauge");
    BlockWellFormed(h, t, GaugeSamples(g, rows, now, fmt));
    ScrapedBlock(h, t, GaugeSamples(g, rows, now, fmt), GaugeName(g), GaugeName(name));
    GaugeNamesDiffer(g, name);
  }

  lemma {:induction false} OneOfThree(a: seq<Line>, b: seq<Line>, c: seq<Line>, name: string, found: seq<Line>)
    requires (Scraped(a, name), Scraped(b, name), Scraped(c, name)) in
      {(found, [], []), ([], found, []), ([], [], found)}
    ensures Scraped(a + b + c, name) == found
  {
    ScrapedAppend(a + b, c, name);
    ScrapedAppend(a, b, name);
  }

  /** The page parses, for any names, addresses and providers, and a scrape of any gauge
      finds exactly its samples in order. */
  lemma {:induction false} ScrapeRecoversEveryGauge(rows: seq<Row>, now: int, fmt: Numbers, g: Gauge)
    requires fmt.AllOneLine()
    ensures ParseAll(Render(Page(rows, now, fmt))) == Some(Page(rows, now, fmt))
    ensures Scraped(Page(rows, now, fmt), GaugeName(g)) == GaugeSamples(g, rows, now, fmt)
  {
    PageParses(rows, now, fmt);
    GaugesScraped(NodeUp, HandshakeSeconds, CheckAge, rows, now, fmt, g);
  }

  lemma {:induction false} PageParses(rows: seq<Row>, now: int, fmt: Numbers)
    requires fmt.AllOneLine()
    ensures ParseAll(Render(Page(rows, now, fmt))) == Some(Page(rows, now, fmt))
  {
    GaugeLinesRead(NodeUp, NodeUp, rows, now, fmt);
    GaugeLinesRead(HandshakeSeconds, NodeUp, rows, now, fmt);
    GaugeLinesRead(CheckAge, NodeUp, rows, now, fmt);
    ThreeParse(GaugeLines(NodeUp, rows, now, fmt), GaugeLines(HandshakeSeconds, rows, now, fmt),
      GaugeLines(CheckAge, rows, now, fmt));
  }

  lemma {:induction false} ThreeParse(a: seq<Line>, b: seq<Line>, c: seq<Line>)
    requires AllWellFormed(a) && AllWellFormed(b) && AllWellFormed(c)
    ensures ParseAll(Render(a + b + c)) == Some(a + b + c)
  {
    ParseRender(a + b + c);
  }

  lemma {:induction false} GaugesScraped(a: Gauge, b: Gauge, c: Gauge, rows: seq<Row>, now: int, fmt: Numbers, g: Gauge)
    requires fmt.AllOneLine() && a != b && b != c && a != c && g in {a, b, c}
    ensures var page := GaugeLines(a, rows, now, fmt) + GaugeLines(b, rows, now, fmt) + GaugeLines(c, rows, now, fmt);
      Scraped(page, GaugeName(g)) == GaugeSamples(g, rows, now, fmt)
  {
    GaugeLinesRead(a, g, rows, now, fmt);
    GaugeLinesRead(b, g, rows, now, fmt);
    GaugeLinesRead(c, g, rows, now, fmt);
    OneOfThree(GaugeLines(a, rows, now, fmt), GaugeLines(b, rows, now, fmt), GaugeLines(c, rows, now, fmt),
      GaugeName(g), GaugeSamples(g, rows, now, fmt));
  }

  // ---- what the page shows ----

  /** The four labels of a node, with an absent provider as an empty text. */
  function FourLabels(row: Row): seq<Label> {
    [("node", row.0.info.name), ("addr", row.0.key.addr), ("sni", row.0.key.sni),
     ("provider", if row.0.info.provider == None then "" else row.0.info.provider.value)]
  }

  ghost predicate ShowsRows(page: seq<Line>, rows: seq<Row>, now: int, fmt: Numbers) {
    && Declares(page, "nodecheck_node_up") && Declares(page, "nodecheck_handshake_seconds")
    && Declares(page, "nodecheck_last_check_age_seconds")
    && Scraped(page, "nodecheck_node_up") == Column(rows, "nodecheck_node_up", FourLabels,
         (row: Row) => true, (row: Row) => if row.1.m.tcpOk && row.1.m.tlsOk then "1" else "0")
    && Scraped(page, "nodecheck_handshake_seconds") == Column(rows, "nodecheck_handshake_seconds", FourLabels,
         (row: Row) => row.1.m.latencyMs.Some?,
         (row: Row) => if row.1.m.latencyMs.Some? then fmt.six(row.1.m.latencyMs.value / 1000.0) else "")
    && Scraped(page, "nodecheck_last_check_age_seconds") == Column(rows, "nodecheck_last_check_age_seconds", FourLabels,
         (row: Row) => true, (row: Row) => fmt.one(now - row.1.m.ts))
  }

  /** A gauge is the column of the rows that have a value in it. */
  lemma {:induction false} GaugeIsColumn(g: Gauge, rows: seq<Row>, now: int, fmt: Numbers, has: Row -> bool,
                                         text: Row -> string)
    requires forall row: Row :: has(row) <==> Value(g, row.1.m, now, fmt).Some?
    requires forall row: Row :: has(row) ==> Value(g, row.1.m, now, fmt) == Some(text(row))
    ensures GaugeSamples(g, rows, now, fmt) == Column(rows, GaugeName(g), FourLabels, has, text)
  {
    if |rows| > 0 {
      var n := |rows| - 1;
      GaugeIsColumn(g, rows[..n], now, fmt, has, text);
      assert NodeLabels(rows[n].0) == FourLabels(rows[n]);
    }
  }

  lemma {:induction false} UpColumn(rows: seq<Row>, now: int, fmt: Numbers)
    ensures GaugeSamples(NodeUp, rows, now, fmt) == Column(rows, "nodecheck_node_up", FourLabels,
      (row: Row) => true, (row: Row) => if row.1.m.tcpOk && row.1.m.tlsOk then "1" else "0")
  {
    GaugeIsColumn(NodeUp, rows, now, fmt, (row: Row) => true,
      (row: Row) => if row.1.m.tcpOk && row.1.m.tlsOk then "1" else "0");
  }

  lemma {:induction false} HandshakeColumn(rows: seq<Row>, now: int, fmt: Numbers)
    ensures GaugeSamples(HandshakeSeconds, rows, now, fmt) == Column(rows, "nodecheck_handshake_seconds", FourLabels,
      (row: Row) => row.1.m.latencyMs.Some?,
      (row: Row) => if row.1.m.latencyMs.Some? then fmt.six(row.1.m.latencyMs.value / 1000.0) else "")
  {
    GaugeIsColumn(HandshakeSeconds, rows, now, fmt, (row: Row) => row.1.m.latencyMs.Some?,
      (row: Row) => if row.1.m.latencyMs.Some? then fmt.six(row.1.m.latencyMs.value / 1000.0) else "");
  }

  lemma {:induction false} AgeColumn(rows: seq<Row>, now: int, fmt: Numbers)
    ensures GaugeSamples(CheckAge, rows, now, fmt) == Column(rows, "nodecheck_last_check_age_seconds", FourLabels,
      (row: Row) => true, (row: Row) => fmt.one(now - row.1.m.ts))
  {
    GaugeIsColumn(CheckAge, rows, now, fmt, (row: Row) => true, (row: Row) => fmt.one(now - row.1.m.ts));
  }

  lemma {:induction false} BlockDeclares(before: seq<Line>, g: Gauge, rows: seq<Row>, now: int, fmt: Numbers,
                                         after: seq<Line>)
    ensures Declares(before + GaugeLines(g, rows, now, fmt) + after, GaugeName(g))
  {
    var help, kind := Help(GaugeName(g), GaugeHelp(g)), Type(GaugeName(g), "gauge");
    var block := GaugeLines(g, rows, now, fmt);
    assert block[0] == help && block[1] == kind;
    var page := before + block + after;
    assert page[|before|] == help && page[|before| + 1] == kind;
    assert help in page && kind in page;
  }

  /** Each gauge is declared and holds its samples. */
  ghost predicate HasGauges(page: seq<Line>, rows: seq<Row>, now: int, fmt: Numbers) {
    forall g: Gauge :: Scraped(page, GaugeName(g)) == GaugeSamples(g, rows, now, fmt) && Declares(page, GaugeName(g))
  }

  lemma {:induction false} PageDeclares(g: Gauge, rows: seq<Row>, now: int, fmt: Numbers)
    ensures Declares(Page(rows, now, fmt), GaugeName(g))
  {
    var a, b, c := GaugeLines(NodeUp, rows, now, fmt), GaugeLines(HandshakeSeconds, rows, now, fmt),
      GaugeLines(CheckAge, rows, now, fmt);
    match g
    case NodeUp =>
      BlockDeclares([], NodeUp, rows, now, fmt, b + c);
      assert [] + a + (b + c) == a + b + c;
    case HandshakeSeconds => BlockDeclares(a, HandshakeSeconds, rows, now, fmt, c);
    case CheckAge =>
      BlockDeclares(a + b, CheckAge, rows, now, fmt, []);
      assert a + b + c + [] == a + b + c;
  }

  lemma {:induction false} HasGaugesShows(page: seq<Line>, rows: seq<Row>, now: int, fmt: Numbers)
    requires HasGauges(page, rows, now, fmt)
    ensures ShowsRows(page, rows, now, fmt)
  {
    assert Declares(page, GaugeName(NodeUp)) && Declares(page, GaugeName(HandshakeSeconds));
    assert Declares(page, GaugeName(CheckAge));
    UpColumn(rows, now, fmt);
    HandshakeColumn(rows, now, fmt);
    AgeColumn(rows, now, fmt);
  }

  lemma {:induction false} PageHasGauges(rows: seq<Row>, now: int, fmt: Numbers)
    requires fmt.AllOneLine()
    ensures ParseAll(Render(Page(rows, now, fmt))) == Some(Page(rows, now, fmt))
    ensures HasGauges(Page(rows, now, fmt), rows, now, fmt)
  {
    PageParses(rows, now, fmt);
    forall g: Gauge
      ensures Scraped(Page(rows, now, fmt), GaugeName(g)) == GaugeSamples(g, rows, now, fmt)
        && Declares(Page(rows, now, fmt), GaugeName(g))
    {
      ScrapeRecoversEveryGauge(rows, now, fmt, g);
      PageDeclares(g, rows, now, fmt);
    }
  }

  /** The page. A scrape of it finds, in the order of the rows and under the four labels of
      each node: whether it is up, its latency in seconds if it has one, and the age of its
      result; and every gauge is declared. */
  method Metrics(rows: seq<Row>, now: int, fmt: Numbers) returns (content: string)
    ensures content == Render(Page(rows, now, fmt))
    ensures fmt.AllOneLine() ==> ParseAll(content).Some? && ShowsRows(ParseAll(content).value, rows, now, fmt)
  {
    var lines := AddGauge([], NodeUp, rows, now, fmt);
    lines := AddGauge(lines, HandshakeSeconds, rows, now, fmt);
    lines := AddGauge(lines, CheckAge, rows, now, fmt);
    content := Joined(lines);
    PageJoined(rows, now, fmt);
    if fmt.AllOneLine() {
      PageHasGauges(rows, now, fmt);
      HasGaugesShows(Page(rows, now, fmt), rows, now, fmt);
    }
  }

  lemma {:induction false} PageJoined(rows: seq<Row>, now: int, fmt: Numbers)
    ensures Render(Page(rows, now, fmt)) == "" + Render(GaugeLines(NodeUp, rows, now, fmt))
      + Render(GaugeLines(HandshakeSeconds, rows, now, fmt)) + Render(GaugeLines(CheckAge, rows, now, fmt))
  {
    var a, b, c := GaugeLines(NodeUp, rows, now, fmt), GaugeLines(HandshakeSeconds, rows, now, fmt),
      GaugeLines(CheckAge, rows, now, fmt);
    RenderAppend(a + b, c);
    RenderAppend(a, b);
    assert "" + Render(a) == Render(a);
  }

  predicate HasRow(g: Gauge, rows: seq<Row>, now: int, fmt: Numbers, labels: seq<Label>, v: string) {
    exists j :: 0 <= j < |rows| && NodeLabels(rows[j].0) == labels && Value(g, rows[j].1.m, now, fmt) == Some(v)
  }

  /** A gauge has a sample of a value under a label set exactly if some row has both. */
  lemma {:induction false} GaugeShowsIff(g: Gauge, rows: seq<Row>, now: int, fmt: Numbers, labels: seq<Label>,
                                         v: string)
    ensures Sample(GaugeName(g), labels, v) in GaugeSamples(g, rows, now, fmt) <==> HasRow(g, rows, now, fmt, labels, v)
  {
    if |rows| > 0 {
      var n := |rows| - 1;
      GaugeShowsIff(g, rows[..n], now, fmt, labels, v);
      HasRowStep(g, rows, now, fmt, labels, v);
    }
  }

  lemma {:induction false} HasRowStep(g: Gauge, rows: seq<Row>, now: int, fmt: Numbers, labels: seq<Label>, v: string)
    requires |rows| > 0
    ensures var n := |rows| - 1;
      HasRow(g, rows, now, fmt, labels, v) <==>
        || HasRow(g, rows[..n], now, fmt, labels, v)
        || (NodeLabels(rows[n].0) == labels && Value(g, rows[n].1.m, now, fmt) == Some(v))
  {
    var n := |rows| - 1;
    if HasRow(g, rows[..n], now, fmt, labels, v) {
      var j :| 0 <= j < n && NodeLabels(rows[..n][j].0) == labels && Value(g, rows[..n][j].1.m, now, fmt) == Some(v);
      assert rows[j] == rows[..n][j];
    }
    if HasRow(g, rows, now, fmt, labels, v) {
      var j :| 0 <= j < |rows| && NodeLabels(rows[j].0) == labels && Value(g, rows[j].1.m, now, fmt) == Some(v);
      assert j < n ==> rows[j] == rows[..n][j];
    }
  }

  lemma {:induction false} LabelsNameTheNode(a: NodeOut, b: NodeOut)
    requires NodeLabels(a) == NodeLabels(b)
    ensures a.key == b.key
  {
    assert NodeLabels(a)[1] == NodeLabels(b)[1] && NodeLabels(a)[2] == NodeLabels(b)[2];
  }
}
