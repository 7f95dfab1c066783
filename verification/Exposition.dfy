/** The Prometheus text format: escaping, rendering, and a parser that reads it back. */
module Exposition {
  import opened Base

  // ---- escaping ----

  /** Replacing every occurrence of a one-character string. */
  function ReplaceAll(s: string, c: char, r: string): string {
    if |s| == 0 then "" else (if s[0] == c then r else [s[0]]) + ReplaceAll(s[1..], c, r)
  }

  /** Both programs escape a label value in three passes, the backslash first. */
  function Escape(s: string): string {
    ReplaceAll(ReplaceAll(ReplaceAll(s, '\\', "\\\\"), '"', "\\\""), '\n', "\\n")
  }

  function EscapeChar(c: char): string {
    if c == '\\' then "\\\\" else if c == '"' then "\\\"" else if c == '\n' then "\\n" else [c]
  }

  function EscapeOnce(s: string): string {
    if |s| == 0 then "" else EscapeChar(s[0]) + EscapeOnce(s[1..])
  }

  lemma {:induction false} ReplaceAllAppend(a: string, b: string, c: char, r: string)
    ensures ReplaceAll(a + b, c, r) == ReplaceAll(a, c, r) + ReplaceAll(b, c, r)
  {
    if |a| == 0 {
      assert a + b == b;
    } else {
      assert (a + b)[1..] == a[1..] + b;
      ReplaceAllAppend(a[1..], b, c, r);
    }
  }

  lemma {:induction false} ReplaceAllShort(s: string, c: char, r: string)
    requires 1 <= |s| <= 2
    ensures |s| == 1 ==> ReplaceAll(s, c, r) == if s[0] == c then r else [s[0]]
    ensures |s| == 2 ==> ReplaceAll(s, c, r) == (if s[0] == c then r else [s[0]]) + (if s[1] == c then r else [s[1]])
  {
    if |s| == 2 {
      assert s[1..] == [s[1]];
      assert ReplaceAll(s[1..], c, r) == (if s[1] == c then r else [s[1]]) + ReplaceAll(s[1..][1..], c, r);
    }
  }

  lemma {:induction false} EscapeOneChar(c: char)
    ensures Escape([c]) == EscapeChar(c)
  {
    var one := ReplaceAll([c], '\\', "\\\\");
    ReplaceAllShort([c], '\\', "\\\\");
    ReplaceAllShort(one, '"', "\\\"");
    var two := ReplaceAll(one, '"', "\\\"");
    ReplaceAllShort(two, '\n', "\\n");
  }

  /** The three passes are one: a later pass never touches what an earlier one wrote. */
  lemma {:induction false} ThreePassesAreOne(s: string)
    ensures Escape(s) == EscapeOnce(s)
  {
    if |s| > 0 {
      assert s == [s[0]] + s[1..];
      var a, b := [s[0]], s[1..];
      ReplaceAllAppend(a, b, '\\', "\\\\");
      var a1, b1 := ReplaceAll(a, '\\', "\\\\"), ReplaceAll(b, '\\', "\\\\");
      ReplaceAllAppend(a1, b1, '"', "\\\"");
      var a2, b2 := ReplaceAll(a1, '"', "\\\""), ReplaceAll(b1, '"', "\\\"");
      ReplaceAllAppend(a2, b2, '\n', "\\n");
      EscapeOneChar(s[0]);
      ThreePassesAreOne(b);
    }
  }

  // ---- documents ----

  type Label = (string, string)

  /** A line of an exposition: documentation, declaration or sample. Sample values stay text. */
  datatype Line =
    | Help(name: string, doc: string)
    | Type(name: string, kind: string)
    | Sample(name: string, labels: seq<Label>, value: string)

  function RenderLabels(ls: seq<Label>): string {
    if |ls| == 0 then ""
    else ls[0].0 + "=\"" + Escape(ls[0].1) + "\"" + if |ls| == 1 then "" else "," + RenderLabels(ls[1..])
  }

  /** One line, with its newline. */
  function RenderLine(l: Line): string {
    match l
    case Help(name, doc) => "# HELP " + name + " " + doc + "\n"
    case Type(name, kind) => "# TYPE " + name + " " + kind + "\n"
    case Sample(name, labels, value) => name + "{" + RenderLabels(labels) + "} " + value + "\n"
  }

  function Render(ls: seq<Line>): string {
    if |ls| == 0 then "" else RenderLine(ls[0]) + Render(ls[1..])
  }

  predicate NameChar(c: char) { 'a' <= c <= 'z' || 'A' <= c <= 'Z' || '0' <= c <= '9' || c == '_' }

  predicate Name(s: string) { |s| > 0 && forall i :: 0 <= i < |s| ==> NameChar(s[i]) }

  predicate OneLine(s: string) { forall i :: 0 <= i < |s| ==> s[i] != '\n' }

  /** What a renderer must see to; label values are unrestricted. */
  predicate WellFormed(l: Line) {
    match l
    case Help(name, doc) => Name(name) && OneLine(doc)
    case Type(name, kind) => Name(name) && OneLine(kind)
    case Sample(name, labels, value) =>
      Name(name) && OneLine(value) && |labels| > 0 && forall i :: 0 <= i < |labels| ==> Name(labels[i].0)
  }

  // ---- the parser ----

  /** A parse consumes a prefix and returns what it read and what is left. */
  type Parse<T> = Option<(T, string)>

  function TakeName(s: string): (string, string) {
    if |s| > 0 && NameChar(s[0]) then
      var (n, rest) := TakeName(s[1..]);
      ([s[0]] + n, rest)
    else ("", s)
  }

  function TakeLine(s: string): Parse<string> {
    if |s| == 0 then None
    else if s[0] == '\n' then Some(("", s[1..]))
    else
      match TakeLine(s[1..])
      case None => None
      case Some((l, rest)) => Some(([s[0]] + l, rest))
  }

  /** A quoted value up to its closing quote, undoing the escapes. */
  function TakeQuoted(s: string): Parse<string> {
    if |s| == 0 || s[0] == '\n' then None
    else if s[0] == '"' then Some(("", s[1..]))
    else if s[0] == '\\' then
      if |s| < 2 then None
      else
        var c :=
          if s[1] == '\\' then Some('\\')
          else if s[1] == '"' then Some('"')
          else if s[1] == 'n' then Some('\n')
          else None;
        match (c, TakeQuoted(s[2..]))
        case (Some(c), Some((v, rest))) => Some(([c] + v, rest))
        case _ => None
    else
      match TakeQuoted(s[1..])
      case None => None
      case Some((v, rest)) => Some(([s[0]] + v, rest))
  }

  lemma {:induction false} TakeNameShrinks(s: string)
    ensures s == TakeName(s).0 + TakeName(s).1
  {
    if |s| > 0 && NameChar(s[0]) {
      TakeNameShrinks(s[1..]);
    }
  }

  lemma {:induction false} TakeLineShrinks(s: string)
    ensures TakeLine(s).Some? ==> |TakeLine(s).value.1| < |s|
  {
    if |s| > 0 && s[0] != '\n' {
      TakeLineShrinks(s[1..]);
    }
  }

  lemma {:induction false} TakeQuotedShrinks(s: string)
    ensures TakeQuoted(s).Some? ==> |TakeQuoted(s).value.1| < |s|
  {
    if |s| > 0 && s[0] != '\n' && s[0] != '"' {
      if s[0] != '\\' {
        TakeQuotedShrinks(s[1..]);
      } else if |s| >= 2 {
        TakeQuotedShrinks(s[2..]);
      }
    }
  }

  /** The label set, after its opening brace and up to and with its closing one. */
  function TakeLabels(s: string): Parse<seq<Label>>
    decreases |s|
  {
    TakeNameShrinks(s);
    var (name, rest) := TakeName(s);
    if |name| == 0 || |rest| < 2 || rest[0] != '=' || rest[1] != '"' then None
    else
      TakeQuotedShrinks(rest[2..]);
      match TakeQuoted(rest[2..])
      case None => None
      case Some((value, more)) =>
        if |more| > 0 && more[0] == '}' then Some(([(name, value)], more[1..]))
        else if |more| > 0 && more[0] == ',' then
          match TakeLabels(more[1..])
          case None => None
          case Some((ls, end)) => Some(([(name, value)] + ls, end))
        else None
  }

  /** `keyword name text` up to the end of the line. */
  function TakeComment(s: string): Parse<Line> {
    if "# HELP " <= s then
      var (name, rest) := TakeName(s[7..]);
      if |rest| == 0 || rest[0] != ' ' then None
      else match TakeLine(rest[1..])
        case None => None
        case Some((doc, end)) => Some((Help(name, doc), end))
    else if "# TYPE " <= s then
      var (name, rest) := TakeName(s[7..]);
      if |rest| == 0 || rest[0] != ' ' then None
      else match TakeLine(rest[1..])
        case None => None
        case Some((kind, end)) => Some((Type(name, kind), end))
    else None
  }

  function TakeSample(s: string): Parse<Line> {
    var (name, rest) := TakeName(s);
    if |name| == 0 || |rest| == 0 || rest[0] != '{' then None
    else
      match TakeLabels(rest[1..])
      case None => None
      case Some((labels, more)) =>
        if |more| == 0 || more[0] != ' ' then None
        else match TakeLine(more[1..])
          case None => None
          case Some((value, end)) => Some((Sample(name, labels, value), end))
  }

  function TakeEntry(s: string): Parse<Line> {
    if |s| > 0 && s[0] == '#' then TakeComment(s) else TakeSample(s)
  }

  /** A whole document: None if some line cannot be read. */
  function ParseAll(s: string): Option<seq<Line>>
    decreases |s|
  {
    if |s| == 0 then Some([])
    else
      match TakeEntry(s)
      case None => None
      case Some((l, rest)) =>
        if |rest| >= |s| then None
        else match ParseAll(rest)
          case None => None
          case Some(ls) => Some([l] + ls)
  }

  // ---- reading back what was rendered ----

  lemma {:induction false} Assoc(a: string, b: string, c: string)
    ensures (a + b) + c == a + (b + c)
  {
  }

  lemma {:induction false} DropPrefix(a: string, b: string)
    ensures (a + b)[|a|..] == b
  {
  }

  /** The rendered forms with what follows them, nested the way they are read. */
  function LabelsThen(ls: seq<Label>, tail: string): string
    requires |ls| > 0
  {
    ls[0].0 + ("=\"" + QuotedThen(ls[0].1, if |ls| == 1 then "}" + tail else "," + LabelsThen(ls[1..], tail)))
  }

  function QuotedThen(v: string, tail: string): string { EscapeOnce(v) + ("\"" + tail) }

  function TextThen(text: string, tail: string): string { " " + (text + ("\n" + tail)) }

  function LineThen(l: Line, tail: string): string
    requires WellFormed(l)
  {
    match l
    case Help(name, doc) => "# HELP " + (name + TextThen(doc, tail))
    case Type(name, kind) => "# TYPE " + (name + TextThen(kind, tail))
    case Sample(name, labels, value) => name + ("{" + LabelsThen(labels, TextThen(value, tail)))
  }

  lemma {:induction false} LabelsThenIs(ls: seq<Label>, tail: string)
    requires |ls| > 0
    ensures RenderLabels(ls) + ("}" + tail) == LabelsThen(ls, tail)
  {
    var (n, v) := ls[0];
    var e, after := Escape(v), if |ls| == 1 then "" else "," + RenderLabels(ls[1..]);
    var following := if |ls| == 1 then "}" + tail else "," + LabelsThen(ls[1..], tail);
    ThreePassesAreOne(v);
    assert after + ("}" + tail) == following by {
      if |ls| > 1 {
        LabelsThenIs(ls[1..], tail);
        Assoc(",", RenderLabels(ls[1..]), "}" + tail);
      }
    }
    calc {
      RenderLabels(ls) + ("}" + tail);
      (n + "=\"" + e + "\"" + after) + ("}" + tail);
      { Assoc(n + "=\"" + e + "\"", after, "}" + tail); }
      (n + "=\"" + e + "\"") + following;
      { Assoc(n + "=\"" + e, "\"", following); }
      (n + "=\"" + e) + ("\"" + following);
      { Assoc(n + "=\"", e, "\"" + following); }
      (n + "=\"") + QuotedThen(v, following);
      { Assoc(n, "=\"", QuotedThen(v, following)); }
      n + ("=\"" + QuotedThen(v, following));
    }
  }

  lemma {:induction false} TextThenIs(head: string, text: string, tail: string)
    ensures (head + " " + text + "\n") + tail == head + TextThen(text, tail)
  {
    Assoc(head + " " + text, "\n", tail);
    Assoc(head + " ", text, "\n" + tail);
    Assoc(head, " ", text + ("\n" + tail));
  }

  lemma {:induction false} LineThenIs(l: Line, tail: string)
    requires WellFormed(l)
    ensures RenderLine(l) + tail == LineThen(l, tail)
  {
    match l
    case Help(name, doc) =>
      TextThenIs("# HELP " + name, doc, tail);
      Assoc("# HELP ", name, TextThen(doc, tail));
    case Type(name, kind) =>
      TextThenIs("# TYPE " + name, kind, tail);
      Assoc("# TYPE ", name, TextThen(kind, tail));
    case Sample(name, labels, value) =>
      var braces := RenderLabels(labels);
      assert name + "{" + braces + "} " + value + "\n" == (name + "{" + braces + "}") + " " + value + "\n";
      TextThenIs(name + "{" + braces + "}", value, tail);
      Assoc(name + "{" + braces, "}", TextThen(value, tail));
      Assoc(name + "{", braces, "}" + TextThen(value, tail));
      LabelsThenIs(labels, TextThen(value, tail));
      Assoc(name, "{", LabelsThen(labels, TextThen(value, tail)));
  }

  lemma {:induction false} TakeNameReads(n: string, rest: string)
    requires forall i :: 0 <= i < |n| ==> NameChar(n[i])
    requires |rest| > 0 && !NameChar(rest[0])
    ensures TakeName(n + rest) == (n, rest)
  {
    if |n| == 0 {
      assert n + rest == rest;
    } else {
      assert (n + rest)[1..] == n[1..] + rest;
      TakeNameReads(n[1..], rest);
      assert n == [n[0]] + n[1..];
    }
  }

  lemma {:induction false} TakeLineReads(l: string, rest: string)
    requires OneLine(l)
    ensures TakeLine(l + ("\n" + rest)) == Some((l, rest))
  {
    var s := l + ("\n" + rest);
    if |l| == 0 {
      assert s == "\n" + rest && s[1..] == rest;
    } else {
      assert s[1..] == l[1..] + ("\n" + rest);
      TakeLineReads(l[1..], rest);
      assert l == [l[0]] + l[1..];
    }
  }

  /** Escaping has a left inverse, whatever follows the closing quote. */
  lemma {:induction false} TakeQuotedReads(v: string, rest: string)
    ensures TakeQuoted(QuotedThen(v, rest)) == Some((v, rest))
  {
    var s := QuotedThen(v, rest);
    if |v| == 0 {
      assert s == "\"" + rest && s[1..] == rest;
    } else {
      var e, tail := EscapeChar(v[0]), QuotedThen(v[1..], rest);
      assert s == e + tail;
      TakeQuotedReads(v[1..], rest);
      assert v == [v[0]] + v[1..];
      if |e| == 2 {
        assert s[2..] == tail && s[0] == e[0] && s[1] == e[1];
      } else {
        assert s[1..] == tail && s[0] == v[0];
      }
    }
  }

  /** Reading one label leaves what follows it. */
  lemma {:induction false} TakeLabelReads(name: string, value: string, after: string)
    requires Name(name)
    ensures var s := name + ("=\"" + QuotedThen(value, after)); var (n, rest) := TakeName(s);
      n == name && |rest| >= 2 && rest[0] == '=' && rest[1] == '"' && TakeQuoted(rest[2..]) == Some((value, after))
  {
    TakeNameReads(name, "=\"" + QuotedThen(value, after));
    DropPrefix("=\"", QuotedThen(value, after));
    TakeQuotedReads(value, after);
  }

  lemma {:induction false} TakeLastLabel(name: string, value: string, tail: string)
    requires Name(name)
    ensures TakeLabels(name + ("=\"" + QuotedThen(value, "}" + tail))) == Some(([(name, value)], tail))
  {
    TakeLabelReads(name, value, "}" + tail);
    DropPrefix("}", tail);
  }

  lemma {:induction false} TakeNextLabel(name: string, value: string, more: string, ls: seq<Label>, tail: string)
    requires Name(name) && TakeLabels(more) == Some((ls, tail))
    ensures TakeLabels(name + ("=\"" + QuotedThen(value, "," + more))) == Some(([(name, value)] + ls, tail))
  {
    TakeLabelReads(name, value, "," + more);
    DropPrefix(",", more);
  }

  lemma {:induction false} TakeLabelsReads(ls: seq<Label>, tail: string)
    requires |ls| > 0 && forall i :: 0 <= i < |ls| ==> Name(ls[i].0)
    ensures TakeLabels(LabelsThen(ls, tail)) == Some((ls, tail))
  {
    var (name, value) := ls[0];
    if |ls| == 1 {
      TakeLastLabel(name, value, tail);
      assert ls == [ls[0]];
    } else {
      TakeLabelsReads(ls[1..], tail);
      TakeNextLabel(name, value, LabelsThen(ls[1..], tail), ls[1..], tail);
      assert ls == [ls[0]] + ls[1..];
    }
  }

  lemma {:induction false} TakeTextReads(text: string, tail: string)
    requires OneLine(text)
    ensures var s := TextThen(text, tail); s[0] == ' ' && TakeLine(s[1..]) == Some((text, tail))
  {
    DropPrefix(" ", text + ("\n" + tail));
    TakeLineReads(text, tail);
  }

  lemma {:induction false} TakeHelpReads(name: string, doc: string, tail: string)
    requires Name(name) && OneLine(doc)
    ensures TakeEntry("# HELP " + (name + TextThen(doc, tail))) == Some((Help(name, doc), tail))
  {
    DropPrefix("# HELP ", name + TextThen(doc, tail));
    TakeNameReads(name, TextThen(doc, tail));
    TakeTextReads(doc, tail);
  }

  lemma {:induction false} TakeTypeReads(name: string, kind: string, tail: string)
    requires Name(name) && OneLine(kind)
    ensures TakeEntry("# TYPE " + (name + TextThen(kind, tail))) == Some((Type(name, kind), tail))
  {
    var s := "# TYPE " + (name + TextThen(kind, tail));
    assert s[2] == 'T';
    DropPrefix("# TYPE ", name + TextThen(kind, tail));
    TakeNameReads(name, TextThen(kind, tail));
    TakeTextReads(kind, tail);
  }

  lemma {:induction false} TakeSampleReads(l: Line, tail: string)
    requires WellFormed(l) && l.Sample?
    ensures TakeEntry(LineThen(l, tail)) == Some((l, tail))
  {
    var braces := "{" + LabelsThen(l.labels, TextThen(l.value, tail));
    assert NameChar((l.name + braces)[0]) by { assert (l.name + braces)[0] == l.name[0]; }
    TakeNameReads(l.name, braces);
    DropPrefix("{", LabelsThen(l.labels, TextThen(l.value, tail)));
    TakeLabelsReads(l.labels, TextThen(l.value, tail));
    TakeTextReads(l.value, tail);
  }

  lemma {:induction false} TakeEntryReads(l: Line, tail: string)
    requires WellFormed(l)
    ensures TakeEntry(RenderLine(l) + tail) == Some((l, tail))
  {
    LineThenIs(l, tail);
    match l
    case Help(name, doc) => TakeHelpReads(name, doc, tail);
    case Type(name, kind) => TakeTypeReads(name, kind, tail);
    case Sample(_, _, _) => TakeSampleReads(l, tail);
  }

  lemma {:induction false} ParseStep(s: string, l: Line, rest: string, ls: seq<Line>)
    requires TakeEntry(s) == Some((l, rest)) && |rest| < |s| && ParseAll(rest) == Some(ls)
    ensures ParseAll(s) == Some([l] + ls)
  {
  }

  lemma {:induction false} LineIsNotEmpty(l: Line, tail: string)
    ensures |RenderLine(l) + tail| > |tail|
  {
  }

  /** Parsing what was rendered gives back exactly the lines, in order, for label values of
      any characters: quotes, backslashes and newlines included. */
  lemma {:induction false} ParseRender(ls: seq<Line>)
    requires AllWellFormed(ls)
    ensures ParseAll(Render(ls)) == Some(ls)
  {
    if |ls| > 0 {
      var tail := Render(ls[1..]);
      TakeEntryReads(ls[0], tail);
      LineIsNotEmpty(ls[0], tail);
      ParseRender(ls[1..]);
      ParseStep(RenderLine(ls[0]) + tail, ls[0], tail, ls[1..]);
      assert ls == [ls[0]] + ls[1..];
    }
  }

  lemma {:induction false} RenderAppend(a: seq<Line>, b: seq<Line>)
    ensures Render(a + b) == Render(a) + Render(b)
  {
    if |a| == 0 {
      assert a + b == b;
    } else {
      assert (a + b)[1..] == a[1..] + b;
      RenderAppend(a[1..], b);
      Assoc(RenderLine(a[0]), Render(a[1..]), Render(b));
    }
  }

  lemma {:induction false} RenderSnoc(ls: seq<Line>, l: Line)
    ensures Render(ls + [l]) == Render(ls) + RenderLine(l)
  {
    RenderAppend(ls, [l]);
    assert Render([l]) == RenderLine(l) + Render([l][1..]);
  }

  // ---- what a scrape reads ----

  /** The samples of one metric in a parsed document, in order. */
  function Scraped(ls: seq<Line>, name: string): seq<Line> {
    if |ls| == 0 then []
    else
      var last := ls[|ls| - 1];
      Scraped(ls[..|ls| - 1], name) + if last.Sample? && last.name == name then [last] else []
  }

  lemma {:induction false} ScrapedAppend(a: seq<Line>, b: seq<Line>, name: string)
    ensures Scraped(a + b, name) == Scraped(a, name) + Scraped(b, name)
  {
    if |b| == 0 {
      assert a + b == a;
    } else {
      var n := |b| - 1;
      ScrapedAppend(a, b[..n], name);
      assert (a + b)[..|a + b| - 1] == a + b[..n];
    }
  }

  lemma {:induction false} ScrapedUniform(ls: seq<Line>, owner: string, name: string)
    requires forall i :: 0 <= i < |ls| ==> ls[i].Sample? && ls[i].name == owner
    ensures Scraped(ls, name) == if owner == name then ls else []
  {
    if |ls| > 0 {
      ScrapedUniform(ls[..|ls| - 1], owner, name);
      assert ls == ls[..|ls| - 1] + [ls[|ls| - 1]];
    }
  }

  lemma {:induction false} OneLineAppend(a: string, b: string)
    requires OneLine(a) && OneLine(b)
    ensures OneLine(a + b)
  {
  }

  lemma {:induction false} ScrapedHeader(a: Line, b: Line, name: string)
    requires !a.Sample? && !b.Sample?
    ensures Scraped([a, b], name) == []
  {
    assert [a, b][..1] == [a] && [a][..0] == [];
    assert Scraped([a], name) == [];
  }

  /** A metric's documentation, declaration and samples yield its samples to a scrape of it,
      and nothing to a scrape of another. */
  lemma {:induction false} ScrapedBlock(help: Line, kind: Line, samples: seq<Line>, owner: string, name: string)
    requires !help.Sample? && !kind.Sample?
    requires forall i :: 0 <= i < |samples| ==> samples[i].Sample? && samples[i].name == owner
    ensures Scraped([help, kind] + samples, name) == if owner == name then samples else []
  {
    ScrapedHeader(help, kind, name);
    ScrapedAppend([help, kind], samples, name);
    ScrapedUniform(samples, owner, name);
  }

  predicate AllWellFormed(ls: seq<Line>) {
    forall i :: 0 <= i < |ls| ==> WellFormed(ls[i])
  }

  lemma {:induction false} BlockWellFormed(help: Line, kind: Line, samples: seq<Line>)
    requires WellFormed(help) && WellFormed(kind) && AllWellFormed(samples)
    ensures AllWellFormed([help, kind] + samples)
  {
  }

  // ---- one sample for each of some items ----

  /** One sample of `name` for each item that has one, with its own labels and text. */
  function Column<T>(items: seq<T>, name: string, labels: T -> seq<Label>, has: T -> bool,
                     text: T -> string): seq<Line> {
    if |items| == 0 then []
    else
      var x := items[|items| - 1];
      Column(items[..|items| - 1], name, labels, has, text) + if has(x) then [Sample(name, labels(x), text(x))] else []
  }

  /** The items that have a sample. */
  function Having<T>(items: seq<T>, has: T -> bool): seq<nat> {
    if |items| == 0 then []
    else Having(items[..|items| - 1], has) + if has(items[|items| - 1]) then [|items| - 1] else []
  }

  lemma {:induction false} HavingInOrder<T>(items: seq<T>, has: T -> bool)
    ensures var at := Having(items, has);
      && (forall k :: 0 <= k < |at| ==> at[k] < |items|)
      && (forall k, m :: 0 <= k < m < |at| ==> at[k] < at[m])
      && (forall i :: 0 <= i < |items| ==> (i in at <==> has(items[i])))
  {
    if |items| > 0 {
      var n := |items| - 1;
      HavingInOrder(items[..n], has);
      var before := Having(items[..n], has);
      forall i | 0 <= i < n ensures i in before <==> has(items[i]) {
        assert items[..n][i] == items[i];
      }
    }
  }

  /** A column, said by position: the samples are those of the items that have one, in order. */
  lemma {:induction false} ColumnOneByOne<T>(items: seq<T>, name: string, labels: T -> seq<Label>, has: T -> bool,
                                             text: T -> string)
    ensures var at, ls := Having(items, has), Column(items, name, labels, has, text);
      && |ls| == |at|
      && forall k :: 0 <= k < |at| ==>
           at[k] < |items| && ls[k] == Sample(name, labels(items[at[k]]), text(items[at[k]]))
  {
    HavingInOrder(items, has);
    if |items| > 0 {
      ColumnOneByOne(items[..|items| - 1], name, labels, has, text);
    }
  }

  /** The one sample under a label set. */
  ghost predicate OnlySample(ls: seq<Line>, name: string, labels: seq<Label>, text: string) {
    exists k :: 0 <= k < |ls| && ls[k] == Sample(name, labels, text)
      && forall m :: 0 <= m < |ls| && m != k ==> !(ls[m].Sample? && ls[m].labels == labels)
  }

  /** An item whose labels no other has has one sample under them. */
  lemma {:induction false} ColumnHasOne<T>(items: seq<T>, name: string, labels: T -> seq<Label>, has: T -> bool,
                                           text: T -> string, i: nat)
    requires i < |items| && has(items[i])
    requires forall j :: 0 <= j < |items| && j != i ==> labels(items[j]) != labels(items[i])
    ensures OnlySample(Column(items, name, labels, has, text), name, labels(items[i]), text(items[i]))
  {
    var at, ls := Having(items, has), Column(items, name, labels, has, text);
    HavingInOrder(items, has);
    ColumnOneByOne(items, name, labels, has, text);
    var k :| 0 <= k < |at| && at[k] == i;
    forall m | 0 <= m < |ls| && m != k ensures ls[m].labels != labels(items[i]) {
      assert at[m] != i;
    }
  }

  /** The page says what a metric is. */
  ghost predicate Declares(page: seq<Line>, name: string) {
    Type(name, "gauge") in page && exists doc :: Help(name, doc) in page
  }
}
