/** `parseBuild`: reading one `<build>` element of the build catalogue from a stream of XML
    events. The XML reader itself is not modelled; its events are a sequence and the reader's
    position an index into it. */
module BuildXml {
  import opened Wrappers
  import opened JavaStrings
  import opened Matchers
  import opened Builds

  /** The StAX events the parser distinguishes. */
  datatype XmlEvent =
    | StartElement(name: string, attributes: map<string, string>)
    | EndElement(name: string)
    | Characters(text: string)
    | Comment  // comments and processing instructions

  /** The text of a run of events: the `Characters` joined, comments skipped. */
  function Texts(es: seq<XmlEvent>): string {
    if es == [] then ""
    else (if es[0].Characters? then es[0].text else "") + Texts(es[1..])
  }

  /** `XMLEventReader.getElementText()` called just after a start element at `pos - 1`: the
      text up to the element's end, which is consumed; a nested element or the end of the
      document is an error. Comments are skipped. */
  function ElementText(events: seq<XmlEvent>, pos: nat, text: string): (r: Result<(string, nat)>)
    requires pos <= |events|
    ensures r.Success? ==> pos < r.value.1 <= |events| && events[r.value.1 - 1].EndElement?
    decreases |events| - pos
  {
    if pos == |events| then Failure(Error(XmlError, "unexpected end of document"))
    else
      match events[pos]
      case Characters(t) => ElementText(events, pos + 1, text + t)
      case Comment => ElementText(events, pos + 1, text)
      case EndElement(_) => Success((text, pos + 1))
      case StartElement(n, _) => Failure(Error(XmlError, n))
  }

  /** Text and comments, which `getElementText` reads past. */
  predicate Skippable(e: XmlEvent) {
    e.Characters? || e.Comment?
  }

  /** From `pos`, only text and comments come before position `k`, and `k` is a start tag or
      the end of the events: what makes `getElementText` fail. */
  predicate Blocked(events: seq<XmlEvent>, pos: nat, k: nat) {
    && pos <= k <= |events|
    && (k == |events| || events[k].StartElement?)
    && forall j :: pos <= j < k ==> Skippable(events[j])
  }

  /** `getElementText` succeeds after text and comments only, at the first end tag, and
      fails exactly when a start tag or the end of the events comes first. */
  lemma {:induction false} ElementTextOutcome(events: seq<XmlEvent>, pos: nat, text: string)
    requires pos <= |events|
    ensures var r := ElementText(events, pos, text);
            && (r.Success? ==> forall j :: pos <= j < r.value.1 - 1 ==> Skippable(events[j]))
            && (r.Failure? <==> exists k :: Blocked(events, pos, k))
            && (r.Failure? ==> r.error.kind == XmlError)
    decreases |events| - pos
  {
    if pos == |events| {
      assert Blocked(events, pos, pos);
    } else {
      match events[pos]
      case Characters(t) =>
        ElementTextOutcome(events, pos + 1, text + t);
        LiftBlocked(events, pos, pos + 1);
      case Comment =>
        ElementTextOutcome(events, pos + 1, text);
        LiftBlocked(events, pos, pos + 1);
      case EndElement(_) =>
        forall k ensures !Blocked(events, pos, k) {
          if pos < k { assert !Skippable(events[pos]); }
        }
      case StartElement(_, _) =>
        assert Blocked(events, pos, pos);
    }
  }

  /** The text `getElementText` returns is that of the `Characters` before the end tag,
      joined in order. */
  lemma {:induction false} ElementTextValue(events: seq<XmlEvent>, pos: nat, text: string)
    requires pos <= |events|
    ensures var r := ElementText(events, pos, text);
            r.Success? ==> r.value.0 == text + Texts(events[pos..r.value.1 - 1])
    decreases |events| - pos
  {
    if pos < |events| {
      var r := ElementText(events, pos, text);
      match events[pos]
      case Characters(t) =>
        ElementTextValue(events, pos + 1, text + t);
        if r.Success? {
          var e := r.value.1 - 1;
          assert events[pos..e][1..] == events[pos + 1..e];
          assert Texts(events[pos..e]) == t + Texts(events[pos + 1..e]);
        }
      case Comment =>
        ElementTextValue(events, pos + 1, text);
        if r.Success? {
          var e := r.value.1 - 1;
          assert events[pos..e][1..] == events[pos + 1..e];
          assert Texts(events[pos..e]) == Texts(events[pos + 1..e]);
        }
      case EndElement(_) =>
        assert events[pos..pos] == [];
      case StartElement(_, _) =>
    }
  }

  /** A text or comment event at `pos` moves a blocking position by one. */
  lemma LiftBlocked(events: seq<XmlEvent>, pos: nat, next: nat)
    requires pos < |events| && Skippable(events[pos]) && next == pos + 1
    ensures (exists k :: Blocked(events, pos, k)) <==> (exists k :: Blocked(events, next, k))
  {
    if exists k :: Blocked(events, pos, k) {
      var k :| Blocked(events, pos, k);
      assert k != pos;
      assert Blocked(events, next, k);
    }
    if exists k :: Blocked(events, next, k) {
      var k :| Blocked(events, next, k);
      assert Blocked(events, pos, k);
    }
  }

  /** The tags whose text is read with `getElementText`. */
  predicate IsTextTag(name: string) {
    name == "version" || name == "id" || name == "organism" || name == "md5"
  }

  /** The build after the text `t` of a `<version>`, `<id>`, `<organism>` or `<md5>` element. */
  function WithText(b: BuildInfo, tag: string, t: string): (r: BuildInfo)
    ensures b.predicates <= r.predicates
  {
    if tag == "version" then b.(version := t)
    else if tag == "id" then b.(id := t)
    else if tag == "organism" then b.(organism := t)
    else b.(predicates := b.predicates + [ContigMd5(t)])
  }

  /** The effect of one iteration of the parser's loop. */
  datatype Step = Next(pos: nat, build: BuildInfo) | Stop(result: Result<(BuildInfo, nat)>)

  /** One iteration of `parseBuild`'s loop on the event at `pos`: a known start tag updates
      the build, an unknown one is an error, the `</build>` end tag finishes it (an error when
      it has no predicate), anything else is skipped. */
  function ParseStep(events: seq<XmlEvent>, pos: nat, b: BuildInfo): (s: Step)
    requires pos < |events|
    ensures s.Next? ==> pos < s.pos <= |events| && b.predicates <= s.build.predicates
    ensures s.Stop? && s.result.Success? ==> s.result.value.0 == b && b.predicates != []
    ensures events[pos].StartElement? && !IsTextTag(events[pos].name) && events[pos].name != "contig"
        ==> s == Stop(Failure(Error(XmlError, events[pos].name)))
    ensures events[pos].StartElement? && events[pos].name == "contig"
        ==> ("name" !in events[pos].attributes ==> s == Stop(Failure(Error(XmlError, "@name missing"))))
            && ("name" in events[pos].attributes && "length" !in events[pos].attributes
                ==> s == Stop(Failure(Error(XmlError, "@length missing"))))
    ensures events[pos] == EndElement("build") && b.predicates == []
        ==> s == Stop(Failure(Error(XmlError, "no predicate for build")))
  {
    match events[pos]
    case StartElement(name, attributes) =>
      if IsTextTag(name) then
        match ElementText(events, pos + 1, "")
        case Failure(e) => Stop(Failure(e))
        case Success((text, next)) =>
          Next(next, WithText(b, name, Trim(text)))
      else if name == "contig" then
        if "name" !in attributes then Stop(Failure(Error(XmlError, "@name missing")))
        else if "length" !in attributes then Stop(Failure(Error(XmlError, "@length missing")))
        else
          match ParseInt(attributes["length"])
          case None => Stop(Failure(Error(NumberFormat, attributes["length"])))
          case Some(len) =>
            Next(pos + 1, b.(predicates := b.predicates + [ContigLength(attributes["name"], len)]))
      else Stop(Failure(Error(XmlError, name)))
    case EndElement(name) =>
      if name != "build" then Next(pos + 1, b)
      else if b.predicates == [] then Stop(Failure(Error(XmlError, "no predicate for build")))
      else Stop(Success((b, pos + 1)))
    case _ => Next(pos + 1, b)
  }

  /** `parseBuild` from reader position `pos` with the build decoded so far: the build and
      the position after `</build>`, or the exception; running out of events is the final
      `IllegalStateException`. */
  function ParseBuildFrom(events: seq<XmlEvent>, pos: nat, b: BuildInfo): Result<(BuildInfo, nat)>
    requires pos <= |events|
    decreases |events| - pos
  {
    if pos == |events| then Failure(Error(IllegalState, "error in XML"))
    else
      match ParseStep(events, pos, b)
      case Next(next, b') => ParseBuildFrom(events, next, b')
      case Stop(r) => r
  }

  /** A build that `parseBuild` returns always has a predicate, and keeps those it started with. */
  lemma {:induction false} ParsedBuildHasPredicates(events: seq<XmlEvent>, pos: nat, b: BuildInfo)
    requires pos <= |events|
    ensures var r := ParseBuildFrom(events, pos, b);
            r.Success? ==> r.value.0.predicates != [] && b.predicates <= r.value.0.predicates
                           && pos < r.value.1 <= |events|
                           && events[r.value.1 - 1] == EndElement("build")
    decreases |events| - pos
  {
    if pos < |events| {
      match ParseStep(events, pos, b)
      case Next(next, b') => ParsedBuildHasPredicates(events, next, b');
      case Stop(r) =>
    }
  }

  /** Reaching a tag the catalogue does not define, or a `<contig>` without `name` or
      `length`, ends the parse with that error. */
  lemma UndefinedTagRefused(events: seq<XmlEvent>, pos: nat, b: BuildInfo)
    requires pos < |events| && events[pos].StartElement?
    ensures var e := events[pos];
            var r := ParseBuildFrom(events, pos, b);
            && (!IsTextTag(e.name) && e.name != "contig" ==> r == Failure(Error(XmlError, e.name)))
            && (e.name == "contig" && "name" !in e.attributes
                ==> r == Failure(Error(XmlError, "@name missing")))
            && (e.name == "contig" && "name" in e.attributes && "length" !in e.attributes
                ==> r == Failure(Error(XmlError, "@length missing")))
  {
  }

  /** `parseBuild(xr)`: fills a fresh `BuildImpl` event by event. */
  method ParseBuild(events: seq<XmlEvent>, start: nat) returns (r: Result<BuildImpl>, next: nat)
    requires start <= |events|
    ensures var spec := ParseBuildFrom(events, start, NewBuild);
            && (r.Success? <==> spec.Success?)
            && (r.Failure? ==> r.error == spec.error)
            && (r.Success? ==> fresh(r.value) && r.value.Info() == spec.value.0 && next == spec.value.1)
  {
    var b := new BuildImpl();
    var pos := start;
    while pos < |events|
      invariant start <= pos <= |events|
      invariant ParseBuildFrom(events, pos, b.Info()) == ParseBuildFrom(events, start, NewBuild)
      decreases |events| - pos
    {
      var evt := events[pos];
      ghost var before, at := b.Info(), pos;
      pos := pos + 1;
      match evt {
        case StartElement(name, attributes) =>
          if name == "version" {
            var text := ElementText(events, pos, "");
            if text.Failure? { return Failure(text.error), pos; }
            b.version := Trim(text.value.0);
            pos := text.value.1;
          } else if name == "id" {
            var text := ElementText(events, pos, "");
            if text.Failure? { return Failure(text.error), pos; }
            b.id := Trim(text.value.0);
            pos := text.value.1;
          } else if name == "organism" {
            var text := ElementText(events, pos, "");
            if text.Failure? { return Failure(text.error), pos; }
            b.organism := Trim(text.value.0);
            pos := text.value.1;
          } else if name == "md5" {
            var text := ElementText(events, pos, "");
            if text.Failure? { return Failure(text.error), pos; }
            b.predicates := b.predicates + [ContigMd5(Trim(text.value.0))];
            pos := text.value.1;
          } else if name == "contig" {
            if "name" !in attributes { return Failure(Error(XmlError, "@name missing")), pos; }
            var chrom := attributes["name"];
            if "length" !in attributes { return Failure(Error(XmlError, "@length missing")), pos; }
            var len := ParseInt(attributes["length"]);
            if len.None? { return Failure(Error(NumberFormat, attributes["length"])), pos; }
            b.predicates := b.predicates + [ContigLength(chrom, len.value)];
          } else {
            return Failure(Error(XmlError, name)), pos;
          }
        case EndElement(name) =>
          if name == "build" {
            if b.predicates == [] { return Failure(Error(XmlError, "no predicate for build")), pos; }
            return Success(b), pos;
          }
        case _ =>
      }
      assert ParseStep(events, at, before) == Next(pos, b.Info());
    }
    r, next := Failure(Error(IllegalState, "error in XML")), pos;
  }

  // ---- the catalogue layout, and reading it back ----

  /** `<tag>text</tag>`. */
  function TextElement(tag: string, text: string): seq<XmlEvent> {
    [StartElement(tag, map[]), Characters(text), EndElement(tag)]
  }

  /** `<md5>…</md5>` or `<contig name="…" length="…"/>`. */
  function PredicateEvents(p: ContigPredicate): seq<XmlEvent> {
    match p
    case ContigMd5(md5) => TextElement("md5", md5)
    case ContigLength(name, len) =>
      [StartElement("contig", map["name" := name, "length" := Decimal(len)]), EndElement("contig")]
  }

  function PredicatesEvents(ps: seq<ContigPredicate>): seq<XmlEvent> {
    if ps == [] then [] else PredicateEvents(ps[0]) + PredicatesEvents(ps[1..])
  }

  /** The body of a catalogue entry `<build>…</build>`, after its start tag. */
  function BuildEvents(b: BuildInfo): seq<XmlEvent> {
    TextElement("id", b.id) + TextElement("version", b.version) + TextElement("organism", b.organism)
    + PredicatesEvents(b.predicates) + [EndElement("build")]
  }

  predicate Trimmed(s: string) {
    s == [] || (s[0] > ' ' && s[|s| - 1] > ' ')
  }

  /** What a catalogue entry can express: text without surrounding blanks, and a predicate. */
  predicate Writable(b: BuildInfo) {
    && Trimmed(b.id) && Trimmed(b.version) && Trimmed(b.organism)
    && b.predicates != []
    && forall k :: 0 <= k < |b.predicates| ==> b.predicates[k].ContigMd5? ==> Trimmed(b.predicates[k].md5)
  }

  /** The events from `pos` on begin with `e`. */
  predicate At(events: seq<XmlEvent>, pos: nat, e: seq<XmlEvent>) {
    pos + |e| <= |events| && events[pos..pos + |e|] == e
  }

  lemma AtConcat(events: seq<XmlEvent>, pos: nat, a: seq<XmlEvent>, b: seq<XmlEvent>)
    requires At(events, pos, a + b)
    ensures At(events, pos, a) && At(events, pos + |a|, b)
  {
    assert events[pos..pos + |a|] == (a + b)[..|a|];
    assert events[pos + |a|..pos + |a| + |b|] == (a + b)[|a|..];
  }

  lemma AtIndex(events: seq<XmlEvent>, pos: nat, e: seq<XmlEvent>, k: nat)
    requires At(events, pos, e) && k < |e|
    ensures events[pos + k] == e[k]
  {
    assert events[pos..pos + |e|][k] == events[pos + k];
  }

  lemma ParseTextElement(events: seq<XmlEvent>, pos: nat, b: BuildInfo, tag: string, text: string)
    requires At(events, pos, TextElement(tag, text))
    requires IsTextTag(tag) && Trimmed(text)
    ensures ParseStep(events, pos, b) == Next(pos + 3, WithText(b, tag, text))
  {
    AtIndex(events, pos, TextElement(tag, text), 0);
    AtIndex(events, pos, TextElement(tag, text), 1);
    AtIndex(events, pos, TextElement(tag, text), 2);
    assert ElementText(events, pos + 1, "") == Success((text, pos + 3)) by {
      assert "" + text == text;
    }
    TrimOfTrimmed(text);
  }

  lemma ParsePredicate(events: seq<XmlEvent>, pos: nat, b: BuildInfo, p: ContigPredicate)
    requires At(events, pos, PredicateEvents(p))
    requires p.ContigMd5? ==> Trimmed(p.md5)
    ensures ParseBuildFrom(events, pos, b)
         == ParseBuildFrom(events, pos + |PredicateEvents(p)|, b.(predicates := b.predicates + [p]))
  {
    match p
    case ContigMd5(md5) =>
      ParseTextElement(events, pos, b, "md5", md5);
    case ContigLength(name, len) =>
      ParseIntDecimal(len);
      AtIndex(events, pos, PredicateEvents(p), 0);
      AtIndex(events, pos, PredicateEvents(p), 1);
      var b' := b.(predicates := b.predicates + [p]);
      assert ParseStep(events, pos, b) == Next(pos + 1, b');
      assert ParseStep(events, pos + 1, b') == Next(pos + 2, b');
  }

  lemma AppendHeadTail(a: seq<ContigPredicate>, ps: seq<ContigPredicate>)
    requires ps != []
    ensures a + [ps[0]] + ps[1..] == a + ps
  {
    assert ps == [ps[0]] + ps[1..];
  }

  lemma {:induction false} ParsePredicates(events: seq<XmlEvent>, pos: nat, b: BuildInfo,
                                           ps: seq<ContigPredicate>)
    requires At(events, pos, PredicatesEvents(ps))
    requires forall k :: 0 <= k < |ps| ==> ps[k].ContigMd5? ==> Trimmed(ps[k].md5)
    ensures ParseBuildFrom(events, pos, b)
         == ParseBuildFrom(events, pos + |PredicatesEvents(ps)|, b.(predicates := b.predicates + ps))
    decreases |ps|
  {
    if ps == [] {
      assert b.predicates + ps == b.predicates;
    } else {
      var first, tail := PredicateEvents(ps[0]), ps[1..];
      var mid := pos + |first|;
      var b' := b.(predicates := b.predicates + [ps[0]]);
      var b'' := b'.(predicates := b'.predicates + tail);
      AtConcat(events, pos, first, PredicatesEvents(tail));
      ParsePredicate(events, pos, b, ps[0]);
      assert ParseBuildFrom(events, pos, b) == ParseBuildFrom(events, mid, b');
      assert forall k :: 0 <= k < |tail| ==> tail[k] == ps[k + 1];
      ParsePredicates(events, mid, b', tail);
      assert ParseBuildFrom(events, mid, b') == ParseBuildFrom(events, mid + |PredicatesEvents(tail)|, b'');
      AppendHeadTail(b.predicates, ps);
      assert b'' == b.(predicates := b.predicates + ps);
      assert mid + |PredicatesEvents(tail)| == pos + |PredicatesEvents(ps)|;
    }
  }

  lemma StepNext(events: seq<XmlEvent>, pos: nat, b: BuildInfo, next: nat, b': BuildInfo)
    requires pos < |events| && ParseStep(events, pos, b) == Next(next, b')
    ensures ParseBuildFrom(events, pos, b) == ParseBuildFrom(events, next, b')
  {
  }

  lemma StepStop(events: seq<XmlEvent>, pos: nat, b: BuildInfo, r: Result<(BuildInfo, nat)>)
    requires pos < |events| && ParseStep(events, pos, b) == Stop(r)
    ensures ParseBuildFrom(events, pos, b) == r
  {
  }

  /** Where the parts of a written entry sit in the event stream. */
  lemma BuildEventsLayout(b: BuildInfo, rest: seq<XmlEvent>)
    ensures var events := BuildEvents(b) + rest;
            var pe := PredicatesEvents(b.predicates);
            && At(events, 0, TextElement("id", b.id))
            && At(events, 3, TextElement("version", b.version))
            && At(events, 6, TextElement("organism", b.organism))
            && At(events, 9, pe)
            && 9 + |pe| < |events| && events[9 + |pe|] == EndElement("build")
            && |BuildEvents(b)| == 10 + |pe|
  {
    var id, version, organism := TextElement("id", b.id), TextElement("version", b.version),
                                 TextElement("organism", b.organism);
    var pe := PredicatesEvents(b.predicates);
    var end := [EndElement("build")];
    var events := BuildEvents(b) + rest;
    assert events[..|BuildEvents(b)|] == id + (version + (organism + (pe + end)));
    assert At(events, 0, id + (version + (organism + (pe + end))));
    AtConcat(events, 0, id, version + (organism + (pe + end)));
    AtConcat(events, 3, version, organism + (pe + end));
    AtConcat(events, 6, organism, pe + end);
    AtConcat(events, 9, pe, end);
    AtIndex(events, 9 + |pe|, end, 0);
  }

  /** The `<id>`, `<version>` and `<organism>` elements of a written entry. */
  lemma ParseHeader(events: seq<XmlEvent>, b: BuildInfo)
    requires Trimmed(b.id) && Trimmed(b.version) && Trimmed(b.organism)
    requires At(events, 0, TextElement("id", b.id))
    requires At(events, 3, TextElement("version", b.version))
    requires At(events, 6, TextElement("organism", b.organism))
    ensures ParseBuildFrom(events, 0, NewBuild)
         == ParseBuildFrom(events, 9, BuildInfo(b.id, b.version, b.organism, []))
  {
    var b1 := NewBuild.(id := b.id);
    var b2 := b1.(version := b.version);
    ParseTextElement(events, 0, NewBuild, "id", b.id);
    StepNext(events, 0, NewBuild, 3, b1);
    ParseTextElement(events, 3, b1, "version", b.version);
    StepNext(events, 3, b1, 6, b2);
    ParseTextElement(events, 6, b2, "organism", b.organism);
    StepNext(events, 6, b2, 9, b2.(organism := b.organism));
  }

  /** The predicates and the closing tag of a written entry. */
  lemma ParseBody(events: seq<XmlEvent>, b: BuildInfo)
    requires Writable(b)
    requires At(events, 9, PredicatesEvents(b.predicates))
    requires 9 + |PredicatesEvents(b.predicates)| < |events|
    requires events[9 + |PredicatesEvents(b.predicates)|] == EndElement("build")
    ensures ParseBuildFrom(events, 9, BuildInfo(b.id, b.version, b.organism, []))
         == Success((b, 10 + |PredicatesEvents(b.predicates)|))
  {
    var n := 9 + |PredicatesEvents(b.predicates)|;
    var header := BuildInfo(b.id, b.version, b.organism, []);
    ParsePredicates(events, 9, header, b.predicates);
    assert header.(predicates := header.predicates + b.predicates) == b;
    assert ParseStep(events, n, b) == Stop(Success((b, n + 1)));
    StepStop(events, n, b, Success((b, n + 1)));
  }

  /** Reading back a catalogue entry written from a build yields that build, and stops
      right after `</build>` whatever follows. */
  lemma BuildRoundTrip(b: BuildInfo, rest: seq<XmlEvent>)
    requires Writable(b)
    ensures ParseBuildFrom(BuildEvents(b) + rest, 0, NewBuild) == Success((b, |BuildEvents(b)|))
  {
    var events := BuildEvents(b) + rest;
    BuildEventsLayout(b, rest);
    ParseHeader(events, b);
    ParseBody(events, b);
  }
}
