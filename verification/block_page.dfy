/** The block-page parser `_HardBlockStructureParser` (camouflare/challenge.py) as a machine over the
    events of an HTML parser. What counts as the headline, as an error code and as the code class of an
    element are comparisons of text, given as `Texts`. */
module BlockPage {
  import opened Basics

  datatype Texts = Texts(isHeadline: string -> bool, isErrorCode: string -> bool, hasCodeClass: string -> bool)

  datatype Event = Start(tag: string, attrs: map<string, string>) | End(tag: string) | Data(text: string)

  datatype State = State(
    title: Option<string>,
    blocked: bool,
    containerTag: Option<string>,
    containerDepth: int,
    titleParts: Option<string>,
    headingParts: Option<string>,
    codeTag: Option<string>,
    codeParts: string)

  const VOID_TAGS: set<string> :=
    {"area", "base", "br", "col", "embed", "hr", "img", "input", "link", "meta", "param", "source", "track", "wbr"}

  const CONTAINER_ID: string := "cf-error-details"
  const HEADLINE_KEY: string := "block_headline"

  const INITIAL: State := State(None, false, None, 0, None, None, None, "")

  function Attribute(attrs: map<string, string>, name: string): string {
    if name in attrs then attrs[name] else ""
  }

  predicate IsFirstTitle(s: State, tag: string) {
    tag == "title" && s.title == None && s.titleParts == None
  }

  /** The start tag opens the container. */
  predicate Opens(s: State, tag: string, attrs: map<string, string>) {
    !IsFirstTitle(s, tag) && s.containerTag == None && tag !in VOID_TAGS && Attribute(attrs, "id") == CONTAINER_ID
  }

  /** Count a nested element of the container's tag, or open the container. */
  function EnterContainer(s: State, tag: string, attrs: map<string, string>): State {
    if s.containerTag == Some(tag) then s.(containerDepth := s.containerDepth + 1)
    else if s.containerTag == None && tag !in VOID_TAGS && Attribute(attrs, "id") == CONTAINER_ID
    then s.(containerTag := Some(tag), containerDepth := 1) else s
  }

  /** What a start tag inside the container begins to collect. */
  function Collect(w: Texts, s: State, tag: string, attrs: map<string, string>): State {
    var code := s.codeTag == None && w.hasCodeClass(Attribute(attrs, "class"));
    s.(blocked := s.blocked || Attribute(attrs, "data-translate") == HEADLINE_KEY,
       headingParts := if tag == "h1" then Some("") else s.headingParts,
       codeTag := if code then Some(tag) else s.codeTag,
       codeParts := if code then "" else s.codeParts)
  }

  function StartTag(w: Texts, s: State, tag: string, attrs: map<string, string>): State {
    if IsFirstTitle(s, tag) then s.(titleParts := Some(""))
    else
      var p := EnterContainer(s, tag, attrs);
      if p.containerTag == None then p else Collect(w, p, tag, attrs)
  }

  function EndTitle(s: State, tag: string): State {
    if tag == "title" && s.titleParts.Some? then s.(title := s.titleParts, titleParts := None) else s
  }

  function EndHeading(w: Texts, s: State, tag: string): State {
    if tag == "h1" && s.headingParts.Some?
    then s.(blocked := s.blocked || w.isHeadline(s.headingParts.value), headingParts := None) else s
  }

  function EndCode(w: Texts, s: State, tag: string): State {
    if s.codeTag == Some(tag) then s.(blocked := s.blocked || w.isErrorCode(s.codeParts), codeTag := None) else s
  }

  function EndContainer(s: State, tag: string): State {
    if s.containerTag != Some(tag) then s
    else if s.containerDepth - 1 == 0
    then s.(containerTag := None, containerDepth := 0, headingParts := None, codeTag := None, codeParts := "")
    else s.(containerDepth := s.containerDepth - 1)
  }

  function EndTag(w: Texts, s: State, tag: string): State {
    EndContainer(EndCode(w, EndHeading(w, EndTitle(s, tag), tag), tag), tag)
  }

  function Text(s: State, text: string): State {
    s.(titleParts := if s.titleParts.Some? then Some(s.titleParts.value + text) else None,
       headingParts := if s.headingParts.Some? then Some(s.headingParts.value + text) else None,
       codeParts := if s.codeTag.Some? then s.codeParts + text else s.codeParts)
  }

  function Step(w: Texts, s: State, e: Event): State {
    match e
    case Start(tag, attrs) => StartTag(w, s, tag, attrs)
    case End(tag) => EndTag(w, s, tag)
    case Data(text) => Text(s, text)
  }

  function Run(w: Texts, s: State, events: seq<Event>): State
    decreases |events|
  {
    if events == [] then s else Run(w, Step(w, s, events[0]), events[1..])
  }

  // ----- every stream of events -----

  /** Headings and codes are collected only inside the open container, whose depth counts from one. */
  predicate Sound(s: State) {
    && (s.containerTag == None ==> s.headingParts == None && s.codeTag == None && s.containerDepth == 0)
    && (s.containerTag.Some? ==> s.containerDepth >= 1 && s.containerTag.value !in VOID_TAGS)
    && (s.containerTag == Some("title") ==> s.title.Some? || s.titleParts.Some?)
  }

  /** What can make a page count as blocked: something found with the container open. */
  predicate Finds(w: Texts, s: State, e: Event) {
    match e
    case Start(tag, attrs) =>
      !IsFirstTitle(s, tag) && (s.containerTag.Some? || Opens(s, tag, attrs))
          && Attribute(attrs, "data-translate") == HEADLINE_KEY
    case End(tag) =>
      && s.containerTag.Some?
      && (|| (tag == "h1" && s.headingParts.Some? && w.isHeadline(s.headingParts.value))
          || (s.codeTag == Some(tag) && w.isErrorCode(s.codeParts)))
    case Data(_) => false
  }

  lemma StepSound(w: Texts, s: State, e: Event)
    requires Sound(s)
    ensures Sound(Step(w, s, e))
    ensures Step(w, s, e).blocked <==> s.blocked || Finds(w, s, e)
  {
    match e
    case Start(tag, attrs) => StartSound(w, s, tag, attrs);
    case End(tag) => EndSound(w, s, tag);
    case Data(_) =>
  }

  lemma StartSound(w: Texts, s: State, tag: string, attrs: map<string, string>)
    requires Sound(s)
    ensures Sound(StartTag(w, s, tag, attrs))
    ensures StartTag(w, s, tag, attrs).blocked <==> s.blocked || Finds(w, s, Start(tag, attrs))
  {
  }

  lemma EndSound(w: Texts, s: State, tag: string)
    requires Sound(s)
    ensures Sound(EndTag(w, s, tag))
    ensures EndTag(w, s, tag).blocked <==> s.blocked || Finds(w, s, End(tag))
  {
  }

  lemma {:induction false} RunSound(w: Texts, s: State, events: seq<Event>)
    requires Sound(s)
    ensures Sound(Run(w, s, events))
    ensures Run(w, s, events).blocked <==>
              s.blocked || exists k :: 0 <= k < |events| && Finds(w, Run(w, s, events[..k]), events[k])
    decreases |events|
  {
    if events != [] {
      var p, rest := Step(w, s, events[0]), events[1..];
      StepSound(w, s, events[0]);
      RunSound(w, p, rest);
      assert Run(w, s, events[..0]) == s;
      forall k | 0 <= k < |rest| ensures Run(w, p, rest[..k]) == Run(w, s, events[..k + 1]) {
        assert events[..k + 1][1..] == rest[..k];
      }
      if Finds(w, s, events[0]) {
        assert Finds(w, Run(w, s, events[..0]), events[0]);
      }
      if exists k :: 0 <= k < |rest| && Finds(w, Run(w, p, rest[..k]), rest[k]) {
        var k :| 0 <= k < |rest| && Finds(w, Run(w, p, rest[..k]), rest[k]);
        assert Finds(w, Run(w, s, events[..k + 1]), events[k + 1]);
      }
      if exists k :: 0 <= k < |events| && Finds(w, Run(w, s, events[..k]), events[k]) {
        var k :| 0 <= k < |events| && Finds(w, Run(w, s, events[..k]), events[k]);
        if k > 0 {
          assert Finds(w, Run(w, p, rest[..k - 1]), rest[k - 1]);
        }
      }
    }
  }

  /** For every stream of events: the page counts as blocked exactly if, at some event, block structure
      was found with the container open; and nothing is collected while the container is closed. */
  lemma BlockedMeansFoundInContainer(w: Texts, events: seq<Event>)
    ensures Run(w, INITIAL, events).blocked <==>
              exists k :: 0 <= k < |events| && Finds(w, Run(w, INITIAL, events[..k]), events[k])
    ensures var s := Run(w, INITIAL, events);
            s.containerTag == None ==> s.headingParts == None && s.codeTag == None
  {
    RunSound(w, INITIAL, events);
  }

  // ----- well-nested documents -----

  /** A void element has a start tag only. */
  datatype Node = Leaf(text: string) | Void(tag: string, attrs: map<string, string>)
                | Element(tag: string, attrs: map<string, string>, children: seq<Node>)

  predicate WellFormed(n: Node) {
    match n
    case Leaf(_) => true
    case Void(tag, _) => tag in VOID_TAGS
    case Element(_, _, children) => forall c :: c in children ==> WellFormed(c)
  }

  function Events(n: Node): seq<Event> {
    match n
    case Leaf(text) => [Data(text)]
    case Void(tag, attrs) => [Start(tag, attrs)]
    case Element(tag, attrs, children) => [Start(tag, attrs)] + EventsOf(children) + [End(tag)]
  }

  function EventsOf(nodes: seq<Node>): seq<Event> {
    if nodes == [] then [] else Events(nodes[0]) + EventsOf(nodes[1..])
  }

  lemma RunAppend(w: Texts, s: State, a: seq<Event>, b: seq<Event>)
    ensures Run(w, s, a + b) == Run(w, Run(w, s, a), b)
    decreases |a|
  {
    if a == [] {
      assert a + b == b;
    } else {
      assert (a + b)[1..] == a[1..] + b;
      RunAppend(w, Step(w, s, a[0]), a[1..], b);
    }
  }

  /** For each event, whether the container is open after it. */
  function OpenTrace(w: Texts, s: State, events: seq<Event>): (r: seq<bool>)
    ensures |r| == |events|
    decreases |events|
  {
    if events == [] then []
    else [Step(w, s, events[0]).containerTag.Some?] + OpenTrace(w, Step(w, s, events[0]), events[1..])
  }

  function Always(open: bool, n: nat): seq<bool> {
    seq(n, _ => open)
  }

  /** The document has a `title` element. */
  predicate HasTitle(n: Node) {
    n.Element? && (n.tag == "title" || SomeTitle(n.children))
  }

  predicate SomeTitle(nodes: seq<Node>) {
    nodes != [] && (HasTitle(nodes[0]) || SomeTitle(nodes[1..]))
  }

  /** A container element: its id says so, and it is not the document's first `title`; `titled` tells
      whether a `title` came before it. */
  predicate IsContainer(titled: bool, tag: string, attrs: map<string, string>) {
    tag !in VOID_TAGS && Attribute(attrs, "id") == CONTAINER_ID && (tag == "title" ==> titled)
  }

  /** Read off the tree alone: which events lie inside a container element, its start tag included. */
  function Nesting(titled: bool, n: Node): (r: seq<bool>)
    ensures |r| == |Events(n)|
    decreases n
  {
    match n
    case Leaf(_) => [false]
    case Void(_, _) => [false]
    case Element(tag, attrs, children) =>
      if IsContainer(titled, tag, attrs) then Always(true, 1 + |EventsOf(children)|) + [false]
      else [false] + NestingOf(titled || tag == "title", children) + [false]
  }

  function NestingOf(titled: bool, nodes: seq<Node>): (r: seq<bool>)
    ensures |r| == |EventsOf(nodes)|
    decreases nodes
  {
    if nodes == [] then []
    else Nesting(titled, nodes[0]) + NestingOf(titled || HasTitle(nodes[0]), nodes[1..])
  }

  /** The parser has met a `title`. */
  predicate Titled(s: State) {
    s.title.Some? || s.titleParts.Some?
  }

  /** It has met one exactly if the document had one so far. */
  lemma {:induction false} TitledAfter(w: Texts, s: State, n: Node)
    requires WellFormed(n)
    ensures Titled(Run(w, s, Events(n))) <==> Titled(s) || HasTitle(n)
    decreases n
  {
    hide StartTag, EndTag, Text, Titled, Run;
    match n
    case Leaf(text) =>
      OneEvent(w, s, Data(text));
      TitledKeeps(w, s, Data(text));
    case Void(tag, attrs) =>
      OneEvent(w, s, Start(tag, attrs));
      TitledKeeps(w, s, Start(tag, attrs));
    case Element(tag, attrs, children) =>
      var p := StartTag(w, s, tag, attrs);
      var q := Run(w, p, EventsOf(children));
      OneEvent(w, s, Start(tag, attrs));
      OneEvent(w, q, End(tag));
      ThreeParts(w, s, [Start(tag, attrs)], EventsOf(children), [End(tag)]);
      TitledKeeps(w, s, Start(tag, attrs));
      TitledAfterAll(w, p, children);
      TitledKeeps(w, q, End(tag));
  }

  lemma TitledKeeps(w: Texts, s: State, e: Event)
    ensures Titled(Step(w, s, e)) <==> Titled(s) || (e.Start? && e.tag == "title")
  {
  }

  lemma {:induction false} TitledAfterAll(w: Texts, s: State, nodes: seq<Node>)
    requires forall c :: c in nodes ==> WellFormed(c)
    ensures Titled(Run(w, s, EventsOf(nodes))) <==> Titled(s) || SomeTitle(nodes)
    decreases nodes
  {
    hide Titled;
    if nodes != [] {
      TitledAfter(w, s, nodes[0]);
      TitledAfterAll(w, Run(w, s, Events(nodes[0])), nodes[1..]);
      RunAppend(w, s, Events(nodes[0]), EventsOf(nodes[1..]));
    }
  }

  lemma TraceAppend(w: Texts, s: State, a: seq<Event>, b: seq<Event>)
    ensures OpenTrace(w, s, a + b) == OpenTrace(w, s, a) + OpenTrace(w, Run(w, s, a), b)
    decreases |a|
  {
    if a == [] {
      assert a + b == b;
    } else {
      assert (a + b)[1..] == a[1..] + b;
      TraceAppend(w, Step(w, s, a[0]), a[1..], b);
    }
  }

  /** With the container open, a start and its end tag leave the depth as it was. */
  lemma StartInside(w: Texts, s: State, tag: string, attrs: map<string, string>)
    requires Sound(s) && s.containerTag.Some?
    ensures var p := StartTag(w, s, tag, attrs);
            && Sound(p) && p.containerTag == s.containerTag
            && p.containerDepth == s.containerDepth + if s.containerTag == Some(tag) then 1 else 0
  {
  }

  lemma EndInside(w: Texts, s: State, tag: string)
    requires Sound(s) && s.containerTag.Some? && (s.containerTag == Some(tag) ==> s.containerDepth > 1)
    ensures var p := EndTag(w, s, tag);
            && Sound(p) && p.containerTag == s.containerTag
            && p.containerDepth == s.containerDepth - if s.containerTag == Some(tag) then 1 else 0
  {
    StepSound(w, s, End(tag));
  }

  /** Inside an open container a well-formed node leaves it open at the same depth throughout. */
  lemma {:induction false} StaysOpen(w: Texts, s: State, n: Node)
    requires Sound(s) && s.containerTag.Some? && WellFormed(n)
    ensures var e := Run(w, s, Events(n));
            && Sound(e) && e.containerTag == s.containerTag && e.containerDepth == s.containerDepth
            && OpenTrace(w, s, Events(n)) == Always(true, |Events(n)|)
    decreases n
  {
    hide StartTag, EndTag, Text, Sound, OpenTrace, Run;
    match n
    case Leaf(text) =>
      OneEvent(w, s, Data(text));
      TextInside(w, s, text);
    case Void(tag, attrs) =>
      OneEvent(w, s, Start(tag, attrs));
      StartInside(w, s, tag, attrs);
      ContainerIsNotVoid(s);
    case Element(tag, attrs, children) =>
      var p := StartTag(w, s, tag, attrs);
      StartInside(w, s, tag, attrs);
      AllStayOpen(w, p, children);
      var q := Run(w, p, EventsOf(children));
      ContainerIsNotVoid(s);
      EndInside(w, q, tag);
      OneEvent(w, s, Start(tag, attrs));
      OneEvent(w, q, End(tag));
      ThreeParts(w, s, [Start(tag, attrs)], EventsOf(children), [End(tag)]);
  }

  lemma TextInside(w: Texts, s: State, text: string)
    requires Sound(s)
    ensures Sound(Text(s, text)) && Text(s, text).containerTag == s.containerTag
            && Text(s, text).containerDepth == s.containerDepth
  {
  }

  lemma ContainerIsNotVoid(s: State)
    requires Sound(s) && s.containerTag.Some?
    ensures s.containerTag.value !in VOID_TAGS && s.containerDepth >= 1
  {
  }

  lemma {:induction false} AllStayOpen(w: Texts, s: State, nodes: seq<Node>)
    requires Sound(s) && s.containerTag.Some? && forall c :: c in nodes ==> WellFormed(c)
    ensures var e := Run(w, s, EventsOf(nodes));
            && Sound(e) && e.containerTag == s.containerTag && e.containerDepth == s.containerDepth
            && OpenTrace(w, s, EventsOf(nodes)) == Always(true, |EventsOf(nodes)|)
    decreases nodes
  {
    if nodes != [] {
      StaysOpen(w, s, nodes[0]);
      AllStayOpen(w, Run(w, s, Events(nodes[0])), nodes[1..]);
      RunAppend(w, s, Events(nodes[0]), EventsOf(nodes[1..]));
      TraceAppend(w, s, Events(nodes[0]), EventsOf(nodes[1..]));
    }
  }

  lemma OneEvent(w: Texts, s: State, e: Event)
    ensures Run(w, s, [e]) == Step(w, s, e) && OpenTrace(w, s, [e]) == [Step(w, s, e).containerTag.Some?]
  {
    assert Run(w, Step(w, s, e), []) == Step(w, s, e);
  }

  lemma ThreeParts(w: Texts, s: State, a: seq<Event>, b: seq<Event>, c: seq<Event>)
    ensures Run(w, s, a + b + c) == Run(w, Run(w, Run(w, s, a), b), c)
    ensures OpenTrace(w, s, a + b + c)
            == OpenTrace(w, s, a) + OpenTrace(w, Run(w, s, a), b) + OpenTrace(w, Run(w, Run(w, s, a), b), c)
  {
    RunAppend(w, s, a + b, c);
    RunAppend(w, s, a, b);
    TraceAppend(w, s, a + b, c);
    TraceAppend(w, s, a, b);
  }

  /** With the container closed, a well-formed node opens it exactly inside its container elements. */
  lemma {:induction false} OpensWhereNested(w: Texts, s: State, n: Node)
    requires Sound(s) && s.containerTag == None && WellFormed(n)
    ensures var e := Run(w, s, Events(n));
            && Sound(e) && e.containerTag == None
            && OpenTrace(w, s, Events(n)) == Nesting(Titled(s), n)
    decreases n
  {
    hide StartTag, EndTag, Text, Sound, OpenTrace, Run, Titled, Opens;
    match n
    case Leaf(text) =>
      OneEvent(w, s, Data(text));
      TextInside(w, s, text);
    case Void(tag, attrs) =>
      OneEvent(w, s, Start(tag, attrs));
      StartOutside(w, s, tag, attrs);
      OpensByDocument(s, tag, attrs);
    case Element(tag, attrs, children) =>
      var p := StartTag(w, s, tag, attrs);
      StartOutside(w, s, tag, attrs);
      OpensByDocument(s, tag, attrs);
      TitledKeeps(w, s, Start(tag, attrs));
      var q := Run(w, p, EventsOf(children));
      OneEvent(w, s, Start(tag, attrs));
      OneEvent(w, q, End(tag));
      ThreeParts(w, s, [Start(tag, attrs)], EventsOf(children), [End(tag)]);
      if Opens(s, tag, attrs) {
        AllStayOpen(w, p, children);
      } else {
        AllOpenWhereNested(w, p, children);
      }
      EndOutside(w, q, tag);
  }

  lemma OpensByDocument(s: State, tag: string, attrs: map<string, string>)
    requires s.containerTag == None
    ensures Opens(s, tag, attrs) <==> IsContainer(Titled(s), tag, attrs)
  {
  }

  /** A start tag opens the closed container exactly if it is a container element's. */
  lemma StartOutside(w: Texts, s: State, tag: string, attrs: map<string, string>)
    requires Sound(s) && s.containerTag == None
    ensures var p := StartTag(w, s, tag, attrs);
            Sound(p) && if Opens(s, tag, attrs) then p.containerTag == Some(tag) && p.containerDepth == 1
                else p.containerTag == None
  {
  }

  /** The end tag of the container element closes it; with the container closed nothing opens it. */
  lemma EndOutside(w: Texts, s: State, tag: string)
    requires Sound(s) && (s.containerTag == None || (s.containerTag == Some(tag) && s.containerDepth == 1))
    ensures Sound(EndTag(w, s, tag)) && EndTag(w, s, tag).containerTag == None
  {
    EndSound(w, s, tag);
  }

  lemma {:induction false} AllOpenWhereNested(w: Texts, s: State, nodes: seq<Node>)
    requires Sound(s) && s.containerTag == None && forall c :: c in nodes ==> WellFormed(c)
    ensures var e := Run(w, s, EventsOf(nodes));
            && Sound(e) && e.containerTag == None
            && OpenTrace(w, s, EventsOf(nodes)) == NestingOf(Titled(s), nodes)
    decreases nodes
  {
    hide Titled;
    if nodes != [] {
      TitledAfter(w, s, nodes[0]);
      OpensWhereNested(w, s, nodes[0]);
      AllOpenWhereNested(w, Run(w, s, Events(nodes[0])), nodes[1..]);
      RunAppend(w, s, Events(nodes[0]), EventsOf(nodes[1..]));
      TraceAppend(w, s, Events(nodes[0]), EventsOf(nodes[1..]));
    }
  }

  /** For every well-nested document the container is open exactly inside a container element. */
  lemma ContainerFollowsNesting(w: Texts, document: seq<Node>)
    requires forall n :: n in document ==> WellFormed(n)
    ensures OpenTrace(w, INITIAL, EventsOf(document)) == NestingOf(false, document)
    ensures Run(w, INITIAL, EventsOf(document)).containerTag == None
  {
    AllOpenWhereNested(w, INITIAL, document);
  }

  /** Where something is found, the container is open. */
  lemma {:induction false} FoundInTrace(w: Texts, s: State, events: seq<Event>, k: nat)
    requires k < |events| && Finds(w, Run(w, s, events[..k]), events[k])
    ensures s.containerTag.Some? || true in OpenTrace(w, s, events)
    decreases k
  {
    hide Step, Finds;
    var p, rest := Step(w, s, events[0]), events[1..];
    var open := [p.containerTag.Some?];
    assert OpenTrace(w, s, events) == open + OpenTrace(w, p, rest);
    assert open[0] in OpenTrace(w, s, events);
    if s.containerTag.Some? {
    } else if k == 0 {
      assert Run(w, s, events[..0]) == s;
      FoundOpens(w, s, events[0]);
    } else {
      assert events[..k][1..] == rest[..k - 1];
      FoundInTrace(w, p, rest, k - 1);
    }
  }

  lemma FoundOpens(w: Texts, s: State, e: Event)
    requires Finds(w, s, e) && s.containerTag == None
    ensures Step(w, s, e).containerTag.Some?
  {
  }

  /** A well-nested document counts as blocked only if it has a container element at all. */
  lemma BlockedDocumentHasContainer(w: Texts, document: seq<Node>)
    requires forall n :: n in document ==> WellFormed(n)
    requires Run(w, INITIAL, EventsOf(document)).blocked
    ensures true in NestingOf(false, document)
  {
    hide Step, Sound, Nesting, NestingOf, Run, EventsOf, OpenTrace, Finds;
    var events := EventsOf(document);
    BlockedMeansFoundInContainer(w, events);
    ContainerFollowsNesting(w, document);
    var k :| 0 <= k < |events| && Finds(w, Run(w, INITIAL, events[..k]), events[k]);
    FoundInTrace(w, INITIAL, events, k);
  }

  // ----- the parser as an object -----

  class HardBlockStructureParser {
    const w: Texts
    var title: Option<string>
    var blocked: bool
    var containerTag: Option<string>
    var containerDepth: int
    var titleParts: Option<string>
    var headingParts: Option<string>
    var codeTag: Option<string>
    var codeParts: string

    ghost function Value(): State
      reads this
    {
      State(title, blocked, containerTag, containerDepth, titleParts, headingParts, codeTag, codeParts)
    }

    constructor (w: Texts)
      ensures Value() == INITIAL && this.w == w
    {
      this.w := w;
      title, blocked, containerTag, containerDepth := None, false, None, 0;
      titleParts, headingParts, codeTag, codeParts := None, None, None, "";
    }

    /** `handle_starttag`. */
    method HandleStartTag(tag: string, attrs: map<string, string>)
      modifies this
      ensures Value() == StartTag(w, old(Value()), tag, attrs)
    {
      if tag == "title" && title == None && titleParts == None {
        titleParts := Some("");
        return;
      }
      Enter(tag, attrs);
      if containerTag.Some? {
        StartCollecting(tag, attrs);
      }
    }

    method Enter(tag: string, attrs: map<string, string>)
      modifies this`containerTag, this`containerDepth
      ensures Value() == EnterContainer(old(Value()), tag, attrs)
    {
      if containerTag == Some(tag) {
        containerDepth := containerDepth + 1;
      } else if containerTag == None && tag !in VOID_TAGS && Attribute(attrs, "id") == CONTAINER_ID {
        containerTag := Some(tag);
        containerDepth := 1;
      }
    }

    method StartCollecting(tag: string, attrs: map<string, string>)
      modifies this`blocked, this`headingParts, this`codeTag, this`codeParts
      ensures Value() == Collect(w, old(Value()), tag, attrs)
    {
      if Attribute(attrs, "data-translate") == HEADLINE_KEY {
        blocked := true;
      }
      if tag == "h1" {
        headingParts := Some("");
      }
      if codeTag == None && w.hasCodeClass(Attribute(attrs, "class")) {
        codeTag := Some(tag);
        codeParts := "";
      }
    }

    /** `handle_endtag`. */
    method HandleEndTag(tag: string)
      modifies this
      ensures Value() == EndTag(w, old(Value()), tag)
    {
      if tag == "title" && titleParts.Some? {
        title, titleParts := titleParts, None;
      }
      if tag == "h1" && headingParts.Some? {
        blocked := blocked || w.isHeadline(headingParts.value);
        headingParts := None;
      }
      if codeTag == Some(tag) {
        blocked := blocked || w.isErrorCode(codeParts);
        codeTag := None;
      }
      if containerTag == Some(tag) {
        containerDepth := containerDepth - 1;
        if containerDepth == 0 {
          containerTag := None;
          headingParts, codeTag, codeParts := None, None, "";
        }
      }
    }

    /** `handle_data`. */
    method HandleData(data: string)
      modifies this
      ensures Value() == Text(old(Value()), data)
    {
      if titleParts.Some? {
        titleParts := Some(titleParts.value + data);
      }
      if headingParts.Some? {
        headingParts := Some(headingParts.value + data);
      }
      if codeTag.Some? {
        codeParts := codeParts + data;
      }
    }

    /** Feeding a document's events. */
    method Feed(events: seq<Event>)
      modifies this
      ensures Value() == Run(w, old(Value()), events)
    {
      hide StartTag, EndTag, Text, Value;
      ghost var final := Run(w, Value(), events);
      for i := 0 to |events|
        invariant Run(w, Value(), events[i..]) == final
      {
        assert events[i..][0] == events[i] && events[i..][1..] == events[i + 1..];
        match events[i]
        case Start(tag, attrs) => HandleStartTag(tag, attrs);
        case End(tag) => HandleEndTag(tag);
        case Data(text) => HandleData(text);
      }
    }
  }
}
