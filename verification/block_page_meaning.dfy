/** What the block-page parser finds, read off the stream of events alone: where the container is open, which
    headings and codes lie in it, and what text they hold. */
module BlockPageMeaning {
  import opened Basics
  import opened BlockPage

  predicate Starts(e: Event, tag: string) {
    e.Start? && e.tag == tag
  }

  /** The text between tags. */
  function TextOf(events: seq<Event>): string {
    if events == [] then ""
    else TextOf(events[..|events| - 1]) + if events[|events| - 1].Data? then events[|events| - 1].text else ""
  }

  /** How many elements of a tag are open. */
  function Balance(events: seq<Event>, tag: string): int {
    if events == [] then 0
    else
      Balance(events[..|events| - 1], tag)
      + if Starts(events[|events| - 1], tag) then 1 else if events[|events| - 1] == End(tag) then -1 else 0
  }

  /** A `title` starts at `k`, and none before. */
  predicate FirstTitle(events: seq<Event>, k: nat)
    requires k < |events|
  {
    Starts(events[k], "title") && forall i :: 0 <= i < k ==> !Starts(events[i], "title")
  }

  /** The start tag at `k` has the id of the container, and is neither void nor the first title. */
  predicate Container(events: seq<Event>, k: nat)
    requires k < |events|
  {
    && events[k].Start?
    && "id" in events[k].attrs && events[k].attrs["id"] == "cf-error-details"
    && events[k].tag !in {"area", "base", "br", "col", "embed", "hr", "img", "input", "link", "meta", "param", "source",
                          "track", "wbr"}
    && !FirstTitle(events, k)
  }

  /** After the first `n` events the container is the element that started at `j`: its own tags have not been
      balanced since, and no earlier container was open then. */
  ghost predicate Inside(events: seq<Event>, j: nat, n: nat)
    requires n <= |events|
    decreases j
  {
    && j < n && Container(events, j)
    && (forall m :: j < m <= n ==> Balance(events[j..m], events[j].tag) > 0)
    && !exists i :: 0 <= i < j && Inside(events, i, j)
  }

  ghost predicate Open(events: seq<Event>, n: nat)
    requires n <= |events|
  {
    exists j :: 0 <= j < n && Inside(events, j, n)
  }

  ghost predicate OpenSince(events: seq<Event>, j: nat, n: nat)
    requires n <= |events|
  {
    forall m :: j < m <= n ==> Open(events, m)
  }

  /** An `h1` started at `j` inside the container, and none started or ended since. */
  ghost predicate Heading(events: seq<Event>, j: nat, n: nat)
    requires n <= |events|
  {
    && j < n && Starts(events[j], "h1") && OpenSince(events, j, n)
    && forall i :: j < i < n ==> !Starts(events[i], "h1") && events[i] != End("h1")
  }

  /** An element of the code class started at `j` inside the container, not within another one, and its tag has
      not ended since. */
  ghost predicate Code(w: Texts, events: seq<Event>, j: nat, n: nat)
    requires n <= |events|
    decreases j
  {
    && j < n && events[j].Start? && !FirstTitle(events, j)
    && w.hasCodeClass(if "class" in events[j].attrs then events[j].attrs["class"] else "")
    && OpenSince(events, j, n)
    && (forall i :: j < i < n ==> events[i] != End(events[j].tag))
    && !exists i :: 0 <= i < j && Code(w, events, i, j)
  }

  ghost predicate InCode(w: Texts, events: seq<Event>, n: nat)
    requires n <= |events|
  {
    exists j :: 0 <= j < n && Code(w, events, j, n)
  }

  /** The first title started at `j` and has not ended since. */
  predicate Title(events: seq<Event>, j: nat, n: nat)
    requires n <= |events|
  {
    j < n && FirstTitle(events, j) && forall i :: j < i < n ==> events[i] != End("title")
  }

  /** The first title started at `j` and ended at `k`. */
  predicate WholeTitle(events: seq<Event>, j: nat, k: nat)
    requires k < |events|
  {
    Title(events, j, k) && events[k] == End("title")
  }

  /** Event `k` shows a block: an element of the container that is marked as the headline, the end of one of its
      headings with the text of the headline, or the end of a code element with a code of a block. */
  ghost predicate Shows(w: Texts, events: seq<Event>, k: nat)
    requires k < |events|
  {
    match events[k]
    case Data(_) => false
    case Start(_, attrs) =>
      && Open(events, k + 1) && !FirstTitle(events, k)
      && "data-translate" in attrs && attrs["data-translate"] == "block_headline"
    case End(tag) =>
      || (tag == "h1" && exists j :: 0 <= j < k && Heading(events, j, k) && w.isHeadline(TextOf(events[j + 1..k])))
      || exists j ::
           0 <= j < k && Code(w, events, j, k) && events[j].tag == tag && w.isErrorCode(TextOf(events[j + 1..k]))
  }

  // ----- one event more -----

  lemma NextText(events: seq<Event>, j: nat, n: nat)
    requires j <= n < |events|
    ensures events[n].Data? ==> TextOf(events[j..n + 1]) == TextOf(events[j..n]) + events[n].text
    ensures !events[n].Data? ==> TextOf(events[j..n + 1]) == TextOf(events[j..n])
    ensures TextOf(events[n + 1..n + 1]) == ""
  {
    assert events[j..n + 1][..n - j] == events[j..n];
  }

  lemma NextBalance(events: seq<Event>, j: nat, n: nat, tag: string)
    requires j <= n < |events|
    ensures Balance(events[j..n + 1], tag) ==
            Balance(events[j..n], tag) + if Starts(events[n], tag) then 1 else if events[n] == End(tag) then -1 else 0
    ensures Balance(events[n..n], tag) == 0
  {
    assert events[j..n + 1][..n - j] == events[j..n];
  }

  lemma NextRun(w: Texts, events: seq<Event>, n: nat)
    requires n < |events|
    ensures Run(w, INITIAL, events[..n + 1]) == Step(w, Run(w, INITIAL, events[..n]), events[n])
    ensures Sound(Run(w, INITIAL, events[..n]))
  {
    hide Step, Sound;
    assert events[..n + 1] == events[..n] + [events[n]];
    RunAppend(w, INITIAL, events[..n], [events[n]]);
    OneEvent(w, Run(w, INITIAL, events[..n]), events[n]);
    InitialSound();
    RunSound(w, INITIAL, events[..n]);
  }

  lemma InitialSound()
    ensures Sound(INITIAL)
  {
  }

  /** The container after one event more. */
  lemma NextInside(events: seq<Event>, j: nat, n: nat)
    requires n < |events|
    ensures j < n ==>
              (Inside(events, j, n + 1) <==> Inside(events, j, n) && Balance(events[j..n + 1], events[j].tag) > 0)
    ensures Inside(events, n, n + 1) <==> Container(events, n) && !Open(events, n)
  {
    hide Balance, FirstTitle;
    if events[n].Start? {
      NextBalance(events, n, n, events[n].tag);
    }
  }

  /** An open container stays the container until its tags are balanced; a closed one opens with a new element. */
  lemma NextOpen(events: seq<Event>, j: nat, n: nat)
    requires n < |events|
    ensures Inside(events, j, n) ==>
              (Open(events, n + 1) <==> Inside(events, j, n + 1))
    ensures !Open(events, n) ==>
              (Open(events, n + 1) <==> Inside(events, n, n + 1))
  {
    hide Balance, Container;
    var m := n + 1;
    if Open(events, m) {
      var i :| 0 <= i < m && Inside(events, i, m);
      if i < n {
        NextInside(events, i, n);
      } else {
        NextInside(events, n, n);
      }
      if Inside(events, j, n) {
        OnlyOneInside(events, j, n);
      }
    }
  }

  lemma NextSince(events: seq<Event>, j: nat, n: nat)
    requires n < |events|
    ensures j <= n ==> (OpenSince(events, j, n + 1) <==> OpenSince(events, j, n) && Open(events, n + 1))
  {
    hide Open;
  }

  lemma NothingSince(events: seq<Event>, n: nat)
    requires n <= |events|
    ensures OpenSince(events, n, n)
  {
  }

  lemma NextHeading(events: seq<Event>, j: nat, n: nat)
    requires n < |events|
    ensures j < n ==>
              (Heading(events, j, n + 1) <==>
                 && Heading(events, j, n) && Open(events, n + 1)
                 && !Starts(events[n], "h1") && events[n] != End("h1"))
    ensures Heading(events, n, n + 1) <==> Starts(events[n], "h1") && Open(events, n + 1)
  {
    hide Open, OpenSince;
    NextSince(events, j, n);
    NextSince(events, n, n);
    NothingSince(events, n);
  }

  lemma NextCode(w: Texts, events: seq<Event>, j: nat, n: nat)
    requires n < |events|
    ensures j < n ==>
              (Code(w, events, j, n + 1) <==>
                 Code(w, events, j, n) && Open(events, n + 1) && events[n] != End(events[j].tag))
  {
    hide Open, OpenSince, FirstTitle;
    NextSince(events, j, n);
  }

  lemma NewCode(w: Texts, events: seq<Event>, n: nat)
    requires n < |events|
    ensures Code(w, events, n, n + 1) <==>
              && events[n].Start? && !FirstTitle(events, n) && Open(events, n + 1)
              && w.hasCodeClass(if "class" in events[n].attrs then events[n].attrs["class"] else "")
              && !InCode(w, events, n)
  {
    hide Open, OpenSince, FirstTitle;
    NextSince(events, n, n);
    NothingSince(events, n);
  }

  // ----- the parser's state -----

  /** No title has started, or the first one is being read, or it has been read to its end. */
  ghost predicate TitleTied(events: seq<Event>, n: nat, s: State)
    requires n <= |events|
  {
    && (Titled(s) <==> exists i :: 0 <= i < n && Starts(events[i], "title"))
    && (s.titleParts.Some? ==>
          && s.title == None
          && exists j :: 0 <= j < n && Title(events, j, n) && s.titleParts == Some(TextOf(events[j + 1..n])))
    && (s.title.Some? ==>
          exists j, k :: 0 <= j < k < n && WholeTitle(events, j, k) && s.title == Some(TextOf(events[j + 1..k])))
  }

  ghost predicate ContainerTied(events: seq<Event>, n: nat, s: State)
    requires n <= |events|
  {
    && (s.containerTag.Some? <==> Open(events, n))
    && (forall j :: 0 <= j < n && Inside(events, j, n) ==>
          s.containerTag == Some(events[j].tag) && s.containerDepth == Balance(events[j..n], events[j].tag))
  }

  ghost predicate HeadingTied(events: seq<Event>, n: nat, s: State)
    requires n <= |events|
  {
    && (s.headingParts.Some? <==> exists j :: 0 <= j < n && Heading(events, j, n))
    && (forall j :: 0 <= j < n && Heading(events, j, n) ==> s.headingParts == Some(TextOf(events[j + 1..n])))
  }

  ghost predicate CodeTied(w: Texts, events: seq<Event>, n: nat, s: State)
    requires n <= |events|
  {
    && (s.codeTag.Some? <==> exists j :: 0 <= j < n && Code(w, events, j, n))
    && (forall j :: 0 <= j < n && Code(w, events, j, n) ==>
          s.codeTag == Some(events[j].tag) && s.codeParts == TextOf(events[j + 1..n]))
  }

  ghost predicate Tied(w: Texts, events: seq<Event>, n: nat, s: State)
    requires n <= |events|
  {
    && Sound(s) && TitleTied(events, n, s) && ContainerTied(events, n, s)
    && HeadingTied(events, n, s) && CodeTied(w, events, n, s)
  }

  lemma TieFirstTitle(events: seq<Event>, n: nat, s: State)
    requires n < |events| && TitleTied(events, n, s)
    ensures events[n].Start? ==> (FirstTitle(events, n) <==> IsFirstTitle(s, events[n].tag))
  {
  }

  /** What one event does to the container. */
  lemma ContainerPlain(w: Texts, s: State, e: Event)
    ensures var d := Step(w, s, e);
            && (e.Data? || (e.Start? && IsFirstTitle(s, e.tag)) ==>
                  d.containerTag == s.containerTag && d.containerDepth == s.containerDepth)
            && (e.Start? && !IsFirstTitle(s, e.tag) ==>
                  && d.containerTag == EnterContainer(s, e.tag, e.attrs).containerTag
                  && d.containerDepth == EnterContainer(s, e.tag, e.attrs).containerDepth)
            && (e.End? ==> d.containerTag == EndContainer(s, e.tag).containerTag
                           && d.containerDepth == EndContainer(s, e.tag).containerDepth)
  {
  }

  lemma OpenedBy(events: seq<Event>, n: nat) returns (j: nat)
    requires n <= |events| && Open(events, n)
    ensures j < n && Inside(events, j, n)
  {
    j :| 0 <= j < n && Inside(events, j, n);
  }

  lemma NextContainer(w: Texts, events: seq<Event>, n: nat, s: State)
    requires n < |events| && Sound(s) && TitleTied(events, n, s) && ContainerTied(events, n, s)
    ensures ContainerTied(events, n + 1, Step(w, s, events[n]))
  {
    hide Balance, Inside, TitleTied, FirstTitle, Step, Open;
    ContainerPlain(w, s, events[n]);
    TieFirstTitle(events, n, s);
    NextInside(events, n, n);
    if events[n].Start? {
      NextBalance(events, n, n, events[n].tag);
    }
    var e := Step(w, s, events[n]);
    if Open(events, n) {
      var j := OpenedBy(events, n);
      InsideStarts(events, j, n);
      NextInside(events, j, n);
      NextOpen(events, j, n);
      NextBalance(events, j, n, events[j].tag);
      ContainerTie(events, j, n + 1, e);
    } else {
      NextOpen(events, n, n);
      ContainerTie(events, n, n + 1, e);
    }
  }

  lemma ContainerTie(events: seq<Event>, j: nat, n: nat, s: State)
    requires n <= |events| && (s.containerTag.Some? <==> Open(events, n))
    requires Open(events, n) ==>
               && Inside(events, j, n) && events[j].Start?
               && s.containerTag == Some(events[j].tag) && s.containerDepth == Balance(events[j..n], events[j].tag)
    ensures ContainerTied(events, n, s)
  {
    hide Balance, Container;
    if Open(events, n) {
      OnlyOneInside(events, j, n);
    }
  }

  lemma OnlyOneInside(events: seq<Event>, j: nat, n: nat)
    requires n <= |events| && Inside(events, j, n)
    ensures forall i :: 0 <= i < n && Inside(events, i, n) ==> i == j
  {
    hide Balance, Container;
    forall i | 0 <= i < n && Inside(events, i, n) ensures i == j {
      if i < j {
        InsideBefore(events, i, j, n);
      } else if j < i {
        InsideBefore(events, j, i, n);
      }
    }
  }

  lemma InsideBefore(events: seq<Event>, i: nat, j: nat, n: nat)
    requires i < j <= n <= |events| && Inside(events, i, n)
    ensures Inside(events, i, j)
  {
    hide Balance, Container;
  }

  lemma InsideStarts(events: seq<Event>, j: nat, n: nat)
    requires n <= |events| && Inside(events, j, n)
    ensures j < n && events[j].Start?
  {
  }

  // ----- headings -----

  lemma HeadingPlain(w: Texts, s: State, e: Event)
    requires Sound(s)
    ensures var d := Step(w, s, e);
            && (e.Data? && s.headingParts.Some? ==> d.headingParts == Some(s.headingParts.value + e.text))
            && (e.Data? && s.headingParts == None ==> d.headingParts == None)
            && (e.Start? ==>
                  d.headingParts == if e.tag == "h1" && d.containerTag.Some? then Some("") else s.headingParts)
            && (e.End? ==>
                  d.headingParts == if e.tag == "h1" || d.containerTag == None then None else s.headingParts)
  {
  }

  lemma HeadingSince(events: seq<Event>, n: nat) returns (j: nat)
    requires n <= |events| && exists j :: 0 <= j < n && Heading(events, j, n)
    ensures j < n && Heading(events, j, n)
  {
    j :| 0 <= j < n && Heading(events, j, n);
  }

  lemma HeadingTie(events: seq<Event>, j: nat, n: nat, s: State)
    requires n <= |events| && s.headingParts.Some? && Heading(events, j, n)
    requires s.headingParts == Some(TextOf(events[j + 1..n]))
    ensures HeadingTied(events, n, s)
  {
    hide Open, OpenSince, TextOf;
  }

  lemma NoHeadingTie(events: seq<Event>, n: nat, s: State)
    requires n <= |events| && s.headingParts == None && forall j :: 0 <= j < n ==> !Heading(events, j, n)
    ensures HeadingTied(events, n, s)
  {
  }

  lemma NextHeadingTied(w: Texts, events: seq<Event>, n: nat, s: State)
    requires n < |events| && Sound(s) && HeadingTied(events, n, s)
    requires var e := Step(w, s, events[n]); ContainerTied(events, n + 1, e) && Sound(e)
    ensures HeadingTied(events, n + 1, Step(w, s, events[n]))
  {
    hide Step, Open, Heading, Inside, Balance, TextOf;
    var e := Step(w, s, events[n]);
    var m := n + 1;
    HeadingPlain(w, s, events[n]);
    NextHeading(events, n, n);
    NextText(events, n, n);
    if Starts(events[n], "h1") && e.containerTag.Some? {
      HeadingTie(events, n, m, e);
    } else if e.headingParts.Some? {
      var j := HeadingSince(events, n);
      NextHeading(events, j, n);
      NextText(events, j + 1, n);
      assert s.headingParts == Some(TextOf(events[j + 1..n]));
      HeadingTie(events, j, m, e);
    } else {
      forall j: nat | j < m ensures !Heading(events, j, m) {
        NextHeading(events, j, n);
      }
      NoHeadingTie(events, m, e);
    }
  }

  // ----- codes -----

  lemma CodePlain(w: Texts, s: State, e: Event)
    requires Sound(s)
    ensures var d := Step(w, s, e);
            && (e.Data? ==>
                  && d.codeTag == s.codeTag
                  && d.codeParts == if s.codeTag.Some? then s.codeParts + e.text else s.codeParts)
            && (e.Start? ==>
                  if && !IsFirstTitle(s, e.tag) && s.codeTag == None && d.containerTag.Some?
                     && w.hasCodeClass(Attribute(e.attrs, "class"))
                  then d.codeTag == Some(e.tag) && d.codeParts == ""
                  else d.codeTag == s.codeTag && d.codeParts == s.codeParts)
            && (e.End? ==>
                  if s.codeTag == Some(e.tag) || d.containerTag == None then d.codeTag == None
                  else d.codeTag == s.codeTag && d.codeParts == s.codeParts)
  {
  }

  lemma CodeSince(w: Texts, events: seq<Event>, n: nat) returns (j: nat)
    requires n <= |events| && exists j :: 0 <= j < n && Code(w, events, j, n)
    ensures j < n && Code(w, events, j, n) && events[j].Start?
  {
    j :| 0 <= j < n && Code(w, events, j, n);
  }

  lemma OnlyOneCode(w: Texts, events: seq<Event>, j: nat, n: nat)
    requires n <= |events| && Code(w, events, j, n)
    ensures forall i :: 0 <= i < n && Code(w, events, i, n) ==> i == j
  {
    hide FirstTitle, Open;
    forall i | 0 <= i < n && Code(w, events, i, n) ensures i == j {
      if i < j {
        CodeBefore(w, events, i, j, n);
      } else if j < i {
        CodeBefore(w, events, j, i, n);
      }
    }
  }

  lemma CodeBefore(w: Texts, events: seq<Event>, i: nat, j: nat, n: nat)
    requires i < j <= n <= |events| && Code(w, events, i, n)
    ensures Code(w, events, i, j)
  {
    hide FirstTitle, Open;
  }

  lemma CodeTie(w: Texts, events: seq<Event>, j: nat, n: nat, s: State)
    requires n <= |events| && Code(w, events, j, n) && events[j].Start?
    requires s.codeTag == Some(events[j].tag) && s.codeParts == TextOf(events[j + 1..n])
    ensures CodeTied(w, events, n, s)
  {
    OnlyOneCode(w, events, j, n);
    assert exists i :: 0 <= i < n && Code(w, events, i, n);
  }

  lemma NoCodeTie(w: Texts, events: seq<Event>, n: nat, s: State)
    requires n <= |events| && s.codeTag == None && forall j :: 0 <= j < n ==> !Code(w, events, j, n)
    ensures CodeTied(w, events, n, s)
  {
  }

  lemma NextCodeTied(w: Texts, events: seq<Event>, n: nat, s: State)
    requires n < |events| && Sound(s) && CodeTied(w, events, n, s) && TitleTied(events, n, s)
    requires var e := Step(w, s, events[n]); ContainerTied(events, n + 1, e) && Sound(e)
    ensures CodeTied(w, events, n + 1, Step(w, s, events[n]))
  {
    hide Step, Open, Code, InCode, Inside, Balance, TextOf, FirstTitle, IsFirstTitle;
    var e := Step(w, s, events[n]);
    CodePlain(w, s, events[n]);
    TieFirstTitle(events, n, s);
    NewCode(w, events, n);
    NextText(events, n, n);
    if exists j :: 0 <= j < n && Code(w, events, j, n) {
      var j := CodeSince(w, events, n);
      NextCode(w, events, j, n);
      NextText(events, j + 1, n);
      assert s.codeTag == Some(events[j].tag) && s.codeParts == TextOf(events[j + 1..n]);
      if e.codeTag.Some? {
        CodeTie(w, events, j, n + 1, e);
      } else {
        NoMoreCode(w, events, j, n);
        NoCodeTie(w, events, n + 1, e);
      }
    } else if e.codeTag.Some? {
      NotInCode(w, events, n);
      CodeTie(w, events, n, n + 1, e);
    } else {
      NotInCode(w, events, n);
      NoNewCode(w, events, n);
      NoCodeTie(w, events, n + 1, e);
    }
  }

  lemma NotInCode(w: Texts, events: seq<Event>, n: nat)
    requires n <= |events| && forall j :: 0 <= j < n ==> !Code(w, events, j, n)
    ensures !InCode(w, events, n)
  {
    hide Code;
  }

  lemma NoMoreCode(w: Texts, events: seq<Event>, j: nat, n: nat)
    requires n < |events| && Code(w, events, j, n) && !Code(w, events, j, n + 1)
    ensures var m := n + 1; forall i :: 0 <= i < m ==> !Code(w, events, i, m)
  {
    hide Open, FirstTitle, OpenSince;
    var m := n + 1;
    forall i: nat | i < m ensures !Code(w, events, i, m) {
      OnlyOneCode(w, events, j, n);
      NextCode(w, events, i, n);
      NewCode(w, events, n);
    }
  }

  lemma NoNewCode(w: Texts, events: seq<Event>, n: nat)
    requires n < |events| && (forall i :: 0 <= i < n ==> !Code(w, events, i, n)) && !Code(w, events, n, n + 1)
    ensures var m := n + 1; forall i :: 0 <= i < m ==> !Code(w, events, i, m)
  {
    hide Open, FirstTitle, OpenSince;
    var m := n + 1;
    forall i: nat | i < m ensures !Code(w, events, i, m) {
      NextCode(w, events, i, n);
    }
  }

  // ----- the title -----

  lemma TitlePlain(w: Texts, s: State, e: Event)
    ensures var d := Step(w, s, e);
            && (e.Data? ==>
                  && d.title == s.title
                  && d.titleParts == if s.titleParts.Some? then Some(s.titleParts.value + e.text) else None)
            && (e.Start? ==>
                  d.title == s.title && d.titleParts == if IsFirstTitle(s, e.tag) then Some("") else s.titleParts)
            && (e.End? ==>
                  if e.tag == "title" && s.titleParts.Some? then d.title == s.titleParts && d.titleParts == None
                  else d.title == s.title && d.titleParts == s.titleParts)
  {
  }

  lemma NextTitleTied(w: Texts, events: seq<Event>, n: nat, s: State)
    requires n < |events| && TitleTied(events, n, s)
    ensures TitleTied(events, n + 1, Step(w, s, events[n]))
  {
    hide Step, TextOf;
    var e := Step(w, s, events[n]);
    TitlePlain(w, s, events[n]);
    TieFirstTitle(events, n, s);
    NextText(events, n, n);
    if s.titleParts.Some? {
      var j: nat :| j < n && Title(events, j, n) && s.titleParts == Some(TextOf(events[j + 1..n]));
      NextText(events, j + 1, n);
      if e.titleParts.Some? {
        assert Title(events, j, n + 1) && e.titleParts == Some(TextOf(events[j + 1..n + 1]));
      } else {
        assert WholeTitle(events, j, n) && e.title == Some(TextOf(events[j + 1..n]));
      }
    } else if e.titleParts.Some? {
      assert Title(events, n, n + 1);
    }
    if exists i :: 0 <= i < n && Starts(events[i], "title") {
      assert exists i :: 0 <= i < n + 1 && Starts(events[i], "title");
    }
  }

  /** The first title that ended is the only one, and it is the parser's. */
  lemma OneTitle(events: seq<Event>, j: nat, k: nat, n: nat, s: State)
    requires k < n <= |events| && TitleTied(events, n, s) && WholeTitle(events, j, k)
    ensures s.title == Some(TextOf(events[j + 1..k]))
  {
    hide TextOf;
    assert Starts(events[j], "title");
    var i, l :| 0 <= i < l < n && WholeTitle(events, i, l) && s.title == Some(TextOf(events[i + 1..l]));
    assert i == j && k == l;
  }

  // ----- the whole stream -----

  /** The parser's state follows the stream at every event. */
  lemma {:induction false} StateFollows(w: Texts, events: seq<Event>, n: nat)
    requires n <= |events|
    ensures Tied(w, events, n, Run(w, INITIAL, events[..n]))
  {
    hide Step, TitleTied, ContainerTied, HeadingTied, CodeTied, Sound;
    if n == 0 {
      NothingYet(w, events);
    } else {
      var s := Run(w, INITIAL, events[..n - 1]);
      StateFollows(w, events, n - 1);
      NextRun(w, events, n - 1);
      StepSound(w, s, events[n - 1]);
      NextTitleTied(w, events, n - 1, s);
      NextContainer(w, events, n - 1, s);
      NextHeadingTied(w, events, n - 1, s);
      NextCodeTied(w, events, n - 1, s);
    }
  }

  lemma NothingYet(w: Texts, events: seq<Event>)
    ensures Tied(w, events, 0, INITIAL)
  {
  }

  lemma FindsAsShown(w: Texts, events: seq<Event>, n: nat)
    requires n < |events|
    ensures Finds(w, Run(w, INITIAL, events[..n]), events[n]) <==> Shows(w, events, n)
  {
    hide Step, Run, Sound, Open, Heading, Code, FirstTitle, TextOf, Inside, Balance, Finds, Shows, TitleTied, CodeTied,
         HeadingTied, ContainerTied;
    var s := Run(w, INITIAL, events[..n]);
    StateFollows(w, events, n);
    StateFollows(w, events, n + 1);
    NextRun(w, events, n);
    match events[n]
    case Start(_, _) => StartFinds(w, events, n, s);
    case End(_) => EndFinds(w, events, n, s);
    case Data(_) => DataFinds(w, events, n, s);
  }

  lemma DataFinds(w: Texts, events: seq<Event>, n: nat, s: State)
    requires n < |events| && events[n].Data?
    ensures !Finds(w, s, events[n]) && !Shows(w, events, n)
  {
  }

  lemma StartFinds(w: Texts, events: seq<Event>, n: nat, s: State)
    requires n < |events| && events[n].Start? && TitleTied(events, n, s)
    requires ContainerTied(events, n + 1, Step(w, s, events[n]))
    ensures Finds(w, s, events[n]) <==> Shows(w, events, n)
  {
    hide Step, Open, FirstTitle, IsFirstTitle, TitleTied, Heading, Code, Inside;
    TieFirstTitle(events, n, s);
    ContainerPlain(w, s, events[n]);
  }

  lemma EndFinds(w: Texts, events: seq<Event>, n: nat, s: State)
    requires n < |events| && events[n].End? && Sound(s)
    requires HeadingTied(events, n, s) && CodeTied(w, events, n, s)
    ensures Finds(w, s, events[n]) <==> Shows(w, events, n)
  {
    hide Open, Heading, Code, FirstTitle, Inside, TextOf;
    if s.headingParts.Some? {
      var j := HeadingSince(events, n);
      assert s.headingParts == Some(TextOf(events[j + 1..n]));
    }
    if s.codeTag.Some? {
      var j := CodeSince(w, events, n);
      assert s.codeTag == Some(events[j].tag) && s.codeParts == TextOf(events[j + 1..n]);
    }
  }

  /** For every stream of events: the page counts as blocked exactly if some event shows a block. */
  lemma BlockedExactly(w: Texts, events: seq<Event>)
    ensures Run(w, INITIAL, events).blocked <==> exists k :: 0 <= k < |events| && Shows(w, events, k)
  {
    hide Run, Finds, Shows;
    BlockedMeansFoundInContainer(w, events);
    forall k | 0 <= k < |events| ensures Finds(w, Run(w, INITIAL, events[..k]), events[k]) <==> Shows(w, events, k) {
      FindsAsShown(w, events, k);
    }
  }

  /** The container is open after a stream exactly as its tags say, and the title is the text of the first
      `title` that has ended. */
  lemma ContainerAndTitle(w: Texts, events: seq<Event>)
    ensures var s := Run(w, INITIAL, events);
            && (s.containerTag.Some? <==> Open(events, |events|))
            && (s.title.Some? <==> exists j, k :: 0 <= j < k < |events| && WholeTitle(events, j, k))
            && (forall j, k :: 0 <= j < k < |events| && WholeTitle(events, j, k) ==>
                  s.title == Some(TextOf(events[j + 1..k])))
  {
    hide Run, Open, Inside, TextOf, WholeTitle, HeadingTied, CodeTied, Sound;
    var s := Run(w, INITIAL, events);
    StateFollows(w, events, |events|);
    assert events[..|events|] == events;
    forall j: nat, k: nat | j < k < |events| && WholeTitle(events, j, k)
      ensures s.title == Some(TextOf(events[j + 1..k]))
    {
      OneTitle(events, j, k, |events|, s);
    }
  }
}
