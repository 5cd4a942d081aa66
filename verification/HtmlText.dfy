/**
  Text from HTML structure: a stack machine over tag events, and the rendering
  of an element tree that it computes.
*/
module HtmlText {
  import opened Wrappers

  type Text = seq<char>
  type Tag = string

  const BLOCKS: set<Tag> := {
    "address", "article", "aside", "blockquote", "caption", "center", "dd", "details", "dialog", "div", "dl", "dt",
    "fieldset", "figcaption", "figure", "footer", "form", "h1", "h2", "h3", "h4", "h5", "h6", "header", "hgroup", "hr",
    "legend", "li", "main", "menu", "nav", "ol", "p", "pre", "section", "summary", "table", "tbody", "td", "tfoot", "th",
    "thead", "tr", "ul"}
  const VOID: set<Tag> := {
    "area", "base", "br", "col", "embed", "hr", "img", "input", "link", "meta", "param", "source", "track", "wbr"}
  const NON_TEXT: set<Tag> := {"script", "style", "template", "head"}

  const GAP: Text := " "

  /** What the attributes of a tag say about it: a `hidden` attribute, or a style
      that hides. */
  datatype Attributes = Attributes(hidden: bool, hidingStyle: bool)

  datatype Event =
    | StartTag(tag: Tag, attributes: Attributes)
    | EndTag(tag: Tag)
    | StartEndTag(tag: Tag, attributes: Attributes)
    | Data(text: Text)

  datatype Open = Open(tag: Tag, hidden: bool)

  // ----- the machine, as a function of its state

  datatype State = State(parts: seq<Text>, stack: seq<Open>)

  predicate Hidden(stack: seq<Open>) {
    exists i | 0 <= i < |stack| :: stack[i].hidden
  }

  predicate Hides(tag: Tag, a: Attributes) {
    tag in NON_TEXT || a.hidden || a.hidingStyle
  }

  function Started(s: State, tag: Tag, a: Attributes): State {
    var hidden := Hidden(s.stack) || Hides(tag, a);
    State(if !hidden && (tag in BLOCKS || tag == "br") then s.parts + [GAP] else s.parts,
          if tag !in VOID then s.stack + [Open(tag, hidden)] else s.stack)
  }

  /** The stack without the innermost open element of this name, and without
      everything opened inside it. */
  function Closed(stack: seq<Open>, tag: Tag): seq<Open> {
    if forall i | 0 <= i < |stack| :: stack[i].tag != tag then stack
    else if stack[|stack| - 1].tag == tag then stack[..|stack| - 1]
    else Closed(stack[..|stack| - 1], tag)
  }

  function Ended(s: State, tag: Tag): State {
    State(if !Hidden(s.stack) && tag in BLOCKS then s.parts + [GAP] else s.parts, Closed(s.stack, tag))
  }

  function Step(s: State, e: Event): State {
    match e
    case StartTag(tag, a) => Started(s, tag, a)
    case EndTag(tag) => Ended(s, tag)
    case StartEndTag(tag, a) =>
      if tag in VOID then Started(s, tag, a) else Ended(Started(s, tag, a), tag)
    case Data(text) => if Hidden(s.stack) then s else s.(parts := s.parts + [text])
  }

  function Run(s: State, events: seq<Event>): State
    decreases |events|
  {
    if events == [] then s else Run(Step(s, events[0]), events[1..])
  }

  function Concat(parts: seq<Text>): Text {
    if parts == [] then [] else parts[0] + Concat(parts[1..])
  }

  // ----- the machine itself

  class FragmentText {
    var parts: seq<Text>
    var stack: seq<Open>

    ghost function Now(): State
      reads this
    {
      State(parts, stack)
    }

    constructor ()
      ensures Now() == State([], [])
    {
      parts, stack := [], [];
    }

    method IsHidden() returns (r: bool)
      ensures r == Hidden(stack)
    {
      r := false;
      for i := 0 to |stack|
        invariant r <==> exists k | 0 <= k < i :: stack[k].hidden
      {
        r := r || stack[i].hidden;
      }
    }

    method HandleStartTag(tag: Tag, a: Attributes)
      modifies this
      ensures Now() == Started(old(Now()), tag, a)
    {
      var hidden := IsHidden();
      hidden := hidden || tag in NON_TEXT || a.hidden || a.hidingStyle;
      if !hidden && (tag in BLOCKS || tag == "br") {
        parts := parts + [GAP];
      }
      if tag !in VOID {
        stack := stack + [Open(tag, hidden)];
      }
    }

    method HandleEndTag(tag: Tag)
      modifies this
      ensures Now() == Ended(old(Now()), tag)
    {
      var hidden := IsHidden();
      var i := |stack|;
      while i > 0
        invariant 0 <= i <= |stack| && Now() == old(Now())
        invariant forall k | i <= k < |stack| :: stack[k].tag != tag
        decreases i
      {
        i := i - 1;
        if stack[i].tag == tag {
          ClosedAt(stack, i, tag);
          stack := stack[..i];
          break;
        }
      }
      if !hidden && tag in BLOCKS {
        parts := parts + [GAP];
      }
    }

    method HandleStartEndTag(tag: Tag, a: Attributes)
      modifies this
      ensures Now() == Step(old(Now()), StartEndTag(tag, a))
    {
      HandleStartTag(tag, a);
      if tag !in VOID {
        HandleEndTag(tag);
      }
    }

    method HandleData(text: Text)
      modifies this
      ensures Now() == Step(old(Now()), Data(text))
    {
      var hidden := IsHidden();
      if !hidden {
        parts := parts + [text];
      }
    }

    method Feed(events: seq<Event>)
      modifies this
      ensures Now() == Run(old(Now()), events)
    {
      for i := 0 to |events|
        invariant Run(Now(), events[i..]) == Run(old(Now()), events)
      {
        assert events[i..][1..] == events[i + 1..];
        match events[i]
        case StartTag(tag, a) => HandleStartTag(tag, a);
        case EndTag(tag) => HandleEndTag(tag);
        case StartEndTag(tag, a) => HandleStartEndTag(tag, a);
        case Data(text) => HandleData(text);
      }
    }
  }

  lemma {:induction false} ClosedAt(stack: seq<Open>, i: nat, tag: Tag)
    requires i < |stack| && stack[i].tag == tag
    requires forall k | i < k < |stack| :: stack[k].tag != tag
    ensures Closed(stack, tag) == stack[..i]
  {
    if i < |stack| - 1 {
      var top := stack[..|stack| - 1];
      ClosedAt(top, i, tag);
      assert top[..i] == stack[..i];
    }
  }

  // ----- trees

  /** A fragment as a tree: text, elements, self-closed elements, and void
      elements, which have no content and may be written self-closed. */
  datatype Node =
    | Words(text: Text)
    | Element(tag: Tag, attributes: Attributes, children: seq<Node>)
    | Empty(tag: Tag, attributes: Attributes)
    | Void(tag: Tag, attributes: Attributes, selfClosed: bool)

  predicate NodeOk(n: Node)
    decreases n, 1
  {
    match n
    case Words(_) => true
    case Element(tag, _, children) => tag !in VOID && WellFormed(children)
    case Empty(tag, _) => tag !in VOID
    case Void(tag, _, _) => tag in VOID
  }

  predicate WellFormed(nodes: seq<Node>)
    decreases nodes, 0
  {
    nodes == [] || (NodeOk(nodes[0]) && WellFormed(nodes[1..]))
  }

  function NodeEvents(n: Node): seq<Event>
    decreases n, 1
  {
    match n
    case Words(text) => [Data(text)]
    case Element(tag, a, children) => [StartTag(tag, a)] + (Events(children) + [EndTag(tag)])
    case Empty(tag, a) => [StartEndTag(tag, a)]
    case Void(tag, a, selfClosed) => if selfClosed then [StartEndTag(tag, a)] else [StartTag(tag, a)]
  }

  /** The tag events of a fragment, in document order. */
  function Events(nodes: seq<Node>): seq<Event>
    decreases nodes, 0
  {
    if nodes == [] then [] else NodeEvents(nodes[0]) + Events(nodes[1..])
  }

  /** The visible text of a node: nothing if it or anything around it is hidden,
      and a space where a block starts or ends. */
  function NodeText(n: Node): Text
    decreases n, 1
  {
    match n
    case Words(text) => text
    case Element(tag, a, children) =>
      if Hides(tag, a) then []
      else
        var edge := if tag in BLOCKS then GAP else [];
        edge + (VisibleText(children) + edge)
    case Empty(tag, a) => if !Hides(tag, a) && tag in BLOCKS then GAP + GAP else []
    case Void(tag, a, _) => if !Hides(tag, a) && (tag in BLOCKS || tag == "br") then GAP else []
  }

  function VisibleText(nodes: seq<Node>): Text
    decreases nodes, 0
  {
    if nodes == [] then [] else NodeText(nodes[0]) + VisibleText(nodes[1..])
  }

  lemma {:induction false} RunAppend(s: State, a: seq<Event>, b: seq<Event>)
    ensures Run(s, a + b) == Run(Run(s, a), b)
    decreases |a|
  {
    if a == [] {
      assert a + b == b;
    } else {
      assert (a + b)[1..] == a[1..] + b;
      RunAppend(Step(s, a[0]), a[1..], b);
    }
  }

  lemma {:induction false} ConcatAppend(a: seq<Text>, b: seq<Text>)
    ensures Concat(a + b) == Concat(a) + Concat(b)
  {
    if a == [] {
      assert a + b == b;
    } else {
      assert (a + b)[1..] == a[1..] + b;
      ConcatAppend(a[1..], b);
    }
  }

  lemma ConcatOne(a: seq<Text>, t: Text)
    ensures Concat(a + [t]) == Concat(a) + t
  {
    ConcatAppend(a, [t]);
    assert [t][1..] == [] && t + [] == t;
  }

  lemma HiddenPush(stack: seq<Open>, o: Open)
    ensures Hidden(stack + [o]) <==> Hidden(stack) || o.hidden
  {
    var s := stack + [o];
    assert s[|stack|] == o;
    forall i | 0 <= i < |stack|
      ensures s[i] == stack[i]
    {
    }
  }

  lemma ClosePushed(stack: seq<Open>, o: Open)
    ensures Closed(stack + [o], o.tag) == stack
  {
    var s := stack + [o];
    assert s[|s| - 1] == o && s[..|s| - 1] == stack;
  }

  /** The text appended by a run from `s` to `s'` is `added`, and the stack is as before. */
  predicate Appended(s: State, s': State, added: Text) {
    s'.stack == s.stack && Concat(s'.parts) == Concat(s.parts) + added
  }

  lemma SameStack(s: State, s': State, added: Text)
    requires Appended(s, s', added)
    ensures s'.stack == s.stack
  {
  }

  lemma AppendedTwice(s: State, s': State, s'': State, a: Text, b: Text)
    requires Appended(s, s', a) && Appended(s', s'', b)
    ensures Appended(s, s'', a + b)
  {
    hide Concat;
    assert (Concat(s.parts) + a) + b == Concat(s.parts) + (a + b);
  }

  /** Feeding the events of a fragment appends exactly its visible text, or
      nothing inside hidden content, and leaves the stack as it found it. */
  lemma {:induction false} FragmentRun(nodes: seq<Node>, s: State)
    requires WellFormed(nodes)
    ensures Appended(s, Run(s, Events(nodes)), if Hidden(s.stack) then [] else VisibleText(nodes))
    decreases nodes, 0
  {
    if nodes == [] {
      assert Concat(s.parts) + [] == Concat(s.parts);
    } else {
      hide NodeEvents, NodeText, Hidden, Concat, NodeOk, Run, Appended;
      var n, more := nodes[0], nodes[1..];
      RunAppend(s, NodeEvents(n), Events(more));
      NodeRun(n, s);
      var s' := Run(s, NodeEvents(n));
      var hidden := Hidden(s.stack);
      SameStack(s, s', if hidden then [] else NodeText(n));
      FragmentRun(more, s');
      AppendedTwice(s, s', Run(s', Events(more)), if hidden then [] else NodeText(n), if hidden then [] else VisibleText(more));
    }
  }

  lemma {:induction false} NodeRun(n: Node, s: State)
    requires NodeOk(n)
    ensures Appended(s, Run(s, NodeEvents(n)), if Hidden(s.stack) then [] else NodeText(n))
    decreases n, 1
  {
    hide Concat, Hidden, Started, Ended, VisibleText, Events;
    match n
    case Words(text) =>
      ConcatOne(s.parts, text);
      assert Concat(s.parts) + [] == Concat(s.parts);
    case Element(tag, a, children) =>
      ElementRun(tag, a, children, s);
    case Empty(tag, a) => EmptyRun(tag, a, s);
    case Void(tag, a, selfClosed) => VoidRun(tag, a, s);
  }

  function Edge(tag: Tag): Text {
    if tag in BLOCKS then GAP else []
  }

  /** Where a non-void element starts. */
  lemma StartRun(s: State, tag: Tag, a: Attributes)
    requires tag !in VOID
    ensures var s', hidden := Started(s, tag, a), Hidden(s.stack) || Hides(tag, a);
            && s'.stack == s.stack + [Open(tag, hidden)] && (Hidden(s'.stack) <==> hidden)
            && Concat(s'.parts) == Concat(s.parts) + (if hidden then [] else Edge(tag))
  {
    assert "br" in VOID;
    var hidden := Hidden(s.stack) || Hides(tag, a);
    HiddenPush(s.stack, Open(tag, hidden));
    ConcatOne(s.parts, GAP);
    hide Concat;
    assert Concat(s.parts) + [] == Concat(s.parts);
  }

  /** Where the innermost open element ends. */
  lemma EndRun(s: State, stack: seq<Open>, tag: Tag, hidden: bool)
    requires s.stack == stack + [Open(tag, hidden)]
    ensures var s' := Ended(s, tag);
            s'.stack == stack
            && Concat(s'.parts) == Concat(s.parts) + (if Hidden(s.stack) then [] else Edge(tag))
  {
    ClosePushed(stack, Open(tag, hidden));
    ConcatOne(s.parts, GAP);
    hide Concat;
    assert Concat(s.parts) + [] == Concat(s.parts);
  }

  lemma Three(a: Text, b: Text, c: Text, d: Text)
    ensures ((a + b) + c) + d == a + (b + (c + d))
    ensures a + ([] + ([] + [])) == a
  {
  }

  lemma {:induction false} ElementRun(tag: Tag, a: Attributes, children: seq<Node>, s: State)
    requires tag !in VOID && WellFormed(children)
    ensures var n := Element(tag, a, children);
            Appended(s, Run(s, NodeEvents(n)), if Hidden(s.stack) then [] else NodeText(n))
    decreases children, 1
  {
    var hidden := Hidden(s.stack) || Hides(tag, a);
    var s1 := Started(s, tag, a);
    var s2 := Run(s1, Events(children));
    StartRun(s, tag, a);
    FragmentRun(children, s1);
    EndRun(s2, s.stack, tag, hidden);
    var end := [EndTag(tag)];
    RunAppend(s1, Events(children), end);
    assert Run(s2, end) == Ended(s2, tag) by {
      assert end[1..] == [];
    }
    var events := NodeEvents(Element(tag, a, children));
    assert events[0] == StartTag(tag, a) && events[1..] == Events(children) + end;
    hide Concat, Hidden, Started, Ended, Hides;
    var edge := if hidden then [] else Edge(tag);
    Three(Concat(s.parts), edge, if hidden then [] else VisibleText(children), edge);
  }

  lemma EmptyRun(tag: Tag, a: Attributes, s: State)
    requires tag !in VOID
    ensures Appended(s, Step(s, StartEndTag(tag, a)), if Hidden(s.stack) then [] else NodeText(Empty(tag, a)))
  {
    var hidden := Hidden(s.stack) || Hides(tag, a);
    StartRun(s, tag, a);
    EndRun(Started(s, tag, a), s.stack, tag, hidden);
    hide Concat, Hidden, Started, Ended, Hides;
    var edge := if hidden then [] else Edge(tag);
    Three(Concat(s.parts), edge, [], edge);
  }

  lemma VoidRun(tag: Tag, a: Attributes, s: State)
    requires tag in VOID
    ensures Appended(s, Started(s, tag, a), if Hidden(s.stack) then [] else NodeText(Void(tag, a, false)))
  {
    ConcatOne(s.parts, GAP);
    hide Concat;
    assert Concat(s.parts) + [] == Concat(s.parts);
  }

  // ----- any stream of events, however malformed

  /** Once an open element is hidden, so is everything opened inside it. */
  predicate Monotone(stack: seq<Open>) {
    forall i, j | 0 <= i < j < |stack| :: stack[i].hidden ==> stack[j].hidden
  }

  lemma {:induction false} ClosedIsPrefix(stack: seq<Open>, tag: Tag)
    ensures Closed(stack, tag) <= stack
    ensures |Closed(stack, tag)| < |stack| ==>
              stack[|Closed(stack, tag)|].tag == tag
              && forall i | |Closed(stack, tag)| < i < |stack| :: stack[i].tag != tag
    ensures |Closed(stack, tag)| == |stack| ==> forall i | 0 <= i < |stack| :: stack[i].tag != tag
  {
    if exists i | 0 <= i < |stack| :: stack[i].tag == tag {
      if stack[|stack| - 1].tag != tag {
        ClosedIsPrefix(stack[..|stack| - 1], tag);
      }
    }
  }

  /** Every stream keeps the hidden flags monotone, so that the innermost open
      element alone says whether text is hidden, and only ever adds parts. */
  lemma {:induction false} AnyRun(s: State, events: seq<Event>)
    requires Monotone(s.stack)
    ensures var s' := Run(s, events);
            && Monotone(s'.stack) && s.parts <= s'.parts
            && (Hidden(s'.stack) <==> s'.stack != [] && s'.stack[|s'.stack| - 1].hidden)
    decreases |events|
  {
    if events != [] {
      StepKeeps(s, events[0]);
      AnyRun(Step(s, events[0]), events[1..]);
    }
  }

  lemma StartKeeps(s: State, tag: Tag, a: Attributes)
    requires Monotone(s.stack)
    ensures Monotone(Started(s, tag, a).stack) && s.parts <= Started(s, tag, a).parts
  {
    hide Hides;
  }

  lemma EndKeeps(s: State, tag: Tag)
    requires Monotone(s.stack)
    ensures Monotone(Ended(s, tag).stack) && s.parts <= Ended(s, tag).parts
  {
    ClosedIsPrefix(s.stack, tag);
    hide Closed;
  }

  lemma StepKeeps(s: State, e: Event)
    requires Monotone(s.stack)
    ensures Monotone(Step(s, e).stack) && s.parts <= Step(s, e).parts
  {
    match e
    case StartTag(tag, a) => StartKeeps(s, tag, a);
    case EndTag(tag) => EndKeeps(s, tag);
    case StartEndTag(tag, a) =>
      StartKeeps(s, tag, a);
      EndKeeps(Started(s, tag, a), tag);
    case Data(_) =>
  }

  // ----- collapsing white space

  /** The characters Python counts as white space. */
  predicate IsSpace(c: char) {
    var v := c as int;
    || 0x09 <= v <= 0x0D || 0x1C <= v <= 0x20 || v == 0x85 || v == 0xA0 || v == 0x1680
    || 0x2000 <= v <= 0x200A || v == 0x2028 || v == 0x2029 || v == 0x202F || v == 0x205F || v == 0x3000
  }

  function DropSpace(s: Text): (r: Text)
    ensures |r| <= |s|
    ensures r != [] ==> !IsSpace(r[0])
  {
    if s != [] && IsSpace(s[0]) then DropSpace(s[1..]) else s
  }

  /** Each maximal run of white space becomes one space. */
  function Squeeze(s: Text): Text
    decreases |s|
  {
    if s == [] then []
    else if IsSpace(s[0]) then GAP + Squeeze(DropSpace(s[1..]))
    else [s[0]] + Squeeze(s[1..])
  }

  function DropTrailing(s: Text): Text {
    if s != [] && IsSpace(s[|s| - 1]) then DropTrailing(s[..|s| - 1]) else s
  }

  function Strip(s: Text): Text {
    DropTrailing(DropSpace(s))
  }

  function Collapse(s: Text): Text {
    Strip(Squeeze(s))
  }

  /** Render a fragment given as the events the HTML library reports for it. */
  method RenderHtmlText(value: Option<seq<Event>>) returns (r: Option<Text>)
    ensures r == match value
                 case None => None
                 case Some(events) =>
                   var text := Collapse(Concat(Run(State([], []), events).parts));
                   if text == [] then None else Some(text)
  {
    if value == None {
      return None;
    }
    var parser := new FragmentText();
    parser.Feed(value.value);
    var text := Collapse(Concat(parser.parts));
    r := if text == [] then None else Some(text);
  }

  // ----- what collapsing means: words

  function WordEnd(s: Text): (n: nat)
    ensures n <= |s|
    ensures forall i | 0 <= i < n :: !IsSpace(s[i])
    ensures n < |s| ==> IsSpace(s[n])
  {
    if s != [] && !IsSpace(s[0]) then 1 + WordEnd(s[1..]) else 0
  }

  /** The maximal runs of visible characters, in order. */
  function Split(s: Text): seq<Text>
    decreases |s|
  {
    var t := DropSpace(s);
    if t == [] then [] else [t[..WordEnd(t)]] + Split(t[WordEnd(t)..])
  }

  function Join(words: seq<Text>): Text {
    if words == [] then []
    else if |words| == 1 then words[0]
    else words[0] + (GAP + Join(words[1..]))
  }

  predicate IsWord(w: Text) {
    w != [] && forall i | 0 <= i < |w| :: !IsSpace(w[i])
  }

  predicate AllWords(words: seq<Text>) {
    forall i | 0 <= i < |words| :: IsWord(words[i])
  }

  lemma {:induction false} SplitWords(s: Text)
    ensures AllWords(Split(s))
    decreases |s|
  {
    var t := DropSpace(s);
    if t != [] {
      SplitWords(t[WordEnd(t)..]);
    }
  }

  lemma {:induction false} SqueezeWord(w: Text, rest: Text)
    requires forall i | 0 <= i < |w| :: !IsSpace(w[i])
    ensures Squeeze(w + rest) == w + Squeeze(rest)
  {
    if w == [] {
      assert w + rest == rest;
      assert w + Squeeze(rest) == Squeeze(rest);
    } else {
      assert (w + rest)[1..] == w[1..] + rest;
      SqueezeWord(w[1..], rest);
      assert w + Squeeze(rest) == [w[0]] + (w[1..] + Squeeze(rest));
    }
  }

  lemma {:induction false} DropSqueezed(s: Text)
    ensures DropSpace(Squeeze(s)) == Squeeze(DropSpace(s))
    decreases |s|
  {
    var t := DropSpace(s);
    if s != [] && IsSpace(s[0]) {
      assert t == DropSpace(s[1..]);
      assert Squeeze(s) == GAP + Squeeze(t) && (GAP + Squeeze(t))[1..] == Squeeze(t);
      if t != [] {
        assert Squeeze(t)[0] == t[0];
      }
    } else if s != [] {
      assert Squeeze(s)[0] == s[0];
    }
  }

  /** Squeezed text from its first word on: the words, and a space if one ended it. */
  lemma {:induction false} SqueezeSplit(t: Text)
    requires t == DropSpace(t)
    ensures Squeeze(t) == Join(Split(t)) || Squeeze(t) == Join(Split(t)) + GAP
    ensures t == [] <==> Split(t) == []
    decreases |t|
  {
    if t != [] {
      var n := WordEnd(t);
      var w, rest := t[..n], t[n..];
      var u := DropSpace(rest);
      assert t == w + rest;
      SqueezeWord(w, rest);
      assert Split(rest) == Split(u);
      assert Split(t) == [w] + Split(rest);
      assert Split(t)[1..] == Split(rest);
      if rest == [] {
        assert w + [] == w;
      } else {
        assert Squeeze(rest) == GAP + Squeeze(u);
        SqueezeSplit(u);
        if u == [] {
          assert GAP + [] == GAP;
        } else {
          var words := Join(Split(u));
          assert w + (GAP + (words + GAP)) == (w + (GAP + words)) + GAP;
        }
      }
    }
  }

  lemma {:induction false} JoinEnds(words: seq<Text>)
    requires AllWords(words) && words != []
    ensures var j := Join(words); j != [] && !IsSpace(j[0]) && !IsSpace(j[|j| - 1])
  {
    assert IsWord(words[0]);
    if |words| > 1 {
      JoinEnds(words[1..]);
    }
  }

  /** Collapsing is exactly splitting into words and joining them with one space. */
  lemma CollapseIsWords(s: Text)
    ensures Collapse(s) == Join(Split(s))
  {
    var t := DropSpace(s);
    var words := Split(s);
    assert words == Split(t);
    DropSqueezed(s);
    SqueezeSplit(t);
    SplitWords(s);
    var j := Join(words);
    if words != [] {
      JoinEnds(words);
      hide IsSpace, Squeeze, Join, Split;
      assert DropTrailing(j) == j;
      assert (j + GAP)[..|j + GAP| - 1] == j;
      SpaceIsSpace();
      assert DropTrailing(j + GAP) == j;
    }
  }

  lemma SpaceIsSpace()
    ensures IsSpace(GAP[0])
  {
  }

  /** No leading, trailing or doubled white space, and every space is a plain one. */
  predicate Tidy(s: Text) {
    && (s != [] ==> !IsSpace(s[0]) && !IsSpace(s[|s| - 1]))
    && forall i | 0 <= i < |s| && IsSpace(s[i]) :: s[i] == ' ' && (i + 1 < |s| ==> !IsSpace(s[i + 1]))
  }

  function Visible(s: Text): Text {
    if s == [] then [] else (if IsSpace(s[0]) then [] else [s[0]]) + Visible(s[1..])
  }

  lemma {:induction false} JoinTidy(words: seq<Text>)
    requires AllWords(words)
    ensures Tidy(Join(words))
  {
    if |words| > 1 {
      JoinTidy(words[1..]);
      JoinEnds(words[1..]);
      assert IsWord(words[0]);
      var w, j := words[0], Join(words[1..]);
      hide IsSpace, Join, Split;
      SpaceIsSpace();
      assert Join(words) == w + (GAP + j);
    } else if |words| == 1 {
      assert IsWord(words[0]);
    }
  }

  lemma {:induction false} VisibleAppend(a: Text, b: Text)
    ensures Visible(a + b) == Visible(a) + Visible(b)
  {
    if a == [] {
      assert a + b == b;
    } else {
      assert (a + b)[1..] == a[1..] + b;
      VisibleAppend(a[1..], b);
    }
  }

  lemma {:induction false} VisibleWord(w: Text)
    requires forall i | 0 <= i < |w| :: !IsSpace(w[i])
    ensures Visible(w) == w
  {
    if w != [] {
      VisibleWord(w[1..]);
      assert w == [w[0]] + w[1..];
    }
  }

  lemma {:induction false} VisibleDrop(s: Text)
    ensures Visible(DropSpace(s)) == Visible(s)
  {
    if s != [] && IsSpace(s[0]) {
      VisibleDrop(s[1..]);
      assert [] + Visible(s[1..]) == Visible(s[1..]);
    }
  }

  function Flat(words: seq<Text>): Text {
    if words == [] then [] else words[0] + Flat(words[1..])
  }

  /** Splitting loses no visible character and reorders none. */
  lemma {:induction false} SplitKeepsVisible(s: Text)
    ensures Flat(Split(s)) == Visible(s)
    decreases |s|
  {
    var t := DropSpace(s);
    VisibleDrop(s);
    if t != [] {
      var w, rest := t[..WordEnd(t)], t[WordEnd(t)..];
      assert t == w + rest;
      VisibleAppend(w, rest);
      VisibleWord(w);
      SplitKeepsVisible(rest);
      assert Split(s)[1..] == Split(rest);
    }
  }

  lemma {:induction false} JoinKeepsVisible(words: seq<Text>)
    requires AllWords(words)
    ensures Visible(Join(words)) == Flat(words)
  {
    if words != [] {
      assert IsWord(words[0]);
      VisibleWord(words[0]);
      if |words| > 1 {
        var j := Join(words[1..]);
        VisibleAppend(words[0], GAP + j);
        VisibleAppend(GAP, j);
        SpaceIsSpace();
        assert Visible(GAP) == [] by { assert GAP[1..] == []; }
        JoinKeepsVisible(words[1..]);
        assert [] + Visible(j) == Visible(j);
      } else {
        assert Flat(words[1..]) == [] && words[0] + [] == words[0];
      }
    }
  }

  /** A word in front of the rest of a text is the first word of the whole. */
  lemma SplitFirst(w: Text, rest: Text)
    requires IsWord(w) && (rest != [] ==> IsSpace(rest[0]))
    ensures Split(w + rest) == [w] + Split(rest)
  {
    var s := w + rest;
    WordEndAt(s, |w|);
    assert s[..|w|] == w && s[|w|..] == rest;
  }

  lemma {:induction false} WordEndAt(s: Text, n: nat)
    requires n <= |s| && (forall i | 0 <= i < n :: !IsSpace(s[i])) && (n < |s| ==> IsSpace(s[n]))
    ensures WordEnd(s) == n
  {
    if n > 0 {
      WordEndAt(s[1..], n - 1);
    }
  }

  /** Splitting undoes joining. */
  lemma {:induction false} SplitJoin(words: seq<Text>)
    requires AllWords(words)
    ensures Split(Join(words)) == words
  {
    if words != [] {
      assert IsWord(words[0]);
      if |words| == 1 {
        SplitFirst(words[0], []);
        assert words[0] + [] == words[0] && Split([]) == [];
        assert words == [words[0]];
      } else {
        var j := Join(words[1..]);
        SpaceIsSpace();
        SplitFirst(words[0], GAP + j);
        SplitJoin(words[1..]);
        assert (GAP + j)[1..] == j;
        assert Split(GAP + j) == Split(j) by { assert DropSpace(GAP + j) == DropSpace(j); }
        assert words == [words[0]] + words[1..];
      }
    }
  }

  /** Collapsing keeps the words of a text, in order and apart; the result is
      tidy, and collapsing again changes nothing. */
  lemma CollapseKeepsWords(s: Text)
    ensures var c := Collapse(s);
            Tidy(c) && Split(c) == Split(s) && Visible(c) == Visible(s) && Collapse(c) == c
  {
    var c := Collapse(s);
    CollapseIsWords(s);
    SplitWords(s);
    JoinTidy(Split(s));
    SplitJoin(Split(s));
    SplitKeepsVisible(s);
    JoinKeepsVisible(Split(s));
    CollapseIsWords(c);
  }

  // ----- hidden content has no influence

  function PruneNode(n: Node): seq<Node>
    decreases n, 1
  {
    match n
    case Element(tag, a, children) => if Hides(tag, a) then [] else [Element(tag, a, Prune(children))]
    case Words(_) => [n]
    case _ => if Hides(n.tag, n.attributes) then [] else [n]
  }

  /** The fragment without its hidden elements. */
  function Prune(nodes: seq<Node>): seq<Node>
    decreases nodes, 0
  {
    if nodes == [] then [] else PruneNode(nodes[0]) + Prune(nodes[1..])
  }

  lemma {:induction false} VisibleTextAppend(a: seq<Node>, b: seq<Node>)
    ensures VisibleText(a + b) == VisibleText(a) + VisibleText(b)
    ensures WellFormed(a + b) <==> WellFormed(a) && WellFormed(b)
  {
    if a == [] {
      assert a + b == b;
    } else {
      hide NodeText, NodeOk;
      assert (a + b)[1..] == a[1..] + b;
      VisibleTextAppend(a[1..], b);
      Three(NodeText(a[0]), VisibleText(a[1..]), VisibleText(b), []);
      assert VisibleText(b) + [] == VisibleText(b);
    }
  }

  lemma {:induction false} PrunedText(nodes: seq<Node>)
    requires WellFormed(nodes)
    ensures WellFormed(Prune(nodes)) && VisibleText(Prune(nodes)) == VisibleText(nodes)
    decreases nodes, 0
  {
    if nodes != [] {
      hide NodeText, NodeOk, PruneNode;
      PrunedNodeText(nodes[0]);
      PrunedText(nodes[1..]);
      VisibleTextAppend(PruneNode(nodes[0]), Prune(nodes[1..]));
    }
  }

  lemma {:induction false} PrunedNodeText(n: Node)
    requires NodeOk(n)
    ensures WellFormed(PruneNode(n)) && VisibleText(PruneNode(n)) == NodeText(n)
    decreases n, 1
  {
    match n
    case Element(tag, a, children) =>
      PrunedText(children);
      OneNode(Element(tag, a, Prune(children)));
    case _ => OneNode(n);
  }

  lemma OneNode(n: Node)
    ensures VisibleText([n]) == NodeText(n) && (WellFormed([n]) <==> NodeOk(n))
  {
    assert [n][1..] == [];
    assert NodeText(n) + [] == NodeText(n);
  }

  /** What a reader sees of a fragment: the words of its visible text, one space
      apart, or nothing; and hidden elements might as well not be there. */
  lemma FragmentRendered(nodes: seq<Node>)
    requires WellFormed(nodes)
    ensures Collapse(Concat(Run(State([], []), Events(nodes)).parts)) == Join(Split(VisibleText(nodes)))
    ensures Run(State([], []), Events(nodes)).stack == []
    ensures Concat(Run(State([], []), Events(Prune(nodes))).parts) == Concat(Run(State([], []), Events(nodes)).parts)
  {
    var s := State([], []);
    FragmentRun(nodes, s);
    PrunedText(nodes);
    FragmentRun(Prune(nodes), s);
    hide Run, Events, VisibleText, Prune;
    assert Concat([]) + VisibleText(nodes) == VisibleText(nodes);
    CollapseIsWords(VisibleText(nodes));
  }
}
