/**
 Tags to text elements: a stack machine over tag tokens, and the tag trees it stands for.
 Tokens come from the tokenizer with entities decoded and names in lower case.
 */
module HtmlText {
  import opened Wrappers
  import Seqs

  datatype Attr = Attr(name: string, value: Option<string>)

  datatype Token =
    | Start(tag: string, attrs: seq<Attr>)
    | End(tag: string)
    | StartEnd(tag: string, attrs: seq<Attr>)
    | Data(text: string)

  datatype Style = Strong | Emphasized | Underline | Strikethrough | Monospaced | Code | Link | Quote

  const TAGS: map<string, Style> := map[
    "b" := Strong, "strong" := Strong, "i" := Emphasized, "em" := Emphasized,
    "u" := Underline, "ins" := Underline,
    "s" := Strikethrough, "strike" := Strikethrough, "del" := Strikethrough,
    "code" := Monospaced, "pre" := Code, "a" := Link, "blockquote" := Quote
  ]

  /** One element of the message; from and length count UTF-16 units. */
  datatype Element = Element(style: Style, from: nat, length: nat, url: Option<string>)

  datatype Problem =
    | Unsupported(tag: string)
    | NoHref
    | StrayClose(tag: string, expected: Option<string>)
    | Unclosed(tags: seq<string>)

  // ---------------------------------------------------------------------------
  // UTF-16 units: section 2.1 of RFC 2781
  // ---------------------------------------------------------------------------

  function Units(c: char): (units: seq<nat>) {
    var u := c as int;
    if u < 0x10000 then [u]
    else
      var v := u - 0x10000;
      [0xD800 + v / 0x400, 0xDC00 + v % 0x400]
  }

  function Encode(text: string): seq<nat> {
    if text == "" then [] else Encode(text[..|text| - 1]) + Units(text[|text| - 1])
  }

  function Utf16Len(text: string): nat {
    |Encode(text)|
  }

  lemma {:induction false} LenConcat(a: string, b: string)
    ensures Utf16Len(a + b) == Utf16Len(a) + Utf16Len(b)
  {
    if b == "" {
      assert a + b == a;
    } else {
      var init := b[..|b| - 1];
      LenConcat(a, init);
      assert (a + b)[..|a + b| - 1] == a + init;
    }
  }

  // ---------------------------------------------------------------------------
  // The machine as a function: what one token does
  // ---------------------------------------------------------------------------

  datatype Frame = Frame(tag: string, start: nat, url: Option<string>, skipped: bool)

  datatype State = State(text: string, open: seq<Frame>, elements: seq<Element>)

  /** The last href wins; an attribute may have no value. */
  function Href(attrs: seq<Attr>): Option<string> {
    if attrs == [] then None
    else if attrs[|attrs| - 1].name == "href" then attrs[|attrs| - 1].value
    else Href(attrs[..|attrs| - 1])
  }

  predicate HasHref(attrs: seq<Attr>) {
    Href(attrs).Some? && Href(attrs).value != ""
  }

  predicate InsidePre(open: seq<Frame>) {
    open != [] && open[|open| - 1].tag == "pre"
  }

  function Url(tag: string, attrs: seq<Attr>): Option<string> {
    if tag == "a" then Href(attrs) else None
  }

  function Opened(s: State, tag: string, attrs: seq<Attr>): Result<State, Problem> {
    if tag == "br" then Ok(s.(text := s.text + "\n"))
    else if tag !in TAGS then Err(Unsupported(tag))
    else if tag == "a" && !HasHref(attrs) then Err(NoHref)
    else
      Ok(s.(open := s.open + [Frame(tag, Utf16Len(s.text), Url(tag, attrs), tag == "code" && InsidePre(s.open))]))
  }

  function Closed(s: State, tag: string): Result<State, Problem> {
    if tag == "br" then Ok(s)
    else if s.open == [] then Err(StrayClose(tag, None))
    else
      var f := s.open[|s.open| - 1];
      if f.tag != tag then Err(StrayClose(tag, Some(f.tag)))
      else
        var length := Utf16Len(s.text) - f.start;
        var made := if f.skipped || length <= 0 || tag !in TAGS then [] else [Element(TAGS[tag], f.start, length, f.url)];
        Ok(State(s.text, s.open[..|s.open| - 1], s.elements + made))
  }

  function Step(s: State, t: Token): Result<State, Problem> {
    match t
    case Data(text) => Ok(s.(text := s.text + text))
    case Start(tag, attrs) => Opened(s, tag, attrs)
    case End(tag) => Closed(s, tag)
    case StartEnd(tag, attrs) =>
      var o := Opened(s, tag, attrs);
      if tag == "br" || o.Err? then o else Closed(o.value, tag)
  }

  function Run(s: State, ts: seq<Token>): Result<State, Problem> {
    if ts == [] then Ok(s)
    else
      var before := Run(s, ts[..|ts| - 1]);
      if before.Err? then before else Step(before.value, ts[|ts| - 1])
  }

  function OpenTags(open: seq<Frame>): (tags: seq<string>)
    ensures |tags| == |open|
    ensures forall i | 0 <= i < |open| :: tags[i] == open[i].tag
  {
    seq(|open|, i requires 0 <= i < |open| => open[i].tag)
  }

  const EMPTY := State("", [], [])

  /** html_to_elements on tokens. */
  function Convert(ts: seq<Token>): Result<(string, seq<Element>), Problem> {
    var r := Run(EMPTY, ts);
    if r.Err? then Err(r.error)
    else if r.value.open != [] then Err(Unclosed(OpenTags(r.value.open)))
    else Ok((r.value.text, InOrder(r.value.elements)))
  }

  // ---------------------------------------------------------------------------
  // The stable sort by start, longest first
  // ---------------------------------------------------------------------------

  /** a may not stand after b. */
  predicate Before(a: Element, b: Element) {
    a.from < b.from || (a.from == b.from && a.length > b.length)
  }

  function Placed(e: Element, es: seq<Element>): seq<Element> {
    if es == [] || !Before(e, es[|es| - 1]) then es + [e]
    else Placed(e, es[..|es| - 1]) + [es[|es| - 1]]
  }

  function InOrder(es: seq<Element>): seq<Element> {
    if es == [] then [] else Placed(es[|es| - 1], InOrder(es[..|es| - 1]))
  }

  ghost predicate Sorted(es: seq<Element>) {
    forall i, j | 0 <= i < j < |es| :: !Before(es[j], es[i])
  }

  /** The elements with one start and length, in order. */
  function SameRange(es: seq<Element>, from: nat, length: nat): seq<Element> {
    if es == [] then []
    else
      var e := es[|es| - 1];
      SameRange(es[..|es| - 1], from, length) + if e.from == from && e.length == length then [e] else []
  }

  lemma {:induction false} PlacedKeeps(e: Element, es: seq<Element>)
    ensures multiset(Placed(e, es)) == multiset(es) + multiset{e}
  {
    hide Before;
    if es != [] && Before(e, es[|es| - 1]) {
      PlacedKeeps(e, es[..|es| - 1]);
      assert es == es[..|es| - 1] + [es[|es| - 1]];
    }
  }

  lemma PlacedIn(e: Element, es: seq<Element>, x: Element)
    ensures x in Placed(e, es) <==> x == e || x in es
  {
    hide Placed;
    PlacedKeeps(e, es);
    assert x in Placed(e, es) <==> x in multiset(Placed(e, es));
    assert x in es <==> x in multiset(es);
  }

  lemma {:induction false} PlacedSorted(e: Element, es: seq<Element>)
    requires Sorted(es)
    ensures Sorted(Placed(e, es))
  {
    if es != [] && Before(e, es[|es| - 1]) {
      var init, last := es[..|es| - 1], es[|es| - 1];
      PlacedSorted(e, init);
      var p := Placed(e, init);
      forall i | 0 <= i < |p|
        ensures !Before(last, p[i])
      {
        PlacedIn(e, init, p[i]);
        if p[i] in init {
          var k :| 0 <= k < |init| && init[k] == p[i];
          assert !Before(es[|es| - 1], es[k]);
        }
      }
    } else if es != [] {
      forall i | 0 <= i < |es|
        ensures !Before(e, es[i])
      {
        assert i < |es| - 1 ==> !Before(es[|es| - 1], es[i]);
      }
    }
  }

  lemma {:induction false} PlacedStable(e: Element, es: seq<Element>, from: nat, length: nat)
    ensures SameRange(Placed(e, es), from, length)
            == SameRange(es, from, length) + if e.from == from && e.length == length then [e] else []
  {
    if es != [] && Before(e, es[|es| - 1]) {
      var init, last := es[..|es| - 1], es[|es| - 1];
      PlacedStable(e, init, from, length);
      assert (Placed(e, init) + [last])[..|Placed(e, init)|] == Placed(e, init);
    } else {
      assert (es + [e])[..|es|] == es;
    }
  }

  lemma {:induction false} InOrderSorted(es: seq<Element>)
    ensures Sorted(InOrder(es))
  {
    hide Sorted, Placed;
    if es != [] {
      InOrderSorted(es[..|es| - 1]);
      PlacedSorted(es[|es| - 1], InOrder(es[..|es| - 1]));
    } else {
      assert Sorted([]) by { NothingSorted(); }
    }
  }

  lemma NothingSorted()
    ensures Sorted([])
  {
  }

  lemma {:induction false} InOrderKeeps(es: seq<Element>)
    ensures multiset(InOrder(es)) == multiset(es)
  {
    hide Placed;
    if es != [] {
      InOrderKeeps(es[..|es| - 1]);
      PlacedKeeps(es[|es| - 1], InOrder(es[..|es| - 1]));
      assert es == es[..|es| - 1] + [es[|es| - 1]];
    }
  }

  /** The sort is stable: elements with one range stay in the order they were made, inner first. */
  lemma {:induction false} InOrderStable(es: seq<Element>, from: nat, length: nat)
    ensures SameRange(InOrder(es), from, length) == SameRange(es, from, length)
  {
    hide Placed;
    if es != [] {
      InOrderStable(es[..|es| - 1], from, length);
      PlacedStable(es[|es| - 1], InOrder(es[..|es| - 1]), from, length);
    }
  }

  // ---------------------------------------------------------------------------
  // Tag trees
  // ---------------------------------------------------------------------------

  /** A forest of tags; it grows to the right. A leaf is text or any form of a line break. */
  datatype Forest =
    | Nothing
    | Leaf(before: Forest, token: Token)
    | Tagged(before: Forest, tag: string, attrs: seq<Attr>, inside: Forest)
    | SelfClosed(before: Forest, tag: string, attrs: seq<Attr>)

  predicate IsLeaf(t: Token) {
    t.Data? || t.tag == "br"
  }

  predicate Allowed(tag: string, attrs: seq<Attr>) {
    tag in TAGS && (tag == "a" ==> HasHref(attrs))
  }

  predicate WellFormed(f: Forest) {
    match f
    case Nothing => true
    case Leaf(before, t) => WellFormed(before) && IsLeaf(t)
    case Tagged(before, tag, attrs, inside) => WellFormed(before) && Allowed(tag, attrs) && WellFormed(inside)
    case SelfClosed(before, tag, attrs) => WellFormed(before) && Allowed(tag, attrs)
  }

  function Flatten(f: Forest): seq<Token> {
    match f
    case Nothing => []
    case Leaf(before, t) => Flatten(before) + [t]
    case Tagged(before, tag, attrs, inside) => Flatten(before) + ([Start(tag, attrs)] + Flatten(inside) + [End(tag)])
    case SelfClosed(before, tag, attrs) => Flatten(before) + [StartEnd(tag, attrs)]
  }

  /** Text as is; a break is a newline, except for a closing one. */
  function LeafText(t: Token): string {
    match t
    case Data(text) => text
    case Start(_, _) => "\n"
    case StartEnd(_, _) => "\n"
    case End(_) => ""
  }

  function TextOf(f: Forest): string {
    match f
    case Nothing => ""
    case Leaf(before, t) => TextOf(before) + LeafText(t)
    case Tagged(before, _, _, inside) => TextOf(before) + TextOf(inside)
    case SelfClosed(before, _, _) => TextOf(before)
  }

  /** What a tag itself stands for: nothing without text, nor as the code of a code block. */
  function Own(tag: string, attrs: seq<Attr>, from: nat, length: nat, inPre: bool): (es: seq<Element>)
    requires tag in TAGS
  {
    if length == 0 || (tag == "code" && inPre) then [] else [Element(TAGS[tag], from, length, Url(tag, attrs))]
  }

  /** The elements of a forest whose text begins at `at`, inner ones first. */
  function ElementsOf(f: Forest, at: nat, inPre: bool): seq<Element>
    requires WellFormed(f)
  {
    match f
    case Nothing => []
    case Leaf(before, _) => ElementsOf(before, at, inPre)
    case SelfClosed(before, _, _) => ElementsOf(before, at, inPre)
    case Tagged(before, tag, attrs, inside) =>
      var from := at + Utf16Len(TextOf(before));
      ElementsOf(before, at, inPre) + ElementsOf(inside, from, tag == "pre")
      + Own(tag, attrs, from, Utf16Len(TextOf(inside)), inPre)
  }

  // ---------------------------------------------------------------------------
  // Machine and trees agree
  // ---------------------------------------------------------------------------

  lemma {:induction false} RunConcat(s: State, a: seq<Token>, b: seq<Token>)
    ensures Run(s, a + b) == if Run(s, a).Err? then Run(s, a) else Run(Run(s, a).value, b)
  {
    hide Step;
    if b == [] {
      assert a + b == a;
    } else {
      RunConcat(s, a, b[..|b| - 1]);
      assert (a + b)[..|a + b| - 1] == a + b[..|b| - 1];
    }
  }

  lemma RunOne(s: State, t: Token)
    ensures Run(s, [t]) == Step(s, t)
  {
    hide Step;
    assert [t][..0] == [];
    assert Run(s, []) == Ok(s);
  }

  /** Reading a well-formed forest adds its text and its elements and leaves the stack as it was. */
  lemma {:induction false} RunForest(s: State, f: Forest)
    requires WellFormed(f)
    ensures Run(s, Flatten(f)) == Ok(State(s.text + TextOf(f), s.open,
                                           s.elements + ElementsOf(f, Utf16Len(s.text), InsidePre(s.open))))
    decreases f, 0
  {
    hide Encode, Utf16Len, HasHref, Url, Run, Step, Own, LeafText, InsidePre, IsLeaf;
    var at, inPre := Utf16Len(s.text), InsidePre(s.open);
    match f
    case Nothing =>
      RunNothing(s);
      assert s.text + "" == s.text && s.elements + [] == s.elements;
    case Leaf(before, t) =>
      RunForest(s, before);
      RunConcat(s, Flatten(before), [t]);
      var u := State(s.text + TextOf(before), s.open, s.elements + ElementsOf(before, at, inPre));
      RunOne(u, t);
      StepLeaf(u, t);
      assert u.text + LeafText(t) == s.text + TextOf(f);
    case SelfClosed(before, tag, attrs) =>
      RunForest(s, before);
      RunConcat(s, Flatten(before), [StartEnd(tag, attrs)]);
      var u := State(s.text + TextOf(before), s.open, s.elements + ElementsOf(before, at, inPre));
      RunOne(u, StartEnd(tag, attrs));
      StepSelfClosed(u, tag, attrs);
    case Tagged(before, tag, attrs, inside) =>
      RunForest(s, before);
      RunConcat(s, Flatten(before), [Start(tag, attrs)] + Flatten(inside) + [End(tag)]);
      RunTagged(State(s.text + TextOf(before), s.open, s.elements + ElementsOf(before, at, inPre)), tag, attrs, inside);
      LenConcat(s.text, TextOf(before));
      assert s.text + TextOf(f) == s.text + TextOf(before) + TextOf(inside);
      var from := at + Utf16Len(TextOf(before));
      assert s.elements + ElementsOf(f, at, inPre)
          == s.elements + ElementsOf(before, at, inPre) + ElementsOf(inside, from, tag == "pre")
             + Own(tag, attrs, from, Utf16Len(TextOf(inside)), inPre);
  }

  lemma RunNothing(s: State)
    ensures Run(s, []) == Ok(s)
  {
  }

  lemma StepLeaf(s: State, t: Token)
    requires IsLeaf(t)
    ensures Step(s, t) == Ok(s.(text := s.text + LeafText(t)))
  {
    assert s.text + "" == s.text;
  }

  lemma StepSelfClosed(s: State, tag: string, attrs: seq<Attr>)
    requires Allowed(tag, attrs)
    ensures Step(s, StartEnd(tag, attrs)) == Ok(s)
  {
    hide Encode, HasHref, Url;
    var o := Opened(s, tag, attrs).value;
    assert o.open[..|s.open|] == s.open && s.elements + [] == s.elements;
  }

  lemma RunTagged(s: State, tag: string, attrs: seq<Attr>, inside: Forest)
    requires WellFormed(inside) && Allowed(tag, attrs)
    ensures var from := Utf16Len(s.text);
            Run(s, [Start(tag, attrs)] + Flatten(inside) + [End(tag)])
            == Ok(State(s.text + TextOf(inside), s.open,
                        s.elements + ElementsOf(inside, from, tag == "pre")
                        + Own(tag, attrs, from, Utf16Len(TextOf(inside)), InsidePre(s.open))))
    decreases inside, 1
  {
    hide Encode, Utf16Len, HasHref, Url, Run, Step, Closed, Opened, Own, TextOf, ElementsOf, Flatten, InsidePre;
    RunConcat(s, [Start(tag, attrs)] + Flatten(inside), [End(tag)]);
    RunConcat(s, [Start(tag, attrs)], Flatten(inside));
    RunOne(s, Start(tag, attrs));
    StepStart(s, tag, attrs);
    var o := Step(s, Start(tag, attrs)).value;
    RunForest(o, inside);
    LenConcat(s.text, TextOf(inside));
    var u := State(s.text + TextOf(inside), o.open, s.elements + ElementsOf(inside, Utf16Len(s.text), tag == "pre"));
    RunOne(u, End(tag));
    StepEnd(u, s.open, tag, attrs, Utf16Len(s.text), InsidePre(s.open));
  }

  /** An opening tag remembers where it stands; what follows is inside it. */
  lemma StepStart(s: State, tag: string, attrs: seq<Attr>)
    requires Allowed(tag, attrs)
    ensures Step(s, Start(tag, attrs)) == Ok(s.(open := WithTag(s.open, tag, attrs, Utf16Len(s.text), InsidePre(s.open))))
    ensures InsidePre(WithTag(s.open, tag, attrs, Utf16Len(s.text), InsidePre(s.open))) == (tag == "pre")
  {
    hide Encode, Utf16Len, HasHref, Url;
  }

  function WithTag(open: seq<Frame>, tag: string, attrs: seq<Attr>, start: nat, inPre: bool): seq<Frame> {
    open + [Frame(tag, start, Url(tag, attrs), tag == "code" && inPre)]
  }

  lemma StepEnd(u: State, open: seq<Frame>, tag: string, attrs: seq<Attr>, start: nat, inPre: bool)
    requires Allowed(tag, attrs) && u.open == WithTag(open, tag, attrs, start, inPre) && start <= Utf16Len(u.text)
    ensures Step(u, End(tag)) == Ok(State(u.text, open,
                                          u.elements + Own(tag, attrs, start, Utf16Len(u.text) - start, inPre)))
  {
    hide Encode, Utf16Len, HasHref, Url;
    assert u.open[..|open|] == open;
  }

  /** The tokens read so far as trees: complete ones, inside tags that are still open. */
  datatype Partial =
    | Root(forest: Forest)
    | Inside(outer: Partial, tag: string, attrs: seq<Attr>, forest: Forest)

  function Tokens(p: Partial): seq<Token> {
    match p
    case Root(f) => Flatten(f)
    case Inside(outer, tag, attrs, f) => Tokens(outer) + [Start(tag, attrs)] + Flatten(f)
  }

  function Tags(p: Partial): seq<string> {
    match p
    case Root(_) => []
    case Inside(outer, tag, _, _) => Tags(outer) + [tag]
  }

  predicate WellFormedPartial(p: Partial) {
    match p
    case Root(f) => WellFormed(f)
    case Inside(outer, tag, attrs, f) => WellFormedPartial(outer) && Allowed(tag, attrs) && WellFormed(f)
  }

  function WithForest(p: Partial, f: Forest): Partial {
    match p
    case Root(_) => Root(f)
    case Inside(outer, tag, attrs, _) => Inside(outer, tag, attrs, f)
  }

  /** One token more; a closing tag completes the innermost open one. */
  function Grown(p: Partial, t: Token): Partial {
    if IsLeaf(t) then WithForest(p, Leaf(p.forest, t))
    else match t
      case Start(tag, attrs) => Inside(p, tag, attrs, Nothing)
      case StartEnd(tag, attrs) => WithForest(p, SelfClosed(p.forest, tag, attrs))
      case End(_) => if p.Inside? then WithForest(p.outer, Tagged(p.outer.forest, p.tag, p.attrs, p.forest)) else p
  }

  function Built(ts: seq<Token>): Partial {
    if ts == [] then Root(Nothing) else Grown(Built(ts[..|ts| - 1]), ts[|ts| - 1])
  }

  lemma TokensOf(p: Partial, f: Forest, more: seq<Token>)
    requires Flatten(f) == Flatten(p.forest) + more
    ensures Tokens(WithForest(p, f)) == Tokens(p) + more && Tags(WithForest(p, f)) == Tags(p)
  {
    match p
    case Root(_) =>
    case Inside(outer, tag, attrs, g) =>
      assert Tokens(outer) + [Start(tag, attrs)] + (Flatten(g) + more)
          == (Tokens(outer) + [Start(tag, attrs)] + Flatten(g)) + more;
  }

  /** One accepted token keeps the trees in step with the machine. */
  lemma GrownInStep(s: State, p: Partial, t: Token)
    requires WellFormedPartial(p) && Tags(p) == OpenTags(s.open) && Step(s, t).Ok?
    ensures var q := Grown(p, t);
            WellFormedPartial(q) && Tags(q) == OpenTags(Step(s, t).value.open) && Tokens(q) == Tokens(p) + [t]
  {
    hide Encode, HasHref, Url;
    if IsLeaf(t) {
      StepLeaf(s, t);
      TokensOf(p, Leaf(p.forest, t), [t]);
    } else {
      match t
      case Start(tag, attrs) =>
        assert Tokens(Grown(p, t)) == Tokens(p) + [t] + [];
      case StartEnd(tag, attrs) =>
        StepSelfClosed(s, tag, attrs);
        TokensOf(p, SelfClosed(p.forest, tag, attrs), [t]);
      case End(tag) =>
        ClosedInStep(s, p, tag);
    }
  }

  lemma ClosedInStep(s: State, p: Partial, tag: string)
    requires WellFormedPartial(p) && Tags(p) == OpenTags(s.open) && Closed(s, tag).Ok? && tag != "br"
    ensures var q := Grown(p, End(tag));
            WellFormedPartial(q) && Tags(q) == OpenTags(Closed(s, tag).value.open) && Tokens(q) == Tokens(p) + [End(tag)]
  {
    hide Encode, HasHref, Url;
    assert |Tags(p)| == |s.open| > 0;
    assert Tags(p)[|s.open| - 1] == tag;
    var outer := p.outer;
    assert p.tag == tag && Tags(outer) == Tags(p)[..|s.open| - 1];
    var whole := [Start(p.tag, p.attrs)] + Flatten(p.forest) + [End(p.tag)];
    TokensOf(outer, Tagged(outer.forest, p.tag, p.attrs, p.forest), whole);
    assert Tokens(outer) + whole == Tokens(p) + [End(tag)];
    assert OpenTags(s.open[..|s.open| - 1]) == Tags(p)[..|s.open| - 1];
  }

  lemma {:induction false} BuiltInStep(ts: seq<Token>)
    requires Run(EMPTY, ts).Ok?
    ensures var p := Built(ts);
            WellFormedPartial(p) && Tags(p) == OpenTags(Run(EMPTY, ts).value.open) && Tokens(p) == ts
  {
    hide Step, Grown;
    if ts != [] {
      var init, t := ts[..|ts| - 1], ts[|ts| - 1];
      BuiltInStep(init);
      GrownInStep(Run(EMPTY, init).value, Built(init), t);
      assert ts == init + [t];
    }
  }

  ghost predicate IsTreeOf(f: Forest, ts: seq<Token>) {
    WellFormed(f) && Flatten(f) == ts
  }

  /**
   The machine accepts exactly the token streams that are a well-formed tag tree written
   out, and every such tree gives the text and the elements.
   */
  lemma AcceptsExactlyTrees(ts: seq<Token>)
    ensures Convert(ts).Ok? <==> exists f :: IsTreeOf(f, ts)
  {
    hide Flatten, WellFormed, InOrder;
    if Convert(ts).Ok? {
      BuiltInStep(ts);
      var p := Built(ts);
      assert |Tags(p)| == 0;
      assert IsTreeOf(p.forest, ts);
    }
    if f :| IsTreeOf(f, ts) {
      TreeMeans(f, ts);
    }
  }

  lemma TreeMeans(f: Forest, ts: seq<Token>)
    requires IsTreeOf(f, ts)
    ensures Convert(ts) == Ok((TextOf(f), InOrder(ElementsOf(f, 0, false))))
  {
    hide Flatten, WellFormed, InOrder, ElementsOf, Run;
    RunForest(EMPTY, f);
    assert "" + TextOf(f) == TextOf(f);
    assert [] + ElementsOf(f, 0, false) == ElementsOf(f, 0, false);
  }

  // ---------------------------------------------------------------------------
  // Where elements lie
  // ---------------------------------------------------------------------------

  function To(e: Element): nat {
    e.from + e.length
  }

  predicate Within(e: Element, from: nat, to: nat) {
    from <= e.from && To(e) <= to && e.length > 0
  }

  predicate Nested(a: Element, b: Element) {
    b.from <= a.from && To(a) <= To(b)
  }

  predicate Apart(a: Element, b: Element) {
    To(a) <= b.from || To(b) <= a.from
  }

  ghost predicate Laminar(es: seq<Element>) {
    forall a, b | a in es && b in es :: Nested(a, b) || Nested(b, a) || Apart(a, b)
  }

  ghost predicate AllWithin(es: seq<Element>, from: nat, to: nat) {
    forall e | e in es :: Within(e, from, to)
  }

  /** The elements of a forest lie in its text and are nested or apart. */
  lemma {:induction false} ForestGeometry(f: Forest, at: nat, inPre: bool)
    requires WellFormed(f)
    ensures AllWithin(ElementsOf(f, at, inPre), at, at + Utf16Len(TextOf(f))) && Laminar(ElementsOf(f, at, inPre))
  {
    hide Encode, Utf16Len, Url, HasHref, AllWithin, Laminar;
    match f
    case Nothing =>
      NothingWithin(at, at + Utf16Len(""));
    case Leaf(before, t) =>
      ForestGeometry(before, at, inPre);
      LenConcat(TextOf(before), LeafText(t));
      Widen(ElementsOf(before, at, inPre), at, at + Utf16Len(TextOf(before)), at + Utf16Len(TextOf(f)));
    case SelfClosed(before, _, _) =>
      ForestGeometry(before, at, inPre);
    case Tagged(before, tag, attrs, inside) =>
      var from := at + Utf16Len(TextOf(before));
      ForestGeometry(before, at, inPre);
      ForestGeometry(inside, from, tag == "pre");
      TaggedGeometry(f, at, inPre);
  }

  lemma TaggedGeometry(f: Forest, at: nat, inPre: bool)
    requires WellFormed(f) && f.Tagged?
    requires var from := at + Utf16Len(TextOf(f.before));
             && AllWithin(ElementsOf(f.before, at, inPre), at, from) && Laminar(ElementsOf(f.before, at, inPre))
             && AllWithin(ElementsOf(f.inside, from, f.tag == "pre"), from, from + Utf16Len(TextOf(f.inside)))
             && Laminar(ElementsOf(f.inside, from, f.tag == "pre"))
    ensures AllWithin(ElementsOf(f, at, inPre), at, at + Utf16Len(TextOf(f))) && Laminar(ElementsOf(f, at, inPre))
  {
    hide Utf16Len, Url, HasHref, AllWithin, Laminar;
    var from := at + Utf16Len(TextOf(f.before));
    var to := from + Utf16Len(TextOf(f.inside));
    LenConcat(TextOf(f.before), TextOf(f.inside));
    JoinGeometry(ElementsOf(f.before, at, inPre), ElementsOf(f.inside, from, f.tag == "pre"),
                 Own(f.tag, f.attrs, from, Utf16Len(TextOf(f.inside)), inPre), at, from, to);
  }

  lemma NothingWithin(from: nat, to: nat)
    ensures AllWithin([], from, to) && Laminar([])
  {
  }

  lemma Widen(es: seq<Element>, from: nat, to: nat, wider: nat)
    requires AllWithin(es, from, to) && to <= wider
    ensures AllWithin(es, from, wider)
  {
  }

  /** Elements on the left, elements inside a tag, and the tag's own. */
  lemma JoinGeometry(left: seq<Element>, inner: seq<Element>, own: seq<Element>, at: nat, from: nat, to: nat)
    requires at <= from <= to && AllWithin(left, at, from) && AllWithin(inner, from, to)
    requires Laminar(left) && Laminar(inner)
    requires forall e | e in own :: e.from == from && To(e) == to && e.length > 0
    ensures AllWithin(left + inner + own, at, to) && Laminar(left + inner + own)
  {
    hide To;
    forall a, b | a in left + inner + own && b in left + inner + own
      ensures Nested(a, b) || Nested(b, a) || Apart(a, b)
    {
      if a in left && b in left {
      } else if a in inner && b in inner {
      } else if a in left || b in left {
        assert Apart(a, b);
      } else {
        assert Nested(a, b) || Nested(b, a);
      }
    }
  }

  /** A unit offset that falls between two characters of the text. */
  ghost predicate OnBoundary(text: string, offset: nat) {
    exists k: nat :: IsOffsetOf(text, k, offset)
  }

  predicate IsOffsetOf(text: string, k: nat, offset: nat) {
    k <= |text| && Utf16Len(text[..k]) == offset
  }

  ghost predicate Bounded(text: string, e: Element) {
    OnBoundary(text, e.from) && OnBoundary(text, To(e))
  }

  lemma PrefixBoundary(text: string, prefix: string, e: Element)
    requires prefix <= text && Bounded(prefix, e)
    ensures Bounded(text, e)
  {
    hide Utf16Len;
    var i: nat :| IsOffsetOf(prefix, i, e.from);
    var j: nat :| IsOffsetOf(prefix, j, To(e));
    assert prefix[..i] == text[..i] && prefix[..j] == text[..j];
    assert IsOffsetOf(text, i, e.from) && IsOffsetOf(text, j, To(e));
  }

  /** No element begins or ends inside a surrogate pair: offsets fall between characters. */
  lemma {:induction false} ForestBoundaries(f: Forest, lead: string, inPre: bool, e: Element)
    requires WellFormed(f) && e in ElementsOf(f, Utf16Len(lead), inPre)
    ensures Bounded(lead + TextOf(f), e)
    decreases f
  {
    hide Encode, Url, HasHref, Utf16Len, Bounded;
    match f
    case Leaf(before, t) =>
      ForestBoundaries(before, lead, inPre, e);
      PrefixBoundary(lead + TextOf(f), lead + TextOf(before), e);
    case SelfClosed(before, _, _) =>
      ForestBoundaries(before, lead, inPre, e);
    case Tagged(before, tag, attrs, inside) =>
      LenConcat(lead, TextOf(before));
      var front := lead + TextOf(before);
      assert front + TextOf(inside) == lead + TextOf(f);
      if e in ElementsOf(before, Utf16Len(lead), inPre) {
        ForestBoundaries(before, lead, inPre, e);
        PrefixBoundary(lead + TextOf(f), front, e);
      } else if e in ElementsOf(inside, Utf16Len(front), tag == "pre") {
        ForestBoundaries(inside, front, tag == "pre", e);
      } else {
        OwnBounded(front, TextOf(inside), e);
      }
  }

  lemma OwnBounded(front: string, inner: string, e: Element)
    requires e.from == Utf16Len(front) && e.length == Utf16Len(inner)
    ensures Bounded(front + inner, e)
  {
    LenConcat(front, inner);
    var text := front + inner;
    assert text[..|front|] == front && text[..|text|] == text;
    assert IsOffsetOf(text, |front|, e.from) && IsOffsetOf(text, |text|, To(e));
  }

  /**
   Element geometry: for every accepted input the elements lie inside the text in UTF-16
   units, are not empty, begin and end between characters, are ordered by start and then
   longest first, and any two are nested or apart.
   */
  lemma AcceptedGeometry(ts: seq<Token>)
    requires Convert(ts).Ok?
    ensures var (text, elements) := Convert(ts).value;
            && AllWithin(elements, 0, |Encode(text)|) && Laminar(elements) && Sorted(elements)
            && forall e | e in elements :: Bounded(text, e)
  {
    hide Flatten, WellFormed, InOrder, ElementsOf, Bounded, Convert, Within, Nested, Apart, Before;
    assert exists f :: IsTreeOf(f, ts) by { AcceptsExactlyTrees(ts); }
    var f :| IsTreeOf(f, ts);
    TreeMeans(f, ts);
    assert WellFormed(f);
    var es := ElementsOf(f, 0, false);
    InOrderSorted(es);
    InOrderKeeps(es);
    Seqs.SameElements(InOrder(es), es);
    ForestGeometry(f, 0, false);
    forall e | e in es
      ensures Bounded(TextOf(f), e)
    {
      ForestBoundaries(f, "", false, e);
      assert "" + TextOf(f) == TextOf(f);
    }
  }

  // ---------------------------------------------------------------------------
  // The parser as it runs
  // ---------------------------------------------------------------------------

  function Joined(parts: seq<string>): string {
    if parts == [] then "" else Joined(parts[..|parts| - 1]) + parts[|parts| - 1]
  }

  class Parser {
    var parts: seq<string>
    var pos: nat
    var open: seq<Frame>
    var elements: seq<Element>

    /** pos counts the units written; open tags are known ones. */
    predicate Valid()
      reads this
    {
      pos == Utf16Len(Joined(parts)) && forall i | 0 <= i < |open| :: open[i].tag in TAGS && open[i].start <= pos
    }

    function Value(): State
      reads this
    {
      State(Joined(parts), open, elements)
    }

    constructor ()
      ensures Valid() && Value() == EMPTY
    {
      parts, pos, open, elements := [], 0, [], [];
    }

    method Add(text: string)
      requires Valid()
      modifies this
      ensures Valid() && Value() == old(Value()).(text := old(Value()).text + text)
    {
      hide Encode;
      LenConcat(Joined(parts), text);
      assert (parts + [text])[..|parts|] == parts;
      parts := parts + [text];
      pos := pos + Utf16Len(text);
    }

    method HandleStartTag(tag: string, attrs: seq<Attr>) returns (problem: Option<Problem>)
      requires Valid()
      modifies this
      ensures problem.Some? ==> Opened(old(Value()), tag, attrs) == Err(problem.value)
      ensures problem.None? ==> Valid() && Opened(old(Value()), tag, attrs) == Ok(Value())
    {
      hide Encode, HasHref;
      if tag == "br" {
        Add("\n");
        return None;
      }
      if tag !in TAGS {
        return Some(Unsupported(tag));
      }
      var url: Option<string> := None;
      if tag == "a" {
        url := Href(attrs);
        if !HasHref(attrs) {
          return Some(NoHref);
        }
      }
      var skipped := tag == "code" && open != [] && open[|open| - 1].tag == "pre";
      open := open + [Frame(tag, pos, url, skipped)];
      problem := None;
    }

    method HandleEndTag(tag: string) returns (problem: Option<Problem>)
      requires Valid()
      modifies this
      ensures problem.Some? ==> Closed(old(Value()), tag) == Err(problem.value)
      ensures problem.None? ==> Valid() && Closed(old(Value()), tag) == Ok(Value())
    {
      hide Encode;
      if tag == "br" {
        return None;
      }
      if open == [] {
        return Some(StrayClose(tag, None));
      }
      var f := open[|open| - 1];
      if f.tag != tag {
        return Some(StrayClose(tag, Some(f.tag)));
      }
      open := open[..|open| - 1];
      var length := pos - f.start;
      assert elements + [] == elements;
      if !f.skipped && length > 0 {
        elements := elements + [Element(TAGS[tag], f.start, length, f.url)];
      }
      problem := None;
    }

    method HandleStartEndTag(tag: string, attrs: seq<Attr>) returns (problem: Option<Problem>)
      requires Valid()
      modifies this
      ensures problem.Some? ==> Step(old(Value()), StartEnd(tag, attrs)) == Err(problem.value)
      ensures problem.None? ==> Valid() && Step(old(Value()), StartEnd(tag, attrs)) == Ok(Value())
    {
      hide Encode, HasHref;
      if tag == "br" {
        Add("\n");
        return None;
      }
      problem := HandleStartTag(tag, attrs);
      if problem.None? {
        problem := HandleEndTag(tag);
      }
    }

    method Handle(t: Token) returns (problem: Option<Problem>)
      requires Valid()
      modifies this
      ensures problem.Some? ==> Step(old(Value()), t) == Err(problem.value)
      ensures problem.None? ==> Valid() && Step(old(Value()), t) == Ok(Value())
    {
      hide Opened, Closed;
      match t
      case Data(text) =>
        Add(text);
        problem := None;
      case Start(tag, attrs) =>
        problem := HandleStartTag(tag, attrs);
      case End(tag) =>
        problem := HandleEndTag(tag);
      case StartEnd(tag, attrs) =>
        problem := HandleStartEndTag(tag, attrs);
    }
  }

  /** html_to_elements: feed every token, refuse what is still open, order the elements. */
  method HtmlToElements(ts: seq<Token>) returns (r: Result<(string, seq<Element>), Problem>)
    ensures r == Convert(ts)
    ensures r.Ok? <==> exists f :: IsTreeOf(f, ts)
    ensures forall f | IsTreeOf(f, ts) :: r == Ok((TextOf(f), InOrder(ElementsOf(f, 0, false))))
  {
    hide Step, InOrder, ElementsOf, WellFormed, Flatten;
    AcceptsExactlyTrees(ts);
    forall f | IsTreeOf(f, ts)
      ensures Convert(ts) == Ok((TextOf(f), InOrder(ElementsOf(f, 0, false))))
    {
      TreeMeans(f, ts);
    }
    var parser := new Parser();
    for i := 0 to |ts|
      invariant fresh(parser) && parser.Valid() && Run(EMPTY, ts[..i]) == Ok(parser.Value())
    {
      assert ts[..i + 1][..i] == ts[..i];
      var problem := parser.Handle(ts[i]);
      if problem.Some? {
        FailureStays(EMPTY, ts, i + 1);
        return Err(problem.value);
      }
    }
    assert ts[..|ts|] == ts;
    if parser.open != [] {
      return Err(Unclosed(OpenTags(parser.open)));
    }
    r := Ok((Joined(parser.parts), InOrder(parser.elements)));
  }

  /** The first failure decides. */
  lemma {:induction false} FailureStays(s: State, ts: seq<Token>, k: nat)
    requires k <= |ts| && Run(s, ts[..k]).Err?
    ensures Run(s, ts) == Run(s, ts[..k])
  {
    assert ts == ts[..k] + ts[k..];
    RunConcat(s, ts[..k], ts[k..]);
  }
}
