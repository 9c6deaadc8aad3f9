/**
 What comes out of the tags: UTF-16 read back by a decoder of its own, and the result for
 every single tag, nested code block, line break and mistake, written out.
 */
module HtmlResults {
  import opened Wrappers
  import opened HtmlText

  // ---------------------------------------------------------------------------
  // UTF-16
  // ---------------------------------------------------------------------------

  predicate IsHigh(u: nat) {
    0xD800 <= u <= 0xDBFF
  }

  predicate IsLow(u: nat) {
    0xDC00 <= u <= 0xDFFF
  }

  /** A unit on its own; a surrogate without its other half is no character. */
  function Single(u: nat): char {
    if u >= 0x10000 || IsHigh(u) || IsLow(u) then '?' else u as char
  }

  /** The decoder: a high surrogate and the low one after it are one character. */
  function Decode(units: seq<nat>): string {
    if units == [] then ""
    else if |units| > 1 && IsHigh(units[0]) && IsLow(units[1]) then
      var c := 0x10000 + (units[0] - 0xD800) * 0x400 + (units[1] - 0xDC00);
      [c as char] + Decode(units[2..])
    else [Single(units[0])] + Decode(units[1..])
  }

  /** The places of the characters outside the basic plane. */
  function Astral(text: string): set<nat> {
    set i: nat | i < |text| && text[i] as int >= 0x10000
  }

  lemma UnitsDecode(c: char, more: seq<nat>)
    ensures Decode(Units(c) + more) == [c] + Decode(more)
    ensures forall u | u in Units(c) :: u < 0x10000
  {
    var u := c as int;
    if u < 0x10000 {
      assert (Units(c) + more)[1..] == more;
    } else {
      var v := u - 0x10000;
      assert v == (v / 0x400) * 0x400 + v % 0x400 && v / 0x400 < 0x400;
      assert (Units(c) + more)[2..] == more;
    }
  }

  lemma {:induction false} EncodeFirst(text: string)
    requires text != ""
    ensures Encode(text) == Units(text[0]) + Encode(text[1..])
  {
    hide Units;
    var n := |text| - 1;
    if n > 0 {
      EncodeFirst(text[..n]);
      assert text[..n][1..] == text[1..][..n - 1];
    } else {
      assert text[..0] == "" && text[1..] == "";
    }
  }

  /** Encoding is UTF-16: units of 16 bits, from which the decoder reads the text back. */
  lemma {:induction false} DecodesBack(text: string)
    ensures Decode(Encode(text)) == text
    ensures forall u | u in Encode(text) :: u < 0x10000
  {
    hide Encode, Decode, Units;
    if text == "" {
      NothingEncoded();
    } else {
      EncodeFirst(text);
      DecodesBack(text[1..]);
      UnitsDecode(text[0], Encode(text[1..]));
      assert [text[0]] + text[1..] == text;
    }
  }

  lemma NothingEncoded()
    ensures Encode("") == [] && Decode([]) == ""
  {
  }

  /** Two texts with the same units are the same. */
  lemma EncodesOnce(a: string, b: string)
    requires Encode(a) == Encode(b)
    ensures a == b
  {
    DecodesBack(a);
    DecodesBack(b);
  }

  /** A length in units: one for each character, and one more for each outside the basic plane. */
  lemma {:induction false} LengthInUnits(text: string)
    ensures Utf16Len(text) == |text| + |Astral(text)|
  {
    if text == "" {
      assert Astral(text) == {};
    } else {
      var n := |text| - 1;
      LengthInUnits(text[..n]);
      assert Astral(text) == Astral(text[..n]) + if text[n] as int >= 0x10000 then {n} else {};
    }
  }

  /** e covers the characters from the a-th on up to the b-th, counted in units. */
  ghost predicate Spans(text: string, e: Element, a: nat, b: nat) {
    && a < b <= |text|
    && e.from == a + |Astral(text[..a])| && e.from + e.length == b + |Astral(text[..b])|
  }

  ghost predicate SpansSome(text: string, e: Element) {
    exists a: nat, b: nat :: Spans(text, e, a, b)
  }

  /**
   The elements of every accepted input, in plain numbers: each covers some characters of the
   text; they come by start, and of one start the longer first; and of two the later one begins
   behind the earlier one or ends within it.
   */
  lemma ElementsLie(ts: seq<Token>)
    requires Convert(ts).Ok?
    ensures var (text, es) := Convert(ts).value;
            && (forall i | 0 <= i < |es| :: SpansSome(text, es[i]))
            && (forall i, j | 0 <= i < j < |es| ::
                  && (es[i].from < es[j].from || (es[i].from == es[j].from && es[i].length >= es[j].length))
                  && (es[i].from + es[i].length <= es[j].from
                      || es[j].from + es[j].length <= es[i].from + es[i].length))
  {
    hide Convert, Encode, Bounded, SpansSome;
    AcceptedGeometry(ts);
    var (text, es) := Convert(ts).value;
    forall i | 0 <= i < |es|
      ensures SpansSome(text, es[i])
    {
      assert es[i] in es && Within(es[i], 0, |Encode(text)|);
      BoundedSpans(text, es[i]);
    }
    forall i, j | 0 <= i < j < |es|
      ensures !Before(es[j], es[i])
      ensures Nested(es[i], es[j]) || Nested(es[j], es[i]) || Apart(es[i], es[j])
      ensures es[i].length > 0 && es[j].length > 0
    {
      assert Within(es[i], 0, |Encode(text)|) && Within(es[j], 0, |Encode(text)|);
    }
  }

  lemma BoundedSpans(text: string, e: Element)
    requires Bounded(text, e) && e.length > 0
    ensures SpansSome(text, e)
  {
    hide Utf16Len, Astral;
    var a: nat :| IsOffsetOf(text, a, e.from);
    var b: nat :| IsOffsetOf(text, b, To(e));
    LengthInUnits(text[..a]);
    LengthInUnits(text[..b]);
    if b <= a {
      assert text[..a] == text[..b] + text[b..a];
      LenConcat(text[..b], text[b..a]);
    }
    assert Spans(text, e, a, b);
  }

  // ---------------------------------------------------------------------------
  // One tag
  // ---------------------------------------------------------------------------

  /** The tags of a style. */
  function TagsOf(style: Style): set<string> {
    match style
    case Strong => {"b", "strong"}
    case Emphasized => {"i", "em"}
    case Underline => {"u", "ins"}
    case Strikethrough => {"s", "strike", "del"}
    case Monospaced => {"code"}
    case Code => {"pre"}
    case Link => {"a"}
    case Quote => {"blockquote"}
  }

  /** A tag has the style it is listed under, and no other tag is known. */
  lemma TagsAre(tag: string)
    ensures tag in TAGS <==> exists style :: tag in TagsOf(style)
    ensures forall style :: tag in TAGS && TAGS[tag] == style <==> tag in TagsOf(style)
  {
    if tag in TAGS {
      assert tag in TagsOf(TAGS[tag]);
    }
  }

  /** The address of a link: the value of the last attribute named href, if it is not empty. */
  ghost predicate LastHref(attrs: seq<Attr>, url: string) {
    && url != ""
    && exists k :: 0 <= k < |attrs| && attrs[k] == Attr("href", Some(url))
                   && forall j | k < j < |attrs| :: attrs[j].name != "href"
  }

  lemma {:induction false} HrefIs(attrs: seq<Attr>, url: string)
    ensures HasHref(attrs) && Href(attrs) == Some(url) <==> LastHref(attrs, url)
  {
    if attrs != [] {
      var n := |attrs| - 1;
      HrefIs(attrs[..n], url);
      if attrs[n].name == "href" {
        assert Href(attrs) == attrs[n].value;
      } else {
        LastHrefBefore(attrs, url);
      }
    }
  }

  /** What comes behind without being an address changes nothing. */
  lemma LastHrefBefore(attrs: seq<Attr>, url: string)
    requires attrs != [] && attrs[|attrs| - 1].name != "href"
    ensures LastHref(attrs, url) <==> LastHref(attrs[..|attrs| - 1], url)
  {
    var init := attrs[..|attrs| - 1];
    if LastHref(attrs, url) {
      var k :| 0 <= k < |attrs| && attrs[k] == Attr("href", Some(url))
               && forall j | k < j < |attrs| :: attrs[j].name != "href";
      assert init[k] == attrs[k];
    }
    if LastHref(init, url) {
      var k :| 0 <= k < |init| && init[k] == Attr("href", Some(url))
               && forall j | k < j < |init| :: init[j].name != "href";
      assert attrs[k] == Attr("href", Some(url));
      assert forall j | k < j < |attrs| :: j < |init| ==> init[j] == attrs[j];
    }
  }

  lemma Run3(a: Token, b: Token, c: Token)
    ensures Run(EMPTY, []) == Ok(EMPTY)
    ensures Run(EMPTY, [a]) == Step(EMPTY, a)
    ensures Run(EMPTY, [a, b])
            == if Step(EMPTY, a).Err? then Step(EMPTY, a) else Step(Step(EMPTY, a).value, b)
    ensures Run(EMPTY, [a, b, c])
            == if Run(EMPTY, [a, b]).Err? then Run(EMPTY, [a, b]) else Step(Run(EMPTY, [a, b]).value, c)
  {
    hide Step;
    RunNothing(EMPTY);
    assert [a, b, c][..2] == [a, b] && [a, b][..1] == [a] && [a][..0] == [];
  }

  lemma Run4(a: Token, b: Token, c: Token, d: Token)
    ensures Run(EMPTY, [a, b, c, d])
            == if Run(EMPTY, [a, b, c]).Err? then Run(EMPTY, [a, b, c]) else Step(Run(EMPTY, [a, b, c]).value, d)
  {
    hide Step;
    assert [a, b, c, d][..3] == [a, b, c];
  }

  /** What a tag around a text comes to, behind a text. */
  ghost predicate IsTagged(r: Result<(string, seq<Element>), Problem>, lead: string, tag: string, attrs: seq<Attr>,
                           text: string)
  {
    if forall style :: tag !in TagsOf(style) then r == Err(Unsupported(tag))
    else if tag == "a" && forall url :: !LastHref(attrs, url) then r == Err(NoHref)
    else
      && r.Ok? && r.value.0 == lead + text
      && (text == "" ==> r.value.1 == [])
      && (text != "" ==>
            && |r.value.1| == 1
            && var e := r.value.1[0];
               && tag in TagsOf(e.style)
               && e.from == |lead| + |Astral(lead)| && e.length == |text| + |Astral(text)|
               && (if tag == "a" then e.url.Some? && LastHref(attrs, e.url.value) else e.url.None?))
  }

  /**
   One tag around a text, behind another text, for every tag, attribute list and text: an
   unknown tag and a link without an address are refused; else the element has the tag's
   style, begins after the units of the first text, counts those of the second, and has an
   address exactly if it is a link.
   */
  lemma OneTag(lead: string, tag: string, attrs: seq<Attr>, text: string)
    requires tag != "br"
    ensures IsTagged(Convert([Data(lead), Start(tag, attrs), Data(text), End(tag)]), lead, tag, attrs, text)
  {
    hide Encode, Utf16Len, Href, Run, Astral, LastHref, Opened, Closed, Step, InOrder;
    TagsAre(tag);
    HrefOrNot(attrs);
    if tag !in TAGS || (tag == "a" && !HasHref(attrs)) {
      TagRefused(lead, tag, attrs, text);
    } else {
      TagRuns(lead, tag, attrs, text);
      LengthInUnits(lead);
      LengthInUnits(text);
      OneInOrder();
      assert tag in TagsOf(TAGS[tag]);
    }
  }

  lemma TagRefused(lead: string, tag: string, attrs: seq<Attr>, text: string)
    requires tag != "br" && (tag !in TAGS || (tag == "a" && !HasHref(attrs)))
    ensures Convert([Data(lead), Start(tag, attrs), Data(text), End(tag)])
            == Err(if tag !in TAGS then Unsupported(tag) else NoHref)
  {
    hide Encode, Utf16Len, HasHref, Run;
    Run3(Data(lead), Start(tag, attrs), Data(text));
    Run4(Data(lead), Start(tag, attrs), Data(text), End(tag));
  }

  lemma TagRuns(lead: string, tag: string, attrs: seq<Attr>, text: string)
    requires tag in TAGS && (tag == "a" ==> HasHref(attrs))
    ensures Run(EMPTY, [Data(lead), Start(tag, attrs), Data(text), End(tag)])
            == Ok(State(lead + text, [], if text == "" then []
                                         else [Element(TAGS[tag], Utf16Len(lead), Utf16Len(text), Url(tag, attrs))]))
  {
    hide Encode, Utf16Len, HasHref, Run, Href;
    var f := Tagged(Leaf(Nothing, Data(lead)), tag, attrs, Leaf(Nothing, Data(text)));
    LeafIs(lead);
    LeafIs(text);
    assert WellFormed(f);
    RunForest(EMPTY, f);
    assert Flatten(f) == [Data(lead), Start(tag, attrs), Data(text), End(tag)];
    assert TextOf(f) == lead + text && "" + TextOf(f) == lead + text;
    NothingMeasured();
    SomeUnits(text);
    assert ElementsOf(f, 0, false) == Own(tag, attrs, Utf16Len(lead), Utf16Len(text), false);
    assert [] + ElementsOf(f, 0, false) == ElementsOf(f, 0, false);
  }

  lemma LeafIs(text: string)
    ensures var f := Leaf(Nothing, Data(text));
            && WellFormed(f) && Flatten(f) == [Data(text)] && TextOf(f) == text
            && forall at: nat, inPre: bool :: ElementsOf(f, at, inPre) == []
  {
    assert "" + text == text && [] + [Data(text)] == [Data(text)];
    assert WellFormed(Nothing) && TextOf(Nothing) == "" && Flatten(Nothing) == [];
    forall at: nat, inPre: bool
      ensures ElementsOf(Leaf(Nothing, Data(text)), at, inPre) == []
    {
      assert ElementsOf(Nothing, at, inPre) == [];
    }
  }

  lemma SomeUnits(text: string)
    ensures Utf16Len(text) > 0 <==> text != ""
  {
    LengthInUnits(text);
  }

  lemma OneInOrder()
    ensures InOrder([]) == []
    ensures forall e: Element :: InOrder([e]) == [e]
  {
    forall e: Element
      ensures InOrder([e]) == [e]
    {
      assert [e][..0] == [];
      assert InOrder([]) == [];
      assert Placed(e, []) == [e];
    }
  }

  lemma HrefOrNot(attrs: seq<Attr>)
    ensures HasHref(attrs) <==> exists url :: LastHref(attrs, url)
    ensures HasHref(attrs) ==> Href(attrs).Some? && LastHref(attrs, Href(attrs).value)
  {
    hide LastHref, Href;
    if HasHref(attrs) {
      HrefIs(attrs, Href(attrs).value);
    }
    if url :| LastHref(attrs, url) {
      HrefIs(attrs, url);
    }
  }

  // ---------------------------------------------------------------------------
  // Code in a code block, line breaks
  // ---------------------------------------------------------------------------

  /** The code of a code block is part of it: one element, not two. */
  lemma CodeBlock(outer: seq<Attr>, inner: seq<Attr>, text: string)
    requires text != ""
    ensures Convert([Start("pre", outer), Start("code", inner), Data(text), End("code"), End("pre")])
            == Ok((text, [Element(Code, 0, |text| + |Astral(text)|, None)]))
  {
    hide Encode, Utf16Len, Run, Astral, InOrder;
    TwoTagsRun("pre", outer, "code", inner, text);
    LengthInUnits(text);
    OneInOrder();
    assert [] + [Element(Code, 0, Utf16Len(text), None)] == [Element(Code, 0, Utf16Len(text), None)];
  }

  /** Two tags around one text. */
  lemma TwoTagsRun(tag: string, outer: seq<Attr>, inside: string, inner: seq<Attr>, text: string)
    requires tag in TAGS && inside in TAGS && tag != "a" && inside != "a" && text != ""
    ensures var n := Utf16Len(text);
            Run(EMPTY, [Start(tag, outer), Start(inside, inner), Data(text), End(inside), End(tag)])
            == Ok(State(text, [], (if tag == "pre" && inside == "code" then [] else [Element(TAGS[inside], 0, n, None)])
                                  + [Element(TAGS[tag], 0, n, None)]))
  {
    hide Encode, Utf16Len, HasHref, Run, Href;
    var ts := [Start(tag, outer), Start(inside, inner), Data(text), End(inside), End(tag)];
    var g := Tagged(Nothing, inside, inner, Leaf(Nothing, Data(text)));
    var f := Tagged(Nothing, tag, outer, g);
    LeafIs(text);
    assert WellFormed(Nothing) && WellFormed(g);
    assert WellFormed(f);
    RunForest(EMPTY, f);
    assert Flatten(g) == [Start(inside, inner), Data(text), End(inside)];
    assert Flatten(f) == ts;
    NothingMeasured();
    SomeUnits(text);
    assert TextOf(Nothing) == "" && "" + text == text;
    assert TextOf(g) == text;
    assert TextOf(f) == text && "" + TextOf(f) == text;
    assert forall b: bool :: ElementsOf(Nothing, 0, b) == [];
    var own := Own(inside, inner, 0, Utf16Len(text), tag == "pre");
    assert ElementsOf(g, 0, tag == "pre") == own;
    assert [] + ElementsOf(f, 0, false) == own + Own(tag, outer, 0, Utf16Len(text), false);
  }

  lemma NothingMeasured()
    ensures Utf16Len("") == 0
  {
  }

  /** Code in any other tag, or a code block in code, is an element of its own, the inner one first. */
  lemma NestedCode(tag: string, outer: seq<Attr>, text: string)
    requires tag in TAGS && tag != "a" && tag != "pre" && text != ""
    ensures var n := |text| + |Astral(text)|;
            && Convert([Start(tag, outer), Start("code", []), Data(text), End("code"), End(tag)])
               == Ok((text, [Element(Monospaced, 0, n, None), Element(TAGS[tag], 0, n, None)]))
            && Convert([Start("code", []), Start("pre", outer), Data(text), End("pre"), End("code")])
               == Ok((text, [Element(Code, 0, n, None), Element(Monospaced, 0, n, None)]))
  {
    TwoTags(tag, outer, "code", [], text);
    TwoTags("code", [], "pre", outer, text);
  }

  /** Two tags around one text, of which the inner one is not the code of a code block. */
  lemma TwoTags(tag: string, outer: seq<Attr>, inside: string, inner: seq<Attr>, text: string)
    requires tag in TAGS && inside in TAGS && tag != "a" && inside != "a" && text != ""
    requires !(tag == "pre" && inside == "code")
    ensures var n := |text| + |Astral(text)|;
            Convert([Start(tag, outer), Start(inside, inner), Data(text), End(inside), End(tag)])
            == Ok((text, [Element(TAGS[inside], 0, n, None), Element(TAGS[tag], 0, n, None)]))
  {
    hide Encode, Utf16Len, Run, Astral, InOrder;
    TwoTagsRun(tag, outer, inside, inner, text);
    LengthInUnits(text);
    var a, b := Element(TAGS[inside], 0, Utf16Len(text), None), Element(TAGS[tag], 0, Utf16Len(text), None);
    assert [a] + [b] == [a, b];
    TwoInOrder(a, b);
  }

  lemma TwoInOrder(a: Element, b: Element)
    requires !Before(b, a)
    ensures InOrder([a, b]) == [a, b]
  {
    OneInOrder();
    assert [a, b][..1] == [a];
  }

  /** A line break is a newline in any of its opening forms, and nothing when closed. */
  lemma Breaks(attrs: seq<Attr>)
    ensures Convert([Start("br", attrs)]) == Ok(("\n", []))
    ensures Convert([StartEnd("br", attrs)]) == Ok(("\n", []))
    ensures Convert([End("br")]) == Ok(("", []))
  {
    hide Run;
    Run3(Start("br", attrs), End("br"), End("br"));
    Run3(StartEnd("br", attrs), End("br"), End("br"));
    Run3(End("br"), End("br"), End("br"));
    assert "" + "\n" == "\n";
    OneInOrder();
  }

  // ---------------------------------------------------------------------------
  // Mistakes
  // ---------------------------------------------------------------------------

  /** A tag closed without being open, by another name, or not at all; what was expected is told. */
  lemma Mistakes(tag: string, other: string, attrs: seq<Attr>)
    requires tag != "br" && other != "br" && tag != other && tag in TAGS && tag != "a"
    ensures Convert([End(other)]) == Err(StrayClose(other, None))
    ensures Convert([Start(tag, attrs), End(other)]) == Err(StrayClose(other, Some(tag)))
    ensures Convert([Start(tag, attrs)]) == Err(Unclosed([tag]))
  {
    hide Run, Utf16Len, Href;
    Run3(End(other), End(other), End(other));
    Run3(Start(tag, attrs), End(other), End(other));
    var open := Run(EMPTY, [Start(tag, attrs)]).value.open;
    assert |open| == 1 && open[0].tag == tag;
    assert OpenTags(open) == [tag];
  }
}
