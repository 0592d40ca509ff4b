/**
 * The rich-text editor component: the `fontSize` and `fontFamily` attributes
 * its two extensions add to the `textStyle` mark (their `renderHTML` and
 * `parseHTML` rules and null defaults), the effect that pushes a new host value
 * into the editor, the update callback that reports the editor's HTML back to
 * the host, and the toolbar's option tables.
 *
 * The editor's document is the serialized HTML string `getHTML()` returns;
 * what the editor library does to a string it is given (`setContent`, then
 * `getHTML`) is the parameter `normalize`.
 */
module Editor {
  import opened Options

  /** What a `renderHTML` rule returns: the empty fragment `{}`, or `{ style: ... }`. */
  datatype HtmlAttrs = NoAttrs | StyleAttr(style: string)

  const FontSizeProperty := "font-size"
  const FontFamilyProperty := "font-family"

  /** Both attributes default to `null`. */
  const FontSizeDefault: Option<string> := None
  const FontFamilyDefault: Option<string> := None

  /** Left at its `null` default, neither attribute renders a style. */
  lemma DefaultsRenderNothing()
    ensures RenderFontSize(FontSizeDefault) == NoAttrs
    ensures RenderFontFamily(FontFamilyDefault) == NoAttrs
  {
  }

  /** `prop + ": " + value` */
  function Declaration(prop: string, value: string): string {
    prop + ": " + value
  }

  /**
   * The shared shape of both `renderHTML` rules: a falsy attribute renders to
   * nothing, any other value to one style declaration whose value reads back
   * as the attribute.
   */
  function RenderStyle(prop: string, value: Option<string>): (r: HtmlAttrs)
    ensures r == NoAttrs <==> !Truthy(value)
    ensures r.StyleAttr? ==> StyleValue(prop, r) == value.value
  {
    if !Truthy(value) then NoAttrs
    else
      var r := StyleAttr(Declaration(prop, value.value));
      assert r.style[..|prop| + 2] == prop + ": ";
      r
  }

  /** `renderHTML` of `fontSize`. */
  function RenderFontSize(fontSize: Option<string>): (r: HtmlAttrs)
    ensures r == NoAttrs <==> !Truthy(fontSize)
    ensures r.StyleAttr? ==> r.style == Declaration(FontSizeProperty, fontSize.value)
  {
    RenderStyle(FontSizeProperty, fontSize)
  }

  /** `renderHTML` of `fontFamily`. */
  function RenderFontFamily(fontFamily: Option<string>): (r: HtmlAttrs)
    ensures r == NoAttrs <==> !Truthy(fontFamily)
    ensures r.StyleAttr? ==> r.style == Declaration(FontFamilyProperty, fontFamily.value)
  {
    RenderStyle(FontFamilyProperty, fontFamily)
  }

  /**
   * `element.style[prop]` for an element carrying the rendered attributes: the
   * text after `prop + ": "` when the style is that one declaration, the empty
   * string otherwise. The browser's CSS normalisation is not part of this model.
   */
  function StyleValue(prop: string, attrs: HtmlAttrs): string {
    if attrs.StyleAttr? && |prop| + 2 <= |attrs.style| && attrs.style[..|prop| + 2] == prop + ": "
    then attrs.style[|prop| + 2..]
    else ""
  }

  /**
   * `parseHTML` of `fontSize`: the extracted style value, unchanged. Rendered
   * again, a non-empty value gives back its own `font-size` declaration, and
   * the empty string (no `font-size` on the element) renders nothing.
   */
  function ParseFontSize(extracted: string): (r: Option<string>)
    ensures extracted != "" ==> RenderFontSize(r) == StyleAttr(Declaration(FontSizeProperty, extracted))
    ensures extracted == "" ==> RenderFontSize(r) == NoAttrs
  {
    Some(extracted)
  }

  predicate IsQuote(c: char) {
    c == '\'' || c == '"'
  }

  predicate QuoteFree(s: string) {
    forall i :: 0 <= i < |s| ==> !IsQuote(s[i])
  }

  /** `s.replace(/['"]/g, "")`: every single and double quote removed, the rest kept in order. */
  function StripQuotes(s: string): (r: string)
    ensures |r| <= |s|
  {
    if s == [] then []
    else
      var rest := StripQuotes(s[1..]);
      if IsQuote(s[0]) then rest else [s[0]] + rest
  }

  /** No quote survives. */
  lemma {:induction false} StripQuotesQuoteFree(s: string)
    ensures QuoteFree(StripQuotes(s))
  {
    if s != [] {
      StripQuotesQuoteFree(s[1..]);
    }
  }

  /** Exactly the characters of `s` that are not quotes survive. */
  lemma {:induction false} StripQuotesKeeps(s: string, c: char)
    ensures c in StripQuotes(s) <==> c in s && !IsQuote(c)
  {
    if s != [] {
      StripQuotesKeeps(s[1..], c);
      assert c in s <==> c == s[0] || c in s[1..];
    }
  }

  /** `parseHTML` of `fontFamily`: the extracted value with its quotes removed; `undefined` stays `undefined`. */
  function ParseFontFamily(extracted: Option<string>): (r: Option<string>)
    ensures r.Some? <==> extracted.Some?
    ensures r.Some? ==> QuoteFree(r.value)
  {
    if extracted.Some? then (StripQuotesQuoteFree(extracted.value); Some(StripQuotes(extracted.value))) else None
  }

  /** A quote-free value comes back unchanged. */
  lemma {:induction false} StripQuotesOfQuoteFree(s: string)
    requires QuoteFree(s)
    ensures StripQuotes(s) == s
  {
    if s != [] {
      assert QuoteFree(s[1..]) by {
        forall i | 0 <= i < |s[1..]| ensures !IsQuote(s[1..][i]) {
          assert s[1..][i] == s[i + 1];
        }
      }
      StripQuotesOfQuoteFree(s[1..]);
      assert [s[0]] + s[1..] == s;
    }
  }

  /** Stripping twice is stripping once. */
  lemma StripQuotesIdempotent(s: string)
    ensures StripQuotes(StripQuotes(s)) == StripQuotes(s)
  {
    StripQuotesQuoteFree(s);
    StripQuotesOfQuoteFree(StripQuotes(s));
  }

  /** Stripping works piecewise over a concatenation. */
  lemma {:induction false} StripQuotesAppend(a: string, b: string)
    ensures StripQuotes(a + b) == StripQuotes(a) + StripQuotes(b)
  {
    if a == [] {
      assert a + b == b;
    } else {
      var ab := a + b;
      assert ab[0] == a[0];
      assert ab[1..] == a[1..] + b;
      StripQuotesAppend(a[1..], b);
      if IsQuote(a[0]) {
        calc {
          StripQuotes(ab);
          StripQuotes(a[1..] + b);
          StripQuotes(a[1..]) + StripQuotes(b);
        }
      } else {
        calc {
          StripQuotes(ab);
          [a[0]] + StripQuotes(a[1..] + b);
          [a[0]] + (StripQuotes(a[1..]) + StripQuotes(b));
          ([a[0]] + StripQuotes(a[1..])) + StripQuotes(b);
        }
      }
    }
  }

  /** A family name wrapped in double quotes parses to the bare name. */
  lemma QuotedFamily(name: string)
    requires QuoteFree(name)
    ensures ParseFontFamily(Some("\"" + name + "\"")) == Some(name)
  {
    var quote := "\"";
    assert StripQuotes(quote) == [];
    StripQuotesAppend(quote + name, quote);
    StripQuotesAppend(quote, name);
    StripQuotesOfQuoteFree(name);
    assert StripQuotes(quote + name + quote) == name;
  }

  /**
   * A set font size survives rendering and parsing back. This rests on
   * `StyleValue` reading the declaration back word for word; a browser drops
   * or rewrites a value that is not valid CSS (for "abc" it reads back ""),
   * so this is a property of the model's read-back, not a browser guarantee.
   */
  lemma FontSizeRoundTrip(fontSize: Option<string>)
    requires Truthy(fontSize)
    ensures ParseFontSize(StyleValue(FontSizeProperty, RenderFontSize(fontSize))) == fontSize
  {
  }

  /**
   * Rendering what was parsed from a rendering gives the same rendering, for
   * every value: a falsy size reads back as "", which renders to nothing again.
   */
  lemma FontSizeRenderStable(fontSize: Option<string>)
    ensures RenderFontSize(ParseFontSize(StyleValue(FontSizeProperty, RenderFontSize(fontSize)))) == RenderFontSize(fontSize)
  {
  }

  /** A set font family survives rendering and parsing back, minus its quotes. */
  lemma FontFamilyRoundTrip(fontFamily: Option<string>)
    requires Truthy(fontFamily)
    ensures ParseFontFamily(Some(StyleValue(FontFamilyProperty, RenderFontFamily(fontFamily))))
         == Some(StripQuotes(fontFamily.value))
    ensures QuoteFree(fontFamily.value) ==>
      ParseFontFamily(Some(StyleValue(FontFamilyProperty, RenderFontFamily(fontFamily)))) == fontFamily
  {
    if QuoteFree(fontFamily.value) {
      StripQuotesOfQuoteFree(fontFamily.value);
    }
  }

  /**
   * After one render-and-parse a family is quote-free, so a second one leaves
   * it alone.
   */
  lemma FontFamilySettles(fontFamily: Option<string>)
    requires Truthy(fontFamily)
    ensures var once := ParseFontFamily(Some(StyleValue(FontFamilyProperty, RenderFontFamily(fontFamily))));
      !Truthy(once) || ParseFontFamily(Some(StyleValue(FontFamilyProperty, RenderFontFamily(once)))) == once
  {
    var once := ParseFontFamily(Some(StyleValue(FontFamilyProperty, RenderFontFamily(fontFamily))));
    if Truthy(once) {
      FontFamilyRoundTrip(once);
    }
  }

  /** A family made only of quotes renders, but parses back to a value that renders to nothing. */
  lemma OnlyQuotesVanish()
    ensures RenderFontFamily(Some("\"\"")).StyleAttr?
    ensures ParseFontFamily(Some(StyleValue(FontFamilyProperty, RenderFontFamily(Some("\"\""))))) == Some("")
    ensures RenderFontFamily(Some("")) == NoAttrs
  {
    FontFamilyRoundTrip(Some("\"\""));
  }

  /** The effect's guard: the editor exists, the host value is truthy and differs from the editor's HTML. */
  predicate ShouldReplace(editorExists: bool, value: string, current: string) {
    editorExists && value != "" && current != value
  }

  /** Feeding the editor's own HTML back never replaces it, and neither does an empty value. */
  lemma GuardIgnoresEchoAndEmpty(editorExists: bool, current: string)
    ensures !ShouldReplace(editorExists, current, current)
    ensures !ShouldReplace(editorExists, "", current)
  {
  }

  /** The mounted editor: its document, seen as its serialized HTML. */
  class TiptapEditor {
    /** `getHTML()` after `setContent(value)`: the library's parse-and-serialize. */
    const normalize: string -> string
    var html: string

    /** `useEditor({ content: value })` */
    constructor (normalize: string -> string, value: string)
      ensures this.normalize == normalize
      ensures html == normalize(value)
    {
      this.normalize := normalize;
      html := normalize(value);
    }

    /**
     * The effect run when the host's value changes: replaces the document when
     * the guard holds (without reporting an update), and otherwise leaves it.
     */
    method SyncFromHost(value: string) returns (replaced: bool)
      modifies this
      ensures replaced <==> ShouldReplace(true, value, old(html))
      ensures replaced ==> html == normalize(value)
      ensures !replaced ==> html == old(html)
    {
      replaced := ShouldReplace(true, value, html);
      if replaced {
        html := normalize(value);
      }
    }

    /** A user edit: the document becomes `edited`, and `onUpdate` hands exactly that HTML to `onChange`. */
    method UserEdit(edited: string) returns (emitted: string)
      modifies this
      ensures html == edited
      ensures emitted == html
    {
      html := edited;
      emitted := html;
    }
  }

  /** What a heading-menu entry does when clicked. */
  datatype HeadingAction = SetParagraph | ToggleHeading(level: int)

  datatype HeadingItem = HeadingItem(key: string, caption: string, action: HeadingAction)

  const HeadingItems: seq<HeadingItem> := [
    HeadingItem("p", "Normal Text", SetParagraph),
    HeadingItem("h1", "Heading 1", ToggleHeading(1)),
    HeadingItem("h2", "Heading 2", ToggleHeading(2)),
    HeadingItem("h3", "Heading 3", ToggleHeading(3)),
    HeadingItem("h4", "Heading 4", ToggleHeading(4))
  ]

  /** The heading menu: a paragraph entry, then one entry per level 1 to 4, with distinct keys. */
  lemma HeadingMenu()
    ensures |HeadingItems| == 5
    ensures HeadingItems[0].action == SetParagraph
    ensures forall i :: 1 <= i < |HeadingItems| ==> HeadingItems[i].action == ToggleHeading(i)
    ensures forall i, j :: 0 <= i < j < |HeadingItems| ==> HeadingItems[i].key != HeadingItems[j].key
  {
  }

  /** An entry of a font select: the attribute value it sets and the caption it shows. */
  datatype SelectOption = SelectOption(value: string, caption: string)

  const FontSizes: seq<SelectOption> := [
    SelectOption("12px", "Small"),
    SelectOption("16px", "Normal"),
    SelectOption("20px", "Large"),
    SelectOption("24px", "Huge")
  ]

  const FontFamilies: seq<SelectOption> := [
    SelectOption("Arial, sans-serif", "Arial"),
    SelectOption("Calibri, sans-serif", "Calibri"),
    SelectOption("Georgia, serif", "Georgia"),
    SelectOption("Times New Roman, serif", "Times New Roman"),
    SelectOption("Verdana, sans-serif", "Verdana")
  ]

  /** Every font size offered renders and parses back to itself. */
  lemma FontSizeOptions()
    ensures |FontSizes| == 4
    ensures forall i :: 0 <= i < |FontSizes| ==>
      && RenderFontSize(Some(FontSizes[i].value)).StyleAttr?
      && ParseFontSize(StyleValue(FontSizeProperty, RenderFontSize(Some(FontSizes[i].value)))) == Some(FontSizes[i].value)
  {
    forall i | 0 <= i < |FontSizes| {
      FontSizeRoundTrip(Some(FontSizes[i].value));
    }
  }

  /** `s` is quote-free, checked one position at a time. */
  lemma QuoteFreeLiteral(s: string)
    requires '\'' !in s && '"' !in s
    ensures QuoteFree(s)
  {
    forall i | 0 <= i < |s| ensures !IsQuote(s[i]) {
      assert s[i] in s;
    }
  }

  lemma ArialQuoteFree()
    ensures QuoteFree("Arial, sans-serif")
  {
    QuoteFreeLiteral("Arial, sans-serif");
  }

  lemma CalibriQuoteFree()
    ensures QuoteFree("Calibri, sans-serif")
  {
    QuoteFreeLiteral("Calibri, sans-serif");
  }

  lemma GeorgiaQuoteFree()
    ensures QuoteFree("Georgia, serif")
  {
    QuoteFreeLiteral("Georgia, serif");
  }

  lemma TimesNewRomanQuoteFree()
    ensures QuoteFree("Times New Roman, serif")
  {
    QuoteFreeLiteral("Times New Roman, serif");
  }

  lemma VerdanaQuoteFree()
    ensures QuoteFree("Verdana, sans-serif")
  {
    QuoteFreeLiteral("Verdana, sans-serif");
  }

  /** The family at position `i` of the table is non-empty and quote-free. */
  lemma FontFamilyQuoteFree(i: int)
    requires 0 <= i < |FontFamilies|
    ensures FontFamilies[i].value != "" && QuoteFree(FontFamilies[i].value)
  {
    if i == 0 {
      ArialQuoteFree();
    } else if i == 1 {
      CalibriQuoteFree();
    } else if i == 2 {
      GeorgiaQuoteFree();
    } else if i == 3 {
      TimesNewRomanQuoteFree();
    } else {
      VerdanaQuoteFree();
    }
  }

  /** Each family offered therefore renders and parses back to itself. */
  lemma FontFamilyOptions()
    ensures |FontFamilies| == 5
    ensures forall i :: 0 <= i < |FontFamilies| ==>
      && RenderFontFamily(Some(FontFamilies[i].value)).StyleAttr?
      && ParseFontFamily(Some(StyleValue(FontFamilyProperty, RenderFontFamily(Some(FontFamilies[i].value)))))
         == Some(FontFamilies[i].value)
  {
    forall i | 0 <= i < |FontFamilies|
      ensures ParseFontFamily(Some(StyleValue(FontFamilyProperty, RenderFontFamily(Some(FontFamilies[i].value)))))
         == Some(FontFamilies[i].value)
    {
      FontFamilyQuoteFree(i);
      FontFamilyRoundTrip(Some(FontFamilies[i].value));
    }
  }
}
