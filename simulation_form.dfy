/** The simulation form's rich-text fields. `description` and `overview` are stored as JSON
    (`{title, content}` and `[{title, content}]`), but older records hold plain text or HTML;
    loading turns any of these into a title and an HTML body for the editor, and saving
    cleans the editor's HTML and writes the JSON back. */
module SimulationForm {
  import opened SeqFacts
  import opened Text
  import opened JsValue

  // ---------------------------------------------------------------------------------
  // `isJsonString`

  /** The trimmed text opens an object or an array. */
  predicate LooksLikeJson(s: string) {
    StartsWith(Trim(s), "{") || StartsWith(Trim(s), "[")
  }

  /** `isJsonString(str)`, with `parsed` the outcome of `JSON.parse(str)` (`None` when it
      throws). */
  function IsJsonString(str: Value, parsed: Option<Value>): (b: bool)
    ensures b <==> str.Str? && LooksLikeJson(str.s) && parsed.Some?
    ensures b ==> Truthy(str)
    ensures str.Str? && AllSpace(str.s) ==> !b
  {
    TrimEmptyIffBlank(if str.Str? then str.s else "");
    if !Truthy(str) || !str.Str? then false
    else if !LooksLikeJson(str.s) then false
    else parsed.Some?
  }

  // ---------------------------------------------------------------------------------
  // The first `<h2>…</h2>` of an HTML text: `/<h2>(.*?)<\/h2>/`, where `.` matches
  // anything but a line terminator.

  /** `s` holds `tag` at position `i`. */
  predicate TagAt(s: string, i: int, tag: string) {
    0 <= i && i + |tag| <= |s| && s[i..i + |tag|] == tag
  }

  /** `s` holds `<h2>` at position `i`. */
  predicate OpenH2At(s: string, i: int) {
    0 <= i && i + 4 <= |s| && s[i] == '<' && s[i + 1] == 'h' && s[i + 2] == '2' && s[i + 3] == '>'
  }

  /** `s` holds `</h2>` at position `i`. */
  predicate CloseH2At(s: string, i: int) {
    0 <= i && i + 5 <= |s| && s[i] == '<' && s[i + 1] == '/' && s[i + 2] == 'h' && s[i + 3] == '2' && s[i + 4] == '>'
  }

  /** The two tags, read character by character, are the tags. */
  lemma H2TagsAre(s: string, i: int)
    ensures OpenH2At(s, i) <==> TagAt(s, i, "<h2>")
    ensures CloseH2At(s, i) <==> TagAt(s, i, "</h2>")
  {
    if 0 <= i && i + 4 <= |s| {
      var t := s[i..i + 4];
      assert forall k :: 0 <= k < 4 ==> t[k] == s[i + k];
      assert t == "<h2>" <==> t[0] == '<' && t[1] == 'h' && t[2] == '2' && t[3] == '>';
    }
    if 0 <= i && i + 5 <= |s| {
      var t := s[i..i + 5];
      assert forall k :: 0 <= k < 5 ==> t[k] == s[i + k];
      assert t == "</h2>" <==> t[0] == '<' && t[1] == '/' && t[2] == 'h' && t[3] == '2' && t[4] == '>';
    }
  }

  /** Scanning lazily from `j`, the index where `</h2>` begins; `None` when a line
      terminator or the end of the text comes first. */
  function CloseAt(s: string, j: nat): (r: Option<nat>)
    requires j <= |s|
    decreases |s| - j
    ensures r.Some? ==> j <= r.value && CloseH2At(s, r.value)
    ensures r.Some? ==> forall k :: j <= k < r.value ==> !IsLineTerminator(s[k]) && !CloseH2At(s, k)
  {
    if CloseH2At(s, j) then Some(j)
    else if j == |s| || IsLineTerminator(s[j]) then None
    else CloseAt(s, j + 1)
  }

  /** An `<h2>` opening at `p` that the expression matches. */
  predicate H2MatchesAt(s: string, p: nat)
    requires p <= |s|
  {
    OpenH2At(s, p) && CloseAt(s, p + 4).Some?
  }

  /** Where the heading opens and where its closing tag begins. */
  datatype H2Match = H2Match(start: nat, close: nat)

  /** The leftmost match at or after `p`. */
  function FindH2(s: string, p: nat): (r: Option<H2Match>)
    requires p <= |s|
    decreases |s| - p
    ensures r.Some? ==> p <= r.value.start <= |s| && H2MatchesAt(s, r.value.start)
    ensures r.Some? ==> CloseAt(s, r.value.start + 4) == Some(r.value.close)
  {
    if H2MatchesAt(s, p) then Some(H2Match(p, CloseAt(s, p + 4).value))
    else if p == |s| then None
    else FindH2(s, p + 1)
  }

  /** The match found is a match, none starts earlier, and when none is found there is none
      at all. */
  lemma {:induction false} FindH2Leftmost(s: string, p: nat)
    requires p <= |s|
    decreases |s| - p
    ensures FindH2(s, p).Some? ==> p <= FindH2(s, p).value.start && FindH2(s, p).value.start + 4 <= |s|
    ensures FindH2(s, p).Some? ==> H2MatchesAt(s, FindH2(s, p).value.start)
    ensures FindH2(s, p).Some? ==> CloseAt(s, FindH2(s, p).value.start + 4) == Some(FindH2(s, p).value.close)
    ensures FindH2(s, p).Some? ==> forall q :: p <= q < FindH2(s, p).value.start ==> !H2MatchesAt(s, q)
    ensures FindH2(s, p).None? ==> forall q :: p <= q <= |s| ==> !H2MatchesAt(s, q)
  {
    if !H2MatchesAt(s, p) && p < |s| {
      FindH2Leftmost(s, p + 1);
    }
  }

  /** Title and content taken from an HTML text: the text between the first matched
      `<h2>` and its `</h2>`, and the rest without that heading, trimmed. */
  function SplitHeading(s: string): (r: (string, string))
    ensures FindH2(s, 0).None? ==> r == ("", Trim(s))
    ensures FindH2(s, 0).Some? ==>
      var m := FindH2(s, 0).value;
      && OpenH2At(s, m.start) && CloseH2At(s, m.close) && m.start + 4 <= m.close
      && r.0 == s[m.start + 4..m.close]
      && r.1 == Trim(s[..m.start] + s[m.close + 5..])
    ensures forall k :: 0 <= k < |r.0| ==> !IsLineTerminator(r.0[k])
  {
    match FindH2(s, 0)
    case None => ("", Trim(s))
    case Some(m) =>
      var title := s[m.start + 4..m.close];
      assert forall k :: 0 <= k < |title| ==> title[k] == s[m.start + 4 + k];
      (title, Trim(s[..m.start] + s[m.close + 5..]))
  }

  // ---------------------------------------------------------------------------------
  // `parseJsonData`

  datatype TitleContent = TitleContent(title: Value, content: Value)

  const EmptyTitleContent: TitleContent := TitleContent(Str(""), Str(""))

  /** `section.content.replace(/\n/g, '<br>')` */
  function ReplaceNewlines(s: string): (r: string)
    ensures '\n' !in r
    ensures |r| >= |s|
  {
    if s == [] then ""
    else (if s[0] == '\n' then "<br>" else [s[0]]) + ReplaceNewlines(s[1..])
  }

  /** The inverse of `ReplaceNewlines` on text without `<`: every `<br>` back to a line break. */
  function RestoreNewlines(r: string): string
    decreases |r|
  {
    if r == [] then ""
    else if StartsWith(r, "<br>") then "\n" + RestoreNewlines(r[4..])
    else [r[0]] + RestoreNewlines(r[1..])
  }

  lemma {:induction false} NewlinesRoundTrip(s: string)
    requires '<' !in s
    ensures RestoreNewlines(ReplaceNewlines(s)) == s
  {
    if s != [] {
      NewlinesRoundTrip(s[1..]);
      var rest := ReplaceNewlines(s[1..]);
      if s[0] == '\n' {
        assert ("<br>" + rest)[4..] == rest;
      } else {
        assert ([s[0]] + rest)[1..] == rest;
      }
    }
  }

  /** One section's share of the combined HTML: an `<h3>` heading for a titled section
      after the first, then its content as-is when it holds a tag, or as a paragraph with
      line breaks. `None` when reading the section throws: a `null` section, or a content
      that is neither a string nor an array holding '<'. */
  function SectionHtml(index: nat, section: Value): (piece: Option<string>)
    ensures piece.Some? <==> !IsNullish(section) && ContentHtml(Get(section, "content")).Some?
    ensures piece.Some? ==> EndsWith(piece.value, ContentHtml(Get(section, "content")).value)
    ensures piece.Some? && (index == 0 || !Truthy(Get(section, "title"))) ==>
      piece.value == ContentHtml(Get(section, "content")).value
    ensures piece.Some? && index > 0 && Truthy(Get(section, "title")) ==>
      StartsWith(piece.value, "<h3>" + ToJsString(Get(section, "title")) + "</h3>")
  {
    if IsNullish(section) then None
    else
      var title := Get(section, "title");
      var body := ContentHtml(Get(section, "content"));
      if body.None? then None
      else Some((if Truthy(title) && index > 0 then "<h3>" + ToJsString(title) + "</h3>" else "") + body.value)
  }

  /** What a section's `content` contributes. */
  function ContentHtml(content: Value): (body: Option<string>)
    ensures content.Str? && '<' in content.s ==> body == Some(content.s)
    ensures content.Str? && content.s != "" && '<' !in content.s ==> body == Some("<p>" + ReplaceNewlines(content.s) + "</p>")
    ensures !Truthy(content) ==> body == Some("")
  {
    if !Truthy(content) then Some("")
    else if content.Str? then
      Some(if '<' in content.s then content.s else "<p>" + ReplaceNewlines(content.s) + "</p>")
    else if content.Arr? && Str("<") in content.items then Some(ToJsString(content))
    else None
  }

  /** The combined HTML of a list of sections, section by section. */
  function SectionsHtml(sections: seq<Value>): (html: Option<string>)
    ensures html.Some? ==> forall i :: 0 <= i < |sections| ==> SectionHtml(i, sections[i]).Some?
  {
    if sections == [] then Some("")
    else
      var init := SectionsHtml(sections[..|sections| - 1]);
      var piece := SectionHtml(|sections| - 1, sections[|sections| - 1]);
      if init.None? || piece.None? then None
      else
        AllConvertSnoc(sections, sections[..|sections| - 1]);
        Some(init.value + piece.value)
  }

  /** Every section converts when those before the last do and the last does. */
  lemma AllConvertSnoc(sections: seq<Value>, before: seq<Value>)
    requires sections != [] && before == sections[..|sections| - 1]
    requires forall i :: 0 <= i < |before| ==> SectionHtml(i, before[i]).Some?
    requires SectionHtml(|before|, sections[|before|]).Some?
    ensures forall i :: 0 <= i < |sections| ==> SectionHtml(i, sections[i]).Some?
  {
    forall i | 0 <= i < |before|
      ensures SectionHtml(i, sections[i]).Some?
    {
      assert before[i] == sections[i];
    }
  }

  /** The HTML of each section, in order, when every section converts. */
  function SectionPieces(sections: seq<Value>): (pieces: seq<string>)
    requires forall i :: 0 <= i < |sections| ==> SectionHtml(i, sections[i]).Some?
    ensures |pieces| == |sections|
    ensures forall i :: 0 <= i < |sections| ==> pieces[i] == SectionHtml(i, sections[i]).value
  {
    seq(|sections|, i requires 0 <= i < |sections| && SectionHtml(i, sections[i]).Some? => SectionHtml(i, sections[i]).value)
  }

  /** When every section converts, the combined HTML is the sections' pieces joined in order. */
  lemma {:induction false} SectionsHtmlConcat(sections: seq<Value>)
    requires forall i :: 0 <= i < |sections| ==> SectionHtml(i, sections[i]).Some?
    ensures SectionsHtml(sections) == Some(Concat(SectionPieces(sections)))
  {
    if sections != [] {
      var n := |sections| - 1;
      var init := sections[..n];
      forall i | 0 <= i < n
        ensures SectionHtml(i, init[i]).Some?
      {
        assert init[i] == sections[i];
      }
      SectionsHtmlConcat(init);
      assert SectionPieces(sections)[..n] == SectionPieces(init);
    }
  }

  /** The combined HTML fails exactly when some section throws. */
  lemma {:induction false} SectionsHtmlFails(sections: seq<Value>)
    ensures SectionsHtml(sections).None? <==> exists i :: 0 <= i < |sections| && SectionHtml(i, sections[i]).None?
  {
    if sections != [] {
      var n := |sections| - 1;
      var init := sections[..n];
      SectionsHtmlFails(init);
      if SectionsHtml(init).None? {
        var i :| 0 <= i < |init| && SectionHtml(i, init[i]).None?;
        assert sections[i] == init[i];
      }
      if exists i :: 0 <= i < |sections| && SectionHtml(i, sections[i]).None? {
        var i :| 0 <= i < |sections| && SectionHtml(i, sections[i]).None?;
        if i < n {
          assert init[i] == sections[i];
        }
      }
    }
  }

  /** The `forEach` that builds the combined HTML; it stops at the first section that
      throws. */
  method CombineSections(sections: seq<Value>) returns (html: Option<string>)
    ensures html == SectionsHtml(sections)
  {
    var acc := "";
    var i := 0;
    while i < |sections|
      invariant 0 <= i <= |sections|
      invariant SectionsHtml(sections[..i]) == Some(acc)
    {
      var piece := SectionHtml(i, sections[i]);
      assert sections[..i + 1][..i] == sections[..i];
      if piece.None? {
        SectionsHtmlFails(sections);
        return None;
      }
      acc := acc + piece.value;
      i := i + 1;
    }
    assert sections[..i] == sections;
    return Some(acc);
  }

  /** `section.title || ''` and `section.content || ''` of a section that is not `null`. */
  function TitleAndContent(section: Value): TitleContent {
    TitleContent(Or(Get(section, "title"), Str("")), Or(Get(section, "content"), Str("")))
  }

  /** `parseJsonData(jsonData)`, with `parsed` the outcome of `JSON.parse` on it. An error
      inside the `try` gives an empty title and the input as content. */
  function ParseJsonData(jsonData: Value, parsed: Option<Value>): (r: TitleContent)
    ensures !Truthy(jsonData) ==> r == EmptyTitleContent
    ensures Truthy(jsonData) && !IsJsonString(jsonData, parsed) && jsonData.Str? && '<' in jsonData.s ==>
      r == TitleContent(Str(SplitHeading(jsonData.s).0), Str(SplitHeading(jsonData.s).1))
    ensures Truthy(jsonData) && !IsJsonString(jsonData, parsed) && !(jsonData.Str? && '<' in jsonData.s) ==>
      r == TitleContent(Str(""), jsonData)
    ensures IsJsonString(jsonData, parsed) && parsed.value.Obj? ==> r == TitleAndContent(parsed.value)
    ensures IsJsonString(jsonData, parsed) && parsed.value.Arr? && |parsed.value.items| == 1 ==>
      r == (if IsNullish(parsed.value.items[0]) then TitleContent(Str(""), jsonData) else TitleAndContent(parsed.value.items[0]))
    ensures IsJsonString(jsonData, parsed) && parsed.value.Arr? && |parsed.value.items| >= 2 ==>
      r == (match SectionsHtml(parsed.value.items)
            case None => TitleContent(Str(""), jsonData)
            case Some(html) => TitleContent(TitleAndContent(parsed.value.items[0]).title, Str(html)))
    ensures IsJsonString(jsonData, parsed) && !parsed.value.Obj? && !(parsed.value.Arr? && |parsed.value.items| > 0) ==>
      r == EmptyTitleContent
    // A title is always a string or another truthy value: never null, undefined or ''.
    ensures r.title.Str? || Truthy(r.title)
  {
    if !Truthy(jsonData) then EmptyTitleContent
    else if !IsJsonString(jsonData, parsed) then
      if jsonData.Str? && '<' in jsonData.s then
        var split := SplitHeading(jsonData.s);
        TitleContent(Str(split.0), Str(split.1))
      else TitleContent(Str(""), jsonData)
    else
      var p := parsed.value;
      if p.Obj? then TitleAndContent(p)
      else if p.Arr? && |p.items| > 0 then
        if IsNullish(p.items[0]) then
          SectionsHtmlFails(p.items);
          assert SectionHtml(0, p.items[0]).None?;
          TitleContent(Str(""), jsonData)
        else if |p.items| == 1 then TitleAndContent(p.items[0])
        else
          match SectionsHtml(p.items)
          case None => TitleContent(Str(""), jsonData)
          case Some(html) => TitleContent(TitleAndContent(p.items[0]).title, Str(html))
      else EmptyTitleContent
  }

  // ---------------------------------------------------------------------------------
  // `convertContentToHtml`: plain text with bullet lines into editor HTML.

  /** The bullet marker typed into plain-text descriptions. */
  const BULLET: char := '•'

  /** A trimmed line that starts a list item. */
  predicate IsBulletLine(trimmed: string) {
    trimmed != [] && (trimmed[0] == BULLET || trimmed[0] == '-' || trimmed[0] == '*')
  }

  // The replacement of the pattern "^[•\\-*]\\s\*" by nothing: one marker character, then the
  // white space after it.
  function StripMarker(trimmed: string): (r: string)
    ensures IsBulletLine(trimmed) ==> |r| < |trimmed| && r == trimmed[|trimmed| - |r|..]
    ensures IsBulletLine(trimmed) ==> AllSpace(trimmed[1..|trimmed| - |r|])
    ensures r == [] || !IsBulletLine(trimmed) || !IsSpace(r[0])
  {
    if IsBulletLine(trimmed) then
      var rest := TrimStart(trimmed[1..]);
      TrimStartSpec(trimmed[1..]);
      assert trimmed[1..][|trimmed[1..]| - |rest|..] == trimmed[|trimmed| - |rest|..];
      assert trimmed[1..][..|trimmed[1..]| - |rest|] == trimmed[1..|trimmed| - |rest|];
      rest
    else trimmed
  }

  /** What the editor HTML is made of. */
  datatype Tag = OpenList | CloseList | Item(text: string) | Para(text: string)

  function RenderTag(t: Tag): string {
    match t
    case OpenList => "<ul>"
    case CloseList => "</ul>"
    case Item(text) => "<li>" + text + "</li>"
    case Para(text) => "<p>" + text + "</p>"
  }

  /** The pieces of some HTML, written one after another. */
  function Concat(pieces: seq<string>): string {
    if pieces == [] then "" else Concat(pieces[..|pieces| - 1]) + pieces[|pieces| - 1]
  }

  lemma {:induction false} ConcatAppend(a: seq<string>, b: seq<string>)
    ensures Concat(a + b) == Concat(a) + Concat(b)
  {
    if b == [] {
      assert a + b == a;
    } else {
      ConcatAppend(a, b[..|b| - 1]);
      assert (a + b)[..|a + b| - 1] == a + b[..|b| - 1];
    }
  }

  function Pieces(tags: seq<Tag>): (r: seq<string>)
    ensures |r| == |tags|
    ensures forall i :: 0 <= i < |tags| ==> r[i] == RenderTag(tags[i])
  {
    seq(|tags|, i requires 0 <= i < |tags| => RenderTag(tags[i]))
  }

  /** The HTML text of some tags. */
  function Render(tags: seq<Tag>): string {
    Concat(Pieces(tags))
  }

  lemma RenderAppend(a: seq<Tag>, b: seq<Tag>)
    ensures Render(a + b) == Render(a) + Render(b)
  {
    assert Pieces(a + b) == Pieces(a) + Pieces(b);
    ConcatAppend(Pieces(a), Pieces(b));
  }

  lemma RenderOne(t: Tag)
    ensures Render([t]) == RenderTag(t)
  {
    assert Pieces([t]) == [RenderTag(t)];
    assert Concat([RenderTag(t)]) == Concat([]) + RenderTag(t);
  }

  lemma RenderTwo(t: Tag, u: Tag)
    ensures Render([t, u]) == RenderTag(t) + RenderTag(u)
  {
    RenderAppend([t], [u]);
    RenderOne(t);
    RenderOne(u);
    assert [t] + [u] == [t, u];
  }

  /** `inList` after one more line: a bullet opens or continues a list, any other
      non-blank line ends it, and a blank line changes nothing. */
  function NextInList(line: string, inList: bool): bool {
    NextAfterTrimmed(Trim(line), inList)
  }

  function NextAfterTrimmed(trimmed: string, inList: bool): bool {
    if IsBulletLine(trimmed) then true
    else if trimmed != "" then false
    else inList
  }

  /** `inList` after the given lines. */
  function InList(lines: seq<string>): bool {
    if lines == [] then false
    else NextInList(lines[|lines| - 1], InList(lines[..|lines| - 1]))
  }

  /** What one line adds: a bullet opens a list unless one is open, then an item; any other
      non-blank line closes an open list, then a paragraph. */
  function LineTags(line: string, inList: bool): seq<Tag> {
    TrimmedTags(Trim(line), inList)
  }

  function TrimmedTags(trimmed: string, inList: bool): seq<Tag> {
    if IsBulletLine(trimmed) then (if inList then [] else [OpenList]) + [Item(StripMarker(trimmed))]
    else if trimmed != "" then (if inList then [CloseList] else []) + [Para(trimmed)]
    else []
  }

  function Tags(lines: seq<string>): seq<Tag> {
    if lines == [] then []
    else Tags(lines[..|lines| - 1]) + LineTags(lines[|lines| - 1], InList(lines[..|lines| - 1]))
  }

  /** The tags of all lines, with an open list closed at the end. */
  function AllTags(lines: seq<string>): seq<Tag> {
    Tags(lines) + (if InList(lines) then [CloseList] else [])
  }

  /** `content.split('\n').filter(line => line.trim())` */
  function NonBlankLines(lines: seq<string>): (r: seq<string>)
    ensures forall k :: 0 <= k < |r| ==> Trim(r[k]) != ""
    ensures forall l :: l in r <==> l in lines && Trim(l) != ""
  {
    if lines == [] then []
    else
      var last := lines[|lines| - 1];
      assert lines == lines[..|lines| - 1] + [last];
      NonBlankLines(lines[..|lines| - 1]) + (if Trim(last) != "" then [last] else [])
  }

  /** The non-blank lines keep their order: those of two lists in a row are the first list's followed by the second's. */
  lemma {:induction false} NonBlankLinesAppend(a: seq<string>, b: seq<string>)
    ensures NonBlankLines(a + b) == NonBlankLines(a) + NonBlankLines(b)
    decreases |b|
  {
    if b == [] {
      AppendEmpty(a);
      AppendEmpty(NonBlankLines(a));
    } else {
      var init := b[..|b| - 1];
      var last := b[|b| - 1];
      var tail := if Trim(last) != "" then [last] else [];
      SplitLast(a, b);
      NonBlankLinesAppend(a, init);
      AppendAssoc(NonBlankLines(a), NonBlankLines(init), tail);
    }
  }

  /** The whole conversion: empty stays empty, HTML is kept as it is, and plain text becomes
      lists and paragraphs, or one empty paragraph when nothing is left. */
  function ContentToHtml(content: string): (html: string)
    ensures content == "" <==> html == ""
    ensures '<' in content ==> html == content
  {
    if content == "" then ""
    else if '<' in content then content
    else
      var body := Render(AllTags(NonBlankLines(Split(content, '\n'))));
      if body == "" then "<p><br></p>" else body
  }

  /** The body of the `forEach`: one line's HTML added to `html`, and the new `inList`. */
  method AddLine(html: string, inList: bool, line: string) returns (html': string, inList': bool)
    ensures html' == html + Render(LineTags(line, inList))
    ensures inList' == NextInList(line, inList)
  {
    var trimmed := Trim(line);
    html' := html;
    inList' := inList;
    ghost var added := LineTags(line, inList);
    if IsBulletLine(trimmed) {
      var text := StripMarker(trimmed);
      if !inList' {
        html' := html' + "<ul>";
        inList' := true;
        html' := html' + ("<li>" + text + "</li>");
        assert added == [OpenList, Item(text)];
        RenderTwo(OpenList, Item(text));
        AppendAssoc(html, "<ul>", "<li>" + text + "</li>");
      } else {
        html' := html' + ("<li>" + text + "</li>");
        assert added == [Item(text)];
        RenderOne(Item(text));
      }
    } else if trimmed != "" {
      if inList' {
        html' := html' + "</ul>";
        inList' := false;
        html' := html' + ("<p>" + trimmed + "</p>");
        assert added == [CloseList, Para(trimmed)];
        RenderTwo(CloseList, Para(trimmed));
        AppendAssoc(html, "</ul>", "<p>" + trimmed + "</p>");
      } else {
        html' := html' + ("<p>" + trimmed + "</p>");
        assert added == [Para(trimmed)];
        RenderOne(Para(trimmed));
      }
    } else {
      assert added == [];
      assert Render([]) == "";
    }
  }

  /** The `forEach` over the lines, from an empty `html` and `inList` unset. */
  method AddLines(lines: seq<string>) returns (html: string, inList: bool)
    ensures html == Render(Tags(lines))
    ensures inList == InList(lines)
  {
    html := "";
    inList := false;
    var i := 0;
    while i < |lines|
      invariant 0 <= i <= |lines|
      invariant html == Render(Tags(lines[..i]))
      invariant inList == InList(lines[..i])
    {
      TagsSnoc(lines, i);
      RenderAppend(Tags(lines[..i]), LineTags(lines[i], inList));
      html, inList := AddLine(html, inList, lines[i]);
      i := i + 1;
    }
    assert lines[..i] == lines;
  }

  lemma TagsSnoc(lines: seq<string>, i: nat)
    requires i < |lines|
    ensures Tags(lines[..i + 1]) == Tags(lines[..i]) + LineTags(lines[i], InList(lines[..i]))
    ensures InList(lines[..i + 1]) == NextInList(lines[i], InList(lines[..i]))
  {
    assert lines[..i + 1][..i] == lines[..i];
  }

  /** `convertContentToHtml(content)`: the loop with its `html` accumulator and `inList` flag. */
  method ConvertContentToHtml(content: string) returns (html: string)
    ensures html == ContentToHtml(content)
    ensures content != "" ==> html != ""
  {
    if content == "" {
      return "";
    }
    if '<' in content {
      return content;
    }
    var lines := NonBlankLines(Split(content, '\n'));
    var inList;
    html, inList := AddLines(lines);
    if inList {
      html := html + "</ul>";
      RenderOne(CloseList);
    } else {
      assert Render([]) == "";
    }
    RenderAppend(Tags(lines), if InList(lines) then [CloseList] else []);
    assert html == Render(AllTags(lines));
    if html == "" {
      html := "<p><br></p>";
    }
  }

  // Properties of the conversion, stated on the tags.

  /** How many lists are open after the tags. */
  function Depth(tags: seq<Tag>): int {
    if tags == [] then 0
    else
      var last := tags[|tags| - 1];
      Depth(tags[..|tags| - 1]) + (if last.OpenList? then 1 else if last.CloseList? then -1 else 0)
  }

  /** Lists never nest and are never closed when none is open; items stand inside a list
      and paragraphs outside one. */
  predicate Proper(tags: seq<Tag>) {
    tags == [] ||
    (var init := tags[..|tags| - 1];
     var last := tags[|tags| - 1];
     && Proper(init)
     && 0 <= Depth(tags) <= 1
     && (last.Item? ==> Depth(init) == 1)
     && (last.Para? ==> Depth(init) == 0))
  }

  lemma ProperAppend(a: seq<Tag>, t: Tag)
    ensures Proper(a + [t]) <==>
      Proper(a) && 0 <= Depth(a + [t]) <= 1 && (t.Item? ==> Depth(a) == 1) && (t.Para? ==> Depth(a) == 0)
    ensures Depth(a + [t]) == Depth(a) + (if t.OpenList? then 1 else if t.CloseList? then -1 else 0)
  {
    assert (a + [t])[..|a|] == a;
  }

  /** One line's tags keep the tags proper, and leave a list open exactly when the line
      leaves `inList` set. */
  lemma StepProper(before: seq<Tag>, line: string, inList: bool)
    requires Proper(before) && Depth(before) == (if inList then 1 else 0)
    ensures Proper(before + LineTags(line, inList))
    ensures Depth(before + LineTags(line, inList)) == if NextInList(line, inList) then 1 else 0
  {
    TrimmedStepProper(before, Trim(line), inList);
  }

  /** Opening a list with an item, or closing one before a paragraph. */
  lemma ProperPair(a: seq<Tag>, t: Tag, u: Tag)
    requires Proper(a)
    requires (t.OpenList? && u.Item? && Depth(a) == 0) || (t.CloseList? && u.Para? && Depth(a) == 1)
    ensures Proper(a + [t, u])
    ensures Depth(a + [t, u]) == if t.OpenList? then 1 else 0
  {
    ProperAppend(a, t);
    ProperAppend(a + [t], u);
    assert a + [t] + [u] == a + [t, u];
  }

  lemma TrimmedStepProper(before: seq<Tag>, trimmed: string, inList: bool)
    requires Proper(before) && Depth(before) == (if inList then 1 else 0)
    ensures Proper(before + TrimmedTags(trimmed, inList))
    ensures Depth(before + TrimmedTags(trimmed, inList)) == if NextAfterTrimmed(trimmed, inList) then 1 else 0
  {
    var added := TrimmedTags(trimmed, inList);
    if IsBulletLine(trimmed) {
      var item := Item(StripMarker(trimmed));
      if inList {
        assert added == [item];
        ProperAppend(before, item);
      } else {
        assert added == [OpenList, item];
        ProperPair(before, OpenList, item);
      }
    } else if trimmed != "" {
      var para := Para(trimmed);
      if inList {
        assert added == [CloseList, para];
        ProperPair(before, CloseList, para);
      } else {
        assert added == [para];
        ProperAppend(before, para);
      }
    } else {
      assert added == [];
      assert before + added == before;
    }
  }

  lemma {:induction false} TagsProper(lines: seq<string>)
    ensures Proper(Tags(lines))
    ensures Depth(Tags(lines)) == if InList(lines) then 1 else 0
  {
    if lines != [] {
      var init := lines[..|lines| - 1];
      TagsProper(init);
      StepProper(Tags(init), lines[|lines| - 1], InList(init));
    }
  }

  /** Every `<ul>` the conversion opens is closed, lists do not nest, every `<li>` stands
      inside a list and every `<p>` outside one. */
  lemma ListsBalanced(lines: seq<string>)
    ensures Proper(AllTags(lines))
    ensures Depth(AllTags(lines)) == 0
  {
    TagsProper(lines);
    if InList(lines) {
      ProperAppend(Tags(lines), CloseList);
    } else {
      assert AllTags(lines) == Tags(lines);
    }
  }

  /** What a line becomes, without the list markup. */
  datatype Block = BulletBlock(text: string) | TextBlock(text: string)

  function LineBlock(line: string): Block {
    var trimmed := Trim(line);
    if IsBulletLine(trimmed) then BulletBlock(StripMarker(trimmed)) else TextBlock(trimmed)
  }

  /** The items and paragraphs of some tags, in order. */
  function Blocks(tags: seq<Tag>): seq<Block> {
    if tags == [] then []
    else
      var last := tags[|tags| - 1];
      Blocks(tags[..|tags| - 1])
        + (match last
           case Item(text) => [BulletBlock(text)]
           case Para(text) => [TextBlock(text)]
           case _ => [])
  }

  lemma {:induction false} BlocksAppend(a: seq<Tag>, b: seq<Tag>)
    ensures Blocks(a + b) == Blocks(a) + Blocks(b)
  {
    if b == [] {
      assert a + b == a;
    } else {
      var init := b[..|b| - 1];
      var last := b[|b| - 1];
      BlocksAppend(a, init);
      var one := match last
        case Item(text) => [BulletBlock(text)]
        case Para(text) => [TextBlock(text)]
        case _ => [];
      calc {
        Blocks(a + b);
        { assert (a + b)[..|a + b| - 1] == a + init; assert (a + b)[|a + b| - 1] == last; }
        Blocks(a + init) + one;
        Blocks(a) + Blocks(init) + one;
        Blocks(a) + Blocks(b);
      }
    }
  }

  /** The blocks of each line, in order. */
  function LineBlocks(lines: seq<string>): (r: seq<Block>)
    ensures |r| == |lines|
    ensures forall k :: 0 <= k < |lines| ==> r[k] == LineBlock(lines[k])
  {
    if lines == [] then [] else LineBlocks(lines[..|lines| - 1]) + [LineBlock(lines[|lines| - 1])]
  }

  /** Nothing is lost or reordered: each non-blank line gives exactly one `<li>` (a bullet,
      its marker stripped) or one `<p>` (its trimmed text), in the order of the lines. */
  lemma {:induction false} OneBlockPerLine(lines: seq<string>)
    requires forall k :: 0 <= k < |lines| ==> Trim(lines[k]) != ""
    ensures Blocks(AllTags(lines)) == LineBlocks(lines)
  {
    TagsBlocks(lines);
    BlocksAppend(Tags(lines), if InList(lines) then [CloseList] else []);
    assert Blocks([CloseList]) == [] by {
      assert [CloseList][..0] == [];
    }
  }

  /** A non-blank line adds exactly its own block. */
  lemma StepBlocks(before: seq<Tag>, line: string, inList: bool)
    requires Trim(line) != ""
    ensures Blocks(before + LineTags(line, inList)) == Blocks(before) + [LineBlock(line)]
  {
    var trimmed := Trim(line);
    var added := LineTags(line, inList);
    BlocksAppend(before, added);
    var one := if IsBulletLine(trimmed) then Item(StripMarker(trimmed)) else Para(trimmed);
    var marks := if IsBulletLine(trimmed) then (if inList then [] else [OpenList])
      else (if inList then [CloseList] else []);
    assert added == marks + [one];
    BlocksAppend(marks, [one]);
    assert Blocks(marks) == [] by {
      if marks != [] {
        assert marks[..0] == [];
      }
    }
    assert Blocks([one]) == [LineBlock(line)] by {
      assert [one][..0] == [];
    }
  }

  lemma {:induction false} TagsBlocks(lines: seq<string>)
    requires forall k :: 0 <= k < |lines| ==> Trim(lines[k]) != ""
    ensures Blocks(Tags(lines)) == LineBlocks(lines)
  {
    if lines != [] {
      var init := lines[..|lines| - 1];
      TagsBlocks(init);
      StepBlocks(Tags(init), lines[|lines| - 1], InList(init));
    }
  }

  // ---------------------------------------------------------------------------------
  // `cleanQuillHtml`: the trailing empty paragraphs the editor leaves behind.

  const EMPTY_PARAGRAPH: string := "<p><br></p>"
  const BARE_PARAGRAPH: string := "<p></p>"

  predicate EndsWithTag(s: string, tag: string) {
    TagAt(s, |s| - |tag|, tag)
  }

  predicate EndsWithEmptyParagraph(s: string) {
    EndsWithTag(s, EMPTY_PARAGRAPH) || EndsWithTag(s, BARE_PARAGRAPH)
  }

  /** A run of `<p><br></p>` and `<p></p>`, possibly empty. */
  predicate IsParagraphRun(s: string)
    decreases |s|
  {
    s == [] ||
    (EndsWithTag(s, EMPTY_PARAGRAPH) && IsParagraphRun(s[..|s| - |EMPTY_PARAGRAPH|])) ||
    (EndsWithTag(s, BARE_PARAGRAPH) && IsParagraphRun(s[..|s| - |BARE_PARAGRAPH|]))
  }

  lemma SliceOfSlice(s: string, k: nat, a: nat, b: nat)
    requires k <= |s| && a <= b <= |s| - k
    ensures s[k..][a..b] == s[k + a..k + b]
  {
    var left := s[k..][a..b];
    var right := s[k + a..k + b];
    assert forall i :: 0 <= i < |left| ==> left[i] == right[i];
  }

  /** Dropping a prefix keeps a tag at the end, and cutting that tag off commutes with
      dropping the prefix. */
  lemma SuffixShift(s: string, k: nat, tag: string)
    requires EndsWithTag(s, tag) && k <= |s| - |tag|
    ensures EndsWithTag(s[k..], tag)
    ensures s[k..][..|s| - k - |tag|] == s[..|s| - |tag|][k..]
  {
    var t := s[k..];
    var n := |s| - |tag|;
    SliceOfSlice(s, k, |t| - |tag|, |t|);
    SliceOfSlice(s, k, 0, |t| - |tag|);
    assert s[..n][k..] == s[k..n];
    assert t[..|t| - |tag|] == t[0..|t| - |tag|];
  }

  /** A run followed by one more empty paragraph is a run. */
  lemma RunStep(s: string, k: nat, tag: string)
    requires tag == EMPTY_PARAGRAPH || tag == BARE_PARAGRAPH
    requires EndsWithTag(s, tag) && k <= |s| - |tag|
    requires IsParagraphRun(s[..|s| - |tag|][k..])
    ensures IsParagraphRun(s[k..])
  {
    SuffixShift(s, k, tag);
  }

  /** The replacement of `(<p><br><\/p>|<p><\/p>)+$` by nothing: the longest trailing run
      goes. */
  function StripTrailingParagraphs(s: string): (r: string)
    decreases |s|
    ensures |r| <= |s|
    ensures !EndsWithTag(r, EMPTY_PARAGRAPH) && !EndsWithTag(r, BARE_PARAGRAPH)
  {
    if EndsWithTag(s, EMPTY_PARAGRAPH) then StripTrailingParagraphs(s[..|s| - |EMPTY_PARAGRAPH|])
    else if EndsWithTag(s, BARE_PARAGRAPH) then StripTrailingParagraphs(s[..|s| - |BARE_PARAGRAPH|])
    else s
  }

  /** What is stripped is a prefix of the text, what goes is a run of empty paragraphs, and
      what is left does not end with one: the run removed is the longest. */
  lemma {:induction false} StripLeavesPrefix(s: string)
    decreases |s|
    ensures |StripTrailingParagraphs(s)| <= |s|
    ensures StripTrailingParagraphs(s) == s[..|StripTrailingParagraphs(s)|]
    ensures IsParagraphRun(s[|StripTrailingParagraphs(s)|..])
    ensures !EndsWithEmptyParagraph(StripTrailingParagraphs(s))
  {
    var r := StripTrailingParagraphs(s);
    if EndsWithTag(s, EMPTY_PARAGRAPH) || EndsWithTag(s, BARE_PARAGRAPH) {
      var tag := if EndsWithTag(s, EMPTY_PARAGRAPH) then EMPTY_PARAGRAPH else BARE_PARAGRAPH;
      var shorter := s[..|s| - |tag|];
      assert r == StripTrailingParagraphs(shorter);
      StripLeavesPrefix(shorter);
      assert |r| <= |shorter| < |s|;
      assert shorter[..|r|] == s[..|r|];
      RunStep(s, |r|, tag);
    } else {
      assert r == s;
      assert s[|s|..] == [];
    }
  }

  /** `cleanQuillHtml(html)` */
  function CleanQuillHtml(html: string): (r: string)
    ensures html == "" || html == EMPTY_PARAGRAPH ==> r == ""
    ensures !EndsWithEmptyParagraph(r)
    ensures html != "" && html != EMPTY_PARAGRAPH ==>
      StartsWith(Trim(html), r) && IsParagraphRun(Trim(html)[|r|..])
  {
    if html == "" || html == EMPTY_PARAGRAPH then ""
    else
      StripLeavesPrefix(Trim(html));
      StripTrailingParagraphs(Trim(html))
  }

  // ---------------------------------------------------------------------------------
  // Saving and loading.

  /** `{title: title || '', content: cleaned || ''}`, the value written as `description`. */
  function DescriptionValue(title: string, content: string): (v: Value)
    ensures Get(v, "title") == Str(title) && Get(v, "content") == Str(CleanQuillHtml(content))
  {
    var fields := [Field("title", Str(title)), Field("content", Str(CleanQuillHtml(content)))];
    assert Lookup(fields, "content") == Str(CleanQuillHtml(content));
    assert fields[..1] == [fields[0]];
    assert Lookup(fields, "title") == Lookup([fields[0]], "title");
    Obj(fields)
  }

  /** `[{title, content}]`, the value written as `overview`. */
  function OverviewValue(title: string, content: string): (v: Value)
    ensures v.Arr? && |v.items| == 1 && v.items[0] == DescriptionValue(title, content)
  {
    Arr([DescriptionValue(title, content)])
  }

  /** What the load effect puts in the editor for a stored field: the parsed title, and the
      parsed content converted to editor HTML ('' for falsy content). Other non-text content
      gives `None`. */
  function LoadField(stored: Value, parsed: Option<Value>): (r: (Value, Option<string>))
    ensures r.0 == ParseJsonData(stored, parsed).title
    ensures ParseJsonData(stored, parsed).content.Str? ==> r.1 == Some(ContentToHtml(ParseJsonData(stored, parsed).content.s))
    ensures !Truthy(ParseJsonData(stored, parsed).content) ==> r.1 == Some("")
    ensures r.1.None? <==> Truthy(ParseJsonData(stored, parsed).content) && !ParseJsonData(stored, parsed).content.Str?
  {
    var data := ParseJsonData(stored, parsed);
    (data.title,
     if data.content.Str? then Some(ContentToHtml(data.content.s))
     else if !Truthy(data.content) then Some("")
     else None)
  }

  /** Saving the description and loading it again gives the editor back its title and its
      cleaned HTML. `json` is the text `JSON.stringify` writes, `{…}`. */
  lemma DescriptionRoundTrip(json: string, title: string, content: string)
    requires StartsWith(json, "{")
    requires CleanQuillHtml(content) == "" || '<' in CleanQuillHtml(content)
    ensures LoadField(Str(json), Some(DescriptionValue(title, content))) == (Str(title), Some(CleanQuillHtml(content)))
  {
    var v := DescriptionValue(title, content);
    var clean := CleanQuillHtml(content);
    JsonTextLoads(json, v);
    assert v.Obj?;
    assert TitleAndContent(v) == TitleContent(Str(title), Str(clean));
    assert ParseJsonData(Str(json), Some(v)) == TitleContent(Str(title), Str(clean));
    assert ContentToHtml(clean) == clean;
  }

  /** The same for the overview, written as a one-element array `[…]`. */
  lemma OverviewRoundTrip(json: string, title: string, content: string)
    requires StartsWith(json, "[")
    requires CleanQuillHtml(content) == "" || '<' in CleanQuillHtml(content)
    ensures LoadField(Str(json), Some(OverviewValue(title, content))) == (Str(title), Some(CleanQuillHtml(content)))
  {
    var v := OverviewValue(title, content);
    var section := DescriptionValue(title, content);
    var clean := CleanQuillHtml(content);
    JsonTextLoads(json, v);
    assert v.items[0] == section && !IsNullish(section);
    assert TitleAndContent(section) == TitleContent(Str(title), Str(clean));
    assert ParseJsonData(Str(json), Some(v)) == TitleContent(Str(title), Str(clean));
    assert ContentToHtml(clean) == clean;
  }

  /** Stored text that starts with a bracket and parses is read as JSON. */
  lemma JsonTextLoads(json: string, v: Value)
    requires StartsWith(json, "{") || StartsWith(json, "[")
    ensures IsJsonString(Str(json), Some(v))
  {
    TrimOfJson(json);
    var t := Trim(json);
    assert t[..1] == [json[0]];
    assert StartsWith(json, "{") ==> json[..1] == "{" && StartsWith(t, "{");
    assert StartsWith(json, "[") ==> json[..1] == "[" && StartsWith(t, "[");
    assert LooksLikeJson(json);
  }

  /** Text that starts with a bracket keeps it after trimming. */
  lemma TrimOfJson(json: string)
    requires StartsWith(json, "{") || StartsWith(json, "[")
    ensures Trim(json) != "" && Trim(json)[0] == json[0]
  {
    var t := TrimStart(json);
    assert t == json;
    TrimEndSpec(t);
  }
}
