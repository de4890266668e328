/**
 * PdfExportServiceImpl: HTML escaping, the header's template choice, the
 * date-range selection of a user's records and the complete-user export's
 * limits and truncation.
 *
 * The HTML is modelled by its variable parts: the header by its escaped
 * title, its body class and the stylesheet chosen for it, and the complete
 * export by its counts and the items it lists. Fixed markup and CSS text are
 * not modelled.
 */
module PdfExport {
  import opened Base
  import Users

  const AmpEntity := "&amp;"
  const LtEntity := "&lt;"
  const GtEntity := "&gt;"
  const QuotEntity := "&quot;"
  const AposEntity := "&#x27;"

  // ---------------------------------------------------------------------------
  // escapeHtml
  // ---------------------------------------------------------------------------

  /** String.replace of a one-character target: every occurrence of c
      becomes rep, left to right. */
  function ReplaceChar(s: string, c: char, rep: string): (r: string)
    ensures c !in rep ==> c !in r
    ensures forall x :: x in r ==> x in s || x in rep
  {
    if |s| == 0 then ""
    else (if s[0] == c then rep else [s[0]]) + ReplaceChar(s[1..], c, rep)
  }

  /** Replacing characters commutes with concatenation. */
  lemma {:induction false} ReplaceCharAppend(a: string, b: string, c: char, rep: string)
    ensures ReplaceChar(a + b, c, rep) == ReplaceChar(a, c, rep) + ReplaceChar(b, c, rep)
    decreases |a|
  {
    if |a| == 0 {
      assert a + b == b;
    } else {
      assert (a + b)[0] == a[0] && (a + b)[1..] == a[1..] + b;
      ReplaceCharAppend(a[1..], b, c, rep);
    }
  }

  /** The five replace passes of escapeHtml, ampersand first. */
  function ReplacePasses(s: string): string
  {
    ReplaceChar(ReplaceChar(ReplaceChar(ReplaceChar(ReplaceChar(
      s, '&', AmpEntity), '<', LtEntity), '>', GtEntity), '"', QuotEntity), '\'', AposEntity)
  }

  lemma ReplacePassesAppend(a: string, b: string)
    ensures ReplacePasses(a + b) == ReplacePasses(a) + ReplacePasses(b)
  {
    var a1, b1 := ReplaceChar(a, '&', AmpEntity), ReplaceChar(b, '&', AmpEntity);
    ReplaceCharAppend(a, b, '&', AmpEntity);
    var a2, b2 := ReplaceChar(a1, '<', LtEntity), ReplaceChar(b1, '<', LtEntity);
    ReplaceCharAppend(a1, b1, '<', LtEntity);
    var a3, b3 := ReplaceChar(a2, '>', GtEntity), ReplaceChar(b2, '>', GtEntity);
    ReplaceCharAppend(a2, b2, '>', GtEntity);
    var a4, b4 := ReplaceChar(a3, '"', QuotEntity), ReplaceChar(b3, '"', QuotEntity);
    ReplaceCharAppend(a3, b3, '"', QuotEntity);
    ReplaceCharAppend(a4, b4, '\'', AposEntity);
  }

  predicate Special(c: char)
  {
    c == '&' || c == '<' || c == '>' || c == '"' || c == '\''
  }

  /** The reference escaping of one character. */
  function EscapeChar(c: char): string
  {
    match c
    case '&' => AmpEntity
    case '<' => LtEntity
    case '>' => GtEntity
    case '"' => QuotEntity
    case '\'' => AposEntity
    case _ => [c]
  }

  /** The reference escaping of a text: each character escaped on its own, in order. */
  function Escaped(s: string): string
  {
    if |s| == 0 then "" else EscapeChar(s[0]) + Escaped(s[1..])
  }

  /** A pass whose target does not occur leaves the text as it is. */
  lemma {:induction false} ReplaceAbsent(s: string, c: char, rep: string)
    requires c !in s
    ensures ReplaceChar(s, c, rep) == s
    decreases |s|
  {
    if |s| > 0 {
      assert s[0] != c && s == [s[0]] + s[1..];
      ReplaceAbsent(s[1..], c, rep);
    }
  }

  lemma ReplaceOne(c: char, x: char, rep: string)
    ensures ReplaceChar([c], x, rep) == if c == x then rep else [c]
  {
    assert [c][1..] == [];
  }

  /** The last passes leave an entity alone when it holds none of their targets. */
  lemma PassesFrom(k: nat, e: string)
    requires 1 <= k <= 5
    requires k <= 1 ==> '<' !in e
    requires k <= 2 ==> '>' !in e
    requires k <= 3 ==> '"' !in e
    requires k <= 4 ==> '\'' !in e
    ensures k <= 1 ==> ReplaceChar(e, '<', LtEntity) == e
    ensures k <= 2 ==> ReplaceChar(e, '>', GtEntity) == e
    ensures k <= 3 ==> ReplaceChar(e, '"', QuotEntity) == e
    ensures k <= 4 ==> ReplaceChar(e, '\'', AposEntity) == e
  {
    if k <= 1 { ReplaceAbsent(e, '<', LtEntity); }
    if k <= 2 { ReplaceAbsent(e, '>', GtEntity); }
    if k <= 3 { ReplaceAbsent(e, '"', QuotEntity); }
    if k <= 4 { ReplaceAbsent(e, '\'', AposEntity); }
  }

  /** On one character the five passes give that character's escape: no
      pass rewrites what an earlier pass produced, because only the first
      pass introduces '&'. */
  lemma ReplacePassesOnChar(c: char)
    ensures ReplacePasses([c]) == EscapeChar(c)
  {
    var e := EscapeChar(c);
    ReplaceOne(c, '&', AmpEntity);
    ReplaceOne(c, '<', LtEntity);
    ReplaceOne(c, '>', GtEntity);
    ReplaceOne(c, '"', QuotEntity);
    ReplaceOne(c, '\'', AposEntity);
    if c == '&' {
      PassesFrom(1, e);
    } else if c == '<' {
      PassesFrom(2, e);
    } else if c == '>' {
      PassesFrom(3, e);
    } else if c == '"' {
      PassesFrom(4, e);
    }
  }

  /** The chained replaces are exactly the per-character escaping. */
  lemma {:induction false} ReplacePassesEscape(s: string)
    ensures ReplacePasses(s) == Escaped(s)
    decreases |s|
  {
    if |s| > 0 {
      assert s == [s[0]] + s[1..];
      ReplacePassesAppend([s[0]], s[1..]);
      ReplacePassesOnChar(s[0]);
      ReplacePassesEscape(s[1..]);
    }
  }

  /** escapeHtml: null gives the empty string, otherwise the five passes,
      which escape each character independently. */
  function EscapeHtml(text: Option<string>): (r: string)
    ensures text.None? ==> r == ""
    ensures text.Some? ==> r == Escaped(text.value)
  {
    match text
    case None => ""
    case Some(t) =>
      ReplacePassesEscape(t);
      ReplacePasses(t)
  }

  /** Escaped text holds no character that opens or closes markup or an attribute value. */
  lemma {:induction false} EscapedIsInert(s: string)
    ensures '<' !in Escaped(s) && '>' !in Escaped(s) && '"' !in Escaped(s) && '\'' !in Escaped(s)
    decreases |s|
  {
    if |s| > 0 {
      EscapedIsInert(s[1..]);
      var e := EscapeChar(s[0]);
      assert '<' !in e && '>' !in e && '"' !in e && '\'' !in e;
    }
  }

  /** A text without special characters is copied unchanged. */
  lemma {:induction false} PlainTextUnchanged(s: string)
    requires forall i :: 0 <= i < |s| ==> !Special(s[i])
    ensures Escaped(s) == s
    decreases |s|
  {
    if |s| > 0 {
      PlainTextUnchanged(s[1..]);
      assert s == [s[0]] + s[1..];
    }
  }

  predicate StartsWithEntity(s: string)
  {
    StartsWith(s, AmpEntity) || StartsWith(s, LtEntity) || StartsWith(s, GtEntity)
    || StartsWith(s, QuotEntity) || StartsWith(s, AposEntity)
  }

  /** Every '&' of escaped text opens one of the five entities. */
  lemma {:induction false} AmpersandsOpenEntities(s: string)
    ensures forall i :: 0 <= i < |Escaped(s)| && Escaped(s)[i] == '&' ==> StartsWithEntity(Escaped(s)[i..])
    decreases |s|
  {
    if |s| > 0 {
      var e := EscapeChar(s[0]);
      var rest := Escaped(s[1..]);
      var out := Escaped(s);
      assert out == e + rest;
      AmpersandsOpenEntities(s[1..]);
      forall i | 0 <= i < |out| && out[i] == '&' ensures StartsWithEntity(out[i..]) {
        if i < |e| {
          assert e[i] == '&';
          assert Special(s[0]) && i == 0;
          assert out[..|e|] == e;
        } else {
          assert out[i..] == rest[i - |e|..];
          assert rest[i - |e|] == '&';
        }
      }
    }
  }

  /** Decoding the five entities, the inverse of the escaping. */
  function Unescape(s: string): string
    decreases |s|
  {
    if |s| == 0 then ""
    else if StartsWith(s, AmpEntity) then "&" + Unescape(s[|AmpEntity|..])
    else if StartsWith(s, LtEntity) then "<" + Unescape(s[|LtEntity|..])
    else if StartsWith(s, GtEntity) then ">" + Unescape(s[|GtEntity|..])
    else if StartsWith(s, QuotEntity) then "\"" + Unescape(s[|QuotEntity|..])
    else if StartsWith(s, AposEntity) then "'" + Unescape(s[|AposEntity|..])
    else [s[0]] + Unescape(s[1..])
  }

  /** A text whose k-th character differs from the entity's does not start with it. */
  lemma NotStartsWith(s: string, entity: string, k: nat)
    requires k < |s| && k < |entity| && s[k] != entity[k]
    ensures !StartsWith(s, entity)
  {
    if |entity| <= |s| {
      assert s[..|entity|][k] == s[k];
    }
  }

  /** The entity text followed by anything starts with that entity. */
  lemma StartsWithPrefix(e: string, t: string)
    ensures StartsWith(e + t, e) && (e + t)[|e|..] == t
  {
    assert (e + t)[..|e|] == e;
  }

  lemma UnescapeStep(c: char, t: string)
    ensures Unescape(EscapeChar(c) + t) == [c] + Unescape(t)
  {
    var e := EscapeChar(c);
    var s := e + t;
    StartsWithPrefix(e, t);
    assert s[0] == e[0];
    if !Special(c) {
      NotStartsWith(s, AmpEntity, 0);
      NotStartsWith(s, LtEntity, 0);
      NotStartsWith(s, GtEntity, 0);
      NotStartsWith(s, QuotEntity, 0);
      NotStartsWith(s, AposEntity, 0);
      assert s[1..] == t;
    } else {
      assert s[1] == e[1];
      if c != '&' { NotStartsWith(s, AmpEntity, 1); }
      if c != '<' { NotStartsWith(s, LtEntity, 1); }
      if c != '>' { NotStartsWith(s, GtEntity, 1); }
      if c != '"' { NotStartsWith(s, QuotEntity, 1); }
    }
  }

  /** Unescaping escaped text returns the text. */
  lemma {:induction false} UnescapeEscaped(s: string)
    ensures Unescape(Escaped(s)) == s
    decreases |s|
  {
    if |s| > 0 {
      UnescapeStep(s[0], Escaped(s[1..]));
      UnescapeEscaped(s[1..]);
      assert s == [s[0]] + s[1..];
    }
  }

  // ---------------------------------------------------------------------------
  // getHtmlHeader and getCssStyles
  // ---------------------------------------------------------------------------

  const Modern := "modern"
  const Classic := "classic"
  const Minimal := "minimal"

  datatype Stylesheet = ModernCss | ClassicCss | MinimalCss

  /** The body class: the requested style lower-cased, or "modern" when none is given. */
  function CssClass(templateStyle: Option<string>): (cssClass: string)
    ensures templateStyle.None? ==> cssClass == Modern
    ensures templateStyle.Some? ==> (|cssClass| == |templateStyle.value|
      && forall i :: 0 <= i < |cssClass| ==> cssClass[i] == LowerAscii(templateStyle.value[i]))
  {
    if templateStyle.Some? then ToLower(templateStyle.value) else Modern
  }

  /** getCssStyles: classic and minimal by exact name, modern for anything else. */
  function CssStyles(cssClass: string): (sheet: Stylesheet)
    ensures sheet == ClassicCss <==> cssClass == Classic
    ensures sheet == MinimalCss <==> cssClass == Minimal
    ensures sheet == ModernCss <==> cssClass != Classic && cssClass != Minimal
  {
    if cssClass == Classic then ClassicCss
    else if cssClass == Minimal then MinimalCss
    else ModernCss
  }

  /** The variable parts of the header: the escaped title, the stylesheet
      and the body class. */
  datatype Header = Header(title: string, stylesheet: Stylesheet, bodyClass: string)

  /** getHtmlHeader. */
  function HtmlHeader(title: Option<string>, templateStyle: Option<string>): (h: Header)
    ensures '<' !in h.title && '"' !in h.title && '\'' !in h.title
    ensures Unescape(h.title) == (if title.Some? then title.value else "")
    ensures h.stylesheet == CssStyles(h.bodyClass) && h.bodyClass == CssClass(templateStyle)
  {
    var cssClass := CssClass(templateStyle);
    match title
    case None => Header("", CssStyles(cssClass), cssClass)
    case Some(t) =>
      EscapedIsInert(t);
      UnescapeEscaped(t);
      Header(EscapeHtml(title), CssStyles(cssClass), cssClass)
  }

  /** The style names the export request documents select their own sheet
      in any letter case; no style, and any other name, selects the modern
      one. */
  lemma TemplateChoice(style: string)
    ensures HtmlHeader(None, Some(style)).stylesheet == ClassicCss <==> EqualsIgnoreCase(style, Classic)
    ensures HtmlHeader(None, Some(style)).stylesheet == MinimalCss <==> EqualsIgnoreCase(style, Minimal)
    ensures HtmlHeader(None, Some(style)).stylesheet == ModernCss <==>
      !EqualsIgnoreCase(style, Classic) && !EqualsIgnoreCase(style, Minimal)
    ensures HtmlHeader(None, None).stylesheet == ModernCss
    ensures HtmlHeader(None, Some("CLASSIC")).stylesheet == ClassicCss
    ensures HtmlHeader(None, Some("Minimal")).stylesheet == MinimalCss
    ensures HtmlHeader(None, Some("MODERN")).stylesheet == ModernCss
  {
    assert ToLower(Classic) == Classic;
    assert ToLower(Minimal) == Minimal;
    LowerEqualIffIgnoringCase(style, Classic);
    LowerEqualIffIgnoringCase(style, Minimal);
    assert ToLower("CLASSIC") == Classic;
    assert ToLower("Minimal") == Minimal;
    assert ToLower("MODERN") == Modern;
  }

  /** The body class is not escaped: every character of the requested style
      other than an upper-case letter, quotes and angle brackets included,
      reaches the class attribute as it is. */
  lemma StyleIsNotEscaped(style: string)
    ensures forall i :: 0 <= i < |style| && !('A' <= style[i] <= 'Z') ==>
      HtmlHeader(None, Some(style)).bodyClass[i] == style[i]
    ensures '\'' in HtmlHeader(None, Some("x'")).bodyClass
  {
    assert HtmlHeader(None, Some("x'")).bodyClass[1] == '\'';
  }

  // ---------------------------------------------------------------------------
  // Date-range selection
  // ---------------------------------------------------------------------------

  datatype Idea = Idea(userId: string, title: Option<string>, description: Option<string>, createdAt: Instant)
  datatype Generation = Generation(userId: string, generationType: Option<string>, model: Option<string>,
                                   prompt: Option<string>, createdAt: Instant)
  datatype Activity = Activity(userId: string, timestamp: Instant)

  /** The request fields the export reads; the dates are the request's
      raw text. */
  datatype ExportRequest = ExportRequest(dateFrom: Option<string>, dateTo: Option<string>,
                                         templateStyle: Option<string>, includeImages: bool)

  /** The window a selector applies: every record, or the two parsed dates. */
  datatype Window = AllTime | Dates(from: Instant, to: Instant)

  /**
   * The window the three selectors compute. With both dates given each is
   * read by LocalDateTime.parse, here the parameter `parse`, whose None is
   * the DateTimeParseException it throws on malformed text; a date that
   * does not parse fails the selection (None). With a date missing nothing
   * is parsed and every record is selected.
   */
  function ParseWindow(request: ExportRequest, parse: string -> Option<Instant>): (r: Option<Window>)
    ensures r.None? <==>
      request.dateFrom.Some? && request.dateTo.Some?
      && (parse(request.dateFrom.value).None? || parse(request.dateTo.value).None?)
    ensures r == Some(AllTime) <==> request.dateFrom.None? || request.dateTo.None?
    ensures r.Some? && r.value.Dates? ==>
      request.dateFrom.Some? && request.dateTo.Some?
      && parse(request.dateFrom.value) == Some(r.value.from) && parse(request.dateTo.value) == Some(r.value.to)
  {
    if request.dateFrom.None? || request.dateTo.None? then Some(AllTime)
    else
      match (parse(request.dateFrom.value), parse(request.dateTo.value))
      case (Some(from), Some(to)) => Some(Dates(from, to))
      case _ => None
  }

  /** A creation time the idea and generation queries keep: inside a window
      of dates, strictly between them (the derived Between query). */
  predicate InRange(window: Window, t: Instant)
  {
    window.Dates? ==> window.from < t < window.to
  }

  /** A timestamp the activity query keeps: inside a window of dates, from
      the start inclusive to the end exclusive (its $gte/$lt query). */
  predicate InActivityRange(window: Window, t: Instant)
  {
    window.Dates? ==> window.from <= t < window.to
  }

  function Filter<T(!new)>(xs: seq<T>, keep: T -> bool): (r: seq<T>)
    ensures |r| <= |xs|
    ensures forall x :: x in r <==> x in xs && keep(x)
  {
    if |xs| == 0 then [] else (if keep(xs[0]) then [xs[0]] else []) + Filter(xs[1..], keep)
  }

  /** getIdeasByDateRange, once its window is parsed. */
  function IdeasByDateRange(ideas: seq<Idea>, userId: string, window: Window): (r: seq<Idea>)
    ensures forall x :: x in r <==> x in ideas && x.userId == userId && InRange(window, x.createdAt)
  {
    Filter(ideas, (x: Idea) => x.userId == userId && InRange(window, x.createdAt))
  }

  /** getAIGenerationsByDateRange, once its window is parsed. */
  function GenerationsByDateRange(generations: seq<Generation>, userId: string, window: Window)
    : (r: seq<Generation>)
    ensures forall x :: x in r <==> x in generations && x.userId == userId && InRange(window, x.createdAt)
  {
    Filter(generations, (x: Generation) => x.userId == userId && InRange(window, x.createdAt))
  }

  /** getUserActivitiesByDateRange (by timestamp, which is the record's
      createdAt), once its window is parsed. */
  function ActivitiesByDateRange(activities: seq<Activity>, userId: string, window: Window)
    : (r: seq<Activity>)
    ensures forall x :: x in r <==> x in activities && x.userId == userId && InActivityRange(window, x.timestamp)
  {
    Filter(activities, (x: Activity) => x.userId == userId && InActivityRange(window, x.timestamp))
  }

  /** The two range queries differ at the start date: an activity stamped
      exactly at dateFrom is kept, an idea created then is not; at dateTo
      both are dropped. */
  lemma StartDateKeptOnlyForActivities(userId: string, from: Instant, to: Instant)
    requires from < to
    ensures var a := Activity(userId, from);
      a in ActivitiesByDateRange([a], userId, Dates(from, to))
    ensures var x := Idea(userId, None, None, from);
      IdeasByDateRange([x], userId, Dates(from, to)) == []
    ensures var a := Activity(userId, to);
      ActivitiesByDateRange([a], userId, Dates(from, to)) == []
  {
  }

  /** A request with only one date given parses nothing and selects every
      record of the user. */
  lemma HalfRangeSelectsAll(ideas: seq<Idea>, userId: string, request: ExportRequest,
                            parse: string -> Option<Instant>)
    requires request.dateFrom.None? || request.dateTo.None?
    ensures ParseWindow(request, parse) == Some(AllTime)
    ensures forall x :: x in IdeasByDateRange(ideas, userId, AllTime) <==> x in ideas && x.userId == userId
  {
  }

  // ---------------------------------------------------------------------------
  // The complete-user export
  // ---------------------------------------------------------------------------

  const ItemLimit: nat := 10
  const DescriptionLimit: nat := 200
  const Ellipsis := "..."
  const CompleteTitlePrefix := "Complete User Export - "
  const NullText := "null"
  const HeadingSeparator := " - "

  /** String concatenation of a possibly null string. */
  function JavaString(s: Option<string>): (r: string)
    ensures s.Some? ==> r == s.value
    ensures s.None? ==> r == NullText
  {
    if s.Some? then s.value else NullText
  }

  /** A description longer than the limit keeps its first 200 characters
      and gains "..."; a shorter one is kept whole. */
  function Truncate(d: string): (r: string)
    ensures |r| <= DescriptionLimit + |Ellipsis|
    ensures |d| <= DescriptionLimit ==> r == d
    ensures |d| > DescriptionLimit ==> (|r| == DescriptionLimit + |Ellipsis|
      && r[..DescriptionLimit] == d[..DescriptionLimit] && r[DescriptionLimit..] == Ellipsis)
  {
    if |d| > DescriptionLimit then d[..DescriptionLimit] + Ellipsis else d
  }

  datatype MiniItem = MiniItem(heading: string, text: string)
  datatype Section = Section(total: nat, items: seq<MiniItem>)

  datatype CompleteExport = CompleteExport(
    header: Header,
    userName: string,
    totalIdeas: nat,
    totalGenerations: nat,
    totalActivities: nat,
    ideas: Option<Section>,
    generations: Option<Section>)

  function IdeaItem(idea: Idea): MiniItem
    requires idea.description.Some?
  {
    MiniItem(EscapeHtml(idea.title), EscapeHtml(Some(Truncate(idea.description.value))))
  }

  function GenerationItem(g: Generation): MiniItem
  {
    MiniItem(JavaString(g.generationType) + HeadingSeparator + JavaString(g.model), EscapeHtml(g.prompt))
  }

  /** The items of the first k ideas, followed by the item of idea k, are
      the items of the first k + 1 ideas. */
  lemma ItemsExtend(ideas: seq<Idea>, done: seq<MiniItem>, k: nat)
    requires k < |ideas| && |done| == k && ideas[k].description.Some?
    requires forall m :: 0 <= m < k ==> ideas[m].description.Some? && done[m] == IdeaItem(ideas[m])
    ensures forall m :: 0 <= m < k + 1 ==>
      ideas[m].description.Some? && (done + [IdeaItem(ideas[k])])[m] == IdeaItem(ideas[m])
  {
  }

  /** The idea items of the complete export: the first ten ideas, each
      with its title escaped and its description truncated and escaped.
      None when one of them has no description. */
  method IdeaItems(ideas: seq<Idea>) returns (items: Option<seq<MiniItem>>)
    ensures items.None? <==> exists k :: 0 <= k < Min(|ideas|, ItemLimit) && ideas[k].description.None?
    ensures items.Some? ==> (|items.value| == Min(|ideas|, ItemLimit)
      && forall k :: 0 <= k < |items.value| ==> ideas[k].description.Some? && items.value[k] == IdeaItem(ideas[k]))
  {
    var limit := Min(|ideas|, ItemLimit);
    var done: seq<MiniItem> := [];
    var k := 0;
    while k < limit
      invariant 0 <= k <= limit && |done| == k
      invariant forall m :: 0 <= m < k ==> ideas[m].description.Some? && done[m] == IdeaItem(ideas[m])
    {
      if ideas[k].description.None? {
        assert 0 <= k < limit && ideas[k].description.None?;
        return None;
      }
      ItemsExtend(ideas, done, k);
      done := done + [IdeaItem(ideas[k])];
      k := k + 1;
    }
    items := Some(done);
  }

  /** The generation items of the complete export: the first ten generations. */
  method GenerationItems(generations: seq<Generation>) returns (items: seq<MiniItem>)
    ensures |items| == Min(|generations|, ItemLimit)
    ensures forall k :: 0 <= k < |items| ==> items[k] == GenerationItem(generations[k])
  {
    var limit := Min(|generations|, ItemLimit);
    items := [];
    var k := 0;
    while k < limit
      invariant 0 <= k <= limit && |items| == k
      invariant forall m :: 0 <= m < k ==> items[m] == GenerationItem(generations[m])
    {
      var item := GenerationItem(generations[k]);
      items := items + [item];
      assert items[k] == item;
      k := k + 1;
    }
  }

  /**
   * generateCompleteUserHtml. An idea without a description among the first
   * ten makes description.length() fail, and the export with it (None). The
   * summary reports the full counts; each section lists at most ten items
   * and is left out when there is nothing to list.
   */
  method GenerateCompleteUserHtml(fullName: Option<string>, ideas: seq<Idea>, generations: seq<Generation>,
                                  activities: seq<Activity>, templateStyle: Option<string>)
    returns (r: Option<CompleteExport>)
    ensures r.None? <==> exists k :: 0 <= k < Min(|ideas|, ItemLimit) && ideas[k].description.None?
    ensures r.Some? ==>
      r.value.header == HtmlHeader(Some(CompleteTitlePrefix + JavaString(fullName)), templateStyle)
      && r.value.userName == EscapeHtml(fullName)
      && r.value.totalIdeas == |ideas| && r.value.totalGenerations == |generations|
      && r.value.totalActivities == |activities|
    ensures r.Some? ==> (r.value.ideas.Some? <==> |ideas| > 0) && (r.value.generations.Some? <==> |generations| > 0)
    ensures r.Some? && r.value.ideas.Some? ==>
      var section := r.value.ideas.value;
      section.total == |ideas| && |section.items| == Min(|ideas|, ItemLimit)
      && forall k :: 0 <= k < |section.items| ==> ideas[k].description.Some? && section.items[k] == IdeaItem(ideas[k])
    ensures r.Some? && r.value.generations.Some? ==>
      var section := r.value.generations.value;
      section.total == |generations| && |section.items| == Min(|generations|, ItemLimit)
      && forall k :: 0 <= k < |section.items| ==> section.items[k] == GenerationItem(generations[k])
  {
    var header := HtmlHeader(Some(CompleteTitlePrefix + JavaString(fullName)), templateStyle);
    var ideaSection: Option<Section> := None;
    if |ideas| > 0 {
      var items := IdeaItems(ideas);
      if items.None? {
        return None;
      }
      ideaSection := Some(Section(|ideas|, items.value));
    }
    var generationSection: Option<Section> := None;
    if |generations| > 0 {
      var items := GenerationItems(generations);
      generationSection := Some(Section(|generations|, items));
    }
    r := Some(CompleteExport(header, EscapeHtml(fullName), |ideas|, |generations|, |activities|,
                             ideaSection, generationSection));
  }

  /**
   * generateCompleteUserPdf: the user must exist; the request's dates are
   * parsed into a window (`parse` is LocalDateTime.parse), and the three
   * record kinds it selects are rendered. None is the RuntimeException the
   * service throws, including the one wrapping a date that does not parse.
   */
  method GenerateCompleteUserPdf(users: seq<Users.User>, ideas: seq<Idea>, generations: seq<Generation>,
                                 activities: seq<Activity>, userId: string, request: ExportRequest,
                                 parse: string -> Option<Instant>)
    returns (r: Option<CompleteExport>)
    ensures r.None? <==>
      Users.FindById(users, userId).None?
      || ParseWindow(request, parse).None?
      || var selected := IdeasByDateRange(ideas, userId, ParseWindow(request, parse).value);
         exists k :: 0 <= k < Min(|selected|, ItemLimit) && selected[k].description.None?
    ensures r.Some? ==>
      var i := Users.FindById(users, userId);
      var w := ParseWindow(request, parse);
      i.Some? && w.Some? && r.value.userName == EscapeHtml(users[i.value].fullName)
      && r.value.totalIdeas == |IdeasByDateRange(ideas, userId, w.value)|
      && r.value.totalGenerations == |GenerationsByDateRange(generations, userId, w.value)|
      && r.value.totalActivities == |ActivitiesByDateRange(activities, userId, w.value)|
      && r.value.header.bodyClass == CssClass(request.templateStyle)
    ensures r.Some? && r.value.ideas.Some? ==>
      var w := ParseWindow(request, parse);
      w.Some? &&
      var selected := IdeasByDateRange(ideas, userId, w.value);
      var section := r.value.ideas.value;
      |selected| > 0 && |section.items| == Min(|selected|, ItemLimit)
      && forall k :: 0 <= k < |section.items| ==> selected[k].description.Some? && section.items[k] == IdeaItem(selected[k])
    ensures r.Some? && r.value.generations.Some? ==>
      var w := ParseWindow(request, parse);
      w.Some? &&
      var selected := GenerationsByDateRange(generations, userId, w.value);
      var section := r.value.generations.value;
      |selected| > 0 && |section.items| == Min(|selected|, ItemLimit)
      && forall k :: 0 <= k < |section.items| ==> section.items[k] == GenerationItem(selected[k])
  {
    var found := Users.FindById(users, userId);
    if found.None? {
      return None;
    }
    var window := ParseWindow(request, parse);
    if window.None? {
      return None;
    }
    var user := users[found.value];
    r := GenerateCompleteUserHtml(user.fullName,
                                  IdeasByDateRange(ideas, userId, window.value),
                                  GenerationsByDateRange(generations, userId, window.value),
                                  ActivitiesByDateRange(activities, userId, window.value),
                                  request.templateStyle);
  }
}
