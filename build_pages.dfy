/**
 * The prototype's page builder: every `.html` page of the pages directory
 * is stitched into the base template and written under a clean URL, with a
 * redirect left at the page's old location. The file system and the HTML
 * parser are outside the model: a page arrives as the parts the parser
 * would find in it, and the build yields the files it would write.
 */
module BuildPages {

  import opened Wrappers
  import opened Strings
  import opened Seqs

  datatype Config = Config(pagesDir: string, outputDir: string)

  /** What the HTML parser finds in a page: the texts and markup the extraction reads. */
  datatype Dom = Dom(
    title: Option<string>,        // text of the `title` element
    main: Option<string>,         // inner HTML of the `main` element
    headScripts: seq<string>,     // outer HTML of inline `head` scripts
    headStyles: seq<string>,      // outer HTML of `head` styles
    bodyScripts: seq<string>)     // outer HTML of inline scripts directly under `body`

  /** A page file: its name, and its parse (None when parsing throws). */
  datatype Page = Page(fileName: string, dom: Option<Dom>)

  datatype Extracted = Extracted(title: string, content: string, extraHead: string, extraScripts: string)

  /** A file the build writes: a stitched page, or a redirect to a clean URL. */
  datatype Write = PageFile(path: seq<string>, html: string) | RedirectFile(path: seq<string>, target: string)

  const TitleSuffix: string := " - Control Panel"

  // ---------------------------------------------------------------------
  // extractContent
  // ---------------------------------------------------------------------

  /** Each piece followed by a newline, in order. */
  function Lines(pieces: seq<string>): string {
    if pieces == [] then ""
    else Lines(pieces[..|pieces| - 1]) + pieces[|pieces| - 1] + "\n"
  }

  lemma {:induction false} LinesAppend(a: seq<string>, b: seq<string>)
    ensures Lines(a + b) == Lines(a) + Lines(b)
    decreases |b|
  {
    if b == [] {
      assert a + b == a;
    } else {
      assert (a + b)[..|a + b| - 1] == a + b[..|b| - 1];
      LinesAppend(a, b[..|b| - 1]);
    }
  }

  /** The page title with the first " - Control Panel" removed. */
  function PageTitle(text: string): string {
    ReplaceFirst(text, TitleSuffix, "")
  }

  /** A title that does not itself hold the suffix loses the suffix and nothing else. */
  lemma TitleSuffixRemoved(t: string)
    requires !Contains(t, TitleSuffix)
    ensures PageTitle(t + TitleSuffix) == t
  {
    var s := t + TitleSuffix;
    assert OccursAt(s, TitleSuffix, |t|) by { assert s[|t|..|t| + |TitleSuffix|] == TitleSuffix; }
    forall j: nat | j < |t| ensures !OccursAt(s, TitleSuffix, j) {
      if j + |TitleSuffix| <= |t| {
        assert !OccursAt(t, TitleSuffix, j);
        assert s[j..j + |TitleSuffix|] == t[j..j + |TitleSuffix|];
      } else {
        SuffixOverlap(t, j);
      }
    }
    assert IndexOf(s, TitleSuffix) == Some(|t|);
    assert s[..|t|] == t;
    assert s[|t| + |TitleSuffix|..] == "";
  }

  /**
   * The suffix cannot start inside the title and run into the appended
   * suffix: only its first character is a space followed by '-'.
   */
  lemma SuffixOverlap(t: string, j: nat)
    requires j < |t| < j + |TitleSuffix|
    ensures !OccursAt(t + TitleSuffix, TitleSuffix, j)
  {
    var s := t + TitleSuffix;
    var d := |t| - j;
    assert s[|t|] == ' ' && s[|t| + 1] == '-';
    if d + 1 < |TitleSuffix| {
      assert s[j..j + |TitleSuffix|][d] == s[|t|];
      assert s[j..j + |TitleSuffix|][d + 1] == s[|t| + 1];
      assert !(TitleSuffix[d] == ' ' && TitleSuffix[d + 1] == '-');
    } else {
      assert s[j..j + |TitleSuffix|][d] == s[|t|];
      assert TitleSuffix[d] != ' ';
    }
  }

  /** What `extractContent` returns for a parse; a failed parse yields all-empty fields. */
  function ExtractedFrom(dom: Option<Dom>): (r: Extracted)
    ensures dom.None? ==> r == Extracted("", "", "", "")
    ensures dom.Some? && dom.value.title.None? ==> r.title == ""
    ensures dom.Some? && dom.value.main.None? ==> r.content == ""
  {
    match dom
    case None => Extracted("", "", "", "")
    case Some(d) =>
      Extracted(
        if d.title.Some? then PageTitle(d.title.value) else "",
        if d.main.Some? then d.main.value else "",
        Lines(d.headScripts + d.headStyles),
        Lines(d.bodyScripts))
  }

  /** `extractContent`: the extra head and scripts are accumulated piece by piece. */
  method ExtractContent(dom: Option<Dom>) returns (r: Extracted)
    ensures r == ExtractedFrom(dom)
    ensures dom.Some? ==> r.extraHead == Lines(dom.value.headScripts) + Lines(dom.value.headStyles)
  {
    if dom.None? {
      return Extracted("", "", "", "");
    }
    var d := dom.value;
    var title := "";
    if d.title.Some? {
      title := ReplaceFirst(d.title.value, TitleSuffix, "");
    }
    var content := "";
    if d.main.Some? {
      content := d.main.value;
    }
    var extraHead := "";
    if |d.headScripts| > 0 || |d.headStyles| > 0 {
      extraHead := AppendLines(extraHead, d.headScripts);
      extraHead := AppendLines(extraHead, d.headStyles);
    }
    var extraScripts := AppendLines("", d.bodyScripts);
    LinesAppend(d.headScripts, d.headStyles);
    assert "" + Lines(d.headScripts) == Lines(d.headScripts);
    assert "" + Lines(d.bodyScripts) == Lines(d.bodyScripts);
    r := Extracted(title, content, extraHead, extraScripts);
  }

  /** One `forEach(el => acc += el.outerHTML + '\n')` loop. */
  method AppendLines(acc: string, pieces: seq<string>) returns (r: string)
    ensures r == acc + Lines(pieces)
  {
    r := acc;
    var i := 0;
    while i < |pieces|
      invariant 0 <= i <= |pieces|
      invariant r == acc + Lines(pieces[..i])
    {
      assert pieces[..i + 1][..i] == pieces[..i];
      r := r + pieces[i] + "\n";
      i := i + 1;
    }
    assert pieces[..i] == pieces;
  }


  // ---------------------------------------------------------------------
  // buildPage
  // ---------------------------------------------------------------------

  /** Where a page is written, and the prefix from there back to the site root. */
  function OutputPath(config: Config, pageName: string, cleanUrlPath: string): (r: (seq<string>, string))
    ensures pageName == "index.html" && cleanUrlPath == "" ==> r == ([config.outputDir, "index.html"], "")
    ensures cleanUrlPath != "" ==> r == ([config.outputDir, cleanUrlPath, "index.html"], "../")
    ensures r.1 == "" || r.1 == "../"
  {
    if pageName == "index.html" && cleanUrlPath == "" then ([config.outputDir, pageName], "")
    else if cleanUrlPath != "" then ([config.outputDir, cleanUrlPath, "index.html"], "../")
    else ([config.outputDir, pageName], "")
  }

  /** ASCII upper-casing of one character. */
  function UpperChar(c: char): char {
    if 'a' <= c <= 'z' then (c as int - 32) as char else c
  }

  /** The clean path with its first letter upper-cased, or "Dashboard" for the root. */
  function ExpectedTitle(cleanUrlPath: string): (r: string)
    ensures cleanUrlPath == "" ==> r == "Dashboard"
    ensures (cleanUrlPath != "" ==>
             |r| == |cleanUrlPath| && r[1..] == cleanUrlPath[1..] && r[0] == UpperChar(cleanUrlPath[0]))
  {
    if cleanUrlPath != "" then [UpperChar(cleanUrlPath[0])] + cleanUrlPath[1..] else "Dashboard"
  }

  /** `relativePath.slice(0, -1)`, or "." at the root. */
  function RootPath(relativePath: string): (r: string)
    ensures relativePath == "../" ==> r == ".."
    ensures relativePath == "" ==> r == "."
  {
    if relativePath != "" then relativePath[..|relativePath| - 1] else "."
  }

  const ConditionalOpen: string := "{{#if active."
  const ConditionalClose: string := "}}active{{/if}}"

  /** The template's active-class conditional for one navigation name. */
  function Conditional(name: string): string {
    ConditionalOpen + name + ConditionalClose
  }

  /**
   * `s.replace(/{{#if active\.[^}]+}}active{{\/if}}/g, '')`: scanning from
   * the left, every conditional (a non-empty name without '}') is removed.
   */
  function RemoveConditionals(s: string): string
    decreases |s|
  {
    if StartsWith(s, ConditionalOpen) && 0 < RunBefore(s[|ConditionalOpen|..], '}')
       && StartsWith(s[|ConditionalOpen| + RunBefore(s[|ConditionalOpen|..], '}')..], ConditionalClose)
    then RemoveConditionals(s[|ConditionalOpen| + RunBefore(s[|ConditionalOpen|..], '}') + |ConditionalClose|..])
    else if s == [] then []
    else [s[0]] + RemoveConditionals(s[1..])
  }

  /** The template after every substitution, in the order `buildPage` makes them. */
  function Stitch(template: string, ex: Extracted, expectedTitle: string, relativePath: string, pageType: string)
    : string
  {
    var titled := ReplaceFirst(template, "{{PAGE_TITLE}}", if ex.title != "" then ex.title else expectedTitle);
    AfterTitle(titled, ex, relativePath, pageType)
  }

  /** The substitutions that follow the title's, in order. */
  function AfterTitle(t1: string, ex: Extracted, relativePath: string, pageType: string): string {
    var t2 := ReplaceAll(t1, "{{CSS_PATH}}", relativePath + "css");
    var t3 := ReplaceAll(t2, "{{JS_PATH}}", relativePath + "js");
    var t4 := ReplaceAll(t3, "{{ROOT_PATH}}", RootPath(relativePath));
    var t5 := ReplaceFirst(t4, "{{PAGE_CONTENT}}", ex.content);
    var t6 := ReplaceFirst(t5, "{{EXTRA_HEAD}}", ex.extraHead);
    var t7 := ReplaceFirst(t6, "{{EXTRA_SCRIPTS}}", ex.extraScripts);
    Activate(t7, pageType)
  }

  /** The page's own conditional becomes `active`; every other one is removed. */
  function Activate(html: string, pageType: string): string {
    RemoveConditionals(ReplaceAll(html, Conditional(pageType), "active"))
  }

  /** `cleanUrlPath || (pageName === 'index.html' ? 'dashboard' : pageName.replace('.html', ''))` */
  function PageType(pageName: string, cleanUrlPath: string): (r: string)
    ensures cleanUrlPath != "" ==> r == cleanUrlPath
    ensures cleanUrlPath == "" && pageName == "index.html" ==> r == "dashboard"
  {
    if cleanUrlPath != "" then cleanUrlPath
    else if pageName == "index.html" then "dashboard"
    else ReplaceFirst(pageName, ".html", "")
  }

  /** `buildPage`: the file written for one page. */
  function BuildPage(config: Config, page: Page, template: string, cleanUrlPath: string): (w: Write)
    ensures w.PageFile?
    ensures w.path == OutputPath(config, page.fileName, cleanUrlPath).0
  {
    var (outputPath, relativePath) := OutputPath(config, page.fileName, cleanUrlPath);
    var ex := ExtractedFrom(page.dom);
    PageFile(outputPath, Stitch(template, ex, ExpectedTitle(cleanUrlPath), relativePath, PageType(page.fileName, cleanUrlPath)))
  }

  // ---------------------------------------------------------------------
  // Properties of the substitutions
  // ---------------------------------------------------------------------

  /** A name that can appear inside a conditional. */
  predicate PlainName(name: string) {
    name != [] && '{' !in name && '}' !in name
  }

  /** Text without '{' passes through the conditional removal unchanged. */
  lemma {:induction false} RemoveSkip(x: string, t: string)
    requires '{' !in x
    ensures RemoveConditionals(x + t) == x + RemoveConditionals(t)
    decreases |x|
  {
    if x == [] {
      assert x + t == t;
    } else {
      calc {
        RemoveConditionals(x + t);
        { RemoveSkipStep(x, t); }
        [x[0]] + RemoveConditionals(x[1..] + t);
        { RemoveSkip(x[1..], t); }
        [x[0]] + (x[1..] + RemoveConditionals(t));
        { assert [x[0]] + x[1..] == x; }
        x + RemoveConditionals(t);
      }
    }
  }

  lemma RemoveSkipStep(x: string, t: string)
    requires x != [] && '{' !in x
    ensures RemoveConditionals(x + t) == [x[0]] + RemoveConditionals(x[1..] + t)
  {
    assert (x + t)[0] == x[0] && x[0] in x;
    RemovePlainChar(x + t);
    assert (x + t)[1..] == x[1..] + t;
  }

  /** A first character other than '{' is kept. */
  lemma RemovePlainChar(s: string)
    requires s != [] && s[0] != '{'
    ensures RemoveConditionals(s) == [s[0]] + RemoveConditionals(s[1..])
  {
    assert !StartsWith(s, ConditionalOpen) by { assert ConditionalOpen[0] == '{'; }
  }

  /** A conditional is removed as a whole. */
  lemma RemoveOne(name: string, t: string)
    requires PlainName(name)
    ensures RemoveConditionals(Conditional(name) + t) == RemoveConditionals(t)
  {
    var s := Conditional(name) + t;
    var o := |ConditionalOpen|;
    assert s[..o] == ConditionalOpen;
    assert s[o..] == name + ConditionalClose + t;
    RunBeforeOf(name, ConditionalClose + t, '}');
    assert s[o..] == name + (ConditionalClose + t);
    assert RunBefore(s[o..], '}') == |name|;
    assert s[o + |name|..] == ConditionalClose + t;
    assert StartsWith(s[o + |name|..], ConditionalClose) by {
      assert (ConditionalClose + t)[..|ConditionalClose|] == ConditionalClose;
    }
    assert RemoveConditionals(s) == RemoveConditionals(s[o + |name| + |ConditionalClose|..]);
    assert s[o + |name| + |ConditionalClose|..] == t;
  }

  /** Text without '{' holds no occurrence of a pattern that starts with '{'. */
  lemma NoOccurrenceIn(x: string, t: string, pat: string)
    requires '{' !in x && pat != [] && pat[0] == '{'
    ensures forall i: nat :: i < |x| ==> !OccursAt(x + t, pat, i)
  {
    forall i: nat | i < |x| ensures !OccursAt(x + t, pat, i) {
      assert (x + t)[i] == x[i];
      assert x[i] in x;
    }
  }

  /** Where '{' appears in the closing half of a conditional. */
  lemma CloseBraces(j: nat)
    requires j < |ConditionalClose|
    ensures ConditionalClose[j] == '{' ==> j == 8 || j == 9
    ensures j == 8 ==> ConditionalClose[9] == '{' && ConditionalClose[10] == '/'
    ensures j == 9 ==> ConditionalClose[10] == '/'
  {
  }

  /** A conditional starts with "{{#", so a match needs those three characters. */
  lemma StartMismatch(s: string, pat: string, i: nat)
    requires |pat| >= 3 && pat[..3] == "{{#"
    requires i < |s|
    requires s[i] != '{' || (i + 1 < |s| && s[i + 1] != '{') || (i + 2 < |s| && s[i + 2] != '#')
    ensures !OccursAt(s, pat, i)
  {
    if i + |pat| <= |s| {
      var w := s[i..i + |pat|];
      assert w[0] == s[i] && w[1] == s[i + 1] && w[2] == s[i + 2];
      assert pat[0] == '{' && pat[1] == '{' && pat[2] == '#';
    }
  }

  /** At the start of another page's conditional, the names differ before the first '}'. */
  lemma OtherConditionalAtStart(p: string, q: string, t: string)
    requires PlainName(p) && PlainName(q) && p != q
    ensures !OccursAt(Conditional(q) + t, Conditional(p), 0)
  {
    var s := Conditional(q) + t;
    var pat := Conditional(p);
    var o := |ConditionalOpen|;
    if |pat| <= |s| {
      var w := s[..|pat|];
      if |p| < |q| {
        assert w[o + |p|] == q[|p|] && q[|p|] in q;
        assert pat[o + |p|] == '}';
      } else if |q| < |p| {
        assert w[o + |q|] == '}';
        assert pat[o + |q|] == p[|q|] && p[|q|] in p;
      } else {
        assert w[o..o + |q|] == q;
        assert pat[o..o + |p|] == p;
      }
    }
  }

  /** Another page's conditional holds no occurrence of this page's one. */
  lemma OtherConditional(p: string, q: string, t: string)
    requires PlainName(p) && PlainName(q) && p != q
    ensures forall i: nat :: i < |Conditional(q)| ==> !OccursAt(Conditional(q) + t, Conditional(p), i)
  {
    var x := Conditional(q);
    var s := x + t;
    var pat := Conditional(p);
    var o := |ConditionalOpen|;
    assert pat[..3] == "{{#";
    OtherConditionalAtStart(p, q, t);
    forall i: nat | 0 < i < |x| ensures !OccursAt(s, pat, i) {
      if i < o {
        assert s[i] == ConditionalOpen[i];
        assert i + 1 < o ==> s[i + 1] == ConditionalOpen[i + 1];
        assert i == 1 ==> s[i + 1] == '#';
        assert i > 1 ==> s[i] != '{';
        StartMismatch(s, pat, i);
      } else if i < o + |q| {
        assert s[i] == q[i - o] && q[i - o] in q;
        StartMismatch(s, pat, i);
      } else {
        var j := i - o - |q|;
        CloseBraces(j);
        assert s[i] == ConditionalClose[j];
        if j == 8 || j == 9 {
          assert s[i + 1] == ConditionalClose[j + 1];
          assert s[i + 2] == ConditionalClose[j + 2];
        }
        StartMismatch(s, pat, i);
      }
    }
  }

  /** One item of a navigation bar: the conditional for `name`, then text up to the next one. */
  datatype NavItem = NavItem(name: string, after: string)

  /** Navigation markup: some text, then each item's conditional followed by its text. */
  function NavMarkup(front: string, items: seq<NavItem>): string
    decreases |items|
  {
    if items == [] then front
    else front + (Conditional(items[0].name) + NavMarkup(items[0].after, items[1..]))
  }

  /** Markup of brace-free text and conditionals with plain names. */
  predicate PlainNav(front: string, items: seq<NavItem>) {
    '{' !in front && forall k :: 0 <= k < |items| ==> PlainName(items[k].name) && '{' !in items[k].after
  }

  /** The markup with the page's conditionals replaced by `active` and the others left. */
  function NavMarked(front: string, items: seq<NavItem>, page: string): string
    decreases |items|
  {
    if items == [] then front
    else
      var x := if items[0].name == page then "active" else Conditional(items[0].name);
      front + (x + NavMarked(items[0].after, items[1..], page))
  }

  /**
   * The navigation a page gets: each of its own conditionals reads
   * `active`, every other conditional is gone, and the text is kept.
   */
  function NavResolved(front: string, items: seq<NavItem>, page: string): (r: string)
    ensures '{' !in front && (forall k :: 0 <= k < |items| ==> '{' !in items[k].after) ==> '{' !in r
    decreases |items|
  {
    if items == [] then front
    else
      var rest := NavResolved(items[0].after, items[1..], page);
      assert forall k :: 0 <= k < |items[1..]| ==> items[1..][k] == items[k + 1];
      front + ((if items[0].name == page then "active" else "") + rest)
  }

  lemma PlainNavTail(front: string, items: seq<NavItem>)
    requires PlainNav(front, items) && items != []
    ensures PlainNav(items[0].after, items[1..]) && PlainName(items[0].name)
  {
    forall k | 0 <= k < |items[1..]| ensures PlainName(items[1..][k].name) && '{' !in items[1..][k].after {
      assert items[1..][k] == items[k + 1];
    }
  }

  /** The first step of `Activate`: only the page's own conditionals match its pattern. */
  lemma {:induction false} MarkNav(front: string, items: seq<NavItem>, page: string)
    requires PlainNav(front, items) && PlainName(page)
    ensures ReplaceAll(NavMarkup(front, items), Conditional(page), "active") == NavMarked(front, items, page)
    decreases |items|
  {
    var cp := Conditional(page);
    assert cp[0] == '{';
    if items == [] {
      AbsentWithoutBrace(front, cp);
      ReplaceAllAbsent(front, cp, "active");
    } else {
      var q := items[0].name;
      var tail := NavMarkup(items[0].after, items[1..]);
      PlainNavTail(front, items);
      MarkNav(items[0].after, items[1..], page);
      NoOccurrenceIn(front, Conditional(q) + tail, cp);
      ReplaceAllSkip(front, Conditional(q) + tail, cp, "active");
      if q == page {
        ReplaceAllFront(tail, cp, "active");
      } else {
        OtherConditional(page, q, tail);
        ReplaceAllSkip(Conditional(q), tail, cp, "active");
      }
    }
  }

  /** The second step of `Activate`: the remaining conditionals are removed. */
  lemma {:induction false} RemoveNav(front: string, items: seq<NavItem>, page: string)
    requires PlainNav(front, items)
    ensures RemoveConditionals(NavMarked(front, items, page)) == NavResolved(front, items, page)
    decreases |items|
  {
    if items == [] {
      RemoveSkip(front, []);
      assert front + [] == front;
    } else {
      var q := items[0].name;
      var tail := NavMarked(items[0].after, items[1..], page);
      var x := if q == page then "active" else Conditional(q);
      PlainNavTail(front, items);
      calc {
        RemoveConditionals(NavMarked(front, items, page));
        RemoveConditionals(front + (x + tail));
        { RemoveSkip(front, x + tail); }
        front + RemoveConditionals(x + tail);
        { RemoveMarkedItem(q, page, tail); }
        front + ((if q == page then "active" else "") + RemoveConditionals(tail));
        { RemoveNav(items[0].after, items[1..], page); }
        front + ((if q == page then "active" else "") + NavResolved(items[0].after, items[1..], page));
      }
    }
  }

  /** One item once marked: the page's `active` stays, another page's conditional goes. */
  lemma RemoveMarkedItem(q: string, page: string, tail: string)
    requires PlainName(q)
    ensures RemoveConditionals((if q == page then "active" else Conditional(q)) + tail) ==
      (if q == page then "active" else "") + RemoveConditionals(tail)
  {
    if q == page {
      assert '{' !in "active";
      RemoveSkip("active", tail);
    } else {
      RemoveOne(q, tail);
      assert "" + RemoveConditionals(tail) == RemoveConditionals(tail);
    }
  }

  /**
   * A whole navigation bar, its items in any order and the page's own item
   * anywhere or nowhere: the page's conditionals become `active`, the others
   * disappear, and the text around them is kept.
   */
  lemma NavigationResolved(front: string, items: seq<NavItem>, page: string)
    requires PlainNav(front, items) && PlainName(page)
    ensures Activate(NavMarkup(front, items), page) == NavResolved(front, items, page)
  {
    MarkNav(front, items, page);
    RemoveNav(front, items, page);
  }

  /** Text without '{' contains no pattern that starts with '{'. */
  lemma AbsentWithoutBrace(s: string, pat: string)
    requires '{' !in s && pat != [] && pat[0] == '{'
    ensures !Contains(s, pat)
  {
    forall i: nat | i <= |s| ensures !OccursAt(s, pat, i) {
      if i + |pat| <= |s| {
        assert s[i..i + |pat|][0] == s[i] && s[i] in s;
      }
    }
  }

  /** Text without '{' passes every substitution after the title's unchanged. */
  lemma AfterTitlePlain(t: string, ex: Extracted, relativePath: string, pageType: string)
    requires '{' !in t
    ensures AfterTitle(t, ex, relativePath, pageType) == t
  {
    AbsentWithoutBrace(t, "{{CSS_PATH}}");
    AbsentWithoutBrace(t, "{{JS_PATH}}");
    AbsentWithoutBrace(t, "{{ROOT_PATH}}");
    AbsentWithoutBrace(t, "{{PAGE_CONTENT}}");
    AbsentWithoutBrace(t, "{{EXTRA_HEAD}}");
    AbsentWithoutBrace(t, "{{EXTRA_SCRIPTS}}");
    assert Conditional(pageType)[0] == '{';
    AbsentWithoutBrace(t, Conditional(pageType));
    ReplaceAllAbsent(t, "{{CSS_PATH}}", relativePath + "css");
    ReplaceAllAbsent(t, "{{JS_PATH}}", relativePath + "js");
    ReplaceAllAbsent(t, "{{ROOT_PATH}}", RootPath(relativePath));
    assert ReplaceFirst(t, "{{PAGE_CONTENT}}", ex.content) == t;
    assert ReplaceFirst(t, "{{EXTRA_HEAD}}", ex.extraHead) == t;
    assert ReplaceFirst(t, "{{EXTRA_SCRIPTS}}", ex.extraScripts) == t;
    ReplaceAllAbsent(t, Conditional(pageType), "active");
    RemoveSkip(t, []);
    assert t + [] == t;
  }

  /** A template without any '{' is written as it is. */
  lemma PlainTemplateUnchanged(template: string, ex: Extracted, expectedTitle: string, relativePath: string, pageType: string)
    requires '{' !in template
    ensures Stitch(template, ex, expectedTitle, relativePath, pageType) == template
  {
    AbsentWithoutBrace(template, "{{PAGE_TITLE}}");
    AfterTitlePlain(template, ex, relativePath, pageType);
  }

  /** The first occurrence of a pattern that starts with '{', after text without '{', is the one replaced. */
  lemma ReplaceFirstAfterPlain(x: string, pat: string, y: string, rep: string)
    requires '{' !in x && pat != [] && pat[0] == '{'
    ensures ReplaceFirst(x + pat + y, pat, rep) == x + rep + y
  {
    var s := x + pat + y;
    assert s == x + (pat + y);
    NoOccurrenceIn(x, pat + y, pat);
    assert s[|x|..|x| + |pat|] == pat;
    assert OccursAt(s, pat, |x|);
    var i: nat :| OccursAt(s, pat, i) && (forall j: nat :: j < i ==> !OccursAt(s, pat, j))
      && ReplaceFirst(s, pat, rep) == s[..i] + rep + s[i + |pat|..];
    assert i == |x|;
    assert s[..|x|] == x;
    assert s[|x| + |pat|..] == y;
  }

  /** Text without '{' in front of a string is left alone by `replace` of a pattern starting with '{'. */
  lemma {:induction false} ReplaceFirstAfterPrefix(x: string, y: string, pat: string, rep: string)
    requires '{' !in x && pat != [] && pat[0] == '{'
    ensures ReplaceFirst(x + y, pat, rep) == x + ReplaceFirst(y, pat, rep)
    decreases |x|
  {
    if x == [] {
      assert x + y == y;
    } else {
      assert '{' !in x[1..];
      ReplaceFirstAfterPrefix(x[1..], y, pat, rep);
      ReplaceFirstPrefixStep(x, y, pat, rep);
    }
  }

  lemma ReplaceFirstPrefixStep(x: string, y: string, pat: string, rep: string)
    requires x != [] && '{' !in x && pat != [] && pat[0] == '{'
    requires ReplaceFirst(x[1..] + y, pat, rep) == x[1..] + ReplaceFirst(y, pat, rep)
    ensures ReplaceFirst(x + y, pat, rep) == x + ReplaceFirst(y, pat, rep)
  {
    ReplaceFirstConsStep(x, y, pat, rep);
    ConsAppend(x, ReplaceFirst(y, pat, rep));
  }

  lemma ReplaceFirstConsStep(x: string, y: string, pat: string, rep: string)
    requires x != [] && '{' !in x && pat != [] && pat[0] == '{'
    ensures ReplaceFirst(x + y, pat, rep) == [x[0]] + ReplaceFirst(x[1..] + y, pat, rep)
  {
    var s := x + y;
    assert s[1..] == x[1..] + y;
    assert s[0] == x[0] && x[0] in x;
    ReplaceFirstStep(s, pat, rep);
  }

  lemma ConsAppend(x: string, r: string)
    requires x != []
    ensures [x[0]] + (x[1..] + r) == x + r
  {
    assert [x[0]] + x[1..] == x;
  }

  /** A first character other than '{' is kept by `replace` of a pattern starting with '{'. */
  lemma ReplaceFirstStep(s: string, pat: string, rep: string)
    requires s != [] && s[0] != '{' && pat != [] && pat[0] == '{'
    ensures ReplaceFirst(s, pat, rep) == [s[0]] + ReplaceFirst(s[1..], pat, rep)
  {
    assert !StartsWith(s, pat);
    if IndexOf(s[1..], pat).Some? {
      ReplaceFirstStepAt(s, pat, rep, IndexOf(s[1..], pat).value);
    } else {
      ReplaceFirstStepNone(s, pat, rep);
    }
  }

  lemma ReplaceFirstStepAt(s: string, pat: string, rep: string, k: nat)
    requires s != [] && IndexOf(s[1..], pat) == Some(k) && IndexOf(s, pat) == Some(k + 1)
    ensures ReplaceFirst(s, pat, rep) == [s[0]] + ReplaceFirst(s[1..], pat, rep)
  {
    ReplaceFirstAt(s[1..], pat, rep, k);
    ReplaceFirstAt(s, pat, rep, k + 1);
    SliceCons(s, k, |pat|, rep);
  }

  lemma ReplaceFirstStepNone(s: string, pat: string, rep: string)
    requires s != [] && IndexOf(s[1..], pat) == None && IndexOf(s, pat) == None
    ensures ReplaceFirst(s, pat, rep) == [s[0]] + ReplaceFirst(s[1..], pat, rep)
  {
    ReplaceFirstNone(s[1..], pat, rep);
    ReplaceFirstNone(s, pat, rep);
    assert [s[0]] + s[1..] == s;
  }

  lemma ReplaceFirstAt(s: string, pat: string, rep: string, k: nat)
    requires IndexOf(s, pat) == Some(k)
    ensures k + |pat| <= |s|
    ensures ReplaceFirst(s, pat, rep) == s[..k] + rep + s[k + |pat|..]
  {
  }

  lemma ReplaceFirstNone(s: string, pat: string, rep: string)
    requires IndexOf(s, pat) == None
    ensures ReplaceFirst(s, pat, rep) == s
  {
  }

  lemma SliceCons(s: string, k: nat, n: nat, rep: string)
    requires s != [] && k + n <= |s[1..]|
    ensures s[..k + 1] + rep + s[k + 1 + n..] == [s[0]] + (s[1..][..k] + rep + s[1..][k + n..])
  {
    assert s[..k + 1] == [s[0]] + s[1..][..k];
    assert s[k + 1 + n..] == s[1..][k + n..];
  }

  /** Text without '{' in front of a string is left alone by a global replacement of a pattern starting with '{'. */
  lemma ReplaceAllAfterPrefix(x: string, y: string, pat: string, rep: string)
    requires '{' !in x && pat != [] && pat[0] == '{'
    ensures ReplaceAll(x + y, pat, rep) == x + ReplaceAll(y, pat, rep)
  {
    NoOccurrenceIn(x, y, pat);
    ReplaceAllSkip(x, y, pat, rep);
  }

  /** Text without '{' in front of a template is copied as it is by every substitution after the title's. */
  lemma AfterTitlePrefix(x: string, y: string, ex: Extracted, relativePath: string, pageType: string)
    requires '{' !in x
    ensures AfterTitle(x + y, ex, relativePath, pageType) == x + AfterTitle(y, ex, relativePath, pageType)
  {
    var y2 := ReplaceAll(y, "{{CSS_PATH}}", relativePath + "css");
    var y3 := ReplaceAll(y2, "{{JS_PATH}}", relativePath + "js");
    var y4 := ReplaceAll(y3, "{{ROOT_PATH}}", RootPath(relativePath));
    var y5 := ReplaceFirst(y4, "{{PAGE_CONTENT}}", ex.content);
    var y6 := ReplaceFirst(y5, "{{EXTRA_HEAD}}", ex.extraHead);
    var y7 := ReplaceFirst(y6, "{{EXTRA_SCRIPTS}}", ex.extraScripts);
    ReplaceAllAfterPrefix(x, y, "{{CSS_PATH}}", relativePath + "css");
    ReplaceAllAfterPrefix(x, y2, "{{JS_PATH}}", relativePath + "js");
    ReplaceAllAfterPrefix(x, y3, "{{ROOT_PATH}}", RootPath(relativePath));
    ReplaceFirstAfterPrefix(x, y4, "{{PAGE_CONTENT}}", ex.content);
    ReplaceFirstAfterPrefix(x, y5, "{{EXTRA_HEAD}}", ex.extraHead);
    ReplaceFirstAfterPrefix(x, y6, "{{EXTRA_SCRIPTS}}", ex.extraScripts);
    assert Conditional(pageType)[0] == '{';
    ReplaceAllAfterPrefix(x, y7, Conditional(pageType), "active");
    RemoveSkip(x, ReplaceAll(y7, Conditional(pageType), "active"));
  }

  /**
   * The title placeholder gets the extracted title, or the expected title
   * when none was extracted; the text before it is kept and the text after
   * it goes through the remaining substitutions.
   */
  lemma TitleFilled(a: string, b: string, ex: Extracted, expectedTitle: string, relativePath: string, pageType: string)
    requires '{' !in a && '{' !in ex.title && '{' !in expectedTitle
    ensures Stitch(a + "{{PAGE_TITLE}}" + b, ex, expectedTitle, relativePath, pageType) ==
      a + (if ex.title != "" then ex.title else expectedTitle) + AfterTitle(b, ex, relativePath, pageType)
  {
    var title := if ex.title != "" then ex.title else expectedTitle;
    ReplaceFirstAfterPlain(a, "{{PAGE_TITLE}}", b, title);
    assert '{' !in a + title;
    AfterTitlePrefix(a + title, b, ex, relativePath, pageType);
  }

  // ---------------------------------------------------------------------
  // buildPages
  // ---------------------------------------------------------------------

  predicate IsHtml(page: Page) {
    EndsWith(page.fileName, ".html")
  }

  /** `page.replace('.html', '')`: the first occurrence goes. */
  function PageName(fileName: string): string {
    ReplaceFirst(fileName, ".html", "")
  }

  /** The files written for one page of the directory listing. */
  function PageWrites(config: Config, page: Page, template: string): (ws: seq<Write>)
    ensures !IsHtml(page) ==> ws == []
    ensures IsHtml(page) && PageName(page.fileName) == "index" ==> ws == [BuildPage(config, page, template, "")]
    ensures (IsHtml(page) && PageName(page.fileName) != "index" ==>
             |ws| == 2 && ws[0] == BuildPage(config, page, template, PageName(page.fileName))
             && ws[1] == RedirectFile([config.outputDir, config.pagesDir, page.fileName], "/" + PageName(page.fileName) + "/"))
    ensures (IsHtml(page) && PageName(page.fileName) != "index" && PageName(page.fileName) != "" ==>
             ws[0].path == [config.outputDir, PageName(page.fileName), "index.html"])
  {
    if !IsHtml(page) then []
    else
      var pageName := PageName(page.fileName);
      if pageName == "index" then [BuildPage(config, page, template, "")]
      else [BuildPage(config, page, template, pageName),
            RedirectFile([config.outputDir, config.pagesDir, page.fileName], "/" + pageName + "/")]
  }

  /** The files written for a listing, in order. */
  function Built(config: Config, pages: seq<Page>, template: string): seq<Write> {
    if pages == [] then []
    else Built(config, pages[..|pages| - 1], template) + PageWrites(config, pages[|pages| - 1], template)
  }

  /** `buildPages`: every page in the listing, in order. */
  method BuildAll(config: Config, pages: seq<Page>, template: string) returns (writes: seq<Write>)
    ensures writes == Built(config, pages, template)
  {
    writes := [];
    var i := 0;
    while i < |pages|
      invariant 0 <= i <= |pages|
      invariant writes == Built(config, pages[..i], template)
    {
      BuiltPrefix(config, pages, i, template);
      var pageWrites := BuildOne(config, pages[i], template);
      writes := writes + pageWrites;
      i := i + 1;
    }
    assert pages[..|pages|] == pages;
  }

  /** One pass of the loop in `buildPages`: skip, build the index, or build a page and its redirect. */
  method BuildOne(config: Config, page: Page, template: string) returns (writes: seq<Write>)
    ensures writes == PageWrites(config, page, template)
  {
    if !EndsWith(page.fileName, ".html") {
      return [];
    }
    var pageName := ReplaceFirst(page.fileName, ".html", "");
    if pageName == "index" {
      return [BuildPage(config, page, template, "")];
    }
    var built := BuildPage(config, page, template, pageName);
    var redirect := RedirectFile([config.outputDir, config.pagesDir, page.fileName], "/" + pageName + "/");
    writes := [built, redirect];
  }

  lemma BuiltSnoc(config: Config, pages: seq<Page>, page: Page, template: string)
    ensures Built(config, pages + [page], template) == Built(config, pages, template) + PageWrites(config, page, template)
  {
    var s := pages + [page];
    assert s[..|s| - 1] == pages && s[|s| - 1] == page;
  }

  /** One more page of the listing: its files follow those of the pages before it. */
  lemma BuiltPrefix(config: Config, pages: seq<Page>, i: nat, template: string)
    requires i < |pages|
    ensures Built(config, pages[..i + 1], template) == Built(config, pages[..i], template) + PageWrites(config, pages[i], template)
  {
    assert pages[..i + 1] == pages[..i] + [pages[i]];
    BuiltSnoc(config, pages[..i], pages[i], template);
  }

  lemma {:induction false} OnlyHtmlBuilt(config: Config, pages: seq<Page>, template: string)
    ensures Built(config, pages, template) == Built(config, Filter(pages, IsHtml), template)
  {
    if pages != [] {
      var init := pages[..|pages| - 1];
      var last := pages[|pages| - 1];
      assert pages == init + [last];
      OnlyHtmlBuilt(config, init, template);
      FilterSnoc(init, last, IsHtml);
      BuiltSnoc(config, init, last, template);
      assert Built(config, pages, template) == Built(config, init, template) + PageWrites(config, last, template);
      var f := Filter(init, IsHtml);
      if IsHtml(last) {
        assert Filter(pages, IsHtml) == f + [last];
        BuiltSnoc(config, f, last, template);
        assert Built(config, Filter(pages, IsHtml), template) == Built(config, f, template) + PageWrites(config, last, template);
      } else {
        assert Filter(pages, IsHtml) == f;
        assert PageWrites(config, last, template) == [];
      }
    }
  }
}
