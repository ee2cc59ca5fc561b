/**
 * Section routing of the prototype's pages: which navigation item a
 * pathname highlights, and which link clicks get the page transition.
 */
module Nav {

  import opened Wrappers
  import Strings

  /** The six sections with a navigation item besides the dashboard. */
  const Sections: seq<string> := ["projects", "revenue", "writing", "ai-library", "resources", "books"]

  /** Every navigation class. */
  const NavClasses: set<string> := {"nav-dashboard", "nav-projects", "nav-revenue", "nav-writing",
                                    "nav-ai-library", "nav-resources", "nav-books"}

  /**
   * `path.match(/\/([^\/]+)/)[1]`: the first '/' followed by a non-'/'
   * character starts the match; the group takes every non-'/' after it.
   */
  function FirstSegment(path: string): (r: Option<string>)
    ensures r.Some? ==> r.value != [] && '/' !in r.value
    decreases |path|
  {
    if |path| < 2 then None
    else if path[0] == '/' && path[1] != '/' then
      var n := Strings.RunBefore(path[1..], '/');
      Some(path[1..1 + n])
    else FirstSegment(path[1..])
  }

  /** The pathname after the root and first-directory normalisation. */
  function Normalize(path: string): string {
    if path == "/" || path == "/index.html" then "/"
    else match FirstSegment(path)
      case Some(seg) => "/" + seg
      case None => path
  }

  /** The if-chain from a normalised path to a class, defaulting to the dashboard. */
  function ClassOf(path: string): string {
    if path == "/" then "nav-dashboard"
    else if path == "/projects" then "nav-projects"
    else if path == "/revenue" then "nav-revenue"
    else if path == "/writing" then "nav-writing"
    else if path == "/ai-library" then "nav-ai-library"
    else if path == "/resources" then "nav-resources"
    else if path == "/books" then "nav-books"
    else "nav-dashboard"
  }

  /** `setActiveNavItem`: the class whose items get `active`. */
  function ActiveNavClass(pathname: string): (c: string)
    ensures c in NavClasses
  {
    ClassOf(Normalize(pathname))
  }

  /** The root page highlights the dashboard. */
  lemma RootIsDashboard()
    ensures ActiveNavClass("/") == "nav-dashboard"
    ensures ActiveNavClass("/index.html") == "nav-dashboard"
  {
  }

  /** Only the first directory of a path counts. */
  lemma {:induction false} FirstSegmentOf(seg: string, rest: string)
    requires seg != [] && '/' !in seg
    requires rest == [] || rest[0] == '/'
    ensures FirstSegment("/" + seg + rest) == Some(seg)
  {
    var path := "/" + seg + rest;
    assert path[1..] == seg + rest;
    Strings.RunBeforeOf(seg, rest, '/');
    assert path[1..1 + |seg|] == seg;
  }

  /** Each known section has its own class. */
  lemma SectionClass(i: nat)
    requires i < |Sections|
    ensures ClassOf("/" + Sections[i]) == "nav-" + Sections[i]
  {
    if i < 3 {
      SectionClassesFirst();
    } else {
      SectionClassesLast();
    }
  }

  lemma SectionClassesFirst()
    ensures ClassOf("/" + Sections[0]) == "nav-" + Sections[0]
    ensures ClassOf("/" + Sections[1]) == "nav-" + Sections[1]
    ensures ClassOf("/" + Sections[2]) == "nav-" + Sections[2]
  {
    assert "/" + Sections[0] == "/projects";
    assert "/" + Sections[1] == "/revenue";
    assert "/" + Sections[2] == "/writing";
    assert "/writing"[1] != "/revenue"[1];
  }

  lemma SectionClassesLast()
    ensures ClassOf("/" + Sections[3]) == "nav-" + Sections[3]
    ensures ClassOf("/" + Sections[4]) == "nav-" + Sections[4]
    ensures ClassOf("/" + Sections[5]) == "nav-" + Sections[5]
  {
    assert "/" + Sections[3] == "/ai-library";
    assert "/" + Sections[4] == "/resources";
    assert "/" + Sections[5] == "/books";
    assert "/writing"[1] != "/revenue"[1];
  }

  /** A path inside a known section highlights that section, whatever follows it. */
  lemma SectionPath(i: nat, rest: string)
    requires i < |Sections|
    requires rest == [] || rest[0] == '/'
    ensures ActiveNavClass("/" + Sections[i] + rest) == "nav-" + Sections[i]
  {
    var seg := Sections[i];
    assert seg != [] && '/' !in seg && seg[0] != 'i' by {
      if i == 0 { assert seg == "projects"; }
      else if i == 1 { assert seg == "revenue"; }
      else if i == 2 { assert seg == "writing"; }
      else if i == 3 { assert seg == "ai-library"; }
      else if i == 4 { assert seg == "resources"; }
      else { assert seg == "books"; }
    }
    var path := "/" + seg + rest;
    FirstSegmentOf(seg, rest);
    assert path[1] == seg[0];
    assert "/index.html"[1] == 'i';
    assert |path| > 1;
    assert Normalize(path) == "/" + seg;
    SectionClass(i);
  }

  /** Any other first directory falls back to the dashboard. */
  lemma UnknownSection(seg: string, rest: string)
    requires seg != [] && '/' !in seg && seg !in Sections
    requires rest == [] || rest[0] == '/'
    requires "/" + seg + rest != "/index.html"
    ensures ActiveNavClass("/" + seg + rest) == "nav-dashboard"
  {
    FirstSegmentOf(seg, rest);
    assert "/" + seg + rest != "/" by { assert |"/" + seg + rest| > 1; }
    assert Normalize("/" + seg + rest) == "/" + seg;
  }

  // ---------------------------------------------------------------------
  // Link clicks
  // ---------------------------------------------------------------------

  datatype Link = Link(href: string, target: string, download: bool, classes: set<string>)

  datatype Click = Click(metaKey: bool, ctrlKey: bool, shiftKey: bool)

  /** The internal-link selector of `setupSmoothPageTransitions`. */
  predicate Internal(href: string) {
    Strings.StartsWith(href, "/") || Strings.StartsWith(href, "./") || Strings.StartsWith(href, "../")
    || Strings.StartsWith(href, "index.html") || Strings.StartsWith(href, "pages/")
  }

  /** Whether a click on the link replaces the default navigation with the transition. */
  function Intercepted(link: Link, click: Click): (r: bool)
    ensures r ==> Internal(link.href)
    ensures r ==> link.target != "_blank" && !link.download
    ensures r ==> !(click.metaKey || click.ctrlKey || click.shiftKey)
    ensures r ==> !Strings.StartsWith(link.href, "#")
  {
    // Only selected internal links without `target=_blank` or `download` get the handler.
    if !Internal(link.href) || link.target == "_blank" || link.download then false
    else if click.metaKey || click.ctrlKey || click.shiftKey then false
    else if Strings.StartsWith(link.href, "#") then false
    else true
  }

  /** A plain click on an internal, same-tab, non-download link is always intercepted. */
  lemma PlainClickIntercepted(link: Link)
    requires Internal(link.href) && link.target != "_blank" && !link.download
    ensures Intercepted(link, Click(false, false, false))
  {
  }

  /** `updateActiveNavigationFromLink`: the clicked link becomes active only when it is a navigation item. */
  function ActivatesLink(link: Link): (r: bool)
    ensures r <==> exists c :: c in link.classes && c in NavClasses
  {
    "nav-dashboard" in link.classes || "nav-projects" in link.classes || "nav-revenue" in link.classes
    || "nav-writing" in link.classes || "nav-ai-library" in link.classes || "nav-resources" in link.classes
    || "nav-books" in link.classes
  }
}
