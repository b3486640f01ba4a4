/** The admin shell: which navigation entry is highlighted, the breadcrumb
    text, and the mobile sidebar's open flag. */
module Layout {
  import opened Strings

  datatype NavItem = NavItem(path: string, caption: string)

  /** Lines 12-17. */
  const NavItems := [NavItem("/", "Overview"), NavItem("/posts", "Blog Posts"),
                     NavItem("/pages", "Static Pages"), NavItem("/media", "Media Library")]

  /** Line 54. */
  predicate IsActive(pathname: string, itemPath: string) {
    pathname == itemPath || (itemPath != "/" && StartsWith(pathname, itemPath))
  }

  /** The root entry is highlighted only on the root itself. */
  lemma RootActiveIff(pathname: string)
    ensures IsActive(pathname, "/") <==> pathname == "/"
  {
  }

  /** Another entry is highlighted on every path that starts with its own,
      with no check for a segment boundary. */
  lemma PrefixActive(pathname: string, itemPath: string)
    requires itemPath != "/"
    ensures IsActive(pathname, itemPath) <==> StartsWith(pathname, itemPath)
    ensures IsActive("/postsX", "/posts")
  {
    assert "/postsX"[..6] == "/posts";
  }

  /** Whatever the path, at most one of the four entries is highlighted. */
  lemma AtMostOneActive(pathname: string, i: nat, j: nat)
    requires i < j < |NavItems|
    ensures !(IsActive(pathname, NavItems[i].path) && IsActive(pathname, NavItems[j].path))
  {
    var a, b := NavItems[i].path, NavItems[j].path;
    assert b != "/" && |b| == 6;
    if i > 0 {
      assert |a| == 6 && a != b && a[2] != b[2];
      SharedPrefixChar(pathname, a, b, 2);
    }
  }

  /** Two prefixes of one string agree wherever both are defined. */
  lemma SharedPrefixChar(s: string, a: string, b: string, k: nat)
    ensures StartsWith(s, a) && StartsWith(s, b) && k < |a| && k < |b| ==> a[k] == b[k]
  {
    if StartsWith(s, a) && StartsWith(s, b) && k < |a| && k < |b| {
      assert a[k] == s[..|a|][k] == s[k] == s[..|b|][k] == b[k];
    }
  }

  /** `s.split('/')`. */
  function Split(s: string): (parts: seq<string>)
    ensures |parts| >= 1
  {
    if s == [] then [""]
    else if s[0] == '/' then [""] + Split(s[1..])
    else var rest := Split(s[1..]); [[s[0]] + rest[0]] + rest[1..]
  }

  /** The first part of a split runs up to the first `/`. */
  lemma {:induction false} SplitFirst(a: string, b: string)
    requires '/' !in a && (b == [] || b[0] == '/')
    ensures Split(a + b)[0] == a
  {
    if a == [] {
      assert a + b == b;
    } else {
      assert (a + b)[1..] == a[1..] + b;
      SplitFirst(a[1..], b);
      assert a == [a[0]] + a[1..];
    }
  }

  /** Line 98; `None` is an `undefined` part, which shows nothing. */
  function Breadcrumb(pathname: string): Option<string> {
    if pathname == "/" then Some("Overview")
    else
      var parts := Split(pathname);
      if |parts| > 1 then Some(parts[1]) else None
  }

  /** On a path `/segment...` other than the root, the breadcrumb is the
      text between the first and the second `/`. */
  lemma BreadcrumbSegment(segment: string, rest: string)
    requires '/' !in segment && (rest == [] || rest[0] == '/')
    requires segment != [] || rest != []
    ensures Breadcrumb("/" + segment + rest) == Some(segment)
  {
    var p := "/" + segment + rest;
    assert p[1..] == segment + rest;
    SplitFirst(segment, rest);
  }

  lemma BreadcrumbExamples()
    ensures Breadcrumb("/") == Some("Overview")
    ensures Breadcrumb("/posts/new") == Some("posts")
  {
    BreadcrumbSegment("posts", "/new");
    assert "/" + "posts" + "/new" == "/posts/new";
  }

  datatype SidebarEvent = MenuButton | Backdrop | CloseButton | NavLink

  class Shell {
    var sidebarOpen: bool

    /** Line 10. */
    constructor()
      ensures !sidebarOpen
    {
      sidebarOpen := false;
    }

    /** Lines 19, 27, 45 and 59: the menu button flips the flag; the
        backdrop, the close button and a navigation link close the sidebar. */
    method Handle(e: SidebarEvent)
      modifies this
      ensures sidebarOpen == (e == MenuButton && !old(sidebarOpen))
    {
      if e == MenuButton {
        sidebarOpen := !sidebarOpen;
      } else {
        sidebarOpen := false;
      }
    }
  }
}
