/** The dashboard frame: the sidebar menu's navigation, its active item, and the page title. */
module DashboardLayout {
  import opened Wrappers
  import opened Text
  import HP = HomePage

  const MenuTargets: seq<string> := ["home", "courses", "create-course", "notes", "flashcards",
    "study-sessions", "insights", "challenges", "ai-solver", "popularCourses"]

  /** `handleMenuClick`'s target: home, the last selected course (when one is stored and not
      empty) or the course list, or the dashboard page of the item. */
  function MenuTarget(to: string, lastCourse: Option<string>): string {
    if to == "home" then "/home"
    else if to == "courses" then
      (if lastCourse.Some? && lastCourse.value != "" then "/dashboard/courses/" + lastCourse.value
       else "/dashboard/courses")
    else "/dashboard/" + to
  }

  /** The active test of a menu item against the current path. */
  predicate IsActive(to: string, pathname: string) {
    if to == "home" then pathname == "/home"
    else if to == "courses" then StartsWith(pathname, "/dashboard/courses")
    else Contains(pathname, "/dashboard/" + to)
  }

  lemma StartsWithConcat(a: string, b: string)
    ensures StartsWith(a + b, a)
  {
    assert (a + b)[..|a|] == a;
  }

  /** After a click the item clicked is active. */
  lemma ClickedItemIsActive(to: string, lastCourse: Option<string>)
    ensures IsActive(to, MenuTarget(to, lastCourse))
  {
    if to == "courses" && lastCourse.Some? && lastCourse.value != "" {
      assert "/dashboard/courses/" + lastCourse.value == "/dashboard/courses" + ("/" + lastCourse.value);
      StartsWithConcat("/dashboard/courses", "/" + lastCourse.value);
    } else if to != "home" && to != "courses" {
      StartsWithConcat("/dashboard/" + to, "");
      assert "/dashboard/" + to + "" == "/dashboard/" + to;
    }
  }

  /** Clicking a course on the home page and later the Courses menu item opens the same
      course page. */
  lemma CoursesItemReturnsToLastCourse(courseId: int)
    ensures MenuTarget("courses", Some(HP.CourseClick(courseId).0)) == HP.CourseClick(courseId).1
  {
    assert |IntDecimal(courseId)| >= 1;
  }

  /** The title chain: the first path fragment present picks the title. */
  const TitleRules: seq<(string, string)> := [
    ("/home", "Dashboard"), ("/courses", "Courses"), ("/notes", "Notes"),
    ("/flashcards", "Flashcards"), ("/study-sessions", "Study Sessions"), ("/insights", "Insights"),
    ("/challenges", "Challenges"), ("/ai-solver", "AI Solver"), ("/create-course", "Create Course")]

  function FirstMatchingTitle(pathname: string, rules: seq<(string, string)>): string
    decreases |rules|
  {
    if rules == [] then "Dashboard"
    else if Contains(pathname, rules[0].0) then rules[0].1
    else FirstMatchingTitle(pathname, rules[1..])
  }

  function Title(pathname: string): string {
    FirstMatchingTitle(pathname, TitleRules)
  }

  /** The title when no rule's fragment is in the path: the fallback "Dashboard". */
  lemma {:induction false} TitleWithoutMatch(pathname: string, rules: seq<(string, string)>)
    requires forall i :: 0 <= i < |rules| ==> !Contains(pathname, rules[i].0)
    ensures FirstMatchingTitle(pathname, rules) == "Dashboard"
    decreases |rules|
  {
    if rules != [] {
      assert !Contains(pathname, rules[0].0);
      forall i | 0 <= i < |rules[1..]|
        ensures !Contains(pathname, rules[1..][i].0)
      {
        assert rules[1..][i] == rules[i + 1];
      }
      TitleWithoutMatch(pathname, rules[1..]);
    }
  }

  /** The title when the first rule whose fragment the path contains is rule `i`: its title,
      whatever the later rules say. */
  lemma {:induction false} TitleAtFirstMatch(pathname: string, rules: seq<(string, string)>, i: nat)
    requires i < |rules| && Contains(pathname, rules[i].0)
    requires forall j :: 0 <= j < i ==> !Contains(pathname, rules[j].0)
    ensures FirstMatchingTitle(pathname, rules) == rules[i].1
    decreases i
  {
    if i > 0 {
      assert !Contains(pathname, rules[0].0);
      assert rules[1..][i - 1] == rules[i];
      forall j | 0 <= j < i - 1
        ensures !Contains(pathname, rules[1..][j].0)
      {
        assert rules[1..][j] == rules[j + 1];
      }
      TitleAtFirstMatch(pathname, rules[1..], i - 1);
    }
  }

  class Layout {
    var pathname: string
    var open: bool

    constructor (pathname: string)
      ensures this.pathname == pathname && !open
    {
      this.pathname := pathname;
      open := false;
    }

    /** The hamburger button. */
    method ToggleSidebar()
      modifies this
      ensures open == !old(open) && pathname == old(pathname)
    {
      open := !open;
    }

    /** `handleMenuClick`: navigate to the item's target and close the sidebar; the clicked
        item becomes the active one. */
    method HandleMenuClick(to: string, lastCourse: Option<string>)
      modifies this
      ensures pathname == MenuTarget(to, lastCourse) && !open
      ensures IsActive(to, pathname)
    {
      pathname := MenuTarget(to, lastCourse);
      open := false;
      ClickedItemIsActive(to, lastCourse);
    }
  }
}
