/** `open_submenu`: the fixed table from a time type to the labels of the
    cascading "Time Type" menu and the way each label is matched. */
module Menus {
  import opened Navigation
  import Allocation

  /** How a menu item's caption is matched against a label. */
  datatype MatchMode = ExactText | ContainsText

  /** The `xpath_format` for a match mode: the last `div` whose text is the
      label, or whose text contains it. */
  function FormatFor(mode: MatchMode): XPathFormat {
    match mode
    case ExactText => XPathFormat("(//div[text() = '", "'])[last()]")
    case ContainsText => XPathFormat("(//div[contains(text(), '", "')])[last()]")
  }

  /** The menu a time type opens: a match mode and the labels clicked in turn. */
  datatype Menu = Menu(mode: MatchMode, labels: seq<string>)

  /** The result of the table lookup: a menu, or nothing for an unknown type. */
  datatype Selection = Selected(menu: Menu) | NoSelection

  const ADMIN_PATH: seq<string> := ["Project Plan Tasks", "Education Advisory Board", "All",
                                    "Education Advisory Board > All > Admin/Other"]
  const STUDENT_PATH: seq<string> := ["Project Plan Tasks", "Education Advisory Board", "EAB",
                                      "Education Advisory Board > EAB > Student Platform"]

  /** The branch of `open_submenu` on `time_type`. */
  function MenuFor(timeType: string): Selection {
    if timeType == "admin" then Selected(Menu(ExactText, ADMIN_PATH))
    else if timeType == "student" then Selected(Menu(ContainsText, STUDENT_PATH))
    else NoSelection
  }

  /** `admin` opens the four-label admin path with exact matching, `student`
      the four-label EAB path with contains matching, and any other time
      type selects nothing. Both paths start at "Project Plan Tasks" and
      "Education Advisory Board". */
  lemma MenuTable(timeType: string)
    ensures MenuFor("admin") == Selected(Menu(ExactText, ADMIN_PATH))
    ensures MenuFor("student") == Selected(Menu(ContainsText, STUDENT_PATH))
    ensures timeType != "admin" && timeType != "student" ==> MenuFor(timeType) == NoSelection
    ensures MenuFor(timeType).Selected? ==>
      var m := MenuFor(timeType).menu;
      |m.labels| == 4 && m.labels[0] == "Project Plan Tasks" && m.labels[1] == "Education Advisory Board"
  {
  }

  /** Every time type the allocation generator produces has a menu, so the
      driver never silently skips a distribution entry. */
  lemma {:induction false} EveryCategoryHasAMenu(c: Allocation.Category)
    ensures MenuFor(c.Key()).Selected?
    ensures c == Allocation.Student ==> MenuFor(c.Key()).menu.mode == ContainsText
    ensures c == Allocation.Admin ==> MenuFor(c.Key()).menu.mode == ExactText
  {
    match c
    case Student => assert c.Key() == "student";
    case Admin => assert c.Key() == "admin";
  }

  /** The two match modes give different XPaths for the same label. */
  lemma {:induction false} ModesDiffer(menu: string)
    ensures Format(FormatFor(ExactText), menu) != Format(FormatFor(ContainsText), menu)
  {
    var e := Format(FormatFor(ExactText), menu);
    var c := Format(FormatFor(ContainsText), menu);
    assert e[7] == 't' && c[7] == 'c';
  }

  /** What `open_submenu` did: traversed a menu with this outcome, or
      opened nothing because the time type has no menu. */
  datatype Opened = Traversed(outcome: Outcome) | NotOpened

  /** `open_submenu`: traverse the menu of `timeType`, or do nothing at all
      for a type the table does not know. */
  method OpenSubmenu(driver: Driver, timeType: string) returns (result: Opened)
    modifies driver
    ensures MenuFor(timeType) == NoSelection ==>
      result == NotOpened && unchanged(driver)
    ensures MenuFor(timeType).Selected? ==>
      var m := MenuFor(timeType).menu;
      var t := Traverse(old(driver.script), MenuRequests(FormatFor(m.mode), m.labels));
      && result == Traversed(t.outcome)
      && driver.requests == old(driver.requests) + t.requests
      && driver.clicks == old(driver.clicks) + t.clicked
      && driver.script == t.rest
  {
    if timeType == "admin" {
      var outcome := SubmenuDropdown(driver, FormatFor(ExactText), ADMIN_PATH);
      result := Traversed(outcome);
    } else if timeType == "student" {
      var outcome := SubmenuDropdown(driver, FormatFor(ContainsText), STUDENT_PATH);
      result := Traversed(outcome);
    } else {
      result := NotOpened;
    }
  }
}
