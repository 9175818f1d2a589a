/**
 * The authenticated shell: which module is active, whether the sidebar is
 * open, the "coming soon" notice on navigation, and which content branch
 * the main area renders. The viewport width is an input.
 */
module Shell {
  import opened Wrappers
  import opened Text

  /** The shell's two pieces of state. */
  datatype ShellState = ShellState(activeModule: string, isSidebarOpen: bool)

  const Initial: ShellState := ShellState("dashboard", true)

  /** Below this viewport width a navigation click also closes the sidebar. */
  const MobileBreakpoint: int := 768

  /** One sidebar entry. */
  datatype NavItem = NavItem(id: string, name: string, icon: string)

  const Modules: seq<NavItem> := [
    NavItem("dashboard", "Dashboard", "layout-dashboard"),
    NavItem("employees", "Employees", "users"),
    NavItem("attendance", "Attendance", "clock"),
    NavItem("leave", "Leave Management", "calendar"),
    NavItem("payroll", "Payroll", "credit-card"),
    NavItem("performance", "Performance", "bar-chart"),
    NavItem("documents", "Documents", "file-text"),
    NavItem("settings", "Settings", "settings")
  ]

  /** The modules that exist in this version; every other one is announced as coming. */
  predicate Available(id: string) {
    id == "employees" || id == "dashboard"
  }

  /** The info toast shown when navigating to a module that is not available yet. */
  function ComingNotice(id: string): string {
    Capitalize(id) + " module will be available in the full version."
  }

  /** A navigation click: the new state and the info notice, if any. */
  function ModuleClick(s: ShellState, id: string, viewportWidth: int): (r: (ShellState, Option<string>))
    ensures r.0.activeModule == id
    ensures r.0.isSidebarOpen == (s.isSidebarOpen && viewportWidth >= MobileBreakpoint)
    ensures r.1.Some? <==> !Available(id)
    ensures r.1.Some? ==> r.1.value == ComingNotice(id)
  {
    var open := if viewportWidth < MobileBreakpoint then false else s.isSidebarOpen;
    var notice := if id != "employees" && id != "dashboard" then Some(ComingNotice(id)) else None;
    (ShellState(id, open), notice)
  }

  /** The menu and chevron buttons. */
  function ToggleSidebar(s: ShellState): (r: ShellState)
    ensures r.isSidebarOpen == !s.isSidebarOpen && r.activeModule == s.activeModule
  {
    s.(isSidebarOpen := !s.isSidebarOpen)
  }

  /** A click on the mobile backdrop. */
  function CloseSidebar(s: ShellState): (r: ShellState)
    ensures !r.isSidebarOpen && r.activeModule == s.activeModule
  {
    s.(isSidebarOpen := false)
  }

  /** Toggling the sidebar twice changes nothing. */
  lemma ToggleSidebarTwice(s: ShellState)
    ensures ToggleSidebar(ToggleSidebar(s)) == s
  {
  }

  /** On a wide viewport navigation leaves the sidebar as it was; on a narrow one it closes it. */
  lemma ModuleClickSidebar(s: ShellState, id: string, viewportWidth: int)
    ensures viewportWidth >= MobileBreakpoint ==> ModuleClick(s, id, viewportWidth).0.isSidebarOpen == s.isSidebarOpen
    ensures viewportWidth < MobileBreakpoint ==> ModuleClick(s, id, viewportWidth).0 == CloseSidebar(ShellState(id, s.isSidebarOpen))
  {
  }

  /**
   * The notice and the placeholder text show the id through `Capitalize`,
   * which upper-cases its first character only.
   */
  lemma NoticeCapitalizesFirstOnly(id: string)
    ensures ComingNotice(id)[..|id|] == Capitalize(id)
    ensures ComingSoonText(id)[4..|id| + 4] == Capitalize(id)
  {
    var suffix := " module will be available in the full version.";
    var rest := " module is currently under development and will be available in the full version.";
    PrefixOfConcat(Capitalize(id), suffix);
    PrefixOfConcat(Capitalize(id), rest);
    assert ComingSoonText(id) == "The " + (Capitalize(id) + rest);
  }

  lemma PrefixOfConcat(a: string, b: string)
    ensures (a + b)[..|a|] == a
  {
  }

  /** The main area's branches. */
  datatype Content = DashboardView | EmployeesView | ComingSoon(text: string)

  /** The placeholder paragraph of a module that is not available yet. */
  function ComingSoonText(id: string): string {
    "The " + Capitalize(id) + " module is currently under development and will be available in the full version."
  }

  /** The three `activeModule === ... && (...)` blocks, each rendered on its own guard. */
  function Rendered(activeModule: string): seq<Content> {
    (if activeModule == "dashboard" then [DashboardView] else [])
    + (if activeModule == "employees" then [EmployeesView] else [])
    + (if activeModule != "dashboard" && activeModule != "employees" then [ComingSoon(ComingSoonText(activeModule))] else [])
  }

  /**
   * Exactly one branch renders for any active module, and it is the
   * placeholder exactly for the modules a click announces as coming.
   */
  lemma ExactlyOneBranch(activeModule: string)
    ensures |Rendered(activeModule)| == 1
    ensures Rendered(activeModule)[0].ComingSoon? <==> !Available(activeModule)
    ensures Rendered(activeModule)[0] == DashboardView <==> activeModule == "dashboard"
    ensures Rendered(activeModule)[0] == EmployeesView <==> activeModule == "employees"
  {
    if activeModule == "dashboard" {
      assert Rendered(activeModule) == [DashboardView];
    } else if activeModule == "employees" {
      assert Rendered(activeModule) == [EmployeesView];
    } else {
      assert Rendered(activeModule) == [ComingSoon(ComingSoonText(activeModule))];
    }
  }

  /** After navigating, the placeholder shows exactly when a notice was emitted. */
  lemma NoticeMatchesBranch(s: ShellState, id: string, viewportWidth: int)
    ensures ModuleClick(s, id, viewportWidth).1.Some? <==> Rendered(ModuleClick(s, id, viewportWidth).0.activeModule)[0].ComingSoon?
  {
    ExactlyOneBranch(id);
  }

  /** A sidebar entry is highlighted when it is the active module. */
  predicate Highlighted(s: ShellState, i: int)
    requires 0 <= i < |Modules|
  {
    s.activeModule == Modules[i].id
  }

  /** The sidebar ids are distinct. */
  lemma ModuleIdsDistinct()
    ensures forall i, j :: 0 <= i < j < |Modules| ==> Modules[i].id != Modules[j].id
  {
  }

  /** Clicking a sidebar entry highlights that entry and no other. */
  lemma ClickHighlightsOne(s: ShellState, i: int, viewportWidth: int)
    requires 0 <= i < |Modules|
    ensures forall j :: 0 <= j < |Modules| ==>
      (Highlighted(ModuleClick(s, Modules[i].id, viewportWidth).0, j) <==> j == i)
  {
    ModuleIdsDistinct();
  }

  /** The shell opens on the dashboard with the sidebar open, and the dashboard is highlighted. */
  lemma InitialState()
    ensures Initial.activeModule == "dashboard" && Initial.isSidebarOpen
    ensures Rendered(Initial.activeModule) == [DashboardView]
    ensures Highlighted(Initial, 0)
  {
  }
}
