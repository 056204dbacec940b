/**
 * `getMenuList`: the fixed sidebar structure, three groups of menus, some
 * with submenus. Icons are left out; everything the menu logic reads is kept.
 */
module MenuList {
  import opened Wrappers

  /** `label` is named `title` here (`label` is a Dafny keyword). */
  datatype Submenu = Submenu(href: string, title: string, active: Option<bool>)

  /**
   * A sidebar entry. `submenus` and `active` are optional as in the source
   * type; `requireAdmin` is the optional flag the admin menu reads.
   */
  datatype Menu = Menu(
    href: string,
    title: string,
    active: Option<bool>,
    submenus: Option<seq<Submenu>>,
    requireAdmin: Option<bool>)

  datatype Group = Group(groupLabel: string, menus: seq<Menu>)

  /** A plain entry: no `active`, no `requireAdmin`, no `submenus` field. */
  function Link(href: string, title: string): Menu {
    Menu(href, title, None, None, None)
  }

  /** A menu that sets neither `active` nor `requireAdmin`. */
  predicate NoFlags(m: Menu) {
    m.active.None? && m.requireAdmin.None?
  }

  /**
   * The menu list. It ignores `pathname`, has three groups labelled "", ""
   * and "Settings", and no entry sets `active` or `requireAdmin`.
   */
  function GetMenuList(pathname: string): (groups: seq<Group>)
    ensures |groups| == 3
    ensures groups[0].groupLabel == "" && groups[1].groupLabel == "" && groups[2].groupLabel == "Settings"
    ensures forall g, m :: g in groups && m in g.menus ==> NoFlags(m)
    ensures groups[0].menus == [Menu("/component", "Component", None, Some([]), None)]
    ensures |groups[1].menus| == 3 && |groups[2].menus| == 2
    ensures groups[1].menus[0].title == "Transaction" && groups[1].menus[0].href == ""
    ensures groups[1].menus[0].submenus.Some?
    ensures |groups[1].menus[0].submenus.value| == 4
    ensures groups[1].menus[0].submenus.value[0].href == "/transaction/today"
    ensures groups[1].menus[0].submenus.value[1].href == "/transaction/monthly"
    ensures groups[1].menus[0].submenus.value[2].href == "/transaction/posts"
    ensures groups[1].menus[0].submenus.value[3].href == "/transaction/all"
    ensures [groups[1].menus[1], groups[1].menus[2]] + groups[2].menus
            == [Link("/categories", "Categories"), Link("/tags", "Tags"),
                Link("/users", "Users"), Link("/account", "Account Settings")]
  {
    [
      Group("", [
        Menu("/component", "Component", None, Some([]), None)
      ]),
      Group("", [
        Menu("", "Transaction", None, Some([
          Submenu("/transaction/today", "Today Transaction", None),
          Submenu("/transaction/monthly", "Weekly Transaction", None),
          Submenu("/transaction/posts", "Monthly Transaction", None),
          Submenu("/transaction/all", "All Transaction", None)
        ]), None),
        Link("/categories", "Categories"),
        Link("/tags", "Tags")
      ]),
      Group("Settings", [
        Link("/users", "Users"),
        Link("/account", "Account Settings")
      ])
    ]
  }

  /** The `pathname` argument is unused: every page gets the same list. */
  lemma MenuListIgnoresPathname(p: string, q: string)
    ensures GetMenuList(p) == GetMenuList(q)
  {
  }
}
