/**
 * The admin sidebar: hides admin-only entries from non-admins, chooses how
 * each entry is drawn and highlighted, and logs out.
 */
module AdminMenu {
  import opened Wrappers
  import opened JsStrings
  import opened JsArrays
  import opened Browser
  import opened MenuList

  const AdminRole: string := "ROLE_ADMIN"

  /** `roles.includes("ROLE_ADMIN")`: exact match of one entry. */
  function IsAdmin(roles: seq<string>): (admin: bool)
    ensures admin <==> exists i :: 0 <= i < |roles| && roles[i] == AdminRole
  {
    AdminRole in roles
  }

  /** The filter's test: drop an entry only if it requires admin and the user is not one. */
  predicate Visible(m: Menu, isAdmin: bool) {
    !(m.requireAdmin == Some(true) && !isAdmin)
  }

  /**
   * The entries of one group that survive the filter: exactly the visible
   * ones, in order, each as often as it occurs; all of them when every
   * entry is visible.
   */
  function VisibleMenus(menus: seq<Menu>, isAdmin: bool): (r: seq<Menu>)
    ensures forall m :: m in r <==> m in menus && (m.requireAdmin != Some(true) || isAdmin)
    ensures forall m :: multiset(r)[m] == if Visible(m, isAdmin) then multiset(menus)[m] else 0
    ensures IsSubsequence(r, menus)
    ensures (isAdmin || forall m :: m in menus ==> m.requireAdmin != Some(true)) ==> r == menus
  {
    var keep := (m: Menu) => Visible(m, isAdmin);
    var r := Filter(menus, keep);
    assert forall m :: keep(m) == Visible(m, isAdmin);
    assert (isAdmin || forall m :: m in menus ==> m.requireAdmin != Some(true)) ==> r == menus by {
      if isAdmin || forall m :: m in menus ==> m.requireAdmin != Some(true) {
        assert forall k :: 0 <= k < |menus| ==> menus[k] in menus;
      }
    }
    r
  }

  /**
   * `filteredMenuList`: every group kept, in order, with its label; within a
   * group exactly the visible entries, in order. For an admin nothing changes.
   */
  function FilterMenus(groups: seq<Group>, isAdmin: bool): (r: seq<Group>)
    ensures |r| == |groups|
    ensures forall i :: 0 <= i < |r| ==> r[i].groupLabel == groups[i].groupLabel
    ensures forall i :: 0 <= i < |r| ==> r[i].menus == VisibleMenus(groups[i].menus, isAdmin)
    ensures (isAdmin || forall g, m :: g in groups && m in g.menus ==> m.requireAdmin != Some(true))
            ==> r == groups
  {
    var r := seq(|groups|, i requires 0 <= i < |groups| => groups[i].(menus := VisibleMenus(groups[i].menus, isAdmin)));
    assert (isAdmin || forall g, m :: g in groups && m in g.menus ==> m.requireAdmin != Some(true))
           ==> r == groups by {
      if isAdmin || forall g, m :: g in groups && m in g.menus ==> m.requireAdmin != Some(true) {
        forall i | 0 <= i < |groups| ensures r[i] == groups[i] {
          assert groups[i] in groups;
        }
      }
    }
    r
  }

  /**
   * The sidebar as drawn: the menu list filtered by the token's roles. Since
   * no entry of the list requires admin, every user sees the whole list.
   */
  function VisibleMenuList(pathname: string, roles: seq<string>): (groups: seq<Group>)
    ensures groups == GetMenuList(pathname)
  {
    var list := GetMenuList(pathname);
    assert forall g, m :: g in list && m in g.menus ==> m.requireAdmin != Some(true) by {
      forall g, m | g in list && m in g.menus ensures m.requireAdmin != Some(true) {
        assert NoFlags(m);
      }
    }
    FilterMenus(list, IsAdmin(roles))
  }

  datatype Variant = Secondary | Ghost

  /**
   * The highlight of a plain entry: `secondary` when `active` is true, or
   * when `active` is absent and the current path starts with the entry's href.
   */
  function ButtonVariant(m: Menu, pathname: string): (v: Variant)
    ensures m.active == Some(true) ==> v == Secondary
    ensures m.active == Some(false) ==> v == Ghost
    ensures m.active.None? ==> (v == Secondary <==> StartsWith(pathname, m.href))
  {
    if (m.active.None? && StartsWith(pathname, m.href)) || m.active == Some(true) then Secondary else Ghost
  }

  /** How an entry is drawn: a plain link button, or a collapsible button over its submenus. */
  datatype ItemView = PlainButton(variant: Variant) | CollapseButton(active: bool, submenus: seq<Submenu>)

  /**
   * An entry whose `submenus` is missing or empty is a plain button; any
   * other gets a collapse button, active when the path starts with its
   * href (its own `active` field is not consulted).
   */
  function MenuItemView(m: Menu, pathname: string): (view: ItemView)
    ensures view.PlainButton? <==> m.submenus.None? || m.submenus.value == []
    ensures view.PlainButton? ==> view.variant == ButtonVariant(m, pathname)
    ensures view.CollapseButton? ==> view.submenus == m.submenus.value
                                     && (view.active <==> StartsWith(pathname, m.href))
  {
    if m.submenus.None? || |m.submenus.value| == 0 then PlainButton(ButtonVariant(m, pathname))
    else CollapseButton(StartsWith(pathname, m.href), m.submenus.value)
  }

  /**
   * The "Transaction" entry's href is "", a prefix of every path, so its
   * collapse button is drawn active on every page.
   */
  lemma TransactionAlwaysActive(pathname: string)
    ensures MenuItemView(GetMenuList(pathname)[1].menus[0], pathname) == CollapseButton(true, GetMenuList(pathname)[1].menus[0].submenus.value)
  {
  }

  /** What heads a group: its label as text, an ellipsis with the label as tooltip, or a spacer. */
  datatype HeaderView = LabelText | EllipsisTooltip | Spacer

  /**
   * The group heading: the label text when the sidebar is open and the
   * label non-empty, or when `isOpen` is undefined; otherwise an ellipsis
   * for a non-empty label and an empty spacer for an empty one.
   */
  function GroupHeader(isOpen: Option<bool>, groupLabel: string): (h: HeaderView)
    ensures isOpen.None? ==> h == LabelText
    ensures isOpen == Some(true) ==> (h == LabelText <==> groupLabel != "")
    ensures h == Spacer <==> isOpen.Some? && groupLabel == ""
    ensures h == EllipsisTooltip <==> isOpen.Some? && !isOpen.value && groupLabel != ""
  {
    if (isOpen == Some(true) && groupLabel != "") || isOpen.None? then LabelText
    else if groupLabel != "" then EllipsisTooltip
    else Spacer
  }

  /** The logout button: removes both session keys and sends the browser to "/". */
  method Logout(store: Storage) returns (location: string)
    modifies store
    ensures store.items == old(store.items) - {TokenKey, RefreshTokenKey}
    ensures location == "/"
  {
    store.RemoveItem(TokenKey);
    store.RemoveItem(RefreshTokenKey);
    location := "/";
  }
}
