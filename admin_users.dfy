/** The users page of the administration area: editing a user's roles and
    moving between result pages. Every handler builds the next state from
    the current one; the server calls it makes are returned as values. */
module AdminUsers {
  import opened Wrappers

  /** A user as the server lists it; `roles` is `None` when the answer does
      not carry an array there. */
  datatype AdminUser = AdminUser(id: string, username: string, email: string, roles: Option<seq<string>>, resumeCount: int)

  /** The role dialog: the user being edited, if any, and the roles ticked. */
  datatype RoleDialog = RoleDialog(editUser: Option<AdminUser>, editRoles: seq<string>)

  // ---------------------------------------------------------------------------
  // Roles

  /** `prev.filter((r) => r !== role)`. */
  function Without(roles: seq<string>, role: string): (r: seq<string>)
    ensures role !in r
    ensures forall x :: x != role ==> multiset(r)[x] == multiset(roles)[x]
    ensures forall x :: x in r <==> x in roles && x != role
    ensures role !in roles ==> r == roles
  {
    if roles == [] then []
    else
      var rest := Without(roles[1..], role);
      assert roles == [roles[0]] + roles[1..];
      if roles[0] == role then rest else [roles[0]] + rest
  }

  /** `toggleRole(role)`: a ticked role is unticked (every copy of it goes),
      an unticked one is appended. */
  function ToggleRole(roles: seq<string>, role: string): (r: seq<string>)
    ensures role in roles ==> role !in r && (forall x :: x != role ==> multiset(r)[x] == multiset(roles)[x])
    ensures role !in roles ==> role in r && |r| == |roles| + 1 && r[..|roles|] == roles && r[|roles|] == role
  {
    if role in roles then Without(roles, role) else roles + [role]
  }

  /** A role is ticked after the toggle exactly when it was not before. */
  lemma ToggleFlips(roles: seq<string>, role: string)
    ensures role in ToggleRole(roles, role) <==> role !in roles
  {
  }

  /** Toggling an unticked role twice gives back the list. */
  lemma ToggleTwiceAbsent(roles: seq<string>, role: string)
    requires role !in roles
    ensures ToggleRole(ToggleRole(roles, role), role) == roles
  {
    WithoutAppended(roles, role);
  }

  /** Removing a role that was appended to a list without it gives back the
      list. */
  lemma {:induction false} WithoutAppended(roles: seq<string>, role: string)
    requires role !in roles
    ensures Without(roles + [role], role) == roles
  {
    if roles != [] {
      assert (roles + [role])[1..] == roles[1..] + [role];
      WithoutAppended(roles[1..], role);
    }
  }

  /** A list without repeated roles stays without them after a toggle. */
  lemma ToggleKeepsDistinct(roles: seq<string>, role: string)
    requires forall x :: multiset(roles)[x] <= 1
    ensures forall x :: multiset(ToggleRole(roles, role))[x] <= 1
  {
    if role !in roles {
      assert multiset(roles + [role]) == multiset(roles) + multiset{role};
    } else {
      var r := ToggleRole(roles, role);
      forall x ensures multiset(r)[x] <= 1 {
        if x == role {
          assert x !in r;
        }
      }
    }
  }

  // ---------------------------------------------------------------------------
  // The dialog

  /** `openEditRoles(user)`: the dialog opens on the user with a copy of the
      roles, or with none when the user has no array of roles. */
  function OpenEditRoles(d: RoleDialog, user: AdminUser): (r: RoleDialog)
    ensures r.editUser == Some(user)
    ensures user.roles.Some? ==> r.editRoles == user.roles.value
    ensures user.roles.None? ==> r.editRoles == []
  {
    RoleDialog(Some(user), user.roles.GetOr([]))
  }

  /** `saveRoles()`: the update request it sends, the user's id with the
      ticked roles; nothing is sent while no user is being edited or no
      role is ticked. */
  function SaveRoles(d: RoleDialog): (r: Option<(string, seq<string>)>)
    ensures r.None? <==> d.editUser.None? || d.editRoles == []
    ensures r.Some? ==> r.value.0 == d.editUser.value.id && r.value.1 == d.editRoles
  {
    if d.editUser.None? || |d.editRoles| == 0 then None
    else Some((d.editUser.value.id, d.editRoles))
  }

  /** The dialog after a successful save: closed, the ticked roles kept. */
  function Saved(d: RoleDialog): (r: RoleDialog)
    ensures r.editUser.None? && r.editRoles == d.editRoles
  {
    d.(editUser := None)
  }

  /** Opening the dialog on a user and saving at once sends the user's own
      roles back, unless the user has none. */
  lemma OpenThenSave(d: RoleDialog, user: AdminUser)
    ensures var sent := SaveRoles(OpenEditRoles(d, user));
      (user.roles.Some? && user.roles.value != [] ==> sent == Some((user.id, user.roles.value)))
      && (user.roles.None? || user.roles.value == [] ==> sent.None?)
  {
  }

  /** Unticking the last ticked role leaves nothing to save. */
  lemma UntickLastRole(d: RoleDialog, role: string)
    requires d.editRoles == [role]
    ensures SaveRoles(d.(editRoles := ToggleRole(d.editRoles, role))).None?
  {
    assert role in d.editRoles;
  }

  // ---------------------------------------------------------------------------
  // Pages

  const PageSize := 10

  /** A page of users as the server returns it. */
  datatype UserPage = UserPage(content: seq<AdminUser>, totalElements: nat, totalPages: nat, number: nat)

  /** What the page shows: the users, the number of pages and the current
      page, with nothing, no pages and page 0 before an answer arrived. */
  function Shown(data: Option<UserPage>): (r: (seq<AdminUser>, nat, nat))
    ensures data.None? ==> r == ([], 0, 0)
    ensures data.Some? ==> r == (data.value.content, data.value.totalPages, data.value.number)
  {
    match data
    case None => ([], 0, 0)
    case Some(p) => (p.content, p.totalPages, p.number)
  }

  /** The pagination bar is drawn only when there is more than one page. */
  predicate PaginationShown(totalPages: nat) {
    totalPages > 1
  }

  /** The controls of the pagination bar: Previous, Next and the link to
      page `i` (one per page). */
  datatype PageClick = Previous | Next | Link(i: nat)

  /** The page requested after a click: Previous and Next move one page
      from the current one when that page exists, and leave the requested
      page as it was otherwise. */
  function Click(page: nat, currentPage: nat, totalPages: nat, c: PageClick): (r: nat)
    ensures c.Previous? && currentPage > 0 ==> r + 1 == currentPage
    ensures c.Next? && currentPage + 1 < totalPages ==> r == currentPage + 1
    ensures c.Link? ==> r == c.i
  {
    match c
    case Previous => if currentPage > 0 then currentPage - 1 else page
    case Next => if currentPage < totalPages - 1 then currentPage + 1 else page
    case Link(i) => i
  }

  /** Previous is greyed out on the first page. */
  predicate PreviousDisabled(currentPage: nat) {
    currentPage == 0
  }

  /** Next is greyed out on the last page (and beyond it). */
  predicate NextDisabled(currentPage: nat, totalPages: nat) {
    currentPage >= totalPages - 1
  }

  /** A click on Previous or Next leaves the requested page unchanged
      exactly when the button is greyed out, provided the current page is
      the one requested and another page exists. */
  lemma ClickNoOpIffDisabled(page: nat, totalPages: nat)
    requires page < totalPages
    ensures Click(page, page, totalPages, Previous) == page <==> PreviousDisabled(page)
    ensures Click(page, page, totalPages, Next) == page <==> NextDisabled(page, totalPages)
  {
  }

  /** Every control keeps the requested page among the pages that exist,
      when the page links are the ones drawn and the current page is one of
      them: the page stays in [0, totalPages - 1]. */
  lemma ClickStaysInRange(page: nat, currentPage: nat, totalPages: nat, c: PageClick)
    requires page < totalPages && currentPage < totalPages
    requires c.Link? ==> c.i < totalPages
    ensures Click(page, currentPage, totalPages, c) < totalPages
  {
  }

  /** The requested page after a run of clicks, each seen from the page the
      server returned for the previous request. */
  function Clicks(page: nat, totalPages: nat, cs: seq<PageClick>): (r: nat)
    ensures cs == [] ==> r == page
    decreases |cs|
  {
    if cs == [] then page else Clicks(Click(page, page, totalPages, cs[0]), totalPages, cs[1..])
  }

  /** However many controls are clicked, the requested page never leaves
      [0, totalPages - 1]. */
  lemma {:induction false} ClicksStayInRange(page: nat, totalPages: nat, cs: seq<PageClick>)
    requires page < totalPages
    requires forall j :: 0 <= j < |cs| && cs[j].Link? ==> cs[j].i < totalPages
    ensures Clicks(page, totalPages, cs) < totalPages
    decreases |cs|
  {
    if cs != [] {
      ClickStaysInRange(page, page, totalPages, cs[0]);
      ClicksStayInRange(Click(page, page, totalPages, cs[0]), totalPages, cs[1..]);
    }
  }
}
