/**
 * The dashboard page: the role-dependent section tabs, the content shown for
 * the active section, and the role caption in the header.
 */
module DashboardPage {
  import opened Entities
  import opened Sequences
  import Text

  const OVERVIEW := "overview"
  const TEAM := "team"
  const ADMIN := "admin"

  /** A section tab; `title` is the source's `label` field (`label` is a Dafny keyword). */
  datatype Section = Section(id: string, title: string)

  /** What `renderContent` returns. */
  datatype View = DashboardView | TeamManagementView | AdminPanelView

  /** `user?.role === 'tl'`. */
  predicate IsTeamLead(user: Option<User>) {
    user.Some? && user.value.role == "tl"
  }

  /** `['admin', 'super_admin'].includes(user?.role)`. */
  predicate IsAdmin(user: Option<User>) {
    user.Some? && (user.value.role == "admin" || user.value.role == "super_admin")
  }

  /** Which sections a user is entitled to: the overview always, team for a lead, admin for admins. */
  predicate Offered(user: Option<User>, id: string) {
    id == OVERVIEW || (id == TEAM && IsTeamLead(user)) || (id == ADMIN && IsAdmin(user))
  }

  function Ids(sections: seq<Section>): (ids: seq<string>)
    ensures |ids| == |sections|
    ensures forall i :: 0 <= i < |sections| ==> ids[i] == sections[i].id
  {
    seq(|sections|, i requires 0 <= i < |sections| => sections[i].id)
  }

  /**
   * `getSections`: the overview first, then the entitled sections, each
   * once; every section offered and only those.
   */
  method GetSections(user: Option<User>) returns (sections: seq<Section>)
    ensures |sections| >= 1 && sections[0] == Section(OVERVIEW, "Overview")
    ensures forall id :: id in Ids(sections) <==> Offered(user, id)
    ensures NoDuplicates(Ids(sections))
    ensures Section(TEAM, "Team Management") in sections <==> IsTeamLead(user)
    ensures Section(ADMIN, "Admin Panel") in sections <==> IsAdmin(user)
  {
    sections := [Section(OVERVIEW, "Overview")];
    if user.Some? && user.value.role == "tl" {
      sections := sections + [Section(TEAM, "Team Management")];
    }
    if user.Some? && user.value.role in ["admin", "super_admin"] {
      sections := sections + [Section(ADMIN, "Admin Panel")];
    }
    assert Ids(sections) == if IsTeamLead(user) then [OVERVIEW, TEAM] else if IsAdmin(user) then [OVERVIEW, ADMIN] else [OVERVIEW];
  }

  /**
   * Any id list with the guarantees of `GetSections` is exactly the one the
   * role calls for: so the team and admin sections never both appear and
   * there are at most two sections.
   */
  lemma SectionsByRole(ids: seq<string>, user: Option<User>)
    requires |ids| >= 1 && ids[0] == OVERVIEW
    requires forall id :: id in ids <==> Offered(user, id)
    requires NoDuplicates(ids)
    ensures IsTeamLead(user) ==> ids == [OVERVIEW, TEAM]
    ensures IsAdmin(user) ==> ids == [OVERVIEW, ADMIN]
    ensures !IsTeamLead(user) && !IsAdmin(user) ==> ids == [OVERVIEW]
    ensures |ids| <= 2 && !(TEAM in ids && ADMIN in ids)
  {
    var pool := if IsTeamLead(user) then {OVERVIEW, TEAM} else if IsAdmin(user) then {OVERVIEW, ADMIN} else {OVERVIEW};
    forall i | 0 <= i < |ids| ensures ids[i] in pool {
      assert ids[i] in ids;
    }
    NoDuplicatesBound(ids, pool);
    var extra := if IsTeamLead(user) then TEAM else ADMIN;
    if IsTeamLead(user) || IsAdmin(user) {
      assert extra in ids;
      var k :| 0 <= k < |ids| && ids[k] == extra;
      assert k != 0;
      assert ids == [ids[0], ids[1]];
      assert ids[1] != OVERVIEW;
    } else {
      assert ids == [ids[0]];
    }
  }

  /** `renderContent`: team and admin have their views, every other value shows the dashboard. */
  function RenderContent(activeSection: string): (view: View)
    ensures view == TeamManagementView <==> activeSection == TEAM
    ensures view == AdminPanelView <==> activeSection == ADMIN
    ensures view == DashboardView <==> activeSection != TEAM && activeSection != ADMIN
  {
    if activeSection == TEAM then TeamManagementView
    else if activeSection == ADMIN then AdminPanelView
    else DashboardView
  }

  /** Distinct sections a user is offered show distinct content. */
  lemma OfferedSectionsShowDistinctViews(user: Option<User>, a: string, b: string)
    requires Offered(user, a) && Offered(user, b) && a != b
    ensures RenderContent(a) != RenderContent(b)
  {
  }

  /** `role.replace('_', ' ').toUpperCase()`: the first underscore becomes a space, letters go upper case. */
  function RoleLabel(role: string): (caption: string)
    ensures |caption| == |role|
    ensures forall i :: 0 <= i < |role| ==>
      caption[i] == (if i == Text.IndexOf(role, '_') then ' ' else Text.UpperChar(role[i]))
  {
    Text.ToUpper(Text.ReplaceFirst(role, '_', ' '))
  }

  /** The page's state. */
  class DashboardPageState {
    var activeSection: string

    /** `useState('overview')`: the page opens on the dashboard. */
    constructor ()
      ensures activeSection == OVERVIEW
      ensures Content() == DashboardView
    {
      activeSection := OVERVIEW;
    }

    function Content(): View
      reads this
    {
      RenderContent(activeSection)
    }

    /** A section tab was clicked. */
    method SelectSection(id: string)
      modifies this
      ensures activeSection == id
      ensures Content() == RenderContent(id)
    {
      activeSection := id;
    }
  }
}
