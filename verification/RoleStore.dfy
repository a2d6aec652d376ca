/**
 * The role store: role names, the statements of the repository, and the create, update and delete
 * use cases run one at a time, with the memoised lookup of the two system roles.
 */
module RoleStore {
  import opened Prelude
  import Text

  const ADMIN: string := "ADMIN"
  const USER: string := "USER"

  // ---- role names -------------------------------------------------------------------------

  predicate NameChar(c: char) {
    'A' <= c <= 'Z' || '0' <= c <= '9' || c == '_'
  }

  predicate NamePattern(s: string) {
    s != [] && forall i | 0 <= i < |s| :: NameChar(s[i])
  }

  lemma NameCharacters(c: char)
    ensures NameChar(c) <==> c in "ABCDEFGHIJKLMNOPQRSTUVWXYZ0123456789_"
  {
  }

  /** `RoleName.create`: trimmed, upper-cased by `upper`, and `None` where it throws. */
  function RoleName(raw: string, upper: string -> string): Option<string> {
    var value := upper(Text.Trim(raw));
    if Text.Blank(value) || !NamePattern(value) then None else Some(value)
  }

  /** What the store needs of the names: normalising again changes nothing. */
  ghost predicate Normalises(norm: string -> Option<string>) {
    && norm(ADMIN) == Some(ADMIN) && norm(USER) == Some(USER) && norm("") == None
    && forall raw | norm(raw).Some? :: norm(norm(raw).value) == norm(raw)
  }

  lemma TrimKeeps(s: string)
    requires NamePattern(s)
    ensures Text.Trim(s) == s && !Text.Blank(s)
  {
  }

  /** Whatever upper-casing does elsewhere, if it keeps upper-case names then names normalise. */
  lemma RoleNamesNormalise(upper: string -> string)
    requires forall s | s == [] || NamePattern(s) :: upper(s) == s
    ensures Normalises(raw => RoleName(raw, upper))
  {
    forall raw | RoleName(raw, upper).Some?
      ensures RoleName(RoleName(raw, upper).value, upper) == RoleName(raw, upper)
    {
      TrimKeeps(RoleName(raw, upper).value);
    }
    TrimKeeps(ADMIN);
    TrimKeeps(USER);
  }

  // ---- rows and statements ----------------------------------------------------------------

  datatype Row = Row(name: string, description: string, isActive: bool, permissionIds: seq<string>, live: bool)

  type Rows = map<nat, Row>

  datatype Patch = Patch(
    name: Option<string>, description: Option<string>, isActive: Option<bool>, permissionIds: Option<seq<string>>)

  const EMPTY_PATCH: Patch := Patch(None, None, None, None)

  predicate Live(rows: Rows, id: nat) {
    id in rows && rows[id].live
  }

  /** The live roles with this stored name. */
  function Named(rows: Rows, name: string): set<nat> {
    set id | id in rows && rows[id].live && rows[id].name == name
  }

  function Unique(ids: seq<string>): seq<string> {
    if ids == [] then [] else
      var (init, last) := (ids[..|ids| - 1], ids[|ids| - 1]);
      if last in init then Unique(init) else Unique(init) + [last]
  }

  lemma {:induction false} UniqueIds(ids: seq<string>)
    ensures FirstOccurrences(ids, Unique(ids))
  {
    if ids != [] {
      var (init, last) := (ids[..|ids| - 1], ids[|ids| - 1]);
      assert ids == init + [last];
      UniqueIds(init);
      OccurrencesMore(init, Unique(init), last);
    }
  }

  /** `name` is the normalised new name, if the patch has one. */
  function Patched(row: Row, patch: Patch, name: Option<string>): Row {
    row.(name := if name.Some? then name.value else row.name,
         description := if patch.description.Some? then patch.description.value else row.description,
         isActive := if patch.isActive.Some? then patch.isActive.value else row.isActive,
         permissionIds := if patch.permissionIds.Some? then Unique(patch.permissionIds.value) else row.permissionIds)
  }

  function PatchRow(rows: Rows, id: nat, patch: Patch, name: Option<string>): Rows {
    if Live(rows, id) then rows[id := Patched(rows[id], patch, name)] else rows
  }

  function DeleteRow(rows: Rows, id: nat): Rows {
    if Live(rows, id) then rows[id := rows[id].(live := false)] else rows
  }

  predicate SystemName(name: string) {
    name == ADMIN || name == USER
  }

  datatype Outcome =
    | Done
    | RoleNotFound
    | NameInvalid
    | NameExists
    | CannotRenameSystemRole
    | CannotDeactivateAdmin
    | SystemRoleCannotBeDeleted
    | IndexViolation
    | Failed

  // ---- decisions of the use cases ---------------------------------------------------------

  /** Continue to the next call, or stop with an outcome. */
  datatype Decision = Continue | LookUpName | Stop(outcome: Outcome)

  /** After the current role was read. */
  function Judge(currentName: string, patch: Patch, norm: string -> Option<string>): Decision {
    if patch.name.Some? && patch.name.value != "" && norm(patch.name.value) == None then Stop(NameInvalid)
    else if patch.name.Some? && patch.name.value != "" && norm(patch.name.value).value != currentName then
      if SystemName(currentName) then Stop(CannotRenameSystemRole) else LookUpName
    else Proceed(currentName, patch)
  }

  /** Once the new name is known to be acceptable. */
  function Proceed(currentName: string, patch: Patch): Decision {
    if currentName == ADMIN && patch.isActive != Some(true) then Stop(CannotDeactivateAdmin)
    else if patch == EMPTY_PATCH then Stop(Done)
    else Continue
  }

  /** The patch asks for a valid name other than the current one. */
  predicate Renames(currentName: string, patch: Patch, norm: string -> Option<string>) {
    patch.name.Some? && norm(patch.name.value).Some? && norm(patch.name.value).value != currentName
  }

  /** Each given field as the patch has it, each other field as it was. */
  ghost predicate PatchedFrom(before: Row, patch: Patch, norm: string -> Option<string>, after: Row) {
    && after.live == before.live
    && (patch.name == None ==> after.name == before.name)
    && (patch.name.Some? ==> norm(patch.name.value) == Some(after.name))
    && (patch.description == None ==> after.description == before.description)
    && (patch.description.Some? ==> after.description == patch.description.value)
    && (patch.isActive == None ==> after.isActive == before.isActive)
    && (patch.isActive.Some? ==> after.isActive == patch.isActive.value)
    && (patch.permissionIds == None ==> after.permissionIds == before.permissionIds)
    && (patch.permissionIds.Some? ==> FirstOccurrences(patch.permissionIds.value, after.permissionIds))
  }

  lemma PatchFields(rows: Rows, id: nat, patch: Patch, norm: string -> Option<string>)
    ensures Live(rows, id) && !BadName(patch, norm) ==>
              var after := PatchRow(rows, id, patch, NewName(patch, norm));
              && after.Keys == rows.Keys && PatchedFrom(rows[id], patch, norm, after[id])
              && forall other | other in rows && other != id :: after[other] == rows[other]
  {
    if patch.permissionIds.Some? {
      UniqueIds(patch.permissionIds.value);
    }
  }

  predicate BadName(patch: Patch, norm: string -> Option<string>) {
    patch.name.Some? && norm(patch.name.value).None?
  }

  function NewName(patch: Patch, norm: string -> Option<string>): Option<string> {
    if patch.name.Some? then norm(patch.name.value) else None
  }

  // ---- what the store keeps ---------------------------------------------------------------

  ghost predicate NamesNormal(rows: Rows, norm: string -> Option<string>) {
    forall id | id in rows :: norm(rows[id].name) == Some(rows[id].name)
  }

  ghost predicate LiveNamesUnique(rows: Rows) {
    forall a, b | Live(rows, a) && Live(rows, b) && rows[a].name == rows[b].name :: a == b
  }

  /** Both system roles live under their name and nothing else does; ADMIN is active. */
  ghost predicate SystemRolesStand(rows: Rows, adminId: nat, userId: nat) {
    && Live(rows, adminId) && Live(rows, userId)
    && (forall id | Live(rows, id) :: rows[id].name == ADMIN <==> id == adminId)
    && (forall id | Live(rows, id) :: rows[id].name == USER <==> id == userId)
    && rows[adminId].isActive
  }

  /** What a call keeps: normal names, unique live names, both system roles. */
  ghost predicate Keeps(before: Rows, after: Rows, norm: string -> Option<string>) {
    && (NamesNormal(before, norm) ==> NamesNormal(after, norm))
    && (LiveNamesUnique(before) ==> LiveNamesUnique(after))
    && forall a, u | SystemRolesStand(before, a, u) :: SystemRolesStand(after, a, u)
  }

  lemma PatchKeepsSystemRoles(rows: Rows, id: nat, patch: Patch, name: Option<string>, adminId: nat, userId: nat)
    requires SystemRolesStand(rows, adminId, userId) && Live(rows, id)
    requires name.Some? && name.value != rows[id].name ==> !SystemName(name.value) && !SystemName(rows[id].name)
    requires rows[id].name == ADMIN ==> patch.isActive != Some(false)
    ensures SystemRolesStand(PatchRow(rows, id, patch, name), adminId, userId)
  {
  }

  lemma PatchKeepsUnique(rows: Rows, id: nat, patch: Patch, name: Option<string>)
    requires LiveNamesUnique(rows) && Live(rows, id)
    requires name.Some? && name.value != rows[id].name ==> Named(rows, name.value) == {}
    ensures LiveNamesUnique(PatchRow(rows, id, patch, name))
  {
    assert forall other | Live(rows, other) :: other in Named(rows, rows[other].name);
  }

  lemma PatchKeeps(rows: Rows, id: nat, patch: Patch, norm: string -> Option<string>)
    requires Normalises(norm) && NamesNormal(rows, norm) && Live(rows, id) && !BadName(patch, norm)
    requires Renames(rows[id].name, patch, norm) ==>
               !SystemName(rows[id].name) && Named(rows, NewName(patch, norm).value) == {}
    requires rows[id].name == ADMIN ==> patch.isActive == Some(true)
    ensures Keeps(rows, PatchRow(rows, id, patch, NewName(patch, norm)), norm)
  {
    var name := NewName(patch, norm);
    if LiveNamesUnique(rows) {
      PatchKeepsUnique(rows, id, patch, name);
    }
    forall a, u | SystemRolesStand(rows, a, u) ensures SystemRolesStand(PatchRow(rows, id, patch, name), a, u) {
      assert a in Named(rows, ADMIN) && u in Named(rows, USER);
      PatchKeepsSystemRoles(rows, id, patch, name, a, u);
    }
  }

  lemma InsertKeeps(rows: Rows, id: nat, row: Row, adminId: nat, userId: nat)
    requires id !in rows && row.live
    ensures SystemRolesStand(rows, adminId, userId) && !SystemName(row.name) ==>
              SystemRolesStand(rows[id := row], adminId, userId)
    ensures LiveNamesUnique(rows) && Named(rows, row.name) == {} ==> LiveNamesUnique(rows[id := row])
  {
    assert forall other | Live(rows, other) :: other in Named(rows, rows[other].name);
  }

  lemma DeleteKeeps(rows: Rows, id: nat, adminId: nat, userId: nat)
    ensures LiveNamesUnique(rows) ==> LiveNamesUnique(DeleteRow(rows, id))
    ensures SystemRolesStand(rows, adminId, userId) && id != adminId && id != userId ==>
              SystemRolesStand(DeleteRow(rows, id), adminId, userId)
  {
  }

  // ---- what each use case promises --------------------------------------------------------

  ghost predicate OthersStay(before: Rows, after: Rows, id: nat) {
    before.Keys <= after.Keys && forall other | other in after && other != id :: other in before && after[other] == before[other]
  }

  ghost predicate Created(
    before: Rows, id: nat, name: string, description: string, isActive: bool, permissionIds: seq<string>,
    norm: string -> Option<string>, outcome: Outcome, after: Rows)
  {
    && outcome in {Done, NameInvalid, NameExists}
    && (outcome == NameInvalid <==> norm(name).None?)
    && (outcome == NameExists <==>
          norm(name).Some? && exists other | other in before :: before[other].live && Some(before[other].name) == norm(name))
    && (outcome != Done ==> after == before)
    && (outcome == Done ==>
          && OthersStay(before, after, id) && id in after && after[id].live
          && Some(after[id].name) == norm(name) && after[id].description == description && after[id].isActive == isActive
          && FirstOccurrences(permissionIds, after[id].permissionIds))
  }

  ghost predicate UpdatedAs(
    before: Rows, id: nat, patch: Patch, norm: string -> Option<string>, outcome: Outcome, after: Rows)
  {
    && outcome in {Done, RoleNotFound, CannotRenameSystemRole, NameExists, CannotDeactivateAdmin, NameInvalid}
    && (outcome == RoleNotFound <==> !Live(before, id))
    && (outcome == CannotRenameSystemRole <==>
          Live(before, id) && Renames(before[id].name, patch, norm) && before[id].name in {"ADMIN", "USER"})
    && (outcome == NameExists <==>
          && Live(before, id) && Renames(before[id].name, patch, norm) && before[id].name !in {"ADMIN", "USER"}
          && exists other | other in before :: before[other].live && Some(before[other].name) == NewName(patch, norm))
    && (outcome == CannotDeactivateAdmin <==>
          && Live(before, id) && before[id].name == "ADMIN" && patch.isActive != Some(true)
          && !Renames("ADMIN", patch, norm) && !(BadName(patch, norm) && patch.name.value != ""))
    && (outcome == NameInvalid <==>
          && Live(before, id) && BadName(patch, norm)
          && (patch.name.value != "" || before[id].name != "ADMIN" || patch.isActive == Some(true)))
    && (outcome != Done ==> after == before)
    && (outcome == Done ==>
          && after.Keys == before.Keys && OthersStay(before, after, id)
          && PatchedFrom(before[id], patch, norm, after[id]))
  }

  ghost predicate DeletedAs(before: Rows, id: nat, outcome: Outcome, after: Rows) {
    && outcome in {Done, RoleNotFound, SystemRoleCannotBeDeleted}
    && (outcome == RoleNotFound <==> !Live(before, id))
    && (outcome == SystemRoleCannotBeDeleted <==> Live(before, id) && before[id].name in {"ADMIN", "USER"})
    && (outcome != Done ==> after == before)
    && (outcome == Done ==>
          after.Keys == before.Keys && OthersStay(before, after, id) && after[id] == before[id].(live := false))
  }

  lemma NameTaken(rows: Rows, name: string)
    ensures Named(rows, name) != {} <==> exists other | other in rows :: rows[other].live && rows[other].name == name
  {
    if other :| other in rows && rows[other].live && rows[other].name == name {
      assert other in Named(rows, name);
    }
  }

  /** How an update ends when nobody interferes. */
  function UpdateOutcome(rows: Rows, id: nat, patch: Patch, norm: string -> Option<string>): Outcome
    requires Normalises(norm)
  {
    if !Live(rows, id) then RoleNotFound
    else
      var currentName := rows[id].name;
      match Judge(currentName, patch, norm)
      case Stop(outcome) => outcome
      case Continue => Written(patch, norm)
      case LookUpName =>
        if Named(rows, NewName(patch, norm).value) != {} then NameExists
        else
          match Proceed(currentName, patch)
          case Stop(outcome) => outcome
          case _ => Written(patch, norm)
  }

  function Written(patch: Patch, norm: string -> Option<string>): Outcome {
    if BadName(patch, norm) then NameInvalid else Done
  }

  lemma UpdateMeans(rows: Rows, id: nat, patch: Patch, norm: string -> Option<string>)
    requires Normalises(norm) && NamesNormal(rows, norm)
    ensures var outcome := UpdateOutcome(rows, id, patch, norm);
            UpdatedAs(rows, id, patch, norm, outcome,
                      if outcome == Done then PatchRow(rows, id, patch, NewName(patch, norm)) else rows)
  {
    PatchFields(rows, id, patch, norm);
    if NewName(patch, norm).Some? {
      NameTaken(rows, NewName(patch, norm).value);
    }
  }

  lemma UpdateKeeps(rows: Rows, id: nat, patch: Patch, norm: string -> Option<string>)
    requires Normalises(norm) && NamesNormal(rows, norm) && UpdateOutcome(rows, id, patch, norm) == Done
    ensures Keeps(rows, PatchRow(rows, id, patch, NewName(patch, norm)), norm)
  {
    PatchKeeps(rows, id, patch, norm);
  }

  // ---- one call at a time -----------------------------------------------------------------

  class RoleUseCases {
    var rows: Rows
    const norm: string -> Option<string>

    constructor (rows: Rows, norm: string -> Option<string>)
      ensures this.rows == rows && this.norm == norm
    {
      this.rows, this.norm := rows, norm;
    }

    method FindRoleByName(name: string) returns (found: Option<nat>, ok: bool)
      ensures ok <==> norm(name).Some?
      ensures ok && found.Some? ==> found.value in Named(rows, norm(name).value)
      ensures ok && found.None? ==> Named(rows, norm(name).value) == {}
    {
      if norm(name).None? {
        return None, false;
      }
      var named := Named(rows, norm(name).value);
      if named == {} {
        return None, true;
      }
      var id :| id in named;
      return Some(id), true;
    }

    /** `id` is the generated id of the new role. */
    method CreateRole(id: nat, name: string, description: string, isActive: bool, permissionIds: seq<string>)
      returns (outcome: Outcome)
      requires id !in rows && Normalises(norm)
      modifies this
      ensures Keeps(old(rows), rows, norm)
      ensures Created(old(rows), id, name, description, isActive, permissionIds, norm, outcome, rows)
    {
      UniqueIds(permissionIds);
      if norm(name).Some? {
        NameTaken(rows, norm(name).value);
      }
      var found, ok := FindRoleByName(name);
      if !ok {
        return NameInvalid;
      }
      if found.Some? {
        return NameExists;
      }
      var row := Row(norm(name).value, description, isActive, Unique(permissionIds), true);
      forall a, u | SystemRolesStand(rows, a, u) ensures SystemRolesStand(rows[id := row], a, u) {
        assert a in Named(rows, ADMIN) && u in Named(rows, USER);
        InsertKeeps(rows, id, row, a, u);
      }
      InsertKeeps(rows, id, row, 0, 0);
      rows := rows[id := row];
      return Done;
    }

    method UpdateRole(id: nat, patch: Patch) returns (outcome: Outcome)
      requires Normalises(norm) && NamesNormal(rows, norm)
      modifies this
      ensures Keeps(old(rows), rows, norm)
      ensures UpdatedAs(old(rows), id, patch, norm, outcome, rows)
    {
      ghost var expected := UpdateOutcome(rows, id, patch, norm);
      UpdateMeans(rows, id, patch, norm);
      if expected == Done {
        UpdateKeeps(rows, id, patch, norm);
      }
      if !Live(rows, id) {
        return RoleNotFound;
      }
      var currentName := rows[id].name;
      var decision := Judge(currentName, patch, norm);
      if decision == LookUpName {
        var existing, _ := FindRoleByName(patch.name.value);
        if existing.Some? {
          return NameExists;
        }
        decision := Proceed(currentName, patch);
      }
      if decision.Stop? {
        assert decision.outcome == Done ==> rows == PatchRow(rows, id, EMPTY_PATCH, None);
        return decision.outcome;
      }
      if patch.name.Some? && norm(patch.name.value).None? {
        return NameInvalid;
      }
      rows := PatchRow(rows, id, patch, NewName(patch, norm));
      return Done;
    }

    method DeleteRole(id: nat) returns (outcome: Outcome)
      modifies this
      ensures DeletedAs(old(rows), id, outcome, rows)
      ensures Keeps(old(rows), rows, norm)
    {
      if !Live(rows, id) {
        return RoleNotFound;
      }
      if SystemName(rows[id].name) {
        return SystemRoleCannotBeDeleted;
      }
      rows := DeleteRow(rows, id);
      return Done;
    }
  }

  /** The memo is filled at the first lookup and never cleared. */
  class RoleService {
    var adminRoleId: Option<nat>
    var userRoleId: Option<nat>
    const roles: RoleUseCases

    constructor (roles: RoleUseCases)
      ensures this.roles == roles && adminRoleId == None && userRoleId == None
    {
      this.roles, adminRoleId, userRoleId := roles, None, None;
    }

    method GetAdminRoleId() returns (id: Option<nat>)
      modifies this
      ensures old(adminRoleId).Some? ==> id == old(adminRoleId)
      ensures old(adminRoleId).None? && roles.norm(ADMIN) == Some(ADMIN) ==>
                if id.Some? then id.value in Named(roles.rows, ADMIN) else Named(roles.rows, ADMIN) == {}
      ensures adminRoleId == id && userRoleId == old(userRoleId)
    {
      if adminRoleId.Some? {
        return adminRoleId;
      }
      var found, ok := roles.FindRoleByName(ADMIN);
      adminRoleId := found;
      return found;
    }

    method GetUserRoleId() returns (id: Option<nat>)
      modifies this
      ensures old(userRoleId).Some? ==> id == old(userRoleId)
      ensures old(userRoleId).None? && roles.norm(USER) == Some(USER) ==>
                if id.Some? then id.value in Named(roles.rows, USER) else Named(roles.rows, USER) == {}
      ensures userRoleId == id && adminRoleId == old(adminRoleId)
    {
      if userRoleId.Some? {
        return userRoleId;
      }
      var found, ok := roles.FindRoleByName(USER);
      userRoleId := found;
      return found;
    }
  }
}
