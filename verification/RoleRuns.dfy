/**
 * The role use cases interleaved call by call, with the memoised lookup of the system roles.
 * `indexed` says whether the partial unique index on live names is in place.
 */
module RoleRuns {
  import opened Prelude
  import opened RoleStore

  datatype Client =
    | UpdateName(id: nat, currentName: string, patch: Patch)   // about to look the new name up
    | UpdateFind(id: nat, patch: Patch)                        // about to re-read the role
    | UpdateWrite(id: nat, patch: Patch)                       // about to run the transaction
    | UpdateReread(id: nat)
    | DeleteFind(id: nat)
    | DeleteWrite(id: nat)
    | CreateInsert(row: Row)
    | MemoFound(admin: bool, id: nat)                          // looked up, memo not yet assigned
    | Ended(outcome: Outcome)
    | Answered(admin: bool, id: nat)

  datatype State = State(
    rows: Rows, clients: map<nat, Client>, adminMemo: Option<nat>, userMemo: Option<nat>)

  datatype Step =
    | BeginUpdate(c: nat, id: nat, patch: Patch)
    | BeginDelete(c: nat, id: nat)
    | BeginCreate(c: nat, name: string, description: string, isActive: bool, permissionIds: seq<string>)
    | BeginLookup(c: nat, admin: bool, found: nat)   // `found`: the row the query returns, when it runs
    | Advance(c: nat, newId: nat)                    // `newId`: the generated id, when a role is inserted
    | Drop(c: nat)                                   // the call throws

  function SystemNameOf(admin: bool): string { if admin then ADMIN else USER }

  function MemoOf(s: State, admin: bool): Option<nat> { if admin then s.adminMemo else s.userMemo }

  predicate Active(client: Client) {
    !client.Ended? && !client.Answered?
  }

  predicate Enabled(s: State, step: Step) {
    match step
    case BeginUpdate(c, _, _) => c !in s.clients
    case BeginDelete(c, _) => c !in s.clients
    case BeginCreate(c, _, _, _, _) => c !in s.clients
    case BeginLookup(c, admin, found) =>
      && c !in s.clients
      && (MemoOf(s, admin).Some? || Named(s.rows, SystemNameOf(admin)) == {} || found in Named(s.rows, SystemNameOf(admin)))
    case Advance(c, newId) =>
      && c in s.clients && Active(s.clients[c])
      && (s.clients[c].CreateInsert? ==> newId !in s.rows)
    case Drop(c) => c in s.clients && Active(s.clients[c])
  }

  /** An insert or update is refused when it would give two live roles one name. */
  predicate Refused(indexed: bool, rows: Rows, id: nat, name: Option<string>) {
    indexed && name.Some? && Named(rows, name.value) - {id} != {}
  }

  function Settle(decision: Decision, id: nat, currentName: string, patch: Patch): Client {
    match decision
    case Continue => UpdateFind(id, patch)
    case LookUpName => UpdateName(id, currentName, patch)
    case Stop(outcome) => Ended(outcome)
  }

  function FirstClient(s: State, step: Step, norm: string -> Option<string>): Client
    requires Enabled(s, step) && !step.Advance? && !step.Drop?
  {
    match step
    case BeginUpdate(_, id, patch) =>
      if !Live(s.rows, id) then Ended(RoleNotFound)
      else Settle(Judge(s.rows[id].name, patch, norm), id, s.rows[id].name, patch)
    case BeginDelete(_, id) =>
      if !Live(s.rows, id) then Ended(RoleNotFound)
      else if SystemName(s.rows[id].name) then Ended(SystemRoleCannotBeDeleted)
      else DeleteFind(id)
    case BeginCreate(_, name, description, isActive, permissionIds) =>
      if norm(name).None? then Ended(NameInvalid)
      else if Named(s.rows, norm(name).value) != {} then Ended(NameExists)
      else CreateInsert(Row(norm(name).value, description, isActive, Unique(permissionIds), true))
    case BeginLookup(_, admin, found) =>
      if MemoOf(s, admin).Some? then Answered(admin, MemoOf(s, admin).value)
      else if Named(s.rows, SystemNameOf(admin)) == {} then Ended(RoleNotFound)
      else MemoFound(admin, found)
  }

  /** The next state of a client that runs its pending call, and the rows after it. */
  function Advanced(rows: Rows, client: Client, newId: nat, norm: string -> Option<string>, indexed: bool): (Client, Rows)
    requires Active(client)
  {
    match client
    case UpdateName(id, currentName, patch) =>
      if NewName(patch, norm).None? then (Ended(NameInvalid), rows)
      else if Named(rows, NewName(patch, norm).value) != {} then (Ended(NameExists), rows)
      else (Settle(Proceed(currentName, patch), id, currentName, patch), rows)
    case UpdateFind(id, patch) => (if Live(rows, id) then UpdateWrite(id, patch) else Ended(RoleNotFound), rows)
    case UpdateWrite(id, patch) =>
      if BadName(patch, norm) then (Ended(NameInvalid), rows)
      else if Live(rows, id) && Refused(indexed, rows, id, NewName(patch, norm)) then (Ended(IndexViolation), rows)
      else (UpdateReread(id), PatchRow(rows, id, patch, NewName(patch, norm)))
    case UpdateReread(id) => (Ended(if Live(rows, id) then Done else RoleNotFound), rows)
    case DeleteFind(id) => (if Live(rows, id) then DeleteWrite(id) else Ended(RoleNotFound), rows)
    case DeleteWrite(id) => (Ended(if Live(rows, id) then Done else RoleNotFound), DeleteRow(rows, id))
    case CreateInsert(row) =>
      if Refused(indexed, rows, newId, Some(row.name)) then (Ended(IndexViolation), rows)
      else (Ended(Done), rows[newId := row])
    case MemoFound(admin, id) => (Answered(admin, id), rows)
  }

  function Apply(s: State, step: Step, norm: string -> Option<string>, indexed: bool): State
    requires Enabled(s, step)
  {
    match step
    case Drop(c) => s.(clients := s.clients[c := Ended(Failed)])
    case Advance(c, newId) =>
      var client := s.clients[c];
      var (next, rows) := Advanced(s.rows, client, newId, norm, indexed);
      State(rows, s.clients[c := next],
            if client.MemoFound? && client.admin then Some(client.id) else s.adminMemo,
            if client.MemoFound? && !client.admin then Some(client.id) else s.userMemo)
    case _ => s.(clients := s.clients[step.c := FirstClient(s, step, norm)])
  }

  predicate Legal(s: State, steps: seq<Step>, norm: string -> Option<string>, indexed: bool)
    decreases steps
  {
    steps == [] || (Enabled(s, steps[0]) && Legal(Apply(s, steps[0], norm, indexed), steps[1..], norm, indexed))
  }

  function Final(s: State, steps: seq<Step>, norm: string -> Option<string>, indexed: bool): State
    requires Legal(s, steps, norm, indexed)
    decreases steps
  {
    if steps == [] then s else Final(Apply(s, steps[0], norm, indexed), steps[1..], norm, indexed)
  }

  // ---- the invariant ----------------------------------------------------------------------

  /** A pending patch leaves the system roles alone. */
  predicate PatchSafe(id: nat, patch: Patch, norm: string -> Option<string>, adminId: nat, userId: nat) {
    var name := NewName(patch, norm);
    && (name.Some? ==> (name.value == ADMIN ==> id == adminId) && (name.value == USER ==> id == userId))
    && (id == adminId ==> patch.isActive == Some(true) && (name.Some? ==> name.value == ADMIN))
    && (id == userId ==> name.Some? ==> name.value == USER)
  }

  predicate ClientOk(client: Client, norm: string -> Option<string>, adminId: nat, userId: nat) {
    match client
    case UpdateName(id, currentName, patch) => id != adminId && id != userId && !SystemName(currentName) && patch.name.Some?
    case UpdateFind(id, patch) => PatchSafe(id, patch, norm, adminId, userId)
    case UpdateWrite(id, patch) => PatchSafe(id, patch, norm, adminId, userId)
    case DeleteFind(id) => id != adminId && id != userId
    case DeleteWrite(id) => id != adminId && id != userId
    case CreateInsert(row) => !SystemName(row.name) && row.live && norm(row.name) == Some(row.name)
    case MemoFound(admin, id) => id == if admin then adminId else userId
    case Answered(admin, id) => id == if admin then adminId else userId
    case _ => true
  }

  ghost predicate Inv(s: State, norm: string -> Option<string>, adminId: nat, userId: nat) {
    && SystemRolesStand(s.rows, adminId, userId)
    && NamesNormal(s.rows, norm)
    && (forall c | c in s.clients :: ClientOk(s.clients[c], norm, adminId, userId))
    && s.adminMemo in {None, Some(adminId)} && s.userMemo in {None, Some(userId)}
  }

  lemma NamedSystem(rows: Rows, adminId: nat, userId: nat)
    requires SystemRolesStand(rows, adminId, userId)
    ensures Named(rows, ADMIN) == {adminId} && Named(rows, USER) == {userId} && adminId != userId
  {
  }

  lemma FirstClientOk(s: State, step: Step, norm: string -> Option<string>, adminId: nat, userId: nat)
    requires Normalises(norm) && Inv(s, norm, adminId, userId) && Enabled(s, step) && !step.Advance? && !step.Drop?
    ensures ClientOk(FirstClient(s, step, norm), norm, adminId, userId)
  {
    NamedSystem(s.rows, adminId, userId);
    if step.BeginUpdate? && Live(s.rows, step.id) {
      var currentName, patch := s.rows[step.id].name, step.patch;
      assert norm(currentName) == Some(currentName);
    }
  }

  lemma AdvancedOk(
    rows: Rows, client: Client, newId: nat, norm: string -> Option<string>, indexed: bool, adminId: nat, userId: nat)
    requires Normalises(norm) && SystemRolesStand(rows, adminId, userId) && NamesNormal(rows, norm)
    requires Active(client) && ClientOk(client, norm, adminId, userId)
    requires client.CreateInsert? ==> newId !in rows
    ensures var (next, after) := Advanced(rows, client, newId, norm, indexed);
            && ClientOk(next, norm, adminId, userId)
            && SystemRolesStand(after, adminId, userId) && NamesNormal(after, norm)
            && (indexed && LiveNamesUnique(rows) ==> LiveNamesUnique(after))
  {
    NamedSystem(rows, adminId, userId);
    match client
    case UpdateWrite(id, patch) =>
      var name := NewName(patch, norm);
      if !BadName(patch, norm) && Live(rows, id) && !Refused(indexed, rows, id, name) {
        PatchKeepsSystemRoles(rows, id, patch, name, adminId, userId);
        if indexed && LiveNamesUnique(rows) {
          assert name.Some? && name.value != rows[id].name ==> id !in Named(rows, name.value);
          PatchKeepsUnique(rows, id, patch, name);
        }
      }
    case DeleteWrite(id) => DeleteKeeps(rows, id, adminId, userId);
    case CreateInsert(row) =>
      if !Refused(indexed, rows, newId, Some(row.name)) {
        InsertKeeps(rows, newId, row, adminId, userId);
      }
    case _ =>
  }

  lemma InvStep(
    s: State, step: Step, norm: string -> Option<string>, indexed: bool, adminId: nat, userId: nat)
    requires Normalises(norm) && Inv(s, norm, adminId, userId) && Enabled(s, step)
    ensures Inv(Apply(s, step, norm, indexed), norm, adminId, userId)
    ensures indexed && LiveNamesUnique(s.rows) ==> LiveNamesUnique(Apply(s, step, norm, indexed).rows)
  {
    match step
    case Advance(c, newId) => AdvancedOk(s.rows, s.clients[c], newId, norm, indexed, adminId, userId);
    case Drop(_) =>
    case _ => FirstClientOk(s, step, norm, adminId, userId);
  }

  lemma {:induction false} InvRun(
    s: State, steps: seq<Step>, norm: string -> Option<string>, indexed: bool, adminId: nat, userId: nat)
    requires Normalises(norm) && Inv(s, norm, adminId, userId) && Legal(s, steps, norm, indexed)
    ensures Inv(Final(s, steps, norm, indexed), norm, adminId, userId)
    ensures indexed && LiveNamesUnique(s.rows) ==> LiveNamesUnique(Final(s, steps, norm, indexed).rows)
    decreases steps
  {
    if steps != [] {
      InvStep(s, steps[0], norm, indexed, adminId, userId);
      InvRun(Apply(s, steps[0], norm, indexed), steps[1..], norm, indexed, adminId, userId);
    }
  }

  // ---- results over all runs --------------------------------------------------------------

  /** A seeded store, nobody at work, the memo empty. */
  ghost predicate Seeded(s: State, norm: string -> Option<string>, adminId: nat, userId: nat) {
    && SystemRolesStand(s.rows, adminId, userId) && NamesNormal(s.rows, norm)
    && s.clients == map[] && s.adminMemo == None && s.userMemo == None
  }

  /** With or without the index, in every interleaving, the system roles keep id, name and life. */
  lemma SystemRolesAlwaysStand(
    s: State, steps: seq<Step>, norm: string -> Option<string>, indexed: bool, adminId: nat, userId: nat)
    requires Normalises(norm) && Seeded(s, norm, adminId, userId) && Legal(s, steps, norm, indexed)
    ensures SystemRolesStand(Final(s, steps, norm, indexed).rows, adminId, userId)
  {
    InvRun(s, steps, norm, indexed, adminId, userId);
  }

  /** Every answer ever given for a system role is what a fresh lookup finds now. */
  lemma MemoIsFresh(
    s: State, steps: seq<Step>, norm: string -> Option<string>, indexed: bool, adminId: nat, userId: nat)
    requires Normalises(norm) && Seeded(s, norm, adminId, userId) && Legal(s, steps, norm, indexed)
    ensures var t := Final(s, steps, norm, indexed);
            && (forall admin | MemoOf(t, admin).Some? :: Named(t.rows, SystemNameOf(admin)) == {MemoOf(t, admin).value})
            && (forall c | c in t.clients && t.clients[c].Answered? ::
                  Named(t.rows, SystemNameOf(t.clients[c].admin)) == {t.clients[c].id})
  {
    InvRun(s, steps, norm, indexed, adminId, userId);
    var t := Final(s, steps, norm, indexed);
    NamedSystem(t.rows, adminId, userId);
    assert forall c | c in t.clients :: ClientOk(t.clients[c], norm, adminId, userId);
  }

  /** The index keeps every live name unique, whatever the checks before it raced with. */
  lemma IndexKeepsNamesUnique(s: State, steps: seq<Step>, norm: string -> Option<string>, adminId: nat, userId: nat)
    requires Normalises(norm) && Seeded(s, norm, adminId, userId) && Legal(s, steps, norm, true)
    requires LiveNamesUnique(s.rows)
    ensures LiveNamesUnique(Final(s, steps, norm, true).rows)
  {
    InvRun(s, steps, norm, true, adminId, userId);
  }

  /** Without it two creations that both looked the name up first duplicate it. */
  lemma ChecksAloneRace(s: State, norm: string -> Option<string>, adminId: nat, userId: nat, a: nat, b: nat, name: string)
    requires Normalises(norm) && Seeded(s, norm, adminId, userId)
    requires norm(name).Some? && Named(s.rows, norm(name).value) == {}
    requires a != b && a !in s.rows && b !in s.rows
    ensures exists steps ::
              Legal(s, steps, norm, false) && !LiveNamesUnique(Final(s, steps, norm, false).rows)
  {
    var row := Row(norm(name).value, "", true, [], true);
    var first, second := BeginCreate(1, name, "", true, []), BeginCreate(2, name, "", true, []);
    var s1 := s.(clients := s.clients[1 := CreateInsert(row)]);
    var s2 := s1.(clients := s1.clients[2 := CreateInsert(row)]);
    var s3 := s2.(rows := s2.rows[a := row], clients := s2.clients[1 := Ended(Done)]);
    var s4 := s3.(rows := s3.rows[b := row], clients := s3.clients[2 := Ended(Done)]);
    assert Apply(s, first, norm, false) == s1;
    assert Apply(s1, second, norm, false) == s2;
    assert Apply(s2, Advance(1, a), norm, false) == s3;
    assert Apply(s3, Advance(2, b), norm, false) == s4;
    Prepend(s3, Advance(2, b), [], norm, false);
    Prepend(s2, Advance(1, a), [Advance(2, b)] + [], norm, false);
    Prepend(s1, second, [Advance(1, a)] + ([Advance(2, b)] + []), norm, false);
    var rest := [second] + ([Advance(1, a)] + ([Advance(2, b)] + []));
    Prepend(s, first, rest, norm, false);
    assert Final(s, [first] + rest, norm, false) == s4;
    assert Live(s4.rows, a) && Live(s4.rows, b) && s4.rows[a].name == s4.rows[b].name;
  }

  lemma Prepend(s: State, step: Step, rest: seq<Step>, norm: string -> Option<string>, indexed: bool)
    requires Enabled(s, step) && Legal(Apply(s, step, norm, indexed), rest, norm, indexed)
    ensures Legal(s, [step] + rest, norm, indexed)
    ensures Final(s, [step] + rest, norm, indexed) == Final(Apply(s, step, norm, indexed), rest, norm, indexed)
  {
  }

  // ---- serialised runs --------------------------------------------------------------------

  /** A use case begins only when no other is in the middle of its calls. */
  predicate Serial(s: State, steps: seq<Step>, norm: string -> Option<string>)
    requires Legal(s, steps, norm, false)
    decreases steps
  {
    steps == [] || (
      && (steps[0].Advance? || steps[0].Drop? || forall c | c in s.clients :: !Active(s.clients[c]))
      && Serial(Apply(s, steps[0], norm, false), steps[1..], norm))
  }

  /** What a use case has checked still holds. */
  predicate Checked(rows: Rows, client: Client, norm: string -> Option<string>) {
    match client
    case UpdateName(id, currentName, _) => Live(rows, id) && rows[id].name == currentName
    case UpdateFind(id, patch) => NameFree(rows, id, NewName(patch, norm))
    case UpdateWrite(id, patch) => NameFree(rows, id, NewName(patch, norm))
    case CreateInsert(row) => row.live && Named(rows, row.name) == {}
    case _ => true
  }

  predicate NameFree(rows: Rows, id: nat, name: Option<string>) {
    Live(rows, id) && (name.Some? && name.value != rows[id].name ==> Named(rows, name.value) == {})
  }

  ghost predicate AloneOk(s: State, norm: string -> Option<string>) {
    && LiveNamesUnique(s.rows)
    && (forall a, b | a in s.clients && b in s.clients && Active(s.clients[a]) && Active(s.clients[b]) :: a == b)
    && (forall c | c in s.clients && Active(s.clients[c]) :: Checked(s.rows, s.clients[c], norm))
  }

  lemma AdvancedAlone(rows: Rows, client: Client, newId: nat, norm: string -> Option<string>)
    requires LiveNamesUnique(rows) && Active(client) && Checked(rows, client, norm)
    requires client.CreateInsert? ==> newId !in rows
    ensures var (next, after) := Advanced(rows, client, newId, norm, false);
            LiveNamesUnique(after) && Checked(after, next, norm)
  {
    match client
    case UpdateWrite(id, patch) =>
      if !BadName(patch, norm) {
        PatchKeepsUnique(rows, id, patch, NewName(patch, norm));
      }
    case DeleteWrite(id) => DeleteKeeps(rows, id, 0, 0);
    case CreateInsert(row) => InsertKeeps(rows, newId, row, 0, 0);
    case _ =>
  }

  lemma FirstAlone(s: State, step: Step, norm: string -> Option<string>)
    requires Normalises(norm) && Enabled(s, step) && !step.Advance? && !step.Drop?
    ensures Checked(s.rows, FirstClient(s, step, norm), norm)
  {
  }

  lemma AloneStep(s: State, step: Step, norm: string -> Option<string>)
    requires Normalises(norm) && AloneOk(s, norm) && Enabled(s, step)
    requires step.Advance? || step.Drop? || forall c | c in s.clients :: !Active(s.clients[c])
    ensures AloneOk(Apply(s, step, norm, false), norm)
  {
    match step
    case Advance(c, newId) => AdvancedAlone(s.rows, s.clients[c], newId, norm);
    case Drop(_) =>
    case _ => FirstAlone(s, step, norm);
  }

  lemma {:induction false} AloneRun(s: State, steps: seq<Step>, norm: string -> Option<string>)
    requires Normalises(norm) && AloneOk(s, norm) && Legal(s, steps, norm, false) && Serial(s, steps, norm)
    ensures AloneOk(Final(s, steps, norm, false), norm)
    decreases steps
  {
    if steps != [] {
      AloneStep(s, steps[0], norm);
      AloneRun(Apply(s, steps[0], norm, false), steps[1..], norm);
    }
  }

  /** Over every run of serialised use cases the checks alone keep live names unique, without the index. */
  lemma SerialKeepsNamesUnique(s: State, steps: seq<Step>, norm: string -> Option<string>)
    requires Normalises(norm) && Legal(s, steps, norm, false) && Serial(s, steps, norm)
    requires s.clients == map[] && LiveNamesUnique(s.rows)
    ensures LiveNamesUnique(Final(s, steps, norm, false).rows)
  {
    AloneRun(s, steps, norm);
  }

  // ---- exactly which writes break uniqueness ----------------------------------------------

  /** The client is about to give a live role a name that another live role bears. */
  predicate Collides(rows: Rows, client: Client, newId: nat, norm: string -> Option<string>) {
    match client
    case UpdateWrite(id, patch) =>
      !BadName(patch, norm) && Live(rows, id) && Refused(true, rows, id, NewName(patch, norm))
    case CreateInsert(row) => Refused(true, rows, newId, Some(row.name))
    case _ => false
  }

  predicate NoneCollides(s: State, steps: seq<Step>, norm: string -> Option<string>)
    requires Legal(s, steps, norm, false)
    decreases steps
  {
    steps == [] || (
      && (steps[0].Advance? ==> !Collides(s.rows, s.clients[steps[0].c], steps[0].newId, norm))
      && NoneCollides(Apply(s, steps[0], norm, false), steps[1..], norm))
  }

  ghost predicate AlwaysUnique(s: State, steps: seq<Step>, norm: string -> Option<string>)
    requires Legal(s, steps, norm, false)
    decreases steps
  {
    LiveNamesUnique(s.rows) && (steps == [] || AlwaysUnique(Apply(s, steps[0], norm, false), steps[1..], norm))
  }

  lemma CollisionBreaks(rows: Rows, client: Client, newId: nat, norm: string -> Option<string>)
    requires LiveNamesUnique(rows) && Active(client)
    requires client.CreateInsert? ==> newId !in rows && client.row.live
    ensures LiveNamesUnique(Advanced(rows, client, newId, norm, false).1) <==> !Collides(rows, client, newId, norm)
  {
    var after := Advanced(rows, client, newId, norm, false).1;
    match client
    case UpdateWrite(id, patch) =>
      var name := NewName(patch, norm);
      if Collides(rows, client, newId, norm) {
        var other :| other in Named(rows, name.value) - {id};
        assert Live(after, other) && Live(after, id) && after[other].name == after[id].name;
      } else if !BadName(patch, norm) && Live(rows, id) {
        assert name.Some? && name.value != rows[id].name ==> id !in Named(rows, name.value);
        PatchKeepsUnique(rows, id, patch, name);
      }
    case DeleteWrite(id) => DeleteKeeps(rows, id, 0, 0);
    case CreateInsert(row) =>
      if Collides(rows, client, newId, norm) {
        var other :| other in Named(rows, row.name);
        assert Live(after, other) && Live(after, newId) && after[other].name == after[newId].name;
      } else {
        InsertKeeps(rows, newId, row, 0, 0);
      }
    case _ =>
  }

  lemma {:induction false} UniqueRun(s: State, steps: seq<Step>, norm: string -> Option<string>, adminId: nat, userId: nat)
    requires Normalises(norm) && Inv(s, norm, adminId, userId) && Legal(s, steps, norm, false) && LiveNamesUnique(s.rows)
    ensures AlwaysUnique(s, steps, norm) <==> NoneCollides(s, steps, norm)
    decreases steps
  {
    if steps != [] {
      var (t, step) := (Apply(s, steps[0], norm, false), steps[0]);
      InvStep(s, step, norm, false, adminId, userId);
      if step.Advance? {
        assert ClientOk(s.clients[step.c], norm, adminId, userId);
        CollisionBreaks(s.rows, s.clients[step.c], step.newId, norm);
      }
      if LiveNamesUnique(t.rows) {
        UniqueRun(t, steps[1..], norm, adminId, userId);
      }
    }
  }

  /** The exact condition without the index: names stay unique if and only if no write collides, as the index would check. */
  lemma UniqueIffNoneCollides(s: State, steps: seq<Step>, norm: string -> Option<string>, adminId: nat, userId: nat)
    requires Normalises(norm) && Seeded(s, norm, adminId, userId) && Legal(s, steps, norm, false)
    requires LiveNamesUnique(s.rows)
    ensures AlwaysUnique(s, steps, norm) <==> NoneCollides(s, steps, norm)
  {
    UniqueRun(s, steps, norm, adminId, userId);
  }

  // ---- what races tell the callers --------------------------------------------------------

  /**
   * A call that finds its role gone says so; a deletion reports success exactly when it was the one
   * that ended the role's life; the index refuses exactly the writes that collide.
   */
  lemma RacesTell(s: State, c: nat, newId: nat, norm: string -> Option<string>, indexed: bool)
    requires Enabled(s, Advance(c, newId))
    ensures var (client, t) := (s.clients[c], Apply(s, Advance(c, newId), norm, indexed));
            && (client.UpdateFind? || client.DeleteFind? ==>
                  (t.clients[c] == Ended(RoleNotFound) <==> !Live(s.rows, client.id)) && t.rows == s.rows)
            && (client.UpdateReread? ==>
                  t.rows == s.rows && t.clients[c] == Ended(if Live(s.rows, client.id) then Done else RoleNotFound))
            && (client.DeleteWrite? ==>
                  && (t.clients[c] == Ended(Done) <==> Live(s.rows, client.id) && !Live(t.rows, client.id))
                  && (t.clients[c] == Ended(RoleNotFound) <==> !Live(s.rows, client.id)))
            && (client.UpdateName? ==>
                  && (t.clients[c] == Ended(NameInvalid) <==> NewName(client.patch, norm) == None)
                  && (t.clients[c] == Ended(NameExists) <==>
                        NewName(client.patch, norm).Some? && Named(s.rows, NewName(client.patch, norm).value) != {}))
            && (client.UpdateWrite? || client.CreateInsert? ==>
                  (t.clients[c] == Ended(IndexViolation) <==> indexed && Collides(s.rows, client, newId, norm)))
            && (t.clients[c] == Ended(IndexViolation) ==> t.rows == s.rows)
  {
  }

  /** A call that throws ends failed and leaves the store alone. */
  lemma DroppedCalls(s: State, c: nat, norm: string -> Option<string>, indexed: bool)
    requires c in s.clients && !s.clients[c].Ended? && !s.clients[c].Answered?
    ensures Enabled(s, Drop(c))
    ensures Apply(s, Drop(c), norm, indexed) == s.(clients := s.clients[c := Ended(Failed)])
  {
  }

  /** A deleted role stays deleted, so of several deletions one reports success. */
  lemma {:induction false} DeadStayDead(s: State, steps: seq<Step>, id: nat, norm: string -> Option<string>, indexed: bool)
    requires Legal(s, steps, norm, indexed) && id in s.rows && !s.rows[id].live
    ensures var t := Final(s, steps, norm, indexed); id in t.rows && !t.rows[id].live
    decreases steps
  {
    if steps != [] {
      var t := Apply(s, steps[0], norm, indexed);
      assert id in t.rows && !t.rows[id].live;
      DeadStayDead(t, steps[1..], id, norm, indexed);
    }
  }

  // ---- use cases left alone ---------------------------------------------------------------

  function CallsLeft(client: Client): nat {
    match client
    case UpdateName(_, _, _) => 4
    case UpdateFind(_, _) => 3
    case UpdateWrite(_, _) => 2
    case UpdateReread(_) => 1
    case DeleteFind(_) => 2
    case DeleteWrite(_) => 1
    case CreateInsert(_) => 1
    case MemoFound(_, _) => 1
    case Ended(_) => 0
    case Answered(_, _) => 0
  }

  /** Where a call gets to on its own, and the rows then. */
  function Through(rows: Rows, client: Client, newId: nat, norm: string -> Option<string>, indexed: bool): (Client, Rows)
    decreases CallsLeft(client)
  {
    if !Active(client) then (client, rows)
    else
      var (next, after) := Advanced(rows, client, newId, norm, indexed);
      Through(after, next, newId, norm, indexed)
  }

  /** And it does get there, by its own calls one after another, which touch no other call. */
  lemma {:induction false} GetsThrough(s: State, c: nat, newId: nat, norm: string -> Option<string>, indexed: bool)
    returns (steps: seq<Step>)
    requires c in s.clients && newId !in s.rows
    ensures Legal(s, steps, norm, indexed) && forall i | 0 <= i < |steps| :: steps[i] == Advance(c, newId)
    ensures var (t, last) := (Final(s, steps, norm, indexed), Through(s.rows, s.clients[c], newId, norm, indexed));
            t.rows == last.1 && t.clients == s.clients[c := last.0]
    ensures var (t, client) := (Final(s, steps, norm, indexed), s.clients[c]);
            client.MemoFound? ==> MemoOf(t, client.admin) == Some(client.id) && MemoOf(t, !client.admin) == MemoOf(s, !client.admin)
    decreases CallsLeft(s.clients[c])
  {
    if !Active(s.clients[c]) {
      assert s.clients[c := s.clients[c]] == s.clients;
      return [];
    }
    var t := Apply(s, Advance(c, newId), norm, indexed);
    if s.clients[c].CreateInsert? || s.clients[c].MemoFound? {
      assert !Active(t.clients[c]);
      Prepend(s, Advance(c, newId), [], norm, indexed);
      return [Advance(c, newId)] + [];
    }
    var rest := GetsThrough(t, c, newId, norm, indexed);
    Prepend(s, Advance(c, newId), rest, norm, indexed);
    assert t.clients[c := Through(t.rows, t.clients[c], newId, norm, indexed).0]
        == s.clients[c := Through(s.rows, s.clients[c], newId, norm, indexed).0];
    steps := [Advance(c, newId)] + rest;
  }

  /** Left alone, the calls of an update do what the use case promises, index or not. */
  lemma UpdateAlone(s: State, c: nat, id: nat, patch: Patch, newId: nat, norm: string -> Option<string>, indexed: bool)
    requires Normalises(norm) && NamesNormal(s.rows, norm) && LiveNamesUnique(s.rows) && c !in s.clients
    ensures var step := BeginUpdate(c, id, patch);
            && Enabled(s, step)
            && var (last, after) := Through(s.rows, FirstClient(s, step, norm), newId, norm, indexed);
               last.Ended? && UpdatedAs(s.rows, id, patch, norm, last.outcome, after)
  {
    UpdateMeans(s.rows, id, patch, norm);
    var client := FirstClient(s, BeginUpdate(c, id, patch), norm);
    if client.UpdateName? && Active(Advanced(s.rows, client, newId, norm, indexed).0) {
      WriteAlone(s.rows, id, patch, newId, norm, indexed);
    } else if client.UpdateFind? {
      WriteAlone(s.rows, id, patch, newId, norm, indexed);
    }
  }

  lemma WriteAlone(rows: Rows, id: nat, patch: Patch, newId: nat, norm: string -> Option<string>, indexed: bool)
    requires Live(rows, id) && LiveNamesUnique(rows) && NameFree(rows, id, NewName(patch, norm))
    ensures Through(rows, UpdateFind(id, patch), newId, norm, indexed)
         == if BadName(patch, norm) then (Ended(NameInvalid), rows)
            else (Ended(Done), PatchRow(rows, id, patch, NewName(patch, norm)))
  {
    assert !Refused(indexed, rows, id, NewName(patch, norm)) by {
      var name := NewName(patch, norm);
      if name.Some? && name.value == rows[id].name {
        assert forall other | other in Named(rows, name.value) :: other == id;
      }
    }
    var last := Through(rows, UpdateWrite(id, patch), newId, norm, indexed);
    assert Through(rows, UpdateFind(id, patch), newId, norm, indexed) == last;
    if !BadName(patch, norm) {
      var after := PatchRow(rows, id, patch, NewName(patch, norm));
      assert last == Through(after, UpdateReread(id), newId, norm, indexed);
      assert Through(after, UpdateReread(id), newId, norm, indexed) == (Ended(Done), after);
    } else {
      assert Through(rows, Ended(NameInvalid), newId, norm, indexed) == (Ended(NameInvalid), rows);
      assert last == (Ended(NameInvalid), rows);
    }
  }

  /** The same for a deletion. */
  lemma DeleteAlone(s: State, c: nat, id: nat, newId: nat, norm: string -> Option<string>, indexed: bool)
    requires c !in s.clients
    ensures var step := BeginDelete(c, id);
            && Enabled(s, step)
            && var (last, after) := Through(s.rows, FirstClient(s, step, norm), newId, norm, indexed);
               last.Ended? && DeletedAs(s.rows, id, last.outcome, after)
  {
    if Live(s.rows, id) && !SystemName(s.rows[id].name) {
      var last := Through(s.rows, DeleteWrite(id), newId, norm, indexed);
      var after := DeleteRow(s.rows, id);
      assert Through(after, Ended(Done), newId, norm, indexed) == (Ended(Done), after);
      assert last == (Ended(Done), after);
      assert Through(s.rows, DeleteFind(id), newId, norm, indexed) == last;
    }
  }

  /** And for a creation. */
  lemma CreateAlone(s: State, step: Step, newId: nat, norm: string -> Option<string>, indexed: bool)
    requires Normalises(norm) && step.BeginCreate? && step.c !in s.clients && newId !in s.rows
    ensures Enabled(s, step)
    ensures var (last, after) := Through(s.rows, FirstClient(s, step, norm), newId, norm, indexed);
            && last.Ended?
            && Created(s.rows, newId, step.name, step.description, step.isActive, step.permissionIds, norm, last.outcome, after)
  {
    UniqueIds(step.permissionIds);
    if norm(step.name).Some? {
      NameTaken(s.rows, norm(step.name).value);
    }
  }

  /** A look-up answers the memo, or a live role of the name, or that there is none. */
  lemma LookupAlone(s: State, c: nat, admin: bool, found: nat, newId: nat, norm: string -> Option<string>, indexed: bool)
    requires c !in s.clients && (found in Named(s.rows, SystemNameOf(admin)) || Named(s.rows, SystemNameOf(admin)) == {})
    ensures var step := BeginLookup(c, admin, found);
            && Enabled(s, step)
            && var (last, after) := Through(s.rows, FirstClient(s, step, norm), newId, norm, indexed);
               && after == s.rows
               && (MemoOf(s, admin).Some? ==> last == Answered(admin, MemoOf(s, admin).value))
               && (MemoOf(s, admin) == None && Named(s.rows, SystemNameOf(admin)) != {} ==>
                     last == Answered(admin, found) && found in Named(s.rows, SystemNameOf(admin)))
               && (MemoOf(s, admin) == None && Named(s.rows, SystemNameOf(admin)) == {} ==> last == Ended(RoleNotFound))
  {
  }
}
