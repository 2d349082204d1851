/**
 The relational schema (backend/src/db/schema): five tables as maps from primary key to row, the statements
 the services issue against them, and what the declared constraints promise.
 */
module Tables {
  import opened Wrappers

  type Uuid = string
  type Instant = int

  datatype Role = Owner | Member
  datatype Status = Lobby | Active | Ended

  datatype User = User(externalId: string, displayName: string, email: Option<string>)
  datatype Convoy = Convoy(
    owner: Uuid, name: string, inviteCode: string, status: Status, proximity: int,
    destLat: Option<real>, destLng: Option<real>, destLabel: Option<string>)
  datatype MemberRow = MemberRow(convoy: Uuid, user: Uuid, vehicle: Option<Uuid>, role: Role, leftAt: Option<Instant>)
  datatype VehicleSpec = VehicleSpec(
    make: string, model: string, year: Option<int>, color: Option<string>, powerKw: Option<int>,
    drivetrain: Option<string>, displacement: Option<int>, transmission: Option<string>)
  datatype Vehicle = Vehicle(user: Uuid, spec: VehicleSpec)
  datatype ModSpec = ModSpec(name: string, description: Option<string>, category: Option<string>)
  datatype Mod = Mod(vehicle: Uuid, spec: ModSpec)

  datatype Tables = Tables(
    users: map<Uuid, User>, convoys: map<Uuid, Convoy>, members: map<Uuid, MemberRow>,
    vehicles: map<Uuid, Vehicle>, mods: map<Uuid, Mod>)

  const EMPTY := Tables(map[], map[], map[], map[], map[])

  datatype Failure =
    | UniqueViolation | ForeignKeyViolation
    | ConvoyNotFound | NotConvoyOwner | NotConvoyMember | InviteCodeNotFound

  datatype Result<+T> = Ok(value: T) | Err(failure: Failure)

  // ---------------------------------------------------------------- selections

  function ConvoysOwnedBy(t: Tables, u: Uuid): set<Uuid> {
    set c | c in t.convoys && t.convoys[c].owner == u
  }

  function MembersOf(t: Tables, convoys: set<Uuid>): set<Uuid> {
    set m | m in t.members && t.members[m].convoy in convoys
  }

  function MembershipsOf(t: Tables, u: Uuid): set<Uuid> {
    set m | m in t.members && t.members[m].user == u
  }

  function VehiclesOf(t: Tables, u: Uuid): set<Uuid> {
    set v | v in t.vehicles && t.vehicles[v].user == u
  }

  function ModsOf(t: Tables, vehicles: set<Uuid>): set<Uuid> {
    set m | m in t.mods && t.mods[m].vehicle in vehicles
  }

  /** The row for a convoy and a user, current or left. */
  function Rows(t: Tables, c: Uuid, u: Uuid): set<Uuid> {
    set m | m in t.members && t.members[m].convoy == c && t.members[m].user == u
  }

  function ByInviteCode(t: Tables, code: string): set<Uuid> {
    set c | c in t.convoys && t.convoys[c].inviteCode == code
  }

  function ByExternalId(t: Tables, externalId: string): set<Uuid> {
    set u | u in t.users && t.users[u].externalId == externalId
  }

  // ---------------------------------------------------------------- statements

  function InsertConvoy(t: Tables, id: Uuid, row: Convoy): Result<Tables> {
    if id in t.convoys || ByInviteCode(t, row.inviteCode) != {} then Err(UniqueViolation)
    else if row.owner !in t.users then Err(ForeignKeyViolation)
    else Ok(t.(convoys := t.convoys[id := row]))
  }

  function InsertMember(t: Tables, id: Uuid, row: MemberRow): Result<Tables> {
    if id in t.members || Rows(t, row.convoy, row.user) != {} then Err(UniqueViolation)
    else if row.convoy !in t.convoys || row.user !in t.users then Err(ForeignKeyViolation)
    else if row.vehicle.Some? && row.vehicle.value !in t.vehicles then Err(ForeignKeyViolation)
    else Ok(t.(members := t.members[id := row]))
  }

  function InsertVehicle(t: Tables, id: Uuid, row: Vehicle): Result<Tables> {
    if id in t.vehicles then Err(UniqueViolation)
    else if row.user !in t.users then Err(ForeignKeyViolation)
    else Ok(t.(vehicles := t.vehicles[id := row]))
  }

  function InsertMod(t: Tables, id: Uuid, row: Mod): Result<Tables> {
    if id in t.mods then Err(UniqueViolation)
    else if row.vehicle !in t.vehicles then Err(ForeignKeyViolation)
    else Ok(t.(mods := t.mods[id := row]))
  }

  /** Members cascade. */
  function DeleteConvoys(t: Tables, convoys: set<Uuid>): Tables {
    t.(convoys := t.convoys - convoys, members := t.members - MembersOf(t, convoys))
  }

  /** Mods cascade; a membership pointing at a deleted vehicle is set to null. */
  function DeleteVehicles(t: Tables, vehicles: set<Uuid>): Tables {
    t.(vehicles := t.vehicles - vehicles, mods := t.mods - ModsOf(t, vehicles),
       members := Unassign(t.members, vehicles))
  }

  function Unassign(members: map<Uuid, MemberRow>, vehicles: set<Uuid>): map<Uuid, MemberRow> {
    map m | m in members ::
      (if members[m].vehicle.Some? && members[m].vehicle.value in vehicles then members[m].(vehicle := None)
       else members[m])
  }

  /** Blocked while the user owns a convoy, because `owner_user_id` has no delete rule; cascades otherwise. */
  function DeleteUser(t: Tables, u: Uuid): Result<Tables> {
    if u !in t.users then Ok(t)
    else if ConvoysOwnedBy(t, u) != {} then Err(ForeignKeyViolation)
    else
      var t' := DeleteVehicles(t, VehiclesOf(t, u));
      Ok(t'.(users := t'.users - {u}, members := t'.members - MembershipsOf(t', u)))
  }

  // ---------------------------------------------------------------- what the constraints promise

  ghost predicate UniqueExternalIds(users: map<Uuid, User>) {
    forall a, b | a in users && b in users :: users[a].externalId == users[b].externalId ==> a == b
  }

  ghost predicate UniqueInviteCodes(convoys: map<Uuid, Convoy>) {
    forall a, b | a in convoys && b in convoys :: convoys[a].inviteCode == convoys[b].inviteCode ==> a == b
  }

  ghost predicate UniqueMemberships(members: map<Uuid, MemberRow>) {
    forall a, b | a in members && b in members ::
      (members[a].convoy == members[b].convoy && members[a].user == members[b].user ==> a == b)
  }

  ghost predicate OwnersExist(convoys: map<Uuid, Convoy>, users: map<Uuid, User>) {
    forall c | c in convoys :: convoys[c].owner in users
  }

  ghost predicate MembersHaveConvoys(members: map<Uuid, MemberRow>, convoys: map<Uuid, Convoy>) {
    forall m | m in members :: members[m].convoy in convoys
  }

  ghost predicate MembersHaveUsers(members: map<Uuid, MemberRow>, users: map<Uuid, User>) {
    forall m | m in members :: members[m].user in users
  }

  ghost predicate MembersHaveVehicles(members: map<Uuid, MemberRow>, vehicles: map<Uuid, Vehicle>) {
    forall m | m in members :: members[m].vehicle.Some? ==> members[m].vehicle.value in vehicles
  }

  ghost predicate VehiclesHaveUsers(vehicles: map<Uuid, Vehicle>, users: map<Uuid, User>) {
    forall v | v in vehicles :: vehicles[v].user in users
  }

  ghost predicate ModsHaveVehicles(mods: map<Uuid, Mod>, vehicles: map<Uuid, Vehicle>) {
    forall m | m in mods :: mods[m].vehicle in vehicles
  }

  ghost predicate SchemaHolds(t: Tables) {
    && UniqueExternalIds(t.users) && UniqueInviteCodes(t.convoys) && UniqueMemberships(t.members)
    && OwnersExist(t.convoys, t.users)
    && MembersHaveConvoys(t.members, t.convoys) && MembersHaveUsers(t.members, t.users)
    && MembersHaveVehicles(t.members, t.vehicles)
    && VehiclesHaveUsers(t.vehicles, t.users) && ModsHaveVehicles(t.mods, t.vehicles)
  }

  // ---------------------------------------------------------------- every statement keeps them

  lemma InsertConvoyKeepsSchema(t: Tables, id: Uuid, row: Convoy)
    requires SchemaHolds(t) && InsertConvoy(t, id, row).Ok?
    ensures SchemaHolds(InsertConvoy(t, id, row).value)
  {
    forall c | c in t.convoys ensures t.convoys[c].inviteCode != row.inviteCode {
      assert c !in ByInviteCode(t, row.inviteCode);
    }
  }

  lemma InsertMemberKeepsSchema(t: Tables, id: Uuid, row: MemberRow)
    requires SchemaHolds(t) && InsertMember(t, id, row).Ok?
    ensures SchemaHolds(InsertMember(t, id, row).value)
  {
    forall m | m in t.members ensures !(t.members[m].convoy == row.convoy && t.members[m].user == row.user) {
      assert m !in Rows(t, row.convoy, row.user);
    }
  }

  lemma DeleteConvoysKeepsSchema(t: Tables, convoys: set<Uuid>)
    requires SchemaHolds(t)
    ensures SchemaHolds(DeleteConvoys(t, convoys))
  {
    var t' := DeleteConvoys(t, convoys);
    forall m | m in t'.members ensures t'.members[m].convoy in t'.convoys {
      assert m !in MembersOf(t, convoys);
    }
  }

  /** Nothing but where the rows point and when they left has changed. */
  ghost predicate SamePlaces(a: map<Uuid, MemberRow>, b: map<Uuid, MemberRow>) {
    && (forall m :: m in a <==> m in b)
    && (forall m | m in a :: a[m].convoy == b[m].convoy && a[m].user == b[m].user && a[m].role == b[m].role)
  }

  lemma UnassignKeepsPlaces(members: map<Uuid, MemberRow>, vehicles: set<Uuid>)
    ensures SamePlaces(members, Unassign(members, vehicles))
    ensures forall m | m in members :: var v := Unassign(members, vehicles)[m].vehicle;
      && (v.Some? ==> v == members[m].vehicle && v.value !in vehicles)
      && (v.None? ==> members[m].vehicle.None? || members[m].vehicle.value in vehicles)
  {
  }

  lemma DeleteVehiclesKeepsSchema(t: Tables, vehicles: set<Uuid>)
    requires SchemaHolds(t)
    ensures SchemaHolds(DeleteVehicles(t, vehicles))
  {
    var t' := DeleteVehicles(t, vehicles);
    UnassignKeepsPlaces(t.members, vehicles);
    forall m | m in t'.mods ensures t'.mods[m].vehicle in t'.vehicles {
      assert m !in ModsOf(t, vehicles);
    }
  }

  lemma DeleteUserKeepsSchema(t: Tables, u: Uuid)
    requires SchemaHolds(t) && DeleteUser(t, u).Ok?
    ensures SchemaHolds(DeleteUser(t, u).value)
  {
    if u in t.users {
      var mid := DeleteVehicles(t, VehiclesOf(t, u));
      DeleteVehiclesKeepsSchema(t, VehiclesOf(t, u));
      var t' := DeleteUser(t, u).value;
      forall m | m in t'.members ensures t'.members[m].user in t'.users {
        assert m !in MembershipsOf(mid, u);
      }
      forall v | v in t'.vehicles ensures t'.vehicles[v].user in t'.users {
        assert v !in VehiclesOf(t, u);
      }
      forall c | c in t'.convoys ensures t'.convoys[c].owner in t'.users {
        assert c !in ConvoysOwnedBy(t, u);
      }
    }
  }
}
