/**
 The services over the tables (backend/src/services: convoys.ts, users.ts, vehicles.ts, auth.ts) as
 transactions, and what every history of them keeps.
 */
module Membership {
  import opened Wrappers
  import opened Tables

  datatype Destination = Destination(lat: real, lng: real, name: Option<string>)
  datatype NewMod = NewMod(id: Uuid, spec: ModSpec)

  /** The row a `limit(1)` query returns. */
  ghost function Only(s: set<Uuid>): Uuid
    requires s != {}
  {
    var x :| x in s; x
  }

  // ---------------------------------------------------------------- the services

  /** An upsert keyed by the external id. */
  function GetOrCreateUser(t: Tables, id: Uuid, externalId: string, displayName: string, email: Option<string>)
    : Result<Tables>
  {
    if ByExternalId(t, externalId) != {} then
      Ok(t.(users := map u | u in t.users ::
        (if t.users[u].externalId == externalId then User(externalId, displayName, email) else t.users[u])))
    else if id in t.users then Err(UniqueViolation)
    else Ok(t.(users := t.users[id := User(externalId, displayName, email)]))
  }

  function CreateConvoy(t: Tables, owner: Uuid, name: string, proximity: int, code: string, id: Uuid, memberId: Uuid)
    : Result<Tables>
  {
    match InsertConvoy(t, id, Convoy(owner, name, code, Lobby, proximity, None, None, None))
    case Err(e) => Err(e)
    case Ok(t') => InsertMember(t', memberId, MemberRow(id, owner, None, Owner, None))
  }

  ghost function JoinConvoy(t: Tables, user: Uuid, code: string, memberId: Uuid): Result<Tables> {
    if ByInviteCode(t, code) == {} then Err(InviteCodeNotFound)
    else
      var c := Only(ByInviteCode(t, code));
      if Rows(t, c, user) == {} then InsertMember(t, memberId, MemberRow(c, user, None, Member, None))
      else
        var m := Only(Rows(t, c, user));
        Ok(t.(members := t.members[m := t.members[m].(leftAt := None)]))
  }

  function LeaveConvoy(t: Tables, user: Uuid, c: Uuid, now: Instant): Tables {
    t.(members := map m | m in t.members ::
      (if m in Rows(t, c, user) && t.members[m].leftAt.None? then t.members[m].(leftAt := Some(now))
       else t.members[m]))
  }

  function SetConvoyDestination(t: Tables, user: Uuid, c: Uuid, destination: Option<Destination>): Result<Tables> {
    if c !in t.convoys then Err(ConvoyNotFound)
    else if t.convoys[c].owner != user then Err(NotConvoyOwner)
    else
      var row := t.convoys[c];
      Ok(t.(convoys := t.convoys[c :=
        match destination
        case None => row.(destLat := None, destLng := None, destLabel := None)
        case Some(d) => row.(destLat := Some(d.lat), destLng := Some(d.lng), destLabel := d.name)]))
  }

  function InsertMods(t: Tables, vehicle: Uuid, mods: seq<NewMod>): Result<Tables>
    decreases mods
  {
    if mods == [] then Ok(t)
    else
      match InsertMod(t, mods[0].id, Mod(vehicle, mods[0].spec))
      case Err(e) => Err(e)
      case Ok(t') => InsertMods(t', vehicle, mods[1..])
  }

  /** Delete, then insert. */
  function SetUserVehicle(t: Tables, user: Uuid, id: Uuid, spec: VehicleSpec, mods: seq<NewMod>): Result<Tables> {
    match InsertVehicle(DeleteUserVehicle(t, user), id, Vehicle(user, spec))
    case Err(e) => Err(e)
    case Ok(t') => InsertMods(t', id, mods)
  }

  function DeleteUserVehicle(t: Tables, user: Uuid): Tables {
    DeleteVehicles(t, VehiclesOf(t, user))
  }

  /** Owned convoys first, then the user row. */
  function DeleteUserAccount(t: Tables, user: Uuid): Result<Tables> {
    DeleteUser(DeleteConvoys(t, ConvoysOwnedBy(t, user)), user)
  }

  // ---------------------------------------------------------------- what only the services promise

  ghost predicate OneVehicleEach(vehicles: map<Uuid, Vehicle>) {
    forall a, b | a in vehicles && b in vehicles :: vehicles[a].user == vehicles[b].user ==> a == b
  }

  /** The owner role is exactly the convoy's owner's. */
  ghost predicate OwnersOwn(members: map<Uuid, MemberRow>, convoys: map<Uuid, Convoy>) {
    forall m | m in members && members[m].convoy in convoys ::
      members[m].role == Owner <==> convoys[members[m].convoy].owner == members[m].user
  }

  ghost predicate IsRow(members: map<Uuid, MemberRow>, m: Uuid, c: Uuid, u: Uuid) {
    m in members && members[m].convoy == c && members[m].user == u
  }

  ghost predicate Enrolled(members: map<Uuid, MemberRow>, c: Uuid, u: Uuid) {
    exists m :: IsRow(members, m, c, u)
  }

  ghost predicate OwnersEnrolled(members: map<Uuid, MemberRow>, convoys: map<Uuid, Convoy>) {
    forall c | c in convoys :: Enrolled(members, c, convoys[c].owner)
  }

  /** No service ever writes `vehicle_id`. */
  ghost predicate NoVehicleAssigned(members: map<Uuid, MemberRow>) {
    forall m | m in members :: members[m].vehicle.None?
  }

  ghost predicate PolicyHolds(t: Tables) {
    && OneVehicleEach(t.vehicles) && OwnersOwn(t.members, t.convoys)
    && OwnersEnrolled(t.members, t.convoys) && NoVehicleAssigned(t.members)
  }

  ghost predicate Sound(t: Tables) {
    SchemaHolds(t) && PolicyHolds(t)
  }

  // ---------------------------------------------------------------- one service at a time

  /** Owners stay enrolled as long as no row of theirs is dropped. */
  lemma EnrolmentLasts(a: map<Uuid, MemberRow>, b: map<Uuid, MemberRow>, c: Uuid, u: Uuid)
    requires Enrolled(a, c, u)
    requires forall m | IsRow(a, m, c, u) :: IsRow(b, m, c, u)
    ensures Enrolled(b, c, u)
  {
    var m :| IsRow(a, m, c, u);
    assert IsRow(b, m, c, u);
  }

  lemma SamePlacesKeepSound(t: Tables, members: map<Uuid, MemberRow>)
    requires Sound(t) && SamePlaces(t.members, members) && NoVehicleAssigned(members)
    ensures Sound(t.(members := members))
  {
    SamePlacesKeepPolicy(t.members, members, t.convoys);
    assert UniqueMemberships(members) && MembersHaveConvoys(members, t.convoys) && MembersHaveUsers(members, t.users);
  }

  lemma SamePlacesKeepPolicy(a: map<Uuid, MemberRow>, b: map<Uuid, MemberRow>, convoys: map<Uuid, Convoy>)
    requires SamePlaces(a, b) && OwnersOwn(a, convoys) && OwnersEnrolled(a, convoys)
    ensures OwnersOwn(b, convoys) && OwnersEnrolled(b, convoys)
  {
    forall c | c in convoys ensures Enrolled(b, c, convoys[c].owner) {
      EnrolmentLasts(a, b, c, convoys[c].owner);
    }
  }

  lemma GetOrCreateUserKeepsSound(t: Tables, id: Uuid, externalId: string, displayName: string, email: Option<string>)
    requires Sound(t) && GetOrCreateUser(t, id, externalId, displayName, email).Ok?
    ensures Sound(GetOrCreateUser(t, id, externalId, displayName, email).value)
  {
    if ByExternalId(t, externalId) == {} {
      forall u | u in t.users ensures t.users[u].externalId != externalId {
        assert u !in ByExternalId(t, externalId);
      }
    }
  }

  lemma CreateConvoyKeepsSound(t: Tables, owner: Uuid, name: string, proximity: int, code: string, id: Uuid,
                               memberId: Uuid)
    requires Sound(t) && CreateConvoy(t, owner, name, proximity, code, id, memberId).Ok?
    ensures Sound(CreateConvoy(t, owner, name, proximity, code, id, memberId).value)
  {
    var row := Convoy(owner, name, code, Lobby, proximity, None, None, None);
    var mid := InsertConvoy(t, id, row).value;
    InsertConvoyKeepsSchema(t, id, row);
    InsertMemberKeepsSchema(mid, memberId, MemberRow(id, owner, None, Owner, None));
    var t' := CreateConvoy(t, owner, name, proximity, code, id, memberId).value;
    NewConvoyKeepsPolicy(t, t', id, row, memberId);
  }

  lemma NewRowKeepsOwners(members: map<Uuid, MemberRow>, convoys: map<Uuid, Convoy>, m: Uuid, row: MemberRow)
    requires OwnersOwn(members, convoys) && row.convoy in convoys
    requires row.role == Owner <==> convoys[row.convoy].owner == row.user
    ensures OwnersOwn(members[m := row], convoys)
  {
  }

  lemma NewRowKeepsEnrolment(members: map<Uuid, MemberRow>, convoys: map<Uuid, Convoy>, m: Uuid, row: MemberRow)
    requires OwnersEnrolled(members, convoys) && m !in members
    ensures OwnersEnrolled(members[m := row], convoys)
  {
    forall c | c in convoys ensures Enrolled(members[m := row], c, convoys[c].owner) {
      EnrolmentLasts(members, members[m := row], c, convoys[c].owner);
    }
  }

  lemma NewConvoyKeepsPolicy(t: Tables, t': Tables, id: Uuid, row: Convoy, memberId: Uuid)
    requires Sound(t) && id !in t.convoys && memberId !in t.members
    requires t' == t.(convoys := t.convoys[id := row],
                      members := t.members[memberId := MemberRow(id, row.owner, None, Owner, None)])
    ensures PolicyHolds(t')
  {
    var convoys := t.convoys[id := row];
    assert OwnersOwn(t.members, convoys);
    NewRowKeepsOwners(t.members, convoys, memberId, MemberRow(id, row.owner, None, Owner, None));
    NewRowKeepsEnrolment(t.members, t.convoys, memberId, MemberRow(id, row.owner, None, Owner, None));
    assert IsRow(t'.members, memberId, id, row.owner);
    assert OwnersEnrolled(t'.members, t'.convoys);
  }

  /** A newcomer is never the owner, whose row exists already. */
  lemma NewMemberKeepsSound(t: Tables, c: Uuid, user: Uuid, memberId: Uuid)
    requires Sound(t) && Rows(t, c, user) == {}
    requires InsertMember(t, memberId, MemberRow(c, user, None, Member, None)).Ok?
    ensures Sound(InsertMember(t, memberId, MemberRow(c, user, None, Member, None)).value)
  {
    var row := MemberRow(c, user, None, Member, None);
    InsertMemberKeepsSchema(t, memberId, row);
    NotTheOwner(t, c, user);
    NewRowKeepsOwners(t.members, t.convoys, memberId, row);
    NewRowKeepsEnrolment(t.members, t.convoys, memberId, row);
  }

  lemma NotTheOwner(t: Tables, c: Uuid, user: Uuid)
    requires OwnersEnrolled(t.members, t.convoys) && c in t.convoys && Rows(t, c, user) == {}
    ensures t.convoys[c].owner != user
  {
    assert Enrolled(t.members, c, t.convoys[c].owner);
    var m :| IsRow(t.members, m, c, t.convoys[c].owner);
    assert m !in Rows(t, c, user);
  }

  lemma JoinConvoyKeepsSound(t: Tables, user: Uuid, code: string, memberId: Uuid)
    requires Sound(t) && JoinConvoy(t, user, code, memberId).Ok?
    ensures Sound(JoinConvoy(t, user, code, memberId).value)
  {
    var c := Only(ByInviteCode(t, code));
    if Rows(t, c, user) == {} {
      NewMemberKeepsSound(t, c, user, memberId);
    } else {
      SamePlacesKeepSound(t, JoinConvoy(t, user, code, memberId).value.members);
    }
  }

  lemma LeaveConvoyKeepsSound(t: Tables, user: Uuid, c: Uuid, now: Instant)
    requires Sound(t)
    ensures Sound(LeaveConvoy(t, user, c, now))
  {
    SamePlacesKeepSound(t, LeaveConvoy(t, user, c, now).members);
  }

  /** Nothing but destinations has changed. */
  ghost predicate SameRights(a: map<Uuid, Convoy>, b: map<Uuid, Convoy>) {
    && (forall c :: c in a <==> c in b)
    && (forall c | c in a :: a[c].owner == b[c].owner && a[c].inviteCode == b[c].inviteCode)
  }

  lemma SameRightsKeepSound(t: Tables, convoys: map<Uuid, Convoy>)
    requires Sound(t) && SameRights(t.convoys, convoys)
    ensures Sound(t.(convoys := convoys))
  {
    assert OwnersEnrolled(t.members, convoys);
    assert OwnersOwn(t.members, convoys) && UniqueInviteCodes(convoys);
  }

  lemma SetConvoyDestinationKeepsSound(t: Tables, user: Uuid, c: Uuid, destination: Option<Destination>)
    requires Sound(t) && SetConvoyDestination(t, user, c, destination).Ok?
    ensures Sound(SetConvoyDestination(t, user, c, destination).value)
  {
    SameRightsKeepSound(t, SetConvoyDestination(t, user, c, destination).value.convoys);
  }

  lemma DeleteVehiclesKeepsSound(t: Tables, vehicles: set<Uuid>)
    requires Sound(t)
    ensures Sound(DeleteVehicles(t, vehicles))
    ensures DeleteVehicles(t, vehicles).members == t.members
  {
    assert Unassign(t.members, vehicles) == t.members;
    DeleteVehiclesKeepsSchema(t, vehicles);
    assert OneVehicleEach(t.vehicles - vehicles);
  }

  lemma {:induction false} InsertModsKeepsSound(t: Tables, vehicle: Uuid, mods: seq<NewMod>)
    requires Sound(t) && InsertMods(t, vehicle, mods).Ok?
    ensures Sound(InsertMods(t, vehicle, mods).value)
    decreases mods
  {
    if mods != [] {
      var mid := InsertMod(t, mods[0].id, Mod(vehicle, mods[0].spec)).value;
      InsertModsKeepsSound(mid, vehicle, mods[1..]);
    }
  }

  lemma SetUserVehicleKeepsSound(t: Tables, user: Uuid, id: Uuid, spec: VehicleSpec, mods: seq<NewMod>)
    requires Sound(t) && SetUserVehicle(t, user, id, spec, mods).Ok?
    ensures Sound(SetUserVehicle(t, user, id, spec, mods).value)
  {
    var bare := DeleteUserVehicle(t, user);
    DeleteVehiclesKeepsSound(t, VehiclesOf(t, user));
    NewVehicleKeepsSound(bare, user, id, spec);
    InsertModsKeepsSound(InsertVehicle(bare, id, Vehicle(user, spec)).value, id, mods);
  }

  lemma NewVehicleKeepsSound(t: Tables, user: Uuid, id: Uuid, spec: VehicleSpec)
    requires Sound(t) && VehiclesOf(t, user) == {} && InsertVehicle(t, id, Vehicle(user, spec)).Ok?
    ensures Sound(InsertVehicle(t, id, Vehicle(user, spec)).value)
  {
    forall v | v in t.vehicles ensures t.vehicles[v].user != user {
      assert v !in VehiclesOf(t, user);
    }
  }

  lemma DeleteConvoysKeepsSound(t: Tables, convoys: set<Uuid>)
    requires Sound(t)
    ensures Sound(DeleteConvoys(t, convoys))
  {
    DeleteConvoysKeepsSchema(t, convoys);
    var t' := DeleteConvoys(t, convoys);
    forall d | d in t'.convoys ensures Enrolled(t'.members, d, t'.convoys[d].owner) {
      EnrolmentLasts(t.members, t'.members, d, t.convoys[d].owner);
    }
  }

  lemma DeleteUserKeepsSound(t: Tables, u: Uuid)
    requires Sound(t) && DeleteUser(t, u).Ok?
    ensures Sound(DeleteUser(t, u).value)
  {
    if u in t.users {
      DeleteUserKeepsSchema(t, u);
      DeleteVehiclesKeepsSound(t, VehiclesOf(t, u));
      var t' := DeleteUser(t, u).value;
      forall d | d in t'.convoys ensures Enrolled(t'.members, d, t'.convoys[d].owner) {
        assert d !in ConvoysOwnedBy(t, u);
        EnrolmentLasts(t.members, t'.members, d, t.convoys[d].owner);
      }
    }
  }

  // ---------------------------------------------------------------- whole histories

  /** One call of a service; ids, codes and clock readings the database or runtime draws are parameters. */
  datatype Request =
    | SignIn(newId: Uuid, externalId: string, displayName: string, email: Option<string>)
    | Create(owner: Uuid, name: string, proximity: int, code: string, convoyId: Uuid, memberId: Uuid)
    | Join(user: Uuid, code: string, memberId: Uuid)
    | Leave(user: Uuid, convoyId: Uuid, now: Instant)
    | SetDestination(user: Uuid, convoyId: Uuid, destination: Option<Destination>)
    | SetVehicle(user: Uuid, vehicleId: Uuid, spec: VehicleSpec, mods: seq<NewMod>)
    | DropVehicle(user: Uuid)
    | DropAccount(user: Uuid)

  ghost function Outcome(t: Tables, r: Request): Result<Tables> {
    match r
    case SignIn(id, externalId, displayName, email) => GetOrCreateUser(t, id, externalId, displayName, email)
    case Create(owner, name, proximity, code, id, memberId) => CreateConvoy(t, owner, name, proximity, code, id, memberId)
    case Join(user, code, memberId) => JoinConvoy(t, user, code, memberId)
    case Leave(user, c, now) => Ok(LeaveConvoy(t, user, c, now))
    case SetDestination(user, c, destination) => SetConvoyDestination(t, user, c, destination)
    case SetVehicle(user, id, spec, mods) => SetUserVehicle(t, user, id, spec, mods)
    case DropVehicle(user) => Ok(DeleteUserVehicle(t, user))
    case DropAccount(user) => DeleteUserAccount(t, user)
  }

  /** A failed transaction is rolled back. */
  ghost function Commit(t: Tables, outcome: Result<Tables>): Tables {
    match outcome
    case Ok(t') => t'
    case Err(_) => t
  }

  ghost function Run(t: Tables, history: seq<Request>): Tables {
    if history == [] then t
    else
      var before := Run(t, history[..|history| - 1]);
      Commit(before, Outcome(before, history[|history| - 1]))
  }

  lemma StepKeepsSound(t: Tables, r: Request)
    requires Sound(t)
    ensures Sound(Commit(t, Outcome(t, r)))
  {
    if Outcome(t, r).Ok? {
      match r
      case SignIn(id, externalId, displayName, email) =>
        GetOrCreateUserKeepsSound(t, id, externalId, displayName, email);
      case Create(owner, name, proximity, code, id, memberId) =>
        CreateConvoyKeepsSound(t, owner, name, proximity, code, id, memberId);
      case Join(user, code, memberId) => JoinConvoyKeepsSound(t, user, code, memberId);
      case Leave(user, c, now) => LeaveConvoyKeepsSound(t, user, c, now);
      case SetDestination(user, c, destination) => SetConvoyDestinationKeepsSound(t, user, c, destination);
      case SetVehicle(user, id, spec, mods) => SetUserVehicleKeepsSound(t, user, id, spec, mods);
      case DropVehicle(user) => DeleteVehiclesKeepsSound(t, VehiclesOf(t, user));
      case DropAccount(user) =>
        DeleteConvoysKeepsSound(t, ConvoysOwnedBy(t, user));
        DeleteUserKeepsSound(DeleteConvoys(t, ConvoysOwnedBy(t, user)), user);
    }
  }

  /** From empty tables, every history keeps the keys, the references, one vehicle a user and the owner rows. */
  lemma {:induction false} HistoryKeepsSound(history: seq<Request>)
    ensures Sound(Run(EMPTY, history))
  {
    if history != [] {
      HistoryKeepsSound(history[..|history| - 1]);
      StepKeepsSound(Run(EMPTY, history[..|history| - 1]), history[|history| - 1]);
    }
  }

  // ---------------------------------------------------------------- what that means

  /** Each convoy has exactly one owner-role row, and it is its `owner_user_id`'s. */
  lemma ExactlyOneOwnerRow(t: Tables, c: Uuid) returns (row: Uuid)
    requires Sound(t) && c in t.convoys
    ensures row in t.members && t.members[row].user == t.convoys[c].owner
    ensures forall m | m in t.members :: t.members[m].convoy == c && t.members[m].role == Owner <==> m == row
  {
    assert Enrolled(t.members, c, t.convoys[c].owner);
    row :| IsRow(t.members, row, c, t.convoys[c].owner);
  }

  /** The gateway's two questions (createMemberResolver, createLeaderResolver). */
  ghost function CurrentRows(t: Tables, c: Uuid, externalId: string): set<Uuid> {
    set m | m in t.members && t.members[m].convoy == c && t.members[m].leftAt.None?
            && t.members[m].user in ByExternalId(t, externalId)
  }

  ghost function ResolveMember(t: Tables, c: Uuid, externalId: string): Option<string> {
    if CurrentRows(t, c, externalId) == {} then None else Some(externalId)
  }

  ghost predicate ResolveLeader(t: Tables, c: Uuid, externalId: string) {
    CurrentRows(t, c, externalId) != {} && t.members[Only(CurrentRows(t, c, externalId))].role == Owner
  }

  /** The leader check accepts exactly the convoy's owner, and only while that owner has not left. */
  lemma LeaderIsTheCurrentOwner(t: Tables, c: Uuid, externalId: string)
    requires Sound(t)
    ensures ResolveLeader(t, c, externalId) <==>
            (c in t.convoys && t.users[t.convoys[c].owner].externalId == externalId
             && ResolveMember(t, c, externalId).Some?)
  {
    if CurrentRows(t, c, externalId) != {} {
      var m := Only(CurrentRows(t, c, externalId));
      assert m in CurrentRows(t, c, externalId);
    }
  }

  /** Signing in leaves one row for the external id, refreshed, under its old key if there was one. */
  lemma SignInIsAnUpsert(t: Tables, id: Uuid, externalId: string, displayName: string, email: Option<string>)
    returns (u: Uuid)
    requires UniqueExternalIds(t.users) && GetOrCreateUser(t, id, externalId, displayName, email).Ok?
    ensures GetOrCreateUser(t, id, externalId, displayName, email)
            == Ok(t.(users := t.users[u := User(externalId, displayName, email)]))
    ensures if ByExternalId(t, externalId) == {} then u == id && id !in t.users
            else ByExternalId(t, externalId) == {u}
  {
    if ByExternalId(t, externalId) == {} {
      u := id;
    } else {
      u := Only(ByExternalId(t, externalId));
      assert ByExternalId(t, externalId) == {u};
      var users := GetOrCreateUser(t, id, externalId, displayName, email).value.users;
      assert users == t.users[u := User(externalId, displayName, email)] by {
        forall o | o in t.users && o != u ensures users[o] == t.users[o] {
          assert o !in ByExternalId(t, externalId);
        }
      }
    }
  }

  /** Setting a destination writes three columns of one row, for the owner only. */
  lemma DestinationTouchesOneRow(t: Tables, user: Uuid, c: Uuid, destination: Option<Destination>)
    ensures var outcome := SetConvoyDestination(t, user, c, destination);
            && (outcome.Ok? <==> c in t.convoys && t.convoys[c].owner == user)
            && (c !in t.convoys ==> outcome == Err(ConvoyNotFound))
            && (c in t.convoys && t.convoys[c].owner != user ==> outcome == Err(NotConvoyOwner))
            && (outcome.Ok? ==>
                  var row := outcome.value.convoys[c];
                  && outcome.value == t.(convoys := t.convoys[c := row])
                  && row == t.convoys[c].(destLat := row.destLat, destLng := row.destLng, destLabel := row.destLabel)
                  && (destination.None? ==> row.destLat.None? && row.destLng.None? && row.destLabel.None?)
                  && (destination.Some? ==> row.destLat == Some(destination.value.lat)
                                            && row.destLng == Some(destination.value.lng)
                                            && row.destLabel == destination.value.name))
  {
  }

  /** Joining for the first time adds one row, of an ordinary current member without a vehicle. */
  lemma FirstJoinAddsOneRow(t: Tables, user: Uuid, c: Uuid, memberId: Uuid)
    requires UniqueInviteCodes(t.convoys) && c in t.convoys && user in t.users && memberId !in t.members
    requires forall m | m in t.members :: !(t.members[m].convoy == c && t.members[m].user == user)
    ensures JoinConvoy(t, user, t.convoys[c].inviteCode, memberId)
            == Ok(t.(members := t.members[memberId := MemberRow(c, user, None, Member, None)]))
  {
    OneConvoyByCode(t, c);
    assert Rows(t, c, user) == {};
  }

  /** Dropping a vehicle takes the user's vehicles and their mods, and nothing else. */
  lemma DroppingAVehicleIsExact(t: Tables, user: Uuid)
    requires Sound(t)
    ensures var t' := DeleteUserVehicle(t, user);
            && t'.users == t.users && t'.convoys == t.convoys && t'.members == t.members
            && (forall v :: v in t'.vehicles <==> v in t.vehicles && t.vehicles[v].user != user)
            && (forall v | v in t'.vehicles :: t'.vehicles[v] == t.vehicles[v])
            && (forall m :: m in t'.mods <==> m in t.mods && t.vehicles[t.mods[m].vehicle].user != user)
            && (forall m | m in t'.mods :: t'.mods[m] == t.mods[m])
  {
    DeleteVehiclesKeepsSound(t, VehiclesOf(t, user));
  }

  lemma OwnerRowLeads(t: Tables, m: Uuid)
    requires UniqueExternalIds(t.users) && UniqueMemberships(t.members)
    requires m in t.members && t.members[m].role == Owner && t.members[m].leftAt.None? && t.members[m].user in t.users
    ensures ResolveLeader(t, t.members[m].convoy, t.users[t.members[m].user].externalId)
  {
    var c, externalId := t.members[m].convoy, t.users[t.members[m].user].externalId;
    assert m in CurrentRows(t, c, externalId);
    var n := Only(CurrentRows(t, c, externalId));
    assert n in CurrentRows(t, c, externalId);
    assert t.members[n].user == t.members[m].user;
  }

  lemma WhatCreationAdds(t: Tables, owner: Uuid, name: string, proximity: int, code: string, id: Uuid, memberId: Uuid)
    requires CreateConvoy(t, owner, name, proximity, code, id, memberId).Ok?
    ensures id !in t.convoys && memberId !in t.members && owner in t.users
    ensures CreateConvoy(t, owner, name, proximity, code, id, memberId).value
            == t.(convoys := t.convoys[id := Convoy(owner, name, code, Lobby, proximity, None, None, None)],
                  members := t.members[memberId := MemberRow(id, owner, None, Owner, None)])
  {
  }

  /** A new convoy is found by its code and led by its creator. */
  lemma CreatorLeads(t: Tables, owner: Uuid, name: string, proximity: int, code: string, id: Uuid, memberId: Uuid)
    requires Sound(t) && CreateConvoy(t, owner, name, proximity, code, id, memberId).Ok?
    ensures owner in t.users
    ensures ByInviteCode(CreateConvoy(t, owner, name, proximity, code, id, memberId).value, code) == {id}
    ensures ResolveLeader(CreateConvoy(t, owner, name, proximity, code, id, memberId).value, id,
                          t.users[owner].externalId)
  {
    WhatCreationAdds(t, owner, name, proximity, code, id, memberId);
    CreateConvoyKeepsSound(t, owner, name, proximity, code, id, memberId);
    var t' := CreateConvoy(t, owner, name, proximity, code, id, memberId).value;
    OneConvoyByCode(t', id);
    OwnerRowLeads(t', memberId);
  }

  /** Creating fails only for a key or code already taken, or an unknown owner. */
  lemma CreationFailsExactlyWhen(
      t: Tables, owner: Uuid, name: string, proximity: int, code: string, id: Uuid, memberId: Uuid)
    requires MembersHaveConvoys(t.members, t.convoys)
    ensures CreateConvoy(t, owner, name, proximity, code, id, memberId).Err? <==>
            || id in t.convoys || memberId in t.members || owner !in t.users
            || exists c :: c in t.convoys && t.convoys[c].inviteCode == code
  {
    if ByInviteCode(t, code) == {} {
      forall c | c in t.convoys ensures t.convoys[c].inviteCode != code {
        assert c !in ByInviteCode(t, code);
      }
    } else {
      var c :| c in ByInviteCode(t, code);
    }
    if id !in t.convoys {
      NoRowsInNewConvoy(t, id, owner);
    }
  }

  lemma NoRowsInNewConvoy(t: Tables, id: Uuid, owner: Uuid)
    requires MembersHaveConvoys(t.members, t.convoys) && id !in t.convoys
    ensures forall convoys :: Rows(t.(convoys := convoys), id, owner) == {}
  {
  }

  /** `limit(1)` has nothing to choose from: invite codes and memberships are unique. */
  lemma OneConvoyByCode(t: Tables, c: Uuid)
    requires UniqueInviteCodes(t.convoys) && c in t.convoys
    ensures ByInviteCode(t, t.convoys[c].inviteCode) == {c}
  {
  }

  lemma OneRow(t: Tables, m: Uuid)
    requires UniqueMemberships(t.members) && m in t.members
    ensures Rows(t, t.members[m].convoy, t.members[m].user) == {m}
  {
  }

  /** Leaving takes the user out of the gateway's and the roster's sight. */
  lemma LeavingRevokesMembership(t: Tables, user: Uuid, c: Uuid, now: Instant)
    requires UniqueExternalIds(t.users) && user in t.users
    ensures ResolveMember(LeaveConvoy(t, user, c, now), c, t.users[user].externalId).None?
  {
    var away := LeaveConvoy(t, user, c, now);
    assert ByExternalId(away, t.users[user].externalId) == {user};
    forall o ensures o !in CurrentRows(away, c, t.users[user].externalId) {
      if IsRow(t.members, o, c, user) {
        assert o in Rows(t, c, user);
      }
    }
    assert CurrentRows(away, c, t.users[user].externalId) == {};
  }

  lemma LeavingTouchesOneRow(t: Tables, m: Uuid, now: Instant)
    requires UniqueMemberships(t.members) && m in t.members && t.members[m].leftAt.None?
    ensures LeaveConvoy(t, t.members[m].user, t.members[m].convoy, now)
            == t.(members := t.members[m := t.members[m].(leftAt := Some(now))])
  {
    OneRow(t, m);
    var away := LeaveConvoy(t, t.members[m].user, t.members[m].convoy, now).members;
    assert away == t.members[m := t.members[m].(leftAt := Some(now))];
  }

  /** Who is not a current member has nothing to leave. */
  lemma LeavingAgainChangesNothing(t: Tables, user: Uuid, c: Uuid, now: Instant)
    requires forall m | m in t.members && t.members[m].convoy == c && t.members[m].user == user :: t.members[m].leftAt.Some?
    ensures LeaveConvoy(t, user, c, now) == t
  {
    assert LeaveConvoy(t, user, c, now).members == t.members;
  }

  lemma RejoiningRestoresOneRow(t: Tables, m: Uuid, memberId: Uuid)
    requires UniqueInviteCodes(t.convoys) && UniqueMemberships(t.members)
    requires m in t.members && t.members[m].convoy in t.convoys
    ensures JoinConvoy(t, t.members[m].user, t.convoys[t.members[m].convoy].inviteCode, memberId)
            == Ok(t.(members := t.members[m := t.members[m].(leftAt := None)]))
  {
    OneConvoyByCode(t, t.members[m].convoy);
    OneRow(t, m);
  }

  lemma MarkingIsUndone(members: map<Uuid, MemberRow>, m: Uuid, now: Instant)
    requires UniqueMemberships(members) && m in members && members[m].leftAt.None?
    ensures var away := members[m := members[m].(leftAt := Some(now))];
            UniqueMemberships(away) && away[m := away[m].(leftAt := None)] == members
  {
  }

  /** Leaving keeps the row, so coming back restores exactly the state before: same row, same role. */
  lemma LeaveThenJoin(t: Tables, m: Uuid, now: Instant, memberId: Uuid)
    requires UniqueInviteCodes(t.convoys) && UniqueMemberships(t.members)
    requires m in t.members && t.members[m].convoy in t.convoys && t.members[m].leftAt.None?
    ensures JoinConvoy(LeaveConvoy(t, t.members[m].user, t.members[m].convoy, now), t.members[m].user,
                       t.convoys[t.members[m].convoy].inviteCode, memberId) == Ok(t)
  {
    var away := t.(members := t.members[m := t.members[m].(leftAt := Some(now))]);
    MarkingIsUndone(t.members, m, now);
    assert LeaveConvoy(t, t.members[m].user, t.members[m].convoy, now) == away by {
      LeavingTouchesOneRow(t, m, now);
    }
    assert JoinConvoy(away, t.members[m].user, t.convoys[t.members[m].convoy].inviteCode, memberId) == Ok(t) by {
      RejoiningRestoresOneRow(away, m, memberId);
    }
  }

  /** With a good code a known user always gets in, for the first time or again, and only a bad code is refused. */
  lemma JoinAdmitsExactlyWithACode(t: Tables, user: Uuid, code: string, memberId: Uuid)
    requires Sound(t) && user in t.users && memberId !in t.members
    ensures JoinConvoy(t, user, code, memberId).Ok? <==> exists c :: c in t.convoys && t.convoys[c].inviteCode == code
    ensures JoinConvoy(t, user, code, memberId).Err? ==> JoinConvoy(t, user, code, memberId).failure == InviteCodeNotFound
    ensures forall c | c in t.convoys && t.convoys[c].inviteCode == code ::
      ResolveMember(JoinConvoy(t, user, code, memberId).value, c, t.users[user].externalId).Some?
  {
    forall c | c in t.convoys && t.convoys[c].inviteCode == code
      ensures JoinConvoy(t, user, code, memberId).Ok?
      ensures ResolveMember(JoinConvoy(t, user, code, memberId).value, c, t.users[user].externalId).Some?
    {
      OneConvoyByCode(t, c);
      var t' := JoinConvoy(t, user, code, memberId).value;
      var m := if Rows(t, c, user) == {} then memberId else Only(Rows(t, c, user));
      assert m in CurrentRows(t', c, t.users[user].externalId);
    }
  }

  // ---------------------------------------------------------------- replacing a vehicle

  lemma {:induction false} InsertModsIsExact(t: Tables, vehicle: Uuid, mods: seq<NewMod>)
    requires InsertMods(t, vehicle, mods).Ok?
    ensures var t' := InsertMods(t, vehicle, mods).value;
            && t' == t.(mods := t'.mods)
            && (forall m | m in t.mods :: m in t'.mods && t'.mods[m] == t.mods[m])
            && (forall i | 0 <= i < |mods| :: mods[i].id !in t.mods && mods[i].id in t'.mods
                                              && t'.mods[mods[i].id] == Mod(vehicle, mods[i].spec))
            && (forall m | m in t'.mods && m !in t.mods :: exists i | 0 <= i < |mods| :: mods[i].id == m)
    decreases mods
  {
    if mods != [] {
      var mid := InsertMod(t, mods[0].id, Mod(vehicle, mods[0].spec)).value;
      InsertModsIsExact(mid, vehicle, mods[1..]);
      var t' := InsertMods(t, vehicle, mods).value;
      forall m | m in t'.mods && m !in t.mods ensures exists i | 0 <= i < |mods| :: mods[i].id == m {
        if m == mods[0].id {
          assert mods[0].id == m;
        } else {
          var i :| 0 <= i < |mods[1..]| && mods[1..][i].id == m;
          assert mods[i + 1].id == m;
        }
      }
      forall i | 0 <= i < |mods|
        ensures mods[i].id !in t.mods && mods[i].id in t'.mods && t'.mods[mods[i].id] == Mod(vehicle, mods[i].spec)
      {
        if i > 0 {
          assert mods[i] == mods[1..][i - 1];
        }
      }
    }
  }

  /** After a PUT the user has exactly the new vehicle with exactly the new mods; nobody else is touched. */
  lemma SetUserVehicleIsExact(t: Tables, user: Uuid, id: Uuid, spec: VehicleSpec, mods: seq<NewMod>)
    requires Sound(t) && SetUserVehicle(t, user, id, spec, mods).Ok?
    ensures var t' := SetUserVehicle(t, user, id, spec, mods).value;
            && t'.users == t.users && t'.convoys == t.convoys && t'.members == t.members
            && t'.vehicles == (t.vehicles - VehiclesOf(t, user))[id := Vehicle(user, spec)]
            && VehiclesOf(t', user) == {id}
            && (forall i | 0 <= i < |mods| :: mods[i].id in t'.mods && t'.mods[mods[i].id] == Mod(id, mods[i].spec))
            && (forall m | m in t'.mods && t'.mods[m].vehicle == id :: exists i | 0 <= i < |mods| :: mods[i].id == m)
            && t'.mods - ModsOf(t', {id}) == t.mods - ModsOf(t, VehiclesOf(t, user))
  {
    var bare := DeleteUserVehicle(t, user);
    DeleteVehiclesKeepsSound(t, VehiclesOf(t, user));
    var mid := InsertVehicle(bare, id, Vehicle(user, spec)).value;
    InsertModsIsExact(mid, id, mods);
    VehiclesAfterReplacing(t, user, id, spec);
    var t' := SetUserVehicle(t, user, id, spec, mods).value;
    assert ModsHaveVehicles(bare.mods, bare.vehicles);
    assert VehiclesOf(t', user) == VehiclesOf(mid, user);
    OldModsStay(bare.mods, bare.vehicles, t', id, mods);
  }

  /** The new vehicle's mods are the new ones: no old mod points to it. */
  lemma OldModsStay(before: map<Uuid, Mod>, vehicles: map<Uuid, Vehicle>, t': Tables, id: Uuid, mods: seq<NewMod>)
    requires ModsHaveVehicles(before, vehicles) && id !in vehicles
    requires forall m | m in before :: m in t'.mods && t'.mods[m] == before[m]
    requires forall i | 0 <= i < |mods| :: mods[i].id in t'.mods && t'.mods[mods[i].id] == Mod(id, mods[i].spec)
    requires forall m | m in t'.mods && m !in before :: exists i | 0 <= i < |mods| :: mods[i].id == m
    ensures t'.mods - ModsOf(t', {id}) == before
    ensures forall m | m in t'.mods && t'.mods[m].vehicle == id :: exists i | 0 <= i < |mods| :: mods[i].id == m
  {
    forall m | m in t'.mods ensures m in before <==> t'.mods[m].vehicle != id {
    }
  }

  lemma VehiclesAfterReplacing(t: Tables, user: Uuid, id: Uuid, spec: VehicleSpec)
    ensures var bare := DeleteUserVehicle(t, user);
            VehiclesOf(bare.(vehicles := bare.vehicles[id := Vehicle(user, spec)]), user) == {id}
  {
  }

  // ---------------------------------------------------------------- deleting an account

  /** The user delete alone is blocked exactly for owners; with the owned convoys gone first it never is. */
  lemma DeletionOrderMatters(t: Tables, u: Uuid)
    requires Sound(t) && u in t.users
    ensures DeleteUser(t, u).Err? <==> exists c :: c in t.convoys && t.convoys[c].owner == u
    ensures DeleteUserAccount(t, u).Ok?
  {
    forall c | c in t.convoys && t.convoys[c].owner == u ensures c in ConvoysOwnedBy(t, u) {
    }
    assert ConvoysOwnedBy(DeleteConvoys(t, ConvoysOwnedBy(t, u)), u) == {};
  }

  /** Rows that belong to the account: its own, and everything inside the convoys it owns. */
  ghost predicate BelongsTo(t: Tables, u: Uuid, m: Uuid)
    requires m in t.members && t.members[m].convoy in t.convoys
  {
    t.members[m].user == u || t.convoys[t.members[m].convoy].owner == u
  }

  /** Account deletion removes every row of the account and nothing else. */
  lemma AccountDeletionIsExact(t: Tables, u: Uuid)
    requires Sound(t) && u in t.users
    ensures DeleteUserAccount(t, u).Ok?
    ensures var t' := DeleteUserAccount(t, u).value;
            && t'.users == t.users - {u}
            && t'.convoys == t.convoys - ConvoysOwnedBy(t, u)
            && t'.vehicles == t.vehicles - VehiclesOf(t, u)
            && t'.mods == t.mods - ModsOf(t, VehiclesOf(t, u))
            && (forall m :: m in t'.members <==> m in t.members && !BelongsTo(t, u, m))
            && (forall m | m in t'.members :: t'.members[m] == t.members[m])
  {
    DeletionOrderMatters(t, u);
    var owned := ConvoysOwnedBy(t, u);
    var mid := DeleteConvoys(t, owned);
    DeleteConvoysKeepsSound(t, owned);
    DeleteVehiclesKeepsSound(mid, VehiclesOf(mid, u));
    assert VehiclesOf(mid, u) == VehiclesOf(t, u);
    assert ModsOf(mid, VehiclesOf(mid, u)) == ModsOf(t, VehiclesOf(t, u));
    var bare := DeleteVehicles(mid, VehiclesOf(mid, u));
    forall m | m in t.members
      ensures m in MembersOf(t, owned) || m in MembershipsOf(bare, u) <==> BelongsTo(t, u, m)
    {
      assert t.members[m].convoy in owned <==> t.convoys[t.members[m].convoy].owner == u;
    }
  }
}
