/** The database object the services are handed: tables changed statement by statement, transactions rolled back. */
module Database {
  import opened Wrappers
  import opened Tables
  import opened ConvoyRoster
  import M = Membership

  /** JavaScript's `Math.round`: halves go up. */
  function MathRound(x: real): (n: int)
    ensures n as real - 0.5 <= x < n as real + 0.5
  {
    (x + 0.5).Floor
  }

  class Database {
    var users: map<Uuid, User>
    var convoys: map<Uuid, Convoy>
    var members: map<Uuid, MemberRow>
    var vehicles: map<Uuid, Vehicle>
    var mods: map<Uuid, Mod>

    constructor ()
      ensures State() == EMPTY
    {
      users, convoys, members, vehicles, mods := map[], map[], map[], map[], map[];
    }

    function State(): Tables
      reads this
    {
      Tables(users, convoys, members, vehicles, mods)
    }

    // -------------------------------------------------------------- statements

    method RollBack(t: Tables)
      modifies this
      ensures State() == t
    {
      users, convoys, members, vehicles, mods := t.users, t.convoys, t.members, t.vehicles, t.mods;
    }

    method InsertConvoyRow(id: Uuid, row: Convoy) returns (error: Option<Failure>)
      modifies this`convoys
      ensures match InsertConvoy(old(State()), id, row)
              case Ok(t) => error.None? && State() == t
              case Err(e) => error == Some(e) && State() == old(State())
    {
      if id in convoys || exists c :: c in convoys && convoys[c].inviteCode == row.inviteCode {
        assert id in convoys || ByInviteCode(State(), row.inviteCode) != {} by {
          if id !in convoys {
            var c :| c in convoys && convoys[c].inviteCode == row.inviteCode;
            assert c in ByInviteCode(State(), row.inviteCode);
          }
        }
        return Some(UniqueViolation);
      }
      if row.owner !in users {
        return Some(ForeignKeyViolation);
      }
      convoys := convoys[id := row];
      return None;
    }

    method InsertMemberRow(id: Uuid, row: MemberRow) returns (error: Option<Failure>)
      modifies this`members
      ensures match InsertMember(old(State()), id, row)
              case Ok(t) => error.None? && State() == t
              case Err(e) => error == Some(e) && State() == old(State())
    {
      if id in members || Rows(State(), row.convoy, row.user) != {} {
        return Some(UniqueViolation);
      }
      if row.convoy !in convoys || row.user !in users || (row.vehicle.Some? && row.vehicle.value !in vehicles) {
        return Some(ForeignKeyViolation);
      }
      members := members[id := row];
      return None;
    }

    method InsertVehicleRow(id: Uuid, row: Vehicle) returns (error: Option<Failure>)
      modifies this`vehicles
      ensures match InsertVehicle(old(State()), id, row)
              case Ok(t) => error.None? && State() == t
              case Err(e) => error == Some(e) && State() == old(State())
    {
      if id in vehicles {
        return Some(UniqueViolation);
      }
      if row.user !in users {
        return Some(ForeignKeyViolation);
      }
      vehicles := vehicles[id := row];
      return None;
    }

    method InsertModRows(vehicle: Uuid, rows: seq<M.NewMod>) returns (error: Option<Failure>)
      modifies this`mods
      ensures match M.InsertMods(old(State()), vehicle, rows)
              case Ok(t) => error.None? && State() == t
              case Err(e) => error == Some(e)
    {
      var n := 0;
      while n < |rows|
        invariant n <= |rows|
        invariant M.InsertMods(State(), vehicle, rows[n..]) == M.InsertMods(old(State()), vehicle, rows)
      {
        if rows[n].id in mods {
          return Some(UniqueViolation);
        }
        if vehicle !in vehicles {
          return Some(ForeignKeyViolation);
        }
        assert rows[n..][0] == rows[n] && rows[n..][1..] == rows[n + 1..];
        mods := mods[rows[n].id := Mod(vehicle, rows[n].spec)];
        n := n + 1;
      }
      return None;
    }

    method DeleteVehicleRows(user: Uuid)
      modifies this`vehicles, this`mods, this`members
      ensures State() == M.DeleteUserVehicle(old(State()), user)
    {
      var gone := VehiclesOf(State(), user);
      mods := mods - ModsOf(State(), gone);
      members := Unassign(members, gone);
      vehicles := vehicles - gone;
    }

    method DeleteOwnedConvoyRows(user: Uuid)
      modifies this`convoys, this`members
      ensures State() == DeleteConvoys(old(State()), ConvoysOwnedBy(old(State()), user))
    {
      var gone := ConvoysOwnedBy(State(), user);
      members := members - MembersOf(State(), gone);
      convoys := convoys - gone;
    }

    method DeleteUserRow(user: Uuid) returns (error: Option<Failure>)
      modifies this
      ensures match DeleteUser(old(State()), user)
              case Ok(t) => error.None? && State() == t
              case Err(e) => error == Some(e) && State() == old(State())
    {
      if user !in users {
        return None;
      }
      if ConvoysOwnedBy(State(), user) != {} {
        return Some(ForeignKeyViolation);
      }
      DeleteVehicleRows(user);
      members := members - MembershipsOf(State(), user);
      users := users - {user};
      return None;
    }

    // -------------------------------------------------------------- reading a convoy

    method LoadConvoyPayload(c: Uuid) returns (p: Option<ConvoyPayload>)
      ensures p.Some? <==> c in convoys
      ensures p.Some? ==> IsPayload(State(), c, p.value)
    {
      if c !in convoys {
        return None;
      }
      var rows := Enumerate(JoinRows(State(), c));
      var roster := Describe(State(), c, rows);
      var row := convoys[c];
      assert IsRoster(State(), c, rows, roster);
      return Some(ConvoyPayload(c, row.name, row.inviteCode, roster, row.proximity, row.status, DestinationOf(row)));
    }

    method GetConvoyForMember(user: Uuid, c: Uuid) returns (r: Result<ConvoyPayload>)
      requires SchemaHolds(State())
      ensures r.Ok? <==> exists m :: m in members && members[m].convoy == c && members[m].user == user && members[m].leftAt.None?
      ensures r.Ok? ==> IsPayload(State(), c, r.value)
      ensures r.Err? ==> r.failure == NotConvoyMember
    {
      if !exists m :: m in members && members[m].convoy == c && members[m].user == user && members[m].leftAt.None? {
        return Err(NotConvoyMember);
      }
      var p := LoadConvoyPayload(c);
      return Ok(p.value);
    }

    // -------------------------------------------------------------- the services

    method CreateConvoy(owner: Uuid, name: string, proximityWarningMeters: real, code: string, id: Uuid, memberId: Uuid)
      returns (r: Result<ConvoyPayload>)
      modifies this
      ensures var outcome := M.CreateConvoy(old(State()), owner, name, MathRound(proximityWarningMeters), code, id, memberId);
              && State() == M.Commit(old(State()), outcome)
              && (outcome.Err? ==> r == Err(outcome.failure))
              && (outcome.Ok? ==> r.Ok? && IsPayload(State(), id, r.value))
    {
      var before := State();
      var error := InsertConvoyRow(id, Convoy(owner, name, code, Lobby, MathRound(proximityWarningMeters), None, None, None));
      if error.Some? {
        return Err(error.value);
      }
      error := InsertMemberRow(memberId, MemberRow(id, owner, None, Owner, None));
      if error.Some? {
        RollBack(before);
        return Err(error.value);
      }
      var p := LoadConvoyPayload(id);
      return Ok(p.value);
    }

    method JoinConvoy(user: Uuid, code: string, memberId: Uuid) returns (r: Result<ConvoyPayload>)
      requires SchemaHolds(State())
      modifies this`members
      ensures var outcome := M.JoinConvoy(old(State()), user, code, memberId);
              && State() == M.Commit(old(State()), outcome)
              && (outcome.Err? ==> r == Err(outcome.failure))
              && (outcome.Ok? ==> r.Ok? && r.value.inviteCode == code && IsPayload(State(), r.value.id, r.value))
    {
      var found := ByInviteCode(State(), code);
      if found == {} {
        return Err(InviteCodeNotFound);
      }
      var c :| c in found;
      M.OneConvoyByCode(State(), c);
      var existing := Rows(State(), c, user);
      if existing != {} {
        var m :| m in existing;
        M.OneRow(State(), m);
        if members[m].leftAt.Some? {
          members := members[m := members[m].(leftAt := None)];
        } else {
          assert members[m := members[m].(leftAt := None)] == members;
        }
      } else {
        var error := InsertMemberRow(memberId, MemberRow(c, user, None, Member, None));
        if error.Some? {
          return Err(error.value);
        }
      }
      var p := LoadConvoyPayload(c);
      return Ok(p.value);
    }

    method LeaveConvoy(user: Uuid, c: Uuid, now: Instant)
      modifies this`members
      ensures State() == M.LeaveConvoy(old(State()), user, c, now)
    {
      members := map m | m in members ::
        (if members[m].convoy == c && members[m].user == user && members[m].leftAt.None?
         then members[m].(leftAt := Some(now)) else members[m]);
    }

    method SetConvoyDestination(user: Uuid, c: Uuid, destination: Option<M.Destination>)
      returns (r: Result<ConvoyPayload>)
      modifies this`convoys
      ensures var outcome := M.SetConvoyDestination(old(State()), user, c, destination);
              && State() == M.Commit(old(State()), outcome)
              && (outcome.Err? ==> r == Err(outcome.failure))
              && (outcome.Ok? ==> r.Ok? && IsPayload(State(), c, r.value) && r.value.destination == destination)
    {
      if c !in convoys {
        return Err(ConvoyNotFound);
      }
      if convoys[c].owner != user {
        return Err(NotConvoyOwner);
      }
      if destination.None? {
        convoys := convoys[c := convoys[c].(destLat := None, destLng := None, destLabel := None)];
      } else {
        convoys := convoys[c := convoys[c].(destLat := Some(destination.value.lat), destLng := Some(destination.value.lng),
                                            destLabel := destination.value.name)];
      }
      var p := LoadConvoyPayload(c);
      return Ok(p.value);
    }

    method SetUserVehicle(user: Uuid, id: Uuid, spec: VehicleSpec, rows: seq<M.NewMod>) returns (error: Option<Failure>)
      modifies this
      ensures var outcome := M.SetUserVehicle(old(State()), user, id, spec, rows);
              && State() == M.Commit(old(State()), outcome)
              && error == (if outcome.Ok? then None else Some(outcome.failure))
    {
      var before := State();
      DeleteVehicleRows(user);
      error := InsertVehicleRow(id, Vehicle(user, spec));
      if error.None? {
        error := InsertModRows(id, rows);
      }
      if error.Some? {
        RollBack(before);
      }
    }

    method DeleteUserVehicle(user: Uuid)
      modifies this`vehicles, this`mods, this`members
      ensures State() == M.DeleteUserVehicle(old(State()), user)
    {
      DeleteVehicleRows(user);
    }

    method DeleteUserAccount(user: Uuid) returns (error: Option<Failure>)
      modifies this
      ensures var outcome := M.DeleteUserAccount(old(State()), user);
              && State() == M.Commit(old(State()), outcome)
              && error == (if outcome.Ok? then None else Some(outcome.failure))
    {
      var before := State();
      DeleteOwnedConvoyRows(user);
      error := DeleteUserRow(user);
      if error.Some? {
        RollBack(before);
      }
    }

    method GetOrCreateUser(id: Uuid, externalId: string, displayName: string, email: Option<string>)
      returns (error: Option<Failure>)
      modifies this`users
      ensures var outcome := M.GetOrCreateUser(old(State()), id, externalId, displayName, email);
              && State() == M.Commit(old(State()), outcome)
              && error == (if outcome.Ok? then None else Some(outcome.failure))
    {
      if ByExternalId(State(), externalId) != {} {
        users := map u | u in users ::
          (if users[u].externalId == externalId then User(externalId, displayName, email) else users[u]);
      } else if id in users {
        return Some(UniqueViolation);
      } else {
        users := users[id := User(externalId, displayName, email)];
      }
      return None;
    }
  }

  // ---------------------------------------------------------------- building the member list

  method PresentVehicles(rows: seq<JoinRow>) returns (ids: seq<Uuid>)
    ensures forall v :: v in ids <==> exists i | 0 <= i < |rows| :: rows[i].vehicle == Some(v)
  {
    ids := [];
    for i := 0 to |rows|
      invariant forall v :: v in ids <==> exists j | 0 <= j < i :: rows[j].vehicle == Some(v)
    {
      if rows[i].vehicle.Some? {
        ids := ids + [rows[i].vehicle.value];
      }
    }
  }

  method Describe(t: Tables, c: Uuid, rows: seq<JoinRow>) returns (roster: seq<MemberPayload>)
    requires Lists(rows, JoinRows(t, c))
    ensures IsRoster(t, c, rows, roster)
  {
    var ids := PresentVehicles(rows);
    var mods := LoadModsByVehicleId(t.mods, ids);
    roster := [];
    for i := 0 to |rows|
      invariant |roster| == i
      invariant forall j | 0 <= j < i :: Describes(t, rows[j], roster[j])
    {
      RowResolves(t, c, rows, i);
      var m := t.members[rows[i].member];
      var vehicle: Option<VehiclePayload> := None;
      if rows[i].vehicle.Some? {
        var v := rows[i].vehicle.value;
        var list := if v in mods then mods[v] else [];
        assert v in ids;
        assert Lists(list, ModPayloads(t.mods, t.mods.Keys, v));
        vehicle := Some(VehiclePayload(v, t.vehicles[v].spec, list));
      }
      roster := roster + [MemberPayload(t.users[m.user].externalId, t.users[m.user].displayName, m.vehicle, vehicle,
                                        m.role == Owner)];
    }
  }

  lemma RowResolves(t: Tables, c: Uuid, rows: seq<JoinRow>, i: nat)
    requires Lists(rows, JoinRows(t, c)) && i < |rows|
    ensures rows[i].member in t.members && t.members[rows[i].member].user in t.users
    ensures rows[i].vehicle.Some? ==> rows[i].vehicle.value in t.vehicles
  {
    assert rows[i] in rows;
  }
}
