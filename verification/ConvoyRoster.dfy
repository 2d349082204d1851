/** The payload a client renders its roster from (backend/src/services/convoys.ts, `loadConvoyPayload`). */
module ConvoyRoster {
  import opened Wrappers
  import opened Tables
  import opened Membership

  datatype ModPayload = ModPayload(id: Uuid, spec: ModSpec)
  datatype VehiclePayload = VehiclePayload(id: Uuid, spec: VehicleSpec, mods: seq<ModPayload>)
  datatype MemberPayload = MemberPayload(
    id: string, displayName: string, vehicleProfileId: Option<Uuid>, vehicle: Option<VehiclePayload>, isLeader: bool)
  datatype ConvoyPayload = ConvoyPayload(
    id: Uuid, name: string, inviteCode: string, members: seq<MemberPayload>, proximity: int, status: Status,
    destination: Option<Destination>)

  /** One row of the query: a membership joined with one of its user's vehicles, or with none. */
  datatype JoinRow = JoinRow(member: Uuid, vehicle: Option<Uuid>)

  // ---------------------------------------------------------------- the query

  function ActiveRows(t: Tables, c: Uuid): set<Uuid> {
    set m | m in t.members && t.members[m].convoy == c && t.members[m].leftAt.None? && t.members[m].user in t.users
  }

  /** What the left join adds to a user's row. */
  function JoinedVehicles(t: Tables, u: Uuid): set<Option<Uuid>> {
    if VehiclesOf(t, u) == {} then {None} else set v | v in VehiclesOf(t, u) :: Some(v)
  }

  function JoinRows(t: Tables, c: Uuid): set<JoinRow> {
    set m, v | m in ActiveRows(t, c) && v in JoinedVehicles(t, t.members[m].user) :: JoinRow(m, v)
  }

  /** `q` holds every element of `s` once, in the order the database happened to return them. */
  ghost predicate Lists<T(!new)>(q: seq<T>, s: set<T>) {
    && (forall i, j | 0 <= i < j < |q| :: q[i] != q[j])
    && (forall x :: x in q <==> x in s)
  }

  method Enumerate<T(==, !new)>(s: set<T>) returns (q: seq<T>)
    ensures Lists(q, s)
  {
    q := [];
    var todo := s;
    while todo != {}
      invariant todo <= s && Lists(q, s - todo)
      decreases todo
    {
      var x :| x in todo;
      q, todo := q + [x], todo - {x};
    }
  }

  // ---------------------------------------------------------------- the mods of many vehicles

  function ModPayloads(mods: map<Uuid, Mod>, rows: set<Uuid>, v: Uuid): set<ModPayload> {
    set m | m in rows && m in mods && mods[m].vehicle == v :: ModPayload(m, mods[m].spec)
  }

  ghost predicate Grouped(mods: map<Uuid, Mod>, rows: set<Uuid>, grouped: map<Uuid, seq<ModPayload>>) {
    && (forall v :: v in grouped <==> ModPayloads(mods, rows, v) != {})
    && (forall v | v in grouped :: Lists(grouped[v], ModPayloads(mods, rows, v)))
  }

  /** Each requested vehicle that has mods is mapped to all of them, once each; nothing else is in the map. */
  method LoadModsByVehicleId(mods: map<Uuid, Mod>, vehicleIds: seq<Uuid>)
    returns (grouped: map<Uuid, seq<ModPayload>>)
    ensures forall v :: v in grouped <==> v in vehicleIds && ModPayloads(mods, mods.Keys, v) != {}
    ensures forall v | v in grouped :: Lists(grouped[v], ModPayloads(mods, mods.Keys, v))
  {
    grouped := map[];
    var rows := set m | m in mods && mods[m].vehicle in vehicleIds;
    var todo := rows;
    while todo != {}
      invariant todo <= rows && Grouped(mods, rows - todo, grouped)
      decreases todo
    {
      var m :| m in todo;
      var list := if mods[m].vehicle in grouped then grouped[mods[m].vehicle] else [];
      GroupMore(mods, rows - todo, grouped, m);
      assert rows - todo + {m} == rows - (todo - {m});
      grouped := grouped[mods[m].vehicle := list + [ModPayload(m, mods[m].spec)]];
      todo := todo - {m};
    }
    assert rows - todo == rows;
    forall v ensures ModPayloads(mods, rows, v) == (if v in vehicleIds then ModPayloads(mods, mods.Keys, v) else {}) {
    }
  }

  lemma GroupMore(mods: map<Uuid, Mod>, rows: set<Uuid>, grouped: map<Uuid, seq<ModPayload>>, m: Uuid)
    requires Grouped(mods, rows, grouped) && m in mods && m !in rows
    ensures var v := mods[m].vehicle;
            var list := if v in grouped then grouped[v] else [];
            Grouped(mods, rows + {m}, grouped[v := list + [ModPayload(m, mods[m].spec)]])
  {
    var v := mods[m].vehicle;
    AddMod(mods, rows, m);
    ListsMore(if v in grouped then grouped[v] else [], ModPayloads(mods, rows, v), ModPayload(m, mods[m].spec));
  }

  lemma AddMod(mods: map<Uuid, Mod>, rows: set<Uuid>, m: Uuid)
    requires m in mods && m !in rows
    ensures forall v | v != mods[m].vehicle :: ModPayloads(mods, rows + {m}, v) == ModPayloads(mods, rows, v)
    ensures var v := mods[m].vehicle;
            && ModPayload(m, mods[m].spec) !in ModPayloads(mods, rows, v)
            && ModPayloads(mods, rows + {m}, v) == ModPayloads(mods, rows, v) + {ModPayload(m, mods[m].spec)}
  {
  }

  lemma ListsMore<T(!new)>(q: seq<T>, s: set<T>, x: T)
    requires (Lists(q, s) || (q == [] && s == {})) && x !in s
    ensures Lists(q + [x], s + {x})
  {
  }

  // ---------------------------------------------------------------- what a payload says

  ghost predicate Describes(t: Tables, row: JoinRow, p: MemberPayload) {
    row.member in t.members && t.members[row.member].user in t.users &&
    var m := t.members[row.member];
    && p.id == t.users[m.user].externalId
    && p.displayName == t.users[m.user].displayName
    && p.vehicleProfileId == m.vehicle
    && p.isLeader == (m.role == Owner)
    && match row.vehicle
       case None => p.vehicle.None?
       case Some(v) =>
         && v in t.vehicles && p.vehicle.Some?
         && p.vehicle.value.id == v && p.vehicle.value.spec == t.vehicles[v].spec
         && Lists(p.vehicle.value.mods, ModPayloads(t.mods, t.mods.Keys, v))
  }

  ghost predicate IsRoster(t: Tables, c: Uuid, rows: seq<JoinRow>, members: seq<MemberPayload>) {
    && Lists(rows, JoinRows(t, c)) && |members| == |rows|
    && (forall i | 0 <= i < |rows| :: Describes(t, rows[i], members[i]))
  }

  /** A destination counts only with both coordinates. */
  function DestinationOf(row: Convoy): Option<Destination> {
    if row.destLat.Some? && row.destLng.Some? then Some(Destination(row.destLat.value, row.destLng.value, row.destLabel))
    else None
  }

  ghost predicate IsPayload(t: Tables, c: Uuid, p: ConvoyPayload) {
    && c in t.convoys
    && p == ConvoyPayload(c, t.convoys[c].name, t.convoys[c].inviteCode, p.members, t.convoys[c].proximity,
                          t.convoys[c].status, DestinationOf(t.convoys[c]))
    && exists rows :: IsRoster(t, c, rows, p.members)
  }

  // ---------------------------------------------------------------- once each

  ghost predicate NobodyTwice(members: seq<MemberPayload>) {
    forall i, j | 0 <= i < j < |members| :: members[i].id != members[j].id
  }

  /** No current member has two vehicles. */
  ghost predicate OneVehicleAtMost(t: Tables, c: Uuid) {
    forall m, a, b | m in ActiveRows(t, c) && a in VehiclesOf(t, t.members[m].user) && b in VehiclesOf(t, t.members[m].user) ::
      a == b
  }

  /** The join is a left join: everybody keeps at least one row. */
  lemma SomeJoin(t: Tables, u: Uuid) returns (v: Option<Uuid>)
    ensures v in JoinedVehicles(t, u)
  {
    if VehiclesOf(t, u) == {} {
      v := None;
    } else {
      var id :| id in VehiclesOf(t, u);
      v := Some(id);
    }
  }

  lemma RowAt(t: Tables, c: Uuid, rows: seq<JoinRow>, members: seq<MemberPayload>, row: JoinRow) returns (i: nat)
    requires IsRoster(t, c, rows, members) && row in JoinRows(t, c)
    ensures i < |rows| && rows[i] == row && Describes(t, row, members[i])
  {
    assert row in rows;
    i :| i < |rows| && rows[i] == row;
  }

  lemma RowIsActive(t: Tables, c: Uuid, rows: seq<JoinRow>, members: seq<MemberPayload>, i: nat)
    requires IsRoster(t, c, rows, members) && i < |rows|
    ensures rows[i].member in ActiveRows(t, c)
    ensures rows[i].vehicle in JoinedVehicles(t, t.members[rows[i].member].user)
  {
    assert rows[i] in rows;
  }

  /** Two entries with one id are two vehicles of one member. */
  lemma SameIdSameMember(t: Tables, c: Uuid, rows: seq<JoinRow>, members: seq<MemberPayload>, i: nat, j: nat)
    requires SchemaHolds(t) && IsRoster(t, c, rows, members) && i < j < |rows|
    requires members[i].id == members[j].id
    ensures rows[i].member == rows[j].member && !OneVehicleAtMost(t, c)
  {
    RowIsActive(t, c, rows, members, i);
    RowIsActive(t, c, rows, members, j);
    var m := rows[i].member;
    assert t.members[m].user == t.members[rows[j].member].user;
    assert m == rows[j].member;
    var u := t.members[m].user;
    var a, b := rows[i].vehicle, rows[j].vehicle;
    assert a != b && a in JoinedVehicles(t, u) && b in JoinedVehicles(t, u);
    assert a.value in VehiclesOf(t, u) && b.value in VehiclesOf(t, u);
  }

  /**
   The comment above the query says it relies on one vehicle a user. Exactly so: the schema's own keys make
   the roster free of duplicates if and only if no current member has two vehicles.
   */
  lemma NobodyTwiceExactlyWhen(t: Tables, c: Uuid, rows: seq<JoinRow>, members: seq<MemberPayload>)
    requires SchemaHolds(t) && IsRoster(t, c, rows, members)
    ensures NobodyTwice(members) <==> OneVehicleAtMost(t, c)
  {
    if OneVehicleAtMost(t, c) {
      forall i, j | 0 <= i < j < |members| ensures members[i].id != members[j].id {
        if members[i].id == members[j].id {
          SameIdSameMember(t, c, rows, members, i, j);
        }
      }
    } else {
      var m, a, b :| m in ActiveRows(t, c) && a in VehiclesOf(t, t.members[m].user)
                     && b in VehiclesOf(t, t.members[m].user) && a != b;
      assert Some(a) in JoinedVehicles(t, t.members[m].user) && Some(b) in JoinedVehicles(t, t.members[m].user);
      var i := RowAt(t, c, rows, members, JoinRow(m, Some(a)));
      var j := RowAt(t, c, rows, members, JoinRow(m, Some(b)));
      assert members[i].id == members[j].id && i != j;
    }
  }

  ghost predicate Listed(members: seq<MemberPayload>, externalId: string) {
    exists i :: 0 <= i < |members| && members[i].id == externalId
  }

  /** The roster lists exactly those whom the gateway would let in. */
  lemma RosterIsTheMembership(t: Tables, c: Uuid, rows: seq<JoinRow>, members: seq<MemberPayload>, externalId: string)
    requires SchemaHolds(t) && IsRoster(t, c, rows, members)
    ensures Listed(members, externalId) <==> ResolveMember(t, c, externalId).Some?
  {
    if Listed(members, externalId) {
      var i :| 0 <= i < |members| && members[i].id == externalId;
      RowIsActive(t, c, rows, members, i);
      assert rows[i].member in CurrentRows(t, c, externalId);
    }
    if ResolveMember(t, c, externalId).Some? {
      var m :| m in CurrentRows(t, c, externalId);
      var u := t.members[m].user;
      var v := SomeJoin(t, u);
      var i := RowAt(t, c, rows, members, JoinRow(m, v));
    }
  }

  /** An entry's leader flag is the gateway's leader check. */
  lemma FlagIsTheLeaderCheck(t: Tables, c: Uuid, rows: seq<JoinRow>, members: seq<MemberPayload>, i: nat)
    requires SchemaHolds(t) && IsRoster(t, c, rows, members) && i < |members|
    ensures members[i].isLeader <==> ResolveLeader(t, c, members[i].id)
  {
    RowIsActive(t, c, rows, members, i);
    var m := rows[i].member;
    assert m in CurrentRows(t, c, members[i].id);
    var n := Only(CurrentRows(t, c, members[i].id));
    assert n in CurrentRows(t, c, members[i].id);
    assert t.members[n].user == t.members[m].user;
    assert n == m;
  }

  // ---------------------------------------------------------------- the roster, straight from the tables

  ghost predicate IsCurrent(t: Tables, c: Uuid, u: Uuid) {
    exists m :: m in t.members && t.members[m].convoy == c && t.members[m].user == u && t.members[m].leftAt.None?
  }

  ghost predicate ShowsMods(mods: map<Uuid, Mod>, v: Uuid, shown: seq<ModPayload>) {
    && (forall i, j | 0 <= i < j < |shown| :: shown[i].id != shown[j].id)
    && (forall m: ModPayload :: m in shown <==> m.id in mods && mods[m.id] == Mod(v, m.spec))
  }

  /** The user's one vehicle with all its mods, or none if the user has none. */
  ghost predicate ShowsVehicle(t: Tables, u: Uuid, shown: Option<VehiclePayload>) {
    match shown
    case None => forall v | v in t.vehicles :: t.vehicles[v].user != u
    case Some(vehicle) =>
      && vehicle.id in t.vehicles && t.vehicles[vehicle.id] == Vehicle(u, vehicle.spec)
      && (forall v | v in t.vehicles && t.vehicles[v].user == u :: v == vehicle.id)
      && ShowsMods(t.mods, vehicle.id, vehicle.mods)
  }

  ghost predicate ShowsUser(t: Tables, c: Uuid, u: Uuid, p: MemberPayload) {
    && u in t.users && p.id == t.users[u].externalId && p.displayName == t.users[u].displayName
    && (p.isLeader <==> c in t.convoys && t.convoys[c].owner == u)
    && p.vehicleProfileId.None?
    && ShowsVehicle(t, u, p.vehicle)
  }

  /** The entry stands for a current member. */
  ghost predicate IsTrue(t: Tables, c: Uuid, p: MemberPayload) {
    exists u :: IsCurrent(t, c, u) && ShowsUser(t, c, u, p)
  }

  ghost predicate IsShown(t: Tables, c: Uuid, u: Uuid, members: seq<MemberPayload>) {
    exists i :: 0 <= i < |members| && ShowsUser(t, c, u, members[i])
  }

  ghost predicate ShowsConvoy(row: Convoy, p: ConvoyPayload) {
    && p.name == row.name && p.inviteCode == row.inviteCode && p.proximity == row.proximity && p.status == row.status
    && (p.destination.Some? <==> row.destLat.Some? && row.destLng.Some?)
    && (p.destination.Some? ==> && row.destLat == Some(p.destination.value.lat)
                                && row.destLng == Some(p.destination.value.lng)
                                && row.destLabel == p.destination.value.name)
  }

  lemma ModsAreShown(mods: map<Uuid, Mod>, v: Uuid, shown: seq<ModPayload>)
    requires Lists(shown, ModPayloads(mods, mods.Keys, v))
    ensures ShowsMods(mods, v, shown)
  {
    forall i, j | 0 <= i < j < |shown| ensures shown[i].id != shown[j].id {
      assert shown[i] in shown && shown[j] in shown;
    }
  }

  lemma VehicleIsShown(t: Tables, u: Uuid, joined: Option<Uuid>, shown: Option<VehiclePayload>)
    requires OneVehicleEach(t.vehicles) && joined in JoinedVehicles(t, u)
    requires match joined
             case None => shown.None?
             case Some(v) => v in t.vehicles && shown.Some? && shown.value.id == v && shown.value.spec == t.vehicles[v].spec
                             && Lists(shown.value.mods, ModPayloads(t.mods, t.mods.Keys, v))
    ensures ShowsVehicle(t, u, shown)
  {
    match joined
    case None =>
      forall v | v in t.vehicles ensures t.vehicles[v].user != u {
        assert v !in VehiclesOf(t, u);
      }
    case Some(v) =>
      assert v in VehiclesOf(t, u);
      ModsAreShown(t.mods, v, shown.value.mods);
  }

  lemma EntryShowsItsUser(t: Tables, c: Uuid, rows: seq<JoinRow>, members: seq<MemberPayload>, i: nat) returns (u: Uuid)
    requires Sound(t) && IsRoster(t, c, rows, members) && i < |members|
    ensures IsCurrent(t, c, u) && ShowsUser(t, c, u, members[i])
  {
    RowIsActive(t, c, rows, members, i);
    var m := rows[i].member;
    u := t.members[m].user;
    assert Describes(t, rows[i], members[i]);
    VehicleIsShown(t, u, rows[i].vehicle, members[i].vehicle);
    assert t.members[m].convoy in t.convoys;
  }

  lemma CurrentUserIsShown(t: Tables, c: Uuid, rows: seq<JoinRow>, members: seq<MemberPayload>, u: Uuid) returns (i: nat)
    requires Sound(t) && IsRoster(t, c, rows, members) && IsCurrent(t, c, u)
    ensures i < |members| && ShowsUser(t, c, u, members[i])
  {
    var m :| m in t.members && t.members[m].convoy == c && t.members[m].user == u && t.members[m].leftAt.None?;
    var v := SomeJoin(t, u);
    i := RowAt(t, c, rows, members, JoinRow(m, v));
    var other := EntryShowsItsUser(t, c, rows, members, i);
    assert other == u;
  }

  /**
   After any history of service calls, whatever order the database returns rows in: each current member is
   listed exactly once, nobody else is, and each entry shows its user's name, whether the user owns the convoy,
   and the user's vehicle with its mods, all as the tables have it. Being listed and being leader are the
   gateway's own answers.
   */
  lemma RosterAfterAnyHistory(history: seq<Request>, c: Uuid, p: ConvoyPayload)
    requires IsPayload(Run(EMPTY, history), c, p)
    ensures NobodyTwice(p.members)
    ensures forall i | 0 <= i < |p.members| :: IsTrue(Run(EMPTY, history), c, p.members[i])
    ensures forall u | IsCurrent(Run(EMPTY, history), c, u) :: IsShown(Run(EMPTY, history), c, u, p.members)
    ensures c in Run(EMPTY, history).convoys && ShowsConvoy(Run(EMPTY, history).convoys[c], p)
    ensures forall e :: Listed(p.members, e) <==> ResolveMember(Run(EMPTY, history), c, e).Some?
    ensures forall i | 0 <= i < |p.members| ::
      && (p.members[i].isLeader <==> ResolveLeader(Run(EMPTY, history), c, p.members[i].id))
      && p.members[i].vehicleProfileId.None?
  {
    var t := Run(EMPTY, history);
    HistoryKeepsSound(history);
    var rows :| IsRoster(t, c, rows, p.members);
    assert OneVehicleAtMost(t, c);
    NobodyTwiceExactlyWhen(t, c, rows, p.members);
    forall i | 0 <= i < |p.members| ensures IsTrue(t, c, p.members[i]) {
      var u := EntryShowsItsUser(t, c, rows, p.members, i);
    }
    forall u | IsCurrent(t, c, u) ensures IsShown(t, c, u, p.members) {
      var i := CurrentUserIsShown(t, c, rows, p.members, u);
    }
    forall e ensures Listed(p.members, e) <==> ResolveMember(t, c, e).Some? {
      RosterIsTheMembership(t, c, rows, p.members, e);
    }
    forall i | 0 <= i < |p.members|
      ensures (p.members[i].isLeader <==> ResolveLeader(t, c, p.members[i].id)) && p.members[i].vehicleProfileId.None?
    {
      FlagIsTheLeaderCheck(t, c, rows, p.members, i);
      assert Describes(t, rows[i], p.members[i]);
    }
  }
}
