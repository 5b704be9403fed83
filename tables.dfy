/** The SQL statements of the backend as functions over tables. A table is the sequence of
    its rows in scan order, so `rows[0]` of a query is the first matching row. */
module Tables {
  import opened Values

  // ---------------------------------------------------------------------------
  // Generic relational operations

  /** Primary-key uniqueness of the three kinds of table. */
  ghost predicate UniqueUserIds(rows: seq<UserRow>) {
    forall i, j :: 0 <= i < j < |rows| ==> rows[i].id != rows[j].id
  }

  ghost predicate UniqueDeviceIds(rows: seq<DeviceRow>) {
    forall i, j :: 0 <= i < j < |rows| ==> rows[i].id != rows[j].id
  }

  ghost predicate UniqueRowIds(rows: seq<NamedRow>) {
    forall i, j :: 0 <= i < j < |rows| ==> rows[i].id != rows[j].id
  }

  /** No two joined rows carry the same device id. */
  ghost predicate UniqueViewIds(views: seq<DeviceView>) {
    forall i, j :: 0 <= i < j < |views| ==> views[i].id != views[j].id
  }

  /** The position of the first row that satisfies `p`. */
  function FirstIndex<T>(rows: seq<T>, p: T -> bool): (r: Option<nat>)
    ensures r.Some? ==> r.value < |rows| && p(rows[r.value])
    ensures r.Some? ==> forall j :: 0 <= j < r.value ==> !p(rows[j])
    ensures r.None? ==> forall j :: 0 <= j < |rows| ==> !p(rows[j])
  {
    if rows == [] then None
    else if p(rows[0]) then Some(0)
    else match FirstIndex(rows[1..], p)
      case None => None
      case Some(k) => Some(k + 1)
  }

  /** `SELECT * ... WHERE p`: the rows satisfying `p`. */
  function Where<T(==,!new)>(rows: seq<T>, p: T -> bool): (r: seq<T>)
    ensures |r| <= |rows|
    ensures forall x :: x in r <==> x in rows && p(x)
  {
    if rows == [] then []
    else
      assert forall x :: x in rows <==> x == rows[0] || x in rows[1..];
      if p(rows[0]) then [rows[0]] + Where(rows[1..], p) else Where(rows[1..], p)
  }

  /** `UPDATE ... SET f WHERE p`: every row satisfying `p` is replaced by its image under
      `f`; every other row stays as it was, in place. */
  function UpdateWhere<T>(rows: seq<T>, p: T -> bool, f: T -> T): (r: seq<T>)
    ensures |r| == |rows|
    ensures forall i :: 0 <= i < |rows| && p(rows[i]) ==> r[i] == f(rows[i])
    ensures forall i :: 0 <= i < |rows| && !p(rows[i]) ==> r[i] == rows[i]
  {
    if rows == [] then []
    else [if p(rows[0]) then f(rows[0]) else rows[0]] + UpdateWhere(rows[1..], p, f)
  }

  /** `WHERE p` returns each satisfying row as often as the table holds it, and no other. */
  lemma {:induction false} WhereCounts<T(!new)>(rows: seq<T>, p: T -> bool)
    ensures forall x :: multiset(Where(rows, p))[x] == if p(x) then multiset(rows)[x] else 0
  {
    if rows != [] {
      WhereCounts(rows[1..], p);
      assert rows == [rows[0]] + rows[1..];
    }
  }

  /** A `WHERE p` and a `WHERE NOT p` split a table between them: `DELETE ... WHERE p`
      keeps exactly the rows that `SELECT ... WHERE NOT p` returns. */
  lemma {:induction false} WherePartition<T(!new)>(rows: seq<T>, p: T -> bool, q: T -> bool)
    requires forall x :: q(x) == !p(x)
    ensures |Where(rows, p)| + |Where(rows, q)| == |rows|
  {
    if rows != [] {
      WherePartition(rows[1..], p, q);
    }
  }

  // ---------------------------------------------------------------------------
  // Queries on `users`

  /** `SELECT id, name, role, password FROM users WHERE name = $1`, keeping `rows[0]`. */
  function SelectUserByName(users: seq<UserRow>, name: string): (r: Option<UserRow>)
    ensures r.None? <==> forall i :: 0 <= i < |users| ==> users[i].name != name
    ensures r.Some? ==> exists i :: 0 <= i < |users| && users[i] == r.value && r.value.name == name
                                     && forall j :: 0 <= j < i ==> users[j].name != name
  {
    match FirstIndex(users, (u: UserRow) => u.name == name)
    case None => None
    case Some(i) => Some(users[i])
  }

  /** The row of user `id` holds `token` as its current session token. */
  ghost predicate HoldsToken(users: seq<UserRow>, id: int, token: string) {
    exists i :: 0 <= i < |users| && users[i].id == id && users[i].currentToken == Some(token)
  }

  /** `SELECT * FROM users WHERE id = $1 AND current_token = $2`. */
  function SelectSession(users: seq<UserRow>, id: int, token: string): (r: seq<UserRow>)
    ensures |r| == 0 <==> !HoldsToken(users, id, token)
    ensures forall u :: u in r ==> u.id == id && u.currentToken == Some(token)
  {
    var p := (u: UserRow) => u.id == id && u.currentToken == Some(token);
    var rows := Where(users, p);
    assert HoldsToken(users, id, token) ==> |rows| > 0 by {
      if HoldsToken(users, id, token) {
        var i :| 0 <= i < |users| && users[i].id == id && users[i].currentToken == Some(token);
        assert p(users[i]) && users[i] in users;
        assert users[i] in rows;
      }
    }
    assert |rows| > 0 ==> HoldsToken(users, id, token) by {
      if |rows| > 0 {
        assert rows[0] in rows;
        var i :| 0 <= i < |users| && users[i] == rows[0];
      }
    }
    rows
  }

  /** `UPDATE users SET current_token = $1, last_login = CURRENT_TIMESTAMP WHERE id = $2`. */
  function SetSession(users: seq<UserRow>, id: int, token: string, now: int): (r: seq<UserRow>)
    ensures |r| == |users|
    ensures forall i :: 0 <= i < |users| ==> SameAccount(r[i], users[i])
    ensures forall i :: 0 <= i < |users| && users[i].id == id ==>
              r[i].currentToken == Some(token) && r[i].lastLogin == Some(now)
    ensures forall i :: 0 <= i < |users| && users[i].id != id ==> r[i] == users[i]
  {
    UpdateWhere(users, (u: UserRow) => u.id == id,
                (u: UserRow) => u.(currentToken := Some(token), lastLogin := Some(now)))
  }

  /** `UPDATE users SET current_token = NULL WHERE current_token = $1`. */
  function ClearSession(users: seq<UserRow>, token: string): (r: seq<UserRow>)
    ensures |r| == |users|
    ensures forall i :: 0 <= i < |users| ==> SameAccount(r[i], users[i]) && r[i].lastLogin == users[i].lastLogin
    ensures forall i :: 0 <= i < |users| ==> r[i].currentToken != Some(token)
    ensures forall i :: 0 <= i < |users| && users[i].currentToken == Some(token) ==>
              r[i] == users[i].(currentToken := None)
    ensures forall i :: 0 <= i < |users| && users[i].currentToken != Some(token) ==> r[i] == users[i]
  {
    UpdateWhere(users, (u: UserRow) => u.currentToken == Some(token),
                (u: UserRow) => u.(currentToken := None))
  }

  /** Two rows describe the same account: id, name, role and password hash agree. */
  predicate SameAccount(a: UserRow, b: UserRow) {
    a.id == b.id && a.name == b.name && a.role == b.role && a.passwordHash == b.passwordHash
  }

  /** Clearing a token twice is clearing it once: logout's update is idempotent. */
  lemma ClearSessionIdempotent(users: seq<UserRow>, token: string)
    ensures ClearSession(ClearSession(users, token), token) == ClearSession(users, token)
  {
    var once := ClearSession(users, token);
    var twice := ClearSession(once, token);
    forall i | 0 <= i < |users| ensures twice[i] == once[i] {
      assert once[i].currentToken != Some(token);
    }
  }

  /** A login's update leaves every other user's session where it was. */
  lemma SetSessionKeepsOtherSessions(users: seq<UserRow>, id: int, token: string, now: int,
                                     other: int, t: string)
    requires other != id
    ensures HoldsToken(SetSession(users, id, token, now), other, t) <==> HoldsToken(users, other, t)
  {
    var r := SetSession(users, id, token, now);
    if HoldsToken(users, other, t) {
      var i :| 0 <= i < |users| && users[i].id == other && users[i].currentToken == Some(t);
      assert r[i] == users[i];
    }
    if HoldsToken(r, other, t) {
      var i :| 0 <= i < |r| && r[i].id == other && r[i].currentToken == Some(t);
      assert r[i] == users[i];
    }
  }

  // ---------------------------------------------------------------------------
  // Queries on the lookup tables and on `devices`

  /** `SELECT id FROM <table> WHERE name = $1`, keeping `rows[0].id`. */
  function SelectIdByName(table: seq<NamedRow>, name: string): (r: Option<int>)
    ensures r.None? <==> forall i :: 0 <= i < |table| ==> table[i].name != name
    ensures r.Some? ==> exists i :: 0 <= i < |table| && table[i].id == r.value && table[i].name == name
                                     && forall j :: 0 <= j < i ==> table[j].name != name
  {
    match FirstIndex(table, (row: NamedRow) => row.name == name)
    case None => None
    case Some(i) => Some(table[i].id)
  }

  /** The name the join `JOIN <table> t ON <ref> = t.id` attaches to reference `id`. */
  function SelectNameById(table: seq<NamedRow>, id: int): (r: Option<string>)
    ensures r.None? <==> forall i :: 0 <= i < |table| ==> table[i].id != id
    ensures r.Some? ==> exists i :: 0 <= i < |table| && table[i].id == id && table[i].name == r.value
  {
    match FirstIndex(table, (row: NamedRow) => row.id == id)
    case None => None
    case Some(i) => Some(table[i].name)
  }

  /** A device with all three references resolved, or None when one dangles. */
  function ViewOf(d: DeviceRow, types: seq<NamedRow>, locations: seq<NamedRow>,
                  statuses: seq<NamedRow>): (r: Option<DeviceView>)
    ensures r.Some? <==> SelectNameById(types, d.typeId).Some? && SelectNameById(locations, d.locationId).Some?
                          && SelectNameById(statuses, d.statusId).Some?
    ensures r.Some? ==> r.value.id == d.id && r.value.name == d.name
                        && Some(r.value.typeName) == SelectNameById(types, d.typeId)
                        && Some(r.value.locationName) == SelectNameById(locations, d.locationId)
                        && Some(r.value.statusName) == SelectNameById(statuses, d.statusId)
  {
    match (SelectNameById(types, d.typeId), SelectNameById(locations, d.locationId),
           SelectNameById(statuses, d.statusId))
    case (Some(t), Some(l), Some(s)) => Some(DeviceView(d.id, d.name, t, l, s))
    case _ => None
  }

  /** The condition that a device's three references all resolve. */
  function Joins(types: seq<NamedRow>, locations: seq<NamedRow>, statuses: seq<NamedRow>): DeviceRow -> bool {
    (d: DeviceRow) => ViewOf(d, types, locations, statuses).Some?
  }

  /** The inner join of `devices` with its three lookup tables, in device scan order: one
      view for each device whose references resolve, and none for the others. */
  function JoinDevices(devices: seq<DeviceRow>, types: seq<NamedRow>, locations: seq<NamedRow>,
                       statuses: seq<NamedRow>): (r: seq<DeviceView>)
    ensures |r| == |Where(devices, Joins(types, locations, statuses))|
    ensures forall v :: v in r <==> exists d :: d in devices && ViewOf(d, types, locations, statuses) == Some(v)
  {
    if devices == [] then []
    else
      var rest := JoinDevices(devices[1..], types, locations, statuses);
      assert forall d :: d in devices <==> d == devices[0] || d in devices[1..];
      match ViewOf(devices[0], types, locations, statuses)
      case Some(v) => [v] + rest
      case None => rest
  }

  /** Under unique device ids, no view joined from the later rows has the first row's id. */
  lemma HeadIdNotJoinedLater(devices: seq<DeviceRow>, types: seq<NamedRow>, locations: seq<NamedRow>,
                             statuses: seq<NamedRow>)
    requires |devices| > 0 && UniqueDeviceIds(devices)
    ensures forall w :: w in JoinDevices(devices[1..], types, locations, statuses) ==> w.id != devices[0].id
  {
    var tail := devices[1..];
    var rest := JoinDevices(tail, types, locations, statuses);
    forall w | w in rest ensures w.id != devices[0].id {
      var d :| d in tail && ViewOf(d, types, locations, statuses) == Some(w);
      var k :| 0 <= k < |tail| && tail[k] == d;
      assert tail[k] == devices[k + 1];
    }
  }

  /** A view put in front of views with other ids keeps the ids unique. */
  lemma ConsKeepsUniqueViewIds(v: DeviceView, rest: seq<DeviceView>)
    requires UniqueViewIds(rest) && forall w :: w in rest ==> w.id != v.id
    ensures UniqueViewIds([v] + rest)
  {
    var r := [v] + rest;
    forall i, j | 0 <= i < j < |r| ensures r[i].id != r[j].id {
      assert r[j] == rest[j - 1] && rest[j - 1] in rest;
      if i > 0 {
        assert r[i] == rest[i - 1];
      }
    }
  }

  /** Under unique device ids the join holds at most one view per device id. */
  lemma {:induction false} JoinKeepsUniqueIds(devices: seq<DeviceRow>, types: seq<NamedRow>,
                                              locations: seq<NamedRow>, statuses: seq<NamedRow>)
    requires UniqueDeviceIds(devices)
    ensures UniqueViewIds(JoinDevices(devices, types, locations, statuses))
  {
    if devices != [] {
      var tail := devices[1..];
      UniqueIdsOfTail(devices);
      JoinKeepsUniqueIds(tail, types, locations, statuses);
      var rest := JoinDevices(tail, types, locations, statuses);
      var head := ViewOf(devices[0], types, locations, statuses);
      if head.Some? {
        HeadIdNotJoinedLater(devices, types, locations, statuses);
        var v := head.value;
        assert v.id == devices[0].id;
        ConsKeepsUniqueViewIds(v, rest);
        assert [v] + rest == JoinDevices(devices, types, locations, statuses);
      } else {
        assert rest == JoinDevices(devices, types, locations, statuses);
      }
    }
  }

  /** `... WHERE d.id = $1` on the joined rows. */
  function ViewsWithId(views: seq<DeviceView>, id: int): (r: seq<DeviceView>)
    ensures forall v :: v in r <==> v in views && v.id == id
  {
    Where(views, (v: DeviceView) => v.id == id)
  }

  /** The condition `id = $1` on a device row, and its negation. */
  function DeviceIdIs(id: int): DeviceRow -> bool {
    (d: DeviceRow) => d.id == id
  }

  function DeviceIdIsNot(id: int): DeviceRow -> bool {
    (d: DeviceRow) => d.id != id
  }

  /** The rows of `devices` that `... WHERE id = $1` hits. */
  function DevicesWithId(devices: seq<DeviceRow>, id: int): (r: seq<DeviceRow>)
    ensures |r| == 0 <==> forall i :: 0 <= i < |devices| ==> devices[i].id != id
    ensures forall d :: d in r <==> d in devices && d.id == id
  {
    var rows := Where(devices, DeviceIdIs(id));
    assert |rows| > 0 ==> rows[0] in rows;
    assert forall i :: 0 <= i < |devices| && devices[i].id == id ==> devices[i] in rows;
    rows
  }

  /** Under unique ids, an id that occurs hits exactly one device row. */
  lemma {:induction false} UniqueIdHitsOneDevice(devices: seq<DeviceRow>, id: int)
    requires UniqueDeviceIds(devices)
    requires exists i :: 0 <= i < |devices| && devices[i].id == id
    ensures |DevicesWithId(devices, id)| == 1
  {
    var rest := devices[1..];
    assert UniqueDeviceIds(rest) by {
      forall i, j | 0 <= i < j < |rest| ensures rest[i].id != rest[j].id {
        assert rest[i] == devices[i + 1] && rest[j] == devices[j + 1];
      }
    }
    if devices[0].id == id {
      forall j | 0 <= j < |rest| ensures rest[j].id != id {
        assert rest[j] == devices[j + 1];
      }
      assert DevicesWithId(devices, id) == [devices[0]] + DevicesWithId(rest, id);
    } else {
      var i :| 0 <= i < |devices| && devices[i].id == id;
      assert rest[i - 1] == devices[i];
      UniqueIdHitsOneDevice(rest, id);
      assert DevicesWithId(devices, id) == DevicesWithId(rest, id);
    }
  }

  /** `UPDATE devices SET name = $1, location_id = $2 WHERE id = $3`. */
  function RenameDevice(devices: seq<DeviceRow>, id: int, name: string, locationId: int): (r: seq<DeviceRow>)
    ensures |r| == |devices|
    ensures forall i :: 0 <= i < |devices| && devices[i].id == id ==>
              r[i] == DeviceRow(id, name, devices[i].typeId, locationId, devices[i].statusId)
    ensures forall i :: 0 <= i < |devices| && devices[i].id != id ==> r[i] == devices[i]
  {
    UpdateWhere(devices, DeviceIdIs(id), (d: DeviceRow) => d.(name := name, locationId := locationId))
  }

  /** `DELETE FROM devices WHERE id = $1`: the remaining rows, in their order. */
  function DeleteDevice(devices: seq<DeviceRow>, id: int): (r: seq<DeviceRow>)
    ensures forall d :: d in r <==> d in devices && d.id != id
    ensures |r| + |DevicesWithId(devices, id)| == |devices|
    ensures UniqueDeviceIds(devices) ==> UniqueDeviceIds(r)
  {
    WherePartition(devices, DeviceIdIsNot(id), DeviceIdIs(id));
    WhereKeepsUniqueIds(devices, DeviceIdIsNot(id));
    Where(devices, DeviceIdIsNot(id))
  }

  /** Selecting rows of a table with unique ids gives a table with unique ids. */
  lemma {:induction false} WhereKeepsUniqueIds(devices: seq<DeviceRow>, p: DeviceRow -> bool)
    ensures UniqueDeviceIds(devices) ==> UniqueDeviceIds(Where(devices, p))
  {
    if devices != [] && UniqueDeviceIds(devices) {
      var rest := devices[1..];
      UniqueIdsOfTail(devices);
      WhereKeepsUniqueIds(rest, p);
      var tail := Where(rest, p);
      if p(devices[0]) {
        forall k | 0 <= k < |tail| ensures tail[k].id != devices[0].id {
          assert tail[k] in rest;
          var m :| 0 <= m < |rest| && rest[m] == tail[k];
          assert rest[m] == devices[m + 1];
        }
        var r := [devices[0]] + tail;
        forall i, j | 0 <= i < j < |r| ensures r[i].id != r[j].id {
          if i > 0 {
            assert r[i] == tail[i - 1] && r[j] == tail[j - 1];
          } else {
            assert r[j] == tail[j - 1];
          }
        }
      }
    }
  }

  /** Dropping the first row of a table keeps its ids unique. */
  lemma UniqueIdsOfTail(devices: seq<DeviceRow>)
    ensures |devices| > 0 && UniqueDeviceIds(devices) ==> UniqueDeviceIds(devices[1..])
  {
    if |devices| > 0 && UniqueDeviceIds(devices) {
      var rest := devices[1..];
      forall i, j | 0 <= i < j < |rest| ensures rest[i].id != rest[j].id {
        assert rest[i] == devices[i + 1] && rest[j] == devices[j + 1];
      }
    }
  }
}
