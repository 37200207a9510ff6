/**
 * The proxy_services table and ProxyServiceModel
 * (server/back-end/db/models/proxy-services.js) as an in-memory table.
 * A row's status is one of stopped, running and error; process_id is NULL
 * until the process manager or a controller writes a pid or the -1
 * "no process" sentinel.
 */
module ProxyServices {
  import opened Common

  datatype Status = Stopped | Running | Error

  datatype ProxyService = ProxyService(
    id: nat,
    name: string,
    jumpHost: string,
    jumpPort: int,
    jumpUsername: string,
    proxyPort: int,
    sshKeyPath: string,
    status: Status,
    processId: Option<int>,
    createdAt: int,
    updatedAt: int)

  /** The fields `create` receives; None stands for an absent (undefined) field. */
  datatype NewService = NewService(
    name: string,
    jumpHost: string,
    jumpPort: Option<int>,
    jumpUsername: string,
    proxyPort: int,
    sshKeyPath: string,
    status: Option<Status>)

  /** The fields `update` receives; None stands for undefined, which leaves the column alone. */
  datatype ServicePatch = ServicePatch(
    name: Option<string>,
    jumpHost: Option<string>,
    jumpPort: Option<int>,
    jumpUsername: Option<string>,
    proxyPort: Option<int>,
    sshKeyPath: Option<string>,
    status: Option<Status>,
    processId: Option<int>)

  function StatusPatch(st: Status, pid: int): ServicePatch
  {
    ServicePatch(None, None, None, None, None, None, Some(st), Some(pid))
  }

  /** The columns named in the SET clause of the UPDATE statement. */
  datatype Column = NameCol | JumpHostCol | JumpPortCol | JumpUsernameCol | ProxyPortCol | SshKeyPathCol | StatusCol | ProcessIdCol

  predicate HasFields(p: ServicePatch)
  {
    p.name.Some? || p.jumpHost.Some? || p.jumpPort.Some? || p.jumpUsername.Some? ||
    p.proxyPort.Some? || p.sshKeyPath.Some? || p.status.Some? || p.processId.Some?
  }

  function Pick<T>(o: Option<T>, old_: T): T
  {
    if o.Some? then o.value else old_
  }

  /** The row after `update`: each provided field replaced, all others kept, updated_at refreshed. */
  function Patched(s: ProxyService, p: ServicePatch, now: int): ProxyService
  {
    ProxyService(s.id, Pick(p.name, s.name), Pick(p.jumpHost, s.jumpHost), Pick(p.jumpPort, s.jumpPort),
      Pick(p.jumpUsername, s.jumpUsername), Pick(p.proxyPort, s.proxyPort), Pick(p.sshKeyPath, s.sshKeyPath),
      Pick(p.status, s.status), if p.processId.Some? then p.processId else s.processId, s.createdAt, now)
  }

  /** The rows after an UPDATE ... WHERE id = ?: the row with that id patched when the patch names a field. */
  function Applied(rows: seq<ProxyService>, id: int, patch: ServicePatch, now: int): (r: seq<ProxyService>)
    ensures |r| == |rows|
    ensures forall k :: 0 <= k < |rows| ==>
      r[k] == (if rows[k].id == id && HasFields(patch) then Patched(rows[k], patch, now) else rows[k])
  {
    seq(|rows|, k requires 0 <= k < |rows| =>
      if rows[k].id == id && HasFields(patch) then Patched(rows[k], patch, now) else rows[k])
  }

  /** The SET clause update builds, one column per provided field in declaration order. */
  method SetColumns(patch: ServicePatch) returns (updates: seq<Column>)
    ensures |updates| == 0 <==> !HasFields(patch)
  {
    updates := [];
    if patch.name.Some? { updates := updates + [NameCol]; }
    if patch.jumpHost.Some? { updates := updates + [JumpHostCol]; }
    if patch.jumpPort.Some? { updates := updates + [JumpPortCol]; }
    if patch.jumpUsername.Some? { updates := updates + [JumpUsernameCol]; }
    if patch.proxyPort.Some? { updates := updates + [ProxyPortCol]; }
    if patch.sshKeyPath.Some? { updates := updates + [SshKeyPathCol]; }
    if patch.status.Some? { updates := updates + [StatusCol]; }
    if patch.processId.Some? { updates := updates + [ProcessIdCol]; }
  }

  /** With distinct ids, patching the one row holding the id is the whole UPDATE. */
  lemma AppliedAt(rows: seq<ProxyService>, i: nat, id: int, patch: ServicePatch, now: int)
    requires IdsDistinct(rows) && i < |rows| && rows[i].id == id && HasFields(patch)
    ensures rows[i := Patched(rows[i], patch, now)] == Applied(rows, id, patch, now)
    ensures IdsDistinct(Applied(rows, id, patch, now))
  {
  }

  /** An UPDATE of an id no row holds changes nothing. */
  lemma AppliedMissing(rows: seq<ProxyService>, id: int, patch: ServicePatch, now: int)
    requires forall k :: 0 <= k < |rows| ==> rows[k].id != id
    ensures Applied(rows, id, patch, now) == rows
  {
  }

  function Ids(rows: seq<ProxyService>): (ids: seq<nat>)
    ensures |ids| == |rows| && forall k :: 0 <= k < |rows| ==> ids[k] == rows[k].id
  {
    seq(|rows|, k requires 0 <= k < |rows| => rows[k].id)
  }

  predicate IdsDistinct(rows: seq<ProxyService>)
  {
    forall i, j :: 0 <= i < j < |rows| ==> rows[i].id != rows[j].id
  }

  /** ORDER BY created_at DESC: `a` sorts before `b` when it was created later. */
  predicate Newer(a: ProxyService, b: ProxyService)
  {
    a.createdAt > b.createdAt
  }

  lemma NewerStrictWeak(dom: set<ProxyService>)
    ensures StrictWeakOn(dom, Newer)
  {
  }

  predicate HasStatus(s: ProxyService, status: Option<Status>)
  {
    status.None? || s.status == status.value
  }

  class ProxyServiceTable {
    var rows: seq<ProxyService>

    ghost predicate Valid()
      reads this
    {
      IdsDistinct(rows)
    }

    constructor ()
      ensures Valid() && rows == []
    {
      rows := [];
    }

    /** findById: the row with that id, or nothing. */
    function FindById(id: int): (r: Option<ProxyService>)
      reads this
      ensures r.Some? ==> r.value in rows && r.value.id == id
      ensures r.None? ==> forall k :: 0 <= k < |rows| ==> rows[k].id != id
    {
      match FindIndex(rows, (s: ProxyService) => s.id == id)
        case None => None
        case Some(i) => Some(rows[i])
    }

    /** create: appends one row with a fresh id, status defaulting to stopped and a falsy jumpPort read as 22. */
    method Create(data: NewService, now: int) returns (s: ProxyService)
      requires Valid()
      modifies this
      ensures Valid()
      ensures rows == old(rows) + [s]
      ensures forall k :: 0 <= k < |old(rows)| ==> old(rows)[k].id < s.id
      ensures s.name == data.name && s.jumpHost == data.jumpHost && s.jumpUsername == data.jumpUsername
      ensures s.proxyPort == data.proxyPort && s.sshKeyPath == data.sshKeyPath
      ensures s.jumpPort == (if Truthy(data.jumpPort) then data.jumpPort.value else 22)
      ensures s.status == (if data.status.Some? then data.status.value else Stopped)
      ensures s.processId == None && s.createdAt == now && s.updatedAt == now
    {
      var status := if data.status.Some? then data.status.value else Stopped;
      var jumpPort := if Truthy(data.jumpPort) then data.jumpPort.value else 22;
      var id := NextId(Ids(rows));
      s := ProxyService(id, data.name, data.jumpHost, jumpPort, data.jumpUsername, data.proxyPort,
        data.sshKeyPath, status, None, now, now);
      rows := rows + [s];
    }

    /** The rows passing the status filter, newest first: findAll without pagination. */
    function Listing(status: Option<Status>): (r: seq<ProxyService>)
      reads this
      ensures forall k :: 0 <= k < |r| ==> r[k] in rows && HasStatus(r[k], status)
      ensures |r| == Count(status)
    {
      var matching := Filter(rows, (s: ProxyService) => HasStatus(s, status));
      var sorted := SortBy(matching, Newer);
      assert forall k :: 0 <= k < |sorted| ==> sorted[k] in multiset(matching);
      sorted
    }

    /**
     * findAll: status filter, newest first, then, when both page and pageSize are truthy, the window
     * of pageSize rows of that listing starting at (page - 1) * pageSize (LIMIT ? OFFSET ?).
     */
    function FindAll(status: Option<Status>, page: Option<int>, pageSize: Option<int>): (r: seq<ProxyService>)
      reads this
      ensures forall k :: 0 <= k < |r| ==> r[k] in rows && HasStatus(r[k], status)
      ensures !(Truthy(page) && Truthy(pageSize)) ==> r == Listing(status)
      ensures Truthy(page) && Truthy(pageSize) ==>
        var all := Listing(status);
        var offset := (page.value - 1) * pageSize.value;
        var start := if offset < 0 then 0 else offset;
        (pageSize.value > 0 ==> |r| <= pageSize.value) &&
        |r| == (if start >= |all| then 0 else if 0 <= pageSize.value < |all| - start then pageSize.value else |all| - start) &&
        forall k :: 0 <= k < |r| ==> r[k] == all[start + k]
    {
      var all := Listing(status);
      if Truthy(page) && Truthy(pageSize) then
        Page(all, pageSize.value, (page.value - 1) * pageSize.value)
      else all
    }

    /** count: the number of rows passing the status filter alone. */
    function Count(status: Option<Status>): (n: nat)
      reads this
      ensures n <= |rows|
    {
      |Filter(rows, (s: ProxyService) => HasStatus(s, status))|
    }

    /** findByProxyPort: the first row, in table order, holding that port. */
    function FindByProxyPort(port: int): (r: Option<ProxyService>)
      reads this
      ensures r.Some? ==> r.value in rows && r.value.proxyPort == port
      ensures r.None? ==> forall k :: 0 <= k < |rows| ==> rows[k].proxyPort != port
    {
      match FindIndex(rows, (s: ProxyService) => s.proxyPort == port)
        case None => None
        case Some(i) => Some(rows[i])
    }

    /** update: exactly the provided fields change on the row with that id; with none, nothing is written. */
    method Update(id: int, patch: ServicePatch, now: int) returns (r: Option<ProxyService>)
      requires Valid()
      modifies this
      ensures Valid()
      ensures |rows| == |old(rows)|
      ensures rows == Applied(old(rows), id, patch, now)
      ensures !HasFields(patch) ==> rows == old(rows)
      ensures r == FindById(id)
    {
      var updates := SetColumns(patch);
      if |updates| == 0 {
        r := FindById(id);
        return;
      }
      var i := FindIndex(rows, (s: ProxyService) => s.id == id);
      if i.Some? {
        AppliedAt(rows, i.value, id, patch, now);
        rows := rows[i.value := Patched(rows[i.value], patch, now)];
      } else {
        AppliedMissing(rows, id, patch, now);
      }
      r := FindById(id);
    }

    /** delete: removes the row with that id; other rows keep their order. */
    method Delete(id: int)
      requires Valid()
      modifies this
      ensures Valid()
      ensures rows == Filter(old(rows), (s: ProxyService) => s.id != id)
    {
      rows := Filter(rows, (s: ProxyService) => s.id != id);
      DeleteKeepsDistinct(old(rows), id);
    }
  }

  /** After a write by id the row holding that id is the old one patched: ids are distinct, so no other row has it. */
  lemma AppliedRow(rows: seq<ProxyService>, id: int, patch: ServicePatch, now: int, s: ProxyService, x: ProxyService)
    requires IdsDistinct(rows) && s in rows && s.id == id && HasFields(patch)
    requires x in Applied(rows, id, patch, now) && x.id == id
    ensures x == Patched(s, patch, now)
  {
    var r := Applied(rows, id, patch, now);
    var k :| 0 <= k < |r| && r[k] == x;
    var j :| 0 <= j < |rows| && rows[j] == s;
    assert rows[k].id == id;
  }

  lemma {:induction false} DeleteKeepsDistinct(rows: seq<ProxyService>, id: int)
    requires IdsDistinct(rows)
    ensures IdsDistinct(Filter(rows, (s: ProxyService) => s.id != id))
    decreases |rows|
  {
    if |rows| > 0 {
      DeleteKeepsDistinct(rows[1..], id);
      var rest := Filter(rows[1..], (s: ProxyService) => s.id != id);
      forall k | 0 <= k < |rest| ensures rest[k].id != rows[0].id {
        assert rest[k] in rows[1..];
      }
    }
  }

  /** findAll's rows come newest first. */
  lemma FindAllNewestFirst(t: ProxyServiceTable, status: Option<Status>)
    ensures SortedBy(t.FindAll(status, None, None), Newer)
  {
    var matching := Filter(t.rows, (s: ProxyService) => HasStatus(s, status));
    assert t.FindAll(status, None, None) == SortBy(matching, Newer);
    NewerStrictWeak(set k | 0 <= k < |matching| :: matching[k]);
    SortBySorted(matching, Newer, set k | 0 <= k < |matching| :: matching[k]);
  }

  /** Without pagination, findAll returns every row that passes the status filter. */
  lemma FindAllHasEveryRow(t: ProxyServiceTable, status: Option<Status>)
    ensures forall k :: 0 <= k < |t.rows| && HasStatus(t.rows[k], status) ==> t.rows[k] in t.FindAll(status, None, None)
  {
    var matching := Filter(t.rows, (s: ProxyService) => HasStatus(s, status));
    var sorted := SortBy(matching, Newer);
    forall k | 0 <= k < |t.rows| && HasStatus(t.rows[k], status)
      ensures t.rows[k] in t.FindAll(status, None, None)
    {
      assert t.rows[k] in multiset(matching);
      assert t.rows[k] in multiset(sorted);
    }
  }
}
