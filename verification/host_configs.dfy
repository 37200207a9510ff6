/**
 * The host_configs table and HostConfigModel
 * (server/back-end/db/models/host-configs.js). The host list is stored as
 * the JSON text of an array of strings and `enabled` as the integer 1 or 0.
 */
module HostConfigs {
  import opened Common
  import opened JsonText
  import ProxyServices

  /** A stored row: the columns as SQLite holds them. */
  datatype HostConfigRow = HostConfigRow(
    id: nat,
    name: string,
    proxyServiceId: int,
    hostsJson: string,
    enabled: int,
    createdAt: int,
    updatedAt: int)

  /** A row as findById returns it: hosts parsed and enabled read as a boolean. */
  datatype HostConfig = HostConfig(
    id: nat,
    name: string,
    proxyServiceId: int,
    hosts: seq<string>,
    enabled: bool,
    createdAt: int,
    updatedAt: int)

  /** A row as findAll returns it: hosts parsed, enabled left as stored. */
  datatype RawHostConfig = RawHostConfig(
    id: nat,
    name: string,
    proxyServiceId: int,
    hosts: seq<string>,
    enabled: int,
    createdAt: int,
    updatedAt: int)

  /** A row of findAllWithProxyService: the config joined with its owning service (absent service: None). */
  datatype HostConfigView = HostConfigView(
    id: nat,
    name: string,
    proxyServiceId: int,
    hosts: seq<string>,
    enabled: bool,
    proxyServiceName: Option<string>,
    proxyServiceStatus: Option<ProxyServices.Status>,
    proxyServicePort: Option<int>,
    createdAt: int,
    updatedAt: int)

  /** One entry of getAllHosts. */
  datatype HostEntry = HostEntry(configId: nat, host: string)

  datatype NewHostConfig = NewHostConfig(name: string, proxyServiceId: int, hosts: seq<string>, enabled: Option<bool>)

  datatype HostConfigPatch = HostConfigPatch(
    name: Option<string>,
    proxyServiceId: Option<int>,
    hosts: Option<seq<string>>,
    enabled: Option<bool>)

  /** The columns named in the SET clause of the UPDATE statement. */
  datatype Column = NameCol | ProxyServiceIdCol | HostsCol | EnabledCol

  function EnabledColumn(b: bool): int
  {
    if b then 1 else 0
  }

  predicate Decodable(r: HostConfigRow)
  {
    DecodeStringArray(r.hostsJson).Some?
  }

  function Hosts(r: HostConfigRow): seq<string>
    requires Decodable(r)
  {
    DecodeStringArray(r.hostsJson).value
  }

  function AsConfig(r: HostConfigRow): HostConfig
    requires Decodable(r)
  {
    HostConfig(r.id, r.name, r.proxyServiceId, Hosts(r), r.enabled == 1, r.createdAt, r.updatedAt)
  }

  function AsRaw(r: HostConfigRow): RawHostConfig
    requires Decodable(r)
  {
    RawHostConfig(r.id, r.name, r.proxyServiceId, Hosts(r), r.enabled, r.createdAt, r.updatedAt)
  }

  predicate HasFields(p: HostConfigPatch)
  {
    p.name.Some? || p.proxyServiceId.Some? || p.hosts.Some? || p.enabled.Some?
  }

  /** The row after `update`: provided columns replaced, others kept, updated_at refreshed. */
  function Patched(r: HostConfigRow, p: HostConfigPatch, now: int): HostConfigRow
  {
    HostConfigRow(r.id,
      if p.name.Some? then p.name.value else r.name,
      if p.proxyServiceId.Some? then p.proxyServiceId.value else r.proxyServiceId,
      if p.hosts.Some? then EncodeStringArray(p.hosts.value) else r.hostsJson,
      if p.enabled.Some? then EnabledColumn(p.enabled.value) else r.enabled,
      r.createdAt, now)
  }

  predicate IdsDistinct(rows: seq<HostConfigRow>)
  {
    forall i, j :: 0 <= i < j < |rows| ==> rows[i].id != rows[j].id
  }

  /** The row test of findById and update. */
  function WithId(id: int): HostConfigRow -> bool
  {
    (c: HostConfigRow) => c.id == id
  }

  /** What the table keeps of every row: distinct ids, a parseable host list, and enabled stored as 1 or 0. */
  predicate RowsValid(rows: seq<HostConfigRow>)
  {
    IdsDistinct(rows) &&
    (forall k :: 0 <= k < |rows| ==> Decodable(rows[k])) &&
    (forall k :: 0 <= k < |rows| ==> rows[k].enabled == 0 || rows[k].enabled == 1)
  }

  /** Patching the row that holds the id keeps the table valid and leaves every other row as it was. */
  lemma PatchAt(rows: seq<HostConfigRow>, i: nat, p: HostConfigPatch, now: int)
    requires RowsValid(rows) && i < |rows|
    ensures RowsValid(rows[i := Patched(rows[i], p, now)])
    ensures forall k :: 0 <= k < |rows| ==>
      rows[i := Patched(rows[i], p, now)][k] == (if rows[k].id == rows[i].id then Patched(rows[k], p, now) else rows[k])
  {
    if p.hosts.Some? {
      StringArrayRoundTrip(p.hosts.value);
    }
    var rows' := rows[i := Patched(rows[i], p, now)];
    forall a, b | 0 <= a < b < |rows'| ensures rows'[a].id != rows'[b].id {
      assert rows'[a].id == rows[a].id && rows'[b].id == rows[b].id;
    }
  }

  function Ids(rows: seq<HostConfigRow>): (ids: seq<nat>)
    ensures |ids| == |rows| && forall k :: 0 <= k < |rows| ==> ids[k] == rows[k].id
  {
    seq(|rows|, k requires 0 <= k < |rows| => rows[k].id)
  }

  predicate Newer(a: HostConfigRow, b: HostConfigRow)
  {
    a.createdAt > b.createdAt
  }

  /** The entries one row contributes to getAllHosts, in the order of its host list. */
  function EntriesOf(r: HostConfigRow): (es: seq<HostEntry>)
    requires Decodable(r)
    ensures |es| == |Hosts(r)|
    ensures forall k :: 0 <= k < |es| ==> es[k] == HostEntry(r.id, Hosts(r)[k])
  {
    seq(|Hosts(r)|, k requires 0 <= k < |Hosts(r)| => HostEntry(r.id, Hosts(r)[k]))
  }

  /** The inner loop of getAllHosts: the entries of one row pushed after those already collected. */
  method AppendEntries(acc: seq<HostEntry>, row: HostConfigRow) returns (r: seq<HostEntry>)
    requires Decodable(row)
    ensures r == acc + EntriesOf(row)
  {
    var hosts := DecodeStringArray(row.hostsJson).value;
    r := acc;
    var j := 0;
    while j < |hosts|
      invariant 0 <= j <= |hosts|
      invariant r == acc + EntriesOf(row)[..j]
    {
      r := r + [HostEntry(row.id, hosts[j])];
      assert EntriesOf(row)[..j + 1] == EntriesOf(row)[..j] + [HostEntry(row.id, hosts[j])];
      j := j + 1;
    }
    assert EntriesOf(row)[..j] == EntriesOf(row);
  }

  /** The entries of a sequence of rows, row by row. */
  function Entries(rows: seq<HostConfigRow>): seq<HostEntry>
    requires forall k :: 0 <= k < |rows| ==> Decodable(rows[k])
    decreases |rows|
  {
    if |rows| == 0 then [] else Entries(rows[..|rows| - 1]) + EntriesOf(rows[|rows| - 1])
  }

  predicate Kept(r: HostConfigRow, excludeId: Option<int>)
  {
    !Truthy(excludeId) || r.id != excludeId.value
  }

  /** An entry is listed iff it names a host of a listed row, with that row's id. */
  lemma {:induction false} EntriesMembership(rows: seq<HostConfigRow>, e: HostEntry)
    requires forall k :: 0 <= k < |rows| ==> Decodable(rows[k])
    ensures e in Entries(rows) <==> exists k :: 0 <= k < |rows| && rows[k].id == e.configId && e.host in Hosts(rows[k])
    decreases |rows|
  {
    if |rows| > 0 {
      var init := rows[..|rows| - 1];
      var last := rows[|rows| - 1];
      EntriesMembership(init, e);
      if e in EntriesOf(last) {
        var k :| 0 <= k < |EntriesOf(last)| && EntriesOf(last)[k] == e;
        assert Hosts(last)[k] == e.host;
      }
      if exists k :: 0 <= k < |rows| && rows[k].id == e.configId && e.host in Hosts(rows[k]) {
        var k :| 0 <= k < |rows| && rows[k].id == e.configId && e.host in Hosts(rows[k]);
        if k == |rows| - 1 {
          var m :| 0 <= m < |Hosts(last)| && Hosts(last)[m] == e.host;
          assert EntriesOf(last)[m] == e;
        } else {
          assert init[k] == rows[k];
        }
      }
      if exists k :: 0 <= k < |init| && init[k].id == e.configId && e.host in Hosts(init[k]) {
        var k :| 0 <= k < |init| && init[k].id == e.configId && e.host in Hosts(init[k]);
        assert rows[k] == init[k];
      }
    }
  }

  class HostConfigTable {
    var rows: seq<HostConfigRow>

    ghost predicate Valid()
      reads this
    {
      RowsValid(rows)
    }

    constructor ()
      ensures Valid() && rows == []
    {
      rows := [];
    }

    /** findById: the parsed row with that id, or nothing. */
    function FindById(id: int): (r: Option<HostConfig>)
      requires Valid()
      reads this
      ensures r.Some? ==> exists k :: 0 <= k < |rows| && rows[k].id == id && r.value == AsConfig(rows[k])
      ensures r.None? ==> forall k :: 0 <= k < |rows| ==> rows[k].id != id
    {
      match FindIndex(rows, WithId(id))
        case None => None
        case Some(i) => Some(AsConfig(rows[i]))
    }

    /** create: appends one row; hosts stored as JSON, enabled defaulting to true and stored as 1/0. */
    method Create(data: NewHostConfig, now: int) returns (c: HostConfig)
      requires Valid()
      modifies this
      ensures Valid()
      ensures |rows| == |old(rows)| + 1 && rows[..|old(rows)|] == old(rows)
      ensures forall k :: 0 <= k < |old(rows)| ==> old(rows)[k].id < c.id
      ensures c == AsConfig(rows[|rows| - 1])
      ensures c.name == data.name && c.proxyServiceId == data.proxyServiceId && c.hosts == data.hosts
      ensures rows[|rows| - 1].enabled == (if data.enabled == Some(false) then 0 else 1)
      ensures c.createdAt == now && c.updatedAt == now
    {
      var enabled := if data.enabled.Some? then data.enabled.value else true;
      var hostsJson := EncodeStringArray(data.hosts);
      StringArrayRoundTrip(data.hosts);
      var row := HostConfigRow(NextId(Ids(rows)), data.name, data.proxyServiceId, hostsJson,
        EnabledColumn(enabled), now, now);
      rows := rows + [row];
      c := AsConfig(row);
    }

    /**
     * findAll: the owner filter, newest first, then, when both page and pageSize are truthy, the
     * window of pageSize rows starting at (page - 1) * pageSize; each row with its hosts parsed and
     * enabled left as stored.
     */
    function FindAll(proxyServiceId: Option<int>, page: Option<int>, pageSize: Option<int>): (r: seq<RawHostConfig>)
      requires Valid()
      reads this
      ensures |r| <= |rows|
      ensures forall k :: 0 <= k < |r| ==>
        r[k] in RawRows(rows) && (Truthy(proxyServiceId) ==> r[k].proxyServiceId == proxyServiceId.value)
      ensures var w := Window(rows, proxyServiceId, page, pageSize);
        |r| == |w| && forall k :: 0 <= k < |r| ==> r[k] == AsRaw(w[k])
    {
      AsRawAll(rows, Window(rows, proxyServiceId, page, pageSize))
    }

    /**
     * findAllWithProxyService: the rows passing the owner and enabled filters, newest first, each
     * joined with its owning service.
     */
    function FindAllWithProxyService(services: ProxyServices.ProxyServiceTable, proxyServiceId: Option<int>, enabled: Option<bool>)
      : (r: seq<HostConfigView>)
      requires Valid()
      reads this, services
      ensures |r| <= |rows|
      ensures forall k :: 0 <= k < |r| ==>
        (enabled.Some? ==> r[k].enabled == enabled.value) &&
        (Truthy(proxyServiceId) ==> r[k].proxyServiceId == proxyServiceId.value) &&
        r[k].hosts == HostsOf(rows, r[k].id) &&
        r[k].proxyServiceName == OwnerName(services, r[k].proxyServiceId) &&
        r[k].proxyServiceStatus == OwnerStatus(services, r[k].proxyServiceId) &&
        r[k].proxyServicePort == OwnerPort(services, r[k].proxyServiceId)
      ensures var sel := Selected(rows, proxyServiceId, enabled);
        |r| == |sel| &&
        forall k :: 0 <= k < |r| ==>
          r[k].id == sel[k].id && r[k].name == sel[k].name && r[k].createdAt == sel[k].createdAt &&
          r[k].updatedAt == sel[k].updatedAt && r[k].proxyServiceId == sel[k].proxyServiceId &&
          r[k].enabled == (sel[k].enabled == 1) && r[k].hosts == Hosts(sel[k])
    {
      var sel := Selected(rows, proxyServiceId, enabled);
      JoinAll(rows, sel, services)
    }

    /** update: exactly the provided columns change on the row with that id; with none, nothing is written. */
    method Update(id: int, patch: HostConfigPatch, now: int) returns (r: Option<HostConfig>)
      requires Valid()
      modifies this
      ensures Valid()
      ensures |rows| == |old(rows)|
      ensures forall k :: 0 <= k < |rows| ==>
        rows[k] == (if old(rows)[k].id == id && HasFields(patch) then Patched(old(rows)[k], patch, now) else old(rows)[k])
      ensures !HasFields(patch) ==> rows == old(rows)
      ensures r == FindById(id)
    {
      var updates: seq<Column> := [];
      if patch.name.Some? { updates := updates + [NameCol]; }
      if patch.proxyServiceId.Some? { updates := updates + [ProxyServiceIdCol]; }
      if patch.hosts.Some? { updates := updates + [HostsCol]; }
      if patch.enabled.Some? { updates := updates + [EnabledCol]; }
      assert |updates| == 0 <==> !HasFields(patch);
      if |updates| == 0 {
        r := FindById(id);
        return;
      }
      var i := FindIndex(rows, WithId(id));
      if i.Some? {
        PatchAt(rows, i.value, patch, now);
        rows := rows[i.value := Patched(rows[i.value], patch, now)];
      }
      r := FindById(id);
    }

    /** delete: removes the row with that id. */
    method Delete(id: int)
      requires Valid()
      modifies this
      ensures Valid()
      ensures rows == Filter(old(rows), (c: HostConfigRow) => c.id != id)
    {
      rows := Filter(rows, (c: HostConfigRow) => c.id != id);
      FilterKeepsDistinct(old(rows), (c: HostConfigRow) => c.id != id);
    }

    /**
     * The cascade on host_configs.proxy_service_id when a proxy service is deleted: every config of that
     * service goes, every other config stays, in order.
     */
    method DeleteOfService(proxyServiceId: int)
      requires Valid()
      modifies this
      ensures Valid()
      ensures rows == Filter(old(rows), Survives(proxyServiceId))
    {
      rows := Filter(rows, Survives(proxyServiceId));
      FilterKeepsDistinct(old(rows), Survives(proxyServiceId));
    }

    /** getAllHosts: one (configId, host) entry per stored host, config by config, skipping a truthy excludeId. */
    method GetAllHosts(excludeId: Option<int>) returns (allHosts: seq<HostEntry>)
      requires Valid()
      ensures allHosts == Entries(Filter(rows, (c: HostConfigRow) => Kept(c, excludeId)))
    {
      var selected := Filter(rows, (c: HostConfigRow) => Kept(c, excludeId));
      allHosts := CollectEntries(selected);
    }
  }

  /** Without a page, findAll lists every row of the owner, parsed. */
  lemma FindAllHasEveryRow(t: HostConfigTable, proxyServiceId: Option<int>)
    requires t.Valid()
    ensures forall k :: 0 <= k < |t.rows| && Owned(t.rows[k], proxyServiceId) ==>
      AsRaw(t.rows[k]) in t.FindAll(proxyServiceId, None, None)
  {
    var w := Window(t.rows, proxyServiceId, None, None);
    var r := t.FindAll(proxyServiceId, None, None);
    forall k | 0 <= k < |t.rows| && Owned(t.rows[k], proxyServiceId)
      ensures AsRaw(t.rows[k]) in r
    {
      var m :| 0 <= m < |w| && w[m] == t.rows[k];
      assert r[m] == AsRaw(t.rows[k]);
    }
  }

  /** A page of the listing keeps its order. */
  lemma WindowNewestFirst(rows: seq<HostConfigRow>, proxyServiceId: Option<int>, page: Option<int>, pageSize: Option<int>)
    ensures SortedBy(Window(rows, proxyServiceId, page, pageSize), Newer)
  {
    var all := Listing(rows, proxyServiceId);
    if Truthy(page) && Truthy(pageSize) {
      PageSorted(all, pageSize.value, (page.value - 1) * pageSize.value, Newer);
    }
  }

  /** findAll lists later-created rows first, with or without a page. */
  lemma FindAllNewestFirst(t: HostConfigTable, proxyServiceId: Option<int>, page: Option<int>, pageSize: Option<int>)
    requires t.Valid()
    ensures var r := t.FindAll(proxyServiceId, page, pageSize);
      forall i, j :: 0 <= i < j < |r| ==> r[j].createdAt <= r[i].createdAt
  {
    var w := Window(t.rows, proxyServiceId, page, pageSize);
    var r := t.FindAll(proxyServiceId, page, pageSize);
    WindowNewestFirst(t.rows, proxyServiceId, page, pageSize);
    forall i, j | 0 <= i < j < |r| ensures r[j].createdAt <= r[i].createdAt {
      assert r[i] == AsRaw(w[i]) && r[j] == AsRaw(w[j]);
      assert !Newer(w[j], w[i]);
    }
  }

  /** The view lists a row's id when, and only when, that row passes both filters. */
  lemma FindAllWithProxyServiceRows(t: HostConfigTable, services: ProxyServices.ProxyServiceTable,
      proxyServiceId: Option<int>, enabled: Option<bool>, id: int)
    requires t.Valid()
    ensures var r := t.FindAllWithProxyService(services, proxyServiceId, enabled);
      (exists m :: 0 <= m < |r| && r[m].id == id) <==>
      (exists k :: 0 <= k < |t.rows| && t.rows[k].id == id && Wanted(t.rows[k], proxyServiceId, enabled))
  {
    var sel := Selected(t.rows, proxyServiceId, enabled);
    var r := t.FindAllWithProxyService(services, proxyServiceId, enabled);
    assert |r| == |sel| && forall m :: 0 <= m < |r| ==> r[m].id == sel[m].id;
    SelectedIds(t.rows, proxyServiceId, enabled, id);
    assert (exists m :: 0 <= m < |r| && r[m].id == id) <==> (exists m :: 0 <= m < |sel| && sel[m].id == id);
  }

  /** The selection holds a row with the id exactly when a wanted row has it. */
  lemma SelectedIds(rows: seq<HostConfigRow>, proxyServiceId: Option<int>, enabled: Option<bool>, id: int)
    ensures var sel := Selected(rows, proxyServiceId, enabled);
      (exists m :: 0 <= m < |sel| && sel[m].id == id) <==>
      (exists k :: 0 <= k < |rows| && rows[k].id == id && Wanted(rows[k], proxyServiceId, enabled))
  {
    var sel := Selected(rows, proxyServiceId, enabled);
    if exists m :: 0 <= m < |sel| && sel[m].id == id {
      var m :| 0 <= m < |sel| && sel[m].id == id;
      var k :| 0 <= k < |rows| && rows[k] == sel[m];
    }
    if exists k :: 0 <= k < |rows| && rows[k].id == id && Wanted(rows[k], proxyServiceId, enabled) {
      var k :| 0 <= k < |rows| && rows[k].id == id && Wanted(rows[k], proxyServiceId, enabled);
      var m :| 0 <= m < |sel| && sel[m] == rows[k];
    }
  }

  /** findAllWithProxyService lists later-created rows first. */
  lemma FindAllWithProxyServiceNewestFirst(t: HostConfigTable, services: ProxyServices.ProxyServiceTable,
      proxyServiceId: Option<int>, enabled: Option<bool>)
    requires t.Valid()
    ensures var r := t.FindAllWithProxyService(services, proxyServiceId, enabled);
      forall i, j :: 0 <= i < j < |r| ==> r[j].createdAt <= r[i].createdAt
  {
    var sel := Selected(t.rows, proxyServiceId, enabled);
    var r := t.FindAllWithProxyService(services, proxyServiceId, enabled);
    forall i, j | 0 <= i < j < |r| ensures r[j].createdAt <= r[i].createdAt {
      assert !Newer(sel[j], sel[i]);
    }
  }

  /** The outer loop of getAllHosts: the entries of the selected rows, row by row. */
  method CollectEntries(selected: seq<HostConfigRow>) returns (allHosts: seq<HostEntry>)
    requires forall k :: 0 <= k < |selected| ==> Decodable(selected[k])
    ensures allHosts == Entries(selected)
  {
    allHosts := [];
    var i := 0;
    while i < |selected|
      invariant 0 <= i <= |selected|
      invariant allHosts == Entries(selected[..i])
    {
      allHosts := AppendEntries(allHosts, selected[i]);
      assert selected[..i + 1][..i] == selected[..i];
      i := i + 1;
    }
    assert selected[..i] == selected;
  }

  /** The WHERE clause of findAll: a truthy proxyServiceId keeps that service's rows only. */
  predicate Owned(c: HostConfigRow, proxyServiceId: Option<int>)
  {
    !Truthy(proxyServiceId) || c.proxyServiceId == proxyServiceId.value
  }

  function OwnedBy(proxyServiceId: Option<int>): HostConfigRow -> bool
  {
    (c: HostConfigRow) => Owned(c, proxyServiceId)
  }

  /** The WHERE clause of findAllWithProxyService: the owner filter and, when given, the enabled flag. */
  predicate Wanted(c: HostConfigRow, proxyServiceId: Option<int>, enabled: Option<bool>)
  {
    Owned(c, proxyServiceId) && (enabled.None? || c.enabled == EnabledColumn(enabled.value))
  }

  function WantedBy(proxyServiceId: Option<int>, enabled: Option<bool>): HostConfigRow -> bool
  {
    (c: HostConfigRow) => Wanted(c, proxyServiceId, enabled)
  }

  /** findAll without a page: every row of the owner and no other, newest first. */
  function Listing(rows: seq<HostConfigRow>, proxyServiceId: Option<int>): (r: seq<HostConfigRow>)
    ensures forall k :: 0 <= k < |r| ==> r[k] in rows && Owned(r[k], proxyServiceId)
    ensures forall k :: 0 <= k < |rows| && Owned(rows[k], proxyServiceId) ==> rows[k] in r
    ensures SortedBy(r, Newer)
  {
    var matching := Filter(rows, OwnedBy(proxyServiceId));
    var r := NewestFirst(matching);
    SameElements(r, matching);
    WithinTrans(r, matching, rows);
    WithinKeeps(r, matching, OwnedBy(proxyServiceId));
    forall k | 0 <= k < |rows| && Owned(rows[k], proxyServiceId) ensures rows[k] in r {
      var j :| 0 <= j < |matching| && matching[j] == rows[k];
    }
    r
  }

  /** The rows findAllWithProxyService lists, before the join: every wanted row and no other, newest first. */
  function Selected(rows: seq<HostConfigRow>, proxyServiceId: Option<int>, enabled: Option<bool>): (r: seq<HostConfigRow>)
    ensures forall k :: 0 <= k < |r| ==> r[k] in rows && Wanted(r[k], proxyServiceId, enabled)
    ensures forall k :: 0 <= k < |rows| && Wanted(rows[k], proxyServiceId, enabled) ==> rows[k] in r
    ensures SortedBy(r, Newer)
  {
    var matching := Filter(rows, WantedBy(proxyServiceId, enabled));
    var r := NewestFirst(matching);
    SameElements(r, matching);
    WithinTrans(r, matching, rows);
    WithinKeeps(r, matching, WantedBy(proxyServiceId, enabled));
    forall k | 0 <= k < |rows| && Wanted(rows[k], proxyServiceId, enabled) ensures rows[k] in r {
      var j :| 0 <= j < |matching| && matching[j] == rows[k];
    }
    r
  }

  /**
   * The rows findAll lists, before parsing: the listing of the owner's rows, then, when page and
   * pageSize are both truthy, LIMIT pageSize OFFSET (page - 1) * pageSize of it.
   */
  function Window(rows: seq<HostConfigRow>, proxyServiceId: Option<int>, page: Option<int>, pageSize: Option<int>)
    : (w: seq<HostConfigRow>)
    ensures |w| <= |rows|
    ensures forall k :: 0 <= k < |w| ==>
      w[k] in rows && (Truthy(proxyServiceId) ==> w[k].proxyServiceId == proxyServiceId.value)
    ensures !(Truthy(page) && Truthy(pageSize)) ==> w == Listing(rows, proxyServiceId)
    ensures Truthy(page) && Truthy(pageSize) ==>
      var all := Listing(rows, proxyServiceId);
      var offset := (page.value - 1) * pageSize.value;
      var start := if offset < 0 then 0 else offset;
      (pageSize.value > 0 ==> |w| <= pageSize.value) &&
      |w| == (if start >= |all| then 0 else if 0 <= pageSize.value < |all| - start then pageSize.value else |all| - start) &&
      forall k :: 0 <= k < |w| ==> w[k] == all[start + k]
    ensures (forall k :: 0 <= k < |rows| ==> Decodable(rows[k])) ==> forall k :: 0 <= k < |w| ==> Decodable(w[k])
  {
    var all := Listing(rows, proxyServiceId);
    assert |all| <= |rows| by {
      assert |all| == |Filter(rows, OwnedBy(proxyServiceId))|;
    }
    assert Within(all, rows);
    if Truthy(page) && Truthy(pageSize) then
      var w := Page(all, pageSize.value, (page.value - 1) * pageSize.value);
      PageWithin(all, pageSize.value, (page.value - 1) * pageSize.value);
      WithinTrans(w, all, rows);
      w
    else
      all
  }

  function RawRows(rows: seq<HostConfigRow>): seq<RawHostConfig>
    requires forall k :: 0 <= k < |rows| ==> Decodable(rows[k])
  {
    seq(|rows|, k requires 0 <= k < |rows| => AsRaw(rows[k]))
  }

  lemma NewerStrictWeak(dom: set<HostConfigRow>)
    ensures StrictWeakOn(dom, Newer)
  {
  }

  /** ORDER BY created_at DESC over the selected rows: the same rows, later creation first. */
  function NewestFirst(matching: seq<HostConfigRow>): (r: seq<HostConfigRow>)
    ensures multiset(r) == multiset(matching)
    ensures SortedBy(r, Newer)
  {
    var dom := set k | 0 <= k < |matching| :: matching[k];
    NewerStrictWeak(dom);
    SortBySorted(matching, Newer, dom);
    SortBy(matching, Newer)
  }

  function AsRawAll(rows: seq<HostConfigRow>, window: seq<HostConfigRow>): (r: seq<RawHostConfig>)
    requires forall k :: 0 <= k < |rows| ==> Decodable(rows[k])
    requires forall k :: 0 <= k < |window| ==> window[k] in rows
    ensures |r| == |window|
    ensures forall k :: 0 <= k < |r| ==>
      r[k] in RawRows(rows) && r[k].proxyServiceId == window[k].proxyServiceId
    ensures forall k :: 0 <= k < |r| ==> Decodable(window[k]) && r[k] == AsRaw(window[k])
  {
    var r := seq(|window|, k requires 0 <= k < |window| => AsRaw(window[k]));
    assert forall k :: 0 <= k < |r| ==> r[k] in RawRows(rows) by {
      forall k | 0 <= k < |r| ensures r[k] in RawRows(rows) {
        var j :| 0 <= j < |rows| && rows[j] == window[k];
        assert RawRows(rows)[j] == r[k];
      }
    }
    r
  }

  /** The parsed host list of the row with that id (empty when absent). */
  function HostsOf(rows: seq<HostConfigRow>, id: int): seq<string>
    requires forall k :: 0 <= k < |rows| ==> Decodable(rows[k])
  {
    match FindIndex(rows, WithId(id))
      case None => []
      case Some(i) => Hosts(rows[i])
  }

  /** The joined ps.name: the owning service's name, or NULL when no service has that id. */
  function OwnerName(services: ProxyServices.ProxyServiceTable, id: int): Option<string>
    reads services
  {
    match services.FindById(id)
      case None => None
      case Some(s) => Some(s.name)
  }

  function OwnerStatus(services: ProxyServices.ProxyServiceTable, id: int): Option<ProxyServices.Status>
    reads services
  {
    match services.FindById(id)
      case None => None
      case Some(s) => Some(s.status)
  }

  function OwnerPort(services: ProxyServices.ProxyServiceTable, id: int): Option<int>
    reads services
  {
    match services.FindById(id)
      case None => None
      case Some(s) => Some(s.proxyPort)
  }

  function JoinAll(rows: seq<HostConfigRow>, sel: seq<HostConfigRow>, services: ProxyServices.ProxyServiceTable)
    : (r: seq<HostConfigView>)
    requires IdsDistinct(rows)
    requires forall k :: 0 <= k < |rows| ==> Decodable(rows[k])
    requires forall k :: 0 <= k < |sel| ==> sel[k] in rows
    reads services
    ensures |r| == |sel|
    ensures forall k :: 0 <= k < |r| ==>
      r[k].id == sel[k].id && r[k].proxyServiceId == sel[k].proxyServiceId &&
      r[k].name == sel[k].name && r[k].createdAt == sel[k].createdAt && r[k].updatedAt == sel[k].updatedAt &&
      r[k].enabled == (sel[k].enabled == 1) &&
      r[k].hosts == HostsOf(rows, r[k].id) &&
      r[k].proxyServiceName == OwnerName(services, r[k].proxyServiceId) &&
      r[k].proxyServiceStatus == OwnerStatus(services, r[k].proxyServiceId) &&
      r[k].proxyServicePort == OwnerPort(services, r[k].proxyServiceId)
  {
    HostsOfSelected(rows, sel);
    seq(|sel|, k requires 0 <= k < |sel| reads services => Joined(sel[k], services.FindById(sel[k].proxyServiceId)))
  }

  /** With distinct ids, looking a selected row up by its id finds that row's hosts. */
  lemma HostsOfSelected(rows: seq<HostConfigRow>, sel: seq<HostConfigRow>)
    requires IdsDistinct(rows)
    requires forall k :: 0 <= k < |rows| ==> Decodable(rows[k])
    requires forall k :: 0 <= k < |sel| ==> sel[k] in rows
    ensures forall k :: 0 <= k < |sel| ==> HostsOf(rows, sel[k].id) == Hosts(sel[k])
  {
    forall k | 0 <= k < |sel|
      ensures HostsOf(rows, sel[k].id) == Hosts(sel[k])
    {
      var j :| 0 <= j < |rows| && rows[j] == sel[k];
    }
  }

  function Joined(c: HostConfigRow, owner: Option<ProxyServices.ProxyService>): HostConfigView
    requires Decodable(c)
  {
    HostConfigView(c.id, c.name, c.proxyServiceId, Hosts(c), c.enabled == 1,
      if owner.Some? then Some(owner.value.name) else None,
      if owner.Some? then Some(owner.value.status) else None,
      if owner.Some? then Some(owner.value.proxyPort) else None,
      c.createdAt, c.updatedAt)
  }

  /** A config that outlives the deletion of the service with that id. */
  function Survives(proxyServiceId: int): HostConfigRow -> bool
  {
    (c: HostConfigRow) => c.proxyServiceId != proxyServiceId
  }

  /** Dropping rows never makes two ids collide. */
  lemma {:induction false} FilterKeepsDistinct(rows: seq<HostConfigRow>, p: HostConfigRow -> bool)
    requires IdsDistinct(rows)
    ensures IdsDistinct(Filter(rows, p))
    decreases |rows|
  {
    if |rows| > 0 {
      FilterKeepsDistinct(rows[1..], p);
      var rest := Filter(rows[1..], p);
      forall k | 0 <= k < |rest| ensures rest[k].id != rows[0].id {
        assert rest[k] in rows[1..];
      }
    }
  }

}
