/**
 * HostConflictChecker (server/back-end/services/host-conflict-checker.js):
 * a host is in conflict when another configuration already lists it,
 * compared without regard to letter case.
 */
module ConflictChecker {
  import opened Common
  import HostConfigs

  /** One stored host that clashes with a candidate, in its stored spelling. */
  datatype Conflict = Conflict(host: string, configId: nat)

  datatype ConflictResult = ConflictResult(hasConflict: bool, conflicts: seq<Conflict>)

  datatype ConflictDetail = ConflictDetail(host: string, configId: nat, configName: string)

  datatype DetailedResult = DetailedResult(hasConflict: bool, conflicts: seq<ConflictDetail>)

  const UNKNOWN_NAME := "Unknown"

  /** `new Set(hosts.map(h => h.toLowerCase()))` */
  function LowerSet(hosts: seq<string>): set<string>
  {
    set h | h in hosts :: Lower(h)
  }

  predicate Clashes(e: HostConfigs.HostEntry, hosts: seq<string>)
  {
    Lower(e.host) in LowerSet(hosts)
  }

  /** The conflicts the forEach collects from a list of stored entries, in entry order. */
  function Conflicts(entries: seq<HostConfigs.HostEntry>, hosts: seq<string>): seq<Conflict>
    decreases |entries|
  {
    if |entries| == 0 then []
    else
      var e := entries[|entries| - 1];
      Conflicts(entries[..|entries| - 1], hosts) + (if Clashes(e, hosts) then [Conflict(e.host, e.configId)] else [])
  }

  /** What getAllHosts(excludeConfigId) returns for a table. */
  function Candidates(t: HostConfigs.HostConfigTable, excludeConfigId: Option<int>): seq<HostConfigs.HostEntry>
    requires t.Valid()
    reads t
  {
    HostConfigs.Entries(Filter(t.rows, (c: HostConfigs.HostConfigRow) => HostConfigs.Kept(c, excludeConfigId)))
  }

  /** checkConflict: every stored host of the other configurations that some candidate names, case-insensitively. */
  method CheckConflict(t: HostConfigs.HostConfigTable, hosts: seq<string>, excludeConfigId: Option<int>)
    returns (r: ConflictResult)
    requires t.Valid()
    ensures r.conflicts == Conflicts(Candidates(t, excludeConfigId), hosts)
    ensures r.hasConflict <==> |r.conflicts| > 0
  {
    var allHosts := t.GetAllHosts(excludeConfigId);
    var conflicts: seq<Conflict> := [];
    var hostSet := set h | h in hosts :: Lower(h);
    for i := 0 to |allHosts|
      invariant conflicts == Conflicts(allHosts[..i], hosts)
    {
      var e := allHosts[i];
      if Lower(e.host) in hostSet {
        conflicts := conflicts + [Conflict(e.host, e.configId)];
      }
      assert allHosts[..i + 1][..i] == allHosts[..i];
    }
    assert allHosts[..|allHosts|] == allHosts;
    r := ConflictResult(|conflicts| > 0, conflicts);
  }

  /** Index of the first conflict recorded for a configuration. */
  function FirstOf(cs: seq<Conflict>, id: nat): Option<nat>
  {
    FindIndex(cs, (c: Conflict) => c.configId == id)
  }

  /**
   * The mapping of checkConflictWithDetails: each conflict keeps its configId, takes the name of that
   * configuration or 'Unknown', and reports the host of the FIRST conflict recorded for that configId.
   */
  function WithDetails(r: ConflictResult, t: HostConfigs.HostConfigTable): (d: DetailedResult)
    requires t.Valid()
    requires r.hasConflict <==> |r.conflicts| > 0
    reads t
    ensures !r.hasConflict ==> d == DetailedResult(false, [])
    ensures d.hasConflict == r.hasConflict && |d.conflicts| == |r.conflicts|
    ensures forall k :: 0 <= k < |d.conflicts| ==>
      d.conflicts[k].configId == r.conflicts[k].configId &&
      d.conflicts[k].configName == ConfigName(t, r.conflicts[k].configId)
    ensures forall k :: 0 <= k < |d.conflicts| ==>
      exists m :: 0 <= m <= k && r.conflicts[m].configId == r.conflicts[k].configId &&
        d.conflicts[k].host == r.conflicts[m].host &&
        forall j :: 0 <= j < m ==> r.conflicts[j].configId != r.conflicts[k].configId
  {
    if !r.hasConflict then DetailedResult(false, [])
    else
      var names := Names(r.conflicts, t);
      DetailedResult(true, seq(|r.conflicts|, k requires 0 <= k < |r.conflicts| =>
        var m := FirstOf(r.conflicts, r.conflicts[k].configId);
        ConflictDetail(if m.Some? then r.conflicts[m.value].host else r.conflicts[k].host, r.conflicts[k].configId, names[k])))
  }

  /** `config ? config.name : 'Unknown'` for the configuration looked up by id. */
  function ConfigName(t: HostConfigs.HostConfigTable, id: nat): string
    requires t.Valid()
    reads t
  {
    match t.FindById(id) case Some(c) => c.name case None => UNKNOWN_NAME
  }

  function Names(cs: seq<Conflict>, t: HostConfigs.HostConfigTable): (ns: seq<string>)
    requires t.Valid()
    reads t
    ensures |ns| == |cs| && forall k :: 0 <= k < |cs| ==> ns[k] == ConfigName(t, cs[k].configId)
    decreases |cs|
  {
    if |cs| == 0 then [] else [ConfigName(t, cs[0].configId)] + Names(cs[1..], t)
  }

  /** checkConflictWithDetails */
  method CheckConflictWithDetails(t: HostConfigs.HostConfigTable, hosts: seq<string>, excludeConfigId: Option<int>)
    returns (d: DetailedResult)
    requires t.Valid()
    ensures d == WithDetails(ConflictResult(|Conflicts(Candidates(t, excludeConfigId), hosts)| > 0,
                                            Conflicts(Candidates(t, excludeConfigId), hosts)), t)
  {
    var conflictResult := CheckConflict(t, hosts, excludeConfigId);
    if !conflictResult.hasConflict {
      return DetailedResult(false, []);
    }
    d := WithDetails(conflictResult, t);
  }

  // ---------------------------------------------------------------------
  // Properties
  // ---------------------------------------------------------------------

  /** Collecting over a split list gives the two collections in order: conflicts keep store order. */
  lemma {:induction false} ConflictsAppend(a: seq<HostConfigs.HostEntry>, b: seq<HostConfigs.HostEntry>, hosts: seq<string>)
    ensures Conflicts(a + b, hosts) == Conflicts(a, hosts) + Conflicts(b, hosts)
    decreases |b|
  {
    if |b| == 0 {
      assert a + b == a;
    } else {
      ConflictsAppend(a, b[..|b| - 1], hosts);
      assert (a + b)[..|a + b| - 1] == a + b[..|b| - 1];
    }
  }

  /** A stored entry is reported, in its stored spelling, iff its lower-cased host is that of some candidate. */
  lemma {:induction false} ConflictsMembership(entries: seq<HostConfigs.HostEntry>, hosts: seq<string>, c: Conflict)
    ensures c in Conflicts(entries, hosts) <==>
      HostConfigs.HostEntry(c.configId, c.host) in entries && exists h :: h in hosts && Lower(h) == Lower(c.host)
    decreases |entries|
  {
    if |entries| > 0 {
      var init := entries[..|entries| - 1];
      ConflictsMembership(init, hosts, c);
      assert entries == init + [entries[|entries| - 1]];
    }
  }

  /** An empty candidate list never conflicts. */
  lemma {:induction false} NoCandidatesNoConflict(entries: seq<HostConfigs.HostEntry>)
    ensures Conflicts(entries, []) == []
    decreases |entries|
  {
    if |entries| > 0 {
      NoCandidatesNoConflict(entries[..|entries| - 1]);
      assert LowerSet([]) == {};
    }
  }

  /** Hosts of a truthy excludeConfigId are never reported. */
  lemma ExcludedNeverReported(t: HostConfigs.HostConfigTable, hosts: seq<string>, excludeConfigId: Option<int>)
    requires t.Valid() && Truthy(excludeConfigId)
    ensures forall c :: c in Conflicts(Candidates(t, excludeConfigId), hosts) ==> c.configId != excludeConfigId.value
  {
    var kept := Filter(t.rows, (c: HostConfigs.HostConfigRow) => HostConfigs.Kept(c, excludeConfigId));
    forall c | c in Conflicts(Candidates(t, excludeConfigId), hosts)
      ensures c.configId != excludeConfigId.value
    {
      ConflictsMembership(Candidates(t, excludeConfigId), hosts, c);
      HostConfigs.EntriesMembership(kept, HostConfigs.HostEntry(c.configId, c.host));
      var k :| 0 <= k < |kept| && kept[k].id == c.configId && c.host in HostConfigs.Hosts(kept[k]);
      assert HostConfigs.Kept(kept[k], excludeConfigId);
    }
  }

  /** A falsy excludeConfigId (null, absent or 0) excludes nothing. */
  lemma FalsyExcludeKeepsAll(t: HostConfigs.HostConfigTable, excludeConfigId: Option<int>)
    requires t.Valid() && !Truthy(excludeConfigId)
    ensures Candidates(t, excludeConfigId) == HostConfigs.Entries(t.rows)
  {
    FilterAll(t.rows, (c: HostConfigs.HostConfigRow) => HostConfigs.Kept(c, excludeConfigId));
  }

  /** Two conflicts in the same configuration are both reported with the host of the first of them. */
  lemma SameConfigSameHost(r: ConflictResult, t: HostConfigs.HostConfigTable, i: nat, j: nat)
    requires t.Valid()
    requires r.hasConflict <==> |r.conflicts| > 0
    requires i < |r.conflicts| && j < |r.conflicts| && r.conflicts[i].configId == r.conflicts[j].configId
    ensures WithDetails(r, t).conflicts[i].host == WithDetails(r, t).conflicts[j].host
  {
    var id := r.conflicts[i].configId;
    var m := FirstOf(r.conflicts, id);
    assert m.Some?;
  }
}
