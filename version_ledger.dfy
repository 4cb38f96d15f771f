/** The shared AgentDnsVersion table: one row per agent with the DNS version last
    written to it, and the race-safe upsert of `sync_dns`. */
module VersionLedger {
  import opened Wrappers

  datatype AgentDnsVersion = AgentDnsVersion(agentId: string, dnsVersion: int)

  /** The unique constraint on agent_id. */
  ghost predicate UniqueAgents(rows: seq<AgentDnsVersion>) {
    forall i, j :: 0 <= i < j < |rows| ==> rows[i].agentId != rows[j].agentId
  }

  /** The table read as a map from agent id to version. */
  function Versions(rows: seq<AgentDnsVersion>): (m: map<string, int>)
    ensures forall i :: 0 <= i < |rows| ==> rows[i].agentId in m
  {
    if rows == [] then map[]
    else
      var init := rows[..|rows| - 1];
      var last := rows[|rows| - 1];
      assert forall i :: 0 <= i < |init| ==> rows[i] == init[i];
      Versions(init)[last.agentId := last.dnsVersion]
  }

  /** The rows of one agent. */
  function RowsOf(rows: seq<AgentDnsVersion>, agentId: string): (r: nat)
    ensures r == 0 <==> agentId !in Versions(rows)
    ensures r > 0 ==> exists i :: 0 <= i < |rows| && rows[i].agentId == agentId
  {
    if rows == [] then 0
    else
      var init := rows[..|rows| - 1];
      assert forall i :: 0 <= i < |init| ==> rows[i] == init[i];
      (if rows[|rows| - 1].agentId == agentId then 1 else 0) + RowsOf(init, agentId)
  }

  /** `UPDATE agent_dns_versions SET dns_version = v WHERE agent_id = a`. */
  function SetVersion(rows: seq<AgentDnsVersion>, agentId: string, version: int): (r: seq<AgentDnsVersion>)
    ensures |r| == |rows|
    ensures forall i :: 0 <= i < |rows| ==> r[i].agentId == rows[i].agentId
    ensures forall i :: 0 <= i < |rows| ==>
      r[i].dnsVersion == if rows[i].agentId == agentId then version else rows[i].dnsVersion
  {
    if rows == [] then []
    else
      var last := rows[|rows| - 1];
      SetVersion(rows[..|rows| - 1], agentId, version)
        + [if last.agentId == agentId then AgentDnsVersion(agentId, version) else last]
  }

  lemma {:induction false} VersionsOfSetVersion(rows: seq<AgentDnsVersion>, agentId: string, version: int)
    ensures Versions(SetVersion(rows, agentId, version)) ==
      if agentId in Versions(rows) then Versions(rows)[agentId := version] else Versions(rows)
  {
    if rows != [] {
      var init, last := rows[..|rows| - 1], rows[|rows| - 1];
      var last' := if last.agentId == agentId then AgentDnsVersion(agentId, version) else last;
      var r := SetVersion(rows, agentId, version);
      assert r == SetVersion(init, agentId, version) + [last'];
      assert r[..|r| - 1] == SetVersion(init, agentId, version);
      assert Versions(r) == Versions(SetVersion(init, agentId, version))[last'.agentId := last'.dnsVersion];
      assert Versions(rows) == Versions(init)[last.agentId := last.dnsVersion];
      VersionsOfSetVersion(init, agentId, version);
    }
  }

  /** The keys of the map view are exactly the agents that have a row. */
  lemma {:induction false} VersionsKeys(rows: seq<AgentDnsVersion>)
    ensures forall a :: a in Versions(rows) <==> exists i :: 0 <= i < |rows| && rows[i].agentId == a
  {
    if rows != [] {
      var init, last := rows[..|rows| - 1], rows[|rows| - 1];
      VersionsKeys(init);
      assert Versions(rows) == Versions(init)[last.agentId := last.dnsVersion];
      forall a | a in Versions(rows) && a != last.agentId
        ensures exists i :: 0 <= i < |rows| && rows[i].agentId == a
      {
        assert a in Versions(init);
        var i :| 0 <= i < |init| && init[i].agentId == a;
        assert rows[i] == init[i];
      }
      assert rows[|rows| - 1].agentId == last.agentId;
    }
  }

  /** Under the unique constraint the map view has one key per row, and each agent's
      key holds its row's version. */
  lemma {:induction false} VersionsOfUnique(rows: seq<AgentDnsVersion>)
    requires UniqueAgents(rows)
    ensures |Versions(rows)| == |rows|
    ensures forall i :: 0 <= i < |rows| ==> Versions(rows)[rows[i].agentId] == rows[i].dnsVersion
  {
    if rows != [] {
      var init, last := rows[..|rows| - 1], rows[|rows| - 1];
      assert UniqueAgents(init);
      VersionsOfUnique(init);
      VersionsKeys(init);
      forall i | 0 <= i < |init| ensures init[i].agentId != last.agentId {
        assert init[i] == rows[i];
      }
      assert last.agentId !in Versions(init);
      forall i | 0 <= i < |rows|
        ensures Versions(rows)[rows[i].agentId] == rows[i].dnsVersion
      {
        if i < |init| {
          assert rows[i] == init[i] && rows[i].agentId != last.agentId;
        }
      }
    }
  }

  lemma {:induction false} OneRowPerAgent(rows: seq<AgentDnsVersion>, agentId: string)
    requires UniqueAgents(rows)
    ensures RowsOf(rows, agentId) <= 1
  {
    if rows != [] {
      var init := rows[..|rows| - 1];
      assert UniqueAgents(init);
      OneRowPerAgent(init, agentId);
    }
  }

  class Ledger {
    var rows: seq<AgentDnsVersion>

    ghost predicate Valid()
      reads this
    {
      UniqueAgents(rows)
    }

    constructor ()
      ensures Valid() && rows == []
    {
      rows := [];
    }

    /** `AgentDnsVersion.create`: an INSERT that the unique constraint refuses when
        the agent already has a row. */
    method Create(agentId: string, version: int) returns (violation: bool)
      requires Valid()
      modifies this
      ensures Valid()
      ensures violation <==> agentId in Versions(old(rows))
      ensures rows == if violation then old(rows) else old(rows) + [AgentDnsVersion(agentId, version)]
    {
      violation := agentId in Versions(rows);
      if !violation {
        forall i | 0 <= i < |rows| ensures rows[i].agentId != agentId {
          assert rows[i] in rows;
        }
        rows := rows + [AgentDnsVersion(agentId, version)];
      }
    }

    /** `where(agent_id: a).update(dns_version: v)`. */
    method UpdateWhere(agentId: string, version: int)
      requires Valid()
      modifies this
      ensures Valid()
      ensures rows == SetVersion(old(rows), agentId, version)
    {
      rows := SetVersion(rows, agentId, version);
    }

    /** Insert-then-update upsert. `racer` models an overlapping broadcast: when it
        is Some(v), another writer inserts the agent's row with version v between
        this writer's decision to insert and its INSERT. Whatever happens, the agent
        ends with exactly one row holding `version` (last writer wins). */
    method Upsert(agentId: string, version: int, racer: Option<int>)
      requires Valid()
      modifies this
      ensures Valid()
      ensures Versions(rows) == Versions(old(rows))[agentId := version]
      ensures RowsOf(rows, agentId) == 1
      ensures |rows| == |old(rows)| + if agentId in Versions(old(rows)) then 0 else 1
    {
      ghost var start := rows;
      if racer.Some? {
        var _ := Create(agentId, racer.value);
      }
      ghost var before := rows;
      assert Versions(before)[agentId := version] == Versions(start)[agentId := version];
      var violation := Create(agentId, version);
      if violation {
        UpdateWhere(agentId, version);
        VersionsOfSetVersion(before, agentId, version);
      } else {
        assert rows[..|rows| - 1] == before;
      }
      OneRowPerAgent(rows, agentId);
      VersionsOfUnique(start);
      VersionsOfUnique(rows);
    }
  }
}
