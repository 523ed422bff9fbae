// Table bootstrap against a table server that other creators use at the same time
// (src/dynamo/dynamo.service.ts, src/dynamo/table-defs.ts).
module Bootstrap {
  import opened Wrappers

  const TTL_ATTRIBUTE_NAME := "expiresAt"

  /** A table to be ensured, with the attribute its TTL must use, if any. Key schemas are not modelled. */
  datatype TableDefinition = TableDefinition(name: string, ttlAttribute: Option<string>)

  const TABLE_DEFINITIONS := [
    TableDefinition("User", None),
    TableDefinition("Clients", Some(TTL_ATTRIBUTE_NAME)),
    TableDefinition("LastSeen", None),
    TableDefinition("Chat", None),
    TableDefinition("Member", None),
    TableDefinition("Inbox", Some(TTL_ATTRIBUTE_NAME)),
    TableDefinition("Message", Some(TTL_ATTRIBUTE_NAME))]

  datatype TableStatus = Creating | Active | OtherStatus

  datatype TtlStatus = Enabled | Enabling | Disabled | Disabling

  datatype Ttl = Ttl(status: TtlStatus, attribute: Option<string>)

  datatype Table = Table(status: TableStatus, ttl: Ttl)

  type Tables = map<string, Table>

  datatype ServerError = ResourceNotFound | ResourceInUse | OtherFault

  datatype BootError = Server(error: ServerError) | NotActiveYet

  // ---------- What is ensured, and what nobody undoes ----------

  predicate TtlUses(ttl: Ttl, attribute: string) {
    (ttl.status == Enabled || ttl.status == Enabling) && ttl.attribute == Some(attribute)
  }

  predicate TtlMeets(tables: Tables, d: TableDefinition) {
    d.ttlAttribute.Some? ==> d.name in tables && TtlUses(tables[d.name].ttl, d.ttlAttribute.value)
  }

  predicate IsActive(tables: Tables, name: string) {
    name in tables && tables[name].status == Active
  }

  /** The answer to a description, sent over these tables, shows the table active. */
  predicate ShowsActive(fault: Option<ServerError>, tables: Tables, name: string) {
    fault.None? && IsActive(tables, name)
  }

  /** It says that there is no such table. */
  predicate Denies(fault: Option<ServerError>, tables: Tables, name: string) {
    fault == Some(ResourceNotFound) || (fault.None? && name !in tables)
  }

  predicate Ensured(tables: Tables, d: TableDefinition) {
    IsActive(tables, d.name) && TtlMeets(tables, d)
  }

  /** No table goes away or stops being active, and no defined table's TTL leaves its required attribute. */
  ghost predicate Keeps(defs: seq<TableDefinition>, before: Tables, after: Tables) {
    && (forall t | t in before :: t in after)
    && (forall t | IsActive(before, t) :: IsActive(after, t))
    && (forall d | d in defs && TtlMeets(before, d) :: TtlMeets(after, d))
  }

  ghost predicate DistinctNames(defs: seq<TableDefinition>) {
    forall i, j | 0 <= i < j < |defs| :: defs[i].name != defs[j].name
  }

  lemma SameNameSameDefinition(defs: seq<TableDefinition>, d: TableDefinition, e: TableDefinition)
    requires DistinctNames(defs) && d in defs && e in defs && d.name == e.name
    ensures d == e
  {
  }

  /** Seven tables, of which three expire their rows by `expiresAt`. */
  lemma TableDefinitionsAreDistinct()
    ensures DistinctNames(TABLE_DEFINITIONS) && |TABLE_DEFINITIONS| == 7
    ensures forall d | d in TABLE_DEFINITIONS ::
              d.ttlAttribute == if d.name in ["Clients", "Inbox", "Message"] then Some("expiresAt") else None
  {
  }

  lemma KeepsIsTransitive(defs: seq<TableDefinition>, a: Tables, b: Tables, c: Tables)
    requires Keeps(defs, a, b) && Keeps(defs, b, c)
    ensures Keeps(defs, a, c)
  {
  }

  lemma KeepsIsReflexive(defs: seq<TableDefinition>, a: Tables)
    ensures Keeps(defs, a, a)
  {
  }

  lemma KeepsTable(defs: seq<TableDefinition>, before: Tables, after: Tables, name: string)
    requires Keeps(defs, before, after)
    ensures name in before ==> name in after
  {
  }

  /** Whatever a definition asks for and has, it keeps. */
  lemma KeepsEnsured(defs: seq<TableDefinition>, before: Tables, after: Tables, d: TableDefinition)
    requires Keeps(defs, before, after) && d in defs
    ensures d.name in before ==> d.name in after
    ensures IsActive(before, d.name) ==> IsActive(after, d.name)
    ensures TtlMeets(before, d) ==> TtlMeets(after, d)
  {
  }

  /**
    * The server. Before its k-th answer other clients may have changed the tables (`others`), and the
    * request itself may fail without effect (`faults`).
    */
  class TableServer {
    var tables: Tables
    var seen: seq<Tables>  // the tables as each answer so far found them
    var creates: nat
    var updates: nat
    ghost const defs: seq<TableDefinition>
    const others: (nat, Tables) -> Tables
    const faults: nat -> Option<ServerError>

    constructor (ghost defs: seq<TableDefinition>, tables: Tables,
                 others: (nat, Tables) -> Tables, faults: nat -> Option<ServerError>)
      ensures this.defs == defs && this.tables == tables && this.others == others && this.faults == faults
      ensures seen == [] && creates == updates == 0
    {
      this.defs, this.tables, this.others, this.faults := defs, tables, others, faults;
      seen, creates, updates := [], 0, 0;
    }

    /** The other clients never undo what a bootstrap for these definitions ensures. */
    ghost predicate Cooperative() {
      forall k, before :: Keeps(defs, before, others(k, before))
    }

    /** Nobody has undone anything so far. */
    ghost predicate Valid()
      reads this
    {
      && Cooperative()
      && (forall i | 0 <= i < |seen| :: Keeps(defs, seen[i], tables))
      && (forall i, j | 0 <= i <= j < |seen| :: Keeps(defs, seen[i], seen[j]))
    }

    /** A change that undoes nothing keeps the history valid. */
    lemma ChangeKeepsHistory(before: Tables)
      requires Cooperative() && Keeps(defs, before, tables)
      requires forall i | 0 <= i < |seen| :: Keeps(defs, seen[i], before)
      requires forall i, j | 0 <= i <= j < |seen| :: Keeps(defs, seen[i], seen[j])
      ensures Valid()
    {
      forall i | 0 <= i < |seen|
        ensures Keeps(defs, seen[i], tables)
      {
        KeepsIsTransitive(defs, seen[i], before, tables);
      }
    }

    /** It never claims that a table is missing when it is there. */
    ghost predicate Honest() {
      forall k :: faults(k) != Some(ResourceNotFound)
    }

    /** What the last answer, about this table, is raised as. */
    ghost predicate RaisesLast(name: string, error: BootError)
      requires seen != []
      reads this
    {
      error == match faults(|seen| - 1)
               case Some(fault) => Server(fault)
               case None => if name in seen[|seen| - 1] then NotActiveYet else Server(ResourceNotFound)
    }

    /**
      * From answer `from` on, the table was polled until an answer showed it active, ten times at most; if none
      * did, the last answer was raised.
      */
    ghost predicate Polled(from: nat, name: string, r: Result<(), BootError>)
      reads this
    {
      && from < |seen| <= from + 10
      && (forall k | from <= k < |seen| - 1 :: !ShowsActive(faults(k), seen[k], name))
      && (r.Ok? <==> ShowsActive(faults(|seen| - 1), seen[|seen| - 1], name))
      && (r.Err? ==> |seen| == from + 10 && RaisesLast(name, r.error))
    }

    /** Since answer `from`, a request failed, or the table was there and still not active nine answers later. */
    ghost predicate Trouble(from: nat, name: string)
      reads this
    {
      exists k: nat | from <= k < |seen| ::
        faults(k).Some? || (k + 9 < |seen| && name in seen[k] && !IsActive(seen[k + 9], name))
    }

    method Receive() returns (fault: Option<ServerError>)
      requires Valid()
      modifies this`tables, this`seen
      ensures Valid() && Keeps(defs, old(tables), tables)
      ensures tables == others(|old(seen)|, old(tables)) && fault == faults(|old(seen)|) && seen == old(seen) + [tables]
    {
      ghost var before := tables;
      tables := others(|seen|, tables);
      assert Keeps(defs, before, tables);
      ChangeKeepsHistory(before);
      fault := faults(|seen|);
      seen := seen + [tables];
    }

    method DescribeTable(name: string) returns (r: Result<TableStatus, ServerError>)
      requires Valid()
      modifies this`tables, this`seen
      ensures Valid() && Keeps(defs, old(tables), tables)
      ensures tables == others(|old(seen)|, old(tables)) && seen == old(seen) + [tables]
      ensures r == match faults(|old(seen)|)
                   case Some(fault) => Err(fault)
                   case None => if name in tables then Ok(tables[name].status) else Err(ResourceNotFound)
    {
      var fault := Receive();
      if fault.Some? {
        return Err(fault.value);
      }
      r := if name in tables then Ok(tables[name].status) else Err(ResourceNotFound);
    }

    method CreateTable(name: string) returns (r: Result<(), ServerError>)
      requires Valid()
      modifies this`tables, this`seen, this`creates
      ensures Valid() && Keeps(defs, old(tables), tables)
      ensures creates == old(creates) + 1
      ensures var now := others(|old(seen)|, old(tables));
              && seen == old(seen) + [now]
              && tables == (if r.Ok? then now[name := Table(Creating, Ttl(Disabled, None))] else now)
              && r == match faults(|old(seen)|)
                      case Some(fault) => Err(fault)
                      case None => if name in now then Err(ResourceInUse) else Ok(())
    {
      creates := creates + 1;
      var fault := Receive();
      if fault.Some? {
        return Err(fault.value);
      }
      if name in tables {
        return Err(ResourceInUse);
      }
      ghost var before := tables;
      tables := tables[name := Table(Creating, Ttl(Disabled, None))];
      assert Keeps(defs, before, tables);
      ChangeKeepsHistory(before);
      KeepsIsTransitive(defs, old(tables), before, tables);
      r := Ok(());
    }

    method DescribeTimeToLive(name: string) returns (r: Result<Ttl, ServerError>)
      requires Valid()
      modifies this`tables, this`seen
      ensures Valid() && Keeps(defs, old(tables), tables)
      ensures tables == others(|old(seen)|, old(tables)) && seen == old(seen) + [tables]
      ensures r == match faults(|old(seen)|)
                   case Some(fault) => Err(fault)
                   case None => if name in tables then Ok(tables[name].ttl) else Err(ResourceNotFound)
    {
      var fault := Receive();
      if fault.Some? {
        return Err(fault.value);
      }
      r := if name in tables then Ok(tables[name].ttl) else Err(ResourceNotFound);
    }

    /** An accepted update takes effect. */
    method UpdateTimeToLive(name: string, attribute: string) returns (r: Result<(), ServerError>)
      requires Valid() && forall d | d in defs && d.name == name && d.ttlAttribute.Some? :: d.ttlAttribute.value == attribute
      modifies this`tables, this`seen, this`updates
      ensures Valid() && Keeps(defs, old(tables), tables)
      ensures updates == old(updates) + 1
      ensures var now := others(|old(seen)|, old(tables));
              && seen == old(seen) + [now]
              && (r.Ok? <==> faults(|old(seen)|).None? && name in now)
              && (r.Err? ==> tables == now && r.error == match faults(|old(seen)|)
                                                         case Some(fault) => fault
                                                         case None => ResourceNotFound)
              && (r.Ok? ==> tables == now[name := now[name].(ttl := Ttl(Enabling, Some(attribute)))])
    {
      updates := updates + 1;
      var fault := Receive();
      if fault.Some? {
        return Err(fault.value);
      }
      if name !in tables {
        return Err(ResourceNotFound);
      }
      ghost var before := tables;
      tables := tables[name := tables[name].(ttl := Ttl(Enabling, Some(attribute)))];
      assert Keeps(defs, before, tables);
      ChangeKeepsHistory(before);
      KeepsIsTransitive(defs, old(tables), before, tables);
      r := Ok(());
    }
  }

  class DynamoService {
    const server: TableServer

    constructor (server: TableServer)
      ensures this.server == server
    {
      this.server := server;
    }

    /**
      * Polls with the default retry budget of ten attempts: it stops at the first answer that shows the
      * table active, and after ten without one raises the last one's error.
      */
    method WaitUntilActive(name: string) returns (r: Result<(), BootError>)
      requires server.Valid()
      modifies server`tables, server`seen
      ensures server.Valid() && Keeps(server.defs, old(server.tables), server.tables) && old(server.seen) <= server.seen
      ensures server.Polled(|old(server.seen)|, name, r)
      ensures Keeps(server.defs, old(server.tables), server.seen[|old(server.seen)|])
      ensures r.Ok? ==> IsActive(server.tables, name)
    {
      hide Keeps;
      KeepsIsReflexive(server.defs, server.tables);
      var attempt := 1;
      var lastError := NotActiveYet;
      while attempt <= 10
        invariant 1 <= attempt <= 11 && |server.seen| == |old(server.seen)| + attempt - 1
        invariant server.Valid() && Keeps(server.defs, old(server.tables), server.tables) && old(server.seen) <= server.seen
        invariant attempt > 1 ==> Keeps(server.defs, old(server.tables), server.seen[|old(server.seen)|])
        invariant forall k | |old(server.seen)| <= k < |server.seen| :: !ShowsActive(server.faults(k), server.seen[k], name)
        invariant attempt > 1 ==> server.RaisesLast(name, lastError)
      {
        ghost var before := server.tables;
        var described := server.DescribeTable(name);
        KeepsIsTransitive(server.defs, old(server.tables), before, server.tables);
        if described == Ok(Active) {
          return Ok(());
        }
        lastError := if described.Err? then Server(described.error) else NotActiveYet;
        attempt := attempt + 1;
      }
      r := Err(lastError);
    }

    /** Asks for the table, unless somebody else has just done so. */
    method CreateMissing(name: string) returns (r: Result<(), BootError>)
      requires server.Valid()
      modifies server`tables, server`seen, server`creates
      ensures server.Valid() && Keeps(server.defs, old(server.tables), server.tables)
      ensures old(server.seen) <= server.seen && |server.seen| == |old(server.seen)| + 1
      ensures Keeps(server.defs, old(server.tables), server.seen[|old(server.seen)|])
      ensures server.creates == old(server.creates) + 1
      ensures var fault := server.faults(|old(server.seen)|);
              && (r.Err? <==> fault.Some? && fault.value != ResourceInUse)
              && (r.Err? ==> r.error == Server(fault.value))
              && (name in server.tables || fault.Some?)
    {
      var created := server.CreateTable(name);
      if created.Err? && created.error != ResourceInUse {
        return Err(Server(created.error));
      }
      r := Ok(());
    }

    lemma FaultIsTrouble(from: nat, k: nat, name: string)
      requires from <= k < |server.seen| && server.faults(k).Some?
      ensures server.Trouble(from, name)
    {
    }

    /** Ten polls that did not find a table which was there before them mean trouble. */
    lemma StillInactive(from: nat, polled: nat, name: string)
      requires from <= polled && |server.seen| == polled + 10
      requires name in server.seen[polled] || exists k: nat | from <= k < |server.seen| :: server.faults(k).Some?
      requires !ShowsActive(server.faults(|server.seen| - 1), server.seen[|server.seen| - 1], name)
      ensures server.Trouble(from, name)
    {
      if k: nat :| from <= k < |server.seen| && server.faults(k).Some? {
      } else {
        assert server.faults(|server.seen| - 1).None?;
        assert name in server.seen[polled] && !IsActive(server.seen[polled + 9], name);
      }
    }

    /**
      * An active table is left alone after one answer; a failed description is raised at once; a table that is
      * denied is asked for once, and if that fails, other than because somebody else has just asked, it is raised
      * at once; then the table is polled. So it fails only when a request failed, or the table stayed inactive for
      * nine answers after it was there.
      */
    method EnsureTable(name: string) returns (r: Result<(), BootError>)
      requires server.Valid()
      modifies server`tables, server`seen, server`creates
      ensures server.Valid() && Keeps(server.defs, old(server.tables), server.tables) && old(server.seen) <= server.seen
      ensures |old(server.seen)| < |server.seen| && Keeps(server.defs, old(server.tables), server.seen[|old(server.seen)|])
      ensures r.Ok? <==> ShowsActive(server.faults(|server.seen| - 1), server.seen[|server.seen| - 1], name)
      ensures r.Ok? ==> IsActive(server.tables, name)
      ensures r.Err? ==> server.Trouble(|old(server.seen)|, name) && server.RaisesLast(name, r.error)
      ensures var k := |old(server.seen)|;
              server.creates == old(server.creates) + (if Denies(server.faults(k), server.seen[k], name) then 1 else 0)
      ensures var k, first, second := |old(server.seen)|, server.faults(|old(server.seen)|),
                                      server.faults(|old(server.seen)| + 1);
              if ShowsActive(first, server.seen[k], name) then |server.seen| == k + 1
              else if first.Some? && first.value != ResourceNotFound then
                |server.seen| == k + 1 && r == Err(Server(first.value))
              else if !Denies(first, server.seen[k], name) then server.Polled(k + 1, name, r)
              else if second.Some? && second.value != ResourceInUse then
                |server.seen| == k + 2 && r == Err(Server(second.value))
              else server.Polled(k + 2, name, r) && (second.None? ==> name in server.seen[k + 2])
    {
      hide Keeps, DistinctNames, TableServer.Valid, TableServer.Trouble;
      ghost var first := |server.seen|;
      var described := server.DescribeTable(name);
      if described == Ok(Active) {
        return Ok(());
      }
      if described.Err? && described.error != ResourceNotFound {
        FaultIsTrouble(first, first, name);
        return Err(Server(described.error));
      }
      ghost var waiting := server.tables;
      r := CreateAndPoll(name, described.Err?);
      KeepsIsTransitive(server.defs, old(server.tables), waiting, server.tables);
      if r.Err? {
        PollingFailed(first, name, described.Err?, r);
      }
    }

    /** The rest of it, once the first answer has not shown the table active: it may be missing or in the making. */
    method CreateAndPoll(name: string, missing: bool) returns (r: Result<(), BootError>)
      requires server.Valid() && (!missing ==> name in server.tables)
      modifies server`tables, server`seen, server`creates
      ensures server.Valid() && Keeps(server.defs, old(server.tables), server.tables) && old(server.seen) <= server.seen
      ensures |old(server.seen)| < |server.seen|
      ensures r.Ok? ==> IsActive(server.tables, name)
      ensures server.creates == old(server.creates) + (if missing then 1 else 0)
      ensures var k, fault := |old(server.seen)|, server.faults(|old(server.seen)|);
              if !missing then server.Polled(k, name, r) && name in server.seen[k]
              else if fault.Some? && fault.value != ResourceInUse then
                |server.seen| == k + 1 && r == Err(Server(fault.value))
              else server.Polled(k + 1, name, r) && (fault.None? ==> name in server.seen[k + 1])
    {
      hide Keeps, DistinctNames, TableServer.Valid;
      if missing {
        ghost var before := server.tables;
        r := CreateMissing(name);
        KeepsIsTransitive(server.defs, old(server.tables), before, server.tables);
        if r.Err? {
          return;
        }
      }
      ghost var waiting, polled := server.tables, |server.seen|;
      r := WaitUntilActive(name);
      KeepsIsTransitive(server.defs, old(server.tables), waiting, server.tables);
      KeepsTable(server.defs, waiting, server.seen[polled], name);
    }

    lemma PollingFailed(first: nat, name: string, missing: bool, r: Result<(), BootError>)
      requires first + 1 < |server.seen| && r.Err?
      requires var fault := server.faults(first + 1);
               if !missing then server.Polled(first + 1, name, r) && name in server.seen[first + 1]
               else fault.Some?
                    || (server.Polled(first + 2, name, r) && name in server.seen[first + 2])
      ensures server.Trouble(first, name)
    {
      if missing && server.faults(first + 1).Some? {
        FaultIsTrouble(first, first + 1, name);
      } else {
        StillInactive(first, if missing then first + 2 else first + 1, name);
      }
    }

    /** A TTL that already uses the attribute is not updated; any other is, once. */
    method EnsureTtl(d: TableDefinition) returns (r: Result<(), BootError>)
      requires server.Valid() && DistinctNames(server.defs) && d in server.defs && d.ttlAttribute.Some?
      modifies server`tables, server`seen, server`updates
      ensures server.Valid() && Keeps(server.defs, old(server.tables), server.tables) && old(server.seen) <= server.seen
      ensures |old(server.seen)| < |server.seen| <= |old(server.seen)| + 2
      ensures Keeps(server.defs, old(server.tables), server.seen[|old(server.seen)|])
      ensures d.name in old(server.tables) ==> (r.Ok? <==> server.faults(|server.seen| - 1).None?)
      ensures r.Ok? ==> TtlMeets(server.tables, d)
      ensures server.updates == old(server.updates) + |server.seen| - |old(server.seen)| - 1
      ensures var k := |old(server.seen)|;
              |server.seen| == k + 2
              <==> server.faults(k).None? && d.name in server.seen[k] && !TtlMeets(server.seen[k], d)
      ensures r.Err? ==> r.error == Server(match server.faults(|server.seen| - 1)
                                           case Some(fault) => fault
                                           case None => ResourceNotFound)
    {
      var attribute := d.ttlAttribute.value;
      var described := server.DescribeTimeToLive(d.name);
      if described.Err? {
        return Err(Server(described.error));
      }
      if TtlUses(described.value, attribute) {
        return Ok(());
      }
      ghost var before := server.tables;
      forall e | e in server.defs && e.name == d.name
        ensures e == d
      {
        SameNameSameDefinition(server.defs, d, e);
      }
      var updated := server.UpdateTimeToLive(d.name, attribute);
      KeepsIsTransitive(server.defs, old(server.tables), before, server.tables);
      if updated.Err? {
        return Err(Server(updated.error));
      }
      r := Ok(());
    }

    /**
      * Ensures the tables one by one, whatever the other creators do meanwhile. On a normal return every
      * defined table is active with its TTL on the required attribute; on a failure the tables before the
      * failing one are ensured. It fails only when a request failed or a table stayed inactive for nine
      * answers, and raises the error of the last request. It never undoes what another bootstrap has ensured,
      * and if everything was ensured before, it asks the server for no change at all.
      */
    method EnsureTablesExist(defs: seq<TableDefinition>) returns (r: Result<(), BootError>, ensured: nat)
      requires server.Valid() && DistinctNames(defs) && defs == server.defs
      modifies server`tables, server`seen, server`creates, server`updates
      ensures server.Valid() && Keeps(defs, old(server.tables), server.tables) && old(server.seen) <= server.seen
      ensures ensured <= |defs| && forall i | 0 <= i < ensured :: Ensured(server.tables, defs[i])
      ensures r.Ok? <==> ensured == |defs|
      ensures r.Err? ==>
                && server.Trouble(|old(server.seen)|, defs[ensured].name)
                && server.seen != [] && server.RaisesLast(defs[ensured].name, r.error)
      ensures server.Honest() && (forall d | d in defs :: Ensured(old(server.tables), d)) ==>
                server.creates == old(server.creates) && server.updates == old(server.updates)
    {
      ensured := 0;
      while ensured < |defs|
        invariant ensured <= |defs|
        invariant server.Valid() && Keeps(defs, old(server.tables), server.tables) && old(server.seen) <= server.seen
        invariant forall i | 0 <= i < ensured :: Ensured(server.tables, defs[i])
        invariant server.Honest() && (forall d | d in defs :: Ensured(old(server.tables), d)) ==>
                    server.creates == old(server.creates) && server.updates == old(server.updates)
      {
        ghost var before := server.tables;
        r := EnsureDefinition(defs[ensured]);
        KeepsIsTransitive(defs, old(server.tables), before, server.tables);
        if r.Err? {
          return;
        }
        ensured := ensured + 1;
      }
      r := Ok(());
    }

    /** One turn of the loop. */
    method EnsureDefinition(d: TableDefinition) returns (r: Result<(), BootError>)
      requires server.Valid() && DistinctNames(server.defs) && d in server.defs
      modifies server`tables, server`seen, server`creates, server`updates
      ensures server.Valid() && Keeps(server.defs, old(server.tables), server.tables) && old(server.seen) <= server.seen
      ensures r.Ok? ==> Ensured(server.tables, d)
      ensures r.Err? ==>
                server.Trouble(|old(server.seen)|, d.name) && server.seen != [] && server.RaisesLast(d.name, r.error)
      ensures server.Honest() && Ensured(old(server.tables), d) ==>
                server.creates == old(server.creates) && server.updates == old(server.updates)
    {
      hide Keeps, DistinctNames, TableServer.Valid, TableServer.Trouble, TableServer.Polled;
      ghost var before, first := server.tables, |server.seen|;
      r := EnsureTable(d.name);
      KeepsEnsured(server.defs, before, server.seen[first], d);
      if r.Err? || d.ttlAttribute.None? {
        return;
      }
      ghost var there, second := server.tables, |server.seen|;
      r := EnsureTtl(d);
      KeepsEnsured(server.defs, before, there, d);
      KeepsEnsured(server.defs, there, server.seen[second], d);
      KeepsEnsured(server.defs, there, server.tables, d);
      KeepsIsTransitive(server.defs, old(server.tables), there, server.tables);
      if r.Err? {
        FaultIsTrouble(first, |server.seen| - 1, d.name);
      }
    }
  }
}
