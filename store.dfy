/**
 * The registry of connectors of one type: a dictionary from name to connector, whose
 * operations are proved to act on the connectors' states as StoreSpec says.
 */
module Stores {
  import opened Wrappers
  import opened ConnectorSpec
  import opened Connectors
  import StoreSpec

  class ConnectorStore {
    var kind: ConnectorType
    var connectors: map<string, Connector>

    /** Every connector is stored under its own name, so no connector is stored twice. */
    ghost predicate Valid()
      reads this, connectors.Values
    {
      forall k :: k in connectors ==> connectors[k].name == k
    }

    /** The state of every stored connector, by name. */
    function View(): StoreSpec.View
      reads this, connectors.Values
    {
      map k | k in connectors :: connectors[k].Snapshot()
    }

    constructor (kind: ConnectorType)
      ensures Valid() && this.kind == kind && connectors == map[]
    {
      this.kind := kind;
      this.connectors := map[];
    }

    /** `create`: a new connector of the store's type under `name`, replacing any earlier one. */
    method Create(name: string, config: Config, pending: seq<Attempt>)
      requires Valid()
      modifies this
      ensures Valid() && kind == old(kind)
      ensures name in connectors && fresh(connectors[name])
      ensures connectors == old(connectors)[name := connectors[name]]
      ensures View() == StoreSpec.StoreCreate(old(View()), name, kind, config, pending)
    {
      var c := new Connector(name, kind, config, pending);
      connectors := connectors[name := c];
      assert View() == old(View())[name := c.Snapshot()];
    }

    /**
     * `edit`: edit the connector under `oldName` (NotFound when there is none) and store that
     * same connector under the new configuration's name instead.
     */
    method Edit(oldName: string, config: Config) returns (r: Outcome<Error>)
      requires Valid()
      modifies this, if oldName in connectors then {connectors[oldName]} else {}
      ensures Valid() && kind == old(kind)
      ensures r.Fail? <==> oldName !in old(connectors)
      ensures r.Fail? ==> connectors == old(connectors)
      ensures r.Pass? ==> connectors == (old(connectors) - {oldName})[config.name := old(connectors)[oldName]]
      ensures StoreSpec.StoreEdit(old(View()), oldName, config)
              == if r.Pass? then Success(View()) else Failure(r.error)
    {
      if oldName !in connectors {
        return Fail(NotFound(oldName));
      }
      ghost var v0 := View();
      var c := connectors[oldName];
      assert forall k :: k in connectors && k != oldName ==> connectors[k] != c;
      c.Edit(oldName, config);
      ghost var edited := c.Snapshot();
      connectors := (connectors - {oldName})[config.name := c];
      assert View() == (v0 - {oldName})[config.name := edited];
      r := Pass;
    }

    /** `delete`: stop the connector under `name` (NotFound when there is none) and drop it. */
    method Delete(name: string) returns (r: Outcome<Error>)
      requires Valid()
      modifies this, if name in connectors then {connectors[name]} else {}
      ensures Valid() && kind == old(kind)
      ensures r.Fail? <==> name !in old(connectors)
      ensures r.Fail? ==> connectors == old(connectors)
      ensures r.Pass? ==> connectors == old(connectors) - {name}
      ensures r.Pass? ==> old(connectors)[name].Snapshot() == ConnectorSpec.Stop(old(connectors[name].Snapshot()))
      ensures StoreSpec.StoreDelete(old(View()), name)
              == if r.Pass? then Success(View()) else Failure(r.error)
    {
      if name !in connectors {
        return Fail(NotFound(name));
      }
      ghost var v0 := View();
      var c := connectors[name];
      assert forall k :: k in connectors && k != name ==> connectors[k] != c;
      c.Stop();
      connectors := connectors - {name};
      assert View() == v0 - {name};
      r := Pass;
    }

    /**
     * The connectors whose keys are outside `todo` have been started if `filter` selects
     * them; every other connector is still in its state `v0`.
     */
    ghost predicate StartedOutside(v0: StoreSpec.View, filter: Option<string>, todo: set<string>)
      reads this, connectors.Values
    {
      && connectors.Keys == v0.Keys
      && StoreSpec.WellKeyed(v0)
      && todo <= connectors.Keys
      && (forall k :: k in connectors ==> connectors[k].name == k)
      && forall k :: k in connectors ==>
           connectors[k].Snapshot()
           == if k in todo || !StoreSpec.Selects(filter, k) then v0[k] else ConnectorSpec.Start(v0[k])
    }

    /**
     * `start`: start every connector when `filter` is absent or empty, and otherwise only the
     * connectors whose own name equals it.
     */
    method Start(filter: Option<string>)
      requires Valid()
      modifies connectors.Values
      ensures Valid()
      ensures View() == StoreSpec.StoreStart(old(View()), filter)
    {
      ghost var v0 := View();
      var todo := connectors.Keys;
      while todo != {}
        invariant connectors == old(connectors)
        invariant StartedOutside(v0, filter, todo)
        decreases todo
      {
        var k :| k in todo;
        StartEntry(v0, filter, todo, k);
        todo := todo - {k};
      }
      StartedEverywhere(v0, filter);
    }

    /** Once no key is left to visit, the store holds exactly what StoreSpec's `start` computes. */
    lemma StartedEverywhere(v0: StoreSpec.View, filter: Option<string>)
      requires StartedOutside(v0, filter, {})
      ensures Valid() && View() == StoreSpec.StoreStart(v0, filter)
    {
      forall k | k in connectors
        ensures connectors[k].Snapshot() == StoreSpec.StoreStart(v0, filter)[k]
      {
        assert v0[k].name == k;
      }
      assert View() == StoreSpec.StoreStart(v0, filter);
    }

    /** One pass of the loop of `start`: start the connector under `k` if `filter` selects it. */
    method StartEntry(ghost v0: StoreSpec.View, filter: Option<string>, ghost todo: set<string>, k: string)
      requires StartedOutside(v0, filter, todo) && k in todo
      modifies connectors[k]
      ensures StartedOutside(v0, filter, todo - {k})
    {
      var c := connectors[k];
      assert forall j :: j in connectors && j != k ==> connectors[j] != c;
      var skip := filter.Some? && filter.value != "" && filter.value != c.name;
      if !skip {
        c.Start();
        assert c.Snapshot() == ConnectorSpec.Start(v0[k]);
      }
    }

    /** `invoke`: hand `request` to the connector under `name` (NotFound when there is none). */
    method Invoke(name: string, request: string) returns (r: Outcome<Error>)
      requires Valid()
      modifies if name in connectors then {connectors[name]} else {}
      ensures Valid()
      ensures r.Fail? <==> name !in connectors
      ensures StoreSpec.StoreInvoke(old(View()), name, request)
              == if r.Pass? then Success(View()) else Failure(r.error)
    {
      if name !in connectors {
        return Fail(NotFound(name));
      }
      ghost var v0 := View();
      var c := connectors[name];
      assert forall k :: k in connectors && k != name ==> connectors[k] != c;
      c.Invoke(request);
      assert View() == v0[name := ConnectorSpec.Invoke(v0[name], request)];
      r := Pass;
    }
  }
}
