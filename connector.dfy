/**
 * A connector: one supervised connection to an external resource. Its methods update its
 * fields in place, and each is proved to have the effect that ConnectorSpec gives it.
 */
module Connectors {
  import opened Wrappers
  import opened ConnectorSpec

  class Connector {
    var name: string
    var kind: ConnectorType
    var config: Config
    var id: int
    var isActive: bool
    var isInactive: bool
    var service: Option<string>
    var isConnected: bool
    var keepConnecting: bool
    var keepRunning: bool

    /** What the transport's `_start` answers to the next connection attempts. */
    var pending: seq<Attempt>
    /** Every call made so far into the hooks of the concrete connector. */
    var calls: seq<Hook>
    /** Every warn-level line the connect loop has logged. */
    var warnings: seq<Warning>

    function Snapshot(): State
      reads this
    {
      State(name, kind, config, id, isActive, isInactive, service,
            isConnected, keepConnecting, keepRunning, pending, calls, warnings)
    }

    constructor (name: string, kind: ConnectorType, config: Config, pending: seq<Attempt>)
      ensures Snapshot() == Init(name, kind, config, pending)
      ensures !isConnected && keepConnecting && !keepRunning
      ensures isInactive == !config.isActive && id == config.id
    {
      this.name := name;
      this.kind := kind;
      this.config := config;
      this.service := config.serviceName;
      this.id := config.id;
      this.isActive := config.isActive;
      this.isInactive := !config.isActive;
      this.isConnected := false;
      this.keepConnecting := true;
      this.keepRunning := false;
      this.pending := pending;
      this.calls := [];
      this.warnings := [];
    }

    // ----------------------------------------------------------------------------------------
    // Hooks of the concrete connector

    /** `_start`: one connection attempt, answered by the transport. */
    method AttemptStart() returns (raised: bool)
      requires pending != []
      modifies this
      ensures Snapshot() == old(Snapshot()).(pending := old(pending)[1..],
                                             calls := old(calls) + [StartHook],
                                             isConnected := old(isConnected) || old(pending)[0].Connected())
      ensures raised <==> old(pending)[0].Raised()
    {
      var answer := pending[0];
      pending := pending[1..];
      calls := calls + [StartHook];
      if answer.Connected() {
        isConnected := true;
      }
      raised := answer.Raised();
    }

    /** `_send`: hand one message to the transport. */
    method TransportSend(msg: string)
      modifies this
      ensures Snapshot() == old(Snapshot()).(calls := old(calls) + [SendHook(msg)])
    {
      calls := calls + [SendHook(msg)];
    }

    /** `_stop`: release the transport. */
    method TransportStop()
      modifies this
      ensures Snapshot() == old(Snapshot()).(calls := old(calls) + [StopHook])
    {
      calls := calls + [StopHook];
    }

    /** `invoke`: the concrete connector's entry point for the store's `invoke`. */
    method Invoke(request: string)
      modifies this
      ensures Snapshot() == ConnectorSpec.Invoke(old(Snapshot()), request)
    {
      calls := calls + [InvokeHook(request)];
    }

    // ----------------------------------------------------------------------------------------
    // The supervisor

    /**
     * `_start_loop`: while `keepConnecting`, retry until an attempt sets `isConnected`, then
     * clear `keepConnecting`. When `pending` runs out first, the connector is left retrying.
     */
    method StartLoop()
      modifies this
      ensures Snapshot() == Loop(old(Snapshot()))
    {
      ghost var s0 := Snapshot();
      while keepConnecting
        invariant keepConnecting ==> Snapshot() == s0
        invariant !keepConnecting ==> Snapshot() == Loop(s0)
        decreases if keepConnecting then 1 else 0
      {
        RetryUntilConnected();
        if !isConnected {
          return;
        }
        keepConnecting := false;
      }
    }

    /**
     * The inner loop of `_start_loop`: call `_start` until it sets `isConnected`, counting
     * the attempts. It returns unconnected only when `pending` has run out.
     */
    method RetryUntilConnected()
      requires keepConnecting
      modifies this
      ensures isConnected ==> Snapshot().(keepConnecting := false) == Loop(old(Snapshot()))
      ensures !isConnected ==> Snapshot() == Loop(old(Snapshot()))
    {
      ghost var s0 := Snapshot();
      LoopEnds(s0, 0);
      var attempts := 0;
      while !isConnected
        invariant 0 <= attempts <= |s0.pending|
        invariant s0.isConnected ==> isConnected && attempts == 0
        invariant Snapshot() == Attempted(s0, attempts).(isConnected := isConnected)
        invariant !isConnected ==> NoneConnect(s0.pending[..attempts])
        invariant isConnected && !s0.isConnected ==>
                    0 < attempts && s0.pending[attempts - 1].Connected()
                    && NoneConnect(s0.pending[..attempts - 1])
        decreases |pending|
      {
        if pending == [] {
          assert attempts == |s0.pending| && s0.pending[..attempts] == s0.pending;
          LoopEnds(s0, attempts);
          return;
        }
        assert s0.pending[..attempts + 1] == s0.pending[..attempts] + [s0.pending[attempts]];
        Attempt(s0, attempts);
        attempts := attempts + 1;
      }
      LoopEnds(s0, attempts);
    }

    /**
     * The body of the inner connect loop: call `_start`, log the exception it raises, count
     * the attempt, and warn after every tenth attempt. `attempts` counts the earlier
     * attempts of this run of the loop, which began in state `s0`.
     */
    method Attempt(ghost s0: State, attempts: nat)
      requires attempts < |s0.pending|
      requires Snapshot() == Attempted(s0, attempts).(isConnected := false)
      modifies this
      ensures Snapshot() == Attempted(s0, attempts + 1).(isConnected := s0.pending[attempts].Connected())
    {
      AttemptedStep(s0, attempts);
      var raised := AttemptStart();
      if raised {
        warnings := warnings + [Traceback(attempts + 1)];
      }
      var count := attempts + 1;
      if count % LogEach == 0 {
        warnings := warnings + [CouldNotConnect(name, count)];
      }
    }

    /** `start`: mark the connector running and run the connect loop. */
    method Start()
      modifies this
      ensures Snapshot() == ConnectorSpec.Start(old(Snapshot()))
      ensures name == old(name)
    {
      LoopOutcome(Snapshot().(keepRunning := true));
      keepRunning := true;
      StartLoop();
    }

    /** `stop`: clear both flags, in case the loop has not connected yet, and call `_stop`. */
    method Stop()
      modifies this
      ensures Snapshot() == ConnectorSpec.Stop(old(Snapshot()))
    {
      keepConnecting := false;
      keepRunning := false;
      TransportStop();
    }

    /** `restart`: `stop`, then `start`. */
    method Restart()
      modifies this
      ensures Snapshot() == ConnectorSpec.Restart(old(Snapshot()))
    {
      Stop();
      Start();
    }

    /** `_edit`: take over the new name and configuration. */
    method EditFields(oldName: string, config: Config)
      modifies this
      ensures Snapshot() == ConnectorSpec.EditFields(old(Snapshot()), config)
    {
      this.name := config.name;
      this.config := config;
    }

    /**
     * `edit`: note the current address in the new configuration as its previous address,
     * take over the new name and configuration, and restart.
     */
    method Edit(oldName: string, config: Config)
      modifies this
      ensures Snapshot() == ConnectorSpec.Edit(old(Snapshot()), config)
      ensures name == config.name && this.config.prevAddress == Some(old(this.config.address))
    {
      var stamped := config.(prevAddress := Some(this.config.address));
      EditFields(oldName, stamped);
      Restart();
    }

    /** `send`: refuse with `Inactive` when the connector is inactive, else call `_send`. */
    method Send(msg: string) returns (r: Outcome<Error>)
      modifies this
      ensures (r, Snapshot()) == ConnectorSpec.Send(old(Snapshot()), msg)
      ensures r.Fail? <==> isInactive
    {
      if isInactive {
        return Fail(Inactive(name, kind));
      }
      TransportSend(msg);
      r := Pass;
    }
  }
}
