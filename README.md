# Zato connector supervisor

A model of the connector supervisor of the Zato server: the base `Connector`, which
establishes one connection to an external resource (a ZeroMQ socket, an AMQP broker, a
WebSocket endpoint, a Vault server) through a retry loop that runs until the first successful
attempt, and guards `send` with an activation flag; and the `ConnectorStore`, the per-type
registry that creates, edits, deletes, starts and invokes connectors by name.

The concrete transport of a connector is reduced to what the supervisor sees of it. Its
`_start` is represented by `pending`, the answers it gives to the next connection attempts:
it connects, returns without connecting, raises, or connects and then raises. The calls the
supervisor makes into `_start`, `_send`, `_stop` and `invoke` are recorded in `calls`.
The warn-level log lines of the connect loop are recorded in `warnings`.

Files:

- `wrappers.dfy` — `Option`, `Outcome` (an operation that raises or not) and `Result`.
- `connector_spec.dfy` — module `ConnectorSpec`: every field of a connector as a `State`
  value, each operation as a function on it (`Loop` for `_start_loop`, `Start`, `Stop`,
  `Restart`, `Edit`, `Send`, `Invoke`), `Run` for any sequence of calls, and the lemmas.
- `connector.dfy` — module `Connectors`: class `Connector`, whose methods update its fields in
  place. Each method is proved to have the effect the matching `ConnectorSpec` function gives it.
  The connect loop keeps both nested `while` loops of `_start_loop`.
- `store_spec.dfy` — module `StoreSpec`: the store as a map from name to `State`, its
  operations, and lemmas about which entries each one touches.
- `store.dfy` — module `Stores`: class `ConnectorStore` over a `map<string, Connector>`, with
  its operations proved against `StoreSpec`. Its invariant `Valid` says that every connector
  is stored under its own name.

Behaviour of the code a reader might not expect:

- `start` never consults `is_active`, so an inactive connector connects like any other.
  Only `send` refuses it (`ConnectorSpec.InactiveStillConnects`).
- `is_active`, `is_inactive`, `id` and `service` are copied from the configuration once, at
  construction. `edit` replaces `config` but does not refresh them (`ConnectorSpec.RunKeepsIdentity`).
- `stop` clears `keep_connecting`, and nothing but construction ever sets it again. It also
  never clears `is_connected`. So `restart`, and `edit` with it, makes no connection attempt
  (`ConnectorSpec.RestartNeverReconnects`, `ConnectorSpec.RunNeverReconnects`).
- The attempt counter is incremented after every `_start` call, the connecting one included.
  So the successful tenth attempt still logs "could not connect after 10 attempts".
- A `_start` that sets `is_connected` and then raises still has its exception logged, but the
  inner loop ends connected after it.
- `create` replaces an existing connector of the same name without stopping it. `edit` onto
  the name of another stored connector likewise drops that connector without stopping it.

## Model

| member | source | states |
|---|---|---|
| ConnectorSpec.FirstConnect | code/zato-server/src/zato/server/connection/connector/__init__.py:112-123 | the inner loop stops at the first attempt that connects: the index found connects, no earlier one does, and there is none exactly when no answer connects |
| ConnectorSpec.LoopOutcome | code/zato-server/src/zato/server/connection/connector/__init__.py:102-129 | with `keep_connecting` false the loop does nothing; otherwise it ends connected exactly when `keep_connecting` is cleared, connects exactly when some answer connects, makes one `_start` call per attempt, consumes one answer per attempt, logs the warnings of those attempts, never disconnects, and changes no other field |
| ConnectorSpec.AttemptedStep | code/zato-server/src/zato/server/connection/connector/__init__.py:113-123 | one more attempt adds one `_start` call, then the traceback if it raised, then the progress warning if the new count is a multiple of ten |
| ConnectorSpec.LoopEnds | code/zato-server/src/zato/server/connection/connector/__init__.py:111-126 | the loop's result for each way it stops: already connected, connected by attempt n, or out of answers without connecting |
| ConnectorSpec.LoopWarningsStep | code/zato-server/src/zato/server/connection/connector/__init__.py:113-123 | attempt n adds its own number to the logged tracebacks only if it raised, and to the progress reports only if n is a multiple of ten |
| ConnectorSpec.ProgressEveryTenth | code/zato-server/src/zato/server/connection/connector/__init__.py:106-123 | after n attempts exactly n / 10 progress warnings have been logged, reporting 10, 20, 30, … attempts in that order |
| ConnectorSpec.TracebackPerRaise | code/zato-server/src/zato/server/connection/connector/__init__.py:113-117 | an attempt's exception is logged if and only if that attempt raised |
| ConnectorSpec.TracebacksInOrder | code/zato-server/src/zato/server/connection/connector/__init__.py:112-117 | the logged exceptions follow the order of the attempts, each attempt at most once |
| ConnectorSpec.RetryUntilConnected | code/zato-server/src/zato/server/connection/connector/__init__.py:111-126 | a transport that connects only on attempt k + 1: the loop calls `_start` k + 1 times, ends connected with `keep_connecting` cleared, and logs (k + 1) / 10 progress warnings |
| ConnectorSpec.RetryWithoutConnecting | code/zato-server/src/zato/server/connection/connector/__init__.py:111-123 | a transport that never connects: every answer is one `_start` call and the connector is left unconnected and still retrying |
| ConnectorSpec.StopSettles | code/zato-server/src/zato/server/connection/connector/__init__.py:182-186 | `stop` clears both flags from any state, keeps `is_connected`, and a second `stop` only calls `_stop` again |
| ConnectorSpec.RestartNeverReconnects | code/zato-server/src/zato/server/connection/connector/__init__.py:190-194 | `restart` is `stop` then `start`, and its only effects are the two flags and one `_stop` call: no connection attempt |
| ConnectorSpec.EditEffects | code/zato-server/src/zato/server/connection/connector/__init__.py:198-208 | `edit` takes the new name, stores the new configuration with the old address as its previous address, leaves `id`, `is_active`, `is_inactive` and `is_connected` alone, and restarts without reconnecting |
| ConnectorSpec.SendDelegatesOnce | code/zato-server/src/zato/server/connection/connector/__init__.py:143-147 | `send` fails with `Inactive`, whose message names the connector and its type, and calls nothing exactly when the connector is inactive; otherwise it calls `_send` once with the message |
| ConnectorSpec.InactiveStillConnects | code/zato-server/src/zato/server/connection/connector/__init__.py:168-178 | `start` on a connector built from an inactive configuration connects whenever some answer of the transport connects, and the connector stays inactive |
| ConnectorSpec.ApplyEffects | code/zato-server/src/zato/server/connection/connector/__init__.py:143-208 | every public operation keeps the construction-time fields, hands a message to `_send` only for an active `send`, never disconnects, and never attempts a connection once `keep_connecting` is false |
| ConnectorSpec.RunKeepsIdentity | code/zato-server/src/zato/server/connection/connector/__init__.py:77-86 | after any sequence of calls, `edit` included, `id`, type, `is_active`, `is_inactive` and `service` are those set at construction |
| ConnectorSpec.RunSendsExactly | code/zato-server/src/zato/server/connection/connector/__init__.py:143-147 | over any sequence of calls, an inactive connector hands nothing to `_send` and an active one hands over exactly the messages sent, in order |
| ConnectorSpec.RunNeverReconnects | code/zato-server/src/zato/server/connection/connector/__init__.py:182-194 | once `keep_connecting` is false, no sequence of calls reaches `_start` again or changes `is_connected` |
| ConnectorSpec.RunStaysConnected | code/zato-server/src/zato/server/connection/connector/__init__.py:111-126 | no sequence of calls resets `is_connected` |
| Connectors.Connector.constructor | code/zato-server/src/zato/server/connection/connector/__init__.py:71-86 | a new connector: not connected, `keep_connecting` set, `keep_running` clear, `is_inactive` the negation of the configuration's `is_active`, `id` and `service` taken from the configuration |
| Connectors.Connector.AttemptStart | code/zato-server/src/zato/server/connection/connector/__init__.py:133-134 | the transport's `_start` consumes one answer and sets `is_connected` when that answer connects, reporting whether it raised |
| Connectors.Connector.TransportSend | code/zato-server/src/zato/server/connection/connector/__init__.py:138-139 | the transport's `_send` receives the message |
| Connectors.Connector.TransportStop | code/zato-server/src/zato/server/connection/connector/__init__.py:212-214 | the transport's `_stop` is called once |
| Connectors.Connector.Invoke | code/zato-server/src/zato/server/connection/connector/__init__.py:251-252 | the concrete connector's `invoke` receives the request |
| Connectors.Connector.StartLoop | code/zato-server/src/zato/server/connection/connector/__init__.py:102-129 | the two nested loops leave the connector exactly as `ConnectorSpec.Loop` says |
| Connectors.Connector.RetryUntilConnected | code/zato-server/src/zato/server/connection/connector/__init__.py:112-123 | the inner loop ends connected with the state of `ConnectorSpec.Loop`, or unconnected when the answers run out |
| Connectors.Connector.Attempt | code/zato-server/src/zato/server/connection/connector/__init__.py:113-123 | one pass of the inner loop takes the state after n attempts to the state after n + 1 |
| Connectors.Connector.Start | code/zato-server/src/zato/server/connection/connector/__init__.py:168-178 | `start` sets `keep_running`, runs the loop as `ConnectorSpec.Start` says, and keeps the name |
| Connectors.Connector.Stop | code/zato-server/src/zato/server/connection/connector/__init__.py:182-186 | `stop` has the effect of `ConnectorSpec.Stop` |
| Connectors.Connector.Restart | code/zato-server/src/zato/server/connection/connector/__init__.py:190-194 | `restart` has the effect of `ConnectorSpec.Restart` |
| Connectors.Connector.EditFields | code/zato-server/src/zato/server/connection/connector/__init__.py:206-208 | `_edit` replaces the name and the configuration and nothing else |
| Connectors.Connector.Edit | code/zato-server/src/zato/server/connection/connector/__init__.py:198-202 | `edit` has the effect of `ConnectorSpec.Edit`: the new name, and the old address recorded as the previous one |
| Connectors.Connector.Send | code/zato-server/src/zato/server/connection/connector/__init__.py:143-147 | `send` fails exactly when the connector is inactive and otherwise has the effect of `ConnectorSpec.Send` |
| StoreSpec.CreateChangesOnlyName | code/zato-server/src/zato/server/connection/connector/__init__.py:227-229 | `create` puts a new, unstarted connector under the name, replacing any earlier one, leaves every other entry alone, and keeps every connector under its own name |
| StoreSpec.EditRenames | code/zato-server/src/zato/server/connection/connector/__init__.py:231-234 | `edit` of a missing name fails with NotFound; otherwise the edited connector moves to the new name, the old name is gone unless it is the new one, every other entry stays, and every connector stays under its own name |
| StoreSpec.DeleteThenNotFound | code/zato-server/src/zato/server/connection/connector/__init__.py:236-239 | `delete` of a missing name fails with NotFound; otherwise exactly that entry is dropped, and a later `invoke`, `edit` or `delete` of the name fails with NotFound |
| StoreSpec.StartAllStartsEvery | code/zato-server/src/zato/server/connection/connector/__init__.py:241-249 | `start` with no name or an empty name starts every connector and keeps the set of names and each connector's name |
| StoreSpec.StartByNameStartsThatEntry | code/zato-server/src/zato/server/connection/connector/__init__.py:241-249 | `start` with a name starts only the connector under that name, if any, and leaves the others as they were |
| StoreSpec.InvokeReachesOnlyName | code/zato-server/src/zato/server/connection/connector/__init__.py:251-252 | `invoke` of a missing name fails with NotFound; otherwise only that connector's `invoke` is called |
| Stores.ConnectorStore.constructor | code/zato-server/src/zato/server/connection/connector/__init__.py:221-225 | a new store of a given type holds no connector |
| Stores.ConnectorStore.Create | code/zato-server/src/zato/server/connection/connector/__init__.py:227-229 | `create` stores a fresh connector of the store's type under the name, as `StoreSpec.StoreCreate` says |
| Stores.ConnectorStore.Edit | code/zato-server/src/zato/server/connection/connector/__init__.py:231-234 | `edit` fails with NotFound exactly when the old name is missing; otherwise the same connector object is edited and moved to the new name, as `StoreSpec.StoreEdit` says, and no other connector object is touched, not even one it displaces |
| Stores.ConnectorStore.Delete | code/zato-server/src/zato/server/connection/connector/__init__.py:236-239 | `delete` fails with NotFound exactly when the name is missing; otherwise the connector is stopped and then removed, as `StoreSpec.StoreDelete` says, and no other connector object is touched |
| Stores.ConnectorStore.Start | code/zato-server/src/zato/server/connection/connector/__init__.py:241-249 | the loop over the stored connectors leaves the store as `StoreSpec.StoreStart` says |
| Stores.ConnectorStore.StartEntry | code/zato-server/src/zato/server/connection/connector/__init__.py:243-249 | one pass of that loop starts the visited connector if the filter selects it and touches no other |
| Stores.ConnectorStore.StartedEverywhere | code/zato-server/src/zato/server/connection/connector/__init__.py:241-249 | once every connector has been visited, the store is `StoreSpec.StoreStart` of the store it started from |
| Stores.ConnectorStore.Invoke | code/zato-server/src/zato/server/connection/connector/__init__.py:251-252 | `invoke` fails with NotFound exactly when the name is missing; otherwise it calls that connector's `invoke`, as `StoreSpec.StoreInvoke` says, and no other connector object is touched |

## Left out

- The connect loop never ends while the transport keeps failing. The model gives each connector a finite list of the transport's answers, and when they run out the loop stops there, still retrying with `keep_connecting` set. What the loop would do after that is not modelled.
- `KeyboardInterrupt` inside the loop (it only clears `keep_connecting`), the two-second pause after a raising attempt, and the elapsed time in the progress warning: signals and clocks are outside the model.
- The reentrant lock, `start_in_greenlet` and `_spawn_start`: threads and greenlets are not modelled, so every operation runs to completion before the next one starts. A `stop` that arrives while the loop is retrying is not modelled either.
- The catch-all around `_start_loop` in `start`: in this model the only exceptions are those of `_start`, and the loop already catches those.
- The info- and debug-level start and stop log lines (`EventLogger`, `_start_stop_logger`, `get_log_details`, `needs_log`), and the details text and elapsed time of the progress warning: they change no state.
- `on_message_callback`, `auth_func`, `conn` and `connector_class`: they are only stored and passed on, and the store always builds the base connector.
- The arguments after the first that `send` and `invoke` pass through, what the concrete `invoke` returns, and exceptions raised by `_send` or `_stop`: these belong to the concrete transports.
- Connectors.Connector.Edit: the source writes `prev_address` into the caller's own configuration object. The model stores a stamped copy, so that aliasing is not captured.
- Stores.ConnectorStore.Start: the source walks the connector objects and the model walks their names. Under `Valid` these are the same connectors, but the order of the visits is not modelled.
- StoreSpec.StartAllStartsEvery, Stores.ConnectorStore.Start: by default a connector's `start` runs the connect loop in the caller, so in the source a store `start` that reaches a connector whose transport never connects stays in that loop, holding the store lock, and never starts the connectors after it. The model cuts each loop off when its list of answers runs out and then carries on, so it starts every selected connector; likewise `ConnectorSpec.Run` lets further calls follow a `start` that in the source would not return.
- The text of the `KeyError` raised for a missing name: the model reports it as `NotFound` with the name.
- The command-line provisioning scripts of the repository: they are not part of this model.
