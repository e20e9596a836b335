# Jfr4Jdbc statement proxy: a Dafny model

Jfr4Jdbc wraps JDBC objects so that database work shows up as Java Flight
Recorder (JFR) events. This project models the statement wrapper,
`JfrStatement`, and the event record it fills in, `JfrStatementEvent`. It
proves what the wrapper adds to the statement it delegates to:

- Each instrumented operation creates one statement event. It populates the
  event best-effort, calls `begin()`, calls the delegate, and calls
  `commit()` whether the delegate returned or threw. The delegate's result
  or throwable reaches the caller unchanged.
- The event's `sql` field depends on the operation.
- `addBatch` and `clearBatch` keep a local batch buffer. `executeBatch`
  reports that buffer, joined as `s1;s2;...;`.
- `cancel` records a separate cancel event.
- Pass-through operations create no event.

Modules:

- `Jdbc` (jdbc.dfy): the delegate side. `Reply<T>` is a scripted answer: a
  value or a thrown `SQLException`, `RuntimeException` or
  `NullPointerException`. `JString = Option<string>` is a Java string that
  may be null. `ScriptedStatement` is the wrapped statement. Its identity
  hash and runtime class are fixed. Its answers to `isPoolable`, `isClosed`
  and `getConnection`, and the connection's answer to `getAutoCommit`, are
  fields that a client sets.
- `Events` (events.dfy): `JfrStatementEvent`, a class with one mutable
  field per event field, setters, getters (`GetSql` … `GetAutoCommit`,
  read-only functions) and the begin/commit lifecycle. The lifecycle goes
  Created → Active → Committed and counts begins and commits. Also
  `JfrCancelEvent` and `EventFactory`.
- `Instrumentation` (instrumentation.dfy): the value-level specification.
  `Populate` is what `createEvent` stores. `Instrumented`, `Forwarded` and
  `CancelRun` are the steps an operation performs and its outcome. A step
  is a delegate call, an event `begin()` with the event as begun, or a record handed over on
  `commit()`. This module also holds the batch text functions and the
  lemmas about all of these.
- `StatementProxy` (jfr_statement.dfy): `JfrStatement`, an imperative class.
  Each method is proved against the functions above. Its state is the batch
  buffer `batchSql` and an ordered `log` of steps. A ghost `pending` list
  holds the batch entries. `Valid()` ties the buffer to `pending`.
- `Scenarios` (scenarios.dfy): concrete client runs, proved from the
  contracts alone. They cover an update answered with 3, the batch
  `"A;B;"`, a failing `isClosed`, and cancelling a closed statement.

The answer to an operation's own delegate call (for example what
`executeUpdate` returns or throws) is the method's `reply` parameter. So the
model covers any delegate behaviour, including a delegate with state.

## Model

| member | source | states |
|---|---|---|
| `Events.JfrStatementEvent.constructor` | src/main/java/chiroito/jfr4jdbc/event/jfr/JfrStatementEvent.java:9-28 | A new event has every field at the Java default (null, 0, false) and is in state Created with no begins or commits |
| `Events.JfrStatementEvent.SetConnectionId` | src/main/java/chiroito/jfr4jdbc/event/jfr/JfrStatementEvent.java:30-32 | Only `connectionId` changes; `GetConnectionId()` returns the argument; the lifecycle is unchanged |
| `Events.JfrStatementEvent.SetStatementId` | src/main/java/chiroito/jfr4jdbc/event/jfr/JfrStatementEvent.java:34-36 | Only `statementId` changes; `GetStatementId()` returns the argument |
| `Events.JfrStatementEvent.SetStatementClass` | src/main/java/chiroito/jfr4jdbc/event/jfr/JfrStatementEvent.java:38-40 | Only `statementClass` changes and holds the argument as given, a null class included; `GetStatementClass()` returns it |
| `Events.JfrStatementEvent.SetSql` | src/main/java/chiroito/jfr4jdbc/event/jfr/JfrStatementEvent.java:42-44 | Only `sql` changes, and it holds the argument exactly as given (null included); `GetSql()` returns it |
| `Events.JfrStatementEvent.SetClosed` | src/main/java/chiroito/jfr4jdbc/event/jfr/JfrStatementEvent.java:46-48 | Only `closed` changes; `GetClosed()` returns the argument |
| `Events.JfrStatementEvent.SetAutoCommit` | src/main/java/chiroito/jfr4jdbc/event/jfr/JfrStatementEvent.java:50-52 | Only `autoCommit` changes; `GetAutoCommit()` returns the argument |
| `Events.JfrStatementEvent.SetPoolable` | src/main/java/chiroito/jfr4jdbc/event/jfr/JfrStatementEvent.java:54-56 | Only `poolable` changes; `GetPoolable()` returns the argument |
| `Events.JfrStatementEvent.GetSql` | src/main/java/chiroito/jfr4jdbc/event/jfr/JfrStatementEvent.java:58-60 | Returns the `sql` value the event hands to the recorder (the `sql` of `Fields()`) |
| `Events.JfrStatementEvent.GetConnectionId` | src/main/java/chiroito/jfr4jdbc/event/jfr/JfrStatementEvent.java:62-64 | Returns the `connectionId` value the event hands to the recorder (the `connectionId` of `Fields()`) |
| `Events.JfrStatementEvent.GetStatementId` | src/main/java/chiroito/jfr4jdbc/event/jfr/JfrStatementEvent.java:66-68 | Returns the `statementId` value the event hands to the recorder (the `statementId` of `Fields()`) |
| `Events.JfrStatementEvent.GetStatementClass` | src/main/java/chiroito/jfr4jdbc/event/jfr/JfrStatementEvent.java:70-72 | Returns the `statementClass` value the event hands to the recorder (the `statementClass` of `Fields()`) |
| `Events.JfrStatementEvent.GetClosed` | src/main/java/chiroito/jfr4jdbc/event/jfr/JfrStatementEvent.java:74-76 | Returns the `closed` value the event hands to the recorder (the `closed` of `Fields()`) |
| `Events.JfrStatementEvent.GetPoolable` | src/main/java/chiroito/jfr4jdbc/event/jfr/JfrStatementEvent.java:78-80 | Returns the `poolable` value the event hands to the recorder (the `poolable` of `Fields()`) |
| `Events.JfrStatementEvent.GetAutoCommit` | src/main/java/chiroito/jfr4jdbc/event/jfr/JfrStatementEvent.java:82-84 | Returns the `autoCommit` value the event hands to the recorder (the `autoCommit` of `Fields()`) |
| `Events.JfrStatementEvent.Begin` | src/main/java/chiroito/jfr4jdbc/event/jfr/JfrStatementEvent.java:7 | The inherited `begin()` may only be called on an event not yet begun. It makes the event Active and counts one begin, changes no field, and returns the event as it stands when begun |
| `Events.JfrStatementEvent.Commit` | src/main/java/chiroito/jfr4jdbc/event/jfr/JfrStatementEvent.java:7 | The inherited `commit()` may only be called on a begun event. It makes the event Committed and counts one commit, changes no field, and returns the record the recorder receives: the event's fields and lifecycle |
| `Events.JfrCancelEvent.constructor` | src/main/java/chiroito/jfr4jdbc/JfrStatement.java:273 | A new cancel event has both ids 0 and is unbegun |
| `Events.JfrCancelEvent.SetConnectionId` | src/main/java/chiroito/jfr4jdbc/JfrStatement.java:274 | Only the connection id changes |
| `Events.JfrCancelEvent.SetStatementId` | src/main/java/chiroito/jfr4jdbc/JfrStatement.java:275 | Only the statement id changes |
| `Events.JfrCancelEvent.Begin` | src/main/java/chiroito/jfr4jdbc/JfrStatement.java:276 | Only on an event not yet begun: makes it Active and counts one begin; the ids are unchanged and returned with the lifecycle as the event when begun |
| `Events.JfrCancelEvent.Commit` | src/main/java/chiroito/jfr4jdbc/JfrStatement.java:283 | Only on a begun event: makes it Committed and counts one commit; the ids are unchanged; returns the cancel record the recorder receives |
| `Events.EventFactory.CreateStatementEvent` | src/main/java/chiroito/jfr4jdbc/JfrStatement.java:28 | Returns a fresh, unbegun statement event with default fields |
| `Events.EventFactory.CreateCancelEvent` | src/main/java/chiroito/jfr4jdbc/JfrStatement.java:273 | Returns a fresh, unbegun cancel event |
| `Instrumentation.Populate` | src/main/java/chiroito/jfr4jdbc/JfrStatement.java:26-50 | `sql` is always set to the argument. A null delegate gives a record with only `sql` set and no delegate reads. With a delegate, `statementId` is set. No `SQLException` ever escapes. The metadata reads made are a prefix of isPoolable, isClosed, getConnection, getAutoCommit |
| `Instrumentation.PopulateEscapes` | src/main/java/chiroito/jfr4jdbc/JfrStatement.java:29-47 | The throwable that escapes `createEvent` is the one from the first failing read in the order isPoolable, isClosed, getConnection, getAutoCommit, and none escapes when that one is an `SQLException` or no read fails. Every read made except the last succeeded. When the last read made succeeded, nothing escapes, and either all four reads were made or the connection was null |
| `Instrumentation.PrefixAt` | src/main/java/chiroito/jfr4jdbc/JfrStatement.java:31-43 | After the first k setters in createEvent's order, each of those k fields holds its intended value and every later field holds its default |
| `Instrumentation.PopulateIsPrefix` | src/main/java/chiroito/jfr4jdbc/JfrStatement.java:26-50 | The populated record is the prefix of the fully read record, cut at the first failing read. With no delegate the cut is after `sql`; with a null connection it is after `statementClass` |
| `Instrumentation.MetadataBestEffort` | src/main/java/chiroito/jfr4jdbc/JfrStatement.java:29-47 | Field by field: fields set before a failing read keep their values, and the failing field and all later ones stay at their defaults |
| `Instrumentation.Instrumented` | src/main/java/chiroito/jfr4jdbc/JfrStatement.java:55-67 | The caller receives a value exactly when population let nothing escape, the delegate is present and it returned, and then it is the delegate's value. The step count is the reads plus begin, call and commit, or plus begin and commit for a null delegate, or the reads alone when population threw |
| `Instrumentation.InstrumentedLifecycle` | src/main/java/chiroito/jfr4jdbc/JfrStatement.java:52-268 | Metadata reads come first. If population throws, nothing is begun or committed and the throwable propagates. Otherwise there is exactly one begin and exactly one commit. The begin comes right before the delegate call, and carries the event's fields as populated. The commit is last and carries those fields with a lifecycle begun and committed once. The delegate's result or throwable is returned unchanged; a null delegate raises NullPointerException after the begin and the event is still committed |
| `Instrumentation.Forwarded` | src/main/java/chiroito/jfr4jdbc/JfrStatement.java:305-517 | A pass-through makes at most one step, and every step it makes is the forwarded call. The caller receives a value only from the present delegate, and it is the delegate's value |
| `Instrumentation.ForwardedTransparent` | src/main/java/chiroito/jfr4jdbc/JfrStatement.java:305-517 | A pass-through makes no begin and no commit, makes exactly one delegate call when the delegate is present and none for a null one, and returns or throws exactly what the delegate did (NullPointerException for a null delegate) |
| `Instrumentation.CancelRun` | src/main/java/chiroito/jfr4jdbc/JfrStatement.java:271-285 | There are no steps only for a null delegate. The first step is always the proxy's own `getConnection`. The cancel is forwarded exactly when `getConnection` returned. The caller receives a value only after the cancel was forwarded, and it is the delegate's value |
| `Instrumentation.CancelLifecycle` | src/main/java/chiroito/jfr4jdbc/JfrStatement.java:270-285 | cancel never begins or records a statement event, and it has as many commits as begins. If `getConnection` (or a null delegate) throws, nothing is begun and that throwable propagates. Otherwise the event as begun already holds the connection identity and the statement id, the cancel is forwarded, the cancel record (connection identity, 0 for null, and statement id) is committed even if cancel throws, and the delegate's outcome is returned |
| `Instrumentation.Appended` | src/main/java/chiroito/jfr4jdbc/JfrStatement.java:290-294 | After an append the buffer is never null, still starts with the old text, has grown by the entry's text plus one character, and ends with `;` |
| `Instrumentation.JoinedSnoc` | src/main/java/chiroito/jfr4jdbc/JfrStatement.java:290-294 | Joining entries and then one more gives the earlier join followed by the new entry and ";" |
| `Instrumentation.AppendedJoins` | src/main/java/chiroito/jfr4jdbc/JfrStatement.java:288-297 | If the buffer holds the join of the pending entries, then after addBatch's append it holds the join of the entries with the new one added |
| `StatementProxy.JfrStatement.constructor` | src/main/java/chiroito/jfr4jdbc/JfrStatement.java:19-24 | The statement id is the delegate's identity hash (0 for a null delegate), fixed for the proxy's lifetime; the buffer is null and no batch entry is pending |
| `StatementProxy.JfrStatement.CreateEvent` | src/main/java/chiroito/jfr4jdbc/JfrStatement.java:26-50 | The step-by-step setter sequence produces exactly `Populate`'s fields. The delegate reads are logged in order. A non-SQL throwable is reported as escaped. The event is fresh and unbegun |
| `StatementProxy.JfrStatement.Instrument` | src/main/java/chiroito/jfr4jdbc/JfrStatement.java:55-67 | The begin, delegate, finally-commit pattern performs exactly the steps and outcome of `Instrumented`. The begin and commit entries in the log are the values the event's own `Begin` and `Commit` return, so the committed record is the populated event, begun once and committed once |
| `StatementProxy.JfrStatement.ExecuteQuery` | src/main/java/chiroito/jfr4jdbc/JfrStatement.java:52-68 | Event sql is the query text; steps as `Instrumented`; a throwable from population or from the delegate reaches the caller unchanged; a returned result set, a null one included, reaches it wrapped; a null delegate gives NullPointerException; buffer untouched |
| `StatementProxy.JfrStatement.GetResultSet` | src/main/java/chiroito/jfr4jdbc/JfrStatement.java:70-86 | The event's sql is `""`; a throwable passes unchanged and a returned result set is wrapped, even a null one |
| `StatementProxy.JfrStatement.GetGeneratedKeys` | src/main/java/chiroito/jfr4jdbc/JfrStatement.java:88-104 | The event's sql is `"getGeneratedKeys"`; a throwable passes unchanged and a returned result set is wrapped, even a null one |
| `StatementProxy.JfrStatement.ExecuteUpdate` | src/main/java/chiroito/jfr4jdbc/JfrStatement.java:106-176 | All four overloads: the event's sql is the argument and the count is exactly the delegate's |
| `StatementProxy.JfrStatement.Execute` | src/main/java/chiroito/jfr4jdbc/JfrStatement.java:178-248 | All four overloads: the event's sql is the argument and the boolean is exactly the delegate's |
| `StatementProxy.JfrStatement.ExecuteBatch` | src/main/java/chiroito/jfr4jdbc/JfrStatement.java:250-268 | The event's sql is the pending entries joined as `s1;...;sn;`, and `""` on a fresh or cleared proxy. The count array is exactly the delegate's. The buffer is unchanged |
| `StatementProxy.JfrStatement.Cancel` | src/main/java/chiroito/jfr4jdbc/JfrStatement.java:270-285 | Performs exactly the steps and outcome of `CancelRun`; nothing else changes |
| `StatementProxy.JfrStatement.AddBatch` | src/main/java/chiroito/jfr4jdbc/JfrStatement.java:287-297 | The buffer becomes the old text (or `""` if null) plus the sql (`"null"` for a null string) plus `";"`, before the delegate is called, so also when it throws. The entry is added to `pending`. The delegate's outcome is returned |
| `StatementProxy.JfrStatement.ClearBatch` | src/main/java/chiroito/jfr4jdbc/JfrStatement.java:299-303 | The buffer is reset to null and `pending` emptied before the delegate is called, so also when it throws; the delegate's outcome is returned |
| `StatementProxy.JfrStatement.Forward` | src/main/java/chiroito/jfr4jdbc/JfrStatement.java:305-308 | The shared forwarding step: exactly the steps and outcome of `Forwarded` |
| `StatementProxy.JfrStatement.GetConnection` | src/main/java/chiroito/jfr4jdbc/JfrStatement.java:418-421 | Pass-through of the delegate's connection answer; no event |
| `StatementProxy.JfrStatement.ExecuteLargeUpdate` | src/main/java/chiroito/jfr4jdbc/JfrStatement.java:479-497 | Pass-through, all four overloads: no event, buffer untouched, the delegate's outcome exactly |
| `StatementProxy.JfrStatement.ExecuteLargeBatch` | src/main/java/chiroito/jfr4jdbc/JfrStatement.java:474-477 | Pass-through: no event, not even for a batch, buffer untouched, the delegate's outcome exactly |
| `Scenarios.UpdateScenario` | src/main/java/chiroito/jfr4jdbc/JfrStatement.java:106-122 | `executeUpdate("UPDATE t SET x=1")` answered with 3 returns 3 and records one event, begun and committed once, with that sql |
| `Scenarios.BatchScenario` | src/main/java/chiroito/jfr4jdbc/JfrStatement.java:250-303 | addBatch "A", addBatch "B", executeBatch records sql `"A;B;"`; after clearBatch the next batch event has sql `""` |
| `Scenarios.MetadataFailureScenario` | src/main/java/chiroito/jfr4jdbc/JfrStatement.java:26-50 | An `SQLException` from `isClosed` still lets `execute` return the delegate's result. The event keeps `sql`, `statementId` and `poolable`, and every later field stays at its default |
| `Scenarios.CancelScenario` | src/main/java/chiroito/jfr4jdbc/JfrStatement.java:270-285 | Cancelling a statement that reports itself closed records a cancel event carrying both ids, begun and committed once; both ids are already set when it is begun |

## Left out

- The JDBC delegate's own semantics (queries, updates, batches, cursors).
  It is a scripted oracle. Its metadata answers are fields, and each
  operation's answer is a parameter.
- `JfrResultSet` internals: the wrapper is an opaque value around the
  delegate's (possibly null) result set.
- The JFR machinery behind `begin()`/`commit()`: timestamps, the recorder
  and the `@Label` annotations. Begin and commit are modelled as lifecycle
  transitions with counters. The record handed over on commit is an entry
  in the proxy's `log`.
- `System.identityHashCode` and `Class` objects: identities are opaque ints
  fixed when the delegate is built, and the runtime class is an opaque value.
  The model does not claim that two live proxies never share an id.
  Identity hashes can collide, and the code does nothing about it.
- The one-argument constructor `JfrStatement(Statement)` at lines 15-17. It
  uses the process-wide default factory, which is not part of this model.
  The factory is always passed explicitly.
- The remaining forwarding methods (`unwrap`, `isWrapperFor`, `close`, the
  max-field-size, max-rows, escape-processing, query-timeout, warning,
  cursor-name, update-count, more-results, fetch, result-set-type and
  holdability accessors, `isClosed`, `setPoolable`, `isPoolable`,
  `closeOnCompletion`, `isCloseOnCompletion`, the large-update-count and
  large-max-rows accessors, and the `enquote…`/`isSimpleIdentifier`
  helpers). They have the same shape as `ExecuteLargeUpdate`: one `Forward`
  of the call.
- `JfrConnectionEvent`: the statement proxy does not use it.
- Concurrency: the buffer is unsynchronised, and the model is sequential.
- Java integer widths: results pass through untouched and no arithmetic is
  done on them, so `int`/`long` are unbounded integers.
- A null factory and `java.lang.Error` throwables. Every throwable from the
  delegate is propagated the same way after the commit, so an `Error` would
  behave like a `RuntimeException`.
- `StatementProxy.JfrStatement.Instrument`: the commit comes after the
  delegate call only in the order of the log entries. Without timestamps,
  the event's lifecycle does not record when the commit happened, only that
  the event was still Active when the delegate was called.
- Null arrays from or to the delegate are not modelled: the `int[]` of
  `executeBatch` and the `columnIndexes`/`columnNames` arguments are plain
  sequences. The proxy passes them through untouched.

Behaviours of the code worth knowing, all modelled:

- If `getConnection` throws (JfrStatement.java:274), the throwable escapes
  `cancel` before the cancel event is begun, so no cancel event is
  committed.
- `createEvent` catches only `SQLException` (JfrStatement.java:46). A
  `RuntimeException` from a metadata read escapes `createEvent`, so the
  operation throws it before `begin()` and the delegate is never called.
- With a null delegate, the statement id is 0. The execution operations
  still begin and commit their event, and then throw NullPointerException
  from the delegate call.
