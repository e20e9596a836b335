/** The statement decorator: forwards every operation to the wrapped JDBC
    statement, wraps the execution operations and `getResultSet` /
    `getGeneratedKeys` in a statement event, wraps `cancel` in a cancel
    event, and keeps the text of the current batch for the batch event. */
module StatementProxy {
  import opened Jdbc
  import opened Events
  import opened Instrumentation

  class JfrStatement {
    const factory: EventFactory
    const jdbcStatement: ScriptedStatement?
    /** The identity hash of the delegate, taken once at construction. */
    const statementId: int
    /** The batch text so far; `None` while no batch entry was added. */
    var batchSql: Option<string>
    /** The entries added since construction or the last `ClearBatch`. */
    ghost var pending: seq<JString>
    /** Every delegate call, event begin and event commit, in order. */
    var log: seq<Step>

    /** The batch text is the pending entries joined, and the buffer is
        null exactly when no entry is pending. */
    ghost predicate Valid()
      reads this`batchSql, this`pending
    {
      BatchText(batchSql) == Joined(pending) && (batchSql.None? <==> pending == [])
    }

    constructor (s: ScriptedStatement?, factory: EventFactory)
      ensures Valid() && jdbcStatement == s && this.factory == factory
      ensures statementId == (if s == null then 0 else s.identity)
      ensures batchSql == None && pending == [] && log == []
    {
      this.jdbcStatement := s;
      this.statementId := if s == null then 0 else s.identity;
      this.factory := factory;
      batchSql := None;
      pending := [];
      log := [];
    }

    /** What the delegate currently answers to the metadata reads. */
    function DelegateView(): Option<Target>
      reads jdbcStatement
    {
      View(jdbcStatement)
    }

    /** createEvent: a fresh statement event populated best-effort. An
        `SQLException` from a metadata read is swallowed; any other
        throwable is returned in `escaped`. */
    method CreateEvent(sql: JString) returns (event: JfrStatementEvent, escaped: Option<Thrown>)
      modifies this`log
      ensures fresh(event) && event.life == Fresh
      ensures var p := Populate(sql, statementId, DelegateView());
        event.Fields() == p.fields && escaped == p.escaped && log == old(log) + p.probes
    {
      event := factory.CreateStatementEvent();
      escaped := None;
      event.SetSql(sql);
      if jdbcStatement == null {
        return;
      }
      ghost var t := DelegateView().value;
      ghost var log0 := log;
      event.SetStatementId(statementId);
      ghost var f := Defaults.(sql := sql).(statementId := statementId);
      assert event.Fields() == f;

      log := log + [Delegated(IsPoolable)];
      assert log == log0 + ReadOrder[..1];
      match jdbcStatement.poolable
      case Throws(e) =>
        escaped := Escape(e);
        return;
      case Returns(pool) =>
        event.SetPoolable(pool);
      f := f.(poolable := t.poolable.value);
      assert event.Fields() == f;

      log := log + [Delegated(IsClosed)];
      assert log == log0 + ReadOrder[..2];
      match jdbcStatement.closed
      case Throws(e) =>
        escaped := Escape(e);
        return;
      case Returns(closed) =>
        event.SetClosed(closed);
      event.SetStatementClass(Some(jdbcStatement.runtimeClass));
      f := f.(closed := t.closed.value).(statementClass := Some(t.runtimeClass));
      assert event.Fields() == f;

      log := log + [Delegated(Call.GetConnection)];
      assert log == log0 + ReadOrder[..3];
      match jdbcStatement.connection
      case Throws(e) =>
        escaped := Escape(e);
        return;
      case Returns(None) =>
        return;
      case Returns(Some(con)) =>
        event.SetConnectionId(con.identity);
        log := log + [Delegated(GetAutoCommit)];
        assert log == log0 + ReadOrder;
        match con.autoCommit
        case Throws(e) =>
          escaped := Escape(e);
        case Returns(auto) =>
          event.SetAutoCommit(auto);
    }

    /** The pattern every instrumented operation shares: create the event,
        begin it, call the delegate, commit the event in any case, and pass
        on the delegate's result or throwable. */
    method Instrument<T>(sql: JString, call: Call, reply: Reply<T>) returns (r: Reply<T>)
      modifies this`log
      ensures var run := Instrumented(Populate(sql, statementId, DelegateView()), call, jdbcStatement != null, reply);
        log == old(log) + run.steps && r == run.outcome
    {
      ghost var p := Populate(sql, statementId, DelegateView());
      var event, escaped := CreateEvent(sql);
      if escaped.Some? {
        r := Throws(escaped.value);
        return;
      }
      var snapshot := event.Begin();
      assert snapshot == StatementRecord(p.fields, Running);
      log := log + [Began(snapshot)];
      assert event.life == Running;
      if jdbcStatement == null {
        r := Throws(NullPointerException);
      } else {
        log := log + [Delegated(call)];
        r := reply;
      }
      var rec := event.Commit();
      assert rec == StatementRecord(p.fields, Completed);
      log := log + [Recorded(rec)];
    }

    /** The delegate's result set, a null one included, reaches the caller
        wrapped; a throwable reaches it unchanged. */
    method ExecuteQuery(sql: JString, reply: Reply<Option<Cursor>>) returns (r: Reply<ResultSet>)
      modifies this`log
      ensures var run := Instrumented(Populate(sql, statementId, DelegateView()), Call.ExecuteQuery(sql),
                                      jdbcStatement != null, reply);
        log == old(log) + run.steps && r == WrapCursor(run.outcome)
      ensures var e := Populate(sql, statementId, DelegateView()).escaped;
        (e.Some? ==> r == Throws(e.value))
        && (e.None? && jdbcStatement == null ==> r == Throws(NullPointerException))
        && (e.None? && jdbcStatement != null && reply.Returns? ==> r == Returns(JfrResultSet(reply.value)))
        && (e.None? && jdbcStatement != null && reply.Throws? ==> r == Throws(reply.error))
    {
      var rs := Instrument(sql, Call.ExecuteQuery(sql), reply);
      r := WrapCursor(rs);
    }

    method GetResultSet(reply: Reply<Option<Cursor>>) returns (r: Reply<ResultSet>)
      modifies this`log
      ensures var run := Instrumented(Populate(Some(""), statementId, DelegateView()), Call.GetResultSet,
                                      jdbcStatement != null, reply);
        log == old(log) + run.steps && r == WrapCursor(run.outcome)
      ensures var e := Populate(Some(""), statementId, DelegateView()).escaped;
        (e.Some? ==> r == Throws(e.value))
        && (e.None? && jdbcStatement == null ==> r == Throws(NullPointerException))
        && (e.None? && jdbcStatement != null && reply.Returns? ==> r == Returns(JfrResultSet(reply.value)))
        && (e.None? && jdbcStatement != null && reply.Throws? ==> r == Throws(reply.error))
    {
      var rs := Instrument(Some(""), Call.GetResultSet, reply);
      r := WrapCursor(rs);
    }

    method GetGeneratedKeys(reply: Reply<Option<Cursor>>) returns (r: Reply<ResultSet>)
      modifies this`log
      ensures var run := Instrumented(Populate(Some("getGeneratedKeys"), statementId, DelegateView()),
                                      Call.GetGeneratedKeys, jdbcStatement != null, reply);
        log == old(log) + run.steps && r == WrapCursor(run.outcome)
      ensures var e := Populate(Some("getGeneratedKeys"), statementId, DelegateView()).escaped;
        (e.Some? ==> r == Throws(e.value))
        && (e.None? && jdbcStatement == null ==> r == Throws(NullPointerException))
        && (e.None? && jdbcStatement != null && reply.Returns? ==> r == Returns(JfrResultSet(reply.value)))
        && (e.None? && jdbcStatement != null && reply.Throws? ==> r == Throws(reply.error))
    {
      var rs := Instrument(Some("getGeneratedKeys"), Call.GetGeneratedKeys, reply);
      r := WrapCursor(rs);
    }

    /** All four overloads of executeUpdate; `keys` says which. */
    method ExecuteUpdate(sql: JString, keys: KeyRequest, reply: Reply<int>) returns (r: Reply<int>)
      modifies this`log
      ensures var run := Instrumented(Populate(sql, statementId, DelegateView()), Call.ExecuteUpdate(sql, keys),
                                      jdbcStatement != null, reply);
        log == old(log) + run.steps && r == run.outcome
    {
      r := Instrument(sql, Call.ExecuteUpdate(sql, keys), reply);
    }

    /** All four overloads of execute; `keys` says which. */
    method Execute(sql: JString, keys: KeyRequest, reply: Reply<bool>) returns (r: Reply<bool>)
      modifies this`log
      ensures var run := Instrumented(Populate(sql, statementId, DelegateView()), Call.Execute(sql, keys),
                                      jdbcStatement != null, reply);
        log == old(log) + run.steps && r == run.outcome
    {
      r := Instrument(sql, Call.Execute(sql, keys), reply);
    }

    /** The event's sql is the pending batch entries joined; the buffer is
        left as it is. */
    method ExecuteBatch(reply: Reply<seq<int>>) returns (r: Reply<seq<int>>)
      requires Valid()
      modifies this`log
      ensures Valid()
      ensures var run := Instrumented(Populate(Some(Joined(pending)), statementId, DelegateView()),
                                      Call.ExecuteBatch, jdbcStatement != null, reply);
        log == old(log) + run.steps && r == run.outcome
    {
      r := Instrument(Some(BatchText(batchSql)), Call.ExecuteBatch, reply);
    }

    method Cancel(reply: Reply<()>) returns (r: Reply<()>)
      modifies this`log
      ensures var run := CancelRun(statementId, DelegateView(), reply);
        log == old(log) + run.steps && r == run.outcome
    {
      var event := factory.CreateCancelEvent();
      var con := GetConnection();
      if con.Throws? {
        r := Throws(con.error);
        return;
      }
      event.SetConnectionId(IdentityHash(con.value));
      event.SetStatementId(statementId);
      var snapshot := event.Begin();
      log := log + [Began(snapshot)];
      log := log + [Delegated(Call.Cancel)];
      r := reply;
      var rec := event.Commit();
      log := log + [Recorded(rec)];
    }

    /** The buffer is extended before the delegate is called, so it is
        extended whatever the delegate does. */
    method AddBatch(sql: JString, reply: Reply<()>) returns (r: Reply<()>)
      requires Valid()
      modifies this`batchSql, this`pending, this`log
      ensures Valid() && pending == old(pending) + [sql]
      ensures batchSql == Appended(old(batchSql), sql)
      ensures var run := Forwarded(jdbcStatement != null, Call.AddBatch(sql), reply);
        log == old(log) + run.steps && r == run.outcome
    {
      AppendedJoins(batchSql, pending, sql);
      var buffer := if batchSql == None then "" else batchSql.value;
      buffer := buffer + Text(sql);
      buffer := buffer + ";";
      batchSql := Some(buffer);
      pending := pending + [sql];
      r := Forward(Call.AddBatch(sql), reply);
    }

    /** The buffer is reset before the delegate is called. */
    method ClearBatch(reply: Reply<()>) returns (r: Reply<()>)
      modifies this`batchSql, this`pending, this`log
      ensures Valid() && pending == [] && batchSql == None
      ensures var run := Forwarded(jdbcStatement != null, Call.ClearBatch, reply);
        log == old(log) + run.steps && r == run.outcome
    {
      batchSql := None;
      pending := [];
      r := Forward(Call.ClearBatch, reply);
    }

    /** Forward one call to the delegate and pass on its answer. */
    method Forward<T>(call: Call, reply: Reply<T>) returns (r: Reply<T>)
      modifies this`log
      ensures var run := Forwarded(jdbcStatement != null, call, reply);
        log == old(log) + run.steps && r == run.outcome
    {
      if jdbcStatement == null {
        r := Throws(NullPointerException);
      } else {
        log := log + [Delegated(call)];
        r := reply;
      }
    }

    /** Pass-through: the delegate's scripted connection. */
    method GetConnection() returns (r: Reply<Option<Connection>>)
      modifies this`log
      ensures var run := Forwarded(jdbcStatement != null, Call.GetConnection,
                                   if jdbcStatement == null then Returns(None) else jdbcStatement.connection);
        log == old(log) + run.steps && r == run.outcome
    {
      var answer := if jdbcStatement == null then Returns(None) else jdbcStatement.connection;
      r := Forward(Call.GetConnection, answer);
    }

    /** Pass-through, all four overloads; `keys` says which. */
    method ExecuteLargeUpdate(sql: JString, keys: KeyRequest, reply: Reply<int>) returns (r: Reply<int>)
      modifies this`log
      ensures var run := Forwarded(jdbcStatement != null, Call.ExecuteLargeUpdate(sql, keys), reply);
        log == old(log) + run.steps && r == run.outcome
    {
      r := Forward(Call.ExecuteLargeUpdate(sql, keys), reply);
    }

    /** Pass-through. */
    method ExecuteLargeBatch(reply: Reply<seq<int>>) returns (r: Reply<seq<int>>)
      modifies this`log
      ensures var run := Forwarded(jdbcStatement != null, Call.ExecuteLargeBatch, reply);
        log == old(log) + run.steps && r == run.outcome
    {
      r := Forward(Call.ExecuteLargeBatch, reply);
    }
  }
}
