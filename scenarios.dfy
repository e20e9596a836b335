/** Concrete client runs: programs that drive a proxy over a scripted
    delegate and prove, from the proxy's contracts alone, what each run
    records and returns. */
module Scenarios {
  import opened Jdbc
  import opened Events
  import opened Instrumentation
  import opened StatementProxy

  /** An update of "UPDATE t SET x=1" that the delegate answers with 3
      returns 3 and records exactly one committed event carrying that sql. */
  method UpdateScenario() returns (r: Reply<int>, log: seq<Step>)
    ensures r == Returns(3)
    ensures Count(log, BeginTag) == 1 && Count(log, CommitTag) == 1
    ensures |log| > 0 && log[|log| - 1].Recorded? && log[|log| - 1].record.StatementRecord?
    ensures log[|log| - 1].record.fields.sql == Some("UPDATE t SET x=1")
    ensures log[|log| - 1].record.life == Completed
  {
    var con := Connection(11, Returns(true));
    var d := new ScriptedStatement(7, ClassRef("Driver"), Returns(true), Returns(false), Returns(Some(con)));
    var f := new EventFactory();
    var p := new JfrStatement(d, f);
    var sql := Some("UPDATE t SET x=1");
    r := p.ExecuteUpdate(sql, NoKeys, Returns(3));
    ghost var run := Instrumented(Populate(sql, 7, View(d)), Call.ExecuteUpdate(sql, NoKeys), true, Returns(3));
    InstrumentedLifecycle(Populate(sql, 7, View(d)), Call.ExecuteUpdate(sql, NoKeys), true, Returns(3));
    assert p.log == [] + run.steps == run.steps;
    log := p.log;
  }

  /** addBatch "A", addBatch "B", executeBatch: the batch event's sql is
      "A;B;". After clearBatch, the next batch event's sql is "". */
  method BatchScenario() returns (first: JString, second: JString)
    ensures first == Some("A;B;")
    ensures second == Some("")
  {
    var d := new ScriptedStatement(7, ClassRef("Driver"), Returns(true), Returns(false), Returns(None));
    var f := new EventFactory();
    var p := new JfrStatement(d, f);
    var _ := p.AddBatch(Some("A"), Returns(()));
    var _ := p.AddBatch(Some("B"), Returns(()));
    assert p.pending == [Some("A"), Some("B")];
    assert Joined(p.pending) == "A;B;";
    var _ := p.ExecuteBatch(Returns([1, 1]));
    InstrumentedLifecycle(Populate(Some("A;B;"), 7, View(d)), Call.ExecuteBatch, true, Returns([1, 1]));
    first := p.log[|p.log| - 1].record.fields.sql;
    var _ := p.ClearBatch(Returns(()));
    var none: seq<int> := [];
    var _ := p.ExecuteBatch(Returns(none));
    InstrumentedLifecycle(Populate(Some(""), 7, View(d)), Call.ExecuteBatch, true, Returns(none));
    second := p.log[|p.log| - 1].record.fields.sql;
  }

  /** isClosed throws an SQLException while the event is populated: the
      operation still completes with the delegate's result, the event is
      still committed, and the fields from `closed` on keep their defaults. */
  method MetadataFailureScenario() returns (r: Reply<bool>, fields: EventFields)
    ensures r == Returns(true)
    ensures fields == Defaults.(sql := Some("SELECT 1"), statementId := 7, poolable := true)
  {
    var d := new ScriptedStatement(7, ClassRef("Driver"), Returns(true),
                                   Throws(SQLException("closed?")), Returns(None));
    var f := new EventFactory();
    var p := new JfrStatement(d, f);
    r := p.Execute(Some("SELECT 1"), NoKeys, Returns(true));
    InstrumentedLifecycle(Populate(Some("SELECT 1"), 7, View(d)), Call.Execute(Some("SELECT 1"), NoKeys),
                          true, Returns(true));
    fields := p.log[|p.log| - 1].record.fields;
  }

  /** Cancelling a statement that reports itself closed still records a
      cancel event carrying the statement id and the connection id, both of
      them already set when the event is begun. */
  method CancelScenario() returns (begun: Record, record: Record)
    ensures begun == CancelRecord(11, 7, Running)
    ensures record == CancelRecord(11, 7, Completed)
  {
    var con := Connection(11, Returns(false));
    var d := new ScriptedStatement(7, ClassRef("Driver"), Returns(true), Returns(true), Returns(Some(con)));
    var f := new EventFactory();
    var p := new JfrStatement(d, f);
    var _ := p.Cancel(Returns(()));
    CancelLifecycle(7, View(d), Returns(()));
    begun := p.log[1].record;
    record := p.log[3].record;
  }
}
