/** The telemetry events: the statement event record with its setters and
    getters, the cancel event, their shared begin/commit lifecycle, and the
    factory that creates them. */
module Events {
  import opened Jdbc

  /** Lifecycle of a JFR event: Created, then Active after `begin()`, then
      Committed after `commit()`. The counters record how often each call
      was made; timestamps and the recorder are not modelled. */
  datatype Phase = Created | Active | Committed

  datatype Lifecycle = Lifecycle(phase: Phase, begins: nat, commits: nat)

  /** A newly created, unbegun event. */
  const Fresh := Lifecycle(Created, 0, 0)

  /** An event that was begun once and not yet committed. */
  const Running := Lifecycle(Active, 1, 0)

  /** An event that was begun once and committed once. */
  const Completed := Lifecycle(Committed, 1, 1)

  function Begun(l: Lifecycle): Lifecycle {
    l.(phase := Active, begins := l.begins + 1)
  }

  function Ended(l: Lifecycle): Lifecycle {
    l.(phase := Committed, commits := l.commits + 1)
  }

  /** The fields of a statement event, as the recorder sees them. */
  datatype EventFields = EventFields(
    sql: JString,
    connectionId: int,
    statementId: int,
    statementClass: Option<ClassRef>,
    closed: bool,
    poolable: bool,
    autoCommit: bool)

  /** Java's defaults for fields never set: null, 0 and false. */
  const Defaults := EventFields(None, 0, 0, None, false, false, false)

  /** What the recorder sees of an event: its fields and its lifecycle. */
  datatype Record =
    | StatementRecord(fields: EventFields, life: Lifecycle)
    | CancelRecord(connectionId: int, statementId: int, life: Lifecycle)

  /** The statement event: a record of mutable fields, each assigned by its
      own setter and read back by its getter. */
  class JfrStatementEvent {
    var sql: JString
    var connectionId: int
    var statementId: int
    var statementClass: Option<ClassRef>
    var closed: bool
    var poolable: bool
    var autoCommit: bool
    var life: Lifecycle

    constructor ()
      ensures Fields() == Defaults && life == Fresh
    {
      sql, connectionId, statementId, statementClass := None, 0, 0, None;
      closed, poolable, autoCommit := false, false, false;
      life := Fresh;
    }

    /** The field record this event currently holds. */
    function Fields(): EventFields
      reads this
    {
      EventFields(sql, connectionId, statementId, statementClass, closed, poolable, autoCommit)
    }

    method SetConnectionId(connectionId: int)
      modifies this
      ensures Fields() == old(Fields()).(connectionId := connectionId) && life == old(life)
      ensures GetConnectionId() == connectionId
    {
      this.connectionId := connectionId;
    }

    method SetStatementId(statementId: int)
      modifies this
      ensures Fields() == old(Fields()).(statementId := statementId) && life == old(life)
      ensures GetStatementId() == statementId
    {
      this.statementId := statementId;
    }

    /** `clazz` may be null (`None`); it is stored as given. */
    method SetStatementClass(clazz: Option<ClassRef>)
      modifies this
      ensures Fields() == old(Fields()).(statementClass := clazz) && life == old(life)
      ensures GetStatementClass() == clazz
    {
      this.statementClass := clazz;
    }

    method SetSql(sql: JString)
      modifies this
      ensures Fields() == old(Fields()).(sql := sql) && life == old(life)
      ensures GetSql() == sql
    {
      this.sql := sql;
    }

    method SetClosed(closed: bool)
      modifies this
      ensures Fields() == old(Fields()).(closed := closed) && life == old(life)
      ensures GetClosed() == closed
    {
      this.closed := closed;
    }

    method SetAutoCommit(autoCommit: bool)
      modifies this
      ensures Fields() == old(Fields()).(autoCommit := autoCommit) && life == old(life)
      ensures GetAutoCommit() == autoCommit
    {
      this.autoCommit := autoCommit;
    }

    method SetPoolable(poolable: bool)
      modifies this
      ensures Fields() == old(Fields()).(poolable := poolable) && life == old(life)
      ensures GetPoolable() == poolable
    {
      this.poolable := poolable;
    }

    // Each getter reads back the field the recorder receives in the record.

    function GetSql(): (r: JString) reads this ensures r == Fields().sql { sql }
    function GetConnectionId(): (r: int) reads this ensures r == Fields().connectionId { connectionId }
    function GetStatementId(): (r: int) reads this ensures r == Fields().statementId { statementId }
    function GetStatementClass(): (r: Option<ClassRef>) reads this ensures r == Fields().statementClass
    { statementClass }
    function GetClosed(): (r: bool) reads this ensures r == Fields().closed { closed }
    function GetPoolable(): (r: bool) reads this ensures r == Fields().poolable { poolable }
    function GetAutoCommit(): (r: bool) reads this ensures r == Fields().autoCommit { autoCommit }

    /** `begin()` on an event not yet begun; `snapshot` is the event as it
        stands when it is begun. */
    method Begin() returns (snapshot: Record)
      requires life.phase == Created
      modifies this
      ensures life == Begun(old(life)) && Fields() == old(Fields())
      ensures snapshot == StatementRecord(Fields(), life)
    {
      life := Begun(life);
      snapshot := StatementRecord(Fields(), life);
    }

    /** `commit()` on a begun event; `rec` is what the recorder receives. */
    method Commit() returns (rec: Record)
      requires life.phase == Active
      modifies this
      ensures life == Ended(old(life)) && Fields() == old(Fields())
      ensures rec == StatementRecord(Fields(), life)
    {
      life := Ended(life);
      rec := StatementRecord(Fields(), life);
    }
  }

  /** The cancel event: the owning connection's id and the statement's id. */
  class JfrCancelEvent {
    var connectionId: int
    var statementId: int
    var life: Lifecycle

    constructor ()
      ensures connectionId == 0 && statementId == 0 && life == Fresh
    {
      connectionId, statementId, life := 0, 0, Fresh;
    }

    method SetConnectionId(connectionId: int)
      modifies this
      ensures this.connectionId == connectionId
      ensures statementId == old(statementId) && life == old(life)
    {
      this.connectionId := connectionId;
    }

    method SetStatementId(statementId: int)
      modifies this
      ensures this.statementId == statementId
      ensures connectionId == old(connectionId) && life == old(life)
    {
      this.statementId := statementId;
    }

    /** `begin()` on an event not yet begun; `snapshot` is the event as it
        stands when it is begun. */
    method Begin() returns (snapshot: Record)
      requires life.phase == Created
      modifies this
      ensures life == Begun(old(life))
      ensures connectionId == old(connectionId) && statementId == old(statementId)
      ensures snapshot == CancelRecord(connectionId, statementId, life)
    {
      life := Begun(life);
      snapshot := CancelRecord(connectionId, statementId, life);
    }

    /** `commit()` on a begun event; `rec` is what the recorder receives. */
    method Commit() returns (rec: Record)
      requires life.phase == Active
      modifies this
      ensures life == Ended(old(life))
      ensures connectionId == old(connectionId) && statementId == old(statementId)
      ensures rec == CancelRecord(connectionId, statementId, life)
    {
      life := Ended(life);
      rec := CancelRecord(connectionId, statementId, life);
    }
  }

  /** Creates fresh, unbegun events. The proxy receives its factory at
      construction. */
  class EventFactory {
    constructor () {}

    method CreateStatementEvent() returns (e: JfrStatementEvent)
      ensures fresh(e) && e.Fields() == Defaults && e.life == Fresh
    {
      e := new JfrStatementEvent();
    }

    method CreateCancelEvent() returns (e: JfrCancelEvent)
      ensures fresh(e) && e.connectionId == 0 && e.statementId == 0 && e.life == Fresh
    {
      e := new JfrCancelEvent();
    }
  }
}
