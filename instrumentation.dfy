/** The value-level specification of what the statement proxy adds to its
    delegate: which delegate calls and event lifecycle calls happen, in which
    order, with which event fields, and what the caller gets back. The
    methods of `StatementProxy.JfrStatement` are proved against these
    functions, and the properties the proxy promises are proved here. */
module Instrumentation {
  import opened Jdbc
  import opened Events

  /** The argument that tells the overloads of `executeUpdate`, `execute` and
      `executeLargeUpdate` apart. */
  datatype KeyRequest =
    | NoKeys
    | AutoGeneratedKeys(flag: int)
    | ColumnIndexes(indexes: seq<int>)
    | ColumnNames(names: seq<JString>)

  /** A call the proxy makes on its delegate or on the delegate's connection. */
  datatype Call =
    | IsPoolable | IsClosed | GetConnection | GetAutoCommit
    | ExecuteQuery(sql: JString)
    | ExecuteUpdate(sql: JString, keys: KeyRequest)
    | Execute(sql: JString, keys: KeyRequest)
    | GetResultSet | GetGeneratedKeys | ExecuteBatch
    | AddBatch(sql: JString) | ClearBatch | Cancel
    | ExecuteLargeUpdate(sql: JString, keys: KeyRequest) | ExecuteLargeBatch

  /** One observable step: a delegate call, an event's `begin()` with the
      event as it stands when begun, or an event's `commit()` handing the
      record to the recorder. */
  datatype Step = Delegated(call: Call) | Began(record: Record) | Recorded(record: Record)

  /** The steps one proxy operation performs and what it returns or throws. */
  datatype Run<+T> = Run(steps: seq<Step>, outcome: Reply<T>)

  /** The cursor wrapper the proxy returns from query execution. */
  datatype ResultSet = JfrResultSet(wrapped: Option<Cursor>)

  // ---------------------------------------------------------------------
  // Counting steps

  datatype Tag = CallTag | BeginTag | CommitTag

  function TagOf(s: Step): Tag {
    match s
    case Delegated(_) => CallTag
    case Began(_) => BeginTag
    case Recorded(_) => CommitTag
  }

  /** How many steps of the given kind occur. */
  function Count(steps: seq<Step>, t: Tag): nat {
    if steps == [] then 0
    else Count(steps[..|steps| - 1], t) + (if TagOf(steps[|steps| - 1]) == t then 1 else 0)
  }

  lemma {:induction false} CountAppend(a: seq<Step>, b: seq<Step>, t: Tag)
    ensures Count(a + b, t) == Count(a, t) + Count(b, t)
  {
    if b != [] {
      assert (a + b)[..|a + b| - 1] == a + b[..|b| - 1];
      CountAppend(a, b[..|b| - 1], t);
    } else {
      assert a + b == a;
    }
  }

  /** A run of delegate calls only. */
  type CallSteps = s: seq<Step> | forall i | 0 <= i < |s| :: s[i].Delegated?

  lemma CountSingle(x: Step)
    ensures forall t: Tag :: Count([x], t) == if TagOf(x) == t then 1 else 0
  {
  }

  lemma CountPair(x: Step, y: Step, t: Tag)
    ensures Count([x, y], t) == Count([x], t) + Count([y], t)
  {
  }

  lemma {:induction false} CallStepsCount(calls: CallSteps)
    ensures Count(calls, CallTag) == |calls|
    ensures Count(calls, BeginTag) == 0 && Count(calls, CommitTag) == 0
  {
    if calls != [] {
      CallStepsCount(calls[..|calls| - 1]);
    }
  }

  // ---------------------------------------------------------------------
  // Metadata population (createEvent)

  /** The outcome of populating a statement event: its fields, the metadata
      reads made on the delegate in order, and the throwable that escaped
      from the population, if any. */
  datatype Population = Population(fields: EventFields, probes: CallSteps, escaped: Option<Thrown>)

  /** The metadata reads in the order createEvent makes them. */
  const ReadOrder: CallSteps :=
    [Delegated(IsPoolable), Delegated(IsClosed), Delegated(GetConnection), Delegated(GetAutoCommit)]

  /** A throwable from a metadata read: an `SQLException` is swallowed,
      anything else escapes. */
  function Escape(e: Thrown): Option<Thrown> {
    if e.SQLException? then None else Some(e)
  }

  /** createEvent: set `sql`; if there is a delegate, set the statement id,
      read `isPoolable` and `isClosed`, record the runtime class, and, if the
      delegate has a connection, record its identity and `getAutoCommit`.
      The first failing read stops the population. */
  function Populate(sql: JString, statementId: int, target: Option<Target>): (p: Population)
    ensures p.fields.sql == sql
    ensures target.None? ==> p == Population(Defaults.(sql := sql), [], None)
    ensures target.Some? ==> p.fields.statementId == statementId
    ensures p.escaped.Some? ==> !p.escaped.value.SQLException?
    ensures |p.probes| <= |ReadOrder| && p.probes == ReadOrder[..|p.probes|]
  {
    var f := Defaults.(sql := sql);
    match target
    case None => Population(f, [], None)
    case Some(t) =>
      var f := f.(statementId := statementId);
      match t.poolable
      case Throws(e) => Population(f, ReadOrder[..1], Escape(e))
      case Returns(pool) =>
        var f := f.(poolable := pool);
        match t.closed
        case Throws(e) => Population(f, ReadOrder[..2], Escape(e))
        case Returns(closed) =>
          var f := f.(closed := closed).(statementClass := Some(t.runtimeClass));
          match t.connection
          case Throws(e) => Population(f, ReadOrder[..3], Escape(e))
          case Returns(None) => Population(f, ReadOrder[..3], None)
          case Returns(Some(con)) =>
            var f := f.(connectionId := con.identity);
            match con.autoCommit
            case Throws(e) => Population(f, ReadOrder, Escape(e))
            case Returns(auto) => Population(f.(autoCommit := auto), ReadOrder, None)
  }

  /** The throwable a reply carries, if it is one. */
  function ErrorOf<T>(r: Reply<T>): Option<Thrown> {
    match r
    case Throws(e) => Some(e)
    case Returns(_) => None
  }

  /** The throwable the metadata read `c` raises on a delegate answering as
      `t`, if any; `getAutoCommit` is read only on a non-null connection. */
  function ReadError(t: Target, c: Step): Option<Thrown> {
    match c
    case Delegated(IsPoolable) => ErrorOf(t.poolable)
    case Delegated(IsClosed) => ErrorOf(t.closed)
    case Delegated(GetConnection) => ErrorOf(t.connection)
    case Delegated(GetAutoCommit) =>
      (match t.connection case Returns(Some(con)) => ErrorOf(con.autoCommit) case _ => None)
    case _ => None
  }

  /** The throwable of the first failing read among `calls`, in order. */
  function FirstError(t: Target, calls: seq<Step>): Option<Thrown> {
    if calls == [] then None
    else if ReadError(t, calls[0]).Some? then ReadError(t, calls[0])
    else FirstError(t, calls[1..])
  }

  /** The throwable createEvent lets out is the first failing read's, unless
      that is an `SQLException`. Every read made but the last succeeded, and
      a last read that succeeded ends the population normally. */
  lemma PopulateEscapes(sql: JString, statementId: int, t: Target)
    ensures var p := Populate(sql, statementId, Some(t)); var e := FirstError(t, ReadOrder);
      p.escaped == (if e.Some? && !e.value.SQLException? then e else None)
    ensures var p := Populate(sql, statementId, Some(t));
      1 <= |p.probes| && forall i :: 0 <= i < |p.probes| - 1 ==> ReadError(t, p.probes[i]).None?
    ensures var p := Populate(sql, statementId, Some(t)); var n := |p.probes|;
      1 <= n && ReadError(t, p.probes[n - 1]).None? ==>
        p.escaped.None? && (n == |ReadOrder| || t.connection == Returns(None))
  {
    var r1 := ReadOrder[1..];
    var r2 := ReadOrder[2..];
    var r3 := ReadOrder[3..];
    assert ReadOrder[1..] == r1 && r1[1..] == r2 && r2[1..] == r3 && r3[1..] == [];
    if t.poolable.Returns? {
      assert FirstError(t, ReadOrder) == FirstError(t, r1);
      if t.closed.Returns? {
        assert FirstError(t, r1) == FirstError(t, r2);
        if t.connection.Returns? {
          assert FirstError(t, r2) == FirstError(t, r3);
          assert FirstError(t, r3) == ReadError(t, Delegated(GetAutoCommit));
        }
      }
    }
  }

  /** The setters createEvent calls, in its order. */
  datatype Setter =
    | SetSql | SetStatementId | SetPoolable | SetClosed
    | SetStatementClass | SetConnectionId | SetAutoCommit

  const SetterOrder: seq<Setter> :=
    [SetSql, SetStatementId, SetPoolable, SetClosed, SetStatementClass, SetConnectionId, SetAutoCommit]

  /** The value of one field, whatever its type. */
  datatype FieldValue = Str(s: JString) | Num(n: int) | Cls(c: Option<ClassRef>) | Flag(b: bool)

  function FieldOf(f: EventFields, s: Setter): FieldValue {
    match s
    case SetSql => Str(f.sql)
    case SetStatementId => Num(f.statementId)
    case SetPoolable => Flag(f.poolable)
    case SetClosed => Flag(f.closed)
    case SetStatementClass => Cls(f.statementClass)
    case SetConnectionId => Num(f.connectionId)
    case SetAutoCommit => Flag(f.autoCommit)
  }

  /** `f` with the field that setter `s` assigns copied from `from`. */
  function Assign(f: EventFields, s: Setter, from: EventFields): EventFields {
    match s
    case SetSql => f.(sql := from.sql)
    case SetStatementId => f.(statementId := from.statementId)
    case SetPoolable => f.(poolable := from.poolable)
    case SetClosed => f.(closed := from.closed)
    case SetStatementClass => f.(statementClass := from.statementClass)
    case SetConnectionId => f.(connectionId := from.connectionId)
    case SetAutoCommit => f.(autoCommit := from.autoCommit)
  }

  /** The record after the first `k` setters have stored the values of `full`. */
  function Prefix(k: nat, full: EventFields): EventFields
    requires k <= |SetterOrder|
  {
    if k == 0 then Defaults else Assign(Prefix(k - 1, full), SetterOrder[k - 1], full)
  }

  function BoolOr(r: Reply<bool>): bool {
    match r
    case Returns(b) => b
    case Throws(_) => false
  }

  /** The values the setters would store if every read succeeded. */
  function Intended(sql: JString, statementId: int, target: Option<Target>): EventFields {
    match target
    case None => Defaults.(sql := sql)
    case Some(t) =>
      var con := (match t.connection case Returns(c) => c case Throws(_) => None);
      EventFields(sql, IdentityHash(con), statementId, Some(t.runtimeClass),
                  BoolOr(t.closed), BoolOr(t.poolable),
                  match con case Some(c) => BoolOr(c.autoCommit) case None => false)
  }

  /** How many setters run before the first failing read, or before the
      population ends because there is no delegate or no connection. */
  function SettersRun(target: Option<Target>): (n: nat)
    ensures 1 <= n <= |SetterOrder|
  {
    match target
    case None => 1
    case Some(t) =>
      if t.poolable.Throws? then 2
      else if t.closed.Throws? then 3
      else match t.connection
        case Throws(_) => 5
        case Returns(None) => 5
        case Returns(Some(c)) => if c.autoCommit.Throws? then 6 else 7
  }

  lemma AssignAt(f: EventFields, s: Setter, from: EventFields, s': Setter)
    ensures FieldOf(Assign(f, s, from), s') == if s == s' then FieldOf(from, s') else FieldOf(f, s')
  {
  }

  /** In a prefix, the fields of the first `k` setters hold the intended
      values and every later field holds its default. */
  lemma {:induction false} PrefixAt(k: nat, full: EventFields, i: nat)
    requires k <= |SetterOrder| && i < |SetterOrder|
    ensures FieldOf(Prefix(k, full), SetterOrder[i]) == FieldOf(if i < k then full else Defaults, SetterOrder[i])
  {
    if k > 0 {
      PrefixAt(k - 1, full, i);
      AssignAt(Prefix(k - 1, full), SetterOrder[k - 1], full, SetterOrder[i]);
      assert SetterOrder[k - 1] == SetterOrder[i] <==> k - 1 == i;
    }
  }

  /** createEvent sets its fields in a fixed order and stops at the first
      failing read: the result is the prefix of the intended record. */
  lemma PopulateIsPrefix(sql: JString, statementId: int, target: Option<Target>)
    ensures Populate(sql, statementId, target).fields
         == Prefix(SettersRun(target), Intended(sql, statementId, target))
  {
    var full := Intended(sql, statementId, target);
    var f1 := Defaults.(sql := full.sql);
    var f2 := f1.(statementId := full.statementId);
    var f3 := f2.(poolable := full.poolable);
    var f5 := f3.(closed := full.closed).(statementClass := full.statementClass);
    var f6 := f5.(connectionId := full.connectionId);
    assert Prefix(1, full) == f1;
    assert Prefix(2, full) == f2;
    assert Prefix(3, full) == f3;
    assert Prefix(5, full) == f5;
    assert Prefix(6, full) == f6;
    assert Prefix(7, full) == f6.(autoCommit := full.autoCommit);
  }

  /** Field by field: the fields set before the first failing read keep the
      values read, the failing one and all later ones keep their defaults. */
  lemma MetadataBestEffort(sql: JString, statementId: int, target: Option<Target>, i: nat)
    requires i < |SetterOrder|
    ensures FieldOf(Populate(sql, statementId, target).fields, SetterOrder[i])
         == FieldOf(if i < SettersRun(target) then Intended(sql, statementId, target) else Defaults,
                    SetterOrder[i])
  {
    PopulateIsPrefix(sql, statementId, target);
    PrefixAt(SettersRun(target), Intended(sql, statementId, target), i);
  }

  // ---------------------------------------------------------------------
  // Instrumented operations

  /** An instrumented statement operation: populate the event; if that
      throws, nothing is begun; otherwise begin, call the delegate (a null
      delegate throws NullPointerException instead), and commit whatever
      the delegate did. */
  function Instrumented<T>(p: Population, call: Call, present: bool, reply: Reply<T>): (r: Run<T>)
    ensures r.outcome.Returns? <==> p.escaped.None? && present && reply.Returns?
    ensures r.outcome.Returns? ==> r.outcome == reply
    ensures |r.steps| == |p.probes| + (if p.escaped.Some? then 0 else if present then 3 else 2)
  {
    var probes := p.probes;
    var begun := Began(StatementRecord(p.fields, Running));
    var record := Recorded(StatementRecord(p.fields, Completed));
    if p.escaped.Some? then Run(probes, Throws(p.escaped.value))
    else if present then Run(probes + [begun, Delegated(call), record], reply)
    else Run(probes + [begun, record], Throws(NullPointerException))
  }

  /** Exactly one statement event is begun and committed, exactly once each,
      around exactly one delegate call, whether the delegate returns or
      throws; its result or throwable reaches the caller unchanged. A
      throwable escaping the population prevents the begin. */
  lemma InstrumentedLifecycle<T>(p: Population, call: Call, present: bool, reply: Reply<T>)
    ensures var r := Instrumented(p, call, present, reply);
      |p.probes| <= |r.steps| && r.steps[..|p.probes|] == p.probes
    ensures var r := Instrumented(p, call, present, reply);
      p.escaped.Some? ==>
        Count(r.steps, BeginTag) == 0 && Count(r.steps, CommitTag) == 0
        && r.outcome == Throws(p.escaped.value)
    ensures var r := Instrumented(p, call, present, reply); var b := |p.probes|;
      p.escaped.None? ==>
        Count(r.steps, BeginTag) == 1 && Count(r.steps, CommitTag) == 1
        && r.steps[b] == Began(StatementRecord(p.fields, Running))
        && r.steps[|r.steps| - 1] == Recorded(StatementRecord(p.fields, Completed))
    ensures var r := Instrumented(p, call, present, reply); var b := |p.probes|;
      p.escaped.None? && present ==>
        Count(r.steps, CallTag) == b + 1 && r.steps[b + 1] == Delegated(call)
        && |r.steps| == b + 3 && r.outcome == reply
    ensures var r := Instrumented(p, call, present, reply);
      p.escaped.None? && !present ==>
        Count(r.steps, CallTag) == |p.probes| && r.outcome == Throws(NullPointerException)
  {
    var probes := p.probes;
    var begun := Began(StatementRecord(p.fields, Running));
    var record := Recorded(StatementRecord(p.fields, Completed));
    CallStepsCount(p.probes);
    forall t: Tag
      ensures Count(probes + [begun, Delegated(call), record], t)
           == Count(probes, t) + Count([begun], t) + Count([Delegated(call)], t) + Count([record], t)
      ensures Count(probes + [begun, record], t)
           == Count(probes, t) + Count([begun], t) + Count([record], t)
    {
      var b, d, c := begun, Delegated(call), record;
      assert probes + [b, d, c] == (probes + [b, d]) + [c];
      assert probes + [b, d] == (probes + [b]) + [d];
      CountAppend(probes + [b, d], [c], t);
      CountAppend(probes + [b], [d], t);
      CountAppend(probes, [b], t);
      assert probes + [b, c] == (probes + [b]) + [c];
      CountAppend(probes + [b], [c], t);
    }
    CountSingle(begun);
    CountSingle(Delegated(call));
    CountSingle(record);
  }

  /** A pass-through operation: forward to the delegate and hand back
      exactly what it returns or throws. */
  function Forwarded<T>(present: bool, call: Call, reply: Reply<T>): (r: Run<T>)
    ensures forall i :: 0 <= i < |r.steps| ==> r.steps[i] == Delegated(call)
    ensures |r.steps| <= 1
    ensures r.outcome.Returns? ==> present && r.outcome == reply
  {
    if present then Run([Delegated(call)], reply) else Run([], Throws(NullPointerException))
  }

  /** A pass-through creates, begins and commits no event. */
  lemma ForwardedTransparent<T>(present: bool, call: Call, reply: Reply<T>)
    ensures var r := Forwarded(present, call, reply);
      Count(r.steps, BeginTag) == 0 && Count(r.steps, CommitTag) == 0
      && Count(r.steps, CallTag) == (if present then 1 else 0)
      && r.outcome == (if present then reply else Throws(NullPointerException))
  {
    assert [Delegated(call)][..0] == [];
  }

  /** cancel: read the connection through the proxy's own `getConnection`
      (a throwable there escapes before the event is begun), set the
      connection id (identity hash, 0 for null) and the statement id, begin,
      forward the cancel, and commit whatever the delegate did. */
  function CancelRun(statementId: int, target: Option<Target>, reply: Reply<()>): (r: Run<()>)
    ensures r.steps == [] <==> target.None?
    ensures r.steps != [] ==> r.steps[0] == Delegated(GetConnection)
    ensures Delegated(Cancel) in r.steps <==> target.Some? && target.value.connection.Returns?
    ensures r.outcome.Returns? ==> Delegated(Cancel) in r.steps && r.outcome == reply
  {
    match target
    case None => Run([], Throws(NullPointerException))
    case Some(t) =>
      match t.connection
      case Throws(e) => Run([Delegated(GetConnection)], Throws(e))
      case Returns(con) =>
        var id := IdentityHash(con);
        Run([Delegated(GetConnection), Began(CancelRecord(id, statementId, Running)), Delegated(Cancel),
             Recorded(CancelRecord(id, statementId, Completed))],
            reply)
  }

  /** cancel creates only a cancel event: begun and committed exactly once
      when `getConnection` succeeds, with both ids already set when it is
      begun and the delegate's outcome passed on; nothing begun when it
      fails. */
  lemma CancelLifecycle(statementId: int, target: Option<Target>, reply: Reply<()>)
    ensures var r := CancelRun(statementId, target, reply);
      forall i :: 0 <= i < |r.steps| ==>
        !((r.steps[i].Began? || r.steps[i].Recorded?) && r.steps[i].record.StatementRecord?)
    ensures var r := CancelRun(statementId, target, reply);
      Count(r.steps, BeginTag) == Count(r.steps, CommitTag) <= 1
    ensures var r := CancelRun(statementId, target, reply);
      target.None? ==> r.steps == [] && r.outcome == Throws(NullPointerException)
    ensures var r := CancelRun(statementId, target, reply);
      target.Some? && target.value.connection.Throws? ==>
        Count(r.steps, BeginTag) == 0 && r.outcome == Throws(target.value.connection.error)
    ensures var r := CancelRun(statementId, target, reply);
      target.Some? && target.value.connection.Returns? ==>
        Count(r.steps, BeginTag) == 1 && |r.steps| == 4
        && r.steps[1] == Began(CancelRecord(IdentityHash(target.value.connection.value), statementId, Running))
        && r.steps[2] == Delegated(Cancel)
        && r.steps[3] == Recorded(CancelRecord(IdentityHash(target.value.connection.value), statementId, Completed))
        && r.outcome == reply
  {
    match target
    case None =>
    case Some(t) =>
      match t.connection
      case Throws(e) =>
        assert [Delegated(GetConnection)][..0] == [];
      case Returns(con) =>
        var s := CancelRun(statementId, target, reply).steps;
        var a, b, c, d := s[0], s[1], s[2], s[3];
        assert s == [a, b] + [c, d];
        forall t: Tag ensures Count(s, t) == Count([a], t) + Count([b], t) + Count([c], t) + Count([d], t) {
          CountAppend([a, b], [c, d], t);
          CountPair(a, b, t);
          CountPair(c, d, t);
        }
        CountSingle(a);
        CountSingle(b);
        CountSingle(c);
        CountSingle(d);
  }

  /** Result sets are always wrapped, even a null one; a throwable passes. */
  function WrapCursor(r: Reply<Option<Cursor>>): Reply<ResultSet> {
    match r
    case Returns(rs) => Returns(JfrResultSet(rs))
    case Throws(e) => Throws(e)
  }

  // ---------------------------------------------------------------------
  // Batch buffer

  /** The sql text executeBatch reports: the buffer, or "" when it is null. */
  function BatchText(buffer: Option<string>): string {
    match buffer
    case None => ""
    case Some(b) => b
  }

  /** The buffer after addBatch: created if null, then `sql` and ";" appended. */
  function Appended(buffer: Option<string>, sql: JString): (r: Option<string>)
    ensures r.Some? && BatchText(buffer) <= r.value
    ensures |r.value| == |BatchText(buffer)| + |Text(sql)| + 1 && r.value[|r.value| - 1] == ';'
  {
    Some(BatchText(buffer) + Text(sql) + ";")
  }

  /** Batch entries joined as `s1;s2;...;sn;`. */
  function Joined(entries: seq<JString>): string {
    if entries == [] then "" else Text(entries[0]) + ";" + Joined(entries[1..])
  }

  lemma {:induction false} JoinedSnoc(entries: seq<JString>, sql: JString)
    ensures Joined(entries + [sql]) == Joined(entries) + Text(sql) + ";"
  {
    if entries == [] {
      assert entries + [sql] == [sql];
      assert [sql][1..] == [];
    } else {
      assert (entries + [sql])[1..] == entries[1..] + [sql];
      JoinedSnoc(entries[1..], sql);
    }
  }

  /** Appending to a buffer that holds the joined entries so far gives the
      joined entries with `sql` added at the end. */
  lemma AppendedJoins(buffer: Option<string>, entries: seq<JString>, sql: JString)
    requires BatchText(buffer) == Joined(entries)
    ensures Appended(buffer, sql).Some?
    ensures BatchText(Appended(buffer, sql)) == Joined(entries + [sql])
  {
    JoinedSnoc(entries, sql);
  }
}
