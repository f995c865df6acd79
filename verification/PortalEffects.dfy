/** The protocol and the session together: what the upstream sees of a portal. */
module PortalEffects {
  import Wire
  import PgSession
  import PgRuns
  import opened ClientSession
  import opened SessionRules

  /** The session under the protocol: how it classifies a query text, and the
      database it is on and what Milvus answers at each moment of the log. */
  datatype Backend = Backend(classify: string -> Command, db: nat -> string, world: nat -> World)

  function Changes(calls: seq<Call>): nat {
    if calls == [] then 0 else (if Mutates(calls[0]) then 1 else 0) + Changes(calls[1..])
  }

  /** The changing calls made by the event at position k of the log. */
  function EventChanges(e: PgSession.Event, k: nat, b: Backend): nat {
    if e.Ran? then Changes(HandleQuery(b.classify(e.query), e.describe, b.db(k), b.world(k)).calls) else 0
  }

  /** The changing calls made for a portal, by a log that starts at position k. */
  function PortalChanges(log: seq<PgSession.Event>, id: nat, k: nat, b: Backend): nat
    decreases |log|
  {
    if log == [] then 0
    else (if log[0].Ran? && log[0].portal == id then EventChanges(log[0], k, b) else 0)
         + PortalChanges(log[1..], id, k + 1, b)
  }

  lemma {:induction false} ReadsChangeNothing(calls: seq<Call>)
    requires forall c :: c in calls ==> !Mutates(c)
    ensures Changes(calls) == 0
  {
    if calls != [] { ReadsChangeNothing(calls[1..]); }
  }

  lemma {:induction false} LastChangesOnce(calls: seq<Call>)
    requires ChangesLast(calls)
    ensures Changes(calls) <= 1
  {
    if |calls| > 1 {
      assert forall k :: 0 <= k < |calls| - 2 ==> calls[1..][k] == calls[k + 1];
      LastChangesOnce(calls[1..]);
    }
  }

  /** One execution changes at most one thing, one description nothing. */
  lemma EventChangesOnce(e: PgSession.Event, k: nat, b: Backend)
    requires e.Ran?
    ensures EventChanges(e, k, b) <= if e.describe then 0 else 1
  {
    hide HandleQuery, Changes, Mutates;
    var c, db, w := b.classify(e.query), b.db(k), b.world(k);
    if e.describe {
      DescribeReadsOnly(c, db, w);
      ReadsChangeNothing(HandleQuery(c, true, db, w).calls);
    } else {
      StatementOrderly(c, false, db, w);
      LastChangesOnce(HandleQuery(c, false, db, w).calls);
    }
  }

  lemma {:induction false} ChangesBounded(log: seq<PgSession.Event>, id: nat, k: nat, b: Backend)
    ensures PortalChanges(log, id, k, b) <= PgRuns.Executions(log, id)
    decreases |log|
  {
    hide EventChanges;
    if log != [] {
      if log[0].Ran? { EventChangesOnce(log[0], k, b); }
      ChangesBounded(log[1..], id, k + 1, b);
    }
  }

  /** Whatever messages a client sends, and whatever fails, binding a portal lets
      Milvus be changed at most once: no message sequence repeats an INSERT. */
  lemma OneChangePerPortal(inputs: seq<PgSession.Input>, lib: Wire.FloatLib, id: nat, b: Backend)
    requires id >= 1
    ensures PortalChanges(PgSession.Run(PgSession.INITIAL, inputs, lib).events, id, 0, b) <= 1
  {
    hide PortalChanges, PgRuns.Executions, PgSession.Run;
    PgRuns.AtMostOneExecution(inputs, lib, id);
    ChangesBounded(PgSession.Run(PgSession.INITIAL, inputs, lib).events, id, 0, b);
  }
}
