/** Nothing is written twice and nothing is written unasked: the rows of the append-only
    tables are as many as the requests that report having written one. */
module Accounting {
  import opened Protocol

  predicate IsReplayed(s: State, rid: Rid) {
    IsIngest(s, rid) && s.reqs[rid].ph.Replayed?
  }

  predicate IsLogged(s: State, rid: Rid) {
    rid in s.reqs && s.reqs[rid].ErrorLog? && s.reqs[rid].lph == LDone(true)
  }

  predicate IsRemediated(s: State, rid: Rid) {
    rid in s.reqs && s.reqs[rid].Remediation? && s.reqs[rid].rph == RDone
  }

  /** The requests that wrote a log row: replays and successful error logs. */
  function LogWriters(s: State): set<Rid> {
    set rid | rid in s.reqs && (IsReplayed(s, rid) || IsLogged(s, rid))
  }

  /** The remediations that were answered with success. */
  function ActionWriters(s: State): set<Rid> {
    set rid | rid in s.reqs && IsRemediated(s, rid)
  }

  ghost predicate Balanced(s: State) {
    |s.db.logs| == |LogWriters(s)| && |s.db.acciones| == |ActionWriters(s)|
  }

  /** A set of finished requests gains at most the request that moves. */
  lemma WritersAfter(s: State, s': State, rid: Rid)
    requires SameOthers(s, s', rid) && (rid in s.reqs && Final(s.reqs[rid]) ==> s' == s)
    ensures LogWriters(s') == LogWriters(s) || (rid !in LogWriters(s) && LogWriters(s') == LogWriters(s) + {rid})
    ensures ActionWriters(s') == ActionWriters(s) ||
            (rid !in ActionWriters(s) && ActionWriters(s') == ActionWriters(s) + {rid})
  {
    assert forall r :: r in LogWriters(s') && r != rid <==> r in LogWriters(s) && r != rid;
    assert forall r :: r in ActionWriters(s') && r != rid <==> r in ActionWriters(s) && r != rid;
    if rid in LogWriters(s) || rid in ActionWriters(s) { assert s' == s; }
    assert LogWriters(s') == LogWriters(s) || LogWriters(s') == LogWriters(s) + {rid};
    assert ActionWriters(s') == ActionWriters(s) || ActionWriters(s') == ActionWriters(s) + {rid};
  }

  /** One if `rid` is new in a set. */
  function Joins(rid: Rid, before: set<Rid>, behind: set<Rid>): nat {
    if rid in behind && rid !in before then 1 else 0
  }

  lemma SetsAfterStep(s: State, e: Event)
    ensures var s' := Step(s, e);
      && |LogWriters(s')| == |LogWriters(s)| + Joins(e.rid, LogWriters(s), LogWriters(s'))
      && |ActionWriters(s')| == |ActionWriters(s)| + Joins(e.rid, ActionWriters(s), ActionWriters(s'))
  {
    StepTouchesOwn(s, e);
    if e.rid in s.reqs && Final(s.reqs[e.rid]) { FinishedStays(s, e); }
    WritersAfter(s, Step(s, e), e.rid);
  }

  lemma DuplicateLogAppends(s: State, e: Event)
    requires e.LogDuplicate?
    ensures var s' := Step(s, e);
      |s'.db.logs| == |s.db.logs| + Joins(e.rid, LogWriters(s), LogWriters(s'))
  {
  }

  lemma ErrorLogAppends(s: State, e: Event)
    requires e.CommitLog?
    ensures var s' := Step(s, e);
      |s'.db.logs| == |s.db.logs| + Joins(e.rid, LogWriters(s), LogWriters(s'))
  {
  }

  lemma OthersLogNothing(s: State, e: Event)
    requires !e.LogDuplicate? && !e.CommitLog?
    ensures Step(s, e).db.logs == s.db.logs && (e.rid in LogWriters(Step(s, e)) ==> e.rid in LogWriters(s))
  {
  }

  /** The log table grows by one row exactly when its step makes its request a log writer. */
  lemma LogsAfterStep(s: State, e: Event)
    ensures var s' := Step(s, e);
      |s'.db.logs| == |s.db.logs| + Joins(e.rid, LogWriters(s), LogWriters(s'))
  {
    match e
    case LogDuplicate(_, _) => DuplicateLogAppends(s, e);
    case CommitLog(_, _, _, _) => ErrorLogAppends(s, e);
    case _ => OthersLogNothing(s, e);
  }

  lemma RemediationAppends(s: State, e: Event)
    requires e.CommitRemediation?
    ensures var s' := Step(s, e);
      |s'.db.acciones| == |s.db.acciones| + Joins(e.rid, ActionWriters(s), ActionWriters(s'))
  {
  }

  lemma OthersActNot(s: State, e: Event)
    requires !e.CommitRemediation?
    ensures Step(s, e).db.acciones == s.db.acciones
    ensures e.rid in ActionWriters(Step(s, e)) ==> e.rid in ActionWriters(s)
  {
  }

  lemma ActionsAfterStep(s: State, e: Event)
    ensures var s' := Step(s, e);
      |s'.db.acciones| == |s.db.acciones| + Joins(e.rid, ActionWriters(s), ActionWriters(s'))
  {
    if e.CommitRemediation? { RemediationAppends(s, e); } else { OthersActNot(s, e); }
  }

  lemma StepKeepsBalance(s: State, e: Event)
    requires Balanced(s)
    ensures Balanced(Step(s, e))
  {
    SetsAfterStep(s, e);
    LogsAfterStep(s, e);
    ActionsAfterStep(s, e);
  }

  lemma {:induction false} RunKeepsBalance(s: State, es: seq<Event>)
    requires Balanced(s)
    ensures Balanced(Exec(s, es))
    decreases |es|
  {
    if es != [] {
      StepKeepsBalance(s, es[0]);
      RunKeepsBalance(Step(s, es[0]), es[1..]);
    }
  }

  /** In every run the log rows are as many as the 200 answers and the error loggers that report
      success together, and the action rows as many as the remediations answered with success. */
  lemma RowsAreAccountedFor(es: seq<Event>)
    ensures var s := Exec(INIT, es);
      |s.db.logs| == |LogWriters(s)| && |s.db.acciones| == |ActionWriters(s)|
  {
    assert LogWriters(INIT) == {} && ActionWriters(INIT) == {};
    RunKeepsBalance(INIT, es);
  }
}
