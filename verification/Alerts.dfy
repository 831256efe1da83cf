/** Saved analyses and alerts, and the alert lifecycle under interleaving
    (src/heron/core/analysis_storage.py, src/heron/analysis/alerts.py). */
module Alerts {
  import opened Wrappers

  datatype Verdict = Clean | Suspicious | Phishing

  datatype Assessment = Assessment(score: int, verdict: Verdict, rulesVersion: string)

  datatype AlertStatus = Open | Acknowledged | Resolved | FalsePositive

  datatype AlertSeverity = MediumAlert | HighAlert

  datatype Analysis = Analysis(score: int, verdict: Verdict, rulesVersion: string, analyzedAt: int)

  datatype Alert = Alert(emailId: nat, status: AlertStatus, severity: AlertSeverity, verdict: Verdict, score: int,
                         rulesVersion: string, createdAt: int, updatedAt: int,
                         acknowledgedAt: Option<int>, closedAt: Option<int>)

  /** The two tables. Analyses are keyed by their unique email, alerts by their id. */
  datatype Store = Store(analyses: map<nat, Analysis>, alerts: map<nat, Alert>, nextAlert: nat)

  // ------------------------------------------------------------------ saving

  predicate CanTransition(current: AlertStatus, target: AlertStatus) {
    match current
    case Open => target != Open
    case Acknowledged => target == Resolved || target == FalsePositive
    case Resolved => target == Open
    case FalsePositive => target == Open
  }

  ghost predicate HasAlert(s: Store, emailId: nat) {
    exists a :: a in s.alerts && s.alerts[a].emailId == emailId
  }

  function Saved(s: Store, emailId: nat, a: Assessment, stamp: int): Store {
    s.(analyses := s.analyses[emailId := Analysis(a.score, a.verdict, a.rulesVersion, stamp)])
  }

  /** The columns that a re-score refreshes; status and created_at are not among them. */
  function Refreshed(alert: Alert, a: Assessment, stamp: int): Alert {
    alert.(severity := if a.verdict.Phishing? then HighAlert else MediumAlert, verdict := a.verdict,
           score := a.score, rulesVersion := a.rulesVersion, updatedAt := stamp)
  }

  function NewAlert(emailId: nat, a: Assessment, stamp: int): Alert {
    Alert(emailId, Open, if a.verdict.Phishing? then HighAlert else MediumAlert, a.verdict, a.score,
          a.rulesVersion, stamp, stamp, None, None)
  }

  /** Insert, or refresh the row with the same email. */
  ghost function AlertUpserted(s: Store, emailId: nat, a: Assessment, stamp: int): Store {
    if HasAlert(s, emailId) then
      s.(alerts := map id | id in s.alerts ::
           if s.alerts[id].emailId == emailId then Refreshed(s.alerts[id], a, stamp) else s.alerts[id])
    else
      s.(alerts := s.alerts[s.nextAlert := NewAlert(emailId, a, stamp)], nextAlert := s.nextAlert + 1)
  }

  /** Both writes of one transaction; a clean verdict leaves any alert alone. */
  ghost function Assessed(s: Store, emailId: nat, a: Assessment, stamp: int): Store {
    var saved := Saved(s, emailId, a, stamp);
    if a.verdict.Clean? then saved else AlertUpserted(saved, emailId, a, stamp)
  }

  /** The changes of a status move at `stamp`. */
  function Moved(alert: Alert, target: AlertStatus, stamp: int): Alert {
    var moved := alert.(status := target, updatedAt := stamp);
    match target
    case Acknowledged => moved.(acknowledgedAt := Some(stamp))
    case Open => moved.(acknowledgedAt := None, closedAt := None)
    case _ => moved.(closedAt := Some(stamp))
  }

  // ------------------------------------------------------------------ interleaved steps

  /** A status change between its read and its guarded update. */
  datatype Session = Session(alertId: nat, seen: AlertStatus, target: AlertStatus)

  datatype State = State(store: Store, sessions: map<nat, Session>)

  datatype Label =
    | Assess(emailId: nat, assessment: Assessment, stamp: int)
    | Read(session: nat, alertId: nat, target: AlertStatus)
    | Write(session: nat, stamp: int)
    | Abandon(session: nat)

  predicate Enabled(s: State, l: Label) {
    match l
    case Assess(_, _, _) => true
    case Read(id, alertId, target) =>
      id !in s.sessions && alertId in s.store.alerts && CanTransition(s.store.alerts[alertId].status, target)
    case Write(id, _) => id in s.sessions
    case Abandon(id) => id in s.sessions
  }

  predicate HasStatus(s: Store, alertId: nat, status: AlertStatus) {
    alertId in s.alerts && s.alerts[alertId].status == status
  }

  /** The guarded update changes a row only if the status is still the one that was read. */
  function Committed(s: Store, c: Session, stamp: int): Store {
    if HasStatus(s, c.alertId, c.seen)
    then s.(alerts := s.alerts[c.alertId := Moved(s.alerts[c.alertId], c.target, stamp)])
    else s
  }

  ghost function Apply(s: State, l: Label): State
    requires Enabled(s, l)
  {
    match l
    case Assess(emailId, a, stamp) => s.(store := Assessed(s.store, emailId, a, stamp))
    case Read(id, alertId, target) =>
      s.(sessions := s.sessions[id := Session(alertId, s.store.alerts[alertId].status, target)])
    case Write(id, stamp) => s.(store := Committed(s.store, s.sessions[id], stamp), sessions := s.sessions - {id})
    case Abandon(id) => s.(sessions := s.sessions - {id})
  }

  ghost function Run(s: State, ls: seq<Label>): Option<State> {
    if ls == [] then Some(s) else
    var before := Run(s, ls[..|ls| - 1]);
    var l := ls[|ls| - 1];
    if before.Some? && Enabled(before.value, l) then Some(Apply(before.value, l)) else None
  }

  // ------------------------------------------------------------------ the invariant

  /** The timestamps agree with the status. */
  predicate TimesOk(a: Alert) {
    match a.status
    case Open => a.acknowledgedAt.None? && a.closedAt.None?
    case Acknowledged => a.acknowledgedAt.Some? && a.closedAt.None?
    case _ => a.closedAt.Some?
  }

  predicate ContentOk(a: Alert) {
    !a.verdict.Clean? && (a.severity.HighAlert? <==> a.verdict.Phishing?)
  }

  predicate Mirrors(alert: Alert, a: Analysis) {
    alert.score == a.score && alert.verdict == a.verdict && alert.rulesVersion == a.rulesVersion
  }

  ghost predicate Flagged(s: Store, emailId: nat)
    requires emailId in s.analyses
  {
    exists id :: id in s.alerts && s.alerts[id].emailId == emailId && Mirrors(s.alerts[id], s.analyses[emailId])
  }

  /** One alert per email, consistent alerts, and an equal alert for every flagged analysis. */
  ghost predicate StoreOk(s: Store) {
    && (forall id :: id in s.alerts ==> id < s.nextAlert && TimesOk(s.alerts[id]) && ContentOk(s.alerts[id]))
    && (forall i, j :: i in s.alerts && j in s.alerts && s.alerts[i].emailId == s.alerts[j].emailId ==> i == j)
    && forall e :: e in s.analyses && !s.analyses[e].verdict.Clean? ==> Flagged(s, e)
  }

  /** A pending status change was legal when its status was read. */
  predicate SessionsOk(s: State) {
    forall id :: id in s.sessions ==> CanTransition(s.sessions[id].seen, s.sessions[id].target)
  }

  ghost predicate Inv(s: State) {
    StoreOk(s.store) && SessionsOk(s)
  }

  lemma {:induction false} AssessedFlagged(s: Store, emailId: nat, a: Assessment, stamp: int)
    requires StoreOk(s) && !a.verdict.Clean?
    ensures Flagged(Assessed(s, emailId, a, stamp), emailId)
  {
    var t := Assessed(s, emailId, a, stamp);
    if id :| id in s.alerts && s.alerts[id].emailId == emailId {
      assert t.alerts[id] == Refreshed(s.alerts[id], a, stamp);
    } else {
      assert t.alerts[s.nextAlert] == NewAlert(emailId, a, stamp);
    }
  }

  lemma {:induction false} OthersFlagged(s: Store, emailId: nat, a: Assessment, stamp: int, e: nat)
    requires StoreOk(s) && e != emailId && e in s.analyses && !s.analyses[e].verdict.Clean?
    ensures Flagged(Assessed(s, emailId, a, stamp), e)
  {
    var id :| id in s.alerts && s.alerts[id].emailId == e && Mirrors(s.alerts[id], s.analyses[e]);
    assert Assessed(s, emailId, a, stamp).alerts[id] == s.alerts[id];
  }

  lemma {:induction false} AssessedOk(s: Store, emailId: nat, a: Assessment, stamp: int)
    requires StoreOk(s)
    ensures StoreOk(Assessed(s, emailId, a, stamp))
  {
    var t := Assessed(s, emailId, a, stamp);
    forall e | e in t.analyses && !t.analyses[e].verdict.Clean? ensures Flagged(t, e) {
      if e == emailId {
        AssessedFlagged(s, emailId, a, stamp);
      } else {
        OthersFlagged(s, emailId, a, stamp, e);
      }
    }
  }

  // ------------------------------------------------------------------ what each write leaves behind

  /** The first assessment that flags an email creates its alert: open, never handled, and
      carrying the assessment. */
  lemma {:induction false} FirstAlertIsOpen(s: Store, emailId: nat, a: Assessment, stamp: int)
    requires StoreOk(s) && !a.verdict.Clean? && !HasAlert(s, emailId)
    ensures var t, id := Assessed(s, emailId, a, stamp), s.nextAlert;
            && id !in s.alerts && t.alerts.Keys == s.alerts.Keys + {id}
            && (forall other :: other in s.alerts ==> t.alerts[other] == s.alerts[other])
            && t.alerts[id].emailId == emailId && t.alerts[id].status == Open
            && t.alerts[id].createdAt == stamp && t.alerts[id].updatedAt == stamp
            && t.alerts[id].acknowledgedAt == None && t.alerts[id].closedAt == None
            && Carries(t.alerts[id], a)
  {
  }

  /** The alert shows the assessment, phishing as high and anything else as medium. */
  predicate Carries(alert: Alert, a: Assessment) {
    && alert.score == a.score && alert.verdict == a.verdict && alert.rulesVersion == a.rulesVersion
    && alert.severity == if a.verdict == Phishing then HighAlert else MediumAlert
  }

  /** A later flagging refreshes the email's alert and no other; its handling stays. A clean
      assessment leaves all alerts alone. */
  lemma {:induction false} RescoreRefreshes(s: Store, emailId: nat, a: Assessment, stamp: int, id: nat)
    requires StoreOk(s) && id in s.alerts && s.alerts[id].emailId == emailId
    ensures var t := Assessed(s, emailId, a, stamp);
            && t.alerts.Keys == s.alerts.Keys
            && (forall other :: other in s.alerts && other != id ==> t.alerts[other] == s.alerts[other])
            && SameHandling(s.alerts[id], t.alerts[id]) && t.alerts[id].emailId == emailId
            && (!a.verdict.Clean? ==> Carries(t.alerts[id], a) && t.alerts[id].updatedAt == stamp)
            && (a.verdict.Clean? ==> t.alerts == s.alerts)
  {
  }

  /** The email's analysis is the new assessment; other emails keep theirs. */
  lemma {:induction false} AnalysisIsSaved(s: Store, emailId: nat, a: Assessment, stamp: int)
    ensures var t := Assessed(s, emailId, a, stamp);
            && t.analyses.Keys == s.analyses.Keys + {emailId}
            && (forall other :: other in s.analyses && other != emailId ==> t.analyses[other] == s.analyses[other])
            && t.analyses[emailId].score == a.score && t.analyses[emailId].verdict == a.verdict
            && t.analyses[emailId].rulesVersion == a.rulesVersion && t.analyses[emailId].analyzedAt == stamp
  {
  }

  /** The moves that the lifecycle allows, one by one. */
  lemma {:induction false} TransitionTable(current: AlertStatus, target: AlertStatus)
    ensures CanTransition(current, target) <==>
            (current, target) in {(Open, Acknowledged), (Open, Resolved), (Open, FalsePositive),
                                  (Acknowledged, Resolved), (Acknowledged, FalsePositive),
                                  (Resolved, Open), (FalsePositive, Open)}
  {
    match current { case Open => case Acknowledged => case Resolved => case FalsePositive => }
    match target { case Open => case Acknowledged => case Resolved => case FalsePositive => }
  }

  /** A move sets the time of what was done, reopening forgets both, and the content stays. */
  lemma {:induction false} MoveEffects(s: Store, c: Session, stamp: int)
    requires HasStatus(s, c.alertId, c.seen)
    ensures var before, t := s.alerts[c.alertId], Committed(s, c, stamp);
            && t.alerts.Keys == s.alerts.Keys && t.analyses == s.analyses
            && (forall other :: other in s.alerts && other != c.alertId ==> t.alerts[other] == s.alerts[other])
            && var after := t.alerts[c.alertId];
            && after.status == c.target && after.updatedAt == stamp && after.createdAt == before.createdAt
            && after.emailId == before.emailId && after.score == before.score && after.verdict == before.verdict
            && after.severity == before.severity && after.rulesVersion == before.rulesVersion
            && (c.target == Open ==> after.acknowledgedAt == None && after.closedAt == None)
            && (c.target == Acknowledged ==> after.acknowledgedAt == Some(stamp) && after.closedAt == before.closedAt)
            && (c.target == Resolved || c.target == FalsePositive ==>
                  after.closedAt == Some(stamp) && after.acknowledgedAt == before.acknowledgedAt)
  {
  }

  lemma {:induction false} CommittedOk(s: Store, c: Session, stamp: int)
    requires StoreOk(s) && CanTransition(c.seen, c.target)
    ensures StoreOk(Committed(s, c, stamp))
  {
    var t := Committed(s, c, stamp);
    forall e | e in t.analyses && !t.analyses[e].verdict.Clean? ensures Flagged(t, e) {
      var id :| id in s.alerts && s.alerts[id].emailId == e && Mirrors(s.alerts[id], s.analyses[e]);
      assert Mirrors(t.alerts[id], t.analyses[e]);
    }
  }

  /** The invariant holds in every state of every run. */
  lemma {:induction false} InvRun(s: State, ls: seq<Label>)
    requires Inv(s) && Run(s, ls).Some?
    ensures Inv(Run(s, ls).value)
  {
    if ls != [] {
      var init, l := ls[..|ls| - 1], ls[|ls| - 1];
      InvRun(s, init);
      var before := Run(s, init).value;
      match l {
        case Assess(emailId, a, stamp) => AssessedOk(before.store, emailId, a, stamp);
        case Write(id, stamp) => CommittedOk(before.store, before.sessions[id], stamp);
        case _ =>
      }
    }
  }

  // ------------------------------------------------------------------ what may happen to an alert

  /** The alert keeps its email and creation time, and its status stays or follows an edge. */
  predicate LegalStep(before: Alert, after: Alert) {
    && after.emailId == before.emailId && after.createdAt == before.createdAt
    && (after.status == before.status || CanTransition(before.status, after.status))
  }

  /** A person's handling of the alert. */
  predicate SameHandling(before: Alert, after: Alert) {
    && after.status == before.status && after.createdAt == before.createdAt
    && after.acknowledgedAt == before.acknowledgedAt && after.closedAt == before.closedAt
  }

  /** Every step keeps every alert, and changes its status only along an edge from the status
      that is stored at that moment, and only by the guarded update. */
  lemma {:induction false} EveryChangeIsAnEdge(s: State, l: Label, id: nat)
    requires Inv(s) && Enabled(s, l) && id in s.store.alerts
    ensures id in Apply(s, l).store.alerts
    ensures LegalStep(s.store.alerts[id], Apply(s, l).store.alerts[id])
    ensures !l.Write? ==> SameHandling(s.store.alerts[id], Apply(s, l).store.alerts[id])
  {
  }

  lemma {:induction false} RunPrefix(s: State, ls: seq<Label>, n: nat)
    requires Run(s, ls).Some? && n < |ls|
    ensures Run(s, ls[..n]).Some? && Enabled(Run(s, ls[..n]).value, ls[n])
    ensures Run(s, ls[..n + 1]) == Some(Apply(Run(s, ls[..n]).value, ls[n]))
  {
    if n < |ls| - 1 {
      var init := ls[..|ls| - 1];
      RunPrefix(s, init, n);
      assert init[..n] == ls[..n] && init[..n + 1] == ls[..n + 1];
    } else {
      assert ls[..n + 1] == ls;
    }
  }

  /** So in every run, at every point, an existing alert stays and its status stays or follows
      an edge of the lifecycle from the status stored just before. */
  lemma {:induction false} LegalHistory(s: State, ls: seq<Label>, n: nat, id: nat)
    requires Inv(s) && Run(s, ls).Some? && n < |ls|
    requires Run(s, ls[..n]).Some? && id in Run(s, ls[..n]).value.store.alerts
    ensures Run(s, ls[..n + 1]).Some? && id in Run(s, ls[..n + 1]).value.store.alerts
    ensures LegalStep(Run(s, ls[..n]).value.store.alerts[id], Run(s, ls[..n + 1]).value.store.alerts[id])
  {
    RunPrefix(s, ls, n);
    InvRun(s, ls[..n]);
    EveryChangeIsAnEdge(Run(s, ls[..n]).value, ls[n], id);
  }

  /** An alert that a step brings into being was flagged by that step, and is open and unhandled. */
  lemma {:induction false} BornOpen(s: State, l: Label, id: nat)
    requires Inv(s) && Enabled(s, l) && id !in s.store.alerts && id in Apply(s, l).store.alerts
    ensures l.Assess? && !l.assessment.verdict.Clean?
    ensures var alert := Apply(s, l).store.alerts[id];
            && alert.emailId == l.emailId && alert.status == Open && Carries(alert, l.assessment)
            && alert.createdAt == l.stamp && alert.updatedAt == l.stamp
            && alert.acknowledgedAt == None && alert.closedAt == None
  {
    if l.Assess? && !l.assessment.verdict.Clean? && !HasAlert(s.store, l.emailId) {
      FirstAlertIsOpen(s.store, l.emailId, l.assessment, l.stamp);
    }
  }

  /** So in every run each alert starts its life open, by an assessment that flagged its email. */
  lemma {:induction false} BornOpenInRuns(s: State, ls: seq<Label>, n: nat, id: nat)
    requires Inv(s) && Run(s, ls).Some? && n < |ls|
    requires Run(s, ls[..n]).Some? && id !in Run(s, ls[..n]).value.store.alerts
    requires Run(s, ls[..n + 1]).Some? && id in Run(s, ls[..n + 1]).value.store.alerts
    ensures ls[n].Assess? && !ls[n].assessment.verdict.Clean?
    ensures var alert := Run(s, ls[..n + 1]).value.store.alerts[id];
            && alert.emailId == ls[n].emailId && alert.status == Open && alert.createdAt == ls[n].stamp
            && alert.acknowledgedAt == None && alert.closedAt == None
  {
    RunPrefix(s, ls, n);
    InvRun(s, ls[..n]);
    BornOpen(Run(s, ls[..n]).value, ls[n], id);
  }

  /** Two people who read the same status: the second guarded update changes nothing, whichever
      moves they chose. */
  lemma {:induction false} SecondWriterLoses(s: State, first: nat, second: nat, stamp: int, stamp': int)
    requires Inv(s) && first in s.sessions && second in s.sessions && first != second
    requires s.sessions[first].alertId == s.sessions[second].alertId && s.sessions[first].alertId in s.store.alerts
    requires s.sessions[first].seen == s.sessions[second].seen == s.store.alerts[s.sessions[first].alertId].status
    ensures var once := Apply(s, Write(first, stamp));
            Enabled(once, Write(second, stamp')) && Apply(once, Write(second, stamp')).store == once.store
  {
  }

  predicate Touches(s: State, l: Label, id: nat) {
    l.Write? && l.session in s.sessions && s.sessions[l.session].alertId == id
  }

  /** Re-scoring never undoes a decision: as long as nobody changes an alert's status, any number
      of assessments leave its status, its creation time and its handling times as they are. */
  lemma {:induction false} DecisionSurvives(s: State, ls: seq<Label>, id: nat)
    requires Inv(s) && Run(s, ls).Some? && id in s.store.alerts
    requires forall i :: 0 <= i < |ls| && Run(s, ls[..i]).Some? ==> !Touches(Run(s, ls[..i]).value, ls[i], id)
    ensures id in Run(s, ls).value.store.alerts
    ensures SameHandling(s.store.alerts[id], Run(s, ls).value.store.alerts[id])
  {
    if ls != [] {
      var init, l := ls[..|ls| - 1], ls[|ls| - 1];
      forall i | 0 <= i < |init| && Run(s, init[..i]).Some? ensures !Touches(Run(s, init[..i]).value, init[i], id) {
        assert init[..i] == ls[..i];
      }
      DecisionSurvives(s, init, id);
      InvRun(s, init);
      EveryChangeIsAnEdge(Run(s, init).value, l, id);
      assert !Touches(Run(s, init).value, l, id);
      OthersKeepHandling(Run(s, init).value, l, id);
    }
  }

  lemma {:induction false} OthersKeepHandling(s: State, l: Label, id: nat)
    requires Inv(s) && Enabled(s, l) && id in s.store.alerts && !Touches(s, l, id)
    ensures id in Apply(s, l).store.alerts && SameHandling(s.store.alerts[id], Apply(s, l).store.alerts[id])
  {
  }

  // ------------------------------------------------------------------ the tables in place

  datatype StatusError = InvalidTransition

  lemma {:induction false} WriteRuns(start: State, trace: seq<Label>, s: State, session: nat, stamp: int)
    requires Inv(s) && Run(start, trace) == Some(s) && session in s.sessions
    ensures Run(start, trace + [Write(session, stamp)]) == Some(Apply(s, Write(session, stamp)))
    ensures Inv(Apply(s, Write(session, stamp)))
  {
    CommittedOk(s.store, s.sessions[session], stamp);
    assert (trace + [Write(session, stamp)])[..|trace|] == trace;
  }

  class AlertStore {
    var store: Store
    ghost var sessions: map<nat, Session>
    ghost var start: State
    ghost var trace: seq<Label>

    ghost function View(): State
      reads this
    {
      State(store, sessions)
    }

    /** The history since `start` is a run that began in a consistent state. */
    ghost predicate Valid()
      reads this
    {
      Inv(start) && Run(start, trace) == Some(View()) && Inv(View())
    }

    constructor ()
      ensures Valid() && trace == [] && View() == State(Store(map[], map[], 0), map[])
    {
      store, sessions, trace := Store(map[], map[], 0), map[], [];
      start := State(Store(map[], map[], 0), map[]);
    }

    /** The id of the email's alert, if it has one. */
    method FindAlert(emailId: nat) returns (found: Option<nat>)
      requires Valid()
      ensures found.Some? ==> found.value in store.alerts && store.alerts[found.value].emailId == emailId
      ensures found.None? ==> !HasAlert(store, emailId)
    {
      var todo: set<nat> := store.alerts.Keys;
      found := None;
      while todo != {}
        invariant todo <= store.alerts.Keys
        invariant forall id :: id in store.alerts && id !in todo ==> store.alerts[id].emailId != emailId
        decreases |todo|
      {
        var id :| id in todo;
        if store.alerts[id].emailId == emailId {
          return Some(id);
        }
        todo := todo - {id};
      }
    }

    /** Saves the analysis and, if the message was flagged, its alert. Returns the alert's id. */
    method RecordAssessment(emailId: nat, a: Assessment, stamp: int) returns (alertId: Option<nat>)
      requires Valid()
      modifies this
      ensures Valid() && start == old(start) && trace == old(trace) + [Assess(emailId, a, stamp)]
      ensures View() == State(Assessed(old(store), emailId, a, stamp), old(sessions))
      ensures alertId.None? <==> a.verdict.Clean?
      ensures alertId.Some? ==> alertId.value in store.alerts && store.alerts[alertId.value].emailId == emailId
      ensures !a.verdict.Clean? && !HasAlert(old(store), emailId) ==>
                && alertId.value !in old(store).alerts
                && var alert := store.alerts[alertId.value];
                && alert.status == Open && alert.createdAt == stamp && alert.updatedAt == stamp
                && alert.acknowledgedAt == None && alert.closedAt == None && Carries(alert, a)
    {
      ghost var before, l := View(), Assess(emailId, a, stamp);
      AssessedOk(before.store, emailId, a, stamp);
      assert (trace + [l])[..|trace|] == trace;
      var existing := FindAlert(emailId);
      store := store.(analyses := store.analyses[emailId := Analysis(a.score, a.verdict, a.rulesVersion, stamp)]);
      alertId := None;
      if !a.verdict.Clean? {
        if existing.Some? {
          var id := existing.value;
          store := store.(alerts := store.alerts[id := Refreshed(store.alerts[id], a, stamp)]);
          alertId := existing;
        } else {
          alertId := Some(store.nextAlert);
          store := store.(alerts := store.alerts[store.nextAlert := NewAlert(emailId, a, stamp)],
                          nextAlert := store.nextAlert + 1);
        }
      }
      assert store == Assessed(before.store, emailId, a, stamp);
      if !a.verdict.Clean? && existing.None? { FirstAlertIsOpen(before.store, emailId, a, stamp); }
      trace := trace + [l];
    }

    /** Anything that others may do to the tables. */
    method Others(ghost session: nat)
      requires Valid() && session in sessions
      modifies this
      ensures Valid() && start == old(start)
      ensures session in sessions && sessions[session] == old(sessions)[session]
    {
    }

    /** The update that happens only if the status is still the one that was read. */
    method GuardedUpdate(ghost session: nat, alertId: nat, current: AlertStatus, target: AlertStatus, stamp: int)
      returns (changed: bool)
      requires Valid() && session in sessions && sessions[session] == Session(alertId, current, target)
      modifies this
      ensures Valid() && start == old(start) && trace == old(trace) + [Write(session, stamp)]
      ensures changed <==> HasStatus(old(store), alertId, current)
      ensures store == Committed(old(store), Session(alertId, current, target), stamp)
      ensures changed ==> HasStatus(store, alertId, target)
    {
      ghost var w := Write(session, stamp);
      WriteRuns(start, trace, View(), session, stamp);
      changed := HasStatus(store, alertId, current);
      if changed {
        store := store.(alerts := store.alerts[alertId := Moved(store.alerts[alertId], target, stamp)]);
      }
      sessions, trace := sessions - {session}, trace + [w];
    }

    /** Moves an alert to `target`: reads the status, checks the move, and updates the row only if
        the status is still the one that was read. None when the alert does not exist. */
    method SetAlertStatus(ghost session: nat, alertId: nat, target: AlertStatus, stamp: int)
      returns (result: Result<Option<Alert>, StatusError>)
      requires Valid() && session !in sessions
      modifies this
      ensures Valid() && start == old(View())
      ensures alertId !in old(store).alerts ==> result == Ok(None) && store == old(store)
      ensures alertId in old(store).alerts && !CanTransition(old(store).alerts[alertId].status, target) ==>
                result == Err(InvalidTransition) && store == old(store)
      ensures result.Ok? && result.value.Some? ==>
                && alertId in store.alerts && store.alerts[alertId] == result.value.value
                && result.value.value.status == target && trace != [] && trace[|trace| - 1] == Write(session, stamp)
      ensures alertId in old(store).alerts && CanTransition(old(store).alerts[alertId].status, target) ==>
                && trace != [] && trace[|trace| - 1] == Write(session, stamp)
                && var atWrite := Run(start, trace[..|trace| - 1]);
                && atWrite.Some?
                && (result.Ok? <==> HasStatus(atWrite.value.store, alertId, old(store).alerts[alertId].status))
    {
      start, trace := View(), [];
      if alertId !in store.alerts {
        return Ok(None);
      }
      var current := store.alerts[alertId].status;
      if !CanTransition(current, target) {
        return Err(InvalidTransition);
      }
      ghost var l := Read(session, alertId, target);
      assert [l][..0] == [];
      sessions, trace := sessions[session := Session(alertId, current, target)], [l];
      Others(session);
      ghost var past := trace;
      var changed := GuardedUpdate(session, alertId, current, target, stamp);
      assert trace[..|past|] == past;
      result := if changed then Ok(Some(store.alerts[alertId])) else Err(InvalidTransition);
    }
  }
}
